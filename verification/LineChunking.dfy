/**
  Overlapping chunks of a transcript for retrieval. Starts are a fixed step apart and do not
  look at where the character budget cut the chunk before, so a line can fall between two
  chunks. `EveryLineCovered` says exactly when none does.
 */
module LineChunking {
  import opened Text

  /** `lineStart` and `lineEnd` are the first and last line, counted from 1. */
  datatype Chunk = Chunk(lineStart: nat, lineEnd: nat, text: string)

  datatype Chunking = Chunking(maxLines: int, overlap: int, maxChars: int)

  function Step(c: Chunking): (step: nat)
    ensures step >= 1
  {
    if c.maxLines - c.overlap > 1 then c.maxLines - c.overlap else 1
  }

  /** Where chunk `k` starts: `k` steps in. */
  function Start(k: nat, c: Chunking): nat {
    if k == 0 then 0 else Start(k - 1, c) + Step(c)
  }

  lemma {:induction false} StartIsMultiple(k: nat, c: Chunking)
    ensures Start(k, c) == k * Step(c)
  {
    if k > 0 {
      StartIsMultiple(k - 1, c);
      assert k * Step(c) == (k - 1) * Step(c) + Step(c);
    }
  }

  lemma {:induction false} StartsApart(j: nat, k: nat, c: Chunking)
    requires j <= k
    ensures Start(j, c) <= Start(k, c)
    ensures j < k ==> Start(j, c) + Step(c) <= Start(k, c)
  {
    if j < k {
      StartsApart(j, k - 1, c);
    }
  }

  /** Lines `s` up to but not including `e` may form a chunk: within both limits, or a single line. */
  ghost predicate Fits(lines: seq<string>, s: nat, e: nat, c: Chunking) {
    s < e <= |lines| && (e == s + 1 || (e - s <= c.maxLines && JoinedLength(lines[s..e]) <= c.maxChars))
  }

  /** `e` ends the longest run of lines from `s` that may form a chunk. */
  ghost predicate LongestFit(lines: seq<string>, s: nat, e: nat, c: Chunking) {
    Fits(lines, s, e, c) && !Fits(lines, s, e + 1, c)
  }

  /** The chunk holds the longest run of lines that starts at `s`. */
  ghost predicate HasRange(chunk: Chunk, lines: seq<string>, s: nat, c: Chunking) {
    chunk.lineStart == s + 1 && LongestFit(lines, s, chunk.lineEnd, c)
  }

  ghost predicate HasText(chunk: Chunk, lines: seq<string>) {
    && 1 <= chunk.lineStart <= chunk.lineEnd <= |lines|
    && chunk.text == Strip(Join(lines[chunk.lineStart - 1..chunk.lineEnd], '\n'))
  }

  /** One chunk for every start, up to the last start that is still within the lines. */
  ghost predicate IsLayout(chunks: seq<Chunk>, lines: seq<string>, c: Chunking) {
    && (forall k :: 0 <= k < |chunks| ==> HasRange(chunks[k], lines, Start(k, c), c))
    && |lines| <= Start(|chunks|, c)
    && (chunks != [] ==> Start(|chunks| - 1, c) < |lines|)
  }

  lemma FitsShorter(lines: seq<string>, s: nat, s': nat, e': nat, e: nat, c: Chunking)
    requires Fits(lines, s, e, c) && s <= s' < e' <= e
    ensures Fits(lines, s', e', c)
  {
    var a, b, d := lines[s..s'], lines[s'..e'], lines[e'..e];
    assert lines[s..e] == a + b + d;
    StretchIsShorter(a, b, d);
  }

  /** The inner loop: collect lines from `i` while both limits allow. */
  method CollectLines(lines: seq<string>, i: nat, c: Chunking) returns (j: nat)
    requires i < |lines|
    ensures i < j <= |lines| && LongestFit(lines, i, j, c)
  {
    j := i;
    var charBudget := 0;
    assert lines[i..i] == [];
    while j < |lines| && j - i < c.maxLines
      invariant i <= j <= |lines| && charBudget == JoinedLength(lines[i..j])
      invariant j > i ==> Fits(lines, i, j, c)
    {
      var projected := charBudget + (if j > i then 1 else 0) + |lines[j]|;
      JoinedLengthAppend(lines[i..j], [lines[j]]);
      assert lines[i..j + 1] == lines[i..j] + [lines[j]];
      if j > i && projected > c.maxChars {
        return;
      }
      charBudget := projected;
      j := j + 1;
    }
    if j == i {
      j := i + 1;
    }
  }

  method ChunkText(lines: seq<string>, i: nat, j: nat) returns (chunk: Chunk)
    requires i < j <= |lines|
    ensures chunk.lineStart == i + 1 && chunk.lineEnd == j && HasText(chunk, lines)
  {
    var text := Strip(Join(lines[i..j], '\n'));
    chunk := Chunk(i + 1, j, text);
  }

  /** The chunks made so far, with the next one to start at `i`. */
  ghost predicate LaidOut(chunks: seq<Chunk>, i: nat, lines: seq<string>, c: Chunking) {
    && i == Start(|chunks|, c)
    && (forall k :: 0 <= k < |chunks| ==> HasRange(chunks[k], lines, Start(k, c), c) && HasText(chunks[k], lines))
    && (chunks != [] ==> Start(|chunks| - 1, c) < |lines|)
  }

  lemma LayNext(chunks: seq<Chunk>, i: nat, chunk: Chunk, lines: seq<string>, c: Chunking)
    requires LaidOut(chunks, i, lines, c) && i < |lines| && HasRange(chunk, lines, i, c) && HasText(chunk, lines)
    ensures LaidOut(chunks + [chunk], i + Step(c), lines, c)
  {
    hide HasRange, HasText;
  }

  method ChunkLineItems(lines: seq<string>, c: Chunking) returns (chunks: seq<Chunk>)
    ensures IsLayout(chunks, lines, c)
    ensures forall k :: 0 <= k < |chunks| ==> HasText(chunks[k], lines)
  {
    hide Join, Strip, LongestFit, HasText;
    chunks := [];
    var i := 0;
    while i < |lines|
      invariant LaidOut(chunks, i, lines, c)
    {
      var j := CollectLines(lines, i, c);
      var chunk := ChunkText(lines, i, j);
      LayNext(chunks, i, chunk, lines, c);
      chunks := chunks + [chunk];
      i := i + Step(c);
    }
  }

  lemma {:induction false} StripIsShorter(text: string)
    ensures |Strip(text)| <= |text|
  {
    var left := StripLeft(text);
    var both := StripRight(left);
    assert |both| <= |left|;
  }

  /** Within both limits unless it is one line. */
  lemma ChunkSize(chunk: Chunk, lines: seq<string>, s: nat, c: Chunking)
    requires HasRange(chunk, lines, s, c) && HasText(chunk, lines)
    ensures |chunk.text| <= c.maxChars || chunk.lineEnd == chunk.lineStart
    ensures chunk.lineEnd - s <= c.maxLines || chunk.lineEnd == chunk.lineStart
  {
    var joined := Join(lines[s..chunk.lineEnd], '\n');
    StripIsShorter(joined);
    JoinedLengthIsLength(lines[s..chunk.lineEnd]);
  }

  // ----- coverage

  /** Line `n`, counted from 0, stands in some chunk. */
  ghost predicate Covered(chunks: seq<Chunk>, n: nat) {
    exists k :: 0 <= k < |chunks| && chunks[k].lineStart - 1 <= n < chunks[k].lineEnd
  }

  /** Where the block of lines from start `k` ends: at the next start, or at the last line. */
  function BlockEnd(lines: seq<string>, k: nat, c: Chunking): nat {
    if Start(k + 1, c) < |lines| then Start(k + 1, c) else |lines|
  }

  /** A chunk never ends before an earlier one. */
  lemma EndsInOrder(chunks: seq<Chunk>, lines: seq<string>, c: Chunking, j: nat, k: nat)
    requires IsLayout(chunks, lines, c) && j <= k < |chunks|
    ensures chunks[j].lineEnd <= chunks[k].lineEnd
  {
    var s, t, e := Start(j, c), Start(k, c), chunks[j].lineEnd;
    StartsApart(j, k, c);
    assert HasRange(chunks[j], lines, s, c) && HasRange(chunks[k], lines, t, c);
    if chunks[k].lineEnd < e {
      FitsShorter(lines, s, t, chunks[k].lineEnd + 1, e, c);
    }
  }

  /** A chunk reaches the end of its block exactly when the block may form a chunk. */
  lemma ReachesBlockEnd(chunks: seq<Chunk>, lines: seq<string>, c: Chunking, k: nat)
    requires IsLayout(chunks, lines, c) && k < |chunks|
    ensures Start(k, c) < BlockEnd(lines, k, c) <= |lines|
    ensures BlockEnd(lines, k, c) <= chunks[k].lineEnd <==> Fits(lines, Start(k, c), BlockEnd(lines, k, c), c)
  {
    hide JoinedLength;
    var s, b, e := Start(k, c), BlockEnd(lines, k, c), chunks[k].lineEnd;
    StartsApart(k, |chunks| - 1, c);
    assert HasRange(chunks[k], lines, s, c);
    if b <= e {
      FitsShorter(lines, s, s, b, e, c);
    } else if Fits(lines, s, b, c) {
      FitsShorter(lines, s, s, e + 1, b, c);
    }
  }

  /** The line right after a chunk that stops short of its block's end is in no chunk. */
  lemma GapIsUncovered(chunks: seq<Chunk>, lines: seq<string>, c: Chunking, k: nat)
    requires IsLayout(chunks, lines, c) && k < |chunks| && chunks[k].lineEnd < BlockEnd(lines, k, c)
    ensures !Covered(chunks, chunks[k].lineEnd)
  {
    hide JoinedLength;
    forall j | 0 <= j < |chunks|
      ensures !(chunks[j].lineStart - 1 <= chunks[k].lineEnd < chunks[j].lineEnd)
    {
      assert HasRange(chunks[j], lines, Start(j, c), c);
      if j <= k {
        EndsInOrder(chunks, lines, c, j, k);
      } else {
        StartsApart(k, j, c);
      }
    }
  }

  lemma {:induction false} BlockOf(n: nat, count: nat, c: Chunking) returns (k: nat)
    requires n < Start(count, c)
    ensures k < count && Start(k, c) <= n < Start(k + 1, c)
    decreases count
  {
    if Start(count - 1, c) <= n {
      k := count - 1;
    } else {
      k := BlockOf(n, count - 1, c);
    }
  }

  ghost predicate BlocksFit(chunks: seq<Chunk>, lines: seq<string>, c: Chunking) {
    forall k :: 0 <= k < |chunks| ==> Fits(lines, Start(k, c), BlockEnd(lines, k, c), c)
  }

  /** Every line is in some chunk exactly when each step-aligned block may form a chunk. */
  lemma EveryLineCovered(chunks: seq<Chunk>, lines: seq<string>, c: Chunking)
    requires IsLayout(chunks, lines, c)
    ensures (forall n :: 0 <= n < |lines| ==> Covered(chunks, n)) <==> BlocksFit(chunks, lines, c)
  {
    if BlocksFit(chunks, lines, c) {
      forall n | 0 <= n < |lines| ensures Covered(chunks, n) {
        var k := BlockOf(n, |chunks|, c);
        ReachesBlockEnd(chunks, lines, c, k);
        assert HasRange(chunks[k], lines, Start(k, c), c);
      }
    } else {
      var k :| 0 <= k < |chunks| && !Fits(lines, Start(k, c), BlockEnd(lines, k, c), c);
      ReachesBlockEnd(chunks, lines, c, k);
      GapIsUncovered(chunks, lines, c, k);
    }
  }

  /**
    With the limits the request model enforces, at least one line and a non-negative overlap,
    a block never has too many lines, so only its length decides.
   */
  lemma BlockFitsIffShort(lines: seq<string>, k: nat, c: Chunking)
    requires c.maxLines >= 1 && c.overlap >= 0 && Start(k, c) < |lines|
    ensures var s, e := Start(k, c), BlockEnd(lines, k, c);
      s <= e && (Fits(lines, s, e, c) <==> e == s + 1 || JoinedLength(lines[s..e]) <= c.maxChars)
  {
    assert Start(k + 1, c) == Start(k, c) + Step(c);
  }

  /** The start of a chunk lies the overlap before the end of a full chunk before it. */
  lemma OverlapShared(chunks: seq<Chunk>, lines: seq<string>, c: Chunking, k: nat)
    requires IsLayout(chunks, lines, c) && k + 1 < |chunks| && 0 <= c.overlap < c.maxLines
    ensures chunks[k + 1].lineStart == chunks[k].lineStart + c.maxLines - c.overlap
    ensures chunks[k].lineEnd - chunks[k].lineStart + 1 == c.maxLines ==>
              chunks[k].lineEnd - chunks[k + 1].lineStart + 1 == c.overlap
  {
    hide LongestFit;
    assert HasRange(chunks[k], lines, Start(k, c), c) && HasRange(chunks[k + 1], lines, Start(k + 1, c), c);
  }

  /** An overlap of all lines or more moves on by one line. */
  lemma WideOverlap(chunks: seq<Chunk>, lines: seq<string>, c: Chunking, k: nat)
    requires IsLayout(chunks, lines, c) && k + 1 < |chunks| && c.overlap >= c.maxLines
    ensures chunks[k + 1].lineStart == chunks[k].lineStart + 1
  {
    hide LongestFit;
    assert HasRange(chunks[k], lines, Start(k, c), c) && HasRange(chunks[k + 1], lines, Start(k + 1, c), c);
  }

  lemma SameCount(m: nat, n: nat, lines: nat, c: Chunking)
    requires lines <= Start(m, c) && (m > 0 ==> Start(m - 1, c) < lines)
    requires lines <= Start(n, c) && (n > 0 ==> Start(n - 1, c) < lines)
    ensures m == n
  {
    if m < n {
      StartsApart(m, n - 1, c);
    } else if n < m {
      StartsApart(n, m - 1, c);
    }
  }

  /** The chunks of a transcript are determined by its lines and the settings. */
  lemma LayoutIsUnique(chunks: seq<Chunk>, chunks': seq<Chunk>, lines: seq<string>, c: Chunking)
    requires IsLayout(chunks, lines, c) && IsLayout(chunks', lines, c)
    requires forall k :: 0 <= k < |chunks| ==> HasText(chunks[k], lines)
    requires forall k :: 0 <= k < |chunks'| ==> HasText(chunks'[k], lines)
    ensures chunks == chunks'
  {
    hide Join, Strip, JoinedLength;
    SameCount(|chunks|, |chunks'|, |lines|, c);
    forall k | 0 <= k < |chunks| ensures chunks[k] == chunks'[k] {
      SameRange(chunks[k], chunks'[k], lines, Start(k, c), c);
    }
  }

  lemma SameRange(a: Chunk, b: Chunk, lines: seq<string>, s: nat, c: Chunking)
    requires HasRange(a, lines, s, c) && HasRange(b, lines, s, c) && HasText(a, lines) && HasText(b, lines)
    ensures a == b
  {
    hide Join, Strip, JoinedLength;
    if a.lineEnd < b.lineEnd {
      FitsShorter(lines, s, s, a.lineEnd + 1, b.lineEnd, c);
    } else if b.lineEnd < a.lineEnd {
      FitsShorter(lines, s, s, b.lineEnd + 1, a.lineEnd, c);
    }
  }

  /** Two lines of 60 characters under six lines, overlap 1 and 100 characters: the second line is lost. */
  lemma LineCanBeLost(chunks: seq<Chunk>, first: string, second: string)
    requires |first| == |second| == 60 && IsLayout(chunks, [first, second], Chunking(6, 1, 100))
    ensures !Covered(chunks, 1)
  {
    var lines, c := [first, second], Chunking(6, 1, 100);
    assert HasRange(chunks[0], lines, Start(0, c), c);
    assert lines[0..2] == lines;
    assert JoinedLength(lines[1..]) == 60 && JoinedLength(lines) == 121;
    assert chunks[0].lineEnd == 1;
    GapIsUncovered(chunks, lines, c, 0);
  }
}
