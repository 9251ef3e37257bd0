/**
  Cutting a transcript into pieces for the language model, and the clean-up that sends
  each piece through it. Packing is greedy, and no packing needs fewer pieces; when every
  model call fails, the clean-up gives back the non-blank lines whatever the piece size.
 */
module LinePacking {
  import opened Options
  import opened Text

  /** A piece is non-empty and within the limit, unless it is one over-long line. */
  ghost predicate Feasible(part: seq<string>, limit: nat) {
    part != [] && (|part| == 1 || JoinedLength(part) <= limit)
  }

  /** `parts` cuts `lines`, in order and completely, into feasible pieces. */
  ghost predicate IsPacking(parts: seq<seq<string>>, lines: seq<string>, limit: nat) {
    Concat(parts) == lines && forall k :: 0 <= k < |parts| ==> Feasible(parts[k], limit)
  }

  /** A packing in which no piece could have taken the line after it. */
  ghost predicate IsGreedyPacking(parts: seq<seq<string>>, lines: seq<string>, limit: nat) {
    && IsPacking(parts, lines, limit)
    && forall k :: 0 <= k < |parts| - 1 ==> JoinedLength(parts[k] + [parts[k + 1][0]]) > limit
  }

  function Limit(maxChars: int): nat {
    var wanted := if maxChars == 0 then 1800 else maxChars;
    if wanted < 600 then 600 else wanted
  }

  /** `lines` after some lines `before` that the greedy packing no longer has to place. */
  lemma {:induction false} NoFewerPieces(before: seq<string>, greedy: seq<seq<string>>, lines: seq<string>,
                                         other: seq<seq<string>>, limit: nat)
    requires IsGreedyPacking(greedy, lines, limit)
    requires IsPacking(other, before + lines, limit)
    ensures |greedy| <= |other|
    decreases |other|
  {
    if greedy == [] {
    } else if other == [] {
      assert false;
    } else {
      var p := other[0];
      var rest := Concat(other[1..]);
      assert p + rest == before + lines;
      if |p| <= |before| {
        assert rest == before[|p|..] + lines by { assert rest == (p + rest)[|p|..]; }
        NoFewerPieces(before[|p|..], greedy, lines, other[1..], limit);
      } else {
        var taken := |p| - |before|;
        FirstPieceIsLongest(before, greedy, lines, p, limit);
        var left := greedy[0][taken..];
        assert rest == left + Concat(greedy[1..]) by {
          assert rest == (p + rest)[|p|..];
          assert lines == greedy[0] + Concat(greedy[1..]);
        }
        NoFewerPieces(left, greedy[1..], Concat(greedy[1..]), other[1..], limit);
      }
    }
  }

  /** A feasible piece that reaches into `lines` reaches no further than the first greedy piece. */
  lemma FirstPieceIsLongest(before: seq<string>, greedy: seq<seq<string>>, lines: seq<string>,
                            p: seq<string>, limit: nat)
    requires IsGreedyPacking(greedy, lines, limit) && greedy != []
    requires Feasible(p, limit) && |before| < |p| && p <= before + lines
    ensures |p| - |before| <= |greedy[0]|
  {
    var n := |greedy[0]|;
    assert |greedy| == 1 ==> lines == greedy[0] by { assert lines == greedy[0] + Concat(greedy[1..]); }
    if |p| - |before| > n {
      assert lines == greedy[0] + Concat(greedy[1..]);
      assert Feasible(greedy[1], limit);
      assert Concat(greedy[1..])[0] == greedy[1][0];
      var b := greedy[0] + [greedy[1][0]];
      var m := |before|;
      assert p == before + b + p[m + n + 1..] by {
        assert p[..m] == before && p[m..m + n + 1] == b;
      }
      StretchIsShorter(before, b, p[m + n + 1..]);
    }
  }

  /** Greedy packing is optimal. */
  lemma GreedyIsOptimal(greedy: seq<seq<string>>, other: seq<seq<string>>, lines: seq<string>, limit: nat)
    requires IsGreedyPacking(greedy, lines, limit) && IsPacking(other, lines, limit)
    ensures |greedy| <= |other|
  {
    assert [] + lines == lines;
    NoFewerPieces([], greedy, lines, other, limit);
  }

  method PackLines(lines: seq<string>, limit: nat) returns (parts: seq<seq<string>>)
    ensures IsGreedyPacking(parts, lines, limit)
  {
    parts := [];
    var current: seq<string> := [];
    var currentLen := 0;
    for k := 0 to |lines|
      invariant current == [] <==> k == 0
      invariant current == [] ==> parts == [] && currentLen == 0
      invariant current != [] ==> IsGreedyPacking(parts + [current], lines[..k], limit)
      invariant currentLen == JoinedLength(current)
    {
      var line := lines[k];
      var lineLen := |line| + if current == [] then 0 else 1;
      JoinedLengthAppend(current, [line]);
      assert lines[..k + 1] == lines[..k] + [line];
      if current != [] && currentLen + lineLen > limit {
        StartPiece(parts, current, line, lines[..k], limit);
        parts := parts + [current];
        current := [line];
        currentLen := |line|;
      } else {
        ExtendPiece(parts, current, line, lines[..k], limit);
        current := current + [line];
        currentLen := currentLen + lineLen;
      }
    }
    assert lines[..|lines|] == lines;
    if current != [] {
      parts := parts + [current];
    }
  }

  lemma StartPiece(parts: seq<seq<string>>, current: seq<string>, line: string, lines: seq<string>, limit: nat)
    requires current != [] && IsGreedyPacking(parts + [current], lines, limit)
    requires JoinedLength(current + [line]) > limit
    ensures IsGreedyPacking(parts + [current] + [[line]], lines + [line], limit)
  {
    ConcatSnoc(parts + [current], [line]);
  }

  lemma ExtendPiece(parts: seq<seq<string>>, current: seq<string>, line: string, lines: seq<string>, limit: nat)
    requires if current == [] then parts == [] && lines == [] else IsGreedyPacking(parts + [current], lines, limit)
    requires current == [] || JoinedLength(current + [line]) <= limit
    ensures IsGreedyPacking(parts + [current + [line]], lines + [line], limit)
  {
    ConcatSnoc(parts, current);
    ConcatSnoc(parts, current + [line]);
    var a, b := parts + [current], parts + [current + [line]];
    if current != [] {
      forall k | 0 <= k < |b|
        ensures b[k] != [] && Feasible(b[k], limit)
      {
        assert Feasible(a[k], limit);
      }
      forall k | 0 <= k < |b| - 1
        ensures JoinedLength(b[k] + [b[k + 1][0]]) > limit
      {
        assert a[k + 1] != [];
        assert b[k] == a[k] && b[k + 1][0] == a[k + 1][0];
      }
    } else {
      assert current + [line] == [line];
    }
  }

  /** `chunks` are the texts of the pieces. */
  ghost predicate AreTexts(chunks: seq<string>, parts: seq<seq<string>>) {
    |chunks| == |parts| && forall i :: 0 <= i < |parts| ==> parts[i] != [] && chunks[i] == Join(parts[i], '\n')
  }

  method SplitTextForLlm(text: string, maxChars: int) returns (chunks: seq<string>)
    ensures exists parts :: IsGreedyPacking(parts, NonBlankLines(text), Limit(maxChars)) && AreTexts(chunks, parts)
  {
    var parts := PackLines(NonBlankLines(text), Limit(maxChars));
    chunks := seq(|parts|, i requires 0 <= i < |parts| => Join(parts[i], '\n'));
    assert forall i :: 0 <= i < |parts| ==> Feasible(parts[i], Limit(maxChars));
    assert AreTexts(chunks, parts);
  }

  /** What one chunk becomes: the model's trimmed answer, or the chunk itself without one. */
  function Cleaned(chunk: string, answer: Option<string>): string {
    if answer.None? || Strip(answer.value) == "" then chunk else Strip(answer.value)
  }

  datatype CleanupMeta = CleanupMeta(applied: bool, chunks: nat, errors: nat)

  ghost function CleanedAll(chunks: seq<string>, llm: string -> Option<string>): seq<string> {
    if chunks == [] then []
    else
      var last := chunks[|chunks| - 1];
      CleanedAll(chunks[..|chunks| - 1], llm) + [Cleaned(last, llm(last))]
  }

  ghost predicate NeverAnswers(llm: string -> Option<string>) {
    forall chunk :: llm(chunk).None?
  }

  /** How many of the chunks the model answers. */
  ghost function Answered(chunks: seq<string>, llm: string -> Option<string>): nat {
    if chunks == [] then 0
    else Answered(chunks[..|chunks| - 1], llm) + if llm(chunks[|chunks| - 1]).Some? then 1 else 0
  }

  /** An answer that is missing or blank changes nothing; any other takes the place of the chunk, without the spaces at its ends. */
  lemma AnswerReplaces(chunk: string, answer: Option<string>) returns (i: nat, j: nat)
    ensures answer.None? || Blank(answer.value) ==> Cleaned(chunk, answer) == chunk
    ensures answer.Some? && !Blank(answer.value) ==>
      && i < j <= |answer.value| && Cleaned(chunk, answer) == answer.value[i..j]
      && Blank(answer.value[..i]) && Blank(answer.value[j..])
      && !IsSpace(answer.value[i]) && !IsSpace(answer.value[j - 1])
  {
    hide Strip, Blank;
    i, j := 0, 0;
    if answer.Some? {
      BlankIffStripped(answer.value);
      i, j := StripIsMiddle(answer.value);
      StrippedEnds(answer.value, i, j);
    }
  }

  lemma {:induction false} CleanedEach(chunks: seq<string>, llm: string -> Option<string>)
    ensures |CleanedAll(chunks, llm)| == |chunks|
    ensures forall i :: 0 <= i < |chunks| ==> CleanedAll(chunks, llm)[i] == Cleaned(chunks[i], llm(chunks[i]))
  {
    hide Cleaned;
    if chunks != [] {
      CleanedEach(chunks[..|chunks| - 1], llm);
    }
  }

  ghost function AnsweredAt(chunks: seq<string>, llm: string -> Option<string>): set<int> {
    set i | 0 <= i < |chunks| && llm(chunks[i]).Some?
  }

  lemma {:induction false} AnsweredCounts(chunks: seq<string>, llm: string -> Option<string>)
    ensures Answered(chunks, llm) == |AnsweredAt(chunks, llm)|
  {
    if chunks != [] {
      var n := |chunks| - 1;
      AnsweredCounts(chunks[..n], llm);
      var before := AnsweredAt(chunks[..n], llm);
      assert AnsweredAt(chunks, llm) == before + if llm(chunks[n]).Some? then {n} else {};
    }
  }

  method CleanChunks(chunks: seq<string>, llm: string -> Option<string>)
    returns (cleaned: seq<string>, answered: nat, errors: nat)
    ensures cleaned == CleanedAll(chunks, llm) && |cleaned| == |chunks|
    ensures answered == Answered(chunks, llm) == |AnsweredAt(chunks, llm)| && answered + errors == |chunks|
  {
    cleaned, answered, errors := [], 0, 0;
    for i := 0 to |chunks|
      invariant |cleaned| == i == answered + errors
      invariant cleaned == CleanedAll(chunks[..i], llm) && answered == Answered(chunks[..i], llm)
    {
      var answer := llm(chunks[i]);
      assert chunks[..i + 1][..i] == chunks[..i];
      cleaned := cleaned + [Cleaned(chunks[i], answer)];
      if answer.None? {
        errors := errors + 1;
      } else {
        answered := answered + 1;
      }
    }
    assert chunks[..|chunks|] == chunks;
    AnsweredCounts(chunks, llm);
  }

  /** `cleaned` are the cleaned pieces of some greedy packing of the text's non-blank lines. */
  ghost predicate CleanedPacking(cleaned: seq<string>, text: string, limit: nat, llm: string -> Option<string>, answered: nat) {
    exists parts, chunks ::
      && IsGreedyPacking(parts, NonBlankLines(text), limit) && AreTexts(chunks, parts)
      && cleaned == CleanedAll(chunks, llm) && |cleaned| == |chunks| && answered == Answered(chunks, llm)
  }

  lemma {:induction false} NoAnswers(chunks: seq<string>, llm: string -> Option<string>)
    requires NeverAnswers(llm)
    ensures CleanedAll(chunks, llm) == chunks
  {
    if chunks != [] {
      NoAnswers(chunks[..|chunks| - 1], llm);
    }
  }

  /** If no answer came, the cleaned pieces join to the non-blank lines, wherever the cuts were. */
  lemma FailedPieces(cleaned: seq<string>, text: string, lines: string, limit: nat,
                     llm: string -> Option<string>, answered: nat)
    requires NeverAnswers(llm) && Trimmed(text) && text != "" && lines == Join(NonBlankLines(text), '\n')
    requires CleanedPacking(cleaned, text, limit, llm, answered)
    ensures Join(cleaned, '\n') == lines
  {
    var parts, chunks :| IsGreedyPacking(parts, NonBlankLines(text), limit)
                         && AreTexts(chunks, parts) && cleaned == CleanedAll(chunks, llm) && |cleaned| == |chunks|;
    NoAnswers(chunks, llm);
    JoinGroups(parts, chunks, '\n');
  }

  /** What the caller gets for the trimmed result: nothing new unless it differs from the trimmed input. */
  function Assemble(transcript: string, text: string, cleaned: string, answered: nat, errors: nat): (string, CleanupMeta) {
    if cleaned != "" && cleaned != text then (cleaned, CleanupMeta(true, answered, errors))
    else (transcript, CleanupMeta(false, answered, errors))
  }

  /**
    When every call fails, the clean-up gives back, up to white space at the ends, exactly the
    non-blank lines of the trimmed transcript, wherever the cuts were.
   */
  lemma AllFailedKeepsLines(transcript: string, text: string, lines: string, limit: nat, llm: string -> Option<string>,
                            cleaned: seq<string>, answered: nat, errors: nat, result: string)
    requires NeverAnswers(llm)
    requires text == Strip(transcript) != "" && lines == Join(NonBlankLines(text), '\n')
    requires CleanedPacking(cleaned, text, limit, llm, answered)
    requires result == Assemble(transcript, text, Strip(Join(cleaned, '\n')), answered, errors).0
    ensures Strip(result) == lines
  {
    FailedPieces(cleaned, text, lines, limit, llm, answered);
    NonBlankLinesTrimmed(text);
  }

  /**
    `llm` answers a chunk with a text or fails. Whatever it does, the result is put together from
    the cleaned pieces of some greedy packing of the transcript's non-blank lines.
   */
  method CleanupTranscript(transcript: string, maxChars: int, orchestrator: bool, llm: string -> Option<string>)
    returns (result: string, meta: CleanupMeta, pieces: seq<string>)
    ensures !orchestrator || Strip(transcript) == "" ==>
      result == transcript && meta == CleanupMeta(false, 0, 0)
    ensures orchestrator && Strip(transcript) != "" ==>
      && CleanedPacking(pieces, Strip(transcript), Limit(maxChars), llm, meta.chunks)
      && meta.chunks + meta.errors == |pieces|
      && (result, meta) == Assemble(transcript, Strip(transcript), Strip(Join(pieces, '\n')), meta.chunks, meta.errors)
      && (meta.applied <==> Strip(Join(pieces, '\n')) !in {"", Strip(transcript)})
      && result == if meta.applied then Strip(Join(pieces, '\n')) else transcript
  {
    pieces := [];
    var text := Strip(transcript);
    if text == "" || !orchestrator {
      return transcript, CleanupMeta(false, 0, 0), [];
    }
    var answered, errors;
    pieces, answered, errors := CleanText(text, maxChars, llm);
    var cleaned := Strip(Join(pieces, '\n'));
    var assembled := Assemble(transcript, text, cleaned, answered, errors);
    result, meta := assembled.0, assembled.1;
  }

  method CleanText(text: string, maxChars: int, llm: string -> Option<string>)
    returns (cleaned: seq<string>, answered: nat, errors: nat)
    requires Trimmed(text) && text != ""
    ensures CleanedPacking(cleaned, text, Limit(maxChars), llm, answered)
    ensures answered + errors == |cleaned|
  {
    var chunks := SplitTextForLlm(text, maxChars);
    ghost var parts :| IsGreedyPacking(parts, NonBlankLines(text), Limit(maxChars)) && AreTexts(chunks, parts);
    cleaned, answered, errors := CleanChunks(chunks, llm);
  }
}
