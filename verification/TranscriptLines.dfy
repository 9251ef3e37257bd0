/**
  The lines of a transcript: split at every line break, stripped, and the empty ones left out. Which
  lines these are is said without the splitting: they are trimmed and unbroken, they hold the
  characters of the transcript that are not spaces, in order, and two of these characters stand
  on one line exactly when no line break lies between them.
 */
module TranscriptLines {
  import opened Text

  /** The trimmed, non-empty lines. */
  function LineTexts(transcript: string): seq<string> {
    StripAll(NonBlankLines(transcript))
  }

  function StripAll(lines: seq<string>): seq<string> {
    seq(|lines|, i requires 0 <= i < |lines| => Strip(lines[i]))
  }

  /** The characters that are not spaces. */
  function NonSpace(s: string): string {
    if s == "" then "" else (if IsSpace(s[0]) then "" else [s[0]]) + NonSpace(s[1..])
  }

  /** A line as it should be: not empty, no space at its ends, no line break in it. */
  predicate IsLine(line: string) {
    line != "" && Trimmed(line) && forall i :: 0 <= i < |line| ==> !IsBreak(line[i])
  }

  // ----- splitting and stripping give the text back

  /** The pieces with the separators back in their places. */
  function Interleaved(pieces: seq<string>, separators: string): string
    requires |pieces| == |separators| + 1
  {
    if separators == "" then pieces[0]
    else pieces[0] + [separators[0]] + Interleaved(pieces[1..], separators[1..])
  }

  /** Between any two pieces stands one separator, and all of them together are the text. */
  lemma {:induction false} PiecesGiveBack(s: string, isSep: char -> bool)
    ensures |Pieces(s, isSep)| == |Filter(s, isSep)| + 1
    ensures Interleaved(Pieces(s, isSep), Filter(s, isSep)) == s
  {
    if s != "" {
      PiecesGiveBack(s[1..], isSep);
      PiecesCons(s, isSep);
      var rest, seps := Pieces(s[1..], isSep), Filter(s[1..], isSep);
      hide Pieces;
      if isSep(s[0]) {
        InterleavedEmpty(rest, seps, s[0]);
        assert s == [s[0]] + s[1..];
      } else {
        InterleavedGlued(rest, seps, s[0]);
        assert Filter(s, isSep) == [] + seps == seps;
        assert s == [s[0]] + s[1..];
      }
    }
  }

  lemma InterleavedEmpty(pieces: seq<string>, seps: string, c: char)
    requires |pieces| == |seps| + 1
    ensures Interleaved([""] + pieces, [c] + seps) == [c] + Interleaved(pieces, seps)
  {
    assert ([""] + pieces)[1..] == pieces && ([c] + seps)[1..] == seps;
  }

  lemma InterleavedGlued(pieces: seq<string>, seps: string, c: char)
    requires |pieces| == |seps| + 1
    ensures Interleaved([[c] + pieces[0]] + pieces[1..], seps) == [c] + Interleaved(pieces, seps)
  {
    var glued := [[c] + pieces[0]] + pieces[1..];
    assert glued[1..] == pieces[1..];
    if seps != "" {
      assert ([c] + pieces[0]) + [seps[0]] + Interleaved(pieces[1..], seps[1..])
          == [c] + (pieces[0] + [seps[0]] + Interleaved(pieces[1..], seps[1..]));
    }
  }

  // ----- the characters that are not spaces

  lemma {:induction false} NonSpaceAppend(a: string, b: string)
    ensures NonSpace(a + b) == NonSpace(a) + NonSpace(b)
  {
    if a == "" {
      assert a + b == b;
    } else {
      assert (a + b)[1..] == a[1..] + b;
      NonSpaceAppend(a[1..], b);
      var head, left, right := if IsSpace(a[0]) then "" else [a[0]], NonSpace(a[1..]), NonSpace(b);
      assert head + (left + right) == (head + left) + right;
    }
  }

  lemma {:induction false} NonSpaceOfBlank(s: string)
    ensures NonSpace(s) == "" <==> Blank(s)
  {
    if s != "" {
      NonSpaceOfBlank(s[1..]);
      if Blank(s[1..]) {
        assert forall i :: 1 <= i < |s| ==> s[i] == s[1..][i - 1];
      }
    }
  }

  lemma NonSpaceOfStrip(s: string)
    ensures NonSpace(Strip(s)) == NonSpace(s)
  {
    hide NonSpace, Blank, Strip;
    var i, j := StripIsMiddle(s);
    assert s == s[..i] + (s[i..j] + s[j..]);
    NonSpaceAppend(s[..i], s[i..j] + s[j..]);
    NonSpaceAppend(s[i..j], s[j..]);
    NonSpaceOfBlank(s[..i]);
    NonSpaceOfBlank(s[j..]);
  }

  lemma {:induction false} NonSpaceOfPieces(s: string)
    ensures NonSpace(Concat(Pieces(s, IsBreak))) == NonSpace(s)
  {
    if s != "" {
      var rest := Pieces(s[1..], IsBreak);
      NonSpaceOfPieces(s[1..]);
      PiecesCons(s, IsBreak);
      hide Pieces, NonSpace;
      NonSpaceCons(s);
      if IsBreak(s[0]) {
        ConcatCons("", rest);
        assert "" + Concat(rest) == Concat(rest);
      } else {
        ConcatCons([s[0]] + rest[0], rest[1..]);
        ConcatCons(rest[0], rest[1..]);
        assert rest == [rest[0]] + rest[1..];
        assert [s[0]] + rest[0] + Concat(rest[1..]) == [s[0]] + Concat(rest);
        NonSpaceCons([s[0]] + Concat(rest));
        assert ([s[0]] + Concat(rest))[1..] == Concat(rest);
      }
    }
  }

  lemma NonSpaceCons(s: string)
    requires s != ""
    ensures NonSpace(s) == (if IsSpace(s[0]) then "" else [s[0]]) + NonSpace(s[1..])
  {
  }

  lemma ConcatCons(first: string, rest: seq<string>)
    ensures Concat([first] + rest) == first + Concat(rest)
  {
    assert ([first] + rest)[1..] == rest;
  }

  lemma {:induction false} NonSpaceOfNonBlank(lines: seq<string>)
    ensures NonSpace(Concat(NonBlank(lines))) == NonSpace(Concat(lines))
  {
    if lines != [] {
      var first, rest := lines[0], lines[1..];
      NonSpaceOfNonBlank(rest);
      NonBlankCons(first, rest);
      assert lines == [first] + rest;
      hide NonSpace, Concat, NonBlank;
      ConcatCons(first, rest);
      ConcatCons(first, NonBlank(rest));
      NonSpaceAppend(first, Concat(rest));
      NonSpaceAppend(first, Concat(NonBlank(rest)));
      NonSpaceOfBlank(first);
    }
  }

  lemma NonBlankCons(first: string, rest: seq<string>)
    ensures NonBlank([first] + rest) == if Blank(first) then NonBlank(rest) else [first] + NonBlank(rest)
  {
    assert ([first] + rest)[1..] == rest;
  }

  lemma StripAllCons(first: string, rest: seq<string>)
    ensures StripAll([first] + rest) == [Strip(first)] + StripAll(rest)
  {
    hide Strip;
    var all := [first] + rest;
    forall i | 0 <= i < |all|
      ensures StripAll(all)[i] == ([Strip(first)] + StripAll(rest))[i]
    {
      assert i > 0 ==> all[i] == rest[i - 1];
    }
  }

  lemma {:induction false} NonSpaceOfStripAll(lines: seq<string>)
    ensures NonSpace(Concat(StripAll(lines))) == NonSpace(Concat(lines))
  {
    if lines == [] {
      assert StripAll(lines) == [];
    } else {
      var first, rest := lines[0], lines[1..];
      NonSpaceOfStripAll(rest);
      assert lines == [first] + rest;
      hide NonSpace, Concat, StripAll;
      StripAllCons(first, rest);
      ConcatCons(first, rest);
      ConcatCons(Strip(first), StripAll(rest));
      NonSpaceAppend(first, Concat(rest));
      NonSpaceAppend(Strip(first), Concat(StripAll(rest)));
      NonSpaceOfStrip(first);
    }
  }

  /** The lines hold the characters of the transcript that are not spaces, in order, and no others. */
  lemma LinesHoldTheText(transcript: string)
    ensures NonSpace(Concat(LineTexts(transcript))) == NonSpace(transcript)
  {
    hide NonSpace, Concat, StripAll, Pieces, Filter;
    NonSpaceOfStripAll(NonBlankLines(transcript));
    NonSpaceOfNonBlank(Pieces(transcript, IsBreak));
    NonSpaceOfPieces(transcript);
  }

  /** Each line is as it should be. */
  lemma LinesAreLines(transcript: string)
    ensures forall k :: 0 <= k < |LineTexts(transcript)| ==> IsLine(LineTexts(transcript)[k])
  {
    var pieces, lines := Pieces(transcript, IsBreak), NonBlankLines(transcript);
    PiecesHoldNoSeparator(transcript, IsBreak);
    FilterKeeps(pieces, line => !Blank(line));
    hide Pieces, Filter, StripLeft, StripRight;
    forall k | 0 <= k < |lines|
      ensures IsLine(LineTexts(transcript)[k])
    {
      assert lines[k] in lines;
      assert lines[k] in pieces && !Blank(lines[k]);
      var p :| 0 <= p < |pieces| && pieces[p] == lines[k];
      BlankIffStripped(lines[k]);
      var i, j := StripIsMiddle(lines[k]);
    }
  }

  /** There is no line exactly when the transcript is blank. */
  lemma NoLinesIffBlank(transcript: string)
    ensures LineTexts(transcript) == [] <==> Blank(transcript)
  {
    var lines := LineTexts(transcript);
    LinesHoldTheText(transcript);
    LinesAreLines(transcript);
    NonSpaceOfBlank(transcript);
    hide LineTexts, NonSpace;
    if lines == [] {
      assert NonSpace("") == "" by { NonSpaceOfBlank(""); }
    } else {
      ConcatCons(lines[0], lines[1..]);
      assert lines == [lines[0]] + lines[1..];
      NonSpaceAppend(lines[0], Concat(lines[1..]));
      assert IsLine(lines[0]);
      NonSpaceOfBlank(lines[0]);
    }
  }

  // ----- which characters stand on one line

  /** The `n`-th and the `m`-th of the characters that are not spaces stand on one of the lines. */
  predicate OnOneLine(lines: seq<string>, n: nat, m: nat) {
    && lines != []
    && var held := |NonSpace(lines[0])|;
       if m < held then true else n >= held && OnOneLine(lines[1..], n - held, m - held)
  }

  lemma OnOneLineCons(first: string, rest: seq<string>, n: nat, m: nat)
    ensures OnOneLine([first] + rest, n, m) <==>
            m < |NonSpace(first)| || (n >= |NonSpace(first)| && OnOneLine(rest, n - |NonSpace(first)|, m - |NonSpace(first)|))
  {
    assert ([first] + rest)[1..] == rest;
  }

  lemma {:induction false} OnOneNonBlank(lines: seq<string>, n: nat, m: nat)
    requires n <= m
    ensures OnOneLine(NonBlank(lines), n, m) <==> OnOneLine(lines, n, m)
    decreases |lines|
  {
    if lines != [] {
      var first, rest := lines[0], lines[1..];
      var held := |NonSpace(first)|;
      assert lines == [first] + rest;
      hide NonSpace, OnOneLine, NonBlank;
      NonBlankCons(first, rest);
      NonSpaceOfBlank(first);
      OnOneLineCons(first, rest, n, m);
      OnOneLineCons(first, NonBlank(rest), n, m);
      if n >= held {
        OnOneNonBlank(rest, n - held, m - held);
      }
    }
  }

  lemma {:induction false} OnOneStripped(lines: seq<string>, n: nat, m: nat)
    requires n <= m
    ensures OnOneLine(StripAll(lines), n, m) <==> OnOneLine(lines, n, m)
    decreases |lines|
  {
    if lines == [] {
      assert StripAll(lines) == [];
    } else {
      var first, rest := lines[0], lines[1..];
      var held := |NonSpace(first)|;
      assert lines == [first] + rest;
      hide NonSpace, OnOneLine, StripAll;
      StripAllCons(first, rest);
      NonSpaceOfStrip(first);
      OnOneLineCons(first, rest, n, m);
      OnOneLineCons(Strip(first), StripAll(rest), n, m);
      if n >= held {
        OnOneStripped(rest, n - held, m - held);
      }
    }
  }

  /** How many characters that are not spaces stand before position `p`. */
  function Before(s: string, p: nat): nat
    requires p <= |s|
  {
    |NonSpace(s[..p])|
  }

  predicate NoBreak(s: string, p: int, q: nat)
    requires q <= |s|
  {
    forall m :: 0 <= m < |s| && p < m < q ==> !IsBreak(s[m])
  }

  lemma BeforeCons(s: string, p: nat)
    requires 1 <= p <= |s|
    ensures Before(s, p) == Before(s[1..], p - 1) + if IsSpace(s[0]) then 0 else 1
  {
    assert s[..p][1..] == s[1..][..p - 1];
  }

  lemma NoBreakCons(s: string, p: int, q: nat)
    requires 1 <= q <= |s| && p >= -1
    ensures NoBreak(s, p, q) <==> NoBreak(s[1..], p - 1, q - 1) && (p == -1 && q > 0 ==> !IsBreak(s[0]))
  {
    var rest := s[1..];
    if NoBreak(rest, p - 1, q - 1) && (p == -1 ==> !IsBreak(s[0])) {
      forall m | 0 <= m < |s| && p < m < q
        ensures !IsBreak(s[m])
      {
        assert m > 0 ==> s[m] == rest[m - 1];
      }
    }
    if NoBreak(s, p, q) {
      forall m | 0 <= m < |rest| && p - 1 < m < q - 1
        ensures !IsBreak(rest[m])
      {
        assert rest[m] == s[m + 1];
      }
    }
  }

  /** What the first piece holds. */
  lemma {:induction false} FirstPiece(s: string, q: nat)
    requires q < |s| && !IsSpace(s[q])
    ensures Before(s, q) < |NonSpace(Pieces(s, IsBreak)[0])| <==> NoBreak(s, -1, q)
  {
    var rest := Pieces(s[1..], IsBreak);
    PiecesCons(s, IsBreak);
    hide Pieces, NonSpace, Before, NoBreak;
    if q > 0 {
      FirstPiece(s[1..], q - 1);
      BeforeCons(s, q);
      NoBreakCons(s, -1, q);
      NoBreakFromStart(s[1..], q - 1);
    } else {
      NothingBefore(s);
    }
    if !IsBreak(s[0]) {
      NonSpaceCons([s[0]] + rest[0]);
      assert ([s[0]] + rest[0])[1..] == rest[0];
    } else {
      NonSpaceOfBlank("");
    }
  }

  lemma NothingBefore(s: string)
    ensures Before(s, 0) == 0 && NoBreak(s, -1, 0)
  {
  }

  lemma NoBreakFromStart(s: string, q: nat)
    requires q <= |s|
    ensures NoBreak(s, -2, q) <==> NoBreak(s, -1, q)
  {
  }

  lemma {:induction false} OnOnePiece(s: string, p: nat, q: nat)
    requires p <= q < |s| && !IsSpace(s[p]) && !IsSpace(s[q])
    ensures OnOneLine(Pieces(s, IsBreak), Before(s, p), Before(s, q)) <==> NoBreak(s, p, q)
  {
    hide Pieces, NonSpace, Before, NoBreak, OnOneLine;
    if p == 0 {
      FromTheFirst(s, q);
    } else {
      OnOnePiece(s[1..], p - 1, q - 1);
      OnePieceCons(s, p, q);
    }
  }

  lemma FromTheFirst(s: string, q: nat)
    requires q < |s| && !IsSpace(s[0]) && !IsSpace(s[q])
    ensures OnOneLine(Pieces(s, IsBreak), Before(s, 0), Before(s, q)) <==> NoBreak(s, 0, q)
  {
    var all := Pieces(s, IsBreak);
    FirstPiece(s, q);
    NothingBefore(s);
    FromFirst(s, q);
    FirstHolds(s, Pieces(s[1..], IsBreak));
    hide Pieces, NonSpace, Before, NoBreak, OnOneLine;
    assert all == [all[0]] + all[1..];
    OnOneLineCons(all[0], all[1..], Before(s, 0), Before(s, q));
  }

  /** A character in front moves all others on by one place, and nothing else. */
  lemma OnePieceCons(s: string, p: nat, q: nat)
    requires 1 <= p <= q < |s|
    requires OnOneLine(Pieces(s[1..], IsBreak), Before(s[1..], p - 1), Before(s[1..], q - 1)) <==> NoBreak(s[1..], p - 1, q - 1)
    ensures OnOneLine(Pieces(s, IsBreak), Before(s, p), Before(s, q)) <==> NoBreak(s, p, q)
  {
    var rest, n, m := Pieces(s[1..], IsBreak), Before(s[1..], p - 1), Before(s[1..], q - 1);
    PiecesCons(s, IsBreak);
    BeforeCons(s, p);
    BeforeCons(s, q);
    NoBreakCons(s, p, q);
    hide Pieces, NonSpace, Before, NoBreak, OnOneLine;
    if IsBreak(s[0]) {
      AfterEmpty(rest, n, m);
    } else {
      AfterGlue(s[0], rest, n, m);
    }
  }

  lemma AfterEmpty(rest: seq<string>, n: nat, m: nat)
    ensures OnOneLine([""] + rest, n, m) <==> OnOneLine(rest, n, m)
  {
    NonSpaceOfBlank("");
    hide NonSpace, OnOneLine;
    OnOneLineCons("", rest, n, m);
  }

  lemma AfterGlue(c: char, rest: seq<string>, n: nat, m: nat)
    requires rest != []
    ensures var d := if IsSpace(c) then 0 else 1;
      OnOneLine([[c] + rest[0]] + rest[1..], n + d, m + d) <==> OnOneLine(rest, n, m)
  {
    var glued, d := [c] + rest[0], if IsSpace(c) then 0 else 1;
    NonSpaceCons(glued);
    assert glued[1..] == rest[0];
    hide NonSpace, OnOneLine;
    assert rest == [rest[0]] + rest[1..];
    OnOneLineCons(glued, rest[1..], n + d, m + d);
    OnOneLineCons(rest[0], rest[1..], n, m);
  }

  /** The first character is on the first piece, if it is not a space. */
  lemma FirstHolds(s: string, rest: seq<string>)
    requires s != "" && !IsSpace(s[0]) && rest == Pieces(s[1..], IsBreak)
    ensures |NonSpace(Pieces(s, IsBreak)[0])| > 0
  {
    PiecesCons(s, IsBreak);
    NonSpaceCons([s[0]] + rest[0]);
  }

  lemma FromFirst(s: string, q: nat)
    requires q <= |s| && s != "" && !IsBreak(s[0])
    ensures NoBreak(s, 0, q) <==> NoBreak(s, -1, q)
  {
  }

  /** Two characters of the transcript stand on one line exactly when no line break lies between them. */
  lemma OneLineIffNoBreak(transcript: string, p: nat, q: nat)
    requires p <= q < |transcript| && !IsSpace(transcript[p]) && !IsSpace(transcript[q])
    ensures OnOneLine(LineTexts(transcript), Before(transcript, p), Before(transcript, q))
       <==> forall m :: p < m < q ==> !IsBreak(transcript[m])
  {
    BeforeGrows(transcript, p, q);
    hide OnOneLine, Pieces, Filter, Before, StripAll;
    var n, m := Before(transcript, p), Before(transcript, q);
    OnOneStripped(NonBlankLines(transcript), n, m);
    OnOneNonBlank(Pieces(transcript, IsBreak), n, m);
    OnOnePiece(transcript, p, q);
  }

  lemma BeforeGrows(s: string, p: nat, q: nat)
    requires p <= q <= |s|
    ensures Before(s, p) <= Before(s, q)
  {
    assert s[..q] == s[..p] + s[p..q];
    NonSpaceAppend(s[..p], s[p..q]);
  }

  // ----- lines that were joined

  lemma {:induction false} PiecesOfLine(line: string)
    requires forall i :: 0 <= i < |line| ==> !IsBreak(line[i])
    ensures Pieces(line, IsBreak) == [line]
  {
    if line != "" {
      PiecesOfLine(line[1..]);
      assert [line[0]] + line[1..] == line;
    }
  }

  lemma LineOfOne(line: string)
    requires IsLine(line)
    ensures LineTexts(line) == [line]
  {
    PiecesOfLine(line);
    assert !IsSpace(line[0]);
    FilterOne(line, l => !Blank(l));
    assert StripAll([line]) == [line];
  }

  lemma LinesAppend(a: string, b: string)
    ensures LineTexts(a + ['\n'] + b) == LineTexts(a) + LineTexts(b)
  {
    PiecesAppend(a, '\n', b, IsBreak);
    FilterAppend(Pieces(a, IsBreak), Pieces(b, IsBreak), line => !Blank(line));
    hide Pieces, Filter, StripAll;
    assert NonBlankLines(a + ['\n'] + b) == NonBlankLines(a) + NonBlankLines(b);
    StripAllAppend(NonBlankLines(a), NonBlankLines(b));
  }

  lemma StripAllAppend(left: seq<string>, right: seq<string>)
    ensures StripAll(left + right) == StripAll(left) + StripAll(right)
  {
    hide Strip;
    var all := left + right;
    forall i | 0 <= i < |all|
      ensures StripAll(all)[i] == (StripAll(left) + StripAll(right))[i]
    {
      assert all[i] == if i < |left| then left[i] else right[i - |left|];
    }
  }

  /** Lines that were joined are found again. */
  lemma {:induction false} LinesOfJoin(lines: seq<string>)
    requires forall k :: 0 <= k < |lines| ==> IsLine(lines[k])
    ensures LineTexts(Join(lines, '\n')) == lines
  {
    hide LineTexts;
    if lines == [] {
      NoLinesIffBlank("");
    } else if |lines| == 1 {
      LineOfOne(lines[0]);
    } else {
      LinesOfJoin(lines[1..]);
      LineOfOne(lines[0]);
      LinesAppend(lines[0], Join(lines[1..], '\n'));
    }
  }
}
