/**
  The few string operations of Python that the modelled code relies on:
  `str.strip`, `str.splitlines`, `str.split` and `str.join`.
 */
module Text {

  /** The characters at which `splitlines` breaks a line. */
  predicate IsBreak(c: char) {
    '\n' <= c <= '\r' || '\U{1C}' <= c <= '\U{1E}' || c == '\U{85}' || '\U{2028}' <= c <= '\U{2029}'
  }

  /** The characters for which `str.isspace` holds. */
  predicate IsSpace(c: char) {
    IsBreak(c) || c == ' ' || c == '\t' || c == '\U{1F}' || c == '\U{A0}' || c == '\U{1680}'
    || '\U{2000}' <= c <= '\U{200A}' || c == '\U{202F}' || c == '\U{205F}' || c == '\U{3000}'
  }

  /** No space at either end. */
  predicate Trimmed(s: string) {
    s == "" || (!IsSpace(s[0]) && !IsSpace(s[|s| - 1]))
  }

  predicate Blank(s: string) {
    forall i :: 0 <= i < |s| ==> IsSpace(s[i])
  }

  function StripLeft(s: string): (r: string)
    ensures |r| <= |s| && r == s[|s| - |r|..]
    ensures r != "" ==> !IsSpace(r[0])
  {
    if s != "" && IsSpace(s[0]) then StripLeft(s[1..]) else s
  }

  function StripRight(s: string): (r: string)
    ensures |r| <= |s| && r == s[..|r|]
    ensures r != "" ==> !IsSpace(r[|r| - 1])
    ensures s != "" && !IsSpace(s[0]) ==> r != ""
  {
    if s != "" && IsSpace(s[|s| - 1]) then StripRight(s[..|s| - 1]) else s
  }

  function Strip(s: string): (r: string)
    ensures Trimmed(r)
    ensures Trimmed(s) ==> r == s
  {
    StripRight(StripLeft(s))
  }

  lemma {:induction false} BlankIffStripped(s: string)
    ensures Blank(s) <==> Strip(s) == ""
  {
    if s != "" && IsSpace(s[0]) {
      BlankIffStripped(s[1..]);
      if Blank(s[1..]) {
        assert forall i :: 1 <= i < |s| ==> s[i] == s[1..][i - 1];
      }
    }
  }

  /** Stripping takes away nothing but the spaces at both ends. */
  lemma StripIsMiddle(s: string) returns (i: nat, j: nat)
    ensures i <= j <= |s| && Strip(s) == s[i..j] && Blank(s[..i]) && Blank(s[j..])
  {
    hide StripLeft, StripRight, Blank;
    var left := StripLeft(s);
    var r := Strip(s);
    i := |s| - |left|;
    j := i + |r|;
    LeftIsBlank(s);
    RightIsBlank(left);
    assert s[j..] == left[|r|..];
  }

  lemma StrippedEnds(s: string, i: nat, j: nat)
    requires i <= j <= |s| && Strip(s) == s[i..j]
    ensures Strip(s) != "" ==> i < j && !IsSpace(s[i]) && !IsSpace(s[j - 1])
  {
    hide Strip, IsSpace;
    var r := Strip(s);
    if r != "" {
      assert Trimmed(r);
      assert r[0] == s[i] && r[|r| - 1] == s[j - 1];
    }
  }

  lemma {:induction false} LeftIsBlank(s: string)
    ensures Blank(s[..|s| - |StripLeft(s)|])
  {
    if s != "" && IsSpace(s[0]) {
      LeftIsBlank(s[1..]);
      var n := |s| - |StripLeft(s)|;
      assert forall k :: 1 <= k < n ==> s[k] == s[1..][..n - 1][k - 1];
    }
  }

  lemma {:induction false} RightIsBlank(s: string)
    ensures Blank(s[|StripRight(s)|..])
  {
    if s != "" && IsSpace(s[|s| - 1]) {
      var front := s[..|s| - 1];
      RightIsBlank(front);
      var n := |StripRight(front)|;
      assert forall k :: n <= k < |front| ==> s[k] == front[n..][k - n];
    }
  }

  /** Gluing a character to the first piece. */
  function Glue(c: char, pieces: seq<string>): seq<string>
    requires pieces != []
  {
    [[c] + pieces[0]] + pieces[1..]
  }

  /** The pieces between separators, empty ones included. */
  function Pieces(s: string, isSep: char -> bool): (r: seq<string>)
    ensures r != []
  {
    if s == "" then [""]
    else
      var rest := Pieces(s[1..], isSep);
      if isSep(s[0]) then [""] + rest else Glue(s[0], rest)
  }

  function Filter<T>(xs: seq<T>, keep: T -> bool): seq<T> {
    if xs == [] then [] else (if keep(xs[0]) then [xs[0]] else []) + Filter(xs[1..], keep)
  }

  function NonBlank(lines: seq<string>): seq<string> {
    Filter(lines, line => !Blank(line))
  }

  /** `[line for line in text.splitlines() if line.strip()]` */
  function NonBlankLines(text: string): seq<string> {
    NonBlank(Pieces(text, IsBreak))
  }

  /** `text.split()` */
  function Words(text: string): seq<string> {
    NonBlank(Pieces(text, IsSpace))
  }

  /** `sep.join(parts)` */
  function Join(parts: seq<string>, sep: char): string {
    if parts == [] then ""
    else if |parts| == 1 then parts[0]
    else parts[0] + [sep] + Join(parts[1..], sep)
  }

  function Concat<T>(parts: seq<seq<T>>): seq<T> {
    if parts == [] then [] else parts[0] + Concat(parts[1..])
  }

  lemma {:induction false} ConcatSnoc<T>(parts: seq<seq<T>>, last: seq<T>)
    ensures Concat(parts + [last]) == Concat(parts) + last
  {
    if parts == [] {
      assert parts + [last] == [last];
    } else {
      assert (parts + [last])[1..] == parts[1..] + [last];
      ConcatSnoc(parts[1..], last);
    }
  }

  lemma {:induction false} JoinAppend(a: seq<string>, b: seq<string>, sep: char)
    requires a != [] && b != []
    ensures Join(a + b, sep) == Join(a, sep) + [sep] + Join(b, sep)
  {
    if |a| == 1 {
      assert (a + b)[1..] == b;
    } else {
      assert (a + b)[1..] == a[1..] + b;
      JoinAppend(a[1..], b, sep);
    }
  }

  /** Joining joined groups is joining all their parts. */
  lemma {:induction false} JoinGroups(groups: seq<seq<string>>, joined: seq<string>, sep: char)
    requires |joined| == |groups|
    requires forall i :: 0 <= i < |groups| ==> groups[i] != [] && joined[i] == Join(groups[i], sep)
    ensures Join(joined, sep) == Join(Concat(groups), sep)
  {
    if groups != [] {
      JoinGroups(groups[1..], joined[1..], sep);
      if |groups| > 1 {
        assert Concat(groups[1..]) == groups[1] + Concat(groups[2..]);
        JoinAppend(groups[0], Concat(groups[1..]), sep);
      } else {
        assert Concat(groups) == groups[0];
      }
    }
  }

  /** The first and last pieces keep the ends of the text. */
  lemma {:induction false} PiecesEnds(s: string, isSep: char -> bool)
    requires s != "" && !isSep(s[|s| - 1])
    ensures var r := Pieces(s, isSep);
      r[|r| - 1] != "" && r[|r| - 1][|r[|r| - 1]| - 1] == s[|s| - 1]
    ensures !isSep(s[0]) ==> Pieces(s, isSep)[0] != "" && Pieces(s, isSep)[0][0] == s[0]
  {
    var r := Pieces(s, isSep);
    var rest := Pieces(s[1..], isSep);
    PiecesCons(s, isSep);
    hide Pieces;
    if |s| > 1 {
      PiecesEnds(s[1..], isSep);
    } else {
      assert s[1..] == "";
    }
  }

  lemma PiecesCons(s: string, isSep: char -> bool)
    requires s != ""
    ensures var rest := Pieces(s[1..], isSep);
      Pieces(s, isSep) == if isSep(s[0]) then [""] + rest else [[s[0]] + rest[0]] + rest[1..]
    ensures |s| == 1 ==> Pieces(s[1..], isSep) == [""]
  {
  }

  lemma {:induction false} FilterAppend<T>(a: seq<T>, b: seq<T>, keep: T -> bool)
    ensures Filter(a + b, keep) == Filter(a, keep) + Filter(b, keep)
  {
    if a == [] {
      assert a + b == b;
    } else {
      assert (a + b)[1..] == a[1..] + b;
      FilterAppend(a[1..], b, keep);
      var head := if keep(a[0]) then [a[0]] else [];
      var whole, left, right, rest := Filter(a + b, keep), Filter(a, keep), Filter(b, keep), Filter(a[1..], keep);
      assert whole == head + (rest + right) && left == head + rest;
      assert whole == left + right;
    }
  }

  lemma {:induction false} JoinEnds(parts: seq<string>, sep: char)
    requires parts != [] && parts[0] != "" && parts[|parts| - 1] != ""
    ensures var s := Join(parts, sep);
      s != "" && s[0] == parts[0][0] && s[|s| - 1] == parts[|parts| - 1][|parts[|parts| - 1]| - 1]
  {
    if |parts| > 1 {
      JoinAppend(parts[..1], parts[1..], sep);
      assert parts == parts[..1] + parts[1..];
      var n := |parts| - 1;
      JoinAppend(parts[..n], parts[n..], sep);
      assert parts == parts[..n] + parts[n..];
      assert Join(parts[n..], sep) == parts[n];
    }
  }

  lemma FilterEnds<T>(parts: seq<T>, keep: T -> bool)
    requires parts != [] && keep(parts[0]) && keep(parts[|parts| - 1])
    ensures var r := Filter(parts, keep);
      r != [] && r[0] == parts[0] && r[|r| - 1] == parts[|parts| - 1]
  {
    var n := |parts| - 1;
    assert parts == parts[..n] + [parts[n]];
    FilterAppend(parts[..n], [parts[n]], keep);
    assert Filter([parts[n]], keep) == [parts[n]];
  }

  /** `kept` are the elements of `xs` at the places `at`, from left to right. */
  ghost predicate StandAt<T>(kept: seq<T>, at: seq<nat>, xs: seq<T>) {
    && |at| == |kept|
    && (forall k :: 0 <= k < |at| ==> at[k] < |xs| && kept[k] == xs[at[k]])
    && (forall k, l :: 0 <= k < l < |at| ==> at[k] < at[l])
  }

  /** The non-blank lines are kept as they are, in their order, and a line is left out exactly when it is blank. */
  lemma {:induction false} NonBlankKeeps(lines: seq<string>) returns (at: seq<nat>)
    ensures StandAt(NonBlank(lines), at, lines)
    ensures forall i: nat :: i < |lines| ==> (Blank(lines[i]) <==> i !in at)
  {
    at := [];
    if lines != [] {
      var n := |lines| - 1;
      var init, last := lines[..n], lines[n];
      at := NonBlankKeeps(init);
      var keep := line => !Blank(line);
      assert lines == init + [last];
      NonBlankAppend(init, last);
      hide NonBlank, Blank;
      assert forall i: nat :: i < n ==> init[i] == lines[i];
      assert n !in at;
      if !Blank(last) {
        at := at + [n];
      }
    }
  }

  lemma NonBlankAppend(init: seq<string>, last: string)
    ensures NonBlank(init + [last]) == NonBlank(init) + if Blank(last) then [] else [last]
  {
    FilterAppend(init, [last], line => !Blank(line));
  }

  /** A trimmed text whose blank lines are dropped is still trimmed. */
  lemma NonBlankLinesTrimmed(text: string)
    requires Trimmed(text) && text != ""
    ensures NonBlankLines(text) != []
    ensures Trimmed(Join(NonBlankLines(text), '\n')) && Join(NonBlankLines(text), '\n') != ""
  {
    PiecesEnds(text, IsBreak);
    FilterEnds(Pieces(text, IsBreak), line => !Blank(line));
    JoinEnds(NonBlankLines(text), '\n');
  }

  /** Length of the lines joined by a newline. */
  ghost function JoinedLength(lines: seq<string>): nat {
    if lines == [] then 0
    else if |lines| == 1 then |lines[0]|
    else |lines[0]| + 1 + JoinedLength(lines[1..])
  }

  lemma {:induction false} JoinedLengthAppend(a: seq<string>, b: seq<string>)
    ensures JoinedLength(a + b) == JoinedLength(a) + JoinedLength(b) + if a == [] || b == [] then 0 else 1
  {
    if a == [] {
      assert a + b == b;
    } else if b == [] {
      assert a + b == a;
    } else {
      assert (a + b)[1..] == a[1..] + b;
      JoinedLengthAppend(a[1..], b);
    }
  }

  lemma {:induction false} JoinedLengthIsLength(lines: seq<string>)
    ensures |Join(lines, '\n')| == JoinedLength(lines)
  {
    if |lines| > 1 {
      JoinedLengthIsLength(lines[1..]);
    }
  }

  /** A stretch of a list of lines is no longer than the list. */
  lemma StretchIsShorter(a: seq<string>, b: seq<string>, c: seq<string>)
    ensures JoinedLength(b) <= JoinedLength(a + b + c)
  {
    JoinedLengthAppend(a + b, c);
    JoinedLengthAppend(a, b);
  }

  // ----- words

  predicate IsWord(w: string) {
    w != "" && forall i :: 0 <= i < |w| ==> !IsSpace(w[i])
  }

  predicate AreWords(ws: seq<string>) {
    forall i :: 0 <= i < |ws| ==> IsWord(ws[i])
  }

  lemma GlueAppend(c: char, a: seq<string>, b: seq<string>)
    requires a != []
    ensures Glue(c, a + b) == Glue(c, a) + b
  {
    assert (a + b)[1..] == a[1..] + b;
  }

  lemma {:induction false} PiecesAppend(a: string, sep: char, b: string, isSep: char -> bool)
    requires isSep(sep)
    ensures Pieces(a + [sep] + b, isSep) == Pieces(a, isSep) + Pieces(b, isSep)
  {
    var whole := a + [sep] + b;
    if a == "" {
      assert whole[1..] == b;
    } else {
      assert whole[1..] == a[1..] + [sep] + b && whole[0] == a[0];
      PiecesAppend(a[1..], sep, b, isSep);
      GlueAppend(a[0], Pieces(a[1..], isSep), Pieces(b, isSep));
    }
  }

  lemma FilterOne<T>(x: T, keep: T -> bool)
    ensures Filter([x], keep) == if keep(x) then [x] else []
  {
    assert [x][1..] == [];
  }

  /** Words on both sides of a space are counted separately. */
  lemma WordsAppend(a: string, sep: char, b: string)
    requires IsSpace(sep)
    ensures Words(a + [sep] + b) == Words(a) + Words(b)
  {
    PiecesAppend(a, sep, b, IsSpace);
    FilterAppend(Pieces(a, IsSpace), Pieces(b, IsSpace), line => !Blank(line));
  }

  lemma {:induction false} PiecesOfWord(w: string)
    requires forall i :: 0 <= i < |w| ==> !IsSpace(w[i])
    ensures Pieces(w, IsSpace) == [w]
  {
    if w != "" {
      PiecesOfWord(w[1..]);
      assert [w[0]] + w[1..] == w;
    }
  }

  lemma WordsOfWord(w: string)
    requires IsWord(w)
    ensures Words(w) == [w]
  {
    PiecesOfWord(w);
    assert !IsSpace(w[0]);
    FilterOne(w, line => !Blank(line));
  }

  /** Splitting what was joined gives the words back. */
  lemma {:induction false} WordsOfJoin(ws: seq<string>)
    requires AreWords(ws)
    ensures Words(Join(ws, ' ')) == ws
  {
    hide Words;
    if ws == [] {
      WordsOfNothing();
    } else if |ws| == 1 {
      WordsOfWord(ws[0]);
    } else {
      WordsOfJoin(ws[1..]);
      WordsOfWord(ws[0]);
      WordsAppend(ws[0], ' ', Join(ws[1..], ' '));
    }
  }

  lemma WordsOfNothing()
    ensures Words("") == []
  {
    assert Pieces("", IsSpace) == [""];
    FilterOne("", line => !Blank(line));
  }

  lemma {:induction false} PiecesHoldNoSeparator(s: string, isSep: char -> bool)
    ensures forall k, i :: 0 <= k < |Pieces(s, isSep)| && 0 <= i < |Pieces(s, isSep)[k]| ==> !isSep(Pieces(s, isSep)[k][i])
  {
    if s != "" {
      PiecesHoldNoSeparator(s[1..], isSep);
      var rest, all := Pieces(s[1..], isSep), Pieces(s, isSep);
      forall k, i | 0 <= k < |all| && 0 <= i < |all[k]| ensures !isSep(all[k][i]) {
        if isSep(s[0]) {
          assert k > 0 ==> all[k] == rest[k - 1];
        } else if k == 0 {
          assert all[0] == [s[0]] + rest[0];
        } else {
          assert all[k] == rest[k];
        }
      }
    }
  }

  lemma {:induction false} FilterKeeps<T>(xs: seq<T>, keep: T -> bool)
    ensures forall x :: x in Filter(xs, keep) ==> x in xs && keep(x)
  {
    if xs != [] {
      FilterKeeps(xs[1..], keep);
    }
  }

  lemma WordsAreWords(text: string)
    ensures AreWords(Words(text))
  {
    var pieces := Pieces(text, IsSpace);
    PiecesHoldNoSeparator(text, IsSpace);
    FilterKeeps(pieces, line => !Blank(line));
    var ws := Words(text);
    forall k | 0 <= k < |ws| ensures IsWord(ws[k]) {
      assert ws[k] in ws;
      assert ws[k] in pieces && !Blank(ws[k]);
      var j :| 0 <= j < |pieces| && pieces[j] == ws[k];
    }
  }

  /** What follows a space in joined words is itself joined words. */
  lemma {:induction false} SuffixAfterSpace(ws: seq<string>, p: nat) returns (m: nat)
    requires AreWords(ws) && p < |Join(ws, ' ')| && Join(ws, ' ')[p] == ' '
    ensures 1 <= m < |ws| && Join(ws, ' ')[p + 1..] == Join(ws[m..], ' ')
  {
    var s, first := Join(ws, ' '), ws[0];
    if |ws| == 1 {
      assert IsSpace(first[p]);
      assert false;
    } else {
      var rest := Join(ws[1..], ' ');
      assert s == first + [' '] + rest;
      assert p < |first| ==> s[p] == first[p];
      if p < |first| {
        assert IsSpace(first[p]);
        assert false;
      } else if p == |first| {
        m := 1;
        assert s[p + 1..] == rest;
      } else {
        assert s[p] == rest[p - |first| - 1];
        m := SuffixAfterSpace(ws[1..], p - |first| - 1);
        assert ws[1..][m..] == ws[m + 1..];
        assert s[p + 1..] == rest[p - |first|..];
        m := m + 1;
      }
    }
  }

  /** Joined words begin and end with a word. */
  lemma JoinedWordsTrimmed(ws: seq<string>)
    requires AreWords(ws) && ws != []
    ensures Trimmed(Join(ws, ' ')) && Join(ws, ' ') != ""
  {
    var last := ws[|ws| - 1];
    assert IsWord(ws[0]) && IsWord(last);
    JoinEnds(ws, ' ');
  }
}
