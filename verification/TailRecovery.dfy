/**
  Completing a live transcript from a backup recording: find the part of the backup text
  that the transcript does not have yet. The result is always the end of the backup text, and
  recovering a second time adds nothing except in the cases `RerunAddsNothing` spells out.
 */
module TailRecovery {
  import opened Text

  /** Longest stretch of words compared at the seam. */
  const MAX_OVERLAP := 120

  /** `needle` stands in `hay` at `i`. */
  predicate OccursAt(hay: string, needle: string, i: nat) {
    i + |needle| <= |hay| && hay[i..i + |needle|] == needle
  }

  /** `str.rfind`, looking at starts up to `i`: the last occurrence, or -1. */
  function LastFrom(hay: string, needle: string, i: int): (r: int)
    requires i < |hay| + 1
    ensures -1 <= r <= i || i < 0
    ensures r >= 0 ==> OccursAt(hay, needle, r)
    ensures forall k: nat :: (r < k <= i) ==> !OccursAt(hay, needle, k)
    decreases i + 1
  {
    if i < 0 then -1
    else if OccursAt(hay, needle, i) then i
    else LastFrom(hay, needle, i - 1)
  }

  function LastOccurrence(hay: string, needle: string): (r: int)
    ensures -1 <= r <= |hay|
    ensures r >= 0 ==> OccursAt(hay, needle, r)
    ensures forall k: nat :: r < k ==> !OccursAt(hay, needle, k)
  {
    LastFrom(hay, needle, |hay|)
  }

  /** The last `k` words of the transcript are the first `k` of the backup. */
  predicate Overlaps(es: seq<string>, bs: seq<string>, k: nat) {
    k <= |es| && k <= |bs| && es[|es| - k..] == bs[..k]
  }

  function Min(a: nat, b: nat): nat {
    if a <= b then a else b
  }

  function OverlapCap(es: seq<string>, bs: seq<string>): nat {
    Min(Min(|es|, |bs|), MAX_OVERLAP)
  }

  /** The largest overlap of 3 up to 120 words, or 0. */
  ghost predicate IsLargestOverlap(k: nat, es: seq<string>, bs: seq<string>) {
    && (k == 0 || (3 <= k <= OverlapCap(es, bs) && Overlaps(es, bs, k)))
    && forall j: nat :: k < j <= OverlapCap(es, bs) && j >= 3 ==> !Overlaps(es, bs, j)
  }

  ghost function LargestOverlap(es: seq<string>, bs: seq<string>, cap: nat): (k: nat)
    ensures k == 0 || (3 <= k <= cap && Overlaps(es, bs, k))
    ensures forall j: nat :: k < j <= cap && j >= 3 ==> !Overlaps(es, bs, j)
  {
    if cap < 3 then 0 else if Overlaps(es, bs, cap) then cap else LargestOverlap(es, bs, cap - 1)
  }

  function WordSet(ws: seq<string>): set<string> {
    set w | w in ws
  }

  /** At least 45 percent of the smaller vocabulary is shared. */
  predicate Similar(es: seq<string>, bs: seq<string>) {
    var shared, smaller := |WordSet(es) * WordSet(bs)|, Min(|WordSet(es)|, |WordSet(bs)|);
    smaller > 0 && shared * 100 >= smaller * 45
  }

  /** The transcript, as normalised text, begins the backup or stands inside it. */
  predicate CharMatch(es: seq<string>, bs: seq<string>) {
    LastOccurrence(Join(bs, ' '), Join(es, ' ')) >= 0
  }

  /** What follows the matched text in the backup, before trimming. */
  function AfterMatch(e: string, b: string): string
    requires LastOccurrence(b, e) >= 0
  {
    if e <= b then b[|e|..] else b[LastOccurrence(b, e) + |e|..]
  }

  lemma PrefixOccurs(e: string, b: string)
    requires e <= b
    ensures LastOccurrence(b, e) >= 0
  {
    assert OccursAt(b, e, 0);
  }

  /** The missing tail, by the words of the transcript and of the backup. */
  ghost function MissingTail(es: seq<string>, bs: seq<string>): string {
    var e, b, k := Join(es, ' '), Join(bs, ' '), LargestOverlap(es, bs, OverlapCap(es, bs));
    if bs == [] then ""
    else if es == [] then b
    else if LastOccurrence(b, e) >= 0 then Strip(AfterMatch(e, b))
    else if k > 0 then Join(bs[k..], ' ')
    else if Similar(es, bs) then ""
    else if |es| < 8 && |bs| > |es| + 4 then b
    else ""
  }

  /** The program, on raw texts. */
  method ExtractMissingTail(existingText: string, backupText: string) returns (tail: string)
    ensures tail == MissingTail(Words(existingText), Words(backupText))
  {
    hide Words, Join, Strip, LastOccurrence, LargestOverlap, Similar;
    var existingTokens, backupTokens := Words(existingText), Words(backupText);
    var existingNorm, backupNorm := Join(existingTokens, ' '), Join(backupTokens, ' ');
    NormIsEmpty(existingText);
    NormIsEmpty(backupText);
    if backupNorm == "" {
      return "";
    }
    if existingNorm == "" {
      return backupNorm;
    }
    if existingNorm <= backupNorm {
      PrefixOccurs(existingNorm, backupNorm);
      return Strip(backupNorm[|existingNorm|..]);
    }
    var foundIdx := LastOccurrence(backupNorm, existingNorm);
    if foundIdx >= 0 {
      return Strip(backupNorm[foundIdx + |existingNorm|..]);
    }
    var overlap := FindOverlap(existingTokens, backupTokens);
    if overlap > 0 {
      return Join(backupTokens[overlap..], ' ');
    }
    if Similar(existingTokens, backupTokens) {
      return "";
    }
    if |existingTokens| < 8 && |backupTokens| > |existingTokens| + 4 {
      return backupNorm;
    }
    return "";
  }

  lemma NormIsEmpty(text: string)
    ensures Join(Words(text), ' ') == "" <==> Words(text) == []
  {
    hide Words;
    WordsAreWords(text);
    if Words(text) != [] {
      JoinedWordsTrimmed(Words(text));
    }
  }

  /** The search loop, from the longest admissible overlap down to three words. */
  method FindOverlap(es: seq<string>, bs: seq<string>) returns (overlap: nat)
    ensures overlap == LargestOverlap(es, bs, OverlapCap(es, bs))
  {
    var tokenCount: nat := OverlapCap(es, bs);
    while tokenCount >= 3
      invariant tokenCount <= OverlapCap(es, bs)
      invariant LargestOverlap(es, bs, OverlapCap(es, bs)) == LargestOverlap(es, bs, tokenCount)
    {
      if es[|es| - tokenCount..] == bs[..tokenCount] {
        return tokenCount;
      }
      tokenCount := tokenCount - 1;
    }
    overlap := 0;
  }

  // ----- the result ends the backup

  ghost predicate IsSuffix(s: string, t: string) {
    |s| <= |t| && t[|t| - |s|..] == s
  }

  lemma SuffixOfSuffix(r: string, s: string, t: string)
    requires IsSuffix(r, s) && IsSuffix(s, t)
    ensures IsSuffix(r, t)
  {
    assert t[|t| - |r|..] == s[|s| - |r|..];
  }

  /** Stripping text that does not end in a space only takes characters off its front. */
  lemma StrippedIsSuffix(s: string)
    requires s == "" || !IsSpace(s[|s| - 1])
    ensures IsSuffix(Strip(s), s)
  {
    var left := StripLeft(s);
    if left != "" {
      assert left[|left| - 1] == s[|s| - 1];
    }
    var both := StripRight(left);
    assert both == left;
  }

  lemma JoinTailIsSuffix(bs: seq<string>, k: nat)
    requires k <= |bs|
    ensures IsSuffix(Join(bs[k..], ' '), Join(bs, ' '))
  {
    hide Join;
    if k == 0 {
      assert bs[0..] == bs;
    } else if k < |bs| {
      JoinAppend(bs[..k], bs[k..], ' ');
      assert bs == bs[..k] + bs[k..];
    } else {
      EmptyJoin();
    }
  }

  lemma EmptyJoin()
    ensures Join([], ' ') == ""
  {
  }

  lemma MatchedRestIsSuffix(e: string, bs: seq<string>)
    requires AreWords(bs) && bs != [] && LastOccurrence(Join(bs, ' '), e) >= 0
    ensures IsSuffix(Strip(AfterMatch(e, Join(bs, ' '))), Join(bs, ' '))
  {
    hide Join, Strip, LastOccurrence;
    var b := Join(bs, ' ');
    var rest := AfterMatch(e, b);
    JoinedWordsTrimmed(bs);
    StrippedIsSuffix(rest);
    SuffixOfSuffix(Strip(rest), rest, b);
  }

  /** Whatever branch is taken, the result is an end of the normalised backup text. */
  lemma TailIsSuffix(es: seq<string>, bs: seq<string>)
    requires AreWords(bs)
    ensures IsSuffix(MissingTail(es, bs), Join(bs, ' '))
  {
    hide Join, Strip, Similar, LargestOverlap, LastOccurrence, Trimmed;
    var e, b, k := Join(es, ' '), Join(bs, ' '), LargestOverlap(es, bs, OverlapCap(es, bs));
    var tail := MissingTail(es, bs);
    if bs != [] && es != [] && LastOccurrence(b, e) >= 0 {
      MatchedRestIsSuffix(e, bs);
      assert tail == Strip(AfterMatch(e, b));
    } else if bs != [] && es != [] && k > 0 {
      JoinTailIsSuffix(bs, k);
      assert tail == Join(bs[k..], ' ');
    } else {
      assert tail == "" || tail == b;
    }
  }

  /**
    In the word-overlap branch the transcript's words followed by the result's end with exactly
    the backup's words, and the overlap used is the largest of 3 up to 120.
   */
  lemma OverlapCompletes(es: seq<string>, bs: seq<string>)
    requires bs != [] && es != [] && !CharMatch(es, bs)
    requires LargestOverlap(es, bs, OverlapCap(es, bs)) > 0
    ensures exists k: nat :: IsLargestOverlap(k, es, bs) && k >= 3
                             && MissingTail(es, bs) == Join(bs[k..], ' ')
                             && (es + bs[k..])[|es| - k..] == bs
  {
    hide Join, Similar;
    var k := LargestOverlap(es, bs, OverlapCap(es, bs));
    assert IsLargestOverlap(k, es, bs);
    assert (es + bs[k..])[|es| - k..] == es[|es| - k..] + bs[k..] == bs[..k] + bs[k..] == bs;
  }

  /** The share of the smaller vocabulary that both texts have. */
  ghost function SharedPart(es: seq<string>, bs: seq<string>): real
    requires es != [] && bs != []
  {
    assert es[0] in WordSet(es) && bs[0] in WordSet(bs);
    |WordSet(es) * WordSet(bs)| as real / Min(|WordSet(es)|, |WordSet(bs)|) as real
  }

  lemma SimilarIff(es: seq<string>, bs: seq<string>)
    requires es != [] && bs != []
    ensures Similar(es, bs) <==> SharedPart(es, bs) >= 0.45
  {
    assert es[0] in WordSet(es) && bs[0] in WordSet(bs);
    AtLeast(|WordSet(es) * WordSet(bs)|, Min(|WordSet(es)|, |WordSet(bs)|));
  }

  lemma AtLeast(part: nat, whole: nat)
    requires whole > 0
    ensures part * 100 >= whole * 45 <==> part as real / whole as real >= 0.45
  {
    var share, n: real := part as real / whole as real, whole as real;
    assert share * n == part as real;
    var gap := share - 0.45;
    assert gap * n == share * n - 0.45 * n;
    SignOfProduct(gap, n);
  }

  lemma SignOfProduct(x: real, y: real)
    requires y > 0.0
    ensures x * y >= 0.0 <==> x >= 0.0
  {
  }

  ghost predicate StandsIn(e: string, b: string) {
    exists i: nat :: OccursAt(b, e, i)
  }

  /** The transcript stands nowhere in the backup, does not overlap its beginning, and is about something else. */
  ghost predicate Unrelated(es: seq<string>, bs: seq<string>)
    requires es != [] && bs != []
  {
    && !StandsIn(Join(es, ' '), Join(bs, ' '))
    && (forall k: nat :: 3 <= k <= 120 ==> !Overlaps(es, bs, k))
    && SharedPart(es, bs) < 0.45
  }

  lemma OccursSomewhere(e: string, b: string)
    ensures LastOccurrence(b, e) >= 0 <==> StandsIn(e, b)
  {
    var k := LastOccurrence(b, e);
    hide OccursAt;
    if k >= 0 {
      var i: nat := k;
      assert OccursAt(b, e, i);
    }
  }

  lemma NoMatchNoOverlap(es: seq<string>, bs: seq<string>)
    ensures CharMatch(es, bs) <==> StandsIn(Join(es, ' '), Join(bs, ' '))
    ensures LargestOverlap(es, bs, OverlapCap(es, bs)) == 0 <==> forall k: nat :: 3 <= k <= 120 ==> !Overlaps(es, bs, k)
  {
    hide Join;
    OccursSomewhere(Join(es, ' '), Join(bs, ' '));
  }

  lemma ShorterThanBackup(es: seq<string>, bs: seq<string>)
    requires AreWords(es) && AreWords(bs) && es != [] && bs != []
    ensures CharMatch(es, bs) ==> |Strip(AfterMatch(Join(es, ' '), Join(bs, ' ')))| < |Join(bs, ' ')|
    ensures forall k: nat :: 0 < k <= |bs| ==> |Join(bs[k..], ' ')| < |Join(bs, ' ')|
  {
    hide Join, Strip, Trimmed, IsWord;
    JoinedWordsTrimmed(es);
    JoinedWordsTrimmed(bs);
    if CharMatch(es, bs) {
      var i, j := StripIsMiddle(AfterMatch(Join(es, ' '), Join(bs, ' ')));
    }
    EmptyJoin();
    forall k: nat | 0 < k <= |bs| ensures |Join(bs[k..], ' ')| < |Join(bs, ' ')| {
      if k < |bs| {
        JoinAppend(bs[..k], bs[k..], ' ');
        assert bs == bs[..k] + bs[k..];
      } else {
        assert bs[k..] == [];
      }
    }
  }

  /**
    The backup is taken whole exactly when there is no transcript yet, or when it has at most seven words, the
    backup at least five more, and the two are unrelated.
   */
  lemma BackupTakenWhole(es: seq<string>, bs: seq<string>)
    requires AreWords(es) && AreWords(bs) && bs != []
    ensures MissingTail(es, bs) == Join(bs, ' ') <==>
            es == [] || (Unrelated(es, bs) && |es| <= 7 && |bs| >= |es| + 5)
  {
    JoinedWordsTrimmed(bs);
    hide Join, Strip, Similar, LargestOverlap, LastOccurrence, Trimmed, IsWord, SharedPart;
    if es != [] {
      SimilarIff(es, bs);
      NoMatchNoOverlap(es, bs);
      ShorterThanBackup(es, bs);
    }
  }

  /**
    A transcript that stands in the backup: what is missing is what follows it there, less the spaces in front,
    taken at the beginning of the backup if it stands there and at the last place where it stands otherwise.
   */
  lemma TailFollowsMatch(es: seq<string>, bs: seq<string>) returns (i: nat, j: nat)
    requires AreWords(es) && AreWords(bs) && es != [] && bs != [] && StandsIn(Join(es, ' '), Join(bs, ' '))
    ensures var e, b := Join(es, ' '), Join(bs, ' ');
      && OccursAt(b, e, i) && i + |e| <= j <= |b|
      && (if OccursAt(b, e, 0) then i == 0 else forall k: nat :: k > i ==> !OccursAt(b, e, k))
      && Blank(b[i + |e|..j]) && MissingTail(es, bs) == b[j..]
      && (j < |b| ==> !IsSpace(b[j]))
  {
    hide Join, Strip, Similar, LargestOverlap, LastOccurrence, Trimmed, IsWord;
    var e, b := Join(es, ' '), Join(bs, ' ');
    OccursSomewhere(e, b);
    i := MatchPlace(e, b);
    TrimmedEnd(bs);
    j := SpacesInFront(b, i + |e|);
  }

  lemma TrimmedEnd(bs: seq<string>)
    requires AreWords(bs) && bs != []
    ensures Join(bs, ' ') != "" && !IsSpace(Join(bs, ' ')[|Join(bs, ' ')| - 1])
  {
    hide Join, IsWord;
    JoinedWordsTrimmed(bs);
  }

  lemma MatchPlace(e: string, b: string) returns (i: nat)
    requires LastOccurrence(b, e) >= 0
    ensures OccursAt(b, e, i) && AfterMatch(e, b) == b[i + |e|..]
    ensures if OccursAt(b, e, 0) then i == 0 else forall k: nat :: k > i ==> !OccursAt(b, e, k)
  {
    hide LastFrom;
    i := if e <= b then 0 else LastOccurrence(b, e);
  }

  /** Stripping the end of a text that does not end in a space. */
  lemma SpacesInFront(b: string, p: nat) returns (j: nat)
    requires p <= |b| && b != "" && !IsSpace(b[|b| - 1])
    ensures p <= j <= |b| && Blank(b[p..j]) && Strip(b[p..]) == b[j..] && (j < |b| ==> !IsSpace(b[j]))
  {
    hide Strip;
    var rest := b[p..];
    var n, m := StripIsMiddle(rest);
    j := p + n;
    assert rest[..n] == b[p..j] && rest[n..m] == b[j..];
    assert Trimmed(Strip(rest));
  }

  // ----- recovering twice

  /** The matched text is followed by nothing or by a space. */
  ghost predicate EndsOnWord(es: seq<string>, bs: seq<string>)
    requires CharMatch(es, bs)
  {
    var rest := AfterMatch(Join(es, ' '), Join(bs, ' '));
    rest == "" || rest[0] == ' '
  }

  /** Some 3 to 120 words both begin and end the backup. */
  ghost predicate HasBorder(bs: seq<string>) {
    exists k: nat :: 3 <= k <= Min(|bs|, MAX_OVERLAP) && bs[|bs| - k..] == bs[..k]
  }

  lemma StripOneSpace(s: string)
    requires Trimmed(s) && s != ""
    ensures Strip([' '] + s) == s
  {
    var t := [' '] + s;
    assert t[1..] == s;
    var left := StripLeft(t);
    assert left == StripLeft(s) == s;
    var both := StripRight(left);
    assert both == s;
  }

  lemma OccurrenceSplits(hay: string, needle: string, i: nat)
    requires OccursAt(hay, needle, i)
    ensures hay[i..] == needle + hay[i + |needle|..]
  {
  }

  /** A match on a word boundary leaves whole words of the backup. */
  lemma BoundaryTail(es: seq<string>, bs: seq<string>) returns (m: nat, idx: nat)
    requires AreWords(es) && AreWords(bs) && es != [] && bs != [] && CharMatch(es, bs) && EndsOnWord(es, bs)
    requires MissingTail(es, bs) != ""
    ensures m < |bs| && MissingTail(es, bs) == Join(bs[m..], ' ')
    ensures idx <= |Join(bs, ' ')| && Join(bs, ' ')[idx..] == Join(es, ' ') + [' '] + Join(bs[m..], ' ')
    ensures Join(es, ' ') <= Join(bs, ' ') ==> idx == 0
  {
    hide Join, Strip, LastOccurrence, Trimmed, IsWord;
    var e, b := Join(es, ' '), Join(bs, ' ');
    var rest := AfterMatch(e, b);
    StripOfNothing();
    idx := if e <= b then 0 else LastOccurrence(b, e);
    var p := idx + |e|;
    OccurrenceSplits(b, e, idx);
    assert rest == b[p..];
    assert rest == "" ==> Strip(rest) == "";
    assert b[p] == rest[0] == ' ';
    m := RestAfterSpace(bs, p);
  }

  lemma RestAfterSpace(bs: seq<string>, p: nat) returns (m: nat)
    requires AreWords(bs) && p < |Join(bs, ' ')| && Join(bs, ' ')[p] == ' '
    ensures m < |bs| && Join(bs, ' ')[p..] == [' '] + Join(bs[m..], ' ')
    ensures Strip(Join(bs, ' ')[p..]) == Join(bs[m..], ' ')
  {
    hide Join, Strip, IsWord;
    m := SuffixAfterSpace(bs, p);
    var b, tail := Join(bs, ' '), Join(bs[m..], ' ');
    assert b[p..] == [b[p]] + b[p + 1..];
    JoinedWordsTrimmed(bs[m..]);
    StripOneSpace(tail);
  }

  lemma StripOfNothing()
    ensures Strip("") == ""
  {
  }

  /** If the transcript is now an end of the backup that did not begin it before, nothing is missing. */
  lemma RerunAfterCharMatch(es: seq<string>, bs: seq<string>)
    requires AreWords(es) && AreWords(bs) && es != [] && bs != [] && CharMatch(es, bs) && EndsOnWord(es, bs)
    requires MissingTail(es, bs) != ""
    ensures MissingTail(es + Words(MissingTail(es, bs)), bs) == ""
  {
    hide Join, Strip, LastOccurrence, Words;
    var m, idx := BoundaryTail(es, bs);
    WordsOfJoin(bs[m..]);
    var es' := es + bs[m..];
    JoinAppend(es, bs[m..], ' ');
    var e, e', b := Join(es, ' '), Join(es', ' '), Join(bs, ' ');
    assert e' == b[idx..] && e <= e';
    StripOfNothing();
    assert OccursAt(b, e', idx);
    assert LastOccurrence(b, e') == idx by { assert LastOccurrence(b, e') >= idx; }
    assert AfterMatch(e', b) == "" by {
      if e' <= b { assert e <= b; }
    }
  }

  /** The transcript now ends with the whole backup. */
  lemma NoCharMatchWhenLonger(before: seq<string>, bs: seq<string>)
    requires AreWords(before) && before != [] && bs != []
    ensures |Join(before + bs, ' ')| > |Join(bs, ' ')|
  {
    hide Join;
    JoinAppend(before, bs, ' ');
  }

  lemma AllShared(before: seq<string>, bs: seq<string>)
    requires bs != []
    ensures Similar(before + bs, bs)
  {
    var a, b := WordSet(before + bs), WordSet(bs);
    assert bs[0] in b;
    assert a * b == b by { assert b <= a; }
    assert b != {};
  }

  /** An overlap with a transcript that ends with the backup is a border of the backup. */
  lemma OverlapIsBorder(before: seq<string>, bs: seq<string>, k: nat)
    requires k <= |bs|
    ensures Overlaps(before + bs, bs, k) <==> bs[|bs| - k..] == bs[..k]
  {
    assert (before + bs)[|before + bs| - k..] == bs[|bs| - k..];
  }

  /**
    Once the transcript ends with the whole backup, nothing is missing exactly when the backup
    is short enough to be compared whole, or has no border that the comparison mistakes for the seam.
   */
  lemma RerunAtBackup(before: seq<string>, bs: seq<string>)
    requires AreWords(before) && AreWords(bs) && before != [] && |bs| >= 3
    ensures MissingTail(before + bs, bs) == "" <==> |bs| <= MAX_OVERLAP || !HasBorder(bs)
  {
    hide Join, MissingTail, LargestOverlap, HasBorder, AreWords;
    var es := before + bs;
    var k := LargestOverlap(es, bs, OverlapCap(es, bs));
    var tail := TailAtBackup(before, bs);
    OverlapAtBackup(before, bs);
    if k == |bs| {
      EmptyJoin();
      assert bs[k..] == [];
    } else if k > 0 {
      TailIsNonEmpty(bs, k);
    }
  }

  lemma TailIsNonEmpty(bs: seq<string>, k: nat)
    requires AreWords(bs) && k < |bs|
    ensures Join(bs[k..], ' ') != ""
  {
    hide Join;
    JoinedWordsTrimmed(bs[k..]);
  }

  /** The overlap found is the whole backup if it is short, else its largest border. */
  lemma OverlapAtBackup(before: seq<string>, bs: seq<string>)
    requires |bs| >= 3
    ensures var k := LargestOverlap(before + bs, bs, OverlapCap(before + bs, bs));
      && (|bs| <= MAX_OVERLAP ==> k == |bs|)
      && (|bs| > MAX_OVERLAP ==> k <= MAX_OVERLAP && (k > 0 <==> HasBorder(bs)))
  {
    hide LargestOverlap, Overlaps;
    var es := before + bs;
    var cap := OverlapCap(es, bs);
    assert cap == Min(|bs|, MAX_OVERLAP);
    var k := LargestOverlap(es, bs, cap);
    OverlapIsBorder(before, bs, k);
    if |bs| <= MAX_OVERLAP {
      OverlapIsBorder(before, bs, |bs|);
    } else if HasBorder(bs) {
      var j: nat :| 3 <= j <= cap && bs[|bs| - j..] == bs[..j];
      OverlapIsBorder(before, bs, j);
    }
  }

  lemma TailAtBackup(before: seq<string>, bs: seq<string>) returns (tail: string)
    requires AreWords(before) && AreWords(bs) && before != [] && |bs| >= 3
    ensures var k := LargestOverlap(before + bs, bs, OverlapCap(before + bs, bs));
      tail == MissingTail(before + bs, bs) == if k > 0 then Join(bs[k..], ' ') else ""
  {
    hide Join, Strip, Similar, LargestOverlap, IsWord;
    NoCharMatchWhenLonger(before, bs);
    AllShared(before, bs);
    tail := MissingTail(before + bs, bs);
  }

  // ----- a match that ends inside a word

  /** What stands in joined words from a character that is no separator is joined words again. */
  lemma {:induction false} MidWord(bs: seq<string>, p: nat) returns (ws: seq<string>)
    requires AreWords(bs) && p < |Join(bs, ' ')| && Join(bs, ' ')[p] != ' '
    ensures ws != [] && AreWords(ws) && Join(ws, ' ') == Join(bs, ' ')[p..]
  {
    var b, first := Join(bs, ' '), bs[0];
    if p < |first| {
      var half := first[p..];
      assert IsWord(first);
      ws := [half] + bs[1..];
      if |bs| > 1 {
        assert b == first + [' '] + Join(bs[1..], ' ');
        assert ws[1..] == bs[1..];
        assert b[p..] == half + [' '] + Join(bs[1..], ' ');
      }
    } else {
      var rest := Join(bs[1..], ' ');
      assert b == first + [' '] + rest;
      ws := MidWord(bs[1..], p - |first| - 1);
      assert b[p..] == rest[p - |first| - 1..];
    }
  }

  /** Inside a word, the result is what follows the match, a piece of a word first. */
  lemma HalfWordTail(es: seq<string>, bs: seq<string>) returns (p: nat, ws: seq<string>)
    requires AreWords(es) && AreWords(bs) && es != [] && bs != [] && CharMatch(es, bs) && !EndsOnWord(es, bs)
    ensures var e, b := Join(es, ' '), Join(bs, ' ');
      && |e| <= p < |b| && b[p - |e|..p] == e && b[p..] == Join(ws, ' ') == MissingTail(es, bs)
    ensures ws != [] && AreWords(ws) && Words(MissingTail(es, bs)) == ws
  {
    hide Join, Strip, LastOccurrence, LargestOverlap, Similar, Words, IsWord, Trimmed;
    var e, b := Join(es, ' '), Join(bs, ' ');
    var i: nat := if e <= b then 0 else LastOccurrence(b, e);
    p := i + |e|;
    assert OccursAt(b, e, i);
    assert AfterMatch(e, b) == b[p..];
    ws := MidWord(bs, p);
    JoinedWordsTrimmed(ws);
    WordsOfJoin(ws);
  }

  /**
    For every match that ends inside a word: transcript and result put together end the backup, but what is
    stored, with a space between them, does not. A word of the backup has been cut in two.
   */
  lemma HalfWordNeverFits(es: seq<string>, bs: seq<string>)
    requires AreWords(es) && AreWords(bs) && es != [] && bs != [] && CharMatch(es, bs) && !EndsOnWord(es, bs)
    ensures MissingTail(es, bs) != "" && IsSuffix(Join(es, ' ') + MissingTail(es, bs), Join(bs, ' '))
    ensures !IsSuffix(Join(es + Words(MissingTail(es, bs)), ' '), Join(bs, ' '))
    ensures !IsSuffix(Join(bs, ' '), Join(es + Words(MissingTail(es, bs)), ' '))
  {
    hide Join, Strip, LargestOverlap, Similar, Words, IsWord, CharMatch, EndsOnWord, MissingTail;
    var e, b := Join(es, ' '), Join(bs, ' ');
    var p, ws := HalfWordTail(es, bs);
    var tail := MissingTail(es, bs);
    JoinedWordsTrimmed(ws);
    JoinedWordsTrimmed(es);
    JoinAppend(es, ws, ' ');
    var after := Join(es + ws, ' ');
    assert after == e + [' '] + tail;
    assert b[p - |e|..] == e + tail;
    var n := |tail| + 1;
    assert b[|b| - n] == e[|e| - 1];
    assert after[|after| - n] == ' ' && IsSpace(' ') && !IsSpace(e[|e| - 1]);
    NotSuffix(after, b, n);
    NotSuffix(b, after, n);
  }

  lemma NotSuffix(s: string, t: string, n: nat)
    requires 1 <= n <= |s| && n <= |t| && s[|s| - n] != t[|t| - n]
    ensures !IsSuffix(s, t)
  {
    assert |s| <= |t| ==> t[|t| - |s|..][|s| - n] == t[|t| - n];
  }

  /** The text has a match nowhere and an overlap nowhere, and counts as the same text or as too long to add to. */
  ghost predicate Dismissed(es: seq<string>, bs: seq<string>) {
    && !CharMatch(es, bs) && LargestOverlap(es, bs, OverlapCap(es, bs)) == 0
    && (Similar(es, bs) || |es| >= 8 || |bs| <= |es| + 4)
  }

  /** After a match inside a word the second run finds nothing exactly when it dismisses the backup. */
  lemma RerunInsideWordIff(es: seq<string>, bs: seq<string>)
    requires AreWords(es) && AreWords(bs) && es != [] && bs != [] && CharMatch(es, bs) && !EndsOnWord(es, bs)
    ensures MissingTail(es + Words(MissingTail(es, bs)), bs) == "" <==> Dismissed(es + Words(MissingTail(es, bs)), bs)
  {
    HalfWordNeverFits(es, bs);
    var es' := es + Words(MissingTail(es, bs));
    hide MissingTail, EndsOnWord;
    UnfitRerun(es', bs);
  }

  /** A transcript and a backup of which neither ends the other. */
  lemma UnfitRerun(es: seq<string>, bs: seq<string>)
    requires AreWords(bs) && es != [] && bs != []
    requires !IsSuffix(Join(es, ' '), Join(bs, ' ')) && !IsSuffix(Join(bs, ' '), Join(es, ' '))
    ensures MissingTail(es, bs) == "" <==> Dismissed(es, bs)
  {
    hide Join, Strip, Similar, IsWord;
    var e, b, k := Join(es, ' '), Join(bs, ' '), LargestOverlap(es, bs, OverlapCap(es, bs));
    var tail := MissingTail(es, bs);
    JoinedWordsTrimmed(bs);
    if CharMatch(es, bs) {
      hide LargestOverlap;
      var rest := AfterMatch(e, b);
      UnfitRest(e, b, rest);
    } else if k > 0 {
      if k == |bs| {
        assert es == es[..|es| - k] + bs;
        WholeOverlapFits(es[..|es| - k], bs);
      }
      JoinedWordsTrimmed(bs[k..]);
    }
  }

  lemma UnfitRest(e: string, b: string, rest: string)
    requires !IsSuffix(e, b) && LastOccurrence(b, e) >= 0 && rest == AfterMatch(e, b) && b != "" && !IsSpace(b[|b| - 1])
    ensures Strip(rest) != ""
  {
    hide Strip;
    var i: nat := if e <= b then 0 else LastOccurrence(b, e);
    assert OccursAt(b, e, i) && rest == b[i + |e|..];
    assert rest != "";
    assert !IsSpace(rest[|rest| - 1]);
    BlankIffStripped(rest);
  }

  lemma WholeOverlapFits(before: seq<string>, bs: seq<string>)
    requires bs != []
    ensures IsSuffix(Join(bs, ' '), Join(before + bs, ' '))
  {
    hide Join;
    if before == [] {
      assert before + bs == bs;
    } else {
      JoinAppend(before, bs, ' ');
    }
  }

  /** When a second run with the same backup finds nothing: the whole answer, by the branch the first run took. */
  ghost predicate RerunFindsNothing(es: seq<string>, bs: seq<string>) {
    if es != [] && CharMatch(es, bs) then
      EndsOnWord(es, bs) || Dismissed(es + Words(MissingTail(es, bs)), bs)
    else es == [] || |bs| <= MAX_OVERLAP || !HasBorder(bs)
  }

  /**
    Recovering twice. After the missing tail has been appended, a second run with the same backup finds nothing
    exactly when: the transcript was empty; or it had matched up to the end of a word; or it had matched into a
    word and the backup is dismissed as it is then; or it had not matched, and the backup has at most 120 words
    or no border of 3 to 120 words.
   */
  lemma RerunAddsNothing(es: seq<string>, bs: seq<string>)
    requires AreWords(es) && AreWords(bs) && MissingTail(es, bs) != ""
    ensures MissingTail(es + Words(MissingTail(es, bs)), bs) == "" <==> RerunFindsNothing(es, bs)
  {
    hide Join, Strip, Similar, LargestOverlap, LastOccurrence, Words, Dismissed;
    var tail := MissingTail(es, bs);
    var k := LargestOverlap(es, bs, OverlapCap(es, bs));
    if es == [] {
      WordsOfJoin(bs);
      assert es + Words(tail) == bs;
      NothingMissing(bs);
    } else if CharMatch(es, bs) {
      if EndsOnWord(es, bs) {
        RerunAfterCharMatch(es, bs);
      } else {
        RerunInsideWordIff(es, bs);
      }
    } else if k > 0 {
      assert tail == Join(bs[k..], ' ');
      WordsOfJoin(bs[k..]);
      var before := es[..|es| - k];
      assert es + Words(tail) == before + bs by { assert es == before + es[|es| - k..] && bs == bs[..k] + bs[k..]; }
      OverlapIsPartial(es, bs, k);
      RerunAtBackup(before, bs);
    } else {
      assert tail == Join(bs, ' ');
      WordsOfJoin(bs);
      RerunAtBackup(es, bs);
    }
  }

  lemma NothingMissing(bs: seq<string>)
    ensures MissingTail(bs, bs) == ""
  {
    hide Join, Strip, LastOccurrence;
    var b := Join(bs, ' ');
    PrefixOccurs(b, b);
    StripOfNothing();
    assert b[|b|..] == "";
  }

  /** Without a character-level match the overlap cannot be the whole transcript. */
  lemma OverlapIsPartial(es: seq<string>, bs: seq<string>, k: nat)
    requires es != [] && bs != [] && !CharMatch(es, bs) && Overlaps(es, bs, k) && k > 0
    ensures k < |es|
  {
    hide Join, LastOccurrence;
    if k == |es| {
      assert es == bs[..k];
      JoinPrefix(bs, k);
      PrefixOccurs(Join(es, ' '), Join(bs, ' '));
    }
  }

  lemma JoinPrefix(bs: seq<string>, k: nat)
    requires 0 < k <= |bs|
    ensures Join(bs[..k], ' ') <= Join(bs, ' ')
  {
    hide Join;
    assert bs == bs[..k] + bs[k..];
    if k < |bs| {
      JoinAppend(bs[..k], bs[k..], ' ');
    } else {
      assert bs[..k] == bs;
    }
  }

  lemma LastInExample()
    ensures LastOccurrence("p q r s t u ax", "a") == 12
  {
    hide LastOccurrence;
    var b := "p q r s t u ax";
    assert OccursAt(b, "a", 12);
    forall i: nat | i > 12 ensures !OccursAt(b, "a", i) {
      if i == 13 { assert b[13..14][0] == 'x'; }
    }
  }

  /** A match inside a word leaves a piece of a word ... */
  lemma MatchInsideWord()
    ensures var es, bs := ["a"], ["p", "q", "r", "s", "t", "u", "ax"];
      MissingTail(es, bs) == "x" && CharMatch(es, bs) && !EndsOnWord(es, bs)
  {
    hide Join, LastOccurrence, Words, LargestOverlap, Similar, Strip, OccursAt;
    var es, bs := ["a"], ["p", "q", "r", "s", "t", "u", "ax"];
    JoinedExample();
    LastInExample();
    var b := "p q r s t u ax";
    assert b[0] != 'a' && b[13..] == "x";
    var rest := AfterMatch("a", b);
    assert rest == "x";
    assert Trimmed("x") && Strip("x") == "x";
    var tail := MissingTail(es, bs);
    assert tail == "x";
  }

  /** ... with which the second run finds no seam any more and appends the whole backup. */
  lemma RerunInsideWord()
    ensures MissingTail(["a"] + Words("x"), ["p", "q", "r", "s", "t", "u", "ax"]) == "p q r s t u ax"
  {
    hide Join, LastOccurrence, Words, LargestOverlap, Strip;
    var es, bs := ["a", "x"], ["p", "q", "r", "s", "t", "u", "ax"];
    JoinedExample();
    WordsOfWord("x");
    assert ["a"] + Words("x") == es;
    var b := "p q r s t u ax";
    forall i: nat ensures !OccursAt(b, "a x", i) {
      if i + 3 <= |b| {
        assert b[i..i + 3][0] == b[i] && "a x"[0] == 'a';
        assert b[i] != 'a';
      }
    }
    assert LargestOverlap(es, bs, OverlapCap(es, bs)) == 0;
    assert WordSet(es) * WordSet(bs) == {};
    var tail := MissingTail(es, bs);
    assert tail == b;
  }

  lemma JoinedExample()
    ensures Join(["a"], ' ') == "a" && Join(["a", "x"], ' ') == "a x"
    ensures Join(["p", "q", "r", "s", "t", "u", "ax"], ' ') == "p q r s t u ax"
  {
    var j1 := Join(["u", "ax"], ' ');
    assert j1 == "u ax";
    assert ["t", "u", "ax"][1..] == ["u", "ax"];
    var j2 := Join(["t", "u", "ax"], ' ');
    assert j2 == "t u ax";
    assert ["s", "t", "u", "ax"][1..] == ["t", "u", "ax"];
    var j3 := Join(["s", "t", "u", "ax"], ' ');
    assert j3 == "s t u ax";
    assert ["r", "s", "t", "u", "ax"][1..] == ["s", "t", "u", "ax"];
    var j4 := Join(["r", "s", "t", "u", "ax"], ' ');
    assert j4 == "r s t u ax";
    assert ["q", "r", "s", "t", "u", "ax"][1..] == ["r", "s", "t", "u", "ax"];
    var j5 := Join(["q", "r", "s", "t", "u", "ax"], ' ');
    assert j5 == "q r s t u ax";
    assert ["p", "q", "r", "s", "t", "u", "ax"][1..] == ["q", "r", "s", "t", "u", "ax"];
  }

  /** 121 times the same word has a border, and the second run appends a word again. */
  lemma RerunAfterLongBackup()
    ensures var bs := seq(121, _ => "a");
      HasBorder(bs) && MissingTail(["z"] + bs, bs) != ""
  {
    hide Join, MissingTail;
    var bs := seq(121, _ => "a");
    assert bs[|bs| - 120..] == bs[..120];
    assert IsWord("a") && IsWord("z");
    RerunAtBackup(["z"], bs);
  }

  // ----- appending the tail to the stored transcript

  datatype Segment = Segment(number: int, text: string)

  /** The stored texts, trimmed and without the empty ones, one per line. */
  ghost function ExistingText(segs: seq<Segment>): string {
    Join(Texts(segs), '\n')
  }

  ghost function Texts(segs: seq<Segment>): seq<string> {
    if segs == [] then []
    else
      var text := Strip(segs[0].text);
      (if text == "" then [] else [text]) + Texts(segs[1..])
  }

  lemma {:induction false} TextsAppend(segs: seq<Segment>, seg: Segment)
    requires Strip(seg.text) == seg.text != ""
    ensures Texts(segs + [seg]) == Texts(segs) + [seg.text]
  {
    hide Strip;
    if segs == [] {
      assert [seg][1..] == [];
    } else {
      assert (segs + [seg])[1..] == segs[1..] + [seg];
      TextsAppend(segs[1..], seg);
    }
  }

  /** A stored segment contributes its words after all earlier ones. */
  lemma ExistingWords(segs: seq<Segment>, seg: Segment)
    requires Strip(seg.text) == seg.text != ""
    ensures Words(ExistingText(segs + [seg])) == Words(ExistingText(segs)) + Words(seg.text)
  {
    hide Strip, Words, Texts;
    TextsAppend(segs, seg);
    var before := Texts(segs);
    if before == [] {
      WordsOfNothing();
      assert before + [seg.text] == [seg.text];
    } else {
      JoinAppend(before, [seg.text], '\n');
      WordsAppend(Join(before, '\n'), '\n', seg.text);
    }
  }

  lemma TailIsTrimmed(es: seq<string>, bs: seq<string>)
    requires AreWords(bs)
    ensures Trimmed(MissingTail(es, bs))
  {
    hide Join, Strip, LastOccurrence, LargestOverlap, Similar;
    var k := LargestOverlap(es, bs, OverlapCap(es, bs));
    var tail := MissingTail(es, bs);
    if bs != [] {
      JoinedWordsTrimmed(bs);
      if k < |bs| {
        JoinedWordsTrimmed(bs[k..]);
      } else {
        assert bs[k..] == [];
        EmptyJoin();
      }
    }
  }

  method NextNumber(segs: seq<Segment>) returns (next: int)
    ensures forall i :: 0 <= i < |segs| ==> segs[i].number < next
    ensures segs == [] ==> next == 0
    ensures segs != [] ==> exists i :: 0 <= i < |segs| && next == segs[i].number + 1
  {
    if |segs| == 0 {
      return 0;
    }
    var top := segs[0].number;
    for i := 1 to |segs|
      invariant forall j :: 0 <= j < i ==> segs[j].number <= top
      invariant exists j :: 0 <= j < i && top == segs[j].number
    {
      if segs[i].number > top {
        top := segs[i].number;
      }
    }
    next := top + 1;
  }

  /** Store the missing tail, if any, as one more segment behind all others. */
  method Recover(segs: seq<Segment>, existingText: string, backupText: string) returns (segs': seq<Segment>, added: nat)
    requires existingText == ExistingText(segs)
    ensures added == if MissingTail(Words(existingText), Words(backupText)) == "" then 0 else 1
    ensures added == 0 ==> segs' == segs
    ensures added == 1 ==> |segs'| == |segs| + 1 && segs'[..|segs|] == segs
    ensures added == 1 ==> segs'[|segs|].text == MissingTail(Words(existingText), Words(backupText))
    ensures added == 1 ==> forall i :: 0 <= i < |segs| ==> segs[i].number < segs'[|segs|].number
  {
    hide ExistingText, MissingTail;
    var missingTail := ExtractMissingTail(existingText, backupText);
    if missingTail == "" {
      return segs, 0;
    }
    var nextSeq := NextNumber(segs);
    return segs + [Segment(nextSeq, missingTail)], 1;
  }

  /** Running the recovery again on what it stored, with the same backup. */
  lemma RecoverTwice(segs: seq<Segment>, seg: Segment, es: seq<string>, bs: seq<string>)
    requires es == Words(ExistingText(segs)) && AreWords(bs) && seg.text == MissingTail(es, bs) != ""
    ensures MissingTail(Words(ExistingText(segs + [seg])), bs) == "" <==> RerunFindsNothing(es, bs)
  {
    hide MissingTail, ExistingText, Words, RerunFindsNothing, Strip;
    TailIsTrimmed(es, bs);
    ExistingWords(segs, seg);
    WordsAreWords(ExistingText(segs));
    RerunAddsNothing(es, bs);
  }
}
