/**
  How closely the query terms stand together in a chunk: a sliding window that finds the
  shortest stretch of the chunk containing every term.
 */
module CoverSpan {
  import opened Options

  /** The half-open window `[l, r)` of `tokens` contains every needed term. */
  ghost predicate Covers<Token>(tokens: seq<Token>, l: nat, r: nat, needed: set<Token>)
    requires r <= |tokens|
  {
    forall t :: t in needed ==> exists i :: l <= i < r && tokens[i] == t
  }

  ghost function Occurrences<Token>(tokens: seq<Token>, l: nat, r: nat, t: Token): nat
    requires l <= r <= |tokens|
    decreases r
  {
    if l == r then 0 else Occurrences(tokens, l, r - 1, t) + if tokens[r - 1] == t then 1 else 0
  }

  lemma {:induction false} OccurrencesFront<Token>(tokens: seq<Token>, l: nat, r: nat, t: Token)
    requires l < r <= |tokens|
    ensures Occurrences(tokens, l, r, t) ==
            Occurrences(tokens, l + 1, r, t) + if tokens[l] == t then 1 else 0
    decreases r
  {
    if l + 1 < r {
      OccurrencesFront(tokens, l, r - 1, t);
    }
  }

  lemma {:induction false} OccursIff<Token>(tokens: seq<Token>, l: nat, r: nat, t: Token)
    requires l <= r <= |tokens|
    ensures Occurrences(tokens, l, r, t) > 0 <==> exists i :: l <= i < r && tokens[i] == t
    decreases r
  {
    if l < r {
      OccursIff(tokens, l, r - 1, t);
    }
  }

  /** `have` counts the needed terms inside the window and holds no others. */
  ghost predicate Counts<Token>(have: map<Token, nat>, tokens: seq<Token>, l: nat, r: nat, needed: set<Token>)
    requires l <= r <= |tokens|
  {
    && (forall t :: t in have ==> t in needed)
    && (forall t :: t in needed ==>
          Occurrences(tokens, l, r, t) == if t in have then have[t] else 0)
    && (forall t :: t in have ==> have[t] > 0)
  }

  lemma CoversIffNoneMissing<Token>(have: map<Token, nat>, tokens: seq<Token>, l: nat, r: nat, needed: set<Token>)
    requires l <= r <= |tokens| && Counts(have, tokens, l, r, needed)
    ensures |needed| - |have.Keys| >= 0
    ensures Covers(tokens, l, r, needed) <==> |needed| - |have.Keys| == 0
  {
    forall t | t in needed ensures t in have <==> exists i :: l <= i < r && tokens[i] == t {
      OccursIff(tokens, l, r, t);
    }
    assert have.Keys <= needed;
    SubsetSize(have.Keys, needed);
  }

  lemma SubsetSize<T>(a: set<T>, b: set<T>)
    requires a <= b
    ensures |a| <= |b| && (|a| == |b| <==> a == b)
  {
    assert b == a + (b - a);
  }

  /** No covering window that ends at `r` or before is shorter than `best`. */
  ghost predicate NoShorter<Token>(best: Option<nat>, tokens: seq<Token>, r: nat, needed: set<Token>)
    requires r <= |tokens|
  {
    forall l: nat, e: nat {:trigger Covers(tokens, l, e, needed)} ::
      l <= e <= r && Covers(tokens, l, e, needed) ==> best.Some? && best.value <= e - l
  }

  ghost predicate Attained<Token>(best: Option<nat>, tokens: seq<Token>, r: nat, needed: set<Token>)
    requires r <= |tokens|
  {
    best.Some? ==>
      exists l: nat, e: nat {:trigger Covers(tokens, l, e, needed)} ::
        l <= e <= r && Covers(tokens, l, e, needed) && best.value == e - l
  }

  /** `best` is the least size of a covering window of `tokens`, if there is one. */
  ghost predicate IsBest<Token>(best: Option<nat>, tokens: seq<Token>, needed: set<Token>) {
    NoShorter(best, tokens, |tokens|, needed) && Attained(best, tokens, |tokens|, needed)
  }

  function Better(best: Option<nat>, span: nat): Option<nat> {
    if best.None? || span < best.value then Some(span) else best
  }

  lemma BetterKeeps<Token>(best: Option<nat>, tokens: seq<Token>, l: nat, r: nat, needed: set<Token>)
    requires l <= r < |tokens| && Covers(tokens, l, r + 1, needed)
    requires NoShorter(best, tokens, r, needed) && Attained(best, tokens, r + 1, needed)
    ensures var best' := Better(best, r + 1 - l);
      NoShorter(best', tokens, r, needed) && Attained(best', tokens, r + 1, needed)
  {
  }

  lemma CoverWidens<Token>(tokens: seq<Token>, l: nat, k: nat, r: nat, needed: set<Token>)
    requires l <= k && r <= |tokens| && Covers(tokens, k, r, needed)
    ensures Covers(tokens, l, r, needed)
  {
  }

  /** Windows ending at `r + 1`: those starting before `l` are long enough, the others do not cover. */
  lemma ExtendNoShorter<Token>(best: Option<nat>, tokens: seq<Token>, l: nat, r: nat, needed: set<Token>)
    requires l <= r + 1 <= |tokens| && !Covers(tokens, l, r + 1, needed)
    requires NoShorter(best, tokens, r, needed)
    requires l > 0 ==> best.Some? && best.value <= r + 1 - (l - 1)
    ensures NoShorter(best, tokens, r + 1, needed)
  {
    forall k: nat, e: nat | k <= e <= r + 1 && Covers(tokens, k, e, needed)
      ensures best.Some? && best.value <= e - k
    {
      if k >= l {
        CoverWidens(tokens, l, k, e, needed);
      }
    }
  }

  function Add<Token>(have: map<Token, nat>, tok: Token, needed: set<Token>): map<Token, nat> {
    if tok !in needed then have else have[tok := 1 + if tok in have then have[tok] else 0]
  }

  function Remove<Token>(have: map<Token, nat>, tok: Token, needed: set<Token>): map<Token, nat> {
    if tok !in needed || tok !in have then have
    else if have[tok] <= 1 then have - {tok}
    else have[tok := have[tok] - 1]
  }

  /** `tok` is counted exactly once. */
  predicate LastOne<Token>(have: map<Token, nat>, tok: Token) {
    tok in have && have[tok] == 1
  }

  lemma AddCounts<Token>(have: map<Token, nat>, tokens: seq<Token>, l: nat, r: nat, needed: set<Token>)
    requires l <= r < |tokens| && Counts(have, tokens, l, r, needed)
    ensures Counts(Add(have, tokens[r], needed), tokens, l, r + 1, needed)
    ensures |Add(have, tokens[r], needed).Keys| ==
            |have.Keys| + if tokens[r] in needed && tokens[r] !in have then 1 else 0
  {
    var tok := tokens[r];
    assert Add(have, tok, needed).Keys == have.Keys + if tok in needed then {tok} else {};
  }

  lemma RemoveCounts<Token>(have: map<Token, nat>, tokens: seq<Token>, l: nat, r: nat, needed: set<Token>)
    requires l < r <= |tokens| && Counts(have, tokens, l, r, needed)
    ensures Counts(Remove(have, tokens[l], needed), tokens, l + 1, r, needed)
    ensures |Remove(have, tokens[l], needed).Keys| == |have.Keys| - if LastOne(have, tokens[l]) then 1 else 0
  {
    var lt := tokens[l];
    if LastOne(have, lt) {
      assert Remove(have, lt, needed).Keys == have.Keys - {lt};
    } else {
      assert Remove(have, lt, needed).Keys == have.Keys;
    }
    forall t | t in needed
      ensures Occurrences(tokens, l, r, t) == Occurrences(tokens, l + 1, r, t) + if tokens[l] == t then 1 else 0
    {
      OccurrencesFront(tokens, l, r, t);
    }
  }

  lemma FullCover<Token>(tokens: seq<Token>, needed: set<Token>)
    ensures Covers(tokens, 0, |tokens|, needed) <==> forall t :: t in needed ==> t in tokens
  {
    if Covers(tokens, 0, |tokens|, needed) {
      forall t | t in needed ensures t in tokens {
        var i :| 0 <= i < |tokens| && tokens[i] == t;
      }
    }
  }

  /** The state of the scan inside the inner loop, with the window `[l, r + 1)`. */
  ghost predicate Scanning<Token>(have: map<Token, nat>, missing: int, l: nat, best: Option<nat>,
                                  tokens: seq<Token>, r: nat, needed: set<Token>)
    requires r < |tokens|
  {
    && l <= r + 1 && Counts(have, tokens, l, r + 1, needed)
    && missing == |needed| - |have.Keys|
    && NoShorter(best, tokens, r, needed) && Attained(best, tokens, r + 1, needed)
    && (l > 0 ==> best.Some? && best.value <= r + 1 - (l - 1))
  }

  /** One turn of the inner loop: count the covering window, then drop its first token. */
  lemma ShrinkStep<Token>(have: map<Token, nat>, l: nat, best: Option<nat>,
                          tokens: seq<Token>, r: nat, needed: set<Token>)
    requires l <= r < |tokens| && Scanning(have, 0, l, best, tokens, r, needed)
    ensures Scanning(Remove(have, tokens[l], needed), if LastOne(have, tokens[l]) then 1 else 0, l + 1,
                     Better(best, r - l + 1), tokens, r, needed)
  {
    CoversIffNoneMissing(have, tokens, l, r + 1, needed);
    BetterKeeps(best, tokens, l, r, needed);
    RemoveCounts(have, tokens, l, r + 1, needed);
  }

  /** Once a term is missing, no window ending here has been overlooked. */
  lemma ShrunkEnough<Token>(have: map<Token, nat>, missing: int, l: nat, best: Option<nat>,
                            tokens: seq<Token>, r: nat, needed: set<Token>)
    requires r < |tokens| && needed != {} && Scanning(have, missing, l, best, tokens, r, needed)
    requires missing != 0 || l > r
    ensures missing > 0 && NoShorter(best, tokens, r + 1, needed)
  {
    CoversIffNoneMissing(have, tokens, l, r + 1, needed);
    ExtendNoShorter(best, tokens, l, r, needed);
  }

  /** The inner loop: drop tokens from the left while the window up to `right` still covers. */
  method ShrinkWindow<Token(==)>(tokens: seq<Token>, needed: set<Token>, right: nat,
                                 have0: map<Token, nat>, missing0: nat, left0: nat, best0: Option<nat>)
    returns (have: map<Token, nat>, missing: nat, left: nat, best: Option<nat>)
    requires needed != {} && right < |tokens|
    requires Scanning(have0, missing0, left0, best0, tokens, right, needed)
    ensures Scanning(have, missing, left, best, tokens, right, needed)
    ensures missing > 0 && NoShorter(best, tokens, right + 1, needed)
  {
    have, missing, left, best := have0, missing0, left0, best0;
    while missing == 0 && left <= right
      invariant Scanning(have, missing, left, best, tokens, right, needed)
      decreases right + 1 - left
    {
      ShrinkStep(have, left, best, tokens, right, needed);
      best := Better(best, right - left + 1);
      var lt := tokens[left];
      if LastOne(have, lt) {
        missing := missing + 1;
      }
      have := Remove(have, lt, needed);
      left := left + 1;
    }
    ShrunkEnough(have, missing, left, best, tokens, right, needed);
  }

  /** The two-pointer scan: exact over all windows, and empty-handed only if a term is missing. */
  method MinCoverSpan<Token(==)>(chunkTokens: seq<Token>, needed: set<Token>) returns (bestSpan: Option<nat>)
    requires needed != {}
    ensures IsBest(bestSpan, chunkTokens, needed)
    ensures bestSpan.None? <==> exists t :: t in needed && t !in chunkTokens
  {
    var have: map<Token, nat> := map[];
    var missing := |needed|;
    var left: nat := 0;
    bestSpan := None;
    for right := 0 to |chunkTokens|
      invariant left <= right && Counts(have, chunkTokens, left, right, needed)
      invariant missing == |needed| - |have.Keys| && missing > 0
      invariant NoShorter(bestSpan, chunkTokens, right, needed) && Attained(bestSpan, chunkTokens, right, needed)
      invariant left > 0 ==> bestSpan.Some? && bestSpan.value <= right - (left - 1)
    {
      var tok := chunkTokens[right];
      AddCounts(have, chunkTokens, left, right, needed);
      if tok in needed && tok !in have {
        missing := missing - 1;
      }
      have := Add(have, tok, needed);
      have, missing, left, bestSpan := ShrinkWindow(chunkTokens, needed, right, have, missing, left, bestSpan);
    }
    FullCover(chunkTokens, needed);
  }

  /** Score in [0, 1]: the number of query terms over the size of the shortest window with all of them. */
  method MinCoverSpanRatio<Token(==)>(chunkTokens: seq<Token>, queryTerms: seq<Token>) returns (ratio: real)
    ensures 0.0 <= ratio <= 1.0
    ensures ratio == 0.0 <==> queryTerms == [] || exists t :: t in queryTerms && t !in chunkTokens
    ensures ratio > 0.0 ==> exists best: nat ::
      IsBest(Some(best), chunkTokens, TermSet(queryTerms)) && ratio == SpanRatio(|queryTerms|, best)
      && (best >= |queryTerms| ==> ratio * best as real == |queryTerms| as real)
  {
    if |chunkTokens| == 0 || |queryTerms| == 0 {
      if |queryTerms| > 0 {
        assert queryTerms[0] in queryTerms && queryTerms[0] !in chunkTokens;
      }
      return 0.0;
    }
    var needed := TermSet(queryTerms);
    assert queryTerms[0] in needed;
    var bestSpan := MinCoverSpan(chunkTokens, needed);
    if bestSpan.None? {
      return 0.0;
    }
    SpanRatioRange(|queryTerms|, bestSpan.value);
    ratio := SpanRatio(|queryTerms|, bestSpan.value);
  }

  function TermSet<Token(==)>(terms: seq<Token>): set<Token> {
    set t | t in terms
  }

  function SpanRatio(terms: nat, best: nat): real
    requires terms > 0
  {
    terms as real / (if terms >= best then terms else best) as real
  }

  lemma SpanRatioRange(terms: nat, best: nat)
    requires terms > 0
    ensures 0.0 < SpanRatio(terms, best) <= 1.0
    ensures SpanRatio(terms, best) == 1.0 <==> best <= terms
    ensures best >= terms ==> SpanRatio(terms, best) * best as real == terms as real
  {
    Quotient(terms as real, if terms >= best then terms as real else best as real);
  }

  lemma Quotient(a: real, b: real)
    requires 0.0 < a <= b
    ensures 0.0 < a / b <= 1.0
    ensures a / b == 1.0 <==> a == b
    ensures (a / b) * b == a
  {
    assert (a / b) * b == a;
  }

  /** `terms` stand at `l` as one block, in some order and with nothing in between. */
  ghost predicate BlockAt<Token>(tokens: seq<Token>, l: nat, terms: seq<Token>) {
    l + |terms| <= |tokens| && multiset(tokens[l..l + |terms|]) == multiset(terms)
  }

  ghost predicate NoDuplicates<T>(s: seq<T>) {
    forall i, j :: 0 <= i < j < |s| ==> s[i] != s[j]
  }

  lemma {:induction false} SizeOfDistinct<T>(s: seq<T>)
    ensures |TermSet(s)| <= |s|
    ensures |TermSet(s)| == |s| <==> NoDuplicates(s)
  {
    if s != [] {
      var rest := s[1..];
      SizeOfDistinct(rest);
      assert s == [s[0]] + rest;
      assert TermSet(s) == {s[0]} + TermSet(rest);
      if s[0] in rest {
        assert TermSet(s) == TermSet(rest);
        var j :| 0 <= j < |rest| && rest[j] == s[0];
        assert s[0] == s[j + 1];
      } else {
        assert |TermSet(s)| == 1 + |TermSet(rest)|;
        assert NoDuplicates(rest) ==> NoDuplicates(s);
        assert NoDuplicates(s) ==> NoDuplicates(rest) by {
          assert forall i :: 0 <= i < |rest| ==> rest[i] == s[i + 1];
        }
      }
    }
  }

  lemma {:induction false} DistinctMultiset<T>(s: seq<T>, x: T)
    requires NoDuplicates(s)
    ensures multiset(s)[x] == if x in s then 1 else 0
  {
    if s != [] {
      assert s == [s[0]] + s[1..];
      assert forall i :: 0 <= i < |s[1..]| ==> s[1..][i] == s[i + 1];
      DistinctMultiset(s[1..], x);
    }
  }

  /** A window no longer than the duplicate-free terms that covers them all is a block of them. */
  lemma TightWindowIsBlock<Token>(tokens: seq<Token>, l: nat, e: nat, terms: seq<Token>)
    requires l <= e <= |tokens| && NoDuplicates(terms) && e - l <= |terms|
    requires Covers(tokens, l, e, TermSet(terms))
    ensures BlockAt(tokens, l, terms)
  {
    var w := tokens[l..e];
    assert TermSet(terms) <= TermSet(w) by {
      forall t | t in TermSet(terms) ensures t in w {
        var i :| l <= i < e && tokens[i] == t;
        assert w[i - l] == t;
      }
    }
    SizeOfDistinct(terms);
    SizeOfDistinct(w);
    SubsetSize(TermSet(terms), TermSet(w));
    assert |w| == |terms| && NoDuplicates(w);
    forall x ensures multiset(w)[x] == multiset(terms)[x] {
      DistinctMultiset(w, x);
      DistinctMultiset(terms, x);
      assert x in TermSet(terms) <==> x in TermSet(w);
    }
  }

  /** For duplicate-free terms the score is 1 exactly when they stand as one contiguous block. */
  lemma FullScoreIffBlock<Token>(tokens: seq<Token>, terms: seq<Token>, best: nat)
    requires terms != [] && NoDuplicates(terms) && IsBest(Some(best), tokens, TermSet(terms))
    ensures SpanRatio(|terms|, best) == 1.0 <==> exists l: nat :: BlockAt(tokens, l, terms)
  {
    SpanRatioRange(|terms|, best);
    if best <= |terms| {
      var l: nat, e: nat :| l <= e <= |tokens| && Covers(tokens, l, e, TermSet(terms)) && best == e - l;
      TightWindowIsBlock(tokens, l, e, terms);
    }
    if l: nat :| BlockAt(tokens, l, terms) {
      forall t | t in TermSet(terms) ensures exists i :: l <= i < l + |terms| && tokens[i] == t {
        assert t in multiset(tokens[l..l + |terms|]);
        var k :| 0 <= k < |terms| && tokens[l..l + |terms|][k] == t;
        assert tokens[l + k] == t;
      }
      assert Covers(tokens, l, l + |terms|, TermSet(terms));
    }
  }
}
