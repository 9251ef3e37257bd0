/**
  Scores of a chunk against a query: cosine of two dense vectors, greedy ordered match of
  the query terms, and the reranker that reorders the head of a ranked list.
 */
module Scoring {
  import opened Sorting

  // ----- cosine

  function Times(u: real, v: real): real {
    u * v
  }

  /** Sum of products of the first `n` coordinates. */
  ghost function Dot(a: seq<real>, b: seq<real>, n: nat): real
    requires n <= |a| && n <= |b|
  {
    if n == 0 then 0.0 else Dot(a, b, n - 1) + Times(a[n - 1], b[n - 1])
  }

  lemma StrictSquare(u: real, v: real)
    requires 0.0 <= u < v
    ensures u * u < v * v
  {
    assert (v - u) * v > 0.0;
    assert u * (v - u) >= 0.0;
    assert v * v - u * u == (v - u) * v + u * (v - u);
  }

  lemma SquareOrder(d: real, r: real)
    requires r >= 0.0 && d * d <= r * r
    ensures -r <= d <= r
  {
    if d > r {
      StrictSquare(r, d);
    } else if -d > r {
      StrictSquare(r, -d);
    }
  }

  /** 2uv <= u² + v², in the form p² <= xy gives 2p <= x + y for non-negative x and y. */
  lemma MeanBound(p: real, x: real, y: real)
    requires x >= 0.0 && y >= 0.0 && p * p <= x * y
    ensures 2.0 * p <= x + y
  {
    assert (x + y) * (x + y) == 4.0 * (x * y) + (x - y) * (x - y);
    assert (x - y) * (x - y) >= 0.0;
    assert (2.0 * p) * (2.0 * p) == 4.0 * (p * p);
    SquareOrder(2.0 * p, x + y);
  }

  /** The inequality for one triple of sums. */
  ghost predicate Bounded(d: real, x: real, y: real) {
    x >= 0.0 && y >= 0.0 && d * d <= x * y
  }

  lemma CauchyStep(d: real, x: real, y: real, u: real, v: real)
    requires Bounded(d, x, y)
    ensures Bounded(d + u * v, x + u * u, y + v * v)
  {
    var p, s, t := d * (u * v), x * (v * v), y * (u * u);
    assert v * v >= 0.0 && u * u >= 0.0;
    assert s >= 0.0 && t >= 0.0;
    var w := (u * v) * (u * v);
    assert w >= 0.0;
    assert p * p == (d * d) * w;
    assert (d * d) * w <= (x * y) * w;
    assert s * t == (x * y) * w;
    MeanBound(p, s, t);
    assert (d + u * v) * (d + u * v) == d * d + 2.0 * p + w;
    assert (x + u * u) * (y + v * v) == x * y + s + t + w;
  }

  /** The Cauchy-Schwarz inequality for the program's three accumulators. */
  lemma DotSquared(a: seq<real>, b: seq<real>, n: nat) returns (d: real, x: real, y: real)
    requires n <= |a| && n <= |b|
    ensures d == Dot(a, b, n) && x == Dot(a, a, n) && y == Dot(b, b, n)
    ensures Bounded(d, x, y)
  {
    d, x, y := 0.0, 0.0, 0.0;
    for i := 0 to n
      invariant d == Dot(a, b, i) && x == Dot(a, a, i) && y == Dot(b, b, i)
      invariant Bounded(d, x, y)
    {
      var d', x', y' := Dot(a, b, i + 1), Dot(a, a, i + 1), Dot(b, b, i + 1);
      BoundedNext(d, x, y, a[i], b[i], d', x', y');
      d, x, y := d', x', y';
    }
  }

  lemma BoundedNext(d: real, x: real, y: real, u: real, v: real, d': real, x': real, y': real)
    requires Bounded(d, x, y) && d' == d + Times(u, v) && x' == x + Times(u, u) && y' == y + Times(v, v)
    ensures Bounded(d', x', y')
  {
    CauchyStep(d, x, y, u, v);
  }

  /** The sum is additive in its first list; `DotOfSingle` and this one leave no other function. */
  lemma {:induction false} DotAdds(a: seq<real>, a': seq<real>, sum: seq<real>, b: seq<real>, n: nat)
    requires n <= |b| && |a| == |a'| == |sum| && n <= |a|
    requires forall i :: 0 <= i < n ==> sum[i] == a[i] + a'[i]
    ensures Dot(sum, b, n) == Dot(a, b, n) + Dot(a', b, n)
  {
    if n > 0 {
      DotAdds(a, a', sum, b, n - 1);
      TimesAdds(a[n - 1], a'[n - 1], b[n - 1]);
      hide Times;
      assert sum[n - 1] == a[n - 1] + a'[n - 1];
    }
  }

  lemma TimesAdds(u: real, v: real, w: real)
    ensures Times(u + v, w) == Times(u, w) + Times(v, w)
  {
  }

  /** Of a list that is zero but at `i` the sum is one product. */
  lemma {:induction false} DotOfSingle(a: seq<real>, b: seq<real>, n: nat, i: nat)
    requires i < n <= |a| && n <= |b| && forall j :: 0 <= j < n && j != i ==> a[j] == 0.0
    ensures Dot(a, b, n) == a[i] * b[i]
  {
    if i == n - 1 {
      DotOfZeros(a, b, n - 1);
    } else {
      DotOfSingle(a, b, n - 1, i);
      TimesZero(a[n - 1], b[n - 1]);
    }
  }

  lemma {:induction false} DotOfZeros(a: seq<real>, b: seq<real>, n: nat)
    requires n <= |a| && n <= |b| && forall j :: 0 <= j < n ==> a[j] == 0.0
    ensures Dot(a, b, n) == 0.0
  {
    if n > 0 {
      DotOfZeros(a, b, n - 1);
      TimesZero(a[n - 1], b[n - 1]);
    }
  }

  lemma TimesZero(u: real, v: real)
    requires u == 0.0
    ensures Times(u, v) == 0.0
  {
  }

  const TINY: real := 0.000000000001

  /** The loop over the shorter length; `tooShort` is the case in which the program answers 0. */
  method Accumulate(a: seq<real>, b: seq<real>) returns (dot: real, na: real, nb: real, tooShort: bool)
    ensures var n := if |a| <= |b| then |a| else |b|;
      && dot == Dot(a, b, n) && na == Dot(a, a, n) && nb == Dot(b, b, n)
      && (tooShort <==> na <= TINY || nb <= TINY)
  {
    var n := if |a| <= |b| then |a| else |b|;
    dot, na, nb := 0.0, 0.0, 0.0;
    for i := 0 to n
      invariant dot == Dot(a, b, i) && na == Dot(a, a, i) && nb == Dot(b, b, i)
    {
      dot := dot + Times(a[i], b[i]);
      na := na + Times(a[i], a[i]);
      nb := nb + Times(b[i], b[i]);
    }
    tooShort := na <= TINY || nb <= TINY;
  }

  /** Whatever the root of na * nb is, the quotient the program returns lies in [-1, 1]. */
  lemma CosineInRange(a: seq<real>, b: seq<real>, n: nat, root: real)
    requires n <= |a| && n <= |b| && Dot(a, a, n) > TINY && Dot(b, b, n) > TINY
    requires root >= 0.0 && root * root == Dot(a, a, n) * Dot(b, b, n)
    ensures root > 0.0 && -1.0 <= Dot(a, b, n) / root <= 1.0
  {
    var d, x, y := DotSquared(a, b, n);
    RootBound(d, root, x * y);
  }

  lemma RootBound(d: real, root: real, product: real)
    requires root >= 0.0 && root * root == product && d * d <= product && product > 0.0
    ensures root > 0.0 && -1.0 <= d / root <= 1.0
  {
    SquareOrder(d, root);
    var q := d / root;
    assert q * root == d;
    UnitQuotient(q, root);
  }

  lemma UnitQuotient(q: real, root: real)
    requires root > 0.0 && -root <= q * root <= root
    ensures -1.0 <= q <= 1.0
  {
    assert (1.0 - q) * root >= 0.0 && (1.0 + q) * root >= 0.0;
  }

  // ----- ordered match

  /** `at` shows where the elements of `s` stand in `t`, from left to right. */
  ghost predicate Embeds<Token>(at: seq<nat>, s: seq<Token>, t: seq<Token>) {
    && |at| == |s|
    && (forall k :: 0 <= k < |s| ==> at[k] < |t| && t[at[k]] == s[k])
    && (forall k, l :: 0 <= k < l < |s| ==> at[k] < at[l])
  }

  ghost predicate IsSubsequence<Token>(s: seq<Token>, t: seq<Token>) {
    exists at :: Embeds(at, s, t)
  }

  /** A list ending in `x` fits into one ending in `x` iff the lists before fit. */
  lemma SubsequenceSame<Token>(s: seq<Token>, t: seq<Token>, x: Token)
    ensures IsSubsequence(s + [x], t + [x]) <==> IsSubsequence(s, t)
  {
    if at: seq<nat> :| Embeds(at, s, t) {
      assert Embeds(at + [|t|], s + [x], t + [x]);
    }
    if at :| Embeds(at, s + [x], t + [x]) {
      var n := |s|;
      assert forall k :: 0 <= k < n ==> at[k] < at[n] && (s + [x])[k] == s[k];
      assert Embeds(at[..n], s, t);
    }
  }

  /** A further element that differs from the last one of `s` does not help. */
  lemma SubsequenceOther<Token>(s: seq<Token>, t: seq<Token>, x: Token, y: Token)
    requires x != y
    ensures IsSubsequence(s + [x], t + [y]) <==> IsSubsequence(s + [x], t)
  {
    if at :| Embeds(at, s + [x], t) {
      assert Embeds(at, s + [x], t + [y]);
    }
    if at :| Embeds(at, s + [x], t + [y]) {
      var n := |s|;
      assert (s + [x])[n] == x;
      assert at[n] < |t|;
      assert forall k :: 0 <= k < n ==> at[k] < at[n];
      assert Embeds(at, s + [x], t);
    }
  }

  lemma SubsequenceLonger<Token>(s: seq<Token>, t: seq<Token>, y: Token)
    requires IsSubsequence(s, t)
    ensures IsSubsequence(s, t + [y])
  {
    var at :| Embeds(at, s, t);
    assert Embeds(at, s, t + [y]);
  }

  lemma SubsequencePrefix<Token>(s: seq<Token>, n: nat, t: seq<Token>)
    requires n <= |s| && IsSubsequence(s, t)
    ensures IsSubsequence(s[..n], t)
  {
    var at :| Embeds(at, s, t);
    assert Embeds(at[..n], s[..n], t);
  }

  /** The first `m` terms fit into `tokens` in order, and one more would not. */
  ghost predicate LongestPrefix<Token>(m: nat, terms: seq<Token>, tokens: seq<Token>) {
    && m <= |terms| && IsSubsequence(terms[..m], tokens)
    && (m < |terms| ==> !IsSubsequence(terms[..m + 1], tokens))
  }

  /** Consuming one more token keeps the greedy count right. */
  lemma GreedyStep<Token>(m: nat, terms: seq<Token>, tokens: seq<Token>, tok: Token)
    requires LongestPrefix(m, terms, tokens)
    ensures LongestPrefix(if m < |terms| && terms[m] == tok then m + 1 else m, terms, tokens + [tok])
  {
    if m == |terms| {
      SubsequenceLonger(terms[..m], tokens, tok);
    } else {
      assert terms[..m + 1] == terms[..m] + [terms[m]];
      if terms[m] == tok {
        SubsequenceSame(terms[..m], tokens, tok);
        if m + 1 < |terms| {
          OneMoreTooMany(m, terms, tokens, tok);
        }
      } else {
        SubsequenceLonger(terms[..m], tokens, tok);
        SubsequenceOther(terms[..m], tokens, terms[m], tok);
      }
    }
  }

  lemma OneMoreTooMany<Token>(m: nat, terms: seq<Token>, tokens: seq<Token>, tok: Token)
    requires m + 1 < |terms| && !IsSubsequence(terms[..m + 1], tokens)
    ensures !IsSubsequence(terms[..m + 2], tokens + [tok])
  {
    var s, x := terms[..m + 1], terms[m + 1];
    assert terms[..m + 2] == s + [x];
    if x == tok {
      SubsequenceSame(s, tokens, tok);
    } else {
      SubsequenceOther(s, tokens, x, tok);
      assert (s + [x])[..m + 1] == s;
      if IsSubsequence(s + [x], tokens) {
        SubsequencePrefix(s + [x], m + 1, tokens);
      }
    }
  }

  /** The greedy pass counts exactly the longest prefix of the query that occurs in order. */
  method OrderedMatch<Token(==)>(chunkTokens: seq<Token>, queryTerms: seq<Token>) returns (matched: nat)
    ensures LongestPrefix(matched, queryTerms, chunkTokens)
  {
    matched := 0;
    var i := 0;
    assert Embeds([], queryTerms[..0], chunkTokens[..0]);
    NothingInEmpty(queryTerms);
    while i < |chunkTokens| && matched < |queryTerms|
      invariant 0 <= i <= |chunkTokens| && LongestPrefix(matched, queryTerms, chunkTokens[..i])
    {
      var tok := chunkTokens[i];
      GreedyStep(matched, queryTerms, chunkTokens[..i], tok);
      assert chunkTokens[..i + 1] == chunkTokens[..i] + [tok];
      if tok == queryTerms[matched] {
        matched := matched + 1;
      }
      i := i + 1;
    }
    if i < |chunkTokens| {
      RestIsFree(queryTerms, chunkTokens, i);
    } else {
      assert chunkTokens[..i] == chunkTokens;
    }
  }

  lemma NothingInEmpty<Token>(terms: seq<Token>)
    ensures LongestPrefix(0, terms, [])
  {
    assert Embeds([], terms[..0], []);
    if terms != [] {
      var first := terms[..1];
      assert |first| == 1;
      forall at: seq<nat> ensures !Embeds(at, first, []) {
        if |at| == 1 { assert at[0] >= 0; }
      }
    }
  }

  lemma RestIsFree<Token>(s: seq<Token>, t: seq<Token>, i: nat)
    requires i <= |t| && IsSubsequence(s[..|s|], t[..i])
    ensures LongestPrefix(|s|, s, t)
  {
    var at :| Embeds(at, s[..|s|], t[..i]);
    assert Embeds(at, s[..|s|], t);
  }

  /** No longer prefix fits either, so the count is the maximum. */
  lemma LongestPrefixIsMaximum<Token>(m: nat, p: nat, terms: seq<Token>, tokens: seq<Token>)
    requires LongestPrefix(m, terms, tokens) && p <= |terms| && IsSubsequence(terms[..p], tokens)
    ensures p <= m
  {
    if p > m {
      var q := terms[..p];
      assert q[..m + 1] == terms[..m + 1];
      SubsequencePrefix(q, m + 1, tokens);
    }
  }

  // ----- reranker

  /** A ranked row: its score, its keyword and semantic scores, and the chunk it ranks. */
  datatype Row<Chunk> = Row(score: real, keyword: real, semantic: real, chunk: Chunk)

  function ScoreOf<Chunk>(row: Row<Chunk>): real {
    row.score
  }

  /** What the query says about a chunk: share of its terms present, and whether the phrase occurs. */
  datatype Signals<!Chunk> = Signals(coverage: Chunk -> real, phrase: Chunk -> bool, maxSemantic: real)

  function Blend<Chunk>(row: Row<Chunk>, alpha: real, q: Signals<Chunk>): Row<Chunk> {
    var semanticNorm := if q.maxSemantic > 0.0 then row.semantic / q.maxSemantic else 0.0;
    var signal := q.coverage(row.chunk) * 0.65 + (if q.phrase(row.chunk) then 0.25 else 0.0) + semanticNorm * 0.10;
    row.(score := (1.0 - alpha) * row.score + alpha * signal)
  }

  /** What a chunk earns from the query: its coverage, the phrase and its share of the best semantic score. */
  ghost function Earned<Chunk>(row: Row<Chunk>, q: Signals<Chunk>): real {
    Blend(row, 1.0, q).score
  }

  /** The blend moves the score of a row towards what it earns, by the given share, and touches nothing else. */
  lemma BlendMovesTowards<Chunk>(row: Row<Chunk>, alpha: real, q: Signals<Chunk>)
    ensures Blend(row, alpha, q) == row.(score := Blend(row, alpha, q).score)
    ensures Blend(row, alpha, q).score - row.score == alpha * (Earned(row, q) - row.score)
  {
  }

  /**
    What a row earns counts 0.65 for full coverage, 0.25 for the phrase and 0.10 for the best semantic score, in
    proportion; so it lies in [0, 1] and is 1 exactly for all of them.
   */
  lemma EarnedInRange<Chunk>(row: Row<Chunk>, q: Signals<Chunk>)
    requires 0.0 <= q.coverage(row.chunk) <= 1.0 && 0.0 <= row.semantic <= q.maxSemantic && q.maxSemantic > 0.0
    ensures 0.0 <= Earned(row, q) <= 1.0
    ensures Earned(row, q) == 1.0 <==> q.coverage(row.chunk) == 1.0 && q.phrase(row.chunk) && row.semantic == q.maxSemantic
    ensures Earned(row, q) == 0.0 <==> q.coverage(row.chunk) == 0.0 && !q.phrase(row.chunk) && row.semantic == 0.0
    ensures q.coverage(row.chunk) == 1.0 && !q.phrase(row.chunk) && row.semantic == 0.0 ==> Earned(row, q) == 0.65
    ensures q.coverage(row.chunk) == 0.0 && q.phrase(row.chunk) && row.semantic == 0.0 ==> Earned(row, q) == 0.25
  {
    ShareInRange(row.semantic, q.maxSemantic);
  }

  lemma ShareInRange(part: real, most: real)
    requires 0.0 <= part <= most && most > 0.0
    ensures 0.0 <= part / most <= 1.0 && (part / most == 1.0 <==> part == most) && (part / most == 0.0 <==> part == 0.0)
  {
    assert (part / most) * most == part;
  }

  function BlendAll<Chunk>(rows: seq<Row<Chunk>>, alpha: real, q: Signals<Chunk>): (r: seq<Row<Chunk>>)
    ensures |r| == |rows| && forall i :: 0 <= i < |rows| ==> r[i] == Blend(rows[i], alpha, q)
  {
    seq(|rows|, i requires 0 <= i < |rows| => Blend(rows[i], alpha, q))
  }

  function Chunks<Chunk>(rows: seq<Row<Chunk>>): seq<Chunk> {
    seq(|rows|, i requires 0 <= i < |rows| => rows[i].chunk)
  }

  function ClampTopN(n: int): nat {
    var raw := if n == 0 then 20 else n;
    if raw < 2 then 2 else if raw > 100 then 100 else raw
  }

  function ClampAlpha(a: real): real {
    var raw := if a == 0.0 then 0.35 else a;
    if raw < 0.0 then 0.0 else if raw > 1.0 then 1.0 else raw
  }

  /** The rows the reranker may move: none when it is off or has nothing to do. */
  function HeadSize(rows: nat, enabled: bool, topN: int, alpha: real): (n: nat)
    ensures n <= rows
  {
    var n := if rows < ClampTopN(topN) then rows else ClampTopN(topN);
    if !enabled || n <= 1 || ClampAlpha(alpha) <= 0.0 then 0 else n
  }

  /**
    The head is empty exactly when the reranker is off, has fewer than two rows or is given a negative share;
    otherwise it is all rows, or the number asked for, which is 20 when none is given and never above 100 or below 2.
   */
  lemma HeadIsAsked(rows: nat, enabled: bool, topN: int, alpha: real)
    ensures var n := HeadSize(rows, enabled, topN, alpha);
      && (n == 0 <==> !enabled || rows < 2 || alpha < 0.0)
      && (n > 0 && n < rows ==> 2 <= n <= 100)
      && (n > 0 && n < rows && 2 <= topN <= 100 ==> n == topN)
      && (n > 0 && n < rows && topN == 0 ==> n == 20)
      && (n > 0 && n < rows && topN > 100 ==> n == 100)
      && (n > 0 && (topN > rows || topN >= 100 >= rows) ==> n == rows || n == 100)
  {
  }

  /**
    Below the head nothing moves. The head holds the same rows with blended scores, in
    descending order of the blend, rows with equal blends in their previous order.
   */
  method ApplyReranker<Chunk>(rows: seq<Row<Chunk>>, enabled: bool, topN: int, alpha: real, q: Signals<Chunk>)
    returns (ranked: seq<Row<Chunk>>)
    ensures var n := HeadSize(|rows|, enabled, topN, alpha);
      && |ranked| == |rows|
      && ranked[n..] == rows[n..]
      && Descending(ranked[..n], ScoreOf)
      && StableArrangement(BlendAll(rows[..n], ClampAlpha(alpha), q), ranked[..n], ScoreOf)
  {
    var n := if |rows| < ClampTopN(topN) then |rows| else ClampTopN(topN);
    if |rows| == 0 || !enabled || n <= 1 || ClampAlpha(alpha) <= 0.0 {
      assert BlendAll(rows[..0], ClampAlpha(alpha), q) == rows[..0];
      return rows;
    }
    var head, tail := rows[..n], rows[n..];
    var reranked: seq<Row<Chunk>> := [];
    for i := 0 to n
      invariant reranked == BlendAll(head, ClampAlpha(alpha), q)[..i]
    {
      reranked := reranked + [Blend(head[i], ClampAlpha(alpha), q)];
    }
    assert reranked == BlendAll(rows[..n], ClampAlpha(alpha), q);
    SortDescArranges(reranked, ScoreOf);
    ranked := SortDesc(reranked, ScoreOf) + tail;
    assert ranked[..n] == SortDesc(reranked, ScoreOf);
  }

  lemma TakeOut<T>(s: seq<T>, j: nat)
    requires j < |s|
    ensures multiset(s) == multiset(s[..j] + s[j + 1..]) + multiset{s[j]}
    ensures multiset(s[..j] + s[j + 1..]) == multiset(s) - multiset{s[j]}
  {
    assert s == s[..j] + [s[j]] + s[j + 1..];
  }

  lemma {:induction false} SameRowsSameChunks<Chunk>(xs: seq<Row<Chunk>>, ys: seq<Row<Chunk>>)
    requires multiset(xs) == multiset(ys)
    ensures multiset(Chunks(xs)) == multiset(Chunks(ys))
  {
    if xs == [] {
      assert |multiset(ys)| == 0;
    } else {
      assert xs[0] in multiset(ys);
      var j :| 0 <= j < |ys| && ys[j] == xs[0];
      SameWithout(xs, ys, 0, j);
      SameRowsSameChunks(xs[..0] + xs[0 + 1..], ys[..j] + ys[j + 1..]);
      ChunksWithout(xs, 0);
      ChunksWithout(ys, j);
    }
  }

  lemma SameWithout<T>(xs: seq<T>, ys: seq<T>, i: nat, j: nat)
    requires multiset(xs) == multiset(ys) && i < |xs| && j < |ys| && xs[i] == ys[j]
    ensures multiset(xs[..i] + xs[i + 1..]) == multiset(ys[..j] + ys[j + 1..])
  {
    TakeOut(xs, i);
    TakeOut(ys, j);
  }

  lemma ChunksWithout<Chunk>(xs: seq<Row<Chunk>>, j: nat)
    requires j < |xs|
    ensures multiset(Chunks(xs)) == multiset(Chunks(xs[..j] + xs[j + 1..])) + multiset{xs[j].chunk}
  {
    TakeOut(Chunks(xs), j);
    assert Chunks(xs[..j] + xs[j + 1..]) == Chunks(xs)[..j] + Chunks(xs)[j + 1..];
  }

  /** No chunk is lost, invented or duplicated by the reranker. */
  lemma RerankerPermutes<Chunk>(rows: seq<Row<Chunk>>, n: nat, alpha: real, q: Signals<Chunk>, ranked: seq<Row<Chunk>>)
    requires n <= |rows| == |ranked| && ranked[n..] == rows[n..]
    requires StableArrangement(BlendAll(rows[..n], alpha, q), ranked[..n], ScoreOf)
    ensures multiset(Chunks(ranked)) == multiset(Chunks(rows))
  {
    var head := BlendAll(rows[..n], alpha, q);
    ArrangementIsPermutation(head, ranked[..n], ScoreOf);
    SameRowsSameChunks(head, ranked[..n]);
    assert Chunks(head) == Chunks(rows[..n]);
    assert Chunks(rows) == Chunks(rows[..n]) + Chunks(rows[n..]);
    assert Chunks(ranked) == Chunks(ranked[..n]) + Chunks(ranked[n..]);
  }
}
