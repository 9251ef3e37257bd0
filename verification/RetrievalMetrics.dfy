/**
  Retrieval quality figures of a ranked result list: recall@k, MRR and nDCG@k.
  The logarithmic discount is any positive, non-increasing function of the rank.
 */
module RetrievalMetrics {
  import opened Sorting

  type Discount = nat -> real

  ghost predicate IsDiscount(d: Discount) {
    forall i: nat, j: nat :: i <= j ==> d(i) >= d(j) > 0.0
  }

  /** A logarithm falls strictly: no two ranks count the same. */
  ghost predicate IsStrict(d: Discount) {
    forall i: nat, j: nat :: i < j ==> d(i) > d(j)
  }

  function Pow2(g: nat): (r: nat)
    ensures r >= 1
  {
    if g == 0 then 1 else 2 * Pow2(g - 1)
  }

  function Gain(g: nat): real {
    (Pow2(g) - 1) as real
  }

  /** Each grade gains one more than twice the grade below; grade 0 gains nothing. */
  lemma GainOfNext(g: nat)
    ensures Gain(0) == 0.0 && Gain(g + 1) == 2.0 * Gain(g) + 1.0
  {
    assert Pow2(0) == 1 && Pow2(g + 1) == 2 * Pow2(g);
  }

  function GradeKey(g: nat): real {
    g as real
  }

  /** Grades in descending order: the ideal ranking. */
  function Ideal(grades: seq<nat>): seq<nat> {
    SortDesc(grades, GradeKey)
  }

  /** Discounted gain of the first `k` grades, the first of them standing at rank `off`. */
  function Dcg(grades: seq<nat>, k: nat, off: nat, d: Discount): real {
    if grades == [] || k == 0 then 0.0
    else Gain(grades[0]) * d(off) + Dcg(grades[1..], k - 1, off + 1, d)
  }

  function Relevant(grades: seq<nat>): (n: nat)
    ensures n <= |grades|
  {
    if grades == [] then 0 else (if grades[0] > 0 then 1 else 0) + Relevant(grades[1..])
  }

  lemma {:induction false} GainMonotone(a: nat, b: nat)
    requires a <= b
    ensures 0.0 <= Gain(a) <= Gain(b)
    ensures a >= 1 ==> Gain(a) >= 1.0
    decreases b
  {
    if a < b {
      GainMonotone(a, b - 1);
    }
    if a >= 1 {
      assert Pow2(a) == 2 * Pow2(a - 1);
    }
  }

  lemma ProductNotNegative(x: real, y: real)
    requires x >= 0.0 && y >= 0.0
    ensures x * y >= 0.0
  {
  }

  lemma ProductOfDifferences(x: real, y: real, p: real, q: real)
    ensures (y - x) * (p - q) == y * p - y * q - x * p + x * q
  {
  }

  lemma SwapUp(x: real, y: real, p: real, q: real)
    requires x <= y && p >= q
    ensures x * p + y * q <= y * p + x * q
  {
    ProductNotNegative(y - x, p - q);
    ProductOfDifferences(x, y, p, q);
  }

  lemma DcgCons(x: nat, xs: seq<nat>, k: nat, off: nat, d: Discount)
    ensures Dcg([x] + xs, k, off, d) ==
            if k == 0 then 0.0 else Gain(x) * d(off) + Dcg(xs, k - 1, off + 1, d)
  {
    assert ([x] + xs)[1..] == xs;
  }

  /** What a grade at a rank gains. */
  function GainAt(g: nat, rank: nat, d: Discount): real {
    Gain(g) * d(rank)
  }

  /**
    One other grade at rank `i` changes the discounted gain by the difference of what the two gain there, and below
    the cut by nothing. With the next lemma this leaves no other function.
   */
  lemma {:induction false} DcgOfOtherGrade(grades: seq<nat>, i: nat, g: nat, k: nat, off: nat, d: Discount)
    requires i < |grades|
    ensures Dcg(grades[i := g], k, off, d) - Dcg(grades, k, off, d) ==
            if i < k then GainAt(g, off + i, d) - GainAt(grades[i], off + i, d) else 0.0
  {
    hide Gain, GainAt, Dcg;
    if k == 0 {
      NothingAboveCut(grades, off, d);
      NothingAboveCut(grades[i := g], off, d);
    } else {
      var x, rest := grades[0], grades[1..];
      assert grades == [x] + rest;
      DcgFirst(x, rest, k, off, d);
      if i == 0 {
        assert grades[0 := g] == [g] + rest;
        DcgFirst(g, rest, k, off, d);
      } else {
        var rest' := rest[i - 1 := g];
        assert grades[i := g] == [x] + rest';
        DcgOfOtherGrade(rest, i - 1, g, k - 1, off + 1, d);
        DcgFirst(x, rest', k, off, d);
        assert off + 1 + (i - 1) == off + i;
      }
    }
  }

  lemma NothingAboveCut(grades: seq<nat>, off: nat, d: Discount)
    ensures Dcg(grades, 0, off, d) == 0.0
  {
  }

  lemma DcgFirst(x: nat, rest: seq<nat>, k: nat, off: nat, d: Discount)
    requires k > 0
    ensures Dcg([x] + rest, k, off, d) == GainAt(x, off, d) + Dcg(rest, k - 1, off + 1, d)
  {
    hide Dcg, Gain;
    DcgCons(x, rest, k, off, d);
  }

  lemma {:induction false} DcgOfNothing(grades: seq<nat>, k: nat, off: nat, d: Discount)
    requires forall i :: 0 <= i < |grades| ==> grades[i] == 0
    ensures Dcg(grades, k, off, d) == 0.0
  {
    if grades != [] && k > 0 {
      DcgOfNothing(grades[1..], k - 1, off + 1, d);
    }
  }

  ghost function RelevantAt(grades: seq<nat>): set<int> {
    set i | 0 <= i < |grades| && grades[i] > 0
  }

  lemma {:induction false} RelevantCounts(grades: seq<nat>)
    ensures Relevant(grades) == |RelevantAt(grades)|
  {
    if grades != [] {
      var n := |grades| - 1;
      RelevantCounts(grades[..n]);
      RelevantSnoc(grades[..n], grades[n]);
      assert grades == grades[..n] + [grades[n]];
      assert RelevantAt(grades) == RelevantAt(grades[..n]) + if grades[n] > 0 then {n} else {};
    }
  }

  lemma {:induction false} RelevantSnoc(init: seq<nat>, last: nat)
    ensures Relevant(init + [last]) == Relevant(init) + if last > 0 then 1 else 0
  {
    if init == [] {
      assert init + [last] == [last];
    } else {
      assert (init + [last])[1..] == init[1..] + [last];
      RelevantSnoc(init[1..], last);
    }
  }

  /** Two neighbours in the wrong order: exchanging them loses no gain. */
  lemma SwapGains(x: nat, y: nat, xs: seq<nat>, k: nat, off: nat, d: Discount)
    requires IsDiscount(d) && x <= y && k >= 1
    ensures Dcg([x] + ([y] + xs), k, off, d) <= Dcg([y] + ([x] + xs), k, off, d)
  {
    GainMonotone(x, y);
    var k1, off1 := k - 1, off + 1;
    var low, high := [y] + xs, [x] + xs;
    assert d(off) >= d(off1) > 0.0;
    hide Dcg, Gain, IsDiscount;
    DcgCons(x, low, k, off, d);
    DcgCons(y, high, k, off, d);
    DcgCons(y, xs, k1, off1, d);
    DcgCons(x, xs, k1, off1, d);
    if k1 == 0 {
      SwapSum(Gain(x), Gain(y), d(off), 0.0, 0.0);
    } else {
      SwapSum(Gain(x), Gain(y), d(off), d(off1), Dcg(xs, k1 - 1, off1 + 1, d));
    }
  }

  lemma SwapSum(x: real, y: real, p: real, q: real, rest: real)
    requires x <= y && p >= q
    ensures x * p + (y * q + rest) <= y * p + (x * q + rest)
    ensures q == 0.0 ==> x * q == 0.0 && y * q == 0.0
  {
    SwapUp(x, y, p, q);
  }

  /** Moving a grade from the front to its place in the ideal order loses no gain. */
  lemma {:induction false} InsertGains(x: nat, xs: seq<nat>, k: nat, off: nat, d: Discount)
    requires IsDiscount(d)
    ensures Dcg([x] + xs, k, off, d) <= Dcg(Insert(x, xs, GradeKey), k, off, d)
    decreases |xs|
  {
    if xs != [] && x < xs[0] && k > 0 {
      var y, rest := xs[0], xs[1..];
      assert xs == [y] + rest;
      SwapGains(x, y, rest, k, off, d);
      InsertGains(x, rest, k - 1, off + 1, d);
      DcgCons(y, [x] + rest, k, off, d);
      DcgCons(y, Insert(x, rest, GradeKey), k, off, d);
    }
  }

  /** Rearrangement: no ranking has more discounted gain at any cut than the ideal one. */
  lemma {:induction false} DcgAtMostIdeal(grades: seq<nat>, k: nat, off: nat, d: Discount)
    requires IsDiscount(d)
    ensures 0.0 <= Dcg(grades, k, off, d) <= Dcg(Ideal(grades), k, off, d)
    decreases |grades|
  {
    if grades == [] || k == 0 {
      NoGain(grades, k, off, d);
    } else {
      var x, xs := grades[0], grades[1..];
      var rest := Ideal(xs);
      assert grades == [x] + xs && Ideal(grades) == Insert(x, rest, GradeKey);
      GainMonotone(0, x);
      assert Gain(x) >= 0.0 && d(off) > 0.0;
      hide Dcg, Gain, Ideal, Insert;
      DcgAtMostIdeal(xs, k - 1, off + 1, d);
      InsertGains(x, rest, k, off, d);
      DcgCons(x, xs, k, off, d);
      DcgCons(x, rest, k, off, d);
      ProductNotNegative(Gain(x), d(off));
    }
  }

  lemma NoGain(grades: seq<nat>, k: nat, off: nat, d: Discount)
    requires grades == [] || k == 0
    ensures Dcg(grades, k, off, d) == Dcg(Ideal(grades), k, off, d) == 0.0
  {
  }

  /** A ranking that is already in descending order has the ideal gain. */
  lemma SortedIsIdeal(grades: seq<nat>, k: nat, d: Discount)
    requires Descending(grades, GradeKey)
    ensures Dcg(grades, k, 0, d) == Dcg(Ideal(grades), k, 0, d)
  {
    SortDescOfDescending(grades, GradeKey);
  }

  // ----- which rankings are ideal

  /** The first `k` grades, or all there are. */
  function Top(grades: seq<nat>, k: nat): seq<nat> {
    if k <= |grades| then grades[..k] else grades
  }

  lemma {:induction false} DcgOfTop(grades: seq<nat>, k: nat, off: nat, d: Discount)
    ensures Dcg(grades, k, off, d) == Dcg(Top(grades, k), k, off, d)
    decreases |grades|
  {
    if grades != [] && k > 0 {
      var x, xs := grades[0], grades[1..];
      DcgOfTop(xs, k - 1, off + 1, d);
      assert grades == [x] + xs && Top(grades, k) == [x] + Top(xs, k - 1);
      DcgCons(x, xs, k, off, d);
      DcgCons(x, Top(xs, k - 1), k, off, d);
    }
  }

  lemma {:induction false} GainStrict(a: nat, b: nat)
    requires a < b
    ensures Gain(a) < Gain(b)
  {
    if b > a + 1 {
      GainStrict(a, b - 1);
    }
  }

  lemma StrictUp(x: real, y: real, p: real, q: real, r: real)
    requires x < y && p > q
    ensures x * p + (y * q + r) < y * p + (x * q + r)
  {
    assert (y - x) * (p - q) > 0.0;
  }

  lemma DcgPair(x: nat, y: nat, xs: seq<nat>, k: nat, off: nat, d: Discount)
    requires k >= 1
    ensures Dcg([x] + ([y] + xs), k, off, d) ==
            Gain(x) * d(off) + if k == 1 then 0.0 else Gain(y) * d(off + 1) + Dcg(xs, k - 2, off + 2, d)
  {
    DcgCons(x, [y] + xs, k, off, d);
    DcgCons(y, xs, k - 1, off + 1, d);
  }

  lemma StrictlyFalls(d: Discount, i: nat)
    requires IsDiscount(d) && IsStrict(d)
    ensures d(i) > d(i + 1) > 0.0
  {
  }

  /** Exchanging two neighbours in the wrong order gains, when ranks count differently. */
  lemma SwapGainsStrictly(x: nat, y: nat, xs: seq<nat>, k: nat, off: nat, d: Discount)
    requires IsDiscount(d) && IsStrict(d) && x < y && k >= 1
    ensures Dcg([x] + ([y] + xs), k, off, d) < Dcg([y] + ([x] + xs), k, off, d)
  {
    hide Dcg, Gain, IsDiscount, IsStrict;
    GainStrict(x, y);
    DcgPair(x, y, xs, k, off, d);
    DcgPair(y, x, xs, k, off, d);
    StrictlyFalls(d, off);
    var p, q, u, v := d(off), d(off + 1), Gain(x), Gain(y);
    if k == 1 {
      StrictUp(u, v, p, 0.0, 0.0);
    } else {
      StrictUp(u, v, p, q, Dcg(xs, k - 2, off + 2, d));
    }
  }

  lemma InsertGainsStrictly(x: nat, xs: seq<nat>, k: nat, off: nat, d: Discount)
    requires IsDiscount(d) && IsStrict(d) && k >= 1 && xs != [] && x < xs[0]
    ensures Dcg([x] + xs, k, off, d) < Dcg(Insert(x, xs, GradeKey), k, off, d)
  {
    var y, rest := xs[0], xs[1..];
    assert xs == [y] + rest;
    SwapGainsStrictly(x, y, rest, k, off, d);
    InsertGains(x, rest, k - 1, off + 1, d);
    DcgCons(y, [x] + rest, k, off, d);
    DcgCons(y, Insert(x, rest, GradeKey), k, off, d);
  }

  /** With as much gain as the ideal ranking, a ranking agrees with it down to the cut. */
  lemma {:induction false} IdealGainIsIdeal(grades: seq<nat>, k: nat, off: nat, d: Discount)
    requires IsDiscount(d) && IsStrict(d)
    requires Dcg(grades, k, off, d) == Dcg(Ideal(grades), k, off, d)
    ensures Top(grades, k) == Top(Ideal(grades), k)
    decreases |grades|
  {
    SameLength(grades);
    if grades != [] && k > 0 {
      var x, xs := grades[0], grades[1..];
      var rest := Ideal(xs);
      assert grades == [x] + xs;
      DcgCons(x, xs, k, off, d);
      DcgCons(x, rest, k, off, d);
      DcgAtMostIdeal(xs, k - 1, off + 1, d);
      InsertGains(x, rest, k, off, d);
      var ideal := Ideal(grades);
      assert ideal == Insert(x, rest, GradeKey);
      if rest != [] && x < rest[0] {
        InsertGainsStrictly(x, rest, k, off, d);
      } else {
        assert ideal == [x] + rest;
        IdealGainIsIdeal(xs, k - 1, off + 1, d);
        SameLength(xs);
        TopCons(x, xs, rest, k);
      }
    }
  }

  lemma TopCons(x: nat, xs: seq<nat>, ys: seq<nat>, k: nat)
    requires k > 0 && |xs| == |ys| && Top(xs, k - 1) == Top(ys, k - 1)
    ensures Top([x] + xs, k) == Top([x] + ys, k)
  {
    assert Top([x] + xs, k) == [x] + Top(xs, k - 1);
    assert Top([x] + ys, k) == [x] + Top(ys, k - 1);
  }

  lemma SameLength(grades: seq<nat>)
    ensures |Ideal(grades)| == |grades|
  {
    SortDescArranges(grades, GradeKey);
    ArrangementIsPermutation(grades, Ideal(grades), GradeKey);
    assert |multiset(grades)| == |grades| && |multiset(Ideal(grades))| == |Ideal(grades)|;
  }

  /** For a strict discount: the gain is the ideal one exactly when the ranking agrees with the ideal down to the cut. */
  lemma IdealGainIff(grades: seq<nat>, k: nat, d: Discount)
    requires IsDiscount(d) && IsStrict(d)
    ensures Dcg(grades, k, 0, d) == Dcg(Ideal(grades), k, 0, d) <==> Top(grades, k) == Top(Ideal(grades), k)
  {
    if Top(grades, k) == Top(Ideal(grades), k) {
      DcgOfTop(grades, k, 0, d);
      DcgOfTop(Ideal(grades), k, 0, d);
    }
    if Dcg(grades, k, 0, d) == Dcg(Ideal(grades), k, 0, d) {
      IdealGainIsIdeal(grades, k, 0, d);
    }
  }

  lemma {:induction false} RelevantPositive(grades: seq<nat>)
    ensures Relevant(grades) > 0 <==> exists i :: 0 <= i < |grades| && grades[i] > 0
  {
    if grades != [] {
      RelevantPositive(grades[1..]);
      if Relevant(grades[1..]) > 0 {
        var i :| 0 <= i < |grades[1..]| && grades[1..][i] > 0;
        assert grades[i + 1] > 0;
      }
      if i :| 0 <= i < |grades| && grades[i] > 0 {
        if i > 0 { assert grades[1..][i - 1] > 0; }
      }
    }
  }

  lemma IdealHeadRelevant(grades: seq<nat>)
    requires Relevant(grades) > 0
    ensures Ideal(grades) != [] && Ideal(grades)[0] >= 1
  {
    SortDescArranges(grades, GradeKey);
    ArrangementIsPermutation(grades, Ideal(grades), GradeKey);
    RelevantPositive(grades);
    var i :| 0 <= i < |grades| && grades[i] > 0;
    assert grades[i] in multiset(Ideal(grades));
    var j :| 0 <= j < |Ideal(grades)| && Ideal(grades)[j] == grades[i];
    assert GradeKey(Ideal(grades)[0]) >= GradeKey(Ideal(grades)[j]);
  }

  /** The ideal gain is positive as soon as one row is relevant, so nDCG is a proper quotient. */
  lemma IdealPositive(grades: seq<nat>, k: nat, d: Discount)
    requires IsDiscount(d) && k >= 1 && Relevant(grades) > 0
    ensures Dcg(Ideal(grades), k, 0, d) > 0.0
  {
    IdealHeadRelevant(grades);
    var best := Ideal(grades)[0];
    GainMonotone(best, best);
    assert Gain(best) * d(0) > 0.0;
    DcgAtMostIdeal(Ideal(grades)[1..], k - 1, 1, d);
  }

  lemma {:induction false} DcgSnoc(grades: seq<nat>, n: nat, off: nat, d: Discount)
    requires n < |grades|
    ensures Dcg(grades, n + 1, off, d) == Dcg(grades, n, off, d) + Gain(grades[n]) * d(off + n)
    decreases n
  {
    if n > 0 {
      DcgSnoc(grades[1..], n - 1, off + 1, d);
    }
  }

  lemma {:induction false} RelevantSplit(grades: seq<nat>, n: nat)
    requires n <= |grades|
    ensures Relevant(grades) == Relevant(grades[..n]) + Relevant(grades[n..])
    decreases n
  {
    if n > 0 {
      RelevantSplit(grades[1..], n - 1);
      assert grades[..n][1..] == grades[1..][..n - 1];
      assert grades[1..][n - 1..] == grades[n..];
    } else {
      assert grades[0..] == grades;
    }
  }

  /** The accumulation loop for one DCG value. */
  method AccumulateDcg(grades: seq<nat>, k: nat, d: Discount) returns (dcg: real)
    requires k <= |grades|
    ensures dcg == Dcg(grades, k, 0, d)
  {
    dcg := 0.0;
    for idx := 0 to k
      invariant dcg == Dcg(grades, idx, 0, d)
    {
      DcgSnoc(grades, idx, 0, d);
      assert Dcg(grades, idx + 1, 0, d) == Dcg(grades, idx, 0, d) + Gain(grades[idx]) * d(0 + idx);
      dcg := dcg + Gain(grades[idx]) * d(0 + idx);
    }
  }

  /** The share of all relevant rows that stands within the first `k`; 1 iff none stands below. */
  ghost predicate IsRecall(recall: real, grades: seq<nat>, k: nat)
    requires k <= |grades|
  {
    && 0.0 <= recall <= 1.0
    && recall * Relevant(grades) as real == Relevant(grades[..k]) as real
    && (recall == 1.0 <==> forall i :: k <= i < |grades| ==> grades[i] == 0)
  }

  /** One over the (1-based) rank of the first relevant row. */
  ghost predicate IsReciprocalRank(mrr: real, grades: seq<nat>) {
    && 0.0 <= mrr <= 1.0
    && exists r :: 0 <= r < |grades| && grades[r] > 0 && (forall i :: 0 <= i < r ==> grades[i] == 0)
                   && mrr == 1.0 / (r + 1) as real
  }

  /**
    Gain relative to the ideal ranking; 1 for every ranking in descending order, and for a strict discount
    exactly for those that agree with the ideal one down to the cut.
   */
  ghost predicate IsNdcg(ndcg: real, grades: seq<nat>, k: nat, d: Discount) {
    && 0.0 <= ndcg <= 1.0
    && ndcg * Dcg(Ideal(grades), k, 0, d) == Dcg(grades, k, 0, d)
    && (Descending(grades, GradeKey) ==> ndcg == 1.0)
    && (IsStrict(d) ==> (ndcg == 1.0 <==> Top(grades, k) == Top(Ideal(grades), k)))
  }

  datatype Metrics = Metrics(recall: real, mrr: real, ndcg: real, totalRelevant: nat)

  function CutOff(topK: int, rows: nat): (k: nat)
    requires rows > 0
    ensures 1 <= k <= rows
  {
    if topK < 1 then 1 else if topK > rows then rows else topK
  }

  /** The cut is what was asked for, or else the nearest number of rows there is. */
  lemma CutOffIsNearest(topK: int, rows: nat, k: nat)
    requires 1 <= k <= rows
    ensures 1 <= topK <= rows ==> CutOff(topK, rows) == topK
    ensures topK < 1 ==> CutOff(topK, rows) - topK <= k - topK
    ensures topK > rows ==> topK - CutOff(topK, rows) <= topK - k
  {
  }

  /**
    The three figures before rounding. With no relevant row all are 0; otherwise each is
    already in [0, 1], so the clamp that follows in the program changes nothing.
   */
  method ComputeRetrievalMetrics(grades: seq<nat>, topK: int, d: Discount) returns (m: Metrics)
    requires IsDiscount(d)
    ensures m.totalRelevant == Relevant(grades)
    ensures Relevant(grades) == 0 ==> m == Metrics(0.0, 0.0, 0.0, 0)
    ensures Relevant(grades) > 0 ==>
      && IsRecall(m.recall, grades, CutOff(topK, |grades|))
      && IsReciprocalRank(m.mrr, grades)
      && IsNdcg(m.ndcg, grades, CutOff(topK, |grades|), d)
  {
    var total := Relevant(grades);
    if total == 0 {
      return Metrics(0.0, 0.0, 0.0, 0);
    }
    var k := CutOff(topK, |grades|);
    var recall := RecallAt(grades, k);
    var mrr := ReciprocalRank(grades);
    var ndcg := NdcgAt(grades, k, d);
    m := Metrics(recall, mrr, ndcg, total);
  }

  method RecallAt(grades: seq<nat>, k: nat) returns (recall: real)
    requires k <= |grades| && Relevant(grades) > 0
    ensures IsRecall(recall, grades, k)
  {
    RecallIsOne(grades, k);
    QuotientInRange(Relevant(grades[..k]) as real, Relevant(grades) as real);
    recall := Relevant(grades[..k]) as real / Relevant(grades) as real;
  }

  method ReciprocalRank(grades: seq<nat>) returns (mrr: real)
    requires Relevant(grades) > 0
    ensures IsReciprocalRank(mrr, grades)
  {
    RelevantPositive(grades);
    var r := 0;
    while grades[r] == 0
      invariant 0 <= r < |grades|
      invariant forall i :: 0 <= i < r ==> grades[i] == 0
      decreases |grades| - r
    {
      r := r + 1;
    }
    QuotientInRange(1.0, (r + 1) as real);
    mrr := 1.0 / (r + 1) as real;
  }

  method NdcgAt(grades: seq<nat>, k: nat, d: Discount) returns (ndcg: real)
    requires IsDiscount(d) && 1 <= k <= |grades| && Relevant(grades) > 0
    ensures IsNdcg(ndcg, grades, k, d)
  {
    SortDescArranges(grades, GradeKey);
    var dcg := AccumulateDcg(grades, k, d);
    var idcg := AccumulateDcg(Ideal(grades), k, d);
    IdealPositive(grades, k, d);
    DcgAtMostIdeal(grades, k, 0, d);
    QuotientInRange(dcg, idcg);
    if Descending(grades, GradeKey) {
      SortedIsIdeal(grades, k, d);
    }
    if IsStrict(d) {
      IdealGainIff(grades, k, d);
    }
    ndcg := dcg / idcg;
  }

  lemma RecallIsOne(grades: seq<nat>, k: nat)
    requires k <= |grades|
    ensures Relevant(grades[..k]) <= Relevant(grades)
    ensures Relevant(grades[..k]) == Relevant(grades) <==> forall i :: k <= i < |grades| ==> grades[i] == 0
  {
    RelevantSplit(grades, k);
    RelevantPositive(grades[k..]);
    if Relevant(grades[k..]) == 0 {
      forall i | k <= i < |grades| ensures grades[i] == 0 {
        assert grades[i] == grades[k..][i - k];
      }
    }
  }

  lemma QuotientInRange(a: real, b: real)
    requires 0.0 <= a <= b && b > 0.0
    ensures 0.0 <= a / b <= 1.0
    ensures (a / b) * b == a
    ensures a / b == 1.0 <==> a == b
  {
    assert (a / b) * b == a;
  }
}
