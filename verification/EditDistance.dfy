/**
  Word error rate: a two-row dynamic program for the edit distance of two token lists,
  proved to be the least cost of any edit script, and a metric.
 */
module EditDistance {

  /** One column of an alignment of a reference with a hypothesis. */
  datatype Edit<Token> = Keep | Substitute(word: Token) | Delete | Insert(word: Token)

  type Script<Token> = seq<Edit<Token>>

  function Init<T>(s: seq<T>): seq<T>
    requires s != []
  {
    s[..|s| - 1]
  }

  function Last<T>(s: seq<T>): T
    requires s != []
  {
    s[|s| - 1]
  }

  ghost function Cost<Token>(script: Script<Token>): nat {
    if script == [] then 0 else Cost(Init(script)) + if Last(script).Keep? then 0 else 1
  }

  /** `script`, read from left to right along `a`, writes `b`. */
  ghost predicate Rewrites<Token>(script: Script<Token>, a: seq<Token>, b: seq<Token>) {
    if script == [] then a == [] && b == []
    else
      match Last(script)
      case Keep => a != [] && b != [] && Last(a) == Last(b) && Rewrites(Init(script), Init(a), Init(b))
      case Substitute(word) => a != [] && b != [] && Last(b) == word && Rewrites(Init(script), Init(a), Init(b))
      case Delete => a != [] && Rewrites(Init(script), Init(a), b)
      case Insert(word) => b != [] && Last(b) == word && Rewrites(Init(script), a, Init(b))
  }

  function Min3(x: nat, y: nat, z: nat): nat {
    var m := if x <= y then x else y;
    if m <= z then m else z
  }

  /** The program's recurrence, by the last tokens of both lists. */
  ghost function Distance<Token>(a: seq<Token>, b: seq<Token>): nat
    decreases |a| + |b|
  {
    if a == [] then |b|
    else if b == [] then |a|
    else
      Min3(Distance(Init(a), b) + 1, Distance(a, Init(b)) + 1,
           Distance(Init(a), Init(b)) + if Last(a) == Last(b) then 0 else 1)
  }

  // ----- the least cost over all edit scripts

  lemma {:induction false} NoScriptIsCheaper<Token>(script: Script<Token>, a: seq<Token>, b: seq<Token>)
    requires Rewrites(script, a, b)
    ensures Distance(a, b) <= Cost(script)
  {
    if script != [] {
      match Last(script) {
        case Keep => NoScriptIsCheaper(Init(script), Init(a), Init(b));
        case Substitute(_) => NoScriptIsCheaper(Init(script), Init(a), Init(b));
        case Delete => NoScriptIsCheaper(Init(script), Init(a), b);
        case Insert(_) => NoScriptIsCheaper(Init(script), a, Init(b));
      }
    }
  }

  /** A cheapest script, found by walking the recurrence back. */
  ghost function Cheapest<Token>(a: seq<Token>, b: seq<Token>): Script<Token>
    decreases |a| + |b|
  {
    if a == [] && b == [] then []
    else if a == [] || (b != [] && Distance(a, b) == Distance(a, Init(b)) + 1) then
      Cheapest(a, Init(b)) + [Insert(Last(b))]
    else if b == [] || Distance(a, b) == Distance(Init(a), b) + 1 then Cheapest(Init(a), b) + [Delete]
    else Cheapest(Init(a), Init(b)) + [if Last(a) == Last(b) then Keep else Substitute(Last(b))]
  }

  lemma ScriptSnoc<Token>(init: Script<Token>, e: Edit<Token>)
    ensures Init(init + [e]) == init && Last(init + [e]) == e
    ensures Cost(init + [e]) == Cost(init) + if e.Keep? then 0 else 1
  {
    assert Init(init + [e]) == init;
  }

  lemma {:induction false} CheapestWorks<Token>(a: seq<Token>, b: seq<Token>)
    ensures Rewrites(Cheapest(a, b), a, b) && Cost(Cheapest(a, b)) == Distance(a, b)
    decreases |a| + |b|
  {
    if a == [] && b == [] {
    } else if a == [] || (b != [] && Distance(a, b) == Distance(a, Init(b)) + 1) {
      CheapestWorks(a, Init(b));
      ScriptSnoc(Cheapest(a, Init(b)), Insert(Last(b)));
    } else if b == [] || Distance(a, b) == Distance(Init(a), b) + 1 {
      CheapestWorks(Init(a), b);
      ScriptSnoc(Cheapest(Init(a), b), Delete);
    } else {
      CheapestWorks(Init(a), Init(b));
      ScriptSnoc(Cheapest(Init(a), Init(b)), if Last(a) == Last(b) then Keep else Substitute(Last(b)));
    }
  }

  /** The distance is attained by some edit script and undercut by none. */
  lemma DistanceIsLeastCost<Token(!new)>(a: seq<Token>, b: seq<Token>)
    ensures exists script :: Rewrites(script, a, b) && Cost(script) == Distance(a, b)
    ensures forall script :: Rewrites(script, a, b) ==> Distance(a, b) <= Cost(script)
  {
    CheapestWorks(a, b);
    forall script | Rewrites(script, a, b) ensures Distance(a, b) <= Cost(script) {
      NoScriptIsCheaper(script, a, b);
    }
  }

  // ----- a metric

  lemma {:induction false} Bounds<Token>(a: seq<Token>, b: seq<Token>)
    ensures |a| - |b| <= Distance(a, b) && |b| - |a| <= Distance(a, b)
    ensures Distance(a, b) <= if |a| >= |b| then |a| else |b|
    decreases |a| + |b|
  {
    if a != [] && b != [] {
      Bounds(Init(a), b);
      Bounds(a, Init(b));
      Bounds(Init(a), Init(b));
    }
  }

  lemma {:induction false} ZeroIffEqual<Token>(a: seq<Token>, b: seq<Token>)
    ensures Distance(a, b) == 0 <==> a == b
    decreases |a|
  {
    if a != [] && b != [] {
      ZeroIffEqual(Init(a), Init(b));
      assert a == Init(a) + [Last(a)] && b == Init(b) + [Last(b)];
    }
  }

  lemma {:induction false} Symmetric<Token>(a: seq<Token>, b: seq<Token>)
    ensures Distance(a, b) == Distance(b, a)
    decreases |a| + |b|
  {
    if a != [] && b != [] {
      Symmetric(Init(a), b);
      Symmetric(a, Init(b));
      Symmetric(Init(a), Init(b));
    }
  }

  lemma {:induction false} Triangle<Token>(a: seq<Token>, b: seq<Token>, c: seq<Token>)
    ensures Distance(a, c) <= Distance(a, b) + Distance(b, c)
    decreases |a| + |b| + |c|
  {
    if a == [] || b == [] || c == [] {
      Bounds(a, b);
      Bounds(b, c);
      Bounds(a, c);
    } else if Distance(a, b) == Distance(Init(a), b) + 1 {
      Triangle(Init(a), b, c);
    } else if Distance(b, c) == Distance(b, Init(c)) + 1 {
      Triangle(a, b, Init(c));
    } else if Distance(a, b) == Distance(a, Init(b)) + 1 {
      if Distance(b, c) == Distance(Init(b), c) + 1 {
        Triangle(a, Init(b), c);
      } else {
        Triangle(a, Init(b), Init(c));
      }
    } else if Distance(b, c) == Distance(Init(b), c) + 1 {
      Triangle(Init(a), Init(b), c);
    } else {
      Triangle(Init(a), Init(b), Init(c));
    }
  }

  /** A metric on token lists, between the difference of their lengths and the longer length. */
  lemma DistanceIsMetric<Token>(a: seq<Token>, b: seq<Token>, c: seq<Token>)
    ensures Distance(a, b) == 0 <==> a == b
    ensures Distance(a, b) == Distance(b, a)
    ensures Distance(a, c) <= Distance(a, b) + Distance(b, c)
    ensures |a| - |b| <= Distance(a, b) <= if |a| >= |b| then |a| else |b|
  {
    ZeroIffEqual(a, b);
    Symmetric(a, b);
    Triangle(a, b, c);
    Bounds(a, b);
  }

  // ----- the program

  /** Row `i` of the table: the distances of the first `i` reference tokens to the prefixes of `hyp`. */
  ghost function TableRow<Token>(ref: seq<Token>, hyp: seq<Token>, i: nat): (row: seq<nat>)
    requires i <= |ref|
    ensures |row| == |hyp| + 1
  {
    seq(|hyp| + 1, j requires 0 <= j <= |hyp| => Distance(ref[..i], hyp[..j]))
  }

  /** Each cell follows from its three neighbours above and to the left. */
  lemma RowStep<Token>(ref: seq<Token>, hyp: seq<Token>, i: nat, j: nat)
    requires 1 <= i <= |ref| && 1 <= j <= |hyp|
    ensures var above, row := TableRow(ref, hyp, i - 1), TableRow(ref, hyp, i);
      row[j] == Min3(above[j] + 1, row[j - 1] + 1, above[j - 1] + if ref[i - 1] == hyp[j - 1] then 0 else 1)
  {
    var a, b := ref[..i], hyp[..j];
    var up, left, diagonal, here := Distance(ref[..i - 1], b), Distance(a, hyp[..j - 1]),
                                    Distance(ref[..i - 1], hyp[..j - 1]), Distance(a, b);
    assert Init(a) == ref[..i - 1] && Init(b) == hyp[..j - 1];
    assert here == Min3(up + 1, left + 1, diagonal + if ref[i - 1] == hyp[j - 1] then 0 else 1);
  }

  lemma RowEnds<Token>(ref: seq<Token>, hyp: seq<Token>, i: nat)
    requires i <= |ref|
    ensures TableRow(ref, hyp, i)[0] == i
    ensures i == 0 ==> TableRow(ref, hyp, i) == seq(|hyp| + 1, j => j)
    ensures i == |ref| ==> TableRow(ref, hyp, i)[|hyp|] == Distance(ref, hyp)
  {
    assert ref[..|ref|] == ref && hyp[..|hyp|] == hyp;
  }

  /** One row of the table from the row before it. */
  method FillRow<Token(==)>(ref: seq<Token>, hyp: seq<Token>, i: nat, prev: seq<nat>)
    returns (curr: seq<nat>)
    requires 1 <= i <= |ref| && prev == TableRow(ref, hyp, i - 1)
    ensures curr == TableRow(ref, hyp, i)
  {
    ghost var row := TableRow(ref, hyp, i);
    RowEnds(ref, hyp, i);
    curr := [i] + seq(|hyp|, _ => 0);
    var j := 1;
    while j <= |hyp|
      invariant 1 <= j <= |hyp| + 1 == |curr|
      invariant curr[..j] == row[..j]
    {
      RowStep(ref, hyp, i, j);
      var cost := if ref[i - 1] == hyp[j - 1] then 0 else 1;
      assert curr[j - 1] == curr[..j][j - 1] == row[j - 1];
      curr := curr[j := Min3(prev[j] + 1, curr[j - 1] + 1, prev[j - 1] + cost)];
      j := j + 1;
    }
  }

  /** Two rows of the table are enough: the result is the bottom right cell. */
  method LevenshteinDistance<Token(==)>(ref: seq<Token>, hyp: seq<Token>) returns (distance: nat)
    ensures distance == Distance(ref, hyp)
  {
    if |ref| == 0 {
      return |hyp|;
    }
    if |hyp| == 0 {
      return |ref|;
    }
    var prev: seq<nat> := seq(|hyp| + 1, j => j);
    RowEnds(ref, hyp, 0);
    for i := 1 to |ref| + 1
      invariant prev == TableRow(ref, hyp, i - 1)
    {
      prev := FillRow(ref, hyp, i, prev);
    }
    RowEnds(ref, hyp, |ref|);
    distance := prev[|prev| - 1];
  }

  /** Errors per reference word; an empty reference counts as all wrong unless nothing was said. */
  ghost function ErrorRate<Token>(ref: seq<Token>, hyp: seq<Token>): real {
    if ref == [] then if hyp == [] then 0.0 else 1.0
    else Distance(ref, hyp) as real / |ref| as real
  }

  method WordErrorRate<Token(==)>(ref: seq<Token>, hyp: seq<Token>) returns (wer: real)
    ensures wer == ErrorRate(ref, hyp)
    ensures ref != [] ==> wer * |ref| as real == Distance(ref, hyp) as real
    ensures ref == [] ==> wer == if hyp == [] then 0.0 else 1.0
  {
    hide Distance;
    if |ref| == 0 {
      return if |hyp| == 0 then 0.0 else 1.0;
    }
    var distance := LevenshteinDistance(ref, hyp);
    RateTimesWords(distance, |ref|);
    wer := distance as real / |ref| as real;
  }

  lemma RateTimesWords(distance: nat, words: nat)
    requires words > 0
    ensures (distance as real / words as real) * words as real == distance as real
  {
  }

  /** For every word of the reference: the rate counts the edits of some script, and no script has fewer. */
  lemma RateCountsEdits<Token(!new)>(ref: seq<Token>, hyp: seq<Token>)
    requires ref != []
    ensures exists script :: Rewrites(script, ref, hyp) && Cost(script) as real == ErrorRate(ref, hyp) * |ref| as real
    ensures forall script :: Rewrites(script, ref, hyp) ==> ErrorRate(ref, hyp) * |ref| as real <= Cost(script) as real
  {
    hide Distance, Rewrites, Cost;
    DistanceIsLeastCost(ref, hyp);
    RateTimesWords(Distance(ref, hyp), |ref|);
    var script :| Rewrites(script, ref, hyp) && Cost(script) == Distance(ref, hyp);
    assert Cost(script) as real == ErrorRate(ref, hyp) * |ref| as real;
  }

  lemma RateBounds(distance: nat, words: nat, most: nat)
    requires words > 0 && distance <= most
    ensures var rate := distance as real / words as real;
      && 0.0 <= rate <= most as real / words as real
      && (rate == 0.0 <==> distance == 0)
      && (most == words ==> rate <= 1.0)
  {
    var rate := distance as real / words as real;
    assert rate * words as real == distance as real;
  }

  /** Zero exactly for a perfect transcript, and never above the longer length per reference word. */
  lemma ErrorRateBounds<Token>(ref: seq<Token>, hyp: seq<Token>)
    ensures ErrorRate(ref, hyp) >= 0.0
    ensures ErrorRate(ref, hyp) == 0.0 <==> ref == hyp
    ensures ref != [] ==>
      ErrorRate(ref, hyp) <= (if |ref| >= |hyp| then |ref| else |hyp|) as real / |ref| as real
    ensures |hyp| <= |ref| ==> ErrorRate(ref, hyp) <= 1.0
  {
    if ref != [] {
      var most := if |ref| >= |hyp| then |ref| else |hyp|;
      DistanceIsMetric(ref, hyp, hyp);
      RateBounds(Distance(ref, hyp), |ref|, most);
    }
  }
}
