/**
  The local embedding by feature hashing. The words and the character n-grams of a text are hashed to
  signed weights in a vector of fixed length; the result has length one or is zero, and does not
  depend on the order of the words.
 */
module HashEmbedding {

  type Token = string

  /** The first bytes of a digest, and whether the sign bit is clear. */
  type Hash = string -> (nat, bool)

  datatype Feature = Feature(index: nat, weight: real)

  function Clamp(dim: int): (d: nat)
    ensures 8 <= d <= 2048
  {
    var asked := if dim == 0 then 96 else dim;
    if asked < 8 then 8 else if asked > 2048 then 2048 else asked
  }

  function FeatureOf(name: string, scale: real, dim: nat, hash: Hash): (f: Feature)
    requires dim > 0
    ensures f.index < dim
  {
    var (number, positive) := hash(name);
    Feature(number % dim, if positive then scale else -scale)
  }

  /** All substrings of length `n`, from left to right. */
  function Windows(s: string, n: nat): seq<string> {
    if |s| < n then [] else seq(|s| - n + 1, i requires 0 <= i <= |s| - n => s[i..i + n])
  }

  function Grams(token: Token): seq<string> {
    Windows("^" + token + "$", 3) + Windows("^" + token + "$", 4)
  }

  function GramFeatures(grams: seq<string>, dim: nat, hash: Hash): seq<Feature>
    requires dim > 0
  {
    seq(|grams|, i requires 0 <= i < |grams| => FeatureOf("g:" + grams[i], 0.18, dim, hash))
  }

  function FeaturesOf(token: Token, ngrams: bool, dim: nat, hash: Hash): (fs: seq<Feature>)
    requires dim > 0
    ensures forall j :: 0 <= j < |fs| ==> fs[j].index < dim
  {
    [FeatureOf("w:" + token, 1.0, dim, hash)] +
    if ngrams && |token| >= 4 then GramFeatures(Grams(token), dim, hash) else []
  }

  ghost predicate AreWindows(ws: seq<string>, s: string, n: nat) {
    |ws| == |s| - n + 1 && forall i :: 0 <= i < |ws| ==> i + n <= |s| && ws[i] == s[i..i + n]
  }

  /** A word's grams: every stretch of three characters of the word with marks at its ends, then every one of four. */
  lemma GramsAre(token: Token)
    requires |token| >= 4
    ensures var threes, fours, padded := Grams(token)[..|token|], Grams(token)[|token|..], "^" + token + "$";
      |Grams(token)| == 2 * |token| - 1 && AreWindows(threes, padded, 3) && AreWindows(fours, padded, 4)
  {
    var padded := "^" + token + "$";
    var threes, fours := Windows(padded, 3), Windows(padded, 4);
    assert |threes| == |token| && |fours| == |token| - 1;
    hide Windows;
    assert (threes + fours)[..|token|] == threes && (threes + fours)[|token|..] == fours;
  }

  /** The features of a word: itself with weight one, and, from four characters on, each gram with weight 0.18. */
  lemma FeaturesAre(token: Token, ngrams: bool, dim: nat, hash: Hash)
    requires dim > 0
    ensures var fs, grams := FeaturesOf(token, ngrams, dim, hash), Grams(token);
      && |fs| == (if ngrams && |token| >= 4 then 2 * |token| else 1)
      && fs[0] == FeatureOf("w:" + token, 1.0, dim, hash)
      && (ngrams && |token| >= 4 ==>
            |grams| == 2 * |token| - 1
            && forall i :: 0 <= i < |grams| ==> fs[1 + i] == FeatureOf("g:" + grams[i], 0.18, dim, hash))
  {
    if ngrams && |token| >= 4 {
      GramsAre(token);
    }
    hide FeatureOf, Grams;
  }

  /** The coordinate is the digest modulo the dimension, the sign that of the digest. */
  lemma FeatureIsHashed(name: string, scale: real, dim: nat, hash: Hash)
    requires dim > 0
    ensures exists q: nat :: hash(name).0 == q * dim + FeatureOf(name, scale, dim, hash).index
    ensures FeatureOf(name, scale, dim, hash).weight == if hash(name).1 then scale else -scale
  {
    var q := hash(name).0 / dim;
    assert hash(name).0 == q * dim + hash(name).0 % dim;
  }

  /** The weight that a list of features puts on one coordinate. */
  function Weight(fs: seq<Feature>, i: nat): real {
    if fs == [] then 0.0
    else Weight(fs[..|fs| - 1], i) + if fs[|fs| - 1].index == i then fs[|fs| - 1].weight else 0.0
  }

  /** The weight of a text on one coordinate: the sum over its words. */
  function TextWeight(tokens: seq<Token>, ngrams: bool, dim: nat, hash: Hash, i: nat): real
    requires dim > 0
  {
    if tokens == [] then 0.0
    else TextWeight(tokens[..|tokens| - 1], ngrams, dim, hash, i) + Weight(FeaturesOf(tokens[|tokens| - 1], ngrams, dim, hash), i)
  }

  lemma {:induction false} WeightAppend(a: seq<Feature>, b: seq<Feature>, i: nat)
    ensures Weight(a + b, i) == Weight(a, i) + Weight(b, i)
  {
    if b == [] {
      assert a + b == a;
    } else {
      WeightAppend(a, b[..|b| - 1], i);
      assert (a + b)[..|a + b| - 1] == a + b[..|b| - 1];
    }
  }

  /** One feature puts its weight on its own coordinate; with `WeightAppend` this leaves no other function. */
  lemma WeightOfOne(f: Feature, i: nat)
    ensures Weight([f], i) == if f.index == i then f.weight else 0.0
  {
    assert [f][..0] == [];
    assert Weight([f][..0], i) == 0.0;
  }

  lemma TextWeightOfOne(token: Token, ngrams: bool, dim: nat, hash: Hash, i: nat)
    requires dim > 0
    ensures TextWeight([token], ngrams, dim, hash, i) == Weight(FeaturesOf(token, ngrams, dim, hash), i)
  {
    hide FeaturesOf, Weight;
    assert [token][..0] == [];
    assert TextWeight([token][..0], ngrams, dim, hash, i) == 0.0;
  }

  lemma {:induction false} TextWeightAppend(s: seq<Token>, t: seq<Token>, ngrams: bool, dim: nat, hash: Hash, i: nat)
    requires dim > 0
    ensures TextWeight(s + t, ngrams, dim, hash, i) == TextWeight(s, ngrams, dim, hash, i) + TextWeight(t, ngrams, dim, hash, i)
  {
    hide FeaturesOf, Weight;
    if t == [] {
      assert s + t == s;
    } else {
      TextWeightAppend(s, t[..|t| - 1], ngrams, dim, hash, i);
      assert (s + t)[..|s + t| - 1] == s + t[..|t| - 1];
    }
  }

  /** Every coordinate depends on the words of the text only, not on their order. */
  lemma {:induction false} OrderDoesNotMatter(s: seq<Token>, t: seq<Token>, ngrams: bool, dim: nat, hash: Hash, i: nat)
    requires dim > 0 && multiset(s) == multiset(t)
    ensures TextWeight(s, ngrams, dim, hash, i) == TextWeight(t, ngrams, dim, hash, i)
    decreases |s|
  {
    hide FeaturesOf, Weight;
    if s == [] {
      assert |multiset(t)| == 0;
    } else {
      var n := |s| - 1;
      var front, word := s[..n], s[n];
      assert s == front + [word];
      assert word in multiset(t);
      var k :| 0 <= k < |t| && t[k] == word;
      var left, right := t[..k], t[k + 1..];
      assert t == left + [word] + right;
      SameRest(front, left, right, word);
      OrderDoesNotMatter(front, left + right, ngrams, dim, hash, i);
      MoveToEnd(left, word, right, ngrams, dim, hash, i);
      TextWeightAppend(front, [word], ngrams, dim, hash, i);
    }
  }

  lemma SameRest(front: seq<Token>, left: seq<Token>, right: seq<Token>, word: Token)
    requires multiset(front + [word]) == multiset(left + [word] + right)
    ensures multiset(front) == multiset(left + right)
  {
    assert multiset(front) == multiset(front + [word]) - multiset{word};
    assert multiset(left + right) == multiset(left + [word] + right) - multiset{word};
  }

  lemma MoveToEnd(left: seq<Token>, word: Token, right: seq<Token>, ngrams: bool, dim: nat, hash: Hash, i: nat)
    requires dim > 0
    ensures TextWeight(left + [word] + right, ngrams, dim, hash, i) ==
            TextWeight(left + right, ngrams, dim, hash, i) + TextWeight([word], ngrams, dim, hash, i)
  {
    hide TextWeight;
    TextWeightAppend(left + [word], right, ngrams, dim, hash, i);
    TextWeightAppend(left, [word], ngrams, dim, hash, i);
    TextWeightAppend(left, right, ngrams, dim, hash, i);
  }

  // ----- length one

  function Squares(v: seq<real>): (q: real)
    ensures q >= 0.0
  {
    if v == [] then 0.0 else Squares(v[..|v| - 1]) + Sq(v[|v| - 1])
  }

  function Sq(x: real): (q: real)
    ensures q >= 0.0
  {
    x * x
  }

  lemma {:induction false} SquaresAppend(a: seq<real>, b: seq<real>)
    ensures Squares(a + b) == Squares(a) + Squares(b)
  {
    hide Sq;
    if b == [] {
      assert a + b == a;
    } else {
      SquaresAppend(a, b[..|b| - 1]);
      assert (a + b)[..|a + b| - 1] == a + b[..|b| - 1];
    }
  }

  lemma SquaresOfOne(x: real)
    ensures Squares([x]) == x * x
  {
    assert [x][..0] == [];
    assert Squares([x][..0]) == 0.0;
  }

  function Scaled(v: seq<real>, norm: real): seq<real>
    requires norm > 0.0
  {
    seq(|v|, i requires 0 <= i < |v| => v[i] / norm)
  }

  function Times(x: real, y: real): real {
    x * y
  }

  lemma QuotientSquare(x: real, norm: real)
    requires norm > 0.0
    ensures Times(Sq(x / norm), Sq(norm)) == Sq(x)
  {
    var y := x / norm;
    assert y * norm == x;
    assert (y * y) * (norm * norm) == (y * norm) * (y * norm);
  }

  lemma TimesSum(x: real, y: real, z: real)
    ensures Times(x + y, z) == Times(x, z) + Times(y, z)
  {
  }

  lemma {:induction false} ScaledSquares(v: seq<real>, norm: real)
    requires norm > 0.0
    ensures Times(Squares(Scaled(v, norm)), Sq(norm)) == Squares(v)
  {
    hide Sq;
    if v != [] {
      var n := |v| - 1;
      hide Times;
      var scaled := Scaled(v, norm);
      ScaledSquares(v[..n], norm);
      QuotientSquare(v[n], norm);
      assert scaled[..n] == Scaled(v[..n], norm);
      TimesSum(Squares(scaled[..n]), Sq(scaled[n]), Sq(norm));
    } else {
      assert Scaled(v, norm) == [];
    }
  }

  lemma UnitLength(v: seq<real>, norm: real)
    requires norm > 0.0 && Sq(norm) == Squares(v)
    ensures Squares(Scaled(v, norm)) == 1.0
  {
    hide Squares, Scaled;
    ScaledSquares(v, norm);
    ProductPositive(norm, norm);
    assert Sq(norm) == Times(norm, norm);
    OneFactor(Squares(Scaled(v, norm)), Sq(norm));
  }

  lemma ProductPositive(x: real, y: real)
    requires x > 0.0 && y > 0.0
    ensures Times(x, y) > 0.0
  {
  }

  lemma OneFactor(q: real, p: real)
    requires p > 0.0 && Times(q, p) == p
    ensures q == 1.0
  {
    assert (q - 1.0) * p == 0.0;
    assert q > 1.0 ==> (q - 1.0) * p > 0.0;
    assert q < 1.0 ==> (1.0 - q) * p > 0.0;
  }

  // ----- the loops

  /** The vector of the weights of a text. */
  function Weights(tokens: seq<Token>, ngrams: bool, dim: nat, hash: Hash): seq<real>
    requires dim > 0
  {
    seq(dim, i requires 0 <= i < dim => TextWeight(tokens, ngrams, dim, hash, i))
  }

  ghost predicate IsSum(v: seq<real>, tokens: seq<Token>, ngrams: bool, dim: nat, hash: Hash) {
    dim > 0 && |v| == dim && forall i :: 0 <= i < dim ==> v[i] == TextWeight(tokens, ngrams, dim, hash, i)
  }

  const TINY := 0.000000000001

  /** Zero when there is nothing to scale, and of length one in the direction of `v` otherwise. */
  ghost predicate IsNormalized(result: seq<real>, v: seq<real>, norm: real) {
    && |result| == |v|
    && if norm <= TINY then forall i :: 0 <= i < |result| ==> result[i] == 0.0
       else result == Scaled(v, norm) && Squares(result) == 1.0
  }

  method Normalize(vec: array<real>, sqrt: real -> real) returns (result: seq<real>)
    requires forall x :: x >= 0.0 ==> sqrt(x) >= 0.0 && Sq(sqrt(x)) == x
    ensures IsNormalized(result, vec[..], sqrt(Squares(vec[..])))
  {
    var squares := 0.0;
    for n := 0 to vec.Length
      invariant squares == Squares(vec[..n])
    {
      squares := squares + Sq(vec[n]);
      assert vec[..n + 1][..n] == vec[..n];
    }
    assert vec[..vec.Length] == vec[..];
    var norm := sqrt(squares);
    if norm <= TINY {
      return seq(vec.Length, _ => 0.0);
    }
    UnitLength(vec[..], norm);
    return Scaled(vec[..], norm);
  }

  /** The embedding of a text: its weights, normalised. */
  method Embed(tokens: seq<Token>, asked: int, ngrams: bool, hash: Hash, sqrt: real -> real) returns (result: seq<real>)
    requires forall x :: x >= 0.0 ==> sqrt(x) >= 0.0 && Sq(sqrt(x)) == x
    ensures |result| == Clamp(asked)
    ensures var v := Weights(tokens, ngrams, Clamp(asked), hash); IsNormalized(result, v, sqrt(Squares(v)))
  {
    hide FeaturesOf, Weight, TextWeight, IsNormalized, Sq, Squares;
    var dim := Clamp(asked);
    var vec := new real[dim](_ => 0.0);
    NothingAdded(vec[..], ngrams, hash);
    for n := 0 to |tokens|
      invariant IsSum(vec[..], tokens[..n], ngrams, dim, hash)
    {
      var before := vec[..];
      AddFeatures(vec, FeaturesOf(tokens[n], ngrams, dim, hash));
      OneMoreWord(before, vec[..], tokens[..n], tokens[n], ngrams, dim, hash);
      assert tokens[..n] + [tokens[n]] == tokens[..n + 1];
    }
    assert tokens[..|tokens|] == tokens;
    result := Normalize(vec, sqrt);
    NormalizedLength(result, vec[..], sqrt(Squares(vec[..])));
    assert vec[..] == Weights(tokens, ngrams, dim, hash);
  }

  lemma NormalizedLength(result: seq<real>, v: seq<real>, norm: real)
    requires IsNormalized(result, v, norm)
    ensures |result| == |v|
  {
  }

  lemma NothingAdded(v: seq<real>, ngrams: bool, hash: Hash)
    requires |v| > 0 && forall i :: 0 <= i < |v| ==> v[i] == 0.0
    ensures IsSum(v, [], ngrams, |v|, hash)
  {
  }

  lemma OneMoreWord(v: seq<real>, v': seq<real>, tokens: seq<Token>, word: Token, ngrams: bool, dim: nat, hash: Hash)
    requires IsSum(v, tokens, ngrams, dim, hash) && |v'| == dim
    requires forall i :: 0 <= i < dim ==> v'[i] == v[i] + Weight(FeaturesOf(word, ngrams, dim, hash), i)
    ensures IsSum(v', tokens + [word], ngrams, dim, hash)
  {
    hide FeaturesOf, Weight;
    assert (tokens + [word])[..|tokens|] == tokens;
  }

  /** The in-place additions for one word. */
  method AddFeatures(vec: array<real>, fs: seq<Feature>)
    requires forall j :: 0 <= j < |fs| ==> fs[j].index < vec.Length
    modifies vec
    ensures forall i :: 0 <= i < vec.Length ==> vec[i] == old(vec[i]) + Weight(fs, i)
  {
    for j := 0 to |fs|
      invariant forall i :: 0 <= i < vec.Length ==> vec[i] == old(vec[i]) + Weight(fs[..j], i)
    {
      assert fs[..j + 1][..j] == fs[..j];
      vec[fs[j].index] := vec[fs[j].index] + fs[j].weight;
    }
    assert fs[..|fs|] == fs;
  }

  /** Texts with the same words, each as often, have the same embedding. */
  lemma SameWordsSameEmbedding(s: seq<Token>, t: seq<Token>, ngrams: bool, dim: nat, hash: Hash)
    requires dim > 0 && multiset(s) == multiset(t)
    ensures Weights(s, ngrams, dim, hash) == Weights(t, ngrams, dim, hash)
  {
    hide TextWeight;
    forall i | 0 <= i < dim
      ensures TextWeight(s, ngrams, dim, hash, i) == TextWeight(t, ngrams, dim, hash, i)
    {
      OrderDoesNotMatter(s, t, ngrams, dim, hash, i);
    }
  }
}
