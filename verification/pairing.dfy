/**
 The male × female double loop: every male is scored against every
 female, males in the outer loop, females in the inner one.
 */
module Pairing {
  import opened Birds
  import opened Scoring

  /** The inner loop: `f` of one `x` with every element of `ys`, in order. */
  function Row<A, B, C>(x: A, ys: seq<B>, f: (A, B) -> C): (r: seq<C>)
    ensures |r| == |ys|
    ensures forall j :: 0 <= j < |ys| ==> r[j] == f(x, ys[j])
  {
    seq(|ys|, j requires 0 <= j < |ys| => f(x, ys[j]))
  }

  lemma MulGrows(a: int, b: int, n: int)
    requires a <= b && n >= 0
    ensures a * n <= b * n
  {
    assert b * n - a * n == (b - a) * n;
  }

  lemma DivMod(k: int, n: int)
    requires 0 <= k && 0 < n
    ensures k == (k / n) * n + k % n
    ensures 0 <= k / n && 0 <= k % n < n
  {
  }

  /** An index below m * n splits into a row below m and a column below n. */
  lemma DivBelow(k: int, m: int, n: int)
    requires 0 <= k < m * n && 0 <= m && 0 <= n
    ensures 0 < n
    ensures k == (k / n) * n + k % n
    ensures 0 <= k / n < m && 0 <= k % n < n
  {
    if n > 0 {
      DivMod(k, n);
      if k / n >= m {
        MulGrows(m, k / n, n);
      }
    }
  }

  /** Both loops: one row per element of `xs`, rows in the order of `xs`. */
  function Product<A, B, C>(xs: seq<A>, ys: seq<B>, f: (A, B) -> C): (r: seq<C>)
    ensures |r| == |xs| * |ys|
  {
    if |xs| == 0 then []
    else
      assert |xs| * |ys| == |ys| + (|xs| - 1) * |ys|;
      Row(xs[0], ys, f) + Product(xs[1..], ys, f)
  }

  /** The i-th outer element with the j-th inner one sits at position i * |ys| + j. */
  lemma {:induction false} ProductAt<A, B, C>(xs: seq<A>, ys: seq<B>, f: (A, B) -> C, i: int, j: int)
    requires 0 <= i < |xs| && 0 <= j < |ys|
    ensures 0 <= i * |ys| + j < |Product(xs, ys, f)|
    ensures Product(xs, ys, f)[i * |ys| + j] == f(xs[i], ys[j])
  {
    var n := |ys|;
    var row := Row(xs[0], ys, f);
    var rest := Product(xs[1..], ys, f);
    assert Product(xs, ys, f) == row + rest;
    MulGrows(0, i, n);
    MulGrows(i + 1, |xs|, n);
    assert (i + 1) * n == i * n + n;
    if i > 0 {
      ProductAt(xs[1..], ys, f, i - 1, j);
      assert i * n + j == n + ((i - 1) * n + j);
      assert xs[1..][i - 1] == xs[i];
    }
  }

  /** Conversely, position k holds outer element k / |ys| with inner element k % |ys|. */
  lemma ProductMember<A, B, C>(xs: seq<A>, ys: seq<B>, f: (A, B) -> C, k: int)
    requires 0 <= k < |Product(xs, ys, f)|
    ensures |ys| > 0
    ensures 0 <= k / |ys| < |xs| && 0 <= k % |ys| < |ys|
    ensures Product(xs, ys, f)[k] == f(xs[k / |ys|], ys[k % |ys|])
  {
    DivBelow(k, |xs|, |ys|);
    ProductAt(xs, ys, f, k / |ys|, k % |ys|);
  }

  /** Scores every male against every female. */
  function AllPairs(males: seq<Mapped>, females: seq<Mapped>, weightTarget: real, w: Weights): (r: seq<Pair>)
    ensures |r| == |males| * |females|
  {
    Product(males, females, (m, f) => ScorePair(m, f, weightTarget, w))
  }

  /** The pair of the i-th male and the j-th female sits at position i * |females| + j. */
  lemma AllPairsAt(males: seq<Mapped>, females: seq<Mapped>, weightTarget: real, w: Weights, i: int, j: int)
    requires 0 <= i < |males| && 0 <= j < |females|
    ensures 0 <= i * |females| + j < |AllPairs(males, females, weightTarget, w)|
    ensures AllPairs(males, females, weightTarget, w)[i * |females| + j] ==
            ScorePair(males[i], females[j], weightTarget, w)
  {
    ProductAt(males, females, (m, f) => ScorePair(m, f, weightTarget, w), i, j);
  }

  /** Every pair in the result is the score of some male with some female. */
  lemma AllPairsMember(males: seq<Mapped>, females: seq<Mapped>, weightTarget: real, w: Weights, p: Pair)
    requires p in AllPairs(males, females, weightTarget, w)
    ensures exists i, j :: 0 <= i < |males| && 0 <= j < |females| &&
              p == ScorePair(males[i], females[j], weightTarget, w)
  {
    var r := AllPairs(males, females, weightTarget, w);
    var k :| 0 <= k < |r| && r[k] == p;
    ProductMember(males, females, (m, f) => ScorePair(m, f, weightTarget, w), k);
  }

  /** No male or no female means no pair at all. */
  lemma NoPairsWithoutBothSexes(males: seq<Mapped>, females: seq<Mapped>, weightTarget: real, w: Weights)
    ensures AllPairs(males, females, weightTarget, w) == [] <==> |males| == 0 || |females| == 0
  {
    if |males| > 0 && |females| > 0 {
      AllPairsAt(males, females, weightTarget, w, 0, 0);
    }
  }

  /** With non-negative weights every generated score lies in [0, 100]. */
  lemma AllPairsBounded(males: seq<Mapped>, females: seq<Mapped>, weightTarget: real, w: Weights)
    ensures NonNegative(w) ==>
              forall p :: p in AllPairs(males, females, weightTarget, w) ==> 0.0 <= p.compatibility <= 100.0
  {
    if NonNegative(w) {
      forall p | p in AllPairs(males, females, weightTarget, w)
        ensures 0.0 <= p.compatibility <= 100.0
      {
        AllPairsMember(males, females, weightTarget, w, p);
      }
    }
  }
}
