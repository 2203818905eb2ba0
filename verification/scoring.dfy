/**
 Pairwise scorer: the six per-trait differences of a male and a female,
 their weighted sum, and the compatibility score derived from it.
 */
module Scoring {
  import opened Rounding
  import opened Birds

  /** Caller-supplied importance of each trait. The sidebar offers values
      between 0 and 1 and does not ask them to sum to anything. */
  datatype Weights = Weights(color: real, weight: real, head: real, feather: real, power: real, health: real)

  predicate NonNegative(w: Weights)
  {
    w.color >= 0.0 && w.weight >= 0.0 && w.head >= 0.0 &&
    w.feather >= 0.0 && w.power >= 0.0 && w.health >= 0.0
  }

  /** The weights the sidebar starts with. */
  const DefaultWeights: Weights := Weights(0.3, 0.2, 0.1, 0.1, 0.2, 0.1)

  /** The six per-trait differences of a pair; the weight difference is
      already rescaled by the target weight. */
  datatype Diffs = Diffs(color: real, head: real, feather: real, weight: real, power: real, health: real)

  predicate DiffsNonNegative(d: Diffs)
  {
    d.color >= 0.0 && d.head >= 0.0 && d.feather >= 0.0 &&
    d.weight >= 0.0 && d.power >= 0.0 && d.health >= 0.0
  }

  predicate AllZero(d: Diffs)
  {
    d == Diffs(0.0, 0.0, 0.0, 0.0, 0.0, 0.0)
  }

  /** Every difference of `d` is at most the corresponding one of `e`. */
  predicate DiffsLe(d: Diffs, e: Diffs)
  {
    d.color <= e.color && d.head <= e.head && d.feather <= e.feather &&
    d.weight <= e.weight && d.power <= e.power && d.health <= e.health
  }

  /** The divisor that rescales a weight difference; at least 1, so any
      target weight, zero and negative included, is usable. */
  function WeightScale(weightTarget: real): (r: real)
    ensures r >= 1.0
    ensures weightTarget >= 1.0 ==> r == weightTarget
    ensures weightTarget < 1.0 ==> r == 1.0
  {
    Max(1.0, weightTarget)
  }

  /** `m` carries the scores its own categorical traits normalise to. */
  predicate IsNormalised(m: Mapped)
  {
    m == MapRow(m.bird)
  }

  function TraitDiffs(m: Mapped, f: Mapped, weightTarget: real): (d: Diffs)
    ensures DiffsNonNegative(d)
    ensures IsNormalised(m) && IsNormalised(f) ==>
              d.color <= 6.0 && d.head <= 6.0 && d.feather <= 6.0
    ensures d.weight * WeightScale(weightTarget) == 10.0 * Abs(m.bird.weight - f.bird.weight)
  {
    Diffs(
      Abs((m.colorV - f.colorV) as real),
      Abs((m.headV - f.headV) as real),
      Abs((m.featherV - f.featherV) as real),
      Abs(m.bird.weight - f.bird.weight) / WeightScale(weightTarget) * 10.0,
      Abs(m.bird.power - f.bird.power),
      Abs(m.bird.health - f.bird.health))
  }

  function WeightedSum(d: Diffs, w: Weights): (s: real)
    ensures NonNegative(w) && DiffsNonNegative(d) ==> s >= 0.0
    ensures AllZero(d) ==> s == 0.0
  {
    d.color * w.color + d.head * w.head + d.feather * w.feather +
    d.weight * w.weight + d.power * w.power + d.health * w.health
  }

  /** The compatibility score for weighted sum `s`: 100 - s rounded to two
      decimals, never below 0. */
  function Compatibility(s: real): (c: real)
    ensures c >= 0.0
    ensures s >= 0.0 ==> c <= 100.0
    ensures s == 0.0 ==> c == 100.0
    ensures c > 0.0 ==> Abs(c - (100.0 - s)) <= 0.005
    ensures 100.0 - s > 0.005 ==> c > 0.0
  {
    Round2Int(100);
    Round2Monotone(100.0 - Max(s, 0.0), 100.0);
    Max(0.0, Round2(100.0 - s))
  }

  /** One row of the result table. */
  datatype Pair = Pair(
    maleId: string,
    femaleId: string,
    compatibility: real,
    diffColor: real,
    diffHead: real,
    diffFeather: real,
    diffWeight: real,
    diffPower: real,
    diffHealth: real,
    maleImg: string,
    femaleImg: string)

  /** The image path of a bird, the empty string when it has none. */
  function ImageOf(b: Bird): (r: string)
    ensures b.imagePath.Some? ==> r == b.imagePath.value
    ensures b.imagePath.None? ==> r == ""
  {
    b.imagePath.GetOr("")
  }

  /** Scores the pair of male `m` and female `f`. */
  function ScorePair(m: Mapped, f: Mapped, weightTarget: real, w: Weights): (p: Pair)
    ensures p.maleId == m.bird.id && p.femaleId == f.bird.id
    ensures p.maleImg == ImageOf(m.bird) && p.femaleImg == ImageOf(f.bird)
    ensures NonNegative(w) ==> 0.0 <= p.compatibility <= 100.0
    ensures p.compatibility >= 0.0
    ensures p.diffColor >= 0.0 && p.diffHead >= 0.0 && p.diffFeather >= 0.0
    ensures p.diffWeight >= 0.0 && p.diffPower >= 0.0 && p.diffHealth >= 0.0
    ensures Abs(p.diffWeight - TraitDiffs(m, f, weightTarget).weight) <= 0.005
    ensures var d := TraitDiffs(m, f, weightTarget);
      && p.diffColor == d.color && p.diffHead == d.head && p.diffFeather == d.feather
      && p.diffPower == d.power && p.diffHealth == d.health
      && p.diffWeight == Round2(d.weight)
      && p.compatibility == Compatibility(WeightedSum(d, w))
  {
    var d := TraitDiffs(m, f, weightTarget);
    var c := Compatibility(WeightedSum(d, w));
    Round2Int(0);
    Round2Monotone(0.0, d.weight);
    Pair(m.bird.id, f.bird.id, c,
         d.color, d.head, d.feather, Round2(d.weight), d.power, d.health,
         ImageOf(m.bird), ImageOf(f.bird))
  }

  /** The two birds agree on every trait that enters the score. */
  predicate SameTraits(m: Mapped, f: Mapped)
  {
    m.colorV == f.colorV && m.headV == f.headV && m.featherV == f.featherV &&
    m.bird.weight == f.bird.weight && m.bird.power == f.bird.power && m.bird.health == f.bird.health
  }

  /** All six differences vanish exactly when the birds agree on every scored trait. */
  lemma DiffsZeroIff(m: Mapped, f: Mapped, weightTarget: real)
    ensures AllZero(TraitDiffs(m, f, weightTarget)) <==> SameTraits(m, f)
  {
    var d := TraitDiffs(m, f, weightTarget);
    if d.weight == 0.0 {
      assert 10.0 * Abs(m.bird.weight - f.bird.weight) == 0.0;
    }
  }

  /** Differences do not depend on which bird is the male. */
  lemma DiffsSymmetric(m: Mapped, f: Mapped, weightTarget: real)
    ensures TraitDiffs(m, f, weightTarget) == TraitDiffs(f, m, weightTarget)
  {
  }

  /** Birds alike in every scored trait are fully compatible, whatever the weights. */
  lemma SelfCompatibility(m: Mapped, f: Mapped, weightTarget: real, w: Weights)
    requires SameTraits(m, f)
    ensures ScorePair(m, f, weightTarget, w).compatibility == 100.0
    ensures ScorePair(m, f, weightTarget, w).diffWeight == 0.0
  {
    DiffsZeroIff(m, f, weightTarget);
    Round2Int(0);
  }

  /** The compatibility score never rises as the weighted sum grows. */
  lemma CompatibilityAntitone(s: real, t: real)
    requires s <= t
    ensures Compatibility(t) <= Compatibility(s)
  {
    Round2Monotone(100.0 - t, 100.0 - s);
  }

  lemma MulMonotone(a: real, b: real, w: real)
    requires a <= b && w >= 0.0
    ensures a * w <= b * w
  {
    assert b * w - a * w == (b - a) * w;
  }

  /** With non-negative weights the weighted sum grows with every difference. */
  lemma WeightedSumMonotone(d: Diffs, e: Diffs, w: Weights)
    requires NonNegative(w) && DiffsLe(d, e)
    ensures WeightedSum(d, w) <= WeightedSum(e, w)
  {
    calc {
      WeightedSum(d, w);
    ==
      d.color * w.color + d.head * w.head + d.feather * w.feather +
      d.weight * w.weight + d.power * w.power + d.health * w.health;
    <= { MulMonotone(d.color, e.color, w.color); }
      e.color * w.color + d.head * w.head + d.feather * w.feather +
      d.weight * w.weight + d.power * w.power + d.health * w.health;
    <= { MulMonotone(d.head, e.head, w.head); }
      e.color * w.color + e.head * w.head + d.feather * w.feather +
      d.weight * w.weight + d.power * w.power + d.health * w.health;
    <= { MulMonotone(d.feather, e.feather, w.feather); }
      e.color * w.color + e.head * w.head + e.feather * w.feather +
      d.weight * w.weight + d.power * w.power + d.health * w.health;
    <= { MulMonotone(d.weight, e.weight, w.weight); }
      e.color * w.color + e.head * w.head + e.feather * w.feather +
      e.weight * w.weight + d.power * w.power + d.health * w.health;
    <= { MulMonotone(d.power, e.power, w.power); }
      e.color * w.color + e.head * w.head + e.feather * w.feather +
      e.weight * w.weight + e.power * w.power + d.health * w.health;
    <= { MulMonotone(d.health, e.health, w.health); }
      e.color * w.color + e.head * w.head + e.feather * w.feather +
      e.weight * w.weight + e.power * w.power + e.health * w.health;
    ==
      WeightedSum(e, w);
    }
  }

  /** Raising any difference whose weight is non-negative never raises the
      compatibility score. */
  lemma LargerDiffsNeverScoreHigher(d: Diffs, e: Diffs, w: Weights)
    requires NonNegative(w) && DiffsLe(d, e)
    ensures Compatibility(WeightedSum(e, w)) <= Compatibility(WeightedSum(d, w))
  {
    WeightedSumMonotone(d, e, w);
    CompatibilityAntitone(WeightedSum(d, w), WeightedSum(e, w));
  }

  /** The same statement for two scored pairs: with non-negative weights,
      a pair whose differences are all at least those of another pair never
      scores higher than it. */
  lemma PairWithLargerDiffsNeverScoresHigher(
    m: Mapped, f: Mapped, m2: Mapped, f2: Mapped, weightTarget: real, w: Weights)
    requires NonNegative(w)
    requires DiffsLe(TraitDiffs(m, f, weightTarget), TraitDiffs(m2, f2, weightTarget))
    ensures ScorePair(m2, f2, weightTarget, w).compatibility <= ScorePair(m, f, weightTarget, w).compatibility
  {
    LargerDiffsNeverScoreHigher(TraitDiffs(m, f, weightTarget), TraitDiffs(m2, f2, weightTarget), w);
  }

  /** A white male against a black female, power and health 9 against 5,
      everything else equal, both with image paths, under the default
      weights: the weighted sum is 2.4 and the compatibility 97.6. */
  lemma WorkedExample()
    ensures
      var m := MapRow(Bird("M1", MaleTag, "white", "long", "smooth", 400.0, 9.0, 9.0, Some("m1.png")));
      var f := MapRow(Bird("F1", FemaleTag, "black", "long", "smooth", 400.0, 5.0, 5.0, Some("f1.png")));
      && WeightedSum(TraitDiffs(m, f, 400.0), DefaultWeights) == 2.4
      && ScorePair(m, f, 400.0, DefaultWeights) ==
         Pair("M1", "F1", 97.6, 4.0, 0.0, 0.0, 0.0, 4.0, 4.0, "m1.png", "f1.png")
  {
    var m := MapRow(Bird("M1", MaleTag, "white", "long", "smooth", 400.0, 9.0, 9.0, Some("m1.png")));
    var f := MapRow(Bird("F1", FemaleTag, "black", "long", "smooth", 400.0, 5.0, 5.0, Some("f1.png")));
    assert Traits.Lower("white") == "white";
    assert Traits.Lower("black") == "black";
    assert Traits.Lower("long") == "long";
    assert Traits.Lower("smooth") == "smooth";
    assert m.colorV == 10 && f.colorV == 6;
    assert m.headV == f.headV && m.featherV == f.featherV;
    var d := TraitDiffs(m, f, 400.0);
    assert d == Diffs(4.0, 0.0, 0.0, 0.0, 4.0, 4.0);
    assert WeightedSum(d, DefaultWeights) == 2.4;
    Round2Hundredths(9760);
    assert Compatibility(2.4) == 97.6;
    Round2Int(0);
  }
}
