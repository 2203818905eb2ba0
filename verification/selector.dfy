/**
 The whole scoring pass of the breeding selector: normalise every bird,
 split the flock by gender, score every male against every female and
 rank the pairs, best first.
 */
module Selector {
  import opened Birds
  import opened Scoring
  import opened Pairing
  import opened Ranking

  /** What the scoring pass takes from the sidebar: the target weight,
      which rescales weight differences, and the six trait weights. */
  datatype Config = Config(weightTarget: real, weights: Weights)

  /** The normalised rows whose gender is exactly "male", in table order. */
  function Males(birds: seq<Bird>): (r: seq<Mapped>)
    ensures forall x :: x in r ==> x.bird in birds && x.bird.gender == MaleTag && x == MapRow(x.bird)
    ensures forall i :: 0 <= i < |birds| && birds[i].gender == MaleTag ==> MapRow(birds[i]) in r
    ensures forall x :: multiset(r)[x] == (if x.bird.gender == MaleTag then multiset(MapAll(birds))[x] else 0)
  {
    GroupOfMapAll(birds, MaleTag);
    Group(MapAll(birds), MaleTag)
  }

  /** The normalised rows whose gender is exactly "female", in table order. */
  function Females(birds: seq<Bird>): (r: seq<Mapped>)
    ensures forall x :: x in r ==> x.bird in birds && x.bird.gender == FemaleTag && x == MapRow(x.bird)
    ensures forall i :: 0 <= i < |birds| && birds[i].gender == FemaleTag ==> MapRow(birds[i]) in r
    ensures forall x :: multiset(r)[x] == (if x.bird.gender == FemaleTag then multiset(MapAll(birds))[x] else 0)
  {
    GroupOfMapAll(birds, FemaleTag);
    Group(MapAll(birds), FemaleTag)
  }

  /** The gender split keeps duplicate rows: a male row listed twice is two males. */
  lemma DuplicateRowsKept(b: Bird)
    requires b.gender == MaleTag
    ensures |Males([b, b])| == 2
  {
    var s := MapAll([b, b]);
    assert s == [MapRow(b), MapRow(b)];
    assert multiset(s)[MapRow(b)] == 2;
    assert multiset(Males([b, b]))[MapRow(b)] == 2;
  }

  /** All male × female pairs of the flock. */
  function Pairs(birds: seq<Bird>, cfg: Config): (r: seq<Pair>)
    ensures |r| == |Males(birds)| * |Females(birds)|
  {
    AllPairs(Males(birds), Females(birds), cfg.weightTarget, cfg.weights)
  }

  /** What the script's ranking step ends with: the ranked table, or a stop
      because the frame built from an empty pair list has no compatibility
      column to sort by. */
  datatype Outcome = Ranked(rows: seq<Pair>) | MissingSortColumn

  /** The ranking step as the script performs it. An empty pair list makes
      a frame without columns, and sorting it by compatibility fails, so the
      script stops before the table and the best-pair guard. */
  function SelectAsWritten(birds: seq<Bird>, cfg: Config): (r: Outcome)
    ensures r.MissingSortColumn? <==> |Males(birds)| == 0 || |Females(birds)| == 0
    ensures r.Ranked? ==> SortedDesc(r.rows) && multiset(r.rows) == multiset(Pairs(birds, cfg))
  {
    var pairs := Pairs(birds, cfg);
    NoPairsWithoutBothSexes(Males(birds), Females(birds), cfg.weightTarget, cfg.weights);
    if |pairs| == 0 then MissingSortColumn else Ranked(Rank(pairs))
  }

  /** The result table: every pair, ranked by compatibility. Unlike the
      script, a flock without males or without females gives an empty table
      rather than a failed sort. */
  function Select(birds: seq<Bird>, cfg: Config): (r: seq<Pair>)
    ensures SortedDesc(r)
    ensures multiset(r) == multiset(Pairs(birds, cfg))
    ensures |r| == |Males(birds)| * |Females(birds)|
    ensures NonNegative(cfg.weights) ==>
              forall p :: p in r ==> 0.0 <= p.compatibility <= 100.0
  {
    var pairs := Pairs(birds, cfg);
    RankKeepsPairs(pairs);
    AllPairsBounded(Males(birds), Females(birds), cfg.weightTarget, cfg.weights);
    Rank(pairs)
  }

  /** Every ranked pair joins a male of the flock with a female of the flock,
      and carries their identifiers and image paths. */
  lemma SelectPairsMaleWithFemale(birds: seq<Bird>, cfg: Config, p: Pair)
    requires p in Select(birds, cfg)
    ensures exists m, f :: m in birds && f in birds &&
              m.gender == MaleTag && f.gender == FemaleTag &&
              p == ScorePair(MapRow(m), MapRow(f), cfg.weightTarget, cfg.weights) &&
              p.maleId == m.id && p.femaleId == f.id &&
              p.maleImg == ImageOf(m) && p.femaleImg == ImageOf(f)
  {
    var males, females := Males(birds), Females(birds);
    RankKeepsPairs(Pairs(birds, cfg));
    AllPairsMember(males, females, cfg.weightTarget, cfg.weights, p);
    var i, j :| 0 <= i < |males| && 0 <= j < |females| &&
                p == ScorePair(males[i], females[j], cfg.weightTarget, cfg.weights);
    assert males[i] in males && females[j] in females;
    var m, f := males[i].bird, females[j].bird;
    assert p == ScorePair(MapRow(m), MapRow(f), cfg.weightTarget, cfg.weights);
  }

  /** With the empty case handled, a flock without males or without females
      gives an empty table and no best pair, which is what the script's
      best-pair guard expects. */
  lemma NoPairsNoBest(birds: seq<Bird>, cfg: Config)
    requires |Males(birds)| == 0 || |Females(birds)| == 0
    ensures Select(birds, cfg) == []
    ensures BestPair(Pairs(birds, cfg)) == None
  {
  }

  /** Where the two differ: whenever there is a pair, the script's ranking is
      the corrected one. */
  lemma SelectAgreesWhenPairsExist(birds: seq<Bird>, cfg: Config)
    requires |Males(birds)| > 0 && |Females(birds)| > 0
    ensures SelectAsWritten(birds, cfg) == Ranked(Select(birds, cfg))
  {
  }

  /** A flock of a single male: the script stops at the sort, while the
      corrected ranking gives an empty table and no best pair. */
  lemma SingleMaleStopsAtSort()
    ensures
      var birds := [Bird("M1", MaleTag, "white", "long", "smooth", 400.0, 9.0, 9.0, None)];
      var cfg := Config(400.0, DefaultWeights);
      && SelectAsWritten(birds, cfg) == MissingSortColumn
      && Select(birds, cfg) == []
      && BestPair(Pairs(birds, cfg)) == None
  {
    var b := Bird("M1", MaleTag, "white", "long", "smooth", 400.0, 9.0, 9.0, None);
    var s := MapAll([b]);
    assert s == [MapRow(b)];
    assert s[1..] == [];
    assert Females([b]) == [];
  }

  /** A flock of one male and one female splits into those two. */
  lemma OneMaleOneFemale(m: Bird, f: Bird)
    requires m.gender == MaleTag && f.gender == FemaleTag
    ensures Males([m, f]) == [MapRow(m)]
    ensures Females([m, f]) == [MapRow(f)]
  {
    var s := MapAll([m, f]);
    assert s == [MapRow(m)] + [MapRow(f)];
    assert s[1..] == [MapRow(f)];
    assert s[1..][1..] == [];
  }

  /** A male and a female that agree on every scored trait give a single
      pair, carrying their identifiers, of compatibility 100. */
  lemma MatchingPairSelect(m: Bird, f: Bird, cfg: Config)
    requires m.gender == MaleTag && f.gender == FemaleTag
    requires SameTraits(MapRow(m), MapRow(f))
    ensures var r := Select([m, f], cfg);
      |r| == 1 && r[0].maleId == m.id && r[0].femaleId == f.id && r[0].compatibility == 100.0
  {
    OneMaleOneFemale(m, f);
    var p := ScorePair(MapRow(m), MapRow(f), cfg.weightTarget, cfg.weights);
    SelfCompatibility(MapRow(m), MapRow(f), cfg.weightTarget, cfg.weights);
    AllPairsAt([MapRow(m)], [MapRow(f)], cfg.weightTarget, cfg.weights, 0, 0);
    var pairs := Pairs([m, f], cfg);
    assert |pairs| == 1 && pairs[0] == p;
    assert pairs == [p];
    assert Rank([p]) == [p];
  }

  /** Two birds alike in every trait, one male and one female, give a
      single pair of compatibility 100, whatever the weights. */
  lemma IdenticalBirdsExample(w: Weights)
    ensures
      var m := Bird("M1", MaleTag, "white", "long", "smooth", 400.0, 9.0, 9.0, None);
      var f := Bird("F1", FemaleTag, "white", "long", "smooth", 400.0, 9.0, 9.0, None);
      var r := Select([m, f], Config(400.0, w));
      |r| == 1 && r[0].maleId == "M1" && r[0].femaleId == "F1" && r[0].compatibility == 100.0
  {
    var m := Bird("M1", MaleTag, "white", "long", "smooth", 400.0, 9.0, 9.0, None);
    var f := Bird("F1", FemaleTag, "white", "long", "smooth", 400.0, 9.0, 9.0, None);
    MatchingPairSelect(m, f, Config(400.0, w));
  }
}
