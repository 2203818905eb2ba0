/**
 Ranking of the scored pairs by compatibility, highest first, and the
 choice of the best pair shown above the table.
 */
module Ranking {
  import opened Birds
  import opened Scoring

  /** Non-increasing in compatibility. */
  predicate SortedDesc(s: seq<Pair>)
  {
    forall i, j :: 0 <= i < j < |s| ==> s[i].compatibility >= s[j].compatibility
  }

  /** A pair no lower than the head of a ranked list can go in front of it. */
  lemma SortedCons(x: Pair, t: seq<Pair>)
    requires SortedDesc(t)
    requires |t| > 0 ==> t[0].compatibility <= x.compatibility
    ensures SortedDesc([x] + t)
  {
    var r := [x] + t;
    forall i, j | 0 <= i < j < |r|
      ensures r[i].compatibility >= r[j].compatibility
    {
      if i == 0 && j > 1 {
        assert r[j] == t[j - 1] && r[1] == t[0];
      }
    }
  }

  /** Puts `p` into the ranked list `s` ahead of the first pair that scores less. */
  function Insert(p: Pair, s: seq<Pair>): (r: seq<Pair>)
    requires SortedDesc(s)
    ensures SortedDesc(r)
    ensures multiset(r) == multiset(s) + multiset{p}
    ensures |r| > 0 && (r[0] == p || (|s| > 0 && r[0] == s[0]))
  {
    if |s| == 0 || p.compatibility >= s[0].compatibility then
      SortedCons(p, s);
      [p] + s
    else
      var tail := Insert(p, s[1..]);
      assert s == [s[0]] + s[1..];
      SortedCons(s[0], tail);
      [s[0]] + tail
  }

  /** The pairs in order of descending compatibility. Pairs with equal
      scores may come in any order. */
  function Rank(s: seq<Pair>): (r: seq<Pair>)
    ensures SortedDesc(r)
    ensures multiset(r) == multiset(s)
  {
    if |s| == 0 then []
    else
      assert s == [s[0]] + s[1..];
      Insert(s[0], Rank(s[1..]))
  }

  /** Ranking keeps every pair, so it keeps the number of pairs and every
      property that holds of each pair. */
  lemma RankKeepsPairs(s: seq<Pair>)
    ensures |Rank(s)| == |s|
    ensures forall p :: p in Rank(s) <==> p in s
  {
    var r := Rank(s);
    assert |multiset(r)| == |multiset(s)|;
    forall p
      ensures p in r <==> p in s
    {
      assert p in r <==> p in multiset(r);
      assert p in s <==> p in multiset(s);
    }
  }

  /** The pair shown as the best one: the head of the ranking, or nothing
      when there are no pairs. */
  function BestPair(pairs: seq<Pair>): (r: Option<Pair>)
    ensures r.None? <==> |pairs| == 0
    ensures r.Some? ==> r.value in pairs
    ensures r.Some? ==> forall q :: q in pairs ==> q.compatibility <= r.value.compatibility
  {
    var ranked := Rank(pairs);
    RankKeepsPairs(pairs);
    if |ranked| == 0 then None
    else
      assert forall q :: q in pairs ==> q.compatibility <= ranked[0].compatibility by {
        forall q | q in pairs
          ensures q.compatibility <= ranked[0].compatibility
        {
          var k :| 0 <= k < |ranked| && ranked[k] == q;
        }
      }
      Some(ranked[0])
  }
}
