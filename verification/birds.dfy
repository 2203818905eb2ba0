/**
 Bird records as loaded from the table of birds, their normalised form
 (the record plus the three categorical scores), and the split of the
 flock into the male and the female group.
 */
module Birds {
  import opened Traits

  datatype Option<+T> = None | Some(value: T)
  {
    /** The value, or `d` when absent. */
    function GetOr(d: T): T
    {
      match this
      case Some(v) => v
      case None => d
    }
  }

  /** One bird, one row of the input table. The categorical traits are free
      text; weight is in grams; power and health are nominally 1 to 10. */
  datatype Bird = Bird(
    id: string,
    gender: string,
    color: string,
    head: string,
    feather: string,
    weight: real,
    power: real,
    health: real,
    imagePath: Option<string>)

  /** A bird together with the scores of its three categorical traits. */
  datatype Mapped = Mapped(bird: Bird, colorV: int, headV: int, featherV: int)

  const MaleTag: string := "male"
  const FemaleTag: string := "female"

  /** Normalises one row: the record itself is kept, the three scores are added. */
  function MapRow(b: Bird): (r: Mapped)
    ensures r.bird == b
    ensures 4 <= r.colorV <= 10 && 4 <= r.headV <= 10 && 4 <= r.featherV <= 10
    ensures r.colorV == Normalise(Color, b.color)
    ensures r.headV == Normalise(Head, b.head)
    ensures r.featherV == Normalise(Feather, b.feather)
  {
    Mapped(b, Normalise(Color, b.color), Normalise(Head, b.head), Normalise(Feather, b.feather))
  }

  /** Normalises every row, keeping the order of the table. */
  function MapAll(birds: seq<Bird>): (r: seq<Mapped>)
    ensures |r| == |birds|
    ensures forall i :: 0 <= i < |birds| ==> r[i].bird == birds[i]
    ensures forall i :: 0 <= i < |birds| ==> r[i] == MapRow(birds[i])
  {
    seq(|birds|, i requires 0 <= i < |birds| => MapRow(birds[i]))
  }

  /** Two birds whose categorical traits agree up to letter case get the same scores. */
  lemma MapRowCaseInsensitive(a: Bird, b: Bird)
    requires SameIgnoringCase(a.color, b.color)
    requires SameIgnoringCase(a.head, b.head)
    requires SameIgnoringCase(a.feather, b.feather)
    ensures MapRow(a).colorV == MapRow(b).colorV
    ensures MapRow(a).headV == MapRow(b).headV
    ensures MapRow(a).featherV == MapRow(b).featherV
  {
    NormaliseCaseInsensitive(Color, a.color, b.color);
    NormaliseCaseInsensitive(Head, a.head, b.head);
    NormaliseCaseInsensitive(Feather, a.feather, b.feather);
  }

  /** The rows whose gender column equals `tag` exactly, in table order. */
  function Group(s: seq<Mapped>, tag: string): (r: seq<Mapped>)
    ensures |r| <= |s|
    ensures forall i :: 0 <= i < |r| ==> r[i].bird.gender == tag
    ensures forall x :: multiset(r)[x] == (if x.bird.gender == tag then multiset(s)[x] else 0)
  {
    if |s| == 0 then []
    else
      var rest := Group(s[1..], tag);
      assert s == [s[0]] + s[1..];
      if s[0].bird.gender == tag then [s[0]] + rest else rest
  }

  /** The group of a normalised table holds the normalised rows of that
      gender and nothing else: every member comes from a bird of the table
      with that gender, and every such bird is in it. */
  lemma GroupOfMapAll(birds: seq<Bird>, tag: string)
    ensures forall x :: x in Group(MapAll(birds), tag) ==>
              x.bird in birds && x.bird.gender == tag && x == MapRow(x.bird)
    ensures forall i :: 0 <= i < |birds| && birds[i].gender == tag ==>
              MapRow(birds[i]) in Group(MapAll(birds), tag)
  {
    var s := MapAll(birds);
    var g := Group(s, tag);
    forall x | x in g
      ensures x.bird in birds && x.bird.gender == tag && x == MapRow(x.bird)
    {
      assert x in multiset(g);
      assert x in multiset(s);
      var k :| 0 <= k < |s| && s[k] == x;
    }
    forall i | 0 <= i < |birds| && birds[i].gender == tag
      ensures MapRow(birds[i]) in g
    {
      assert s[i] in multiset(s);
      assert s[i] in multiset(g);
    }
  }

  /** A row lands in at most one of the two groups, and the groups
      together are never larger than the table. */
  lemma {:induction false} GroupsDisjoint(s: seq<Mapped>)
    ensures multiset(Group(s, MaleTag)) !! multiset(Group(s, FemaleTag))
    ensures |Group(s, MaleTag)| + |Group(s, FemaleTag)| <= |s|
  {
    if |s| > 0 {
      GroupsDisjoint(s[1..]);
    }
  }

  /** A group of a table without that gender is empty. */
  lemma {:induction false} GroupEmpty(s: seq<Mapped>, tag: string)
    requires forall i :: 0 <= i < |s| ==> s[i].bird.gender != tag
    ensures Group(s, tag) == []
  {
    if |s| > 0 {
      GroupEmpty(s[1..], tag);
    }
  }
}
