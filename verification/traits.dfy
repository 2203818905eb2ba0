/**
 Categorical trait normaliser of the pigeon breeding selector.

 Each bird carries three free-form categorical traits (colour, head shape,
 feather pattern). A trait value is lower-cased and looked up in a fixed
 per-trait table; a value the table does not know scores the default 7,
 so normalisation is total and never fails.
 */
module Traits {

  /** The three categorical traits that have a lookup table. */
  datatype Trait = Color | Head | Feather

  /** Score given to any value the trait's table does not list. */
  const DefaultScore: int := 7

  const ColorTable: map<string, int> :=
    map["white" := 10, "gray" := 8, "black" := 6, "brown" := 7]
  const HeadTable: map<string, int> :=
    map["long" := 10, "medium" := 7, "short" := 5]
  const FeatherTable: map<string, int> :=
    map["smooth" := 10, "medium" := 7, "rough" := 4]

  function Table(t: Trait): map<string, int>
  {
    match t
    case Color => ColorTable
    case Head => HeadTable
    case Feather => FeatherTable
  }

  predicate IsAsciiUpper(c: char)
  {
    'A' <= c <= 'Z'
  }

  /** KELVIN SIGN, the one character outside ASCII whose lower case is an ASCII letter. */
  const KelvinSign: char := '\U{212A}'

  /** Lower case of one character, as far as it can matter for a table key:
      ASCII capitals and the Kelvin sign map to ASCII small letters, every
      other character is left alone. */
  function LowerChar(c: char): (r: char)
    ensures !IsAsciiUpper(r) && r != KelvinSign
    ensures r != c ==> IsAsciiUpper(c) || c == KelvinSign
    ensures IsAsciiUpper(c) ==> r as int - c as int == 'a' as int - 'A' as int
    ensures c == KelvinSign ==> r == 'k'
  {
    if IsAsciiUpper(c) then (c as int - 'A' as int + 'a' as int) as char
    else if c == KelvinSign then 'k'
    else c
  }

  /** Lower-cases a whole string, character by character. */
  function Lower(s: string): (r: string)
    ensures |r| == |s|
    ensures forall i :: 0 <= i < |s| ==> r[i] == LowerChar(s[i])
  {
    seq(|s|, i requires 0 <= i < |s| => LowerChar(s[i]))
  }

  /** Lower-casing twice is lower-casing once. */
  lemma LowerIdempotent(s: string)
    ensures Lower(Lower(s)) == Lower(s)
  {
  }

  /** Two strings that agree up to letter case. */
  predicate SameIgnoringCase(a: string, b: string)
  {
    |a| == |b| && forall i :: 0 <= i < |a| ==> LowerChar(a[i]) == LowerChar(b[i])
  }

  lemma SameIgnoringCaseLower(a: string, b: string)
    ensures SameIgnoringCase(a, b) <==> Lower(a) == Lower(b)
  {
    if Lower(a) == Lower(b) {
      assert |a| == |Lower(a)|;
      forall i | 0 <= i < |a|
        ensures LowerChar(a[i]) == LowerChar(b[i])
      {
        assert Lower(a)[i] == Lower(b)[i];
      }
    }
  }

  /** Table lookup with the default for unknown keys. */
  function Lookup(table: map<string, int>, key: string): (r: int)
    ensures key in table ==> r == table[key]
    ensures key !in table ==> r == DefaultScore
    ensures r == DefaultScore || r in table.Values
  {
    if key in table then table[key] else DefaultScore
  }

  /** The normalised score of a raw categorical value for trait `t`. */
  function Normalise(t: Trait, raw: string): (r: int)
    ensures 4 <= r <= 10
    ensures Lower(raw) !in Table(t) ==> r == DefaultScore
  {
    Lookup(Table(t), Lower(raw))
  }

  /** Normalisation ignores letter case: a value and its lower-cased form
      score alike, and so do any two values that agree up to case. */
  lemma NormaliseCaseInsensitive(t: Trait, a: string, b: string)
    requires SameIgnoringCase(a, b)
    ensures Normalise(t, a) == Normalise(t, b)
    ensures Normalise(t, a) == Normalise(t, Lower(a))
  {
    SameIgnoringCaseLower(a, b);
    LowerIdempotent(a);
  }

  /** The colour table, read back as a statement about each score. */
  lemma ColorScores(raw: string)
    ensures Normalise(Color, raw) == 10 <==> Lower(raw) == "white"
    ensures Normalise(Color, raw) == 8 <==> Lower(raw) == "gray"
    ensures Normalise(Color, raw) == 6 <==> Lower(raw) == "black"
    ensures Normalise(Color, raw) == 7 <==> Lower(raw) !in {"white", "gray", "black"}
    ensures Normalise(Color, raw) in {10, 8, 6, 7}
  {
  }

  lemma HeadScores(raw: string)
    ensures Normalise(Head, raw) == 10 <==> Lower(raw) == "long"
    ensures Normalise(Head, raw) == 5 <==> Lower(raw) == "short"
    ensures Normalise(Head, raw) == 7 <==> Lower(raw) !in {"long", "short"}
    ensures Normalise(Head, raw) in {10, 7, 5}
  {
  }

  lemma FeatherScores(raw: string)
    ensures Normalise(Feather, raw) == 10 <==> Lower(raw) == "smooth"
    ensures Normalise(Feather, raw) == 4 <==> Lower(raw) == "rough"
    ensures Normalise(Feather, raw) == 7 <==> Lower(raw) !in {"smooth", "rough"}
    ensures Normalise(Feather, raw) in {10, 7, 4}
  {
  }

  /** A capitalised colour scores as its lower-case form; an unknown colour scores 7. */
  lemma NormaliseExamples()
    ensures Normalise(Color, "White") == 10
    ensures Normalise(Color, "BLACK") == 6
    ensures Normalise(Color, "blue") == 7
    ensures Normalise(Head, "Medium") == 7
    ensures Normalise(Feather, "Rough") == 4
  {
    assert Lower("White") == "white";
    assert Lower("BLACK") == "black";
    assert Lower("blue") == "blue";
    assert Lower("Medium") == "medium";
    assert Lower("Rough") == "rough";
  }
}
