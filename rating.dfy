/**
 * The rating scales (src/types/Rating.ts): for each scale type the ordered
 * list of options an expert can choose from, lowest first, each with a
 * display label and the value sent to the server.
 */
module Rating {
  import opened Wrappers
  import opened Text
  import opened Seqs
  import opened QuestionTypes

  datatype RatingOption = RatingOption(labelText: string, value: string)

  /** `ratingOptionsByScale`: the option table of each scale type. */
  function Options(scale: ScaleType): (r: seq<RatingOption>)
    ensures |r| == Cardinality(scale)
  {
    match scale
    case Base => [
      RatingOption("очень низко", "ОН"),
      RatingOption("низко", "Н"),
      RatingOption("средне", "С"),
      RatingOption("высоко", "В"),
      RatingOption("очень высоко", "ОВ")]
    case Short => [
      RatingOption("низко", "Н"),
      RatingOption("средне", "С"),
      RatingOption("высоко", "В")]
    case Long => [
      RatingOption("экстремально низко", "ЭН"),
      RatingOption("очень низко", "ОН"),
      RatingOption("низко", "Н"),
      RatingOption("средне", "С"),
      RatingOption("высоко", "В"),
      RatingOption("очень высоко", "ОВ"),
      RatingOption("экстремально высоко", "ЭВ")]
    case Numeric => seq(10, i requires 0 <= i < 10 => RatingOption(NatToDecimal(i + 1), NatToDecimal(i + 1)))
  }

  /** How many options each scale offers. */
  function Cardinality(scale: ScaleType): nat {
    match scale
    case Base => 5
    case Short => 3
    case Long => 7
    case Numeric => 10
  }

  /** The values of a scale's options, in order. */
  function Values(scale: ScaleType): (r: seq<string>)
    ensures |r| == Cardinality(scale)
    ensures forall k :: 0 <= k < |r| ==> r[k] == Options(scale)[k].value
  {
    var opts := Options(scale);
    seq(|opts|, k requires 0 <= k < |opts| => opts[k].value)
  }

  predicate IsVerbal(scale: ScaleType) {
    scale != Numeric
  }

  /** How many options a verbal scale drops at each end of the long scale. */
  function Margin(scale: ScaleType): nat
    requires IsVerbal(scale)
  {
    match scale
    case Long => 0
    case Base => 1
    case Short => 2
  }

  /** The numeric scale is "1" to "10": option `i` has label and value the decimal
      form of `i + 1`, so the options ascend and "0" is not one of them. */
  lemma NumericOptions()
    ensures Values(Numeric) == ["1", "2", "3", "4", "5", "6", "7", "8", "9", "10"]
    ensures forall i :: 0 <= i < 10 ==> Options(Numeric)[i].labelText == Options(Numeric)[i].value
    ensures forall i :: 0 <= i < 10 ==> ParseDecimal(Options(Numeric)[i].value) == i + 1
    ensures "0" !in Values(Numeric)
  {
    var expected := ["1", "2", "3", "4", "5", "6", "7", "8", "9", "10"];
    forall k | 0 <= k < 10 ensures Values(Numeric)[k] == expected[k] {
      if k < 9 {
        assert NatToDecimal(k + 1) == [DigitChar(k + 1)];
      } else {
        assert NatToDecimal(10) == NatToDecimal(1) + [DigitChar(0)];
      }
    }
    forall i | 0 <= i < 10 ensures ParseDecimal(Options(Numeric)[i].value) == i + 1 {
      DecimalRoundTrip(i + 1);
    }
  }

  /** Each verbal scale is the long scale with the same number of options cut off
      at both ends: Base drops ЭН and ЭВ, Short drops ОН and ОВ as well. */
  lemma VerbalScalesAreCentredWindows(scale: ScaleType)
    requires IsVerbal(scale)
    ensures Options(scale) == Options(Long)[Margin(scale)..7 - Margin(scale)]
    ensures scale == Base ==> Options(Base) == Options(Long)[1..6]
    ensures scale == Short ==> Options(Short) == Options(Base)[1..4]
  {
  }

  /** Within a scale no two options share a value, so a value identifies its option. */
  lemma ValuesDistinct(scale: ScaleType)
    ensures Distinct(Values(scale))
  {
    var vs := Values(scale);
    if scale == Numeric {
      forall i, j | 0 <= i < j < |vs| ensures vs[i] != vs[j] {
        if vs[i] == vs[j] {
          DecimalInjective(i + 1, j + 1);
        }
      }
    } else {
      forall i, j | 0 <= i < j < |vs| ensures vs[i] != vs[j] {
        assert vs[i][0] != vs[j][0] || |vs[i]| != |vs[j]| || vs[i][1] != vs[j][1];
      }
    }
  }

  /** A value shared by two verbal scales carries the same label in both. */
  lemma SharedValueSameLabel(s1: ScaleType, s2: ScaleType, i: nat, j: nat)
    requires IsVerbal(s1) && IsVerbal(s2)
    requires i < |Options(s1)| && j < |Options(s2)|
    requires Options(s1)[i].value == Options(s2)[j].value
    ensures Options(s1)[i] == Options(s2)[j]
  {
    VerbalScalesAreCentredWindows(s1);
    VerbalScalesAreCentredWindows(s2);
    ValuesDistinct(Long);
    var a, b := Margin(s1) + i, Margin(s2) + j;
    assert Values(Long)[a] == Options(s1)[i].value;
    assert Values(Long)[b] == Options(s2)[j].value;
  }

  /** The position of value `v` on `scale`: the only option with that value, or
      `None` when `v` is not a value of the scale. */
  function IndexOfValue(scale: ScaleType, v: string): (r: Option<nat>)
    ensures r.Some? ==> r.value < Cardinality(scale) && Options(scale)[r.value].value == v
    ensures r.Some? ==> forall k :: 0 <= k < Cardinality(scale) && Options(scale)[k].value == v ==> k == r.value
    ensures r.None? <==> v !in Values(scale)
  {
    ValuesDistinct(scale);
    FindFirst(Options(scale), (o: RatingOption) => o.value == v)
  }
}
