/**
 The two age bucketers of src/visualization.py: `age_range` (pie chart) and
 `process_age` (grouped bars). Both sort an integer age into seven inclusive
 bands; they differ on values that are not integers. Python refuses to order a
 string or `None` against an integer, so such a comparison raises `TypeError`;
 here that is the `Err` outcome.
 */
module AgeBands {
  import opened Datatype

  /**
   The exceptions the charts can raise: the `TypeError` of comparing a
   non-integer age with 18, and pandas' `ValueError` when a column name is
   used twice.
   */
  datatype Error = TypeError(value: AttrVal) | ValueError(column: string)

  datatype Result<+T> = Ok(value: T) | Err(error: Error)

  const Unknown: string := "Unknown"

  /** The seven band labels, youngest first. */
  const Bands: seq<string> := ["Under 18", "18-24", "25-34", "35-44", "45-54", "55-64", "65+"]

  /** The first age of each band after the first: band `i` is `[LowerBounds[i - 1], LowerBounds[i] - 1]`. */
  const LowerBounds: seq<int> := [18, 25, 35, 45, 55, 65]

  /** `age` lies in band `i`, both ends inclusive. */
  predicate InBand(age: int, i: int)
    requires 0 <= i < |Bands|
  {
    (i == 0 || LowerBounds[i - 1] <= age) && (i == |Bands| - 1 || age <= LowerBounds[i] - 1)
  }

  /**
   `age_range` on an integer: the label of the one band holding `age`. Its
   final `"Unknown"` return is never reached by an integer.
   */
  function AgeRange(age: int): (band: string)
    ensures band != Unknown
    ensures forall i :: 0 <= i < |Bands| ==> (band == Bands[i] <==> InBand(age, i))
  {
    if age < 18 then "Under 18"
    else if 18 <= age <= 24 then "18-24"
    else if 25 <= age <= 34 then "25-34"
    else if 35 <= age <= 44 then "35-44"
    else if 45 <= age <= 54 then "45-54"
    else if 55 <= age <= 64 then "55-64"
    else if age >= 65 then "65+"
    else Unknown
  }

  /** The boundary ages of the bands. */
  lemma AgeRangeBoundaries()
    ensures AgeRange(17) == "Under 18" && AgeRange(-1) == "Under 18"
    ensures AgeRange(18) == "18-24" && AgeRange(24) == "18-24"
    ensures AgeRange(25) == "25-34" && AgeRange(64) == "55-64"
    ensures AgeRange(65) == "65+"
  {
  }

  /** Bands never go down as the age goes up. */
  lemma {:induction false} AgeRangeMonotone(a: int, b: int, i: int, j: int)
    requires a <= b
    requires 0 <= i < |Bands| && 0 <= j < |Bands|
    requires AgeRange(a) == Bands[i] && AgeRange(b) == Bands[j]
    ensures i <= j
  {
    assert InBand(a, i) && InBand(b, j);
  }

  /**
   `age_range(v)` on a raw attribute value, as the pie chart calls it: an
   integer gets its band, anything else raises at `age < 18`.
   */
  function AgeRangeOf(value: AttrVal): (r: Result<string>)
    ensures r.Ok? <==> value.Num?
    ensures r.Ok? ==> r.value == AgeRange(value.num)
    ensures r.Err? ==> r.error == TypeError(value)
  {
    match value
    case Num(age) => Ok(AgeRange(age))
    case _ => Err(TypeError(value))
  }

  /**
   `process_age`: `None` and the string `"Unknown"` give `"Unknown"`; an
   integer gets the same band as `age_range` gives it; any other string
   raises at `age < 18`.
   */
  function ProcessAge(value: AttrVal): (r: Result<string>)
    ensures value == Null || value == Text(Unknown) ==> r == Ok(Unknown)
    ensures value.Num? ==> r == Ok(AgeRange(value.num))
    ensures value.Text? && value.text != Unknown ==> r == Err(TypeError(value))
  {
    if value == Null || value == Text(Unknown) then Ok(Unknown)
    else match value
      case Num(age) =>
        Ok(if age < 18 then "Under 18"
           else if 18 <= age <= 24 then "18-24"
           else if 25 <= age <= 34 then "25-34"
           else if 35 <= age <= 44 then "35-44"
           else if 45 <= age <= 54 then "45-54"
           else if 55 <= age <= 64 then "55-64"
           else "65+")
      case _ => Err(TypeError(value))
  }

  /** The two bucketers part ways only on what is not an integer. */
  lemma BucketersDisagreeOffIntegers()
    ensures AgeRangeOf(Null).Err? && ProcessAge(Null) == Ok(Unknown)
    ensures AgeRangeOf(Text(Unknown)).Err? && ProcessAge(Text(Unknown)) == Ok(Unknown)
    ensures forall age :: AgeRangeOf(Num(age)) == ProcessAge(Num(age))
  {
  }
}
