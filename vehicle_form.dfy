/** The model-year choices of src/components/VehicleDetailsForm/index.js. */
module VehicleDetailsForm {

  /** `Array.from({ length: 51 }, (_, i) => currentYear - i)`. */
  function ModelYears(currentYear: int): (years: seq<int>)
    ensures |years| == 51
    ensures years[0] == currentYear && years[50] == currentYear - 50
    ensures forall i :: 0 <= i < 50 ==> years[i + 1] == years[i] - 1
  {
    seq(51, i => currentYear - i)
  }

  /** A list that steps down by one from each entry to the next holds each year at most
      once. */
  lemma {:induction false} CountdownDistinct(years: seq<int>)
    requires forall i :: 0 <= i < |years| - 1 ==> years[i + 1] == years[i] - 1
    ensures forall i, j :: 0 <= i < j < |years| ==> years[j] == years[i] - (j - i)
    ensures forall i, j :: 0 <= i < j < |years| ==> years[i] > years[j]
    decreases |years|
  {
    if |years| > 1 {
      CountdownDistinct(years[1..]);
      forall i, j | 0 <= i < j < |years|
        ensures years[j] == years[i] - (j - i)
      {
        assert years[j] == years[1..][j - 1];
        if i > 0 {
          assert years[i] == years[1..][i - 1];
        } else if j > 1 {
          assert years[1..][j - 1] == years[1..][0] - (j - 1);
        }
      }
    }
  }

  /** The choices are exactly the current year and the fifty before it, newest first,
      each offered once. */
  lemma ModelYearsSpec(currentYear: int, year: int)
    ensures year in ModelYears(currentYear) <==> currentYear - 50 <= year <= currentYear
    ensures forall i, j :: 0 <= i < j < 51 ==> ModelYears(currentYear)[i] > ModelYears(currentYear)[j]
  {
    var years := ModelYears(currentYear);
    CountdownDistinct(years);
    if currentYear - 50 <= year <= currentYear {
      assert years[currentYear - year] == year;
    }
  }
}
