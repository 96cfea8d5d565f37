/** The dashboard's summary figures (src/pages/Dashboard.js): totals, averages and the
    maximum of the chart series, the loan-status lookups, and the predicted growth. */
module Dashboard {
  import opened Wrappers
  import opened Text

  /** A point of a chart series. */
  datatype Point = Point(x: string, y: int)

  /** A slice of the loan-status pie chart. */
  datatype StatusSlice = StatusSlice(id: int, value: int, labelText: string)

  /** `data.reduce((acc, curr) => acc + curr.y, 0)`, folding from the left. */
  function SumY(data: seq<Point>): int
    decreases |data|
  {
    if data == [] then 0 else SumY(data[..|data| - 1]) + data[|data| - 1].y
  }

  /** `total / data.length`; None for an empty series, where it is 0 / 0 = NaN. */
  function Average(data: seq<Point>): (r: Option<real>)
    ensures r.None? <==> data == []
    ensures r.Some? ==> r.value * |data| as real == SumY(data) as real
  {
    if data == [] then None else Some(SumY(data) as real / |data| as real)
  }

  /** `Math.max(...data.map(d => d.y))`; None for an empty series, where it is
      -Infinity. */
  function MaxY(data: seq<Point>): (r: Option<int>)
    ensures r.None? <==> data == []
    ensures r.Some? ==> forall i :: 0 <= i < |data| ==> data[i].y <= r.value
    ensures r.Some? ==> exists i :: 0 <= i < |data| && data[i].y == r.value
    decreases |data|
  {
    if data == [] then None
    else
      var rest := MaxY(data[1..]);
      if rest.None? || data[0].y >= rest.value then
        Some(data[0].y)
      else
        assert forall i :: 1 <= i < |data| ==> data[i] == data[1..][i - 1];
        rest
  }

  /** The index `find` stops at: the first slice whose label includes `word`. */
  function FindByLabel(data: seq<StatusSlice>, word: string): (r: Option<nat>)
    ensures r.Some? ==> r.value < |data| && Contains(data[r.value].labelText, word)
    ensures r.Some? ==> forall i :: 0 <= i < r.value ==> !Contains(data[i].labelText, word)
    ensures r.None? <==> forall i :: 0 <= i < |data| ==> !Contains(data[i].labelText, word)
    decreases |data|
  {
    if data == [] then None
    else if Contains(data[0].labelText, word) then Some(0)
    else
      var rest := FindByLabel(data[1..], word);
      assert forall i :: 1 <= i < |data| ==> data[i] == data[1..][i - 1];
      if rest.None? then None else Some(rest.value + 1)
  }

  /** `data.find(d => d.labelText.includes(word))?.value || 0`. */
  function StatusValue(data: seq<StatusSlice>, word: string): int {
    var found := FindByLabel(data, word);
    if found.None? then 0 else data[found.value].value
  }

  /** `last.y - first.y`; None for an empty series, where indexing throws. */
  function GrowthDiff(data: seq<Point>): Option<int> {
    if data == [] then None else Some(data[|data| - 1].y - data[0].y)
  }

  /** The sum of the changes from each point to the next. */
  function SumOfSteps(data: seq<Point>): int
    decreases |data|
  {
    if |data| < 2 then 0 else (data[1].y - data[0].y) + SumOfSteps(data[1..])
  }

  /** The growth from first to last point is the sum of the period-to-period changes. */
  lemma {:induction false} GrowthDiffTelescopes(data: seq<Point>)
    requires data != []
    ensures GrowthDiff(data) == Some(SumOfSteps(data))
    decreases |data|
  {
    if |data| >= 2 {
      GrowthDiffTelescopes(data[1..]);
    }
  }

  /** The sum does not depend on the order it is folded in: adding the first point to
      the rest gives the same total. */
  lemma {:induction false} SumYFirst(data: seq<Point>)
    requires data != []
    ensures SumY(data) == data[0].y + SumY(data[1..])
    decreases |data|
  {
    if |data| > 1 {
      SumYFirst(data[..|data| - 1]);
      assert data[..|data| - 1][1..] == data[1..][..|data[1..]| - 1];
      assert data[..|data| - 1][0] == data[0];
    }
  }

  /** The total is at most the length times the maximum. */
  lemma {:induction false} SumAtMostMax(data: seq<Point>, m: int)
    requires forall i :: 0 <= i < |data| ==> data[i].y <= m
    ensures SumY(data) <= |data| * m
    decreases |data|
  {
    if data != [] {
      SumAtMostMax(data[..|data| - 1], m);
    }
  }

  /** Hence the average never exceeds the maximum. */
  lemma AverageAtMostMax(data: seq<Point>)
    requires data != []
    ensures Average(data).value <= MaxY(data).value as real
  {
    var m := MaxY(data).value;
    SumAtMostMax(data, m);
    QuotientAtMost(SumY(data), |data|, m);
  }

  lemma QuotientAtMost(total: int, n: int, m: int)
    requires n > 0 && total <= n * m
    ensures total as real / n as real <= m as real
  {
    var q := total as real / n as real;
    assert q * n as real == total as real;
    assert (n * m) as real == n as real * m as real;
    if q > m as real {
      assert q * n as real > m as real * n as real;
    }
  }

  /** A label that lacks the first letter of `word` does not include it. */
  lemma LacksFirstLetter(s: string, word: string)
    requires word != [] && forall i :: 0 <= i < |s| ==> s[i] != word[0]
    ensures !Contains(s, word)
  {
    forall i | 0 <= i <= |s| - |word|
      ensures !OccursAt(s, word, i)
    {
      assert s[i..i + |word|][0] == s[i] != word[0];
    }
  }

  const EmiCollectionData: seq<Point> :=
    [Point("Jan", 50000), Point("Feb", 60000), Point("Mar", 70000), Point("Apr", 80000), Point("May", 90000)]

  const LoanStatusData: seq<StatusSlice> :=
    [StatusSlice(0, 400, "Active Loans"), StatusSlice(1, 300, "Closed Loans"), StatusSlice(2, 200, "Pending Loans")]

  const PredictedGrowthData: seq<Point> :=
    [Point("Q1", 450000), Point("Q2", 550000), Point("Q3", 600000), Point("Q4", 700000)]

  /** The EMI-collection card: a total of 350000, an average of 70000 and a maximum of
      90000. */
  lemma EmiCollectionFigures()
    ensures SumY(EmiCollectionData) == 350000
    ensures Average(EmiCollectionData) == Some(70000.0)
    ensures MaxY(EmiCollectionData) == Some(90000)
  {
    var e := EmiCollectionData;
    assert SumY(e[..1]) == 50000 by { assert e[..1][..0] == []; }
    assert SumY(e[..2]) == 110000 by { assert e[..2][..1] == e[..1]; }
    assert SumY(e[..3]) == 180000 by { assert e[..3][..2] == e[..2]; }
    assert SumY(e[..4]) == 260000 by { assert e[..4][..3] == e[..3]; }
    assert SumY(e) == 350000 by { assert e[..|e| - 1] == e[..4]; }
  }

  /** The loan-status card: 400 active, 300 closed and 200 pending loans. */
  lemma LoanStatusFigures()
    ensures StatusValue(LoanStatusData, "Active") == 400
    ensures StatusValue(LoanStatusData, "Closed") == 300
    ensures StatusValue(LoanStatusData, "Pending") == 200
  {
    assert OccursAt("Active Loans", "Active", 0);
    assert OccursAt("Closed Loans", "Closed", 0);
    assert OccursAt("Pending Loans", "Pending", 0);
    LacksFirstLetter("Active Loans", "Closed");
    LacksFirstLetter("Active Loans", "Pending");
    LacksFirstLetter("Closed Loans", "Pending");
  }

  /** The predicted-growth card: a total of 2300000, an average of 575000 and a growth
      of 250000 from Q1 to Q4. */
  lemma PredictedGrowthFigures()
    ensures SumY(PredictedGrowthData) == 2300000
    ensures Average(PredictedGrowthData) == Some(575000.0)
    ensures GrowthDiff(PredictedGrowthData) == Some(250000)
  {
    var p := PredictedGrowthData;
    assert SumY(p[..1]) == 450000 by { assert p[..1][..0] == []; }
    assert SumY(p[..2]) == 1000000 by { assert p[..2][..1] == p[..1]; }
    assert SumY(p[..3]) == 1600000 by { assert p[..3][..2] == p[..2]; }
    assert SumY(p) == 2300000 by { assert p[..|p| - 1] == p[..3]; }
  }
}
