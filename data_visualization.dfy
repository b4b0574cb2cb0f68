/** The engagement chart: a series that drifts every three seconds by a random step clamped at
    zero, can be replaced by a refresh, and is summarised by its peak, minimum and total. */
module DataVisualization {
  /** `Math.max(...data)` and `Math.min(...data)` give -Infinity and Infinity on an empty series. */
  datatype Extreme = MinusInfinity | Finite(value: int) | PlusInfinity

  datatype ChartType = Line | Bar | Doughnut

  function Larger(a: int, b: int): int {
    if a >= b then a else b
  }

  function Smaller(a: int, b: int): int {
    if a <= b then a else b
  }

  /** `Math.max(...data)`: the largest value, which is one of the values. */
  function Peak(data: seq<int>): (r: Extreme)
    ensures data == [] <==> r == MinusInfinity
    ensures r != PlusInfinity
    ensures r.Finite? ==> r.value in data && forall i :: 0 <= i < |data| ==> data[i] <= r.value
  {
    if data == [] then MinusInfinity
    else if |data| == 1 then Finite(data[0])
    else Finite(Larger(data[0], Peak(data[1..]).value))
  }

  /** `Math.min(...data)`: the smallest value, which is one of the values. */
  function Min(data: seq<int>): (r: Extreme)
    ensures data == [] <==> r == PlusInfinity
    ensures r != MinusInfinity
    ensures r.Finite? ==> r.value in data && forall i :: 0 <= i < |data| ==> r.value <= data[i]
  {
    if data == [] then PlusInfinity
    else if |data| == 1 then Finite(data[0])
    else Finite(Smaller(data[0], Min(data[1..]).value))
  }

  /** `data.reduce((a, b) => a + b, 0)` */
  function Total(data: seq<int>): int {
    if data == [] then 0 else data[0] + Total(data[1..])
  }

  /** On a non-empty series the peak is at least the minimum, and the total lies between
      length times the minimum and length times the peak. */
  lemma {:induction false} TotalBetweenExtremes(data: seq<int>)
    requires data != []
    ensures Min(data).value <= Peak(data).value
    ensures |data| * Min(data).value <= Total(data) <= |data| * Peak(data).value
  {
    var lo, hi := Min(data).value, Peak(data).value;
    assert lo <= data[0] <= hi;
    BoundedTotal(data, lo, hi);
  }

  lemma {:induction false} BoundedTotal(data: seq<int>, lo: int, hi: int)
    requires forall i :: 0 <= i < |data| ==> lo <= data[i] <= hi
    ensures |data| * lo <= Total(data) <= |data| * hi
  {
    if data != [] {
      BoundedTotal(data[1..], lo, hi);
    }
  }

  /** A series of non-negative values has a non-negative total. */
  lemma {:induction false} NonNegativeTotal(data: seq<int>)
    requires forall i :: 0 <= i < |data| ==> data[i] >= 0
    ensures Total(data) >= 0
  {
    if data != [] {
      NonNegativeTotal(data[1..]);
    }
  }

  /** One periodic update: each value moves by `draw - 10`, where `draw` is
      `Math.floor(Math.random() * 21)`, and is clamped at zero. */
  function Drifted(data: seq<int>, draws: seq<nat>): (r: seq<int>)
    requires |draws| == |data|
    requires forall i :: 0 <= i < |draws| ==> draws[i] <= 20
    ensures |r| == |data|
    ensures forall i :: 0 <= i < |r| ==> r[i] >= 0
    ensures forall i :: 0 <= i < |r| ==> r[i] <= Larger(0, data[i] + 10)
    ensures forall i :: 0 <= i < |r| && data[i] >= 0 ==> data[i] - 10 <= r[i] <= data[i] + 10
    ensures forall i :: 0 <= i < |r| && r[i] > 0 ==> r[i] - data[i] == draws[i] as int - 10
    ensures forall i :: 0 <= i < |r| && r[i] == 0 ==> data[i] + draws[i] as int - 10 <= 0
  {
    seq(|data|, i requires 0 <= i < |data| => Larger(0, data[i] + draws[i] - 10))
  }

  /** After any update the chart's peak and minimum are finite and non-negative. */
  lemma DriftedSummary(data: seq<int>, draws: seq<nat>)
    requires data != [] && |draws| == |data|
    requires forall i :: 0 <= i < |draws| ==> draws[i] <= 20
    ensures 0 <= Min(Drifted(data, draws)).value <= Peak(Drifted(data, draws)).value
    ensures Total(Drifted(data, draws)) >= 0
  {
    var r := Drifted(data, draws);
    TotalBetweenExtremes(r);
    NonNegativeTotal(r);
  }

  /** The component's state: the chart type, the series and the refresh flag. */
  class Chart {
    var chartType: ChartType
    var data: seq<int>
    var isRefreshing: bool

    /** `initial` stands for `generateRandomData(12)`, which is not part of this model. */
    constructor (initial: seq<int>)
      ensures chartType == Line && data == initial && !isRefreshing
    {
      chartType, data, isRefreshing := Line, initial, false;
    }

    /** The three-second interval. */
    method IntervalTick(draws: seq<nat>)
      requires |draws| == |data|
      requires forall i :: 0 <= i < |draws| ==> draws[i] <= 20
      modifies this
      ensures data == Drifted(old(data), draws)
      ensures chartType == old(chartType) && isRefreshing == old(isRefreshing)
    {
      data := Drifted(data, draws);
    }

    /** `refreshData`: the refresh starts at once... */
    method RefreshData() returns (event: string)
      modifies this
      ensures isRefreshing && data == old(data) && chartType == old(chartType)
      ensures event == "data-refresh"
    {
      isRefreshing := true;
      event := "data-refresh";
    }

    /** ...and one second later a fresh series replaces the old one. */
    method RefreshDone(series: seq<int>)
      modifies this
      ensures !isRefreshing && data == series && chartType == old(chartType)
    {
      data := series;
      isRefreshing := false;
    }

    /** A chart-type button. */
    method SelectChartType(t: ChartType) returns (event: string)
      modifies this
      ensures chartType == t && data == old(data) && isRefreshing == old(isRefreshing)
      ensures event == "chart-type-change"
    {
      chartType := t;
      event := "chart-type-change";
    }
  }
}
