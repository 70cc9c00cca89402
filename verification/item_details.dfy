/** The item-details modal: the reorder-point advisor
    (`calculateReorderPointSuggestion`) and the merge of historical and
    predicted points into one chart series (`prepareChartData`). */
module ItemDetails {
  import opened Text
  import opened Series
  import opened Seqs

  // ---------------------------------------------------------------------
  // Forecast data as the backend delivers it.

  datatype TimeFrame = Week | Month | Year

  /** The value-field choice by time frame name: "week" and "month" select
      their own fields, every other name selects the yearly ones. */
  function TimeFrameOf(name: string): (tf: TimeFrame)
    ensures tf == Week <==> name == "week"
    ensures tf == Month <==> name == "month"
    ensures tf == Year <==> name != "week" && name != "month"
  {
    if name == "week" then Week else if name == "month" then Month else Year
  }

  /** One number per time frame: the `*_in_week`, `*_in_month` and
      `*_in_year` fields of a point. */
  datatype PerFrame = PerFrame(inWeek: real, inMonth: real, inYear: real)

  function Pick(v: PerFrame, tf: TimeFrame): real {
    match tf
    case Week => v.inWeek
    case Month => v.inMonth
    case Year => v.inYear
  }

  datatype ForecastPoint = ForecastPoint(
    year: int,
    weekNumber: int,
    monthNumber: int,
    totalSales: PerFrame,
    lowerBound: PerFrame,
    upperBound: PerFrame)

  /** The period within the year: `week_number`, `month_number`, or the
      year itself for yearly data. */
  function Period(p: ForecastPoint, tf: TimeFrame): int {
    match tf
    case Week => p.weekNumber
    case Month => p.monthNumber
    case Year => p.year
  }

  function SalesValues(points: seq<ForecastPoint>, tf: TimeFrame): (r: seq<real>)
    ensures |r| == |points|
    ensures forall i :: 0 <= i < |points| ==> r[i] == Pick(points[i].totalSales, tf)
  {
    seq(|points|, i requires 0 <= i < |points| => Pick(points[i].totalSales, tf))
  }

  /** The reply of the item forecast endpoint: either an error message or
      the two series. */
  datatype ForecastReply =
    | ErrorReply(message: string)
    | Series(timeFrameName: string,
             historical: seq<ForecastPoint>,
             prediction: seq<ForecastPoint>,
             hasConfidenceIntervals: bool)

  // ---------------------------------------------------------------------
  // Reorder-point advisor.

  datatype Category = HighGrowth | ModerateGrowth | StableDemand | DecliningDemand | InsufficientData

  /** The text the suggestion's reason starts with. */
  function CategoryText(c: Category): string {
    match c
    case HighGrowth => "high growth"
    case ModerateGrowth => "moderate growth"
    case StableDemand => "stable demand"
    case DecliningDemand => "declining demand"
    case InsufficientData => "insufficient forecast data"
  }

  datatype Suggestion =
    | Advice(point: int, category: Category, growth: real)
    | Unavailable(point: int)

  /** `item.reorder_point || 0`: a missing reorder point counts as zero. */
  function CurrentPoint(stored: Option<int>): int {
    match stored
    case None => 0
    case Some(v) => v
  }

  /** The predicted growth fraction: the relative change from the
      historical average to the predicted average, or zero when there is no
      prediction or the historical average is not positive (an empty
      history averages to zero). */
  function PredictedGrowth(hist: seq<real>, pred: seq<real>): (g: real)
    ensures |pred| == 0 || |hist| == 0 ==> g == 0.0
    ensures |hist| > 0 && Mean(hist).value <= 0.0 ==> g == 0.0
    ensures |pred| > 0 && |hist| > 0 && Mean(hist).value > 0.0 ==>
              Mean(hist).value * (1.0 + g) == Mean(pred).value
  {
    if |pred| == 0 then 0.0
    else
      var avgPredicted := Mean(pred).value;
      var avgHistorical := if |hist| > 0 then Mean(hist).value else 0.0;
      if avgHistorical > 0.0 then
        GrowthScales(avgHistorical, avgPredicted);
        (avgPredicted - avgHistorical) / avgHistorical
      else 0.0
  }

  lemma GrowthScales(h: real, p: real)
    requires h > 0.0
    ensures h * (1.0 + (p - h) / h) == p
  {
    assert h * ((p - h) / h) == p - h;
  }

  /** The growth bands: above 20% high, above 5% moderate, non-negative
      stable, negative declining. */
  function Classify(g: real): Category {
    if g > 0.2 then HighGrowth
    else if g > 0.05 then ModerateGrowth
    else if g >= 0.0 then StableDemand
    else DecliningDemand
  }

  function Rank(c: Category): int {
    match c
    case DecliningDemand => 0
    case StableDemand | InsufficientData => 1
    case ModerateGrowth => 2
    case HighGrowth => 3
  }

  /** The bands partition the growth line, in increasing order. */
  lemma ClassifyBands(g: real, h: real)
    ensures Classify(g) == HighGrowth <==> g > 0.2
    ensures Classify(g) == ModerateGrowth <==> 0.05 < g <= 0.2
    ensures Classify(g) == StableDemand <==> 0.0 <= g <= 0.05
    ensures Classify(g) == DecliningDemand <==> g < 0.0
    ensures Classify(g) != InsufficientData
    ensures g <= h ==> Rank(Classify(g)) <= Rank(Classify(h))
  {
  }

  function Ceil(x: real): (n: int)
    ensures n as real >= x && (n - 1) as real < x
  {
    -((-x).Floor)
  }

  /** `n` is `Math.max(1, Math.ceil(x))`: the least integer that is at
      least `x` and at least 1. */
  predicate IsCeilAtLeastOne(n: int, x: real) {
    n >= 1 && n as real >= x && (n - 1) as real < (if x > 1.0 then x else 1.0)
  }

  /** `n` is `Math.max(1, Math.floor(x))`: the greatest integer that is at
      most `x`, but never below 1. */
  predicate IsFloorAtLeastOne(n: int, x: real) {
    var y := if x > 1.0 then x else 1.0;
    n >= 1 && n as real <= y && y < (n + 1) as real
  }

  /** The suggested reorder point for the current point and growth. */
  function Adjust(cur: int, g: real): (n: int)
    ensures n >= 1
    ensures g > 0.2 ==> IsCeilAtLeastOne(n, cur as real * 1.5)
    ensures 0.05 < g <= 0.2 ==> IsCeilAtLeastOne(n, cur as real * 1.2)
    ensures 0.0 <= g <= 0.05 ==> IsCeilAtLeastOne(n, cur as real * 1.05)
    ensures g < 0.0 ==> IsFloorAtLeastOne(n, cur as real * 0.9)
    ensures g >= 0.0 ==> n >= cur
    ensures g < 0.0 ==> n <= Max(1, cur)
  {
    var suggested :=
      if g > 0.2 then Ceil(cur as real * 1.5)
      else if g > 0.05 then Ceil(cur as real * 1.2)
      else if g >= 0.0 then Ceil(cur as real * 1.05)
      else Max(1, (cur as real * 0.9).Floor);
    Max(1, suggested)
  }

  function Max(a: int, b: int): int {
    if a >= b then a else b
  }

  /** Higher growth never yields a lower suggestion. */
  lemma AdjustMonotoneInGrowth(cur: int, g: real, h: real)
    requires g <= h
    ensures Adjust(cur, g) <= Adjust(cur, h)
  {
    if cur < 0 {
      // Every band's raw value is below 1 here, so both suggestions are 1.
      assert Adjust(cur, g) == 1 && Adjust(cur, h) == 1;
      return;
    }
    var x := cur as real;
    assert x * 0.9 <= x * 1.05 <= x * 1.2 <= x * 1.5;
    CeilMonotone(x * 1.05, x * 1.2);
    CeilMonotone(x * 1.2, x * 1.5);
    CeilMonotone(x * 1.05, x * 1.5);
  }

  lemma CeilMonotone(x: real, y: real)
    requires x <= y
    ensures Ceil(x) <= Ceil(y)
  {
  }

  /** The whole suggestion computation for one forecast reply. */
  function Suggest(reply: ForecastReply, stored: Option<int>, tf: TimeFrame): (s: Suggestion)
    ensures reply.ErrorReply? ==> s == Unavailable(CurrentPoint(stored))
    ensures reply.Series? ==> s.Advice? && s.point >= 1
    ensures reply.Series? ==>
              (s.category == InsufficientData <==> |reply.prediction| == 0)
    ensures reply.Series? && |reply.prediction| == 0 ==>
              s.growth == 0.0 && IsCeilAtLeastOne(s.point, CurrentPoint(stored) as real * 1.05)
    ensures reply.Series? ==>
              s.growth == PredictedGrowth(SalesValues(reply.historical, tf), SalesValues(reply.prediction, tf))
    ensures reply.Series? && |reply.prediction| > 0 ==> s.category == Classify(s.growth)
    ensures reply.Series? ==> s.point == Adjust(CurrentPoint(stored), s.growth)
  {
    match reply
    case ErrorReply(_) => Unavailable(CurrentPoint(stored))
    case Series(_, historical, prediction, _) =>
      var g := PredictedGrowth(SalesValues(historical, tf), SalesValues(prediction, tf));
      var category := if |prediction| > 0 then Classify(g) else InsufficientData;
      Advice(Adjust(CurrentPoint(stored), g), category, g)
  }

  /** Worked examples: a 25% rise from a point of 10 suggests 15, a 20%
      fall suggests 9, and a flat forecast from 0 still suggests 1. */
  lemma SuggestExamples()
    ensures PredictedGrowth([100.0], [125.0]) == 0.25 && Adjust(10, 0.25) == 15
    ensures PredictedGrowth([100.0], [80.0]) == -0.2 && Adjust(10, -0.2) == 9
    ensures PredictedGrowth([100.0], [100.0]) == 0.0 && Adjust(0, 0.0) == 1
  {
    assert Mean([100.0]) == Some(100.0);
  }

  // ---------------------------------------------------------------------
  // Chart series.

  /** A chart row; `None` is the source's `null`. */
  datatype ChartPoint = ChartPoint(
    year: int,
    period: int,
    historical: Option<real>,
    predicted: Option<real>,
    lower: Option<real>,
    upper: Option<real>)

  /** The comparator on `(year, period)`: `a` may stay before `b`. */
  predicate ChartLe(a: ChartPoint, b: ChartPoint) {
    a.year < b.year || (a.year == b.year && a.period <= b.period)
  }

  lemma ChartLeTotalPreorder()
    ensures TotalPreorder(ChartLe)
  {
  }

  function HistoricalRows(points: seq<ForecastPoint>, tf: TimeFrame): (r: seq<ChartPoint>)
    ensures |r| == |points|
  {
    seq(|points|, i requires 0 <= i < |points| =>
      var p := points[i];
      ChartPoint(p.year, Period(p, tf), Some(Pick(p.totalSales, tf)), None, None, None))
  }

  function PredictionRows(points: seq<ForecastPoint>, tf: TimeFrame, withBounds: bool): (r: seq<ChartPoint>)
    ensures |r| == |points|
  {
    seq(|points|, i requires 0 <= i < |points| =>
      var p := points[i];
      ChartPoint(p.year, Period(p, tf), None, Some(Pick(p.totalSales, tf)),
                 if withBounds then Some(Pick(p.lowerBound, tf)) else None,
                 if withBounds then Some(Pick(p.upperBound, tf)) else None))
  }

  /** A row is either historical (no prediction, no bounds) or predicted
      (bounds present exactly when confidence intervals are). */
  predicate WellFormedRow(c: ChartPoint, withBounds: bool) {
    || (c.historical.Some? && c.predicted.None? && c.lower.None? && c.upper.None?)
    || (c.historical.None? && c.predicted.Some? &&
        (c.lower.Some? <==> withBounds) && (c.upper.Some? <==> withBounds))
  }

  /** The rows before sorting: historical rows, then prediction rows. */
  function UnsortedRows(reply: ForecastReply): seq<ChartPoint>
    requires reply.Series?
  {
    var tf := TimeFrameOf(reply.timeFrameName);
    HistoricalRows(reply.historical, tf)
      + PredictionRows(reply.prediction, tf, reply.hasConfidenceIntervals)
  }

  /** The chart series: every historical and predicted point once, ordered
      by `(year, period)`. */
  function PrepareChart(reply: ForecastReply): (rows: seq<ChartPoint>)
    ensures reply.ErrorReply? ==> rows == []
    ensures reply.Series? ==> |rows| == |reply.historical| + |reply.prediction|
    ensures reply.Series? ==> multiset(rows) == multiset(UnsortedRows(reply))
  {
    match reply
    case ErrorReply(_) => []
    case Series(_, _, _, _) => SortBy(UnsortedRows(reply), ChartLe)
  }

  /** The chart is ordered by `(year, period)`, every row is well formed,
      and rows with the same `(year, period)` keep their input order, so a
      historical row precedes a predicted row for the same period. */
  lemma PrepareChartOrdered(reply: ForecastReply, k: ChartPoint)
    requires reply.Series?
    ensures SortedBy(PrepareChart(reply), ChartLe)
    ensures forall i :: 0 <= i < |PrepareChart(reply)| ==>
              WellFormedRow(PrepareChart(reply)[i], reply.hasConfidenceIntervals)
    ensures Bucket(PrepareChart(reply), ChartLe, k) == Bucket(UnsortedRows(reply), ChartLe, k)
  {
    var u := UnsortedRows(reply);
    var rows := PrepareChart(reply);
    ChartLeTotalPreorder();
    SortBySorted(u, ChartLe);
    SortByStable(u, ChartLe, k);
    forall i | 0 <= i < |u|
      ensures WellFormedRow(u[i], reply.hasConfidenceIntervals)
    {
    }
    forall i | 0 <= i < |rows|
      ensures WellFormedRow(rows[i], reply.hasConfidenceIntervals)
    {
      assert rows[i] in multiset(u);
    }
  }
}
