/** The forecast page's metric cards: growth percentage, coefficient of
    variation, the confidence score with its time-frame scaling, the trend
    and colour badges, the top-growth product, and the merge of that
    product into the profit metrics. */
module ForecastMetrics {
  import opened Text
  import opened Series
  import opened Seqs

  datatype Trend = Up | Down | Neutral
  datatype Color = Success | Warning | Danger

  /** The number or name a card shows, before display formatting. */
  datatype MetricValue = Amount(amount: real) | Label(text: string)

  datatype Metric = Metric(
    title: string,
    value: MetricValue,
    trend: Trend,
    percentage: Option<real>,
    color: Color)

  // ---------------------------------------------------------------------
  // Growth.

  /** `values[length - 2] || 0`: zero for a one-point series. */
  function PreviousValue(values: seq<real>): real
    requires |values| > 0
  {
    if |values| >= 2 then values[|values| - 2] else 0.0
  }

  /** Growth of the last value over the one before it, in percent; zero
      when the previous value is zero or absent. */
  function GrowthPercent(values: seq<real>): (g: real)
    requires |values| > 0
    ensures PreviousValue(values) == 0.0 ==> g == 0.0
    ensures PreviousValue(values) != 0.0 ==>
              g * PreviousValue(values) == (values[|values| - 1] - PreviousValue(values)) * 100.0
  {
    var current := values[|values| - 1];
    var previous := PreviousValue(values);
    if previous != 0.0 then
      GrowthScalesBack(current, previous);
      (current - previous) / previous * 100.0
    else 0.0
  }

  lemma GrowthScalesBack(current: real, previous: real)
    requires previous != 0.0
    ensures (current - previous) / previous * 100.0 * previous == (current - previous) * 100.0
  {
    var q := (current - previous) / previous;
    assert q * previous == current - previous;
  }

  lemma GrowthExamples()
    ensures GrowthPercent([100.0, 150.0]) == 50.0
    ensures GrowthPercent([100.0, 0.0]) == -100.0
    ensures GrowthPercent([0.0, 7.0]) == 0.0
    ensures GrowthPercent([7.0]) == 0.0
  {
  }

  // ---------------------------------------------------------------------
  // Confidence.

  /** The scaling factor per time frame: 3 for weeks, 5 for months, 8 for
      years and 5 for any other name. */
  function ScalingFactor(timeFrameName: string): (k: int)
    ensures k == 3 <==> timeFrameName == "week"
    ensures k == 8 <==> timeFrameName == "year"
    ensures k == 5 <==> timeFrameName != "week" && timeFrameName != "year"
  {
    if timeFrameName == "week" then 3
    else if timeFrameName == "month" then 5
    else if timeFrameName == "year" then 8
    else 5
  }

  /** `Math.min(1, n / 10)`: the weight of the variability, growing with
      the number of data points up to full weight at ten. */
  function DataPointFactor(n: nat): (f: real)
    ensures 0.0 <= f <= 1.0
    ensures f == 0.0 <==> n == 0
    ensures f == 1.0 <==> n >= 10
    ensures n < 10 ==> f * 10.0 == n as real
  {
    if (n as real) / 10.0 < 1.0 then (n as real) / 10.0 else 1.0
  }

  /** `mean > 0 ? sqrt(variance) / mean : 1`, where `sd` is the square
      root of the variance; an empty mean (NaN) fails `mean > 0`. */
  function CoefficientOfVariation(mean: Option<real>, sd: real): (cv: real)
    requires sd >= 0.0
    ensures cv >= 0.0
    ensures mean.Some? && mean.value > 0.0 ==> cv * mean.value == sd
    ensures !(mean.Some? && mean.value > 0.0) ==> cv == 1.0
  {
    if mean.Some? && mean.value > 0.0 then sd / mean.value else 1.0
  }

  function Clamp(x: real, lo: real, hi: real): real
    requires lo <= hi
  {
    if x < lo then lo else if x > hi then hi else x
  }

  /** `cv * scalingFactor * 100 * dataPointFactor`: what the variability
      takes off full confidence. */
  function Penalty(cv: real, scale: int, n: nat): real {
    cv * scale as real * 100.0 * DataPointFactor(n)
  }

  /** `max(0, min(100, 100 - cv * scale * 100 * dataPointFactor))`. */
  function Confidence(cv: real, scale: int, n: nat): (c: real)
    ensures 0.0 <= c <= 100.0
    ensures var p := cv * scale as real * 100.0 * DataPointFactor(n);
            && (p <= 0.0 ==> c == 100.0)
            && (p >= 100.0 ==> c == 0.0)
            && (0.0 <= p <= 100.0 ==> c + p == 100.0)
  {
    Clamp(100.0 - Penalty(cv, scale, n), 0.0, 100.0)
  }

  /** Worked scores: a 10% variation at month scale over ten points
      costs half the confidence; at week scale over five points, 15; a 50%
      variation at year scale costs everything. */
  lemma ConfidenceExamples()
    ensures Confidence(0.1, 5, 10) == 50.0
    ensures Confidence(0.1, 3, 5) == 85.0
    ensures Confidence(0.5, 8, 10) == 0.0
  {
  }

  /** A larger scaling factor never raises the confidence. */
  lemma ConfidenceMonotoneInScale(cv: real, scale: int, scale': int, n: nat)
    requires cv >= 0.0 && 0 <= scale <= scale'
    ensures Confidence(cv, scale', n) <= Confidence(cv, scale, n)
  {
    var s := scale as real;
    var s' := scale' as real;
    MulMonotone(s, s', cv);
    assert cv * s <= cv * s';
    MulMonotone(cv * s, cv * s', 100.0);
    MulMonotone(cv * s * 100.0, cv * s' * 100.0, DataPointFactor(n));
    ClampMonotone(100.0 - Penalty(cv, scale', n), 100.0 - Penalty(cv, scale, n), 0.0, 100.0);
  }

  /** The same variability is trusted most for weeks and least for
      years. */
  lemma ConfidenceByTimeFrame(cv: real, n: nat)
    requires cv >= 0.0
    ensures Confidence(cv, ScalingFactor("year"), n) <= Confidence(cv, ScalingFactor("month"), n)
    ensures Confidence(cv, ScalingFactor("month"), n) <= Confidence(cv, ScalingFactor("week"), n)
  {
    ConfidenceMonotoneInScale(cv, ScalingFactor("month"), ScalingFactor("year"), n);
    ConfidenceMonotoneInScale(cv, ScalingFactor("week"), ScalingFactor("month"), n);
  }

  lemma PenaltyMonotone(cv: real, cv': real, scale: int, n: nat)
    requires scale >= 0 && cv <= cv'
    ensures Penalty(cv, scale, n) <= Penalty(cv', scale, n)
  {
    var s := scale as real;
    MulMonotone(cv, cv', s);
    MulMonotone(cv * s, cv' * s, 100.0);
    MulMonotone(cv * s * 100.0, cv' * s * 100.0, DataPointFactor(n));
  }

  lemma PenaltyZero(cv: real, scale: int, n: nat)
    requires cv == 0.0 || n == 0
    ensures Penalty(cv, scale, n) == 0.0
  {
    var s := scale as real;
    if n == 0 {
      MulZeroRight(cv * s * 100.0, DataPointFactor(n));
    } else {
      MulZeroLeft(cv, s);
      MulZeroLeft(cv * s, 100.0);
      MulZeroLeft(cv * s * 100.0, DataPointFactor(n));
    }
  }

  /** Full confidence with no variability or with no data points; the
      score never rises when the variability grows. */
  lemma ConfidenceProperties(cv: real, cv': real, scale: int, n: nat)
    requires scale >= 0 && cv <= cv'
    ensures cv == 0.0 ==> Confidence(cv, scale, n) == 100.0
    ensures n == 0 ==> Confidence(cv, scale, n) == 100.0
    ensures Confidence(cv', scale, n) <= Confidence(cv, scale, n)
  {
    PenaltyMonotone(cv, cv', scale, n);
    ClampMonotone(100.0 - Penalty(cv', scale, n), 100.0 - Penalty(cv, scale, n), 0.0, 100.0);
    if cv == 0.0 || n == 0 {
      PenaltyZero(cv, scale, n);
    }
  }

  lemma ClampMonotone(x: real, y: real, lo: real, hi: real)
    requires x <= y && lo <= hi
    ensures Clamp(x, lo, hi) <= Clamp(y, lo, hi)
  {
  }

  lemma MulZeroLeft(a: real, b: real)
    requires a == 0.0
    ensures a * b == 0.0
  {
  }

  lemma MulZeroRight(a: real, b: real)
    requires b == 0.0
    ensures a * b == 0.0
  {
  }

  lemma MulNonNegative(a: real, b: real)
    requires a >= 0.0 && b >= 0.0
    ensures a * b >= 0.0
  {
  }

  lemma MulMonotone(a: real, b: real, c: real)
    requires a <= b && c >= 0.0
    ensures a * c <= b * c
  {
    assert b * c - a * c == (b - a) * c;
    MulNonNegative(b - a, c);
  }

  /** The confidence badge: above 70 up/success, above 40
      neutral/warning, otherwise down/danger. */
  function ConfidenceBadge(c: real): (Trend, Color) {
    if c > 70.0 then (Up, Success)
    else if c > 40.0 then (Neutral, Warning)
    else (Down, Danger)
  }

  /** The historical part of the series: the last point is the prediction. */
  function HistoricalPart(values: seq<real>): seq<real>
    requires |values| > 0
  {
    values[..|values| - 1]
  }

  /** `sd` is a square root of the population variance of the historical
      part (any value when that part is empty, where it is unused). */
  predicate IsStandardDeviation(values: seq<real>, sd: real)
    requires |values| > 0
  {
    sd >= 0.0 &&
    (|values| > 1 ==> sd * sd == Variance(HistoricalPart(values)).value)
  }

  /** The coefficient of variation of the historical part. */
  function HistoryVariation(values: seq<real>, sd: real): (cv: real)
    requires |values| > 0 && IsStandardDeviation(values, sd)
    ensures cv >= 0.0
  {
    CoefficientOfVariation(Mean(HistoricalPart(values)), sd)
  }

  /** The confidence shown on the sales card. */
  function SalesConfidence(values: seq<real>, timeFrameName: string, sd: real): (c: real)
    requires |values| > 0 && IsStandardDeviation(values, sd)
    ensures 0.0 <= c <= 100.0
    ensures |values| == 1 ==> c == 100.0
  {
    var hist := HistoricalPart(values);
    Confidence(HistoryVariation(values, sd), ScalingFactor(timeFrameName), |hist|)
  }

  /** The final point is the prediction and takes no part in the
      confidence: any two series sharing their history agree. */
  lemma SalesConfidenceIgnoresPrediction(history: seq<real>, x: real, y: real, timeFrameName: string, sd: real)
    requires IsStandardDeviation(history + [x], sd)
    ensures IsStandardDeviation(history + [y], sd)
    ensures SalesConfidence(history + [x], timeFrameName, sd) == SalesConfidence(history + [y], timeFrameName, sd)
  {
    assert HistoricalPart(history + [x]) == history;
    assert HistoricalPart(history + [y]) == history;
  }

  /** Of two series of the same length and time frame, the one whose
      history varies more relative to its mean never has the higher
      confidence. */
  lemma SalesConfidenceMonotone(values: seq<real>, sd: real, values': seq<real>, sd': real, timeFrameName: string)
    requires |values| > 0 && IsStandardDeviation(values, sd)
    requires |values'| == |values| && IsStandardDeviation(values', sd')
    requires HistoryVariation(values, sd) <= HistoryVariation(values', sd')
    ensures SalesConfidence(values', timeFrameName, sd') <= SalesConfidence(values, timeFrameName, sd)
  {
    var k := ScalingFactor(timeFrameName);
    ConfidenceProperties(HistoryVariation(values, sd), HistoryVariation(values', sd'), k, |values| - 1);
  }

  /** A history of 10 and 30 has mean 20 and standard deviation 10, so a
      coefficient of variation of 0.5 over two points: the confidence is 70
      for weeks, 50 for months and 20 for years, whatever the prediction. */
  lemma SalesConfidenceExample(prediction: real)
    ensures IsStandardDeviation([10.0, 30.0, prediction], 10.0)
    ensures SalesConfidence([10.0, 30.0, prediction], "week", 10.0) == 70.0
    ensures SalesConfidence([10.0, 30.0, prediction], "month", 10.0) == 50.0
    ensures SalesConfidence([10.0, 30.0, prediction], "year", 10.0) == 20.0
  {
    var values := [10.0, 30.0, prediction];
    var hist := [10.0, 30.0];
    assert HistoricalPart(values) == hist;
    assert hist[..1] == [10.0];
    assert Sum(hist) == 40.0;
    assert Mean(hist) == Some(20.0);
    var d := SquaredDeviations(hist, 20.0);
    assert d == [100.0, 100.0];
    assert d[..1] == [100.0];
    assert Sum(d) == 200.0;
    assert Variance(hist) == Some(100.0);
    assert HistoryVariation(values, 10.0) == 0.5;
    assert DataPointFactor(2) == 0.2;
  }

  /** A constant history has no variability and so full confidence. */
  lemma ConstantHistoryFullConfidence(values: seq<real>, timeFrameName: string, c: real)
    requires |values| > 1 && c > 0.0
    requires forall i :: 0 <= i < |values| - 1 ==> values[i] == c
    ensures IsStandardDeviation(values, 0.0)
    ensures SalesConfidence(values, timeFrameName, 0.0) == 100.0
  {
    var hist := HistoricalPart(values);
    ConstantSeries(hist, c);
    ConfidenceProperties(0.0, 0.0, ScalingFactor(timeFrameName), |hist|);
  }

  // ---------------------------------------------------------------------
  // Cards.

  function GrowthTrend(g: real): Trend {
    if g >= 0.0 then Up else Down
  }

  function GrowthColor(g: real): Color {
    if g >= 0.0 then Success else Danger
  }

  function Abs(x: real): real {
    if x >= 0.0 then x else -x
  }

  /** The three sales cards; `None` leaves the cards as they were, which is
      what an empty series does. */
  function SalesMetrics(values: seq<real>, timeFrameName: string, sd: real): (r: Option<seq<Metric>>)
    requires |values| > 0 ==> IsStandardDeviation(values, sd)
    ensures r.None? <==> |values| == 0
    ensures r.Some? ==> |r.value| == 3
    ensures r.Some? ==>
              var g := GrowthPercent(values);
              && r.value[0].title == "Predicted Sales"
              && r.value[0].value == Amount(values[|values| - 1])
              && (r.value[0].trend == Up <==> g >= 0.0)
              && (r.value[0].trend == Down <==> g < 0.0)
              && (r.value[0].color == Success <==> g >= 0.0)
              && (r.value[0].color == Danger <==> g < 0.0)
              && r.value[0].percentage == Some(if g >= 0.0 then g else -g)
              && r.value[1].title == "Sales Growth"
              && r.value[1].value == Amount(g)
              && r.value[1].percentage == None
              && (r.value[1].trend == Up <==> g >= 0.0)
              && (r.value[1].trend == Down <==> g < 0.0)
              && (r.value[1].color == Success <==> g >= 0.0)
              && (r.value[1].color == Danger <==> g < 0.0)
              && r.value[2].title == "Forecast Confidence"
              && r.value[2].value == Amount(SalesConfidence(values, timeFrameName, sd))
              && 0.0 <= r.value[2].value.amount <= 100.0
              && r.value[2].percentage == None
              && (r.value[2].trend == Up <==> r.value[2].value.amount > 70.0)
              && (r.value[2].trend == Neutral <==> 40.0 < r.value[2].value.amount <= 70.0)
              && (r.value[2].color == Success <==> r.value[2].value.amount > 70.0)
              && (r.value[2].color == Warning <==> 40.0 < r.value[2].value.amount <= 70.0)
              && (r.value[2].trend == Down <==> r.value[2].value.amount <= 40.0)
              && (r.value[2].color == Danger <==> r.value[2].value.amount <= 40.0)
    ensures r.Some? && |values| == 1 ==>
              r.value[2].value == Amount(100.0) && r.value[2].trend == Up
  {
    if |values| == 0 then None
    else
      var g := GrowthPercent(values);
      var c := SalesConfidence(values, timeFrameName, sd);
      var badge := ConfidenceBadge(c);
      Some([
        Metric("Predicted Sales", Amount(values[|values| - 1]), GrowthTrend(g), Some(Abs(g)), GrowthColor(g)),
        Metric("Sales Growth", Amount(g), GrowthTrend(g), None, GrowthColor(g)),
        Metric("Forecast Confidence", Amount(c), badge.0, None, badge.1)
      ])
  }

  /** `growthRate > 0 ? "up" : growthRate < 0 ? "down" : "neutral"`. */
  function MarginTrend(g: real): Trend {
    if g > 0.0 then Up else if g < 0.0 then Down else Neutral
  }

  function TrendColor(t: Trend): Color {
    match t
    case Up => Success
    case Down => Danger
    case Neutral => Warning
  }

  /** The two profit cards computed from the profit series. */
  function ProfitMetrics(values: seq<real>): (r: Option<seq<Metric>>)
    ensures r.None? <==> |values| == 0
    ensures r.Some? ==> |r.value| == 2
    ensures r.Some? ==>
              var g := GrowthPercent(values);
              && r.value[0].title == "Predicted Profit"
              && r.value[0].value == Amount(values[|values| - 1])
              && (r.value[0].trend == Up <==> g >= 0.0)
              && (r.value[0].trend == Down <==> g < 0.0)
              && (r.value[0].color == Success <==> g >= 0.0)
              && (r.value[0].color == Danger <==> g < 0.0)
              && r.value[0].percentage == Some(if g >= 0.0 then g else -g)
              && r.value[1].title == "Profit Margin Trend"
              && r.value[1].value == Amount(g)
              && r.value[1].percentage == None
              && (r.value[1].trend == Neutral <==> g == 0.0)
              && (r.value[1].trend == Up <==> g > 0.0)
              && (r.value[1].trend == Down <==> g < 0.0)
              && (r.value[1].color == Warning <==> g == 0.0)
              && (r.value[1].color == Success <==> g > 0.0)
              && (r.value[1].color == Danger <==> g < 0.0)
  {
    if |values| == 0 then None
    else
      var g := GrowthPercent(values);
      var t := MarginTrend(g);
      Some([
        Metric("Predicted Profit", Amount(values[|values| - 1]), GrowthTrend(g), Some(Abs(g)), GrowthColor(g)),
        Metric("Profit Margin Trend", Amount(g), t, None, TrendColor(t))
      ])
  }

  // ---------------------------------------------------------------------
  // Top growth product.

  datatype Product = Product(name: string, sku: string, predictedIncrease: real)

  /** `products.reduce((prev, cur) => cur.predicted_increase >
      prev.predicted_increase ? cur : prev)`, as an index: the first
      product reaching the largest predicted increase. */
  function TopIndex(products: seq<Product>): (k: nat)
    requires |products| > 0
    ensures k < |products|
    ensures forall j :: 0 <= j < |products| ==>
              products[j].predictedIncrease <= products[k].predictedIncrease
    ensures forall j :: 0 <= j < k ==>
              products[j].predictedIncrease < products[k].predictedIncrease
  {
    if |products| == 1 then 0
    else
      var k := TopIndex(products[..|products| - 1]);
      var last := |products| - 1;
      if products[last].predictedIncrease > products[k].predictedIncrease then last else k
  }

  lemma TopIndexExample()
    ensures TopIndex([Product("A", "a", 5.0), Product("B", "b", 9.0), Product("C", "c", 9.0)]) == 1
  {
  }

  const TopGrowthTitle := "Top Growth Product"

  predicate NotTopGrowth(m: Metric) {
    m.title != TopGrowthTitle
  }

  function TopGrowthMetric(name: string): Metric {
    Metric(TopGrowthTitle, Label(name), Up, None, Success)
  }

  /** The profit list with any earlier top-growth card dropped and a new
      one appended. */
  function MergeTopGrowth(metrics: seq<Metric>, name: string): (r: seq<Metric>)
    ensures |r| > 0 && r[|r| - 1] == TopGrowthMetric(name)
    ensures forall i :: 0 <= i < |r| - 1 ==> r[i].title != TopGrowthTitle
    ensures IsSubsequence(r[..|r| - 1], metrics)
    ensures forall i :: 0 <= i < |metrics| && metrics[i].title != TopGrowthTitle ==>
              metrics[i] in r
    ensures forall x :: multiset(r[..|r| - 1])[x] == if NotTopGrowth(x) then multiset(metrics)[x] else 0
  {
    var kept := KeptMetrics(metrics);
    var r := kept + [TopGrowthMetric(name)];
    assert r[..|r| - 1] == kept;
    assert forall i :: 0 <= i < |kept| ==> r[i] == kept[i];
    r
  }

  /** The metrics other than a top-growth card, every copy, in order. */
  function KeptMetrics(metrics: seq<Metric>): (kept: seq<Metric>)
    ensures forall i :: 0 <= i < |kept| ==> kept[i].title != TopGrowthTitle
    ensures IsSubsequence(kept, metrics)
    ensures forall i :: 0 <= i < |metrics| && metrics[i].title != TopGrowthTitle ==> metrics[i] in kept
    ensures forall x :: multiset(kept)[x] == if NotTopGrowth(x) then multiset(metrics)[x] else 0
  {
    FilterIsSubsequence(metrics, NotTopGrowth);
    FilterCount(metrics, NotTopGrowth);
    Filter(metrics, NotTopGrowth)
  }

  /** Merging twice is merging once with the later name: in particular the
      merge is idempotent. */
  lemma MergeTopGrowthTwice(metrics: seq<Metric>, a: string, b: string)
    ensures MergeTopGrowth(MergeTopGrowth(metrics, a), b) == MergeTopGrowth(metrics, b)
  {
    var kept := Filter(metrics, NotTopGrowth);
    FilterAppend(kept, [TopGrowthMetric(a)], NotTopGrowth);
    FilterIdempotent(metrics, NotTopGrowth);
    assert Filter([TopGrowthMetric(a)], NotTopGrowth) == [];
  }

  /** The top-products reply: a non-empty list replaces the top-growth
      card with the first product of largest predicted increase; an empty
      one leaves the list alone. */
  function ApplyTopProducts(metrics: seq<Metric>, products: seq<Product>): (r: seq<Metric>)
    ensures |products| == 0 ==> r == metrics
    ensures |products| > 0 ==>
              exists k :: 0 <= k < |products| && r == MergeTopGrowth(metrics, products[k].name) &&
                (forall j :: 0 <= j < |products| ==> products[j].predictedIncrease <= products[k].predictedIncrease) &&
                (forall j :: 0 <= j < k ==> products[j].predictedIncrease < products[k].predictedIncrease)
  {
    if |products| == 0 then metrics
    else MergeTopGrowth(metrics, products[TopIndex(products)].name)
  }
}
