/** What the three market widgets (components/CurrencyRate.tsx, components/KoreanStock.tsx,
    components/GlobalStock.tsx) share: the chart payload of the data-collector service, the
    period list, the chart area a widget can show, and the colour given to a change rate. */
module Market {
  import opened Common

  /** One series of a chart payload. */
  datatype Dataset = Dataset(name: string, data: seq<real>)

  /** The chart payload: timestamps and the series over them. */
  datatype ChartData = ChartData(labels: seq<string>, datasets: seq<Dataset>)

  /** The period buttons every widget offers, in display order. */
  const Periods: seq<string> := ["today", "yesterday", "oneweek", "onemonth", "threemonth"]

  /** The chart area of a widget: the "no data for this period" notice, a line chart of one
      series, or the "cannot load the chart" text. */
  datatype ChartArea =
    | NoDataNotice
    | LineChart(series: string, labels: seq<string>, points: seq<real>)
    | CannotLoad

  /** The points of the first series, `None` when there is no first series. */
  function FirstSeries(chart: ChartData): (points: Option<seq<real>>)
    ensures points.Some? <==> |chart.datasets| > 0
    ensures points.Some? ==> points.value == chart.datasets[0].data
  {
    if |chart.datasets| > 0 then Some(chart.datasets[0].data) else None
  }

  /** The `chartData` constant the two stock widgets compute at the top of their render,
      before any early return: nothing for a missing or `null` payload, the first series
      under `series` for a stored one, and a throw when the stored payload has no first
      series (`datasets[0].data` on an empty array). */
  datatype StockChartData = NoPayload | Prepared(chart: ChartArea) | ReadThrows

  function PrepareStockChart(series: string, stored: Option<ChartData>): (p: StockChartData)
    ensures p.NoPayload? <==> stored.None?
    ensures p.ReadThrows? <==> stored.Some? && |stored.value.datasets| == 0
    ensures p.Prepared? ==>
      p.chart == LineChart(series, stored.value.labels, stored.value.datasets[0].data)
  {
    match stored
    case None => NoPayload
    case Some(chart) =>
      match FirstSeries(chart)
      case Some(points) => Prepared(LineChart(series, chart.labels, points))
      case None => ReadThrows
  }

  /** The text colours a change rate can take. */
  datatype RateColour = Grey500 | Red500 | Blue500 | Grey700

  /** The currency widget's colour: grey for a missing rate, red for a rise, blue for a fall,
      dark grey for no change. */
  function CurrencyRateColour(changeRate: Option<real>): (c: RateColour)
    ensures c == Grey500 <==> changeRate.None?
    ensures c == Red500 <==> changeRate.Some? && changeRate.value > 0.0
    ensures c == Blue500 <==> changeRate.Some? && changeRate.value < 0.0
    ensures c == Grey700 <==> changeRate == Some(0.0)
  {
    match changeRate
    case None => Grey500
    case Some(x) => if x > 0.0 then Red500 else if x < 0.0 then Blue500 else Grey700
  }

  /** The stock widgets' colour, `(changeRate || 0) > 0`: red for a rise, blue for everything
      else, a missing rate included. */
  function StockRateColour(changeRate: Option<real>): (c: RateColour)
    ensures c == Red500 <==> changeRate.Some? && changeRate.value > 0.0
    ensures c == Red500 || c == Blue500
  {
    if changeRate.Some? && changeRate.value > 0.0 then Red500 else Blue500
  }

  /** The colours depend only on the sign of the rate: scaling it by a positive factor keeps
      them. */
  lemma RateColourIsSignOnly(x: real, k: real)
    requires k > 0.0
    ensures CurrencyRateColour(Some(k * x)) == CurrencyRateColour(Some(x))
    ensures StockRateColour(Some(k * x)) == StockRateColour(Some(x))
  {
    if x > 0.0 {
      assert k * x > 0.0;
    } else if x < 0.0 {
      assert k * x < 0.0;
    }
  }

  /** The widgets agree on rises and falls; they disagree on a missing rate and on no change,
      which the stock widgets paint blue like a fall. */
  lemma RateColoursCompared(changeRate: Option<real>)
    ensures changeRate.Some? && changeRate.value != 0.0 ==>
      StockRateColour(changeRate) == CurrencyRateColour(changeRate)
    ensures changeRate.None? || changeRate == Some(0.0) ==>
      StockRateColour(changeRate) == Blue500 && CurrencyRateColour(changeRate) != Blue500
  {
  }
}
