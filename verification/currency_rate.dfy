/** The exchange-rate widget (components/CurrencyRate.tsx): one fetch per selected currency
    pair and period, a per-(pair, period) "no data" flag that a 404 raises and a success
    lowers, a general error for every other chart failure, and the render precedence that
    follows from them. */
module CurrencyRate {
  import opened Common
  import opened Text
  import opened Market

  const CurrencyPairs: seq<string> := ["EUR/USD", "USD/KRW", "JPY/KRW"]

  const ChartErrorPrefix := "차트 데이터를 불러오는 데 실패했습니다: "
  const UnknownReason := "알 수 없는 오류"

  datatype ForexSummary = ForexSummary(
    currencyCode: string, currencyName: string, exchangeRate: Option<real>,
    changeRate: Option<real>, timestamp: string)

  /** What a failed chart request carries: the HTTP status when a response arrived, and the
      error's message. */
  datatype ApiError = ApiError(status: Option<int>, message: Option<string>)

  datatype ChartResult = ChartLoaded(chart: ChartData) | ChartFailed(error: ApiError)

  /** `forexData` and `summaryData` are keyed by pair, `periodErrors` by `PeriodKey`; a key
      missing from a map is `undefined`. */
  datatype State = State(
    currency: string, period: string,
    forexData: map<string, ChartData>, summaryData: map<string, ForexSummary>,
    loading: bool, error: Option<string>, periodErrors: map<string, bool>)

  /** The key of a (pair, period) flag, `${currency}_${period}`. */
  function PeriodKey(currency: string, period: string): (key: string)
    ensures |key| == |currency| + 1 + |period| && key[|currency|] == '_'
    ensures key[..|currency|] == currency && key[|currency| + 1..] == period
  {
    currency + "_" + period
  }

  /** Distinct pairs get distinct flags, as long as no pair code contains an underscore. */
  lemma PeriodKeyInjective(c1: string, p1: string, c2: string, p2: string)
    requires '_' !in c1 && '_' !in c2
    ensures PeriodKey(c1, p1) == PeriodKey(c2, p2) <==> c1 == c2 && p1 == p2
  {
  }

  /** The displayed pairs contain no underscore, so every displayed (pair, period) has a flag
      of its own. */
  lemma DisplayedKeysDistinct(i: int, j: int, p: string, q: string)
    requires 0 <= i < |CurrencyPairs| && 0 <= j < |CurrencyPairs|
    ensures PeriodKey(CurrencyPairs[i], p) == PeriodKey(CurrencyPairs[j], q) <==> i == j && p == q
  {
    assert forall k :: 0 <= k < |CurrencyPairs| ==> '_' !in CurrencyPairs[k];
    PeriodKeyInjective(CurrencyPairs[i], p, CurrencyPairs[j], q);
  }

  /** Whether the flag of the selected pair and period is raised; an absent flag is not. */
  predicate HasPeriodError(st: State)
  {
    var key := PeriodKey(st.currency, st.period);
    key in st.periodErrors && st.periodErrors[key]
  }

  /** The start of `fetchData`: loading shown, general error cleared. */
  function Start(st: State): (r: State)
    ensures r.loading && r.error.None?
    ensures r == st.(loading := true, error := None)
  {
    st.(loading := true, error := None)
  }

  /** The chart outcome's effect on a started state. */
  function ApplyChart(st: State, chart: ChartResult): (r: State)
    ensures r.currency == st.currency && r.period == st.period
    ensures r.summaryData == st.summaryData && r.loading == st.loading
    ensures chart.ChartLoaded? ==>
      && r.forexData == st.forexData[st.currency := chart.chart]
      && r.periodErrors == st.periodErrors[PeriodKey(st.currency, st.period) := false]
      && r.error == st.error
    ensures chart.ChartFailed? ==> r.forexData == st.forexData
    ensures chart.ChartFailed? && chart.error.status == Some(404) ==>
      r.periodErrors == st.periodErrors[PeriodKey(st.currency, st.period) := true] && r.error == st.error
    ensures chart.ChartFailed? && chart.error.status != Some(404) ==>
      && r.periodErrors == st.periodErrors
      && r.error == Some(ChartErrorPrefix +
                         if Truthy(chart.error.message) then chart.error.message.value else UnknownReason)
  {
    var key := PeriodKey(st.currency, st.period);
    match chart
    case ChartLoaded(data) =>
      st.(forexData := st.forexData[st.currency := data], periodErrors := st.periodErrors[key := false])
    case ChartFailed(err) =>
      if err.status == Some(404) then st.(periodErrors := st.periodErrors[key := true])
      else
        var reason := if Truthy(err.message) then err.message.value else UnknownReason;
        st.(error := Some(ChartErrorPrefix + reason))
  }

  /** One run of `fetchData` for the selected pair and period: the summary request, whose
      failure is only logged, then the chart request, then loading cleared. */
  function FetchData(st: State, summary: Outcome<ForexSummary>, chart: ChartResult): (r: State)
    ensures !r.loading && r.currency == st.currency && r.period == st.period
    ensures summary.Resolved? ==> r.summaryData == st.summaryData[st.currency := summary.value]
    ensures summary.Rejected? ==> r.summaryData == st.summaryData
    ensures r.error.Some? <==> chart.ChartFailed? && chart.error.status != Some(404)
    ensures chart.ChartLoaded? ==>
      r.forexData == st.forexData[st.currency := chart.chart] && !HasPeriodError(r)
    ensures chart.ChartFailed? ==> r.forexData == st.forexData
    ensures chart.ChartFailed? && chart.error.status == Some(404) ==> HasPeriodError(r)
    ensures chart.ChartFailed? && chart.error.status != Some(404) ==> r.periodErrors == st.periodErrors
  {
    var started := Start(st);
    var withSummary := match summary
      case Resolved(s) => started.(summaryData := started.summaryData[st.currency := s])
      case Rejected(_) => started;
    ApplyChart(withSummary, chart).(loading := false)
  }

  /** A fetch touches the flag of the selected pair and period only. */
  lemma OnlySelectedFlagChanges(st: State, summary: Outcome<ForexSummary>, chart: ChartResult, key: string)
    requires key != PeriodKey(st.currency, st.period)
    ensures var r := FetchData(st, summary, chart);
      (key in r.periodErrors <==> key in st.periodErrors) &&
      (key in st.periodErrors ==> r.periodErrors[key] == st.periodErrors[key])
  {
  }

  /** What the widget renders. */
  datatype View =
    | Spinner
    | ErrorBanner(message: string)
    | Widget(summary: Option<ForexSummary>, chart: ChartArea)

  /** `prepareChartData`: the first series of the pair's stored payload under the pair's
      code; a missing payload or one without a first series gives no chart. */
  function PreparedChart(st: State): (area: ChartArea)
    ensures area.LineChart? || area.CannotLoad?
    ensures area.LineChart? <==>
      st.currency in st.forexData && FirstSeries(st.forexData[st.currency]).Some?
    ensures area.LineChart? ==>
      area == LineChart(st.currency, st.forexData[st.currency].labels,
                        st.forexData[st.currency].datasets[0].data)
  {
    if st.currency !in st.forexData then CannotLoad
    else
      var data := st.forexData[st.currency];
      match FirstSeries(data)
      case Some(points) => LineChart(st.currency, data.labels, points)
      case None => CannotLoad
  }

  /** The render: loading first, then the general error, then the widget, whose chart area
      shows the period notice before any chart. */
  function Render(st: State): (v: View)
    ensures v == Spinner <==> st.loading
    ensures v.ErrorBanner? <==> !st.loading && Truthy(st.error)
    ensures v.ErrorBanner? ==> v.message == st.error.value
    ensures v.Widget? ==>
      && (v.summary.Some? <==> st.currency in st.summaryData)
      && (v.summary.Some? ==> v.summary.value == st.summaryData[st.currency])
      && (v.chart == NoDataNotice <==> HasPeriodError(st))
      && (!HasPeriodError(st) ==> v.chart == PreparedChart(st))
  {
    if st.loading then Spinner
    else if Truthy(st.error) then ErrorBanner(st.error.value)
    else
      var summary := if st.currency in st.summaryData then Some(st.summaryData[st.currency]) else None;
      Widget(summary, if HasPeriodError(st) then NoDataNotice else PreparedChart(st))
  }

  /** While a fetch is in flight the spinner hides everything else. */
  lemma StartShowsSpinner(st: State)
    ensures Render(Start(st)) == Spinner
  {
  }

  /** After a fetch, the "no data for this period" notice shows exactly when the chart
      request answered 404; every other failure shows the error banner instead. */
  lemma NoDataNoticeIffNotFound(st: State, summary: Outcome<ForexSummary>, chart: ChartResult)
    ensures var v := Render(FetchData(st, summary, chart));
      (v.Widget? && v.chart == NoDataNotice) <==> chart.ChartFailed? && chart.error.status == Some(404)
    ensures var v := Render(FetchData(st, summary, chart));
      v.ErrorBanner? <==> chart.ChartFailed? && chart.error.status != Some(404)
  {
    var r := FetchData(st, summary, chart);
    if r.error.Some? {
      assert r.error.value[0] == ChartErrorPrefix[0];
    }
  }

  /** A successful chart with a first series is drawn under the pair's code. */
  lemma LoadedChartIsDrawn(st: State, summary: Outcome<ForexSummary>, data: ChartData)
    requires |data.datasets| > 0
    ensures Render(FetchData(st, summary, ChartLoaded(data))) ==
      Widget(if summary.Resolved? then Some(summary.value)
             else if st.currency in st.summaryData then Some(st.summaryData[st.currency]) else None,
             LineChart(st.currency, data.labels, data.datasets[0].data))
  {
  }

  /** `setSelectedCurrency` and `setSelectedPeriod`: a button only changes the selection,
      even one painted as unavailable. */
  function Select(st: State, currency: string, period: string): (r: State)
    ensures r.currency == currency && r.period == period
    ensures r.forexData == st.forexData && r.periodErrors == st.periodErrors && r.error == st.error
  {
    st.(currency := currency, period := period)
  }

  /** How a period button is painted. */
  datatype PeriodButton = Selected | LooksUnavailable | Available

  function PeriodButtonStyle(st: State, value: string): (b: PeriodButton)
    ensures b == Selected <==> value == st.period
    ensures b == LooksUnavailable <==>
      value != st.period && PeriodKey(st.currency, value) in st.periodErrors &&
      st.periodErrors[PeriodKey(st.currency, value)]
  {
    var key := PeriodKey(st.currency, value);
    if value == st.period then Selected
    else if key in st.periodErrors && st.periodErrors[key] then LooksUnavailable
    else Available
  }

  /** A period painted as unavailable can still be chosen; choosing it shows its flag. */
  lemma UnavailablePeriodStillSelectable(st: State, value: string)
    requires PeriodButtonStyle(st, value) == LooksUnavailable
    ensures HasPeriodError(Select(st, st.currency, value))
    ensures PeriodButtonStyle(Select(st, st.currency, value), value) == Selected
  {
  }
}
