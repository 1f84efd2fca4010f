/** The domestic-stock widget (components/KoreanStock.tsx): each fetch resets its flags, a
    chart error is classified as "not found" or generic by its message, the selected code is
    shown under its listed name, and the not-found notice wins over any stored chart. */
module KoreanStock {
  import opened Common
  import opened Text
  import opened Market

  datatype StockEntry = StockEntry(code: string, name: string)

  /** The listed KOSPI and KOSDAQ stocks, in button order. */
  const StockList: seq<StockEntry> := [
    StockEntry("005930", "삼성전자"), StockEntry("373220", "LG에너지솔루션"),
    StockEntry("000660", "SK하이닉스"), StockEntry("207940", "삼성바이오로직스"),
    StockEntry("035420", "NAVER"), StockEntry("051910", "LG화학"),
    StockEntry("006400", "삼성SDI"), StockEntry("005380", "현대차"),
    StockEntry("035720", "카카오"), StockEntry("068270", "셀트리온"),
    StockEntry("000270", "기아"), StockEntry("028260", "삼성물산"),
    StockEntry("105560", "KB금융"), StockEntry("323410", "카카오뱅크"),
    StockEntry("011200", "HMM"), StockEntry("035900", "JYP Ent."),
    StockEntry("066570", "LG전자"), StockEntry("096770", "SK이노베이션"),
    StockEntry("078930", "GS"), StockEntry("000810", "삼성화재")]

  const GenericChartError := "주식 데이터를 불러오는 데 실패했습니다."

  /** The marker a chart error's message must contain to count as "not found". */
  const NotFoundMarker := "404"

  datatype StockSummary = StockSummary(
    currentPrice: Option<real>, changeRate: Option<real>, timestamp: Option<string>)

  datatype State = State(
    stock: string, period: string,
    stockData: map<string, ChartData>, summaryData: map<string, StockSummary>,
    isLoading: bool, errorMessage: Option<string>, notFound: bool)

  /** `stockList.find(item => item.code === code)`, as the index of the first match. */
  function FindCode(list: seq<StockEntry>, code: string): (found: Option<nat>)
    ensures found.Some? ==>
      && found.value < |list| && list[found.value].code == code
      && forall j :: 0 <= j < found.value ==> list[j].code != code
    ensures found.None? ==> forall j :: 0 <= j < |list| ==> list[j].code != code
  {
    if list == [] then None
    else if list[0].code == code then Some(0)
    else
      match FindCode(list[1..], code)
      case Some(i) => Some(i + 1)
      case None => None
  }

  /** `getSelectedStockLabel`: the listed name of the code, or the code itself. */
  function SelectedLabel(code: string): (shown: string)
    ensures (forall j :: 0 <= j < |StockList| ==> StockList[j].code != code) ==> shown == code
    ensures (exists j :: 0 <= j < |StockList| && StockList[j].code == code) ==>
      exists j :: 0 <= j < |StockList| && StockList[j].code == code && shown == StockList[j].name
  {
    match FindCode(StockList, code)
    case Some(i) => StockList[i].name
    case None => code
  }

  /** No code is listed twice. */
  lemma ListedCodesDistinct()
    ensures forall i, j :: 0 <= i < j < |StockList| ==> StockList[i].code != StockList[j].code
  {
  }

  /** Every listed stock is shown under its own listed name. */
  lemma ListedLabel(i: int)
    requires 0 <= i < |StockList|
    ensures SelectedLabel(StockList[i].code) == StockList[i].name
  {
    ListedCodesDistinct();
    FindCodeOfDistinct(StockList, i);
  }

  /** In a list without repeated codes, the lookup of an entry's code finds that entry. */
  lemma FindCodeOfDistinct(list: seq<StockEntry>, i: int)
    requires 0 <= i < |list|
    requires forall a, b :: 0 <= a < b < |list| ==> list[a].code != list[b].code
    ensures FindCode(list, list[i].code) == Some(i)
  {
    var found := FindCode(list, list[i].code);
    assert found.Some?;
  }

  /** Whether a chart error counts as "not found": an `Error` whose message contains
      "404". */
  predicate IsNotFound(thrown: Thrown)
  {
    thrown.ErrorThrown? && Contains(thrown.message, NotFoundMarker)
  }

  /** One run of `fetchData`: both flags reset, the summary request (a failure keeps what
      was stored), then the chart request, then loading cleared. */
  function FetchData(st: State, summary: Outcome<StockSummary>, chart: Outcome<ChartData>): (r: State)
    ensures !r.isLoading && r.stock == st.stock && r.period == st.period
    ensures summary.Resolved? ==> r.summaryData == st.summaryData[st.stock := summary.value]
    ensures summary.Rejected? ==> r.summaryData == st.summaryData
    ensures chart.Resolved? ==>
      r.stockData == st.stockData[st.stock := chart.value] && r.errorMessage.None? && !r.notFound
    ensures chart.Rejected? ==> r.stockData == st.stockData
    ensures chart.Rejected? ==> (r.notFound <==> IsNotFound(chart.thrown))
    ensures chart.Rejected? ==>
      r.errorMessage == if IsNotFound(chart.thrown) then None else Some(GenericChartError)
  {
    var reset := st.(isLoading := true, errorMessage := None, notFound := false);
    var withSummary := match summary
      case Resolved(s) => reset.(summaryData := reset.summaryData[st.stock := s])
      case Rejected(_) => reset;
    var settled := match chart
      case Resolved(data) => withSummary.(stockData := withSummary.stockData[st.stock := data])
      case Rejected(thrown) =>
        if IsNotFound(thrown) then withSummary.(notFound := true)
        else withSummary.(errorMessage := Some(GenericChartError));
    settled.(isLoading := false)
  }

  /** The flags of an earlier fetch never survive a later one: two fetches with the same
      chart outcome end with the same flags, whatever state and summary outcome they started
      from. */
  lemma FlagsFollowLatestFetch(
    st1: State, summary1: Outcome<StockSummary>, st2: State, summary2: Outcome<StockSummary>,
    chart: Outcome<ChartData>)
    ensures FetchData(st1, summary1, chart).notFound == FetchData(st2, summary2, chart).notFound
    ensures FetchData(st1, summary1, chart).errorMessage == FetchData(st2, summary2, chart).errorMessage
  {
  }

  /** What the widget renders: a render that throws, or the page, whose loading text, error
      text, summary and chart area are independent blocks, so several can show at once. */
  datatype View =
    | Throws
    | Page(loadingText: bool, errorText: Option<string>, summary: Option<StockSummary>,
           title: string, chart: ChartArea)

  /** The payload stored for the selected code, `None` when there is none. */
  function StoredChart(st: State): (stored: Option<ChartData>)
    ensures stored.Some? <==> st.stock in st.stockData
    ensures stored.Some? ==> stored.value == st.stockData[st.stock]
  {
    if st.stock in st.stockData then Some(st.stockData[st.stock]) else None
  }

  /** The render: the chart payload is read first, so a stored payload without a first
      series throws whatever the flags say; otherwise the not-found notice wins over any
      stored chart. */
  function Render(st: State): (v: View)
    ensures v.Throws? <==> st.stock in st.stockData && |st.stockData[st.stock].datasets| == 0
    ensures v.Page? ==>
      && v.loadingText == st.isLoading
      && (v.errorText.Some? <==> Truthy(st.errorMessage))
      && (v.errorText.Some? ==> v.errorText == st.errorMessage)
      && (v.summary.Some? <==> st.stock in st.summaryData)
      && (v.summary.Some? ==> v.summary.value == st.summaryData[st.stock])
      && v.title == SelectedLabel(st.stock)
      && (st.notFound ==> v.chart == NoDataNotice)
      && (!st.notFound && st.stock in st.stockData ==>
            v.chart == LineChart(SelectedLabel(st.stock), st.stockData[st.stock].labels,
                                 st.stockData[st.stock].datasets[0].data))
      && (!st.notFound && st.stock !in st.stockData ==> v.chart == CannotLoad)
  {
    var prepared := PrepareStockChart(SelectedLabel(st.stock), StoredChart(st));
    if prepared.ReadThrows? then Throws
    else
      var summary := if st.stock in st.summaryData then Some(st.summaryData[st.stock]) else None;
      var chart :=
        if st.notFound then NoDataNotice
        else match prepared case Prepared(area) => area case _ => CannotLoad;
      Page(st.isLoading, if Truthy(st.errorMessage) then st.errorMessage else None, summary,
           SelectedLabel(st.stock), chart)
  }

  /** The stored chart is keyed by stock only: when a chart request fails with a generic
      error, the error text shows above the chart loaded earlier for that stock, whichever
      period it was for; an earlier payload without a series makes the render throw. */
  lemma GenericErrorKeepsEarlierChart(
    st: State, summary: Outcome<StockSummary>, thrown: Thrown)
    requires !IsNotFound(thrown) && st.stock in st.stockData
    ensures var v := Render(FetchData(st, summary, Rejected(thrown)));
      var data := st.stockData[st.stock];
      if |data.datasets| == 0 then v.Throws?
      else v.Page? && v.errorText == Some(GenericChartError) &&
           v.chart == LineChart(SelectedLabel(st.stock), data.labels, data.datasets[0].data)
  {
  }

  /** A stored payload without a first series makes the render throw even while the
      not-found notice is due: the payload is read before the notice is chosen. */
  lemma ThrowsBeforeNotFoundNotice(st: State)
    requires st.notFound
    ensures Render(st) == Throws <==>
      st.stock in st.stockData && |st.stockData[st.stock].datasets| == 0
    ensures Render(st).Page? ==> Render(st).chart == NoDataNotice
  {
  }

  /** The message the chart request wrapper throws for a response that is not ok: a fixed
      prefix and the response's status text. */
  const StockDataErrorPrefix := "Error fetching stock data: "

  function StockDataError(statusText: string): Thrown
  {
    ErrorThrown(StockDataErrorPrefix + statusText)
  }

  /** Through the wrapper, "not found" is decided by the status text alone: it is raised
      exactly when the status text contains "404", the prefix holding no '4'. */
  lemma {:induction false} NotFoundFromStatusText(st: State, summary: Outcome<StockSummary>, statusText: string)
    ensures FetchData(st, summary, Rejected(StockDataError(statusText))).notFound <==>
      Contains(statusText, NotFoundMarker)
  {
    assert NotFoundMarker[0] == '4';
    assert '4' !in StockDataErrorPrefix;
    ContainsAfterPrefix(StockDataErrorPrefix, statusText, NotFoundMarker);
  }

  /** A 404 response whose status text is the reason phrase "Not Found" is reported as the
      generic error, not as missing data. */
  lemma ReasonPhraseIsGeneric(st: State, summary: Outcome<StockSummary>)
    ensures var r := FetchData(st, summary, Rejected(StockDataError("Not Found")));
      !r.notFound && r.errorMessage == Some(GenericChartError)
  {
    assert NotFoundMarker[0] !in "Not Found";
    FirstCharAbsent("Not Found", NotFoundMarker);
    NotFoundFromStatusText(st, summary, "Not Found");
  }
}
