/** The overseas-stock widget (components/GlobalStock.tsx): a probe of every listed stock
    that keeps the answering ones and moves the selection onto one of them, buttons disabled
    for the rest, explicit `null` entries for failed requests, and the "data unavailable"
    rule that reads them. */
module GlobalStock {
  import opened Common
  import opened Market

  datatype StockEntry = StockEntry(code: string, name: string, market: string)

  /** The listed NASDAQ, NYSE and Hong Kong stocks, in button order. */
  const StockList: seq<StockEntry> := [
    StockEntry("TSLA", "테슬라", "NAS"), StockEntry("AAPL", "애플", "NAS"),
    StockEntry("NVDA", "엔비디아", "NAS"), StockEntry("MSFT", "마이크로소프트", "NAS"),
    StockEntry("AMZN", "아마존", "NAS"), StockEntry("GOOG", "구글(알파벳)", "NAS"),
    StockEntry("META", "메타(페이스북)", "NAS"), StockEntry("AMD", "AMD", "NAS"),
    StockEntry("NFLX", "넷플릭스", "NAS"), StockEntry("BRK/B", "버크셔B주", "NYS"),
    StockEntry("TSM", "TSMC", "NYS"), StockEntry("BABA", "알리바바", "NYS"),
    StockEntry("NIO", "니오(중국전기차)", "NYS"), StockEntry("XOM", "엑슨모빌", "NYS"),
    StockEntry("KO", "코카콜라", "NYS"), StockEntry("JPM", "JP모건", "NYS"),
    StockEntry("V", "비자", "NYS"), StockEntry("09988", "알리바바(홍콩)", "HKS"),
    StockEntry("09618", "징둥닷컴", "HKS"), StockEntry("00700", "텐센트", "HKS")]

  /** How the summary probe of one stock settled: an ok response, a response that is not
      ok, or a thrown error. */
  datatype Probe = ProbeOk | ProbeNotOk | ProbeThrew

  /** The codes, in list order, whose probe answered ok. */
  function AvailableCodes(codes: seq<string>, probes: seq<Probe>): (available: seq<string>)
    requires |codes| == |probes|
    ensures forall c :: c in available <==>
      exists i :: 0 <= i < |codes| && codes[i] == c && probes[i] == ProbeOk
    ensures IsSubsequence(available, codes)
    ensures (forall i :: 0 <= i < |probes| ==> probes[i] == ProbeOk) ==> available == codes
  {
    if codes == [] then []
    else
      var rest := AvailableCodes(codes[1..], probes[1..]);
      assert forall i :: 1 <= i < |codes| ==> codes[i] == codes[1..][i - 1] && probes[i] == probes[1..][i - 1];
      if probes[0] == ProbeOk then
        assert codes == [codes[0]] + codes[1..];
        [codes[0]] + rest
      else
        SubsequenceOfTail(rest, codes);
        rest
  }

  /** The selection after the probe: the first available code when some are available and
      the current one is not among them; otherwise the current one. */
  function AdjustSelection(available: seq<string>, selected: string): (r: string)
    ensures |available| > 0 && selected !in available ==> r == available[0]
    ensures |available| == 0 || selected in available ==> r == selected
    ensures |available| > 0 ==> r in available
  {
    if |available| > 0 && selected !in available then available[0] else selected
  }

  /** `checkAvailableStocks`: probes the stocks to check in order (the whole list, `Codes()`,
      as the source sets it) and returns the codes that answered ok together with the
      adjusted selection. */
  method CheckAvailableStocks(stocksToCheck: seq<string>, selected: string, probes: seq<Probe>)
    returns (available: seq<string>, newSelected: string)
    requires |probes| == |stocksToCheck|
    ensures available == AvailableCodes(stocksToCheck, probes)
    ensures newSelected == AdjustSelection(available, selected)
  {
    available := [];
    var i := 0;
    while i < |stocksToCheck|
      invariant 0 <= i <= |stocksToCheck|
      invariant available + AvailableCodes(stocksToCheck[i..], probes[i..]) ==
        AvailableCodes(stocksToCheck, probes)
    {
      var rest := AvailableCodes(stocksToCheck[i + 1..], probes[i + 1..]);
      assert stocksToCheck[i..][1..] == stocksToCheck[i + 1..] && probes[i..][1..] == probes[i + 1..];
      if probes[i] == ProbeOk {
        assert AvailableCodes(stocksToCheck[i..], probes[i..]) == [stocksToCheck[i]] + rest;
        assert available + ([stocksToCheck[i]] + rest) == (available + [stocksToCheck[i]]) + rest;
        available := available + [stocksToCheck[i]];
      } else {
        assert AvailableCodes(stocksToCheck[i..], probes[i..]) == rest;
      }
      i := i + 1;
    }
    assert stocksToCheck[i..] == [];
    if |available| > 0 && selected !in available {
      newSelected := available[0];
    } else {
      newSelected := selected;
    }
  }

  /** The listed codes in order. */
  function Codes(): (codes: seq<string>)
    ensures |codes| == |StockList|
    ensures forall i :: 0 <= i < |StockList| ==> codes[i] == StockList[i].code
  {
    seq(|StockList|, i requires 0 <= i < |StockList| => StockList[i].code)
  }

  /** A second probe that answers as the first does leaves the adjusted selection where it
      is: the selection effect, which re-runs the probe, settles after one move. */
  lemma AdjustSelectionSettles(available: seq<string>, selected: string)
    ensures AdjustSelection(available, AdjustSelection(available, selected)) ==
      AdjustSelection(available, selected)
  {
  }

  /** `disabled={availableStocks.length > 0 && !availableStocks.includes(code)}`. */
  predicate ButtonDisabled(available: seq<string>, code: string)
  {
    |available| > 0 && code !in available
  }

  /** The adjusted selection's own button is never disabled. */
  lemma SelectionNeverDisabled(available: seq<string>, selected: string)
    ensures !ButtonDisabled(available, AdjustSelection(available, selected))
  {
  }

  /** No code is listed twice. */
  lemma ListedCodesDistinct()
    ensures forall i, j :: 0 <= i < j < |StockList| ==> StockList[i].code != StockList[j].code
  {
  }

  /** After a probe in which some stock answered, a listed stock's button is disabled exactly
      when its own probe did not answer ok; when none answered, no button is. */
  lemma DisabledIffProbeFailed(probes: seq<Probe>, i: int)
    requires |probes| == |StockList| && 0 <= i < |StockList|
    ensures var available := AvailableCodes(Codes(), probes);
      |available| > 0 ==> (ButtonDisabled(available, StockList[i].code) <==> probes[i] != ProbeOk)
    ensures var available := AvailableCodes(Codes(), probes);
      |available| == 0 ==> !ButtonDisabled(available, StockList[i].code)
  {
    ListedCodesDistinct();
    var codes := Codes();
    assert codes[i] == StockList[i].code;
  }

  /** How a stock button is painted: the selection first, then the disabled look. */
  datatype StockButton = Selected | Greyed | Normal

  function StockButtonStyle(available: seq<string>, selected: string, code: string): (b: StockButton)
    ensures b == Selected <==> code == selected
    ensures b == Greyed <==> code != selected && ButtonDisabled(available, code)
  {
    if code == selected then Selected else if ButtonDisabled(available, code) then Greyed else Normal
  }

  datatype StockSummary = StockSummary(
    stockCode: string, stockName: string, currentPrice: Option<real>,
    changeRate: Option<real>, timestamp: string)

  /** The data maps hold `Some` for a payload, `None` for an explicit `null`, and no key for
      `undefined`. */
  datatype State = State(
    stock: string, period: string,
    stockData: map<string, Option<ChartData>>, summaryData: map<string, Option<StockSummary>>,
    available: seq<string>, loading: bool, error: Option<string>)

  /** The end of `checkAvailableStocks`: the list stored, the selection adjusted, loading
      cleared. */
  function ApplyCheck(st: State, available: seq<string>): (r: State)
    ensures r.available == available && !r.loading
    ensures r.stock == AdjustSelection(available, st.stock)
    ensures r.stockData == st.stockData && r.summaryData == st.summaryData
  {
    st.(available := available, stock := AdjustSelection(available, st.stock), loading := false)
  }

  /** One run of `fetchData`: each request stores its payload, or an explicit `null` when it
      fails, under the selected code; loading and the error end cleared. */
  function FetchData(st: State, summary: Outcome<StockSummary>, chart: Outcome<ChartData>): (r: State)
    ensures !r.loading && r.error.None? && r.stock == st.stock && r.available == st.available
    ensures r.summaryData == st.summaryData[st.stock :=
      if summary.Resolved? then Some(summary.value) else None]
    ensures r.stockData == st.stockData[st.stock :=
      if chart.Resolved? then Some(chart.value) else None]
  {
    var started := st.(loading := true, error := None);
    var withSummary := match summary
      case Resolved(s) => started.(summaryData := started.summaryData[st.stock := Some(s)])
      case Rejected(_) => started.(summaryData := started.summaryData[st.stock := None]);
    var withChart := match chart
      case Resolved(data) => withSummary.(stockData := withSummary.stockData[st.stock := Some(data)])
      case Rejected(_) => withSummary.(stockData := withSummary.stockData[st.stock := None]);
    withChart.(loading := false)
  }

  /** `isDataAvailable`: the chart entry or the summary entry is not `null`; a missing
      entry, being `undefined`, counts as not `null`. */
  predicate IsDataAvailable(st: State)
  {
    (st.stock !in st.stockData || st.stockData[st.stock].Some?) ||
    (st.stock !in st.summaryData || st.summaryData[st.stock].Some?)
  }

  /** After a fetch, data is available exactly when one of the two requests succeeded. */
  lemma AvailableAfterFetch(st: State, summary: Outcome<StockSummary>, chart: Outcome<ChartData>)
    ensures IsDataAvailable(FetchData(st, summary, chart)) <==> summary.Resolved? || chart.Resolved?
  {
  }

  /** A stock never fetched has no entries, and so counts as available. */
  lemma UnfetchedCountsAsAvailable(st: State)
    requires st.stock !in st.stockData && st.stock !in st.summaryData
    ensures IsDataAvailable(st)
  {
  }

  /** What the widget renders: a render that throws, or one of its four screens. */
  datatype View =
    | Throws
    | LoadingText
    | ErrorText(message: string)
    | Unavailable(name: Option<string>)
    | Widget(summary: Option<StockSummary>, heading: string, chart: ChartArea)

  /** The payload stored for the selected code, `None` for a missing or `null` entry. */
  function StoredChart(st: State): (stored: Option<ChartData>)
    ensures stored.Some? <==> st.stock in st.stockData && st.stockData[st.stock].Some?
    ensures stored.Some? ==> stored == st.stockData[st.stock]
  {
    if st.stock in st.stockData then st.stockData[st.stock] else None
  }

  /** `stockList.find(stock => stock.code === code)?.label`. */
  function ListedName(code: string): (name: Option<string>)
    ensures name.Some? <==> exists i :: 0 <= i < |StockList| && StockList[i].code == code
    ensures name.Some? ==> exists i :: 0 <= i < |StockList| && StockList[i].code == code &&
                                       name.value == StockList[i].name
  {
    FindName(StockList, code)
  }

  function FindName(list: seq<StockEntry>, code: string): (name: Option<string>)
    ensures name.Some? <==> exists i :: 0 <= i < |list| && list[i].code == code
    ensures name.Some? ==> exists i :: 0 <= i < |list| && list[i].code == code && name.value == list[i].name
  {
    if list == [] then None
    else if list[0].code == code then Some(list[0].name)
    else
      assert forall i :: 1 <= i < |list| ==> list[i] == list[1..][i - 1];
      FindName(list[1..], code)
  }

  /** The render: the chart payload is read first, before any early return, so a stored
      payload without a first series throws whatever else holds; then loading, the error,
      the unavailable notice, and finally the summary, the heading (listed name, else code)
      and the chart. */
  function Render(st: State): (v: View)
    ensures v.Throws? <==> StoredChart(st).Some? && |StoredChart(st).value.datasets| == 0
    ensures v == LoadingText <==> !v.Throws? && st.loading
    ensures v.ErrorText? <==> !v.Throws? && !st.loading && Truthy(st.error)
    ensures v.ErrorText? ==> v.message == st.error.value
    ensures v.Unavailable? <==>
      !v.Throws? && !st.loading && !Truthy(st.error) && !IsDataAvailable(st)
    ensures v.Unavailable? ==> v.name == ListedName(st.stock)
    ensures v.Widget? ==>
      && (v.summary.Some? <==> st.stock in st.summaryData && st.summaryData[st.stock].Some?)
      && (v.summary.Some? ==> v.summary == st.summaryData[st.stock])
      && (v.chart.CannotLoad? <==> StoredChart(st).None?)
      && (StoredChart(st).Some? ==>
            v.chart == LineChart(st.stock, StoredChart(st).value.labels,
                                 StoredChart(st).value.datasets[0].data))
      && (ListedName(st.stock).Some? && ListedName(st.stock).value != "" ==>
            v.heading == ListedName(st.stock).value)
      && (ListedName(st.stock).None? ==> v.heading == st.stock)
  {
    var prepared := PrepareStockChart(st.stock, StoredChart(st));
    if prepared.ReadThrows? then Throws
    else if st.loading then LoadingText
    else if Truthy(st.error) then ErrorText(st.error.value)
    else if !IsDataAvailable(st) then Unavailable(ListedName(st.stock))
    else
      var summary := if st.stock in st.summaryData then st.summaryData[st.stock] else None;
      var name := ListedName(st.stock);
      var heading := if name.Some? && name.value != "" then name.value else st.stock;
      Widget(summary, heading, match prepared case Prepared(chart) => chart case _ => CannotLoad)
  }

  /** When both requests fail the widget shows the unavailable notice; when only the chart
      fails it shows the summary with the "cannot load" text. A failed chart request stores
      `null`, so neither case can throw. */
  lemma FailedRequestsRendered(st: State, summary: Outcome<StockSummary>, thrown: Thrown)
    ensures summary.Rejected? ==>
      Render(FetchData(st, summary, Rejected(thrown))) == Unavailable(ListedName(st.stock))
    ensures summary.Resolved? ==>
      Render(FetchData(st, summary, Rejected(thrown))).chart == CannotLoad
  {
  }

  /** While a fetch is in flight, an earlier payload without a first series still makes the
      render throw: the payload is read before the loading text is returned. */
  lemma ThrowsBeforeLoadingText(st: State)
    requires st.loading
    ensures Render(st) == LoadingText <==>
      !(st.stock in st.stockData && st.stockData[st.stock].Some? &&
        |st.stockData[st.stock].value.datasets| == 0)
  {
  }
}
