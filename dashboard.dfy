/**
 * The dashboard's view state and fetch policy: which source is shown (the live
 * webhook or previously saved reports), which saved report is selected, whether
 * the history list is open, the URL fetched for that state, the retry rules,
 * and how a fetched payload becomes the report on screen.
 */
module Dashboard {
  import opened Options
  import opened Text
  import opened Rows
  import opened Extractor

  const WebhookUrl: string := "/api/webhook-proxy"
  const LatestDataUrl: string := "/api/analytics/latest"
  const ReportUrlPrefix: string := "/api/analytics/"

  datatype DataSource = Live | Previous

  /** The three pieces of view state the component keeps. */
  datatype ViewState = ViewState(dataSource: DataSource, selectedReportId: Option<int>, showHistoryList: bool)

  const InitialView: ViewState := ViewState(Live, None, false)

  /** A selected id counts only when it is truthy: `null` and `0` both mean "no report selected". */
  predicate HasSelection(v: ViewState) {
    v.selectedReportId.Some? && v.selectedReportId.value != 0
  }

  // ---------------------------------------------------------------------------
  // Number formatting in template literals

  function DigitChar(d: nat): (c: char)
    requires d < 10
    ensures IsDigit(c)
  {
    (48 + d) as char
  }

  /** The decimal digits of `n`, without leading zeros. */
  function NatToDecimal(n: nat): (r: string)
    ensures |r| >= 1 && forall i :: 0 <= i < |r| ==> IsDigit(r[i])
    decreases n
  {
    if n < 10 then [DigitChar(n)] else NatToDecimal(n / 10) + [DigitChar(n % 10)]
  }

  /** `${id}` for an integer id. */
  function IntToDecimal(i: int): (r: string)
    ensures |r| >= 1 && (IsDigit(r[0]) || r[0] == '-')
  {
    if i < 0 then "-" + NatToDecimal(-i) else NatToDecimal(i)
  }

  /** The value of a string of decimal digits. */
  function DigitsValue(s: string): nat
    requires forall i :: 0 <= i < |s| ==> IsDigit(s[i])
  {
    if s == [] then 0
    else
      assert IsDigit(s[|s| - 1]);
      DigitsValue(s[..|s| - 1]) * 10 + (s[|s| - 1] as int - 48)
  }

  /** Reading back an optionally signed decimal text. */
  function DecimalToInt(s: string): int
    requires |s| >= 1
    requires forall i :: 1 <= i < |s| ==> IsDigit(s[i])
    requires IsDigit(s[0]) || s[0] == '-'
  {
    if s[0] == '-' then -(DigitsValue(s[1..]) as int) else DigitsValue(s)
  }

  lemma {:induction false} NatToDecimalRoundTrip(n: nat)
    ensures DigitsValue(NatToDecimal(n)) == n
    decreases n
  {
    if n >= 10 {
      var a := NatToDecimal(n / 10);
      NatToDecimalRoundTrip(n / 10);
      assert (a + [DigitChar(n % 10)])[..|a|] == a;
    }
  }

  /** Formatting an id and reading it back gives the id. */
  lemma IntToDecimalRoundTrip(i: int)
    ensures DecimalToInt(IntToDecimal(i)) == i
  {
    if i < 0 {
      NatToDecimalRoundTrip(-i);
      assert IntToDecimal(i)[1..] == NatToDecimal(-i);
    } else {
      NatToDecimalRoundTrip(i);
    }
  }

  lemma IntToDecimalInjective(a: int, b: int)
    ensures IntToDecimal(a) == IntToDecimal(b) <==> a == b
  {
    IntToDecimalRoundTrip(a);
    IntToDecimalRoundTrip(b);
  }

  // ---------------------------------------------------------------------------
  // The URL fetched for a view

  /** `currentUrl`: the webhook proxy when live; the selected report, or the latest one, otherwise. */
  function CurrentUrl(v: ViewState): string {
    if v.dataSource == Previous then
      if HasSelection(v) then ReportUrlPrefix + IntToDecimal(v.selectedReportId.value) else LatestDataUrl
    else WebhookUrl
  }

  function ReportUrl(id: int): string {
    ReportUrlPrefix + IntToDecimal(id)
  }

  /** A report URL is neither of the two fixed URLs, and tells its id. */
  lemma ReportUrlDistinct(a: int, b: int)
    ensures ReportUrl(a) != LatestDataUrl && ReportUrl(a) != WebhookUrl
    ensures ReportUrl(a) == ReportUrl(b) <==> a == b
  {
    var p := ReportUrlPrefix;
    assert ReportUrl(a)[|p|] == IntToDecimal(a)[0];
    assert LatestDataUrl[|p|] == 'l';
    if ReportUrl(a) == ReportUrl(b) {
      assert IntToDecimal(a) == ReportUrl(a)[|p|..];
      assert IntToDecimal(b) == ReportUrl(b)[|p|..];
    }
    IntToDecimalInjective(a, b);
  }

  /** Two views fetch the same URL exactly when they agree on the source and, for saved reports, on the selection. */
  lemma CurrentUrlIdentifiesView(v: ViewState, w: ViewState)
    ensures CurrentUrl(v) == CurrentUrl(w) <==>
      v.dataSource == w.dataSource &&
      (v.dataSource == Previous ==>
        HasSelection(v) == HasSelection(w) && (HasSelection(v) ==> v.selectedReportId == w.selectedReportId))
  {
    assert LatestDataUrl != WebhookUrl by { assert LatestDataUrl[5] != WebhookUrl[5]; }
    if HasSelection(v) {
      ReportUrlDistinct(v.selectedReportId.value, v.selectedReportId.value);
    }
    if HasSelection(w) {
      ReportUrlDistinct(w.selectedReportId.value, w.selectedReportId.value);
    }
    if HasSelection(v) && HasSelection(w) {
      ReportUrlDistinct(v.selectedReportId.value, w.selectedReportId.value);
    }
  }

  // ---------------------------------------------------------------------------
  // Transitions

  /** The view after `toggleDataSource`. */
  function Toggled(v: ViewState): ViewState {
    if v.dataSource == Live then ViewState(Previous, v.selectedReportId, true)
    else if HasSelection(v) then ViewState(Previous, None, true)
    else ViewState(Live, None, false)
  }

  /** The view after `selectReport(id)`. */
  function Selected(v: ViewState, id: int): ViewState {
    ViewState(v.dataSource, Some(id), false)
  }

  /** The history list is never shown in live mode. */
  predicate Valid(v: ViewState) {
    v.dataSource == Live ==> !v.showHistoryList
  }

  class AnalyticsDashboard {
    var dataSource: DataSource
    var selectedReportId: Option<int>
    var showHistoryList: bool

    function View(): ViewState
      reads this
    {
      ViewState(dataSource, selectedReportId, showHistoryList)
    }

    constructor()
      ensures View() == InitialView
    {
      dataSource := Live;
      selectedReportId := None;
      showHistoryList := false;
    }

    /**
     * `toggleDataSource`; the query key it invalidates is the URL of the view
     * it leaves (the closure reads `currentUrl` before the update lands).
     */
    method ToggleDataSource() returns (invalidated: string)
      modifies this
      ensures View() == Toggled(old(View()))
      ensures invalidated == CurrentUrl(old(View()))
    {
      invalidated := CurrentUrl(View());
      if dataSource == Live {
        dataSource := Previous;
        showHistoryList := true;
      } else if selectedReportId.Some? && selectedReportId.value != 0 {
        showHistoryList := true;
        selectedReportId := None;
      } else {
        dataSource := Live;
        showHistoryList := false;
        selectedReportId := None;
      }
    }

    /** `selectReport(reportId)`; it invalidates that report's query key. */
    method SelectReport(reportId: int) returns (invalidated: string)
      modifies this
      ensures View() == Selected(old(View()), reportId)
      ensures invalidated == ReportUrl(reportId)
    {
      selectedReportId := Some(reportId);
      showHistoryList := false;
      invalidated := ReportUrlPrefix + IntToDecimal(reportId);
    }
  }

  /** Both transitions keep the history list out of live mode. */
  lemma TransitionsKeepValid(v: ViewState, id: int)
    requires Valid(v)
    ensures Valid(Toggled(v)) && Valid(Selected(v, id))
    ensures Valid(InitialView)
  {
  }

  /** From the saved-reports side, at most two toggles lead back to the initial live view. */
  lemma ToggleReturnsToLive(v: ViewState)
    requires v.dataSource == Previous
    ensures Toggled(v) == InitialView || Toggled(Toggled(v)) == InitialView
  {
  }

  /** Leaving live mode and coming straight back restores the initial view. */
  lemma ToggleTwiceFromInitial()
    ensures Toggled(InitialView) == ViewState(Previous, None, true)
    ensures Toggled(Toggled(InitialView)) == InitialView
  {
  }

  /** Toggling on the saved-reports side always drops the selection, so the next URL is a fixed one. */
  lemma ToggleOnPreviousClearsSelection(v: ViewState)
    requires v.dataSource == Previous
    ensures Toggled(v).selectedReportId.None?
    ensures CurrentUrl(Toggled(v)) == LatestDataUrl || CurrentUrl(Toggled(v)) == WebhookUrl
  {
  }

  /**
   * On the saved-reports side the key `selectReport` invalidates is the URL now
   * fetched, except for id 0, which `currentUrl` treats as no selection.
   */
  lemma SelectInvalidatesCurrentQuery(v: ViewState, id: int)
    requires v.dataSource == Previous
    ensures id != 0 ==> CurrentUrl(Selected(v, id)) == ReportUrl(id)
    ensures id == 0 ==> CurrentUrl(Selected(v, id)) == LatestDataUrl != ReportUrl(id)
  {
    ReportUrlDistinct(id, id);
  }

  /** In live mode a selection changes nothing that is fetched. */
  lemma SelectInLiveKeepsWebhook(v: ViewState, id: int)
    requires v.dataSource == Live
    ensures CurrentUrl(Selected(v, id)) == WebhookUrl == CurrentUrl(v)
  {
  }

  // ---------------------------------------------------------------------------
  // Retry policy

  /** The `retry` callback: fewer retries for saved reports than for the live webhook. */
  function ShouldRetry(ds: DataSource, failureCount: int): bool {
    if ds == Previous then failureCount < 2 else failureCount < 3
  }

  lemma RetryPolicy(ds: DataSource, n: int, m: int)
    ensures ShouldRetry(ds, n) && m <= n ==> ShouldRetry(ds, m)
    ensures ShouldRetry(Previous, n) ==> ShouldRetry(Live, n)
    ensures ShouldRetry(Live, 2) && !ShouldRetry(Previous, 2) && !ShouldRetry(ds, 3)
  {
  }

  function Pow2(n: nat): (r: nat)
    ensures r >= 1
  {
    if n == 0 then 1 else 2 * Pow2(n - 1)
  }

  lemma {:induction false} Pow2Monotone(a: nat, b: nat)
    requires a <= b
    ensures Pow2(a) <= Pow2(b)
    decreases b
  {
    if a < b {
      Pow2Monotone(a, b - 1);
    }
  }

  /** The `retryDelay` callback, in milliseconds. */
  function RetryDelay(attemptIndex: nat): nat {
    var d := 1000 * Pow2(attemptIndex);
    if d < 30000 then d else 30000
  }

  /** The delay starts at one second, doubles each attempt, and is capped at 30 seconds from the sixth attempt on. */
  lemma RetryDelayBounds(n: nat, m: nat)
    ensures 1000 <= RetryDelay(n) <= 30000
    ensures n <= m ==> RetryDelay(n) <= RetryDelay(m)
    ensures n >= 5 ==> RetryDelay(n) == 30000
    ensures n < 4 ==> RetryDelay(n + 1) == 2 * RetryDelay(n)
  {
    if n <= m {
      Pow2Monotone(n, m);
    }
    if n >= 5 {
      Pow2Monotone(5, n);
    }
    if n < 4 {
      assert n == 0 || n == 1 || n == 2 || n == 3;
    }
  }

  // ---------------------------------------------------------------------------
  // Normalising the fetched payload

  /** A saved report as the server returns it; absent or null columns are `None`. */
  datatype StoredReport = StoredReport(
    weeklyChange: Option<seq<MetricRow>>,
    monthlyChange: Option<seq<MetricRow>>,
    engagementThisWeek: Option<seq<EngagementRow>>,
    engagementPriorWeek: Option<seq<EngagementRow>>,
    weeklyInsight: Option<string>,
    monthlyInsight: Option<string>,
    rawHtml: Option<string>)

  /** One element of the webhook's array; `output` holds the report HTML. */
  datatype WebhookItem = WebhookItem(output: Option<string>)

  /** What a query can hand back: nothing, a saved-report object, or the webhook's array. */
  datatype Payload = NoPayload | Stored(report: StoredReport) | Items(items: seq<WebhookItem>)

  function OrElse<T>(x: Option<T>, fallback: T): T {
    if x.Some? then x.value else fallback
  }

  /** `x || ''` for a string that may be absent. */
  function TextOrEmpty(x: Option<string>): string {
    if x.Some? && x.value != "" then x.value else ""
  }

  /** The fields of a report the server keeps when a parsed report is saved. */
  function SavedReport(d: AnalyticsData): StoredReport {
    StoredReport(Some(d.weeklyChange), Some(d.monthlyChange), Some(d.engagementThisWeek),
      Some(d.engagementPriorWeek), d.weeklyInsight, d.monthlyInsight, Some(d.rawHtml))
  }

  /**
   * `analyticsData`: the report shown for a fetched payload.  Saved reports are
   * taken field by field with empty defaults; the webhook's array is parsed from
   * its first element's HTML.  `parseHtml` stands for `parseAnalyticsHTML`,
   * which `Extractor.AnalyticsOf` models (with the browser's `DOMParser` as a
   * parameter there); here it is a parameter so that the view logic is stated
   * for any parser.
   */
  function Normalise(ds: DataSource, payload: Payload, parseHtml: string -> AnalyticsData): Option<AnalyticsData> {
    match payload
    case NoPayload => None
    case Stored(rep) =>
      if ds == Previous then
        Some(AnalyticsData(OrElse(rep.weeklyChange, []), OrElse(rep.monthlyChange, []),
          OrElse(rep.engagementThisWeek, []), OrElse(rep.engagementPriorWeek, []),
          None, None, None, None, rep.weeklyInsight, rep.monthlyInsight, TextOrEmpty(rep.rawHtml)))
      else None
    case Items(items) =>
      if ds == Previous then
        Some(AnalyticsData([], [], [], [], None, None, None, None, None, None, ""))
      else if |items| > 0 && items[0].output.Some? && items[0].output.value != "" then
        var html := items[0].output.value;
        Some(parseHtml(html))
      else None
  }

  /** With a payload, the saved-reports side always shows a report, without search or country sections. */
  lemma PreviousAlwaysShows(payload: Payload, parseHtml: string -> AnalyticsData)
    requires payload != NoPayload
    ensures var r := Normalise(Previous, payload, parseHtml);
      r.Some? && r.value.searchResultsThisWeek.None? && r.value.countryViewsThisWeek.None? &&
      r.value.searchResultsLastWeek.None? && r.value.countryViewsLastWeek.None?
    ensures Normalise(Live, NoPayload, parseHtml).None? && Normalise(Previous, NoPayload, parseHtml).None?
  {
  }

  /**
   * The live side shows a report exactly when the array's first element has
   * non-empty HTML, and that report is the parse of that HTML.
   */
  lemma LiveParsesFirstOutput(items: seq<WebhookItem>, parseHtml: string -> AnalyticsData)
    ensures Normalise(Live, Items(items), parseHtml).Some? <==>
      |items| > 0 && items[0].output.Some? && items[0].output.value != ""
    ensures Normalise(Live, Items(items), parseHtml).Some? ==>
      Normalise(Live, Items(items), parseHtml).value == parseHtml(items[0].output.value)
  {
  }

  /** Elements after the first never influence the live report. */
  lemma LiveIgnoresLaterItems(first: WebhookItem, rest: seq<WebhookItem>, parseHtml: string -> AnalyticsData)
    ensures Normalise(Live, Items([first] + rest), parseHtml) == Normalise(Live, Items([first]), parseHtml)
  {
    assert ([first] + rest)[0] == first;
  }

  /** A report saved from the live side and read back shows the same tables, insights and HTML. */
  lemma SavedReportReadsBack(d: AnalyticsData, parseHtml: string -> AnalyticsData)
    ensures var r := Normalise(Previous, Stored(SavedReport(d)), parseHtml);
      r == Some(d.(searchResultsThisWeek := None, searchResultsLastWeek := None,
        countryViewsThisWeek := None, countryViewsLastWeek := None))
  {
  }
}
