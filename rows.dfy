/**
 * Row extraction: turning the `tr` rows of a located table into typed rows,
 * and deriving a metric's signed change from its change text.
 */
module Rows {
  import opened Options
  import opened Text
  import opened Dom

  /** A parsed change: its sign and the magnitude exactly as matched (`\d+\.?\d*`). */
  datatype Percent = Percent(negative: bool, magnitude: string)

  datatype MetricRow = MetricRow(
    metric: string, current: string, previous: string, change: string,
    changePercent: Option<Percent>, isPositive: Option<bool>)

  datatype EngagementRow = EngagementRow(
    page: string, pageViews: string, activeUsers: string, viewsPerUser: string, eventCount: string)

  datatype SearchResultRow = SearchResultRow(
    page: string, activeUsers: string, engagedSessions: string, engagementRate: string,
    eventCount: string, avgPosition: string, ctr: string, clicks: string, impressions: string)

  datatype CountryRow = CountryRow(
    country: string, activeUsers: string, newUsers: string, engagementRate: string,
    engagedSessions: string, eventCount: string, totalUsers: string, sessions: string)

  // ---------------------------------------------------------------------------
  // The regular expression -?(\d+\.?\d*)%

  /** The length of the run of ASCII digits starting at `j`. */
  function DigitRun(s: string, j: nat): (n: nat)
    requires j <= |s|
    ensures j + n <= |s|
    ensures forall i :: j <= i < j + n ==> IsDigit(s[i])
    ensures j + n == |s| || !IsDigit(s[j + n])
    decreases |s| - j
  {
    if j < |s| && IsDigit(s[j]) then 1 + DigitRun(s, j + 1) else 0
  }

  /** What group 1 captures when `\d+\.?\d*%` is matched at position `j`, with the regex's backtracking. */
  function NumberAt(s: string, j: nat): Option<string>
    requires j <= |s|
  {
    var k := j + DigitRun(s, j);
    if k == j then None
    else if k < |s| && s[k] == '%' then Some(s[j..k])
    else if k < |s| && s[k] == '.' then
      var m := k + 1 + DigitRun(s, k + 1);
      if m < |s| && s[m] == '%' then Some(s[j..m]) else None
    else None
  }

  /** `g` has the shape `\d+\.?\d*`: a leading digit, then digits and at most one dot. */
  ghost predicate IsNumberText(g: string) {
    && |g| > 0 && IsDigit(g[0])
    && (forall i :: 0 <= i < |g| ==> IsDigit(g[i]) || g[i] == '.')
    && (forall a, b :: 0 <= a < b < |g| && g[a] == '.' ==> g[b] != '.')
  }

  /** `\d+\.?\d*%` matches at `j` with group `g`. */
  ghost predicate NumberMatch(s: string, j: nat, g: string) {
    j + |g| < |s| && s[j..j + |g|] == g && s[j + |g|] == '%' && IsNumberText(g)
  }

  lemma {:induction false} DigitRunExact(s: string, j: nat, n: nat)
    requires j + n <= |s|
    requires forall i :: j <= i < j + n ==> IsDigit(s[i])
    requires j + n == |s| || !IsDigit(s[j + n])
    ensures DigitRun(s, j) == n
    decreases n
  {
    if n > 0 {
      DigitRunExact(s, j + 1, n - 1);
    }
  }

  /** What `NumberAt` captures is a match, and every match is what it captures. */
  lemma NumberAtIff(s: string, j: nat, g: string)
    requires j <= |s|
    ensures NumberAt(s, j) == Some(g) <==> NumberMatch(s, j, g)
  {
    if NumberAt(s, j) == Some(g) {
      NumberAtSound(s, j);
    }
    if NumberMatch(s, j, g) {
      NumberAtComplete(s, j, g);
    }
  }

  /** A capture is a match: digits, at most one dot, then '%'. */
  lemma NumberAtSound(s: string, j: nat)
    requires j <= |s|
    requires NumberAt(s, j).Some?
    ensures NumberMatch(s, j, NumberAt(s, j).value)
  {
    var g := NumberAt(s, j).value;
    var d := DigitRun(s, j);
    var k := j + d;
    if k < |s| && s[k] == '%' {
      assert g == s[j..k];
      assert IsNumberText(g);
    } else {
      var m := k + 1 + DigitRun(s, k + 1);
      assert g == s[j..m];
      assert forall i :: 0 <= i < |g| ==> IsDigit(g[i]) || g[i] == '.';
      forall a, b | 0 <= a < b < |g| && g[a] == '.' ensures g[b] != '.' {
        assert a == d;
      }
    }
  }

  /** A match is captured: the digit runs before and after its dot are maximal. */
  lemma NumberAtComplete(s: string, j: nat, g: string)
    requires NumberMatch(s, j, g)
    ensures NumberAt(s, j) == Some(g)
  {
    var p := FirstDot(g);
    assert forall i :: j <= i < j + p ==> s[i] == g[i - j];
    DigitRunExact(s, j, p);
    if p < |g| {
      assert forall i :: p < i < |g| ==> IsDigit(g[i]);
      DigitRunExact(s, j + p + 1, |g| - p - 1);
    }
  }

  function FirstDot(g: string): (p: nat)
    ensures p <= |g| && (p < |g| ==> g[p] == '.')
    ensures forall i :: 0 <= i < p ==> g[i] != '.'
  {
    if g == [] then 0 else if g[0] == '.' then 0 else 1 + FirstDot(g[1..])
  }

  /** Group 1 of the leftmost match at or after `from`. */
  function FirstNumber(s: string, from: nat): (r: Option<string>)
    requires from <= |s|
    decreases |s| - from
  {
    match NumberAt(s, from)
    case Some(g) => Some(g)
    case None => if from == |s| then None else FirstNumber(s, from + 1)
  }

  /**
   * `s.match(/-?(\d+\.?\d*)%/)[1]` is the group at the leftmost position where
   * the unsigned part matches; the optional '-' in front never changes it.
   */
  lemma {:induction false} FirstNumberIsLeftmost(s: string, from: nat)
    requires from <= |s|
    ensures FirstNumber(s, from).Some? ==>
      exists j :: from <= j <= |s| && NumberAt(s, j) == FirstNumber(s, from)
        && forall i :: from <= i < j ==> NumberAt(s, i).None?
    ensures FirstNumber(s, from).None? ==> forall i :: from <= i <= |s| ==> NumberAt(s, i).None?
    decreases |s| - from
  {
    if NumberAt(s, from).None? && from < |s| {
      FirstNumberIsLeftmost(s, from + 1);
    }
  }

  /** The same, stated with the regex's own match relation. */
  lemma FirstNumberMatches(s: string)
    ensures FirstNumber(s, 0).Some? ==>
      exists j :: 0 <= j <= |s| && NumberMatch(s, j, FirstNumber(s, 0).value)
        && forall i :: 0 <= i < j ==> NumberAt(s, i).None?
    ensures FirstNumber(s, 0).None? ==> forall i, g :: 0 <= i <= |s| ==> !NumberMatch(s, i, g)
  {
    FirstNumberIsLeftmost(s, 0);
    if FirstNumber(s, 0).Some? {
      var j :| 0 <= j <= |s| && NumberAt(s, j) == FirstNumber(s, 0)
        && forall i :: 0 <= i < j ==> NumberAt(s, i).None?;
      NumberAtIff(s, j, FirstNumber(s, 0).value);
    } else {
      forall i, g | 0 <= i <= |s| ensures !NumberMatch(s, i, g) {
        NumberAtIff(s, i, g);
      }
    }
  }

  // ---------------------------------------------------------------------------
  // Change classification

  /** `changePercent` and `isPositive` for a change text (a row with at least four cells). */
  function ClassifyChange(change: string): (r: (Option<Percent>, Option<bool>))
    // isPositive is set only when a percentage was read, and agrees with its sign
    ensures r.1.Some? ==> r.0.Some? && r.0.value.negative == !r.1.value
    ensures r.1 == Some(false) <==> r.0.Some? && StartsWith(change, "-") && change != "0%"
    ensures change == "" || change == "N/A" ==> r == (None, None)
    ensures change == "0%" ==> r == (Some(Percent(false, "0")), None)
  {
    if change != "" && change != "N/A" && change != "0%" then
      match FirstNumber(change, 0)
      case Some(g) =>
        if StartsWith(change, "-") then (Some(Percent(true, g)), Some(false))
        else (Some(Percent(false, g)), Some(true))
      case None => (None, None)
    else if change == "0%" then (Some(Percent(false, "0")), None)
    else (None, None)
  }

  /**
   * Apart from the three special texts, a change is read as the first match
   * of the percentage pattern; its direction depends only on a leading '-'.
   */
  lemma ClassifyGeneral(change: string)
    requires change != "" && change != "N/A" && change != "0%"
    ensures FirstNumber(change, 0).None? ==> ClassifyChange(change) == (None, None)
    ensures FirstNumber(change, 0).Some? ==>
      var neg := StartsWith(change, "-");
      ClassifyChange(change) == (Some(Percent(neg, FirstNumber(change, 0).value)), Some(!neg))
  {
  }

  /** "0.0%" is not the neutral "0%": it reads as a positive change, and "-0%" as a negative one. */
  lemma ZeroVariantsAreDirected()
    ensures ClassifyChange("0.0%") == (Some(Percent(false, "0.0")), Some(true))
    ensures ClassifyChange("-0%") == (Some(Percent(true, "0")), Some(false))
  {
    var z, m := "0.0%", "-0%";
    assert DigitRun(z, 3) == 0 && DigitRun(z, 2) == 1 && DigitRun(z, 0) == 1;
    assert NumberAt(z, 0) == Some(z[0..3]) && z[0..3] == "0.0";
    assert DigitRun(m, 0) == 0 && DigitRun(m, 2) == 0 && DigitRun(m, 1) == 1;
    assert NumberAt(m, 0) == None;
    assert NumberAt(m, 1) == Some(m[1..2]) && m[1..2] == "0";
  }

  // ---------------------------------------------------------------------------
  // Cells and rows

  /** The trimmed text of the cells of `row` whose tag is in `tags`, in document order. */
  function CellTexts(row: Node, tags: set<string>): (r: seq<string>)
    ensures forall i :: 0 <= i < |r| ==> IsTrimmed(r[i])
  {
    var cells := QueryAll(row, tags);
    seq(|cells|, i requires 0 <= i < |cells| => Trim(TextContent(cells[i])))
  }

  /** `cells[i] || fallback`: the cell text when present and non-empty. */
  function CellOr(cells: seq<string>, i: nat, fallback: string): (r: string)
    ensures i < |cells| && cells[i] != "" ==> r == cells[i]
    ensures i >= |cells| || cells[i] == "" ==> r == fallback
  {
    if i < |cells| && cells[i] != "" then cells[i] else fallback
  }

  /** A metric row from its `td` texts. */
  function MetricRowOf(cells: seq<string>): MetricRow {
    if |cells| >= 4 then
      var c := ClassifyChange(cells[3]);
      MetricRow(cells[0], cells[1], cells[2], cells[3], c.0, c.1)
    else
      MetricRow(CellOr(cells, 0, ""), CellOr(cells, 1, ""), CellOr(cells, 2, ""), CellOr(cells, 3, ""), None, None)
  }

  function EngagementRowOf(cells: seq<string>): EngagementRow {
    EngagementRow(CellOr(cells, 0, ""), CellOr(cells, 1, ""), CellOr(cells, 2, ""),
                  CellOr(cells, 3, ""), CellOr(cells, 4, ""))
  }

  function SearchRowOf(cells: seq<string>): SearchResultRow {
    SearchResultRow(CellOr(cells, 0, ""), CellOr(cells, 1, "0"), CellOr(cells, 2, "0"),
                    CellOr(cells, 3, "0"), CellOr(cells, 4, "0"), CellOr(cells, 5, "0"),
                    CellOr(cells, 6, "0"), CellOr(cells, 7, "0"), CellOr(cells, 8, "0"))
  }

  function CountryRowOf(cells: seq<string>): CountryRow {
    CountryRow(CellOr(cells, 0, ""), CellOr(cells, 1, "0"), CellOr(cells, 2, "0"),
               CellOr(cells, 3, "0"), CellOr(cells, 4, "0"), CellOr(cells, 5, "0"),
               CellOr(cells, 6, "0"), CellOr(cells, 7, "0"))
  }

  /** A metric row built from cells reads the change only when all four cells are there. */
  lemma MetricRowCells(cells: seq<string>)
    ensures |cells| < 4 ==> MetricRowOf(cells).changePercent.None? && MetricRowOf(cells).isPositive.None?
    ensures |cells| < 4 ==> MetricRowOf(cells).change == ""
    ensures |cells| >= 4 ==> MetricRowOf(cells).metric == cells[0] && MetricRowOf(cells).change == cells[3]
  {
  }

  predicate MetricKept(r: MetricRow) { r.metric != "" }
  predicate EngagementKept(r: EngagementRow) { r.page != "" }
  predicate SearchKept(r: SearchResultRow) { |r.page| > 0 }
  predicate CountryKept(r: CountryRow) { |r.country| > 0 }

  /** `trs.map(rowOf).filter(keep)`. */
  function KeepRows<R>(trs: seq<Node>, rowOf: Node -> R, keep: R -> bool): (r: seq<R>)
    decreases |trs|
  {
    if trs == [] then []
    else (if keep(rowOf(trs[0])) then [rowOf(trs[0])] else []) + KeepRows(trs[1..], rowOf, keep)
  }

  /** Mapping and filtering work row by row: the result for a split list is the two results joined. */
  lemma {:induction false} KeepRowsAppend<R>(a: seq<Node>, b: seq<Node>, rowOf: Node -> R, keep: R -> bool)
    ensures KeepRows(a + b, rowOf, keep) == KeepRows(a, rowOf, keep) + KeepRows(b, rowOf, keep)
    decreases |a|
  {
    if a == [] {
      assert a + b == b;
    } else {
      var h := if keep(rowOf(a[0])) then [rowOf(a[0])] else [];
      assert (a + b)[0] == a[0];
      assert (a + b)[1..] == a[1..] + b;
      assert KeepRows(a + b, rowOf, keep) == h + KeepRows(a[1..] + b, rowOf, keep);
      KeepRowsAppend(a[1..], b, rowOf, keep);
      assert KeepRows(a, rowOf, keep) == h + KeepRows(a[1..], rowOf, keep);
    }
  }

  /** Every kept row passes the filter and comes from one of the rows, and none is invented. */
  lemma {:induction false} KeepRowsSound<R>(trs: seq<Node>, rowOf: Node -> R, keep: R -> bool)
    ensures |KeepRows(trs, rowOf, keep)| <= |trs|
    ensures forall x :: x in KeepRows(trs, rowOf, keep) ==> keep(x) && exists tr :: tr in trs && x == rowOf(tr)
    ensures (forall tr :: tr in trs ==> keep(rowOf(tr))) ==> |KeepRows(trs, rowOf, keep)| == |trs|
    decreases |trs|
  {
    if trs != [] {
      KeepRowsSound(trs[1..], rowOf, keep);
      forall x | x in KeepRows(trs, rowOf, keep)
        ensures keep(x) && exists tr :: tr in trs && x == rowOf(tr)
      {
        if x !in KeepRows(trs[1..], rowOf, keep) {
          assert x == rowOf(trs[0]);
        } else {
          var tr :| tr in trs[1..] && x == rowOf(tr);
          assert tr in trs;
        }
      }
    }
  }

  /** Every row that passes the filter is kept, and when every row passes the result is the rows mapped one for one, in order. */
  lemma {:induction false} KeepRowsComplete<R>(trs: seq<Node>, rowOf: Node -> R, keep: R -> bool)
    ensures forall tr :: tr in trs && keep(rowOf(tr)) ==> rowOf(tr) in KeepRows(trs, rowOf, keep)
    ensures (forall tr :: tr in trs ==> keep(rowOf(tr))) ==>
      |KeepRows(trs, rowOf, keep)| == |trs| && forall i :: 0 <= i < |trs| ==> KeepRows(trs, rowOf, keep)[i] == rowOf(trs[i])
    decreases |trs|
  {
    if trs != [] {
      KeepRowsComplete(trs[1..], rowOf, keep);
      forall tr | tr in trs && keep(rowOf(tr))
        ensures rowOf(tr) in KeepRows(trs, rowOf, keep)
      {
        if tr != trs[0] {
          assert tr in trs[1..];
        }
      }
      if forall tr :: tr in trs ==> keep(rowOf(tr)) {
        assert forall tr :: tr in trs[1..] ==> tr in trs;
        assert keep(rowOf(trs[0]));
        var r := KeepRows(trs, rowOf, keep);
        assert r == [rowOf(trs[0])] + KeepRows(trs[1..], rowOf, keep);
        forall i | 0 <= i < |trs| ensures r[i] == rowOf(trs[i]) {
          if i > 0 {
            assert r[i] == KeepRows(trs[1..], rowOf, keep)[i - 1];
            assert trs[1..][i - 1] == trs[i];
          }
        }
      }
    }
  }

  /** The kept rows come in the order of the rows: cutting the list anywhere cuts the result at the same place. */
  lemma KeepRowsInOrder<R>(trs: seq<Node>, rowOf: Node -> R, keep: R -> bool)
    ensures forall k :: 0 <= k <= |trs| ==>
      KeepRows(trs, rowOf, keep) == KeepRows(trs[..k], rowOf, keep) + KeepRows(trs[k..], rowOf, keep)
  {
    forall k | 0 <= k <= |trs|
      ensures KeepRows(trs, rowOf, keep) == KeepRows(trs[..k], rowOf, keep) + KeepRows(trs[k..], rowOf, keep)
    {
      assert trs == trs[..k] + trs[k..];
      KeepRowsAppend(trs[..k], trs[k..], rowOf, keep);
    }
  }

  /** A single row is kept, as itself, exactly when it passes the filter. */
  lemma KeepRowsSingle<R>(tr: Node, rowOf: Node -> R, keep: R -> bool)
    ensures KeepRows([tr], rowOf, keep) == if keep(rowOf(tr)) then [rowOf(tr)] else []
  {
    assert [tr][1..] == [];
  }

  /** The data rows of a table: every `tr` below it except the first. */
  function DataRows(table: Node): (r: seq<Node>)
    ensures |r| == if |QueryAll(table, {"TR"})| == 0 then 0 else |QueryAll(table, {"TR"})| - 1
  {
    var trs := QueryAll(table, {"TR"});
    if trs == [] then [] else trs[1..]
  }

  function MetricTrRow(tr: Node): MetricRow { MetricRowOf(CellTexts(tr, {"TD"})) }
  function EngagementTrRow(tr: Node): EngagementRow { EngagementRowOf(CellTexts(tr, {"TD"})) }
  function SearchTrRow(tr: Node): SearchResultRow { SearchRowOf(CellTexts(tr, {"TD", "TH"})) }
  function CountryTrRow(tr: Node): CountryRow { CountryRowOf(CellTexts(tr, {"TD", "TH"})) }

  function ParseMetricTable(table: Node): seq<MetricRow> {
    KeepRows(DataRows(table), MetricTrRow, MetricKept)
  }

  function ParseEngagementTable(table: Node): seq<EngagementRow> {
    KeepRows(DataRows(table), EngagementTrRow, EngagementKept)
  }

  function ParseSearchTable(table: Node): seq<SearchResultRow> {
    KeepRows(DataRows(table), SearchTrRow, SearchKept)
  }

  function ParseCountryTable(table: Node): seq<CountryRow> {
    KeepRows(DataRows(table), CountryTrRow, CountryKept)
  }

  /**
   * A table yields the rows of its data `tr`s (the first `tr` is dropped), in
   * order, leaving out exactly those whose key cell is empty: every kept row
   * comes from a data `tr` and has a key, every data `tr` with a key gives a
   * kept row, cutting the data rows anywhere cuts the result at the same
   * place, and when every data `tr` has a key each one gives its row.
   */
  lemma MetricTableRows(table: Node)
    ensures |ParseMetricTable(table)| <= |DataRows(table)|
    ensures forall r :: r in ParseMetricTable(table) ==> r.metric != "" && exists tr :: tr in DataRows(table) && r == MetricTrRow(tr)
    ensures forall tr :: tr in DataRows(table) && MetricTrRow(tr).metric != "" ==> MetricTrRow(tr) in ParseMetricTable(table)
    ensures forall n :: 0 <= n <= |DataRows(table)| ==>
      ParseMetricTable(table) == KeepRows(DataRows(table)[..n], MetricTrRow, MetricKept) + KeepRows(DataRows(table)[n..], MetricTrRow, MetricKept)
    ensures (forall tr :: tr in DataRows(table) ==> MetricTrRow(tr).metric != "") ==>
      |ParseMetricTable(table)| == |DataRows(table)| &&
      forall i :: 0 <= i < |DataRows(table)| ==> ParseMetricTable(table)[i] == MetricTrRow(DataRows(table)[i])
  {
    KeepRowsSound(DataRows(table), MetricTrRow, MetricKept);
    KeepRowsComplete(DataRows(table), MetricTrRow, MetricKept);
    KeepRowsInOrder(DataRows(table), MetricTrRow, MetricKept);
  }

  lemma EngagementTableRows(table: Node)
    ensures |ParseEngagementTable(table)| <= |DataRows(table)|
    ensures forall r :: r in ParseEngagementTable(table) ==> r.page != "" && exists tr :: tr in DataRows(table) && r == EngagementTrRow(tr)
    ensures forall tr :: tr in DataRows(table) && EngagementTrRow(tr).page != "" ==> EngagementTrRow(tr) in ParseEngagementTable(table)
    ensures forall n :: 0 <= n <= |DataRows(table)| ==>
      ParseEngagementTable(table) == KeepRows(DataRows(table)[..n], EngagementTrRow, EngagementKept) + KeepRows(DataRows(table)[n..], EngagementTrRow, EngagementKept)
    ensures (forall tr :: tr in DataRows(table) ==> EngagementTrRow(tr).page != "") ==>
      |ParseEngagementTable(table)| == |DataRows(table)| &&
      forall i :: 0 <= i < |DataRows(table)| ==> ParseEngagementTable(table)[i] == EngagementTrRow(DataRows(table)[i])
  {
    KeepRowsSound(DataRows(table), EngagementTrRow, EngagementKept);
    KeepRowsComplete(DataRows(table), EngagementTrRow, EngagementKept);
    KeepRowsInOrder(DataRows(table), EngagementTrRow, EngagementKept);
  }

  lemma SearchTableRows(table: Node)
    ensures |ParseSearchTable(table)| <= |DataRows(table)|
    ensures forall r :: r in ParseSearchTable(table) ==> r.page != "" && exists tr :: tr in DataRows(table) && r == SearchTrRow(tr)
    ensures forall tr :: tr in DataRows(table) && SearchTrRow(tr).page != "" ==> SearchTrRow(tr) in ParseSearchTable(table)
    ensures forall n :: 0 <= n <= |DataRows(table)| ==>
      ParseSearchTable(table) == KeepRows(DataRows(table)[..n], SearchTrRow, SearchKept) + KeepRows(DataRows(table)[n..], SearchTrRow, SearchKept)
    ensures (forall tr :: tr in DataRows(table) ==> SearchTrRow(tr).page != "") ==>
      |ParseSearchTable(table)| == |DataRows(table)| &&
      forall i :: 0 <= i < |DataRows(table)| ==> ParseSearchTable(table)[i] == SearchTrRow(DataRows(table)[i])
  {
    KeepRowsSound(DataRows(table), SearchTrRow, SearchKept);
    KeepRowsComplete(DataRows(table), SearchTrRow, SearchKept);
    KeepRowsInOrder(DataRows(table), SearchTrRow, SearchKept);
  }

  lemma CountryTableRows(table: Node)
    ensures |ParseCountryTable(table)| <= |DataRows(table)|
    ensures forall r :: r in ParseCountryTable(table) ==> r.country != "" && exists tr :: tr in DataRows(table) && r == CountryTrRow(tr)
    ensures forall tr :: tr in DataRows(table) && CountryTrRow(tr).country != "" ==> CountryTrRow(tr) in ParseCountryTable(table)
    ensures forall n :: 0 <= n <= |DataRows(table)| ==>
      ParseCountryTable(table) == KeepRows(DataRows(table)[..n], CountryTrRow, CountryKept) + KeepRows(DataRows(table)[n..], CountryTrRow, CountryKept)
    ensures (forall tr :: tr in DataRows(table) ==> CountryTrRow(tr).country != "") ==>
      |ParseCountryTable(table)| == |DataRows(table)| &&
      forall i :: 0 <= i < |DataRows(table)| ==> ParseCountryTable(table)[i] == CountryTrRow(DataRows(table)[i])
  {
    KeepRowsSound(DataRows(table), CountryTrRow, CountryKept);
    KeepRowsComplete(DataRows(table), CountryTrRow, CountryKept);
    KeepRowsInOrder(DataRows(table), CountryTrRow, CountryKept);
  }

  /** Metric and engagement cells default to the empty text; every field is trimmed. */
  lemma {:induction false} EmptyDefaults(cells: seq<string>)
    requires forall i :: 0 <= i < |cells| ==> IsTrimmed(cells[i])
    ensures IsTrimmed(EngagementRowOf(cells).eventCount) && IsTrimmed(MetricRowOf(cells).change)
    ensures |cells| <= 4 ==> EngagementRowOf(cells).eventCount == ""
    ensures |cells| <= 3 ==> MetricRowOf(cells).change == ""
  {
  }

  /** Search cells that are missing or empty read as "0"; present ones keep their trimmed text. */
  lemma SearchDefaults(cells: seq<string>, i: nat)
    requires 1 <= i <= 8
    ensures var f := [SearchRowOf(cells).activeUsers, SearchRowOf(cells).engagedSessions,
                      SearchRowOf(cells).engagementRate, SearchRowOf(cells).eventCount,
                      SearchRowOf(cells).avgPosition, SearchRowOf(cells).ctr, SearchRowOf(cells).clicks,
                      SearchRowOf(cells).impressions];
            f[i - 1] == if i < |cells| && cells[i] != "" then cells[i] else "0"
  {
  }

  /** Country cells that are missing or empty read as "0"; present ones keep their trimmed text. */
  lemma CountryDefaults(cells: seq<string>, i: nat)
    requires 1 <= i <= 7
    ensures var f := [CountryRowOf(cells).activeUsers, CountryRowOf(cells).newUsers,
                      CountryRowOf(cells).engagementRate, CountryRowOf(cells).engagedSessions,
                      CountryRowOf(cells).eventCount, CountryRowOf(cells).totalUsers, CountryRowOf(cells).sessions];
            f[i - 1] == if i < |cells| && cells[i] != "" then cells[i] else "0"
  {
  }
}
