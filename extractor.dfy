/**
 * The report extractor `parseAnalyticsHTML`: every section is located, its
 * table parsed, and a section that cannot be located falls back to its
 * placeholder rows (or to no rows).  The HTML text itself is copied verbatim;
 * the parsed document is a parameter, standing for what the browser's
 * `DOMParser` builds from that text.
 */
module Extractor {
  import opened Options
  import opened Dom
  import opened Rows
  import opened Locate
  import opened Fallbacks
  import opened Insights

  datatype AnalyticsData = AnalyticsData(
    weeklyChange: seq<MetricRow>,
    monthlyChange: seq<MetricRow>,
    engagementThisWeek: seq<EngagementRow>,
    engagementPriorWeek: seq<EngagementRow>,
    searchResultsThisWeek: Option<seq<SearchResultRow>>,
    searchResultsLastWeek: Option<seq<SearchResultRow>>,
    countryViewsThisWeek: Option<seq<CountryRow>>,
    countryViewsLastWeek: Option<seq<CountryRow>>,
    weeklyInsight: Option<string>,
    monthlyInsight: Option<string>,
    rawHtml: string)

  /** The rows of a section: its located table parsed, or the section's fallback. */
  function SectionOf<R>(doc: Node, s: Section, parse: Node -> seq<R>, fallback: seq<R>): seq<R> {
    match LocatedTable(doc, s)
    case Some(t) => parse(t)
    case None => fallback
  }

  /** What each section and insight falls back to. */
  datatype Placeholders = Placeholders(
    weeklyChange: seq<MetricRow>,
    monthlyChange: seq<MetricRow>,
    engagementThisWeek: seq<EngagementRow>,
    engagementPriorWeek: seq<EngagementRow>,
    weeklyInsight: string,
    monthlyInsight: string)

  /** The placeholders written into the parser. */
  const ParserPlaceholders: Placeholders := Placeholders(WeeklyFallback, MonthlyFallback,
    EngagementThisWeekFallback, EngagementPriorWeekFallback, WeeklyInsightDefault, MonthlyInsightDefault)

  /** The report extracted from `doc`, with the given placeholders. */
  function ReportOf(html: string, doc: Node, p: Placeholders): AnalyticsData {
    AnalyticsData(
      SectionOf(doc, WeeklyChange, ParseMetricTable, p.weeklyChange),
      SectionOf(doc, MonthlyChange, ParseMetricTable, p.monthlyChange),
      SectionOf(doc, EngagementThisWeek, ParseEngagementTable, p.engagementThisWeek),
      SectionOf(doc, EngagementPriorWeek, ParseEngagementTable, p.engagementPriorWeek),
      Some(SectionOf(doc, SearchThisWeek, ParseSearchTable, [])),
      Some(SectionOf(doc, SearchLastWeek, ParseSearchTable, [])),
      Some(SectionOf(doc, CountryThisWeek, ParseCountryTable, [])),
      Some(SectionOf(doc, CountryLastWeek, ParseCountryTable, [])),
      Some(InsightOf(doc, "weekly", p.weeklyInsight)),
      Some(InsightOf(doc, "monthly", p.monthlyInsight)),
      html)
  }

  /** What `parseAnalyticsHTML(html)` returns when the browser parses `html` into `doc`. */
  function AnalyticsOf(html: string, doc: Node): AnalyticsData {
    ReportOf(html, doc, ParserPlaceholders)
  }

  /** One `parseWeeklyChange`-style function: locate the table, parse it, or return the fallback. */
  method ParseSection<R>(doc: Node, s: Section, parse: Node -> seq<R>, fallback: seq<R>) returns (rows: seq<R>)
    ensures rows == SectionOf(doc, s, parse, fallback)
  {
    var table := LocateTable(doc, s);
    if table.Some? {
      rows := parse(table.value);
    } else {
      rows := fallback;
    }
  }

  /** The body of `parseAnalyticsHTML`, with the placeholders as a parameter. */
  method ParseReport(html: string, doc: Node, p: Placeholders) returns (data: AnalyticsData)
    ensures data == ReportOf(html, doc, p)
  {
    var weekly := ParseSection(doc, WeeklyChange, ParseMetricTable, p.weeklyChange);
    var monthly := ParseSection(doc, MonthlyChange, ParseMetricTable, p.monthlyChange);
    var engagementThis := ParseSection(doc, EngagementThisWeek, ParseEngagementTable, p.engagementThisWeek);
    var engagementPrior := ParseSection(doc, EngagementPriorWeek, ParseEngagementTable, p.engagementPriorWeek);
    var searchThis := ParseSection(doc, SearchThisWeek, ParseSearchTable, []);
    var searchLast := ParseSection(doc, SearchLastWeek, ParseSearchTable, []);
    var countryThis := ParseSection(doc, CountryThisWeek, ParseCountryTable, []);
    var countryLast := ParseSection(doc, CountryLastWeek, ParseCountryTable, []);
    var weeklyInsight := FindInsight(doc, "weekly", p.weeklyInsight);
    var monthlyInsight := FindInsight(doc, "monthly", p.monthlyInsight);
    data := AnalyticsData(weekly, monthly, engagementThis, engagementPrior, Some(searchThis), Some(searchLast),
      Some(countryThis), Some(countryLast), Some(weeklyInsight), Some(monthlyInsight), html);
  }

  /** `parseAnalyticsHTML(html)`. */
  method ParseAnalyticsHtml(html: string, doc: Node) returns (data: AnalyticsData)
    ensures data == AnalyticsOf(html, doc)
  {
    data := ParseReport(html, doc, ParserPlaceholders);
  }

  // Properties of the extracted report.  They are stated for any placeholders
  // with the properties the parser's own placeholders have (`Fallbacks` and
  // `Insights` prove those), so that the long placeholder literals stay out of
  // these proofs.

  /** The parsed report sets every optional field, copies the HTML verbatim, and its insights are long sentences. */
  lemma ParsedReportComplete(html: string, doc: Node, p: Placeholders)
    requires |p.weeklyInsight| > 50 && |p.monthlyInsight| > 50
    ensures var d := ReportOf(html, doc, p);
      && d.rawHtml == html
      && d.searchResultsThisWeek.Some? && d.searchResultsLastWeek.Some?
      && d.countryViewsThisWeek.Some? && d.countryViewsLastWeek.Some?
      && d.weeklyInsight.Some? && |d.weeklyInsight.value| > 50
      && d.monthlyInsight.Some? && |d.monthlyInsight.value| > 50
  {
    InsightShape(doc, "weekly", p.weeklyInsight);
    InsightShape(doc, "monthly", p.monthlyInsight);
  }

  /** A document without any table yields every section's fallback. */
  lemma NoTablesGivesFallbacks(html: string, doc: Node, p: Placeholders)
    requires Tables(doc) == []
    ensures var d := ReportOf(html, doc, p);
      && d.weeklyChange == p.weeklyChange && d.monthlyChange == p.monthlyChange
      && d.engagementThisWeek == p.engagementThisWeek
      && d.engagementPriorWeek == p.engagementPriorWeek
      && d.searchResultsThisWeek == Some([]) && d.searchResultsLastWeek == Some([])
      && d.countryViewsThisWeek == Some([]) && d.countryViewsLastWeek == Some([])
      && d.rawHtml == html
  {
    NoTablesNoSection(doc, WeeklyChange);
    NoTablesNoSection(doc, MonthlyChange);
    NoTablesNoSection(doc, EngagementThisWeek);
    NoTablesNoSection(doc, EngagementPriorWeek);
    NoTablesNoSection(doc, SearchThisWeek);
    NoTablesNoSection(doc, SearchLastWeek);
    NoTablesNoSection(doc, CountryThisWeek);
    NoTablesNoSection(doc, CountryLastWeek);
  }

  /** Last week's search and country sections have no keyword scan: without a heading they are empty. */
  lemma LastWeekNeedsHeading(html: string, doc: Node, p: Placeholders)
    ensures HeadingTable(doc, SearchLastWeek).None? ==> ReportOf(html, doc, p).searchResultsLastWeek == Some([])
    ensures HeadingTable(doc, CountryLastWeek).None? ==> ReportOf(html, doc, p).countryViewsLastWeek == Some([])
  {
    var d := ReportOf(html, doc, p);
    assert d.searchResultsLastWeek == Some(SectionOf(doc, SearchLastWeek, ParseSearchTable, []));
    assert d.countryViewsLastWeek == Some(SectionOf(doc, CountryLastWeek, ParseCountryTable, []));
    UnscannedSectionNeedsHeading(doc, SearchLastWeek, ParseSearchTable);
    UnscannedSectionNeedsHeading(doc, CountryLastWeek, ParseCountryTable);
  }

  /** A section without a keyword scan and without a heading is left empty. */
  lemma UnscannedSectionNeedsHeading<R>(doc: Node, s: Section, parse: Node -> seq<R>)
    requires !HasKeywordScan(s)
    ensures HeadingTable(doc, s).None? ==> SectionOf(doc, s, parse, []) == []
  {
    ScanOnlyAsFallback(doc, s);
  }

  /** A located section's rows are rows of some table of the document, parsed. */
  lemma SectionFromDocumentTable<R>(doc: Node, s: Section, parse: Node -> seq<R>, fallback: seq<R>)
    ensures SectionOf(doc, s, parse, fallback) == fallback ||
      exists t :: t in Tables(doc) && SectionOf(doc, s, parse, fallback) == parse(t)
  {
    LocatedIsDocumentTable(doc, s);
  }

  /** Every row of every section, parsed or placeholder, has its identifying first field. */
  lemma RowsHaveKeys(html: string, doc: Node, p: Placeholders)
    requires forall r :: r in p.weeklyChange + p.monthlyChange ==> r.metric != ""
    requires forall r :: r in p.engagementThisWeek + p.engagementPriorWeek ==> r.page != ""
    ensures var d := ReportOf(html, doc, p);
      && (forall r :: r in d.weeklyChange ==> r.metric != "")
      && (forall r :: r in d.monthlyChange ==> r.metric != "")
      && (forall r :: r in d.engagementThisWeek ==> r.page != "")
      && (forall r :: r in d.engagementPriorWeek ==> r.page != "")
      && (forall r :: r in d.searchResultsThisWeek.value ==> r.page != "")
      && (forall r :: r in d.searchResultsLastWeek.value ==> r.page != "")
      && (forall r :: r in d.countryViewsThisWeek.value ==> r.country != "")
      && (forall r :: r in d.countryViewsLastWeek.value ==> r.country != "")
  {
    MetricSectionKeys(doc, WeeklyChange, p.weeklyChange);
    MetricSectionKeys(doc, MonthlyChange, p.monthlyChange);
    EngagementSectionKeys(doc, EngagementThisWeek, p.engagementThisWeek);
    EngagementSectionKeys(doc, EngagementPriorWeek, p.engagementPriorWeek);
    SearchSectionKeys(doc, SearchThisWeek);
    SearchSectionKeys(doc, SearchLastWeek);
    CountrySectionKeys(doc, CountryThisWeek);
    CountrySectionKeys(doc, CountryLastWeek);
  }

  lemma MetricSectionKeys(doc: Node, s: Section, fallback: seq<MetricRow>)
    requires forall r :: r in fallback ==> r.metric != ""
    ensures forall r :: r in SectionOf(doc, s, ParseMetricTable, fallback) ==> r.metric != ""
  {
    if LocatedTable(doc, s).Some? {
      MetricTableRows(LocatedTable(doc, s).value);
    }
  }

  lemma EngagementSectionKeys(doc: Node, s: Section, fallback: seq<EngagementRow>)
    requires forall r :: r in fallback ==> r.page != ""
    ensures forall r :: r in SectionOf(doc, s, ParseEngagementTable, fallback) ==> r.page != ""
  {
    if LocatedTable(doc, s).Some? {
      EngagementTableRows(LocatedTable(doc, s).value);
    }
  }

  lemma SearchSectionKeys(doc: Node, s: Section)
    ensures forall r :: r in SectionOf(doc, s, ParseSearchTable, []) ==> r.page != ""
  {
    if LocatedTable(doc, s).Some? {
      SearchTableRows(LocatedTable(doc, s).value);
    }
  }

  lemma CountrySectionKeys(doc: Node, s: Section)
    ensures forall r :: r in SectionOf(doc, s, ParseCountryTable, []) ==> r.country != ""
  {
    if LocatedTable(doc, s).Some? {
      CountryTableRows(LocatedTable(doc, s).value);
    }
  }

  /** The parser's own placeholders meet the requirements of the lemmas above. */
  lemma ParserPlaceholdersFit()
    ensures |ParserPlaceholders.weeklyInsight| > 50 && |ParserPlaceholders.monthlyInsight| > 50
    ensures forall r :: r in ParserPlaceholders.weeklyChange + ParserPlaceholders.monthlyChange ==> r.metric != ""
    ensures forall r :: r in ParserPlaceholders.engagementThisWeek + ParserPlaceholders.engagementPriorWeek ==>
      r.page != ""
  {
    DefaultsAreLong();
    WeeklyMetricsNamed();
    MonthlyMetricsNamed();
    ThisWeekPagesNamed();
    PriorWeekPagesNamed();
  }
}
