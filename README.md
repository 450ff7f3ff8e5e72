# MarketPulseAnalyzer core, modelled in Dafny

MarketPulseAnalyzer is a dashboard for website-analytics reports. An automation
workflow produces each report as a loosely structured HTML document. This
project models four parts of it and proves properties of them.

**The report extractor, `parseAnalyticsHTML`** (modules `Text`, `Dom`, `Rows`,
`Locate`, `Fallbacks`, `Insights` and `Extractor`). The extractor fills eight
table sections and two insight sentences from an already-parsed document.
- The document is a value tree of elements and text nodes. Queries walk it in
  document order, and `nextElementSibling` steps through the parent's children.
- To locate a section, the extractor takes the first heading-like element whose
  lower-cased text names the section. It then walks forward through that
  element's siblings to the first `TABLE`.
- Only when that fails, four of the sections scan every table for header
  keywords or, for search and country, phrases in the table text. When the scan fails too, the weekly, monthly and engagement sections
  fall back to fixed placeholder rows, and search and country sections to no
  rows.
- A table is parsed by dropping its first `tr`, reading cells by position
  (trimmed, with defaults), and filtering out rows with an empty key cell.
- A metric's change text is read with the pattern `-?(\d+\.?\d*)%`. Only the
  exact text `0%` counts as neutral.
- An insight is the first paragraph longer than 50 characters in the run of
  paragraphs after the first matching `h2`. Otherwise it is a fixed sentence.

**The dashboard's view state machine** (module `Dashboard`, class
`AnalyticsDashboard`). It covers:
- the live-or-saved data source, the selected saved report and the
  history-list flag;
- the URL fetched for each view;
- the retry and back-off rules;
- how a fetched payload becomes the report shown.

**The expert-analysis panel** (module `SeoAnalysis`). It covers:
- which expert name a request is made for, and when a request can be made;
- how the returned analysis text is split into lines and rendered, each line as
  a heading, a list item, a paragraph or nothing.

**The in-memory user store `MemStorage`** (module `Storage`, class
`MemStorage`). It is a map from id to user plus a counter that hands out ids.
Its invariant is that the keys are exactly the ids issued so far and that every
user carries its own key.

Two behaviours of the code deserve mention:
- The two engagement sections fall back to their literal placeholder rows, not
  to an empty list (`analytics-parser.ts:231-253`, `273-284`).
- The exact text `0%` is handled before the percentage pattern
  (`analytics-parser.ts:61`, `72-75`). So `0%` is neutral, while `0.0%` and
  `-0%` are read as a positive and a negative change.

Two consequences of the code are proved rather than smoothed over:
- **The monthly placeholder row whose change is `0.0%`** is marked neutral, but
  the parser itself would read that text as positive
  (`Fallbacks.MonthlyZeroRowDiffersFromParser`).
- **`selectReport(0)`** invalidates the key `/api/analytics/0`, but `currentUrl`
  treats id 0 as no selection (`Dashboard.SelectInvalidatesCurrentQuery`).

Paths below are relative to the repository root.

## Model

| member | source | states |
|---|---|---|
| Text.Trim | MarketPulseAnalyzer/client/src/lib/analytics-parser.ts:49 | `trim()` returns the input with its leading and trailing whitespace removed: a slice `s[a..b]` with only whitespace before `a` and after `b`, itself with no whitespace at either end; it is empty exactly when the input is all whitespace, and trimmed text is left alone |
| Text.ToLower | MarketPulseAnalyzer/client/src/lib/analytics-parser.ts:6 | `toLowerCase()` keeps the length and lower-cases each character |
| Text.ToUpper | MarketPulseAnalyzer/client/src/components/seo-analysis-section.tsx:181 | `toUpperCase()` keeps the length and upper-cases each character |
| Text.ContainsIff | MarketPulseAnalyzer/client/src/lib/analytics-parser.ts:6 | `includes(sub)` holds exactly when `sub` occurs at some position of the text |
| Dom.Select | MarketPulseAnalyzer/client/src/lib/analytics-parser.ts:5 | a tag query keeps exactly the elements of the document order whose tag is asked for |
| Dom.SelectAppend | MarketPulseAnalyzer/client/src/lib/analytics-parser.ts:5 | a tag query over a list split in two is the two queries joined, so the elements come in document order |
| Dom.SelectSingle | MarketPulseAnalyzer/client/src/lib/analytics-parser.ts:5 | a single element is selected, once, exactly when its tag is asked for |
| Dom.QueryAll | MarketPulseAnalyzer/client/src/lib/analytics-parser.ts:44 | every node a descendant query returns has one of the requested tags, and every descendant with one of those tags is returned |
| Dom.NextElementSibling | MarketPulseAnalyzer/client/src/lib/analytics-parser.ts:10 | the next element sibling is the first later sibling that is an element; only text nodes lie in between, and none is found when only text follows |
| Rows.NumberAtIff | MarketPulseAnalyzer/client/src/lib/analytics-parser.ts:62 | the capture computed at a position is `g` exactly when `\d+\.?\d*%` matches there with group `g` (digits, at most one dot, then `%`) |
| Rows.FirstNumberIsLeftmost | MarketPulseAnalyzer/client/src/lib/analytics-parser.ts:62 | the group read from a change text is the capture at the leftmost position where the pattern matches, and there is none exactly when it matches nowhere |
| Rows.FirstNumberMatches | MarketPulseAnalyzer/client/src/lib/analytics-parser.ts:62-63 | the same fact in terms of the pattern's match relation: a match exists exactly when a group is read |
| Rows.ClassifyChange | MarketPulseAnalyzer/client/src/lib/analytics-parser.ts:58-75 | empty and `N/A` give no percentage and no direction; exactly `0%` gives 0 with no direction; a direction is set only with a percentage and agrees with its sign; the direction is down exactly when a percentage is read from a text starting with `-` |
| Rows.ClassifyGeneral | MarketPulseAnalyzer/client/src/lib/analytics-parser.ts:61-71 | any other change text reads as its first pattern match, negative and down when it starts with `-`, positive and up otherwise, and as nothing without a match |
| Rows.ZeroVariantsAreDirected | MarketPulseAnalyzer/client/src/lib/analytics-parser.ts:61-75 | `0.0%` reads as a positive change and `-0%` as a negative one; only `0%` is neutral |
| Rows.CellTexts | MarketPulseAnalyzer/client/src/lib/analytics-parser.ts:48-49 | every cell text is trimmed |
| Rows.CellOr | MarketPulseAnalyzer/client/src/lib/analytics-parser.ts:88-91 | `cells[i] \|\| d` is the cell when it exists and is non-empty, the default otherwise |
| Rows.MetricRowCells | MarketPulseAnalyzer/client/src/lib/analytics-parser.ts:51-93 | a row with fewer than four cells has no percentage, no direction and an empty change; with four or more the metric and change are the first and fourth cells |
| Rows.KeepRowsAppend | MarketPulseAnalyzer/client/src/lib/analytics-parser.ts:47-94 | mapping and filtering work row by row: parsing two row lists joined gives the two results joined, so the row order is kept |
| Rows.KeepRowsSound | MarketPulseAnalyzer/client/src/lib/analytics-parser.ts:94 | the filter keeps no more rows than it is given, every kept row passes the filter and is built from one of the rows, and nothing is dropped when every row passes |
| Rows.KeepRowsComplete | MarketPulseAnalyzer/client/src/lib/analytics-parser.ts:94 | every row that passes the filter is kept, and when every row passes the result is the rows mapped one for one, in order |
| Rows.KeepRowsInOrder | MarketPulseAnalyzer/client/src/lib/analytics-parser.ts:94 | cutting the row list at any point cuts the filtered result at the same place, so kept rows stay in row order |
| Rows.KeepRowsSingle | MarketPulseAnalyzer/client/src/lib/analytics-parser.ts:94 | a single row is kept, as its mapped row, exactly when that row passes the filter |
| Rows.DataRows | MarketPulseAnalyzer/client/src/lib/analytics-parser.ts:44-45 | the data rows are the `tr` elements except the first: one fewer than there are `tr`, or none |
| Rows.MetricTableRows | MarketPulseAnalyzer/client/src/lib/analytics-parser.ts:43-95 | a metric table gives the rows of its data `tr`s in order: each kept row has a non-empty metric and comes from a data `tr`, every data `tr` with a non-empty metric gives its row, cutting the data rows anywhere cuts the result there, and when no metric is empty row `i` is the row of data `tr` `i` |
| Rows.EngagementTableRows | MarketPulseAnalyzer/client/src/lib/analytics-parser.ts:97-113 | an engagement table gives the rows of its data `tr`s in order: each kept row has a non-empty page and comes from a data `tr`, every data `tr` with a non-empty page gives its row, cutting the data rows anywhere cuts the result there, and when no page is empty row `i` is the row of data `tr` `i` |
| Rows.SearchTableRows | MarketPulseAnalyzer/client/src/lib/analytics-parser.ts:326-342 | a search table gives the rows of its data `tr`s in order: each kept row has a non-empty page and comes from a data `tr`, every data `tr` with a non-empty page gives its row, cutting the data rows anywhere cuts the result there, and when no page is empty row `i` is the row of data `tr` `i` |
| Rows.CountryTableRows | MarketPulseAnalyzer/client/src/lib/analytics-parser.ts:408-423 | a country table gives the rows of its data `tr`s in order: each kept row has a non-empty country and comes from a data `tr`, every data `tr` with a non-empty country gives its row, cutting the data rows anywhere cuts the result there, and when no country is empty row `i` is the row of data `tr` `i` |
| Rows.EmptyDefaults | MarketPulseAnalyzer/client/src/lib/analytics-parser.ts:87-110 | metric and engagement cells default to the empty text: a short row has an empty change and event count, and every field stays trimmed |
| Rows.SearchDefaults | MarketPulseAnalyzer/client/src/lib/analytics-parser.ts:331-339 | each of the eight numeric search fields, `impressions` included, is its cell when present and non-empty, and `0` otherwise |
| Rows.CountryDefaults | MarketPulseAnalyzer/client/src/lib/analytics-parser.ts:414-420 | each of the seven numeric country fields is its cell when present and non-empty, and `0` otherwise |
| Locate.FirstIndex | MarketPulseAnalyzer/client/src/lib/analytics-parser.ts:136-138 | `find` returns the first element that passes the test, and nothing only when none does |
| Locate.TableAfter | MarketPulseAnalyzer/client/src/lib/analytics-parser.ts:142-147 | the walk from a heading stops at the first later sibling that is a `TABLE`; no earlier sibling is one, and none is found only when no later sibling is a table |
| Locate.WalkToTable | MarketPulseAnalyzer/client/src/lib/analytics-parser.ts:142-145 | the `while` loop over element siblings ends at exactly that table |
| Locate.Tables | MarketPulseAnalyzer/client/src/lib/analytics-parser.ts:153 | `querySelectorAll('table')` returns only tables |
| Locate.ScanTables | MarketPulseAnalyzer/client/src/lib/analytics-parser.ts:154-159 | the `for` loop over tables returns the first table whose headers or text pass the section's keyword test |
| Locate.LocateTable | MarketPulseAnalyzer/client/src/lib/analytics-parser.ts:134-159 | a section locator returns the table reached from the first matching heading, else the keyword-scan table for the sections that have a scan, else nothing |
| Locate.HeadingFirst | MarketPulseAnalyzer/client/src/lib/analytics-parser.ts:136-150 | when the first heading naming a section is followed by a table, that table is the section's table, whatever the keyword scan would pick and whatever rows it has |
| Locate.ScanOnlyAsFallback | MarketPulseAnalyzer/client/src/lib/analytics-parser.ts:152-159 | the keyword scan decides only when the heading route finds no table, and sections without a scan are decided by the heading route alone |
| Locate.LocatedIsDocumentTable | MarketPulseAnalyzer/client/src/lib/analytics-parser.ts:147-157 | a located section table is a `TABLE` and one of the document's tables |
| Locate.NoTablesNoSection | MarketPulseAnalyzer/client/src/lib/analytics-parser.ts:152-162 | a document without tables locates no section |
| Locate.DashedSearchHeadingMissed | MarketPulseAnalyzer/client/src/lib/analytics-parser.ts:289-295 | the dashed heading "Search Results - This Week" names no search phrase, so it never serves as the search heading |
| Fallbacks.ReadsPercent | MarketPulseAnalyzer/client/src/lib/analytics-parser.ts:61-71 | a change text that is a number followed by `%`, with an optional leading `-`, reads as that number with that sign |
| Fallbacks.WeeklyFallbackAsParsed | MarketPulseAnalyzer/client/src/lib/analytics-parser.ts:162-171 | each of the eight weekly placeholder rows records exactly the percentage and direction the parser reads from its own change text |
| Fallbacks.MonthlyZeroRowDiffersFromParser | MarketPulseAnalyzer/client/src/lib/analytics-parser.ts:206 | the monthly placeholder row for `0.0%` is neutral, although the parser reads `0.0%` as positive |
| Fallbacks.WeeklyMetricsNamed | MarketPulseAnalyzer/client/src/lib/analytics-parser.ts:162-171 | the weekly placeholder has eight rows, each naming its metric |
| Fallbacks.MonthlyMetricsNamed | MarketPulseAnalyzer/client/src/lib/analytics-parser.ts:202-211 | the monthly placeholder has eight rows, each naming its metric |
| Fallbacks.ThisWeekPagesNamed | MarketPulseAnalyzer/client/src/lib/analytics-parser.ts:232-253 | this week's engagement placeholder has twenty rows, each naming its page |
| Fallbacks.PriorWeekPagesNamed | MarketPulseAnalyzer/client/src/lib/analytics-parser.ts:273-284 | the prior week's engagement placeholder has ten rows, each naming its page |
| Insights.RunInsight | MarketPulseAnalyzer/client/src/lib/analytics-parser.ts:11-16 | an insight found in the run of paragraphs is trimmed and longer than 50 characters |
| Insights.RunInsightSound | MarketPulseAnalyzer/client/src/lib/analytics-parser.ts:11-16 | a found insight is the trimmed text of a qualifying paragraph, and every element before it in the run is a paragraph too short to qualify |
| Insights.RunInsightComplete | MarketPulseAnalyzer/client/src/lib/analytics-parser.ts:11-16 | a qualifying paragraph preceded only by short paragraphs is always found |
| Insights.ScanFromNextElement | MarketPulseAnalyzer/client/src/lib/analytics-parser.ts:10-16 | scanning from just after a node equals scanning from its next element sibling, because text nodes are skipped |
| Insights.ScanParagraphs | MarketPulseAnalyzer/client/src/lib/analytics-parser.ts:10-17 | the `while` loop over `P` siblings returns the insight of the paragraph run after the heading |
| Insights.FindInsight | MarketPulseAnalyzer/client/src/lib/analytics-parser.ts:3-21 | the insight finder returns the insight under the first `h2` naming the period, or the fallback sentence |
| Insights.ParseWeeklyInsight | MarketPulseAnalyzer/client/src/lib/analytics-parser.ts:3-21 | `parseWeeklyInsight` is the finder with `weekly` and its fixed sentence |
| Insights.ParseMonthlyInsight | MarketPulseAnalyzer/client/src/lib/analytics-parser.ts:23-41 | `parseMonthlyInsight` is the finder with `monthly` and its fixed sentence |
| Insights.InsightShape | MarketPulseAnalyzer/client/src/lib/analytics-parser.ts:13-20 | an insight is either the fallback sentence or a trimmed paragraph text longer than 50 characters |
| Insights.DefaultsAreLong | MarketPulseAnalyzer/client/src/lib/analytics-parser.ts:20 | both fixed sentences are longer than 50 characters, so every insight is |
| Insights.NoHeadingGivesFallback | MarketPulseAnalyzer/client/src/lib/analytics-parser.ts:5-20 | a document without `h2` always yields the fallback sentence |
| Extractor.ParseSection | MarketPulseAnalyzer/client/src/lib/analytics-parser.ts:134-172 | a section function parses its located table, or returns the section's fallback |
| Extractor.ParseReport | MarketPulseAnalyzer/client/src/lib/analytics-parser.ts:115-132 | the report assembles the eight sections, the two insights and the HTML text, for given placeholders |
| Extractor.ParseAnalyticsHtml | MarketPulseAnalyzer/client/src/lib/analytics-parser.ts:115-132 | `parseAnalyticsHTML` is that report with the parser's own placeholders |
| Extractor.ParsedReportComplete | MarketPulseAnalyzer/client/src/lib/analytics-parser.ts:119-131 | the report is fully populated: every search and country list and both insights are present, the insights are longer than 50 characters, and the HTML is copied verbatim |
| Extractor.NoTablesGivesFallbacks | MarketPulseAnalyzer/client/src/lib/analytics-parser.ts:161-171 | with no tables the metric and engagement sections are their placeholders and the search and country sections are empty |
| Extractor.LastWeekNeedsHeading | MarketPulseAnalyzer/client/src/lib/analytics-parser.ts:344-366 | last week's search and country lists are empty unless a heading leads to a table, because they have no keyword scan |
| Extractor.SectionFromDocumentTable | MarketPulseAnalyzer/client/src/lib/analytics-parser.ts:147-158 | a section's rows are either its fallback or the parse of one of the document's tables |
| Extractor.RowsHaveKeys | MarketPulseAnalyzer/client/src/lib/analytics-parser.ts:119-127 | when the placeholders name their keys, every row of every section has a non-empty key (metric, page or country) |
| Extractor.ParserPlaceholdersFit | MarketPulseAnalyzer/client/src/lib/analytics-parser.ts:162-284 | the parser's own placeholders meet those conditions: both sentences are longer than 50 characters and every placeholder row names its key |
| Dashboard.IntToDecimalRoundTrip | MarketPulseAnalyzer/client/src/components/analytics-dashboard.tsx:36 | formatting an id into the URL and reading it back gives the id |
| Dashboard.IntToDecimalInjective | MarketPulseAnalyzer/client/src/components/analytics-dashboard.tsx:36 | two ids format to the same text exactly when they are equal |
| Dashboard.ReportUrlDistinct | MarketPulseAnalyzer/client/src/components/analytics-dashboard.tsx:17-36 | a report URL is never the webhook or the latest-report URL, and two report URLs are equal exactly when their ids are |
| Dashboard.CurrentUrlIdentifiesView | MarketPulseAnalyzer/client/src/components/analytics-dashboard.tsx:34-39 | two views fetch the same URL exactly when they have the same source and, on the saved side, the same truthy selection |
| Dashboard.AnalyticsDashboard.constructor | MarketPulseAnalyzer/client/src/components/analytics-dashboard.tsx:23-25 | the component starts live, with no selection and the history list hidden |
| Dashboard.AnalyticsDashboard.ToggleDataSource | MarketPulseAnalyzer/client/src/components/analytics-dashboard.tsx:111-126 | `toggleDataSource` sets the toggled view and invalidates the URL of the view it leaves |
| Dashboard.AnalyticsDashboard.SelectReport | MarketPulseAnalyzer/client/src/components/analytics-dashboard.tsx:128-133 | `selectReport(id)` selects `id`, hides the list, keeps the source, and invalidates that report's URL |
| Dashboard.TransitionsKeepValid | MarketPulseAnalyzer/client/src/components/analytics-dashboard.tsx:111-133 | the history list is never shown in live mode, initially or after either transition |
| Dashboard.ToggleReturnsToLive | MarketPulseAnalyzer/client/src/components/analytics-dashboard.tsx:115-124 | from the saved side, at most two toggles lead back to the initial live view |
| Dashboard.ToggleTwiceFromInitial | MarketPulseAnalyzer/client/src/components/analytics-dashboard.tsx:112-124 | the first toggle opens the saved side with the list shown, and a second one restores the initial view |
| Dashboard.ToggleOnPreviousClearsSelection | MarketPulseAnalyzer/client/src/components/analytics-dashboard.tsx:115-124 | toggling on the saved side always clears the selection, so the next URL is the latest-report or the webhook URL |
| Dashboard.SelectInvalidatesCurrentQuery | MarketPulseAnalyzer/client/src/components/analytics-dashboard.tsx:128-132 | on the saved side the invalidated key is the URL now fetched, except for id 0, which fetches the latest report instead |
| Dashboard.SelectInLiveKeepsWebhook | MarketPulseAnalyzer/client/src/components/analytics-dashboard.tsx:34-39 | a selection made in live mode leaves the fetched URL at the webhook |
| Dashboard.RetryPolicy | MarketPulseAnalyzer/client/src/components/analytics-dashboard.tsx:45-50 | retries stop after two failures on the saved side and after three live; a retry allowed after `n` failures is allowed after fewer |
| Dashboard.RetryDelayBounds | MarketPulseAnalyzer/client/src/components/analytics-dashboard.tsx:51 | the delay stays between 1 and 30 seconds, never decreases, doubles over the first attempts, and is 30 seconds from attempt 5 on |
| Dashboard.PreviousAlwaysShows | MarketPulseAnalyzer/client/src/components/analytics-dashboard.tsx:54-68 | no payload shows nothing; on the saved side any payload shows a report, without search or country sections |
| Dashboard.LiveParsesFirstOutput | MarketPulseAnalyzer/client/src/components/analytics-dashboard.tsx:69-74 | live mode shows a report exactly when the array's first element has non-empty HTML, and the report is the parse of that HTML |
| Dashboard.LiveIgnoresLaterItems | MarketPulseAnalyzer/client/src/components/analytics-dashboard.tsx:71-73 | elements after the first never change the live report |
| Dashboard.SavedReportReadsBack | MarketPulseAnalyzer/client/src/components/analytics-dashboard.tsx:57-68 | a parsed report, saved and read back on the saved side, shows the same tables, insights and HTML, and no search or country lists |
| SeoAnalysis.ExpertChoice | MarketPulseAnalyzer/client/src/components/seo-analysis-section.tsx:54 | the trimmed custom name wins whenever it has a non-space character, the selected expert is used otherwise, and no expert is resolved exactly when both are empty |
| SeoAnalysis.AnalyzeRequiresDataAndExpert | MarketPulseAnalyzer/client/src/components/seo-analysis-section.tsx:42-52 | a request goes out exactly when there is a report and an expert resolves, and it names the resolved expert and that report |
| SeoAnalysis.EnabledButtonSends | MarketPulseAnalyzer/client/src/components/seo-analysis-section.tsx:104-106 | an enabled button always sends a request, a pending request keeps it disabled, and when nothing is pending it is enabled exactly when a request would go out |
| SeoAnalysis.Split | MarketPulseAnalyzer/client/src/components/seo-analysis-section.tsx:175 | `split('\n')` always gives at least one line |
| SeoAnalysis.SplitJoin | MarketPulseAnalyzer/client/src/components/seo-analysis-section.tsx:175 | joining the lines with newlines gives back the text |
| SeoAnalysis.SplitLinesHaveNoNewline | MarketPulseAnalyzer/client/src/components/seo-analysis-section.tsx:175 | no line contains a newline |
| SeoAnalysis.SplitAtNewline | MarketPulseAnalyzer/client/src/components/seo-analysis-section.tsx:175 | splitting `a + "\n" + b` gives the lines of `a` followed by the lines of `b` |
| SeoAnalysis.HashPrefixIff | MarketPulseAnalyzer/client/src/components/seo-analysis-section.tsx:179 | the computed `#` test agrees with `^#+\s`, whose match is unique: the whole run of `#` followed by whitespace |
| SeoAnalysis.NumberPrefixIff | MarketPulseAnalyzer/client/src/components/seo-analysis-section.tsx:196 | the computed number test agrees with `^\d+\.\s`, whose match is the whole leading digit run |
| SeoAnalysis.ClassifyBlank | MarketPulseAnalyzer/client/src/components/seo-analysis-section.tsx:176 | a line renders as nothing exactly when it is all whitespace |
| SeoAnalysis.ClassifyKinds | MarketPulseAnalyzer/client/src/components/seo-analysis-section.tsx:179-210 | a rendered line is a heading exactly when it passes the heading test, a list item exactly when it passes the list test and not the heading test, and otherwise a paragraph showing the whole line |
| SeoAnalysis.ClassifySuffix | MarketPulseAnalyzer/client/src/components/seo-analysis-section.tsx:190-202 | the displayed text is a suffix of the line: markers are only removed from the front |
| SeoAnalysis.StripHashesSuffix | MarketPulseAnalyzer/client/src/components/seo-analysis-section.tsx:190 | removing `^#+\s` leaves a suffix of the line |
| SeoAnalysis.StripListSuffix | MarketPulseAnalyzer/client/src/components/seo-analysis-section.tsx:202 | removing the bullet and then the number prefix leaves a suffix of the line |
| SeoAnalysis.HeadingText | MarketPulseAnalyzer/client/src/components/seo-analysis-section.tsx:187-191 | a heading shows the text after `#…# ` when it has one, and the whole line otherwise |
| SeoAnalysis.IndentedBulletIsParagraph | MarketPulseAnalyzer/client/src/components/seo-analysis-section.tsx:196-210 | an indented bullet line is classified untrimmed, so it is a paragraph shown verbatim |
| SeoAnalysis.BulletThenNumber | MarketPulseAnalyzer/client/src/components/seo-analysis-section.tsx:196-202 | a line with a bullet and then a number is a list item with both markers removed |
| SeoAnalysis.RenderAtNewline | MarketPulseAnalyzer/client/src/components/seo-analysis-section.tsx:175-213 | rendering works line by line: the blocks of `a + "\n" + b` are those of `a` followed by those of `b` |
| SeoAnalysis.BlankTextRendersNothing | MarketPulseAnalyzer/client/src/components/seo-analysis-section.tsx:175-176 | an all-whitespace analysis renders no block |
| Storage.MemStorage.constructor | MarketPulseAnalyzer/server/storage.ts:18-21 | a new store is empty, with the counter at 1, and satisfies the table invariant |
| Storage.MemStorage.GetUser | MarketPulseAnalyzer/server/storage.ts:23-25 | `getUser(id)` finds a user carrying that id exactly when the id has been issued |
| Storage.MemStorage.GetUserByUsername | MarketPulseAnalyzer/server/storage.ts:27-31 | the scan returns the first user in insertion order with the name, a stored user with that name, or nothing exactly when no stored user has it |
| Storage.MemStorage.CreateUser | MarketPulseAnalyzer/server/storage.ts:33-38 | `createUser` stores the fields under the old counter value, returns that user, raises the counter by one, and keeps the invariant |
| Storage.FindByUsernameSound | MarketPulseAnalyzer/server/storage.ts:27-31 | the name search returns the user with the smallest id in range that has the name, and nothing exactly when none has it |
| Storage.InsertKeepsValid | MarketPulseAnalyzer/server/storage.ts:34-36 | the next id is never in use, so inserting under it keeps the keys equal to the issued ids and every user's id equal to its key |
| Storage.InsertThenLookup | MarketPulseAnalyzer/server/storage.ts:33-37 | after an insertion the new user is found under its id, and every other id reads as before |
| Storage.DuplicateUsernameShadowed | MarketPulseAnalyzer/server/storage.ts:33-38 | a name that is already taken is stored again as a new entry, and lookup by name keeps returning the earlier user |
| Storage.NewUsernameFound | MarketPulseAnalyzer/server/storage.ts:27-38 | a new name is found at once, as the user just created |

## Left out

- The browser's `DOMParser` is not modelled. The parsed document is a parameter of the extractor, next to the HTML text that is copied into the report.
- `parseFloat` is not modelled, because it is floating point. A percentage is kept as its sign and the digits the pattern captured.
- `toLowerCase` and `toUpperCase` change ASCII letters only. Lengths are counted in characters, not UTF-16 code units, which matters for the 50- and 100-character limits only outside the Basic Multilingual Plane.
- React rendering is not modelled. This covers the JSX, `useQuery` and `useMutation`, both effects (the save `POST` to `/api/analytics` and the success banner with its timer), the clipboard copy and the mutation's network call.
- Dashboard.Normalise: takes the HTML parser as a parameter. `Extractor.AnalyticsOf` models that parser; as a parameter it keeps the view logic independent of the document model.
- Extractor.RowsHaveKeys: is stated for any placeholders meeting its conditions. `Extractor.ParserPlaceholdersFit` shows that the parser's own placeholders meet them. This keeps the long literal rows out of the other proofs.
- Storage.MemStorage.GetUserByUsername: scans ids in ascending order. A JavaScript `Map` iterates in insertion order, and the class only inserts fresh, increasing ids, so the two orders agree.
- Storage.MemStorage: `currentId` is a public field in the source and could be written from outside. The model assumes only the class's own methods change it. Its ids are unbounded integers.
- `DatabaseStorage`, the server routes, the schema declarations and the display-only section components are not part of this model. They are persistence, I/O or markup.
- Dashboard.AnalyticsDashboard.SelectReport: takes integer ids. Formatting non-integer numbers into the URL is not modelled.
- A webhook element that is `null` is not modelled: the source would fail on it.
