/**
 * Section location: find the first heading whose lower-cased text contains one
 * of a section's phrases, walk its following siblings to the first table, and
 * only when that fails scan every table of the document for keywords.
 */
module Locate {
  import opened Options
  import opened Text
  import opened Dom

  datatype Section =
    | WeeklyChange | MonthlyChange
    | EngagementThisWeek | EngagementPriorWeek
    | SearchThisWeek | SearchLastWeek
    | CountryThisWeek | CountryLastWeek

  /** The phrases a section's heading may contain (lower case). */
  function Phrases(s: Section): seq<string> {
    match s
    case WeeklyChange => ["weekly change"]
    case MonthlyChange => ["monthly change"]
    case EngagementThisWeek => ["engagement stats - this week"]
    case EngagementPriorWeek => ["engagement stats - prior week"]
    case SearchThisWeek => ["search results this week", "search performance this week", "google search console this week"]
    case SearchLastWeek => ["search results last week", "search performance last week", "google search console last week"]
    case CountryThisWeek => ["country views this week", "geographic this week", "by country this week"]
    case CountryLastWeek => ["country views last week", "geographic last week", "by country last week"]
  }

  /** The elements searched for a heading: `h2, h3, th`, plus `p` for search and country sections. */
  function HeadingTags(s: Section): set<string> {
    if s.SearchThisWeek? || s.SearchLastWeek? || s.CountryThisWeek? || s.CountryLastWeek?
    then {"H2", "H3", "P", "TH"}
    else {"H2", "H3", "TH"}
  }

  /** An element's text content names the section. */
  predicate HeadingTextMatches(s: Section, text: string) {
    text != "" && ContainsAny(ToLower(text), Phrases(s))
  }

  predicate IsHeadingFor(s: Section, n: Node) {
    HasTag(n, HeadingTags(s)) && HeadingTextMatches(s, TextContent(n))
  }

  /** The test handed to `find` over the document's heading-like elements. */
  function HeadingTest(s: Section): Loc -> bool {
    (l: Loc) => IsHeadingFor(s, l.node)
  }

  predicate IsTable(n: Node) {
    n.Element? && n.tag == "TABLE"
  }

  /** `Array.prototype.find`, as the index of the first element passing `p`. */
  function FirstIndex<T>(xs: seq<T>, p: T -> bool): (r: Option<nat>)
    ensures r.Some? ==> r.value < |xs| && p(xs[r.value]) && forall i :: 0 <= i < r.value ==> !p(xs[i])
    ensures r.None? ==> forall i :: 0 <= i < |xs| ==> !p(xs[i])
  {
    if xs == [] then None
    else if p(xs[0]) then Some(0)
    else match FirstIndex(xs[1..], p)
      case Some(k) => Some(k + 1)
      case None => None
  }

  lemma FirstIndexIs<T>(xs: seq<T>, p: T -> bool, k: nat)
    requires k < |xs| && p(xs[k]) && forall i :: 0 <= i < k ==> !p(xs[i])
    ensures FirstIndex(xs, p) == Some(k)
  {
    var f := FirstIndex(xs, p);
    assert f.Some?;
    assert !(f.value < k);
  }

  /** The first sibling after position `index` that is a table. */
  function TableAfter(siblings: seq<Node>, index: nat): (r: Option<nat>)
    ensures r.Some? ==> index < r.value < |siblings| && IsTable(siblings[r.value])
    ensures r.Some? ==> forall j :: index < j < r.value ==> !IsTable(siblings[j])
    ensures r.None? ==> forall j :: index < j < |siblings| ==> !IsTable(siblings[j])
    decreases |siblings| - index
  {
    if index + 1 >= |siblings| then None
    else if IsTable(siblings[index + 1]) then Some(index + 1)
    else TableAfter(siblings, index + 1)
  }

  /** The walk `element = element.nextElementSibling` until a `TABLE` or the end of the siblings. */
  method WalkToTable(siblings: seq<Node>, index: nat) returns (k: Option<nat>)
    ensures k == TableAfter(siblings, index)
  {
    var element := NextElementSibling(siblings, index);
    while element.Some? && siblings[element.value].tag != "TABLE"
      invariant element.Some? ==> index < element.value < |siblings| && siblings[element.value].Element?
      invariant forall j :: index < j < (if element.Some? then element.value else |siblings|) ==> !IsTable(siblings[j])
      decreases if element.Some? then |siblings| - element.value else 0
    {
      element := NextElementSibling(siblings, element.value);
    }
    k := element;
  }

  // Keyword scan over tables

  /** `th.textContent.toLowerCase()` for every `th` of the table. */
  function Headers(table: Node): seq<string> {
    var ths := QueryAll(table, {"TH"});
    seq(|ths|, i requires 0 <= i < |ths| => ToLower(TextContent(ths[i])))
  }

  predicate SomeHeaderHasAny(headers: seq<string>, words: seq<string>) {
    exists i :: 0 <= i < |headers| && ContainsAny(headers[i], words)
  }

  predicate SomeHeaderHasBoth(headers: seq<string>, a: string, b: string) {
    exists i :: 0 <= i < |headers| && Contains(headers[i], a) && Contains(headers[i], b)
  }

  predicate HasKeywordScan(s: Section) {
    s.WeeklyChange? || s.MonthlyChange? || s.SearchThisWeek? || s.CountryThisWeek?
  }

  /** The content test a section's fallback scan applies to a table. */
  predicate KeywordMatch(s: Section, table: Node) {
    var hs := Headers(table);
    var all := ToLower(TextContent(table));
    match s
    case WeeklyChange => SomeHeaderHasAny(hs, ["metric", "last 7 days", "previous week"])
    case MonthlyChange => SomeHeaderHasAny(hs, ["last 30 days", "previous 60 days"])
    case SearchThisWeek =>
      || SomeHeaderHasBoth(hs, "clicks", "impressions")
      || SomeHeaderHasBoth(hs, "avg position", "ctr")
      || SomeHeaderHasAny(hs, ["search"])
      || Contains(all, "google search console")
      || Contains(all, "search performance")
    case CountryThisWeek =>
      || SomeHeaderHasAny(hs, ["country"])
      || SomeHeaderHasBoth(hs, "sessions", "users")
      || SomeHeaderHasAny(hs, ["geographic"])
      || Contains(all, "by country")
      || Contains(all, "geographic")
      || Contains(all, "location")
    case _ => false
  }

  function KeywordTest(s: Section): Node -> bool {
    (t: Node) => KeywordMatch(s, t)
  }

  /** `doc.querySelectorAll('table')`. */
  function Tables(root: Node): (r: seq<Node>)
    ensures forall t :: t in r ==> IsTable(t)
  {
    Nodes(Select(DocumentOrder(root), {"TABLE"}))
  }

  /** The `for (const table of tables)` loop that returns at the first table passing the section's test. */
  method ScanTables(tables: seq<Node>, s: Section) returns (k: Option<nat>)
    ensures k == FirstIndex(tables, KeywordTest(s))
  {
    var test := KeywordTest(s);
    for i := 0 to |tables|
      invariant forall j :: 0 <= j < i ==> !test(tables[j])
    {
      if test(tables[i]) {
        FirstIndexIs(tables, test, i);
        return Some(i);
      }
    }
    return None;
  }

  // The whole lookup

  /** The table reached from the first matching heading, if any. */
  function HeadingTable(root: Node, s: Section): Option<Node> {
    var locs := DocumentOrder(root);
    match FirstIndex(locs, HeadingTest(s))
    case None => None
    case Some(h) =>
      match TableAfter(locs[h].siblings, locs[h].index)
      case None => None
      case Some(k) => Some(locs[h].siblings[k])
  }

  /** The table the keyword scan picks, for the sections that have one. */
  function ScannedTable(root: Node, s: Section): Option<Node> {
    if !HasKeywordScan(s) then None
    else
      var tables := Tables(root);
      match FirstIndex(tables, KeywordTest(s))
      case None => None
      case Some(i) => Some(tables[i])
  }

  /** Heading first; the scan only when the heading route finds nothing. */
  function LocatedTable(root: Node, s: Section): Option<Node> {
    if HeadingTable(root, s).Some? then HeadingTable(root, s) else ScannedTable(root, s)
  }

  method LocateTable(root: Node, s: Section) returns (t: Option<Node>)
    ensures t == LocatedTable(root, s)
  {
    var locs := DocumentOrder(root);
    var h := FirstIndex(locs, HeadingTest(s));
    if h.Some? {
      var heading := locs[h.value];
      var k := WalkToTable(heading.siblings, heading.index);
      if k.Some? {
        return Some(heading.siblings[k.value]);
      }
    }
    if HasKeywordScan(s) {
      var tables := Tables(root);
      var i := ScanTables(tables, s);
      if i.Some? {
        return Some(tables[i.value]);
      }
    }
    return None;
  }

  // Properties of the lookup

  /**
   * A table reached from the first matching heading wins over every table the
   * keyword scan would accept, and that heading is the first heading-like
   * element in document order whose text names the section.
   */
  lemma HeadingFirst(root: Node, s: Section, h: nat, k: nat)
    requires h < |DocumentOrder(root)|
    requires IsHeadingFor(s, DocumentOrder(root)[h].node)
    requires forall i :: 0 <= i < h ==> !IsHeadingFor(s, DocumentOrder(root)[i].node)
    requires TableAfter(DocumentOrder(root)[h].siblings, DocumentOrder(root)[h].index) == Some(k)
    ensures LocatedTable(root, s) == Some(DocumentOrder(root)[h].siblings[k])
  {
    var locs := DocumentOrder(root);
    FirstIndexIs(locs, HeadingTest(s), h);
  }

  /** The keyword scan is consulted only when no heading leads to a table. */
  lemma ScanOnlyAsFallback(root: Node, s: Section)
    ensures LocatedTable(root, s) != HeadingTable(root, s) ==> HeadingTable(root, s).None?
    ensures !HasKeywordScan(s) ==> LocatedTable(root, s) == HeadingTable(root, s)
  {
  }

  /** A table element at some location of the document is one of the document's tables. */
  lemma TableLocListed(root: Node, tl: Loc)
    requires tl in DocumentOrder(root) && IsTable(tl.node)
    ensures tl.node in Tables(root)
  {
    var sel := Select(DocumentOrder(root), {"TABLE"});
    assert tl in sel;
    var i :| 0 <= i < |sel| && sel[i] == tl;
    assert Tables(root)[i] == tl.node;
  }

  /** The table reached from a heading is one of the document's tables. */
  lemma HeadingTableListed(root: Node, s: Section)
    ensures HeadingTable(root, s).Some? ==> HeadingTable(root, s).value in Tables(root)
  {
    var locs := DocumentOrder(root);
    var f := FirstIndex(locs, HeadingTest(s));
    if f.Some? {
      var l := locs[f.value];
      var k := TableAfter(l.siblings, l.index);
      if k.Some? {
        DocumentSiblings(root, l);
        var tl := Loc(l.siblings[k.value], l.siblings, k.value);
        assert tl in locs;
        TableLocListed(root, tl);
      }
    }
  }

  /** Whatever the lookup returns is a table of the document. */
  lemma LocatedIsDocumentTable(root: Node, s: Section)
    ensures LocatedTable(root, s).Some? ==> IsTable(LocatedTable(root, s).value)
    ensures LocatedTable(root, s).Some? ==> LocatedTable(root, s).value in Tables(root)
  {
    HeadingTableListed(root, s);
  }

  /** A document without tables leaves every section unlocated. */
  lemma NoTablesNoSection(root: Node, s: Section)
    requires Tables(root) == []
    ensures LocatedTable(root, s).None?
  {
    LocatedIsDocumentTable(root, s);
  }

  /** A phrase longer than the text cannot occur in it. */
  lemma TooLongNotContained(t: string, p: string)
    requires |p| > |t|
    ensures !Contains(t, p)
  {
    ContainsIff(t, p);
  }

  /** "Search Results - This Week" names no search section: the phrases have no dash. */
  lemma DashedSearchHeadingMissed()
    ensures !HeadingTextMatches(SearchThisWeek, "Search Results - This Week")
  {
    var t := ToLower("Search Results - This Week");
    var ps := Phrases(SearchThisWeek);
    DashedLowered();
    DashedTextMissesFirstPhrase(t, ps[0]);
    TooLongNotContained(t, ps[1]);
    TooLongNotContained(t, ps[2]);
  }

  /** The characters of the lower-cased dashed heading that the argument below looks at. */
  lemma DashedLowered()
    ensures var t := ToLower("Search Results - This Week");
      |t| == 26 && t[2] == 'a' && t[15] == '-' && t[16] == ' '
  {
  }

  /** A 26-character text with these characters cannot hold the 24-character first search phrase. */
  lemma DashedTextMissesFirstPhrase(t: string, p: string)
    requires |t| == 26 && t[2] == 'a' && t[15] == '-' && t[16] == ' '
    requires p == "search results this week"
    ensures !Contains(t, p)
  {
    assert |p| == 24 && p[0] == 's' && p[15] == 't';
    ContainsIff(t, p);
    forall j | 0 <= j <= 2 ensures !OccursAt(t, p, j) {
      if j == 0 {
        assert t[j..j + 24][15] != p[15];
      } else if j == 1 {
        assert t[j..j + 24][15] != p[15];
      } else {
        assert t[j..j + 24][0] != p[0];
      }
    }
  }
}
