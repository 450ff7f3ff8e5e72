/**
 * Insight extraction: the first `h2` whose text names the period, then the run
 * of `p` elements right after it; the first paragraph whose trimmed text is
 * longer than 50 characters is the insight, otherwise a fixed sentence.
 */
module Insights {
  import opened Options
  import opened Text
  import opened Dom
  import opened Locate

  /** The sentence returned when no weekly paragraph qualifies. */
  const WeeklyInsightDefault: string :=
    "This includes detailed engagement stats for this week and prior week, search results, and country views as retrieved."

  /** The sentence returned when no monthly paragraph qualifies. */
  const MonthlyInsightDefault: string :=
    "The analysis reveals a general decline in key metrics such as page views, users, and sessions over the last 30 days compared to the previous 60 days, indicating reduced engagement."

  /** An `h2` whose (non-empty) text, lower-cased, contains the keyword. */
  predicate IsInsightHeading(keyword: string, l: Loc) {
    TextContent(l.node) != "" && Contains(ToLower(TextContent(l.node)), keyword)
  }

  function InsightHeadingTest(keyword: string): Loc -> bool {
    (l: Loc) => IsInsightHeading(keyword, l)
  }

  predicate IsParagraph(n: Node) {
    n.Element? && n.tag == "P"
  }

  /** A paragraph is an insight when its trimmed text is longer than 50 characters. */
  predicate Qualifies(n: Node) {
    |Trim(TextContent(n))| > 50
  }

  /** Every element in `siblings[lo..j]` is a paragraph too short to be the insight. */
  ghost predicate ShortParagraphsBetween(siblings: seq<Node>, lo: nat, j: nat) {
    forall k :: lo <= k < j && k < |siblings| && siblings[k].Element? ==>
      IsParagraph(siblings[k]) && !Qualifies(siblings[k])
  }

  /**
   * The insight found by scanning `siblings` from position `j`: text nodes are
   * skipped, the scan stops at the first element that is not a paragraph, and
   * the first qualifying paragraph gives its trimmed text.
   */
  function RunInsight(siblings: seq<Node>, j: nat): (r: Option<string>)
    ensures r.Some? ==> IsTrimmed(r.value) && |r.value| > 50
    decreases |siblings| - j
  {
    if j >= |siblings| then None
    else if !siblings[j].Element? then RunInsight(siblings, j + 1)
    else if !IsParagraph(siblings[j]) then None
    else if Qualifies(siblings[j]) then Some(Trim(TextContent(siblings[j])))
    else RunInsight(siblings, j + 1)
  }

  /** A found insight is the trimmed text of a qualifying paragraph preceded only by short paragraphs. */
  lemma {:induction false} RunInsightSound(siblings: seq<Node>, j: nat)
    requires RunInsight(siblings, j).Some?
    ensures exists i :: (j <= i < |siblings| && IsParagraph(siblings[i]) && Qualifies(siblings[i]) &&
      RunInsight(siblings, j).value == Trim(TextContent(siblings[i])) && ShortParagraphsBetween(siblings, j, i))
    decreases |siblings| - j
  {
    if !siblings[j].Element? || !Qualifies(siblings[j]) {
      RunInsightSound(siblings, j + 1);
      var i :| j + 1 <= i < |siblings| && IsParagraph(siblings[i]) && Qualifies(siblings[i]) &&
        RunInsight(siblings, j + 1).value == Trim(TextContent(siblings[i])) && ShortParagraphsBetween(siblings, j + 1, i);
      assert ShortParagraphsBetween(siblings, j, i);
    } else {
      assert ShortParagraphsBetween(siblings, j, j);
    }
  }

  /** A qualifying paragraph preceded only by short paragraphs is always found. */
  lemma {:induction false} RunInsightComplete(siblings: seq<Node>, j: nat, i: nat)
    requires j <= i < |siblings| && IsParagraph(siblings[i]) && Qualifies(siblings[i])
    requires ShortParagraphsBetween(siblings, j, i)
    ensures RunInsight(siblings, j).Some?
    decreases i - j
  {
    if j < i {
      assert RunInsight(siblings, j) == RunInsight(siblings, j + 1) by {
        assert siblings[j].Element? ==> IsParagraph(siblings[j]) && !Qualifies(siblings[j]);
      }
      assert ShortParagraphsBetween(siblings, j + 1, i);
      RunInsightComplete(siblings, j + 1, i);
    }
  }

  /** The insight under the first matching `h2`, or the fallback sentence. */
  function InsightOf(root: Node, keyword: string, fallback: string): string {
    var h2s := Select(DocumentOrder(root), {"H2"});
    match FirstIndex(h2s, InsightHeadingTest(keyword))
    case None => fallback
    case Some(h) =>
      match RunInsight(h2s[h].siblings, h2s[h].index + 1)
      case Some(t) => t
      case None => fallback
  }

  /** The scan from just after `index` is the scan from its next element sibling: text nodes in between are skipped. */
  lemma {:induction false} ScanFromNextElement(siblings: seq<Node>, index: nat)
    ensures RunInsight(siblings, index + 1) ==
      match NextElementSibling(siblings, index)
      case None => None
      case Some(e) => RunInsight(siblings, e)
    decreases |siblings| - index
  {
    if index + 1 < |siblings| && !siblings[index + 1].Element? {
      ScanFromNextElement(siblings, index + 1);
    }
  }

  /** The `while (element && element.tagName === 'P')` walk after the heading at `index`. */
  method ScanParagraphs(sibs: seq<Node>, index: nat) returns (r: Option<string>)
    ensures r == RunInsight(sibs, index + 1)
  {
    var element := NextElementSibling(sibs, index);
    ScanFromNextElement(sibs, index);
    while element.Some? && sibs[element.value].tag == "P"
      invariant element.Some? ==> element.value < |sibs| && sibs[element.value].Element?
      invariant RunInsight(sibs, index + 1) == if element.Some? then RunInsight(sibs, element.value) else None
      decreases if element.Some? then |sibs| - element.value else 0
    {
      var e := element.value;
      var t := Trim(TextContent(sibs[e]));
      if t != "" && |t| > 50 {
        assert RunInsight(sibs, e) == Some(t);
        return Some(t);
      }
      assert RunInsight(sibs, e) == RunInsight(sibs, e + 1);
      ScanFromNextElement(sibs, e);
      element := NextElementSibling(sibs, e);
    }
    return None;
  }

  /** `parseWeeklyInsight` / `parseMonthlyInsight`, with the keyword and the fallback as parameters. */
  method FindInsight(root: Node, keyword: string, fallback: string) returns (text: string)
    ensures text == InsightOf(root, keyword, fallback)
  {
    var h2s := Select(DocumentOrder(root), {"H2"});
    var h := FirstIndex(h2s, InsightHeadingTest(keyword));
    if h.Some? {
      var heading := h2s[h.value];
      var found := ScanParagraphs(heading.siblings, heading.index);
      if found.Some? {
        return found.value;
      }
    }
    return fallback;
  }

  method ParseWeeklyInsight(root: Node) returns (text: string)
    ensures text == InsightOf(root, "weekly", WeeklyInsightDefault)
  {
    text := FindInsight(root, "weekly", WeeklyInsightDefault);
  }

  method ParseMonthlyInsight(root: Node) returns (text: string)
    ensures text == InsightOf(root, "monthly", MonthlyInsightDefault)
  {
    text := FindInsight(root, "monthly", MonthlyInsightDefault);
  }

  /** The insight is either the fallback or a trimmed paragraph text longer than 50 characters. */
  lemma InsightShape(root: Node, keyword: string, fallback: string)
    ensures var r := InsightOf(root, keyword, fallback);
      r == fallback || (IsTrimmed(r) && |r| > 50)
  {
  }

  /** Both fallback sentences themselves pass the length test, so an insight is never shorter than 51 characters. */
  lemma DefaultsAreLong()
    ensures |WeeklyInsightDefault| > 50 && |MonthlyInsightDefault| > 50
    ensures forall root :: |InsightOf(root, "weekly", WeeklyInsightDefault)| > 50
    ensures forall root :: |InsightOf(root, "monthly", MonthlyInsightDefault)| > 50
  {
    forall root ensures |InsightOf(root, "weekly", WeeklyInsightDefault)| > 50 {
      InsightShape(root, "weekly", WeeklyInsightDefault);
    }
    forall root ensures |InsightOf(root, "monthly", MonthlyInsightDefault)| > 50 {
      InsightShape(root, "monthly", MonthlyInsightDefault);
    }
  }

  /** A document with no `h2` always yields the fallback sentence. */
  lemma NoHeadingGivesFallback(root: Node, keyword: string, fallback: string)
    requires Select(DocumentOrder(root), {"H2"}) == []
    ensures InsightOf(root, keyword, fallback) == fallback
  {
  }
}
