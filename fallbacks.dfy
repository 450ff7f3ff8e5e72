/**
 * The placeholder rows a section falls back to when no table can be located
 * (analytics-parser.ts), kept verbatim.  Numeric `changePercent` literals are
 * written as a sign and the digits of the literal.
 */
module Fallbacks {
  import opened Options
  import opened Text
  import opened Rows

  /** Returned by the weekly-change lookup when neither a heading nor a keyword table is found. */
  const WeeklyFallback: seq<MetricRow> := [
      MetricRow("Total Page Views", "473", "399", "18.55%", Some(Percent(false, "18.55")), Some(true)),
      MetricRow("Total Users", "337", "307", "9.77%", Some(Percent(false, "9.77")), Some(true)),
      MetricRow("Total Sessions", "397", "356", "11.52%", Some(Percent(false, "11.52")), Some(true)),
      MetricRow("Average Sessions per User", "1.33", "1.29", "3.39%", Some(Percent(false, "3.39")), Some(true)),
      MetricRow("Average Session Duration", "172.08s", "156.05s", "10.27%", Some(Percent(false, "10.27")), Some(true)),
      MetricRow("Total Purchases", "0", "0", "N/A", None, None),
      MetricRow("Average Revenue per Purchase", "0", "0", "N/A", None, None),
      MetricRow("Total Revenue", "0", "0", "N/A", None, None)
    ]

  /** Returned by the monthly-change lookup when neither a heading nor a keyword table is found. */
  const MonthlyFallback: seq<MetricRow> := [
      MetricRow("Total Page Views", "1,708", "2,705", "-36.9%", Some(Percent(true, "36.9")), Some(false)),
      MetricRow("Total Users", "1,259", "1,851", "-32.0%", Some(Percent(true, "32.0")), Some(false)),
      MetricRow("Total Sessions", "1,476", "2,145", "-31.2%", Some(Percent(true, "31.2")), Some(false)),
      MetricRow("Average Sessions per User", "1.31", "1.31", "0.0%", Some(Percent(false, "0")), None),
      MetricRow("Average Session Duration", "2.5 min", "2.6 min", "-3.9%", Some(Percent(true, "3.9")), Some(false)),
      MetricRow("Total Purchases", "0", "0", "0%", Some(Percent(false, "0")), None),
      MetricRow("Average Revenue per Purchase", "$0", "$0", "0%", Some(Percent(false, "0")), None),
      MetricRow("Total Revenue", "$0", "$0", "0%", Some(Percent(false, "0")), None)
    ]

  /** Returned when no "engagement stats - this week" heading leads to a table. */
  const EngagementThisWeekFallback: seq<EngagementRow> := [
      EngagementRow("Keith Rumjahn", "211", "177", "1.19", "1018"),
      EngagementRow("n8n SEO A.I. Agent System - Automate your SEO analysis with A.I.", "83", "53", "1.57", "407"),
      EngagementRow("AI Augmented Living - Leveraging AI and Smart Tools for a More Efficient Life", "79", "43", "1.84", "244"),
      EngagementRow("How I used A.I. to be an SEO expert and analyzed my Google analytics data in n8n and make.com - AI Augmented Living", "37", "17", "2.18", "125"),
      EngagementRow("How I used A.I. to analyze 8 years of Apple Health Fitness Data to uncover actionable insights - AI Augmented Living", "31", "22", "1.41", "108"),
      EngagementRow("OpenAI Codex vs Aider vs Claude Code: Which Terminal AI Coding Editor Is Best in 2025? - AI Augmented Living", "30", "26", "1.15", "117"),
      EngagementRow("Automate PDF to CSV Conversion: The n8n Method That Saved Me 15 Hours/Week - AI Augmented Living", "26", "20", "1.30", "146"),
      EngagementRow("Gumroad", "22", "12", "1.83", "85"),
      EngagementRow("How I used A.I. to automatically track my expenses in Actual Budget - AI Augmented Living", "19", "12", "1.58", "58"),
      EngagementRow("Ultimate list of BEST self hosted apps in 2025 (Without any monthly subscription fees) - AI Augmented Living", "14", "10", "1.40", "49"),
      EngagementRow("How I used A.I. to categorize 82 blog posts automatically in 2 minutes with no coding experience - AI Augmented Living", "13", "10", "1.30", "54"),
      EngagementRow("How to Create an A.I. Agent for Obsidian Using n8n RAG - A Step-by-Step Guide Without Coding - AI Augmented Living", "12", "11", "1.09", "45"),
      EngagementRow("How A.I. Saved My Kids' School Life (And My Marriage) - AI Augmented Living", "8", "5", "1.60", "25"),
      EngagementRow("Create a FREE email capture forms and verify email using Hunter.io and n8n - AI Augmented Living", "6", "5", "1.20", "22"),
      EngagementRow("FireCrawl vs Crawl4AI vs ScrapeGraphAI: Which Web Scraping Tool Offers the Best Free Plan? - AI Augmented Living", "6", "5", "1.20", "22"),
      EngagementRow("5-Minute Setup: OpenRouter Community Node for n8n [Step-by-Step Tutorial] - AI Augmented Living", "5", "5", "1.00", "18"),
      EngagementRow("AI Tools Archives - AI Augmented Living", "5", "3", "1.67", "12"),
      EngagementRow("How to create an A.I. Agent to analyze Matomo analytics using n8n for free - AI Augmented Living", "5", "5", "1.00", "21"),
      EngagementRow("How to learn and become an A.I. expert after 40 (I started after 40!) - AI Augmented Living", "5", "5", "1.00", "16"),
      EngagementRow("My top 3 SEO Docker Apps self hosted on my Synology NAS (So You Can Boost Your Website Traffic Today) - AI Augmented Living", "5", "3", "1.67", "16")
    ]

  /** Returned when no "engagement stats - prior week" heading leads to a table. */
  const EngagementPriorWeekFallback: seq<EngagementRow> := [
      EngagementRow("n8n SEO A.I. Agent System - Automate your SEO analysis with A.I.", "102", "65", "1.57", "520"),
      EngagementRow("Keith Rumjahn", "92", "73", "1.26", "437"),
      EngagementRow("AI Augmented Living - Leveraging AI and Smart Tools for a More Efficient Life", "49", "40", "1.23", "173"),
      EngagementRow("How I used A.I. to be an SEO expert and analyzed my Google analytics data in n8n and make.com - AI Augmented Living", "34", "17", "2.00", "136"),
      EngagementRow("OpenAI Codex vs Aider vs Claude Code: Which Terminal AI Coding Editor Is Best in 2025? - AI Augmented Living", "33", "27", "1.22", "110"),
      EngagementRow("Automate PDF to CSV Conversion: The n8n Method That Saved Me 15 Hours/Week - AI Augmented Living", "32", "23", "1.39", "141"),
      EngagementRow("How I used A.I. to analyze 8 years of Apple Health Fitness Data to uncover actionable insights - AI Augmented Living", "31", "26", "1.19", "123"),
      EngagementRow("Gumroad", "20", "12", "1.67", "80"),
      EngagementRow("How A.I. Saved My Kids' School Life (And My Marriage) - AI Augmented Living", "13", "8", "1.63", "46"),
      EngagementRow("How I used A.I. to categorize 82 blog posts automatically in 2 minutes with no coding experience - AI Augmented Living", "8", "8", "1.00", "37")
    ]

  /** The number in `[-]g%` is found right after the optional sign. */
  lemma {:induction false} FindsNumber(s: string, neg: bool, g: string)
    requires IsNumberText(g) && s == (if neg then "-" else "") + g + "%"
    ensures FirstNumber(s, 0) == Some(g)
  {
    var j := if neg then 1 else 0;
    assert s[j..j + |g|] == g && s[j + |g|] == '%';
    NumberAtIff(s, j, g);
    if neg {
      assert DigitRun(s, 0) == 0;
    }
  }

  /** A change text that is a number followed by '%', optionally after a '-', reads as that number. */
  lemma ReadsPercent(s: string, neg: bool, g: string)
    requires IsNumberText(g) && s == (if neg then "-" else "") + g + "%" && s != "0%"
    ensures ClassifyChange(s) == (Some(Percent(neg, g)), Some(!neg))
  {
    FindsNumber(s, neg, g);
    SignOf(s, neg, g);
    Classified(s, neg, g);
  }

  lemma SignOf(s: string, neg: bool, g: string)
    requires |g| > 0 && IsDigit(g[0]) && s == (if neg then "-" else "") + g + "%"
    ensures StartsWith(s, "-") == neg && s != "" && s != "N/A"
  {
    if !neg { assert s[0] == g[0]; }
    assert s[|s| - 1] == '%';
  }

  lemma Classified(s: string, neg: bool, g: string)
    requires FirstNumber(s, 0) == Some(g) && StartsWith(s, "-") == neg
    requires s != "" && s != "N/A" && s != "0%"
    ensures ClassifyChange(s) == (Some(Percent(neg, g)), Some(!neg))
  {
  }

  lemma DecimalText(a: string, b: string)
    requires |a| > 0 && forall i :: 0 <= i < |a| ==> IsDigit(a[i])
    requires forall i :: 0 <= i < |b| ==> IsDigit(b[i])
    ensures IsNumberText(a + "." + b)
  {
  }

  /** A placeholder row says what the parser would derive from its own change text. */
  predicate AsParsed(r: MetricRow) {
    ClassifyChange(r.change) == (r.changePercent, r.isPositive)
  }

  /** A row whose change text is `a.b%` and which records a positive `a.b`. */
  lemma PositiveRowAsParsed(r: MetricRow, a: string, b: string)
    requires |a| > 0 && forall i :: 0 <= i < |a| ==> IsDigit(a[i])
    requires forall i :: 0 <= i < |b| ==> IsDigit(b[i])
    requires r.change == a + "." + b + "%"
    requires r.changePercent == Some(Percent(false, a + "." + b)) && r.isPositive == Some(true)
    ensures AsParsed(r)
  {
    DecimalText(a, b);
    assert r.change == "" + (a + "." + b) + "%";
    ReadsPercent(r.change, false, a + "." + b);
  }

  // One lemma per positive weekly row keeps each literal evaluation in its own proof.
  lemma WeeklyRow0AsParsed()
    ensures AsParsed(WeeklyFallback[0])
  {
    assert "18" + "." + "55" == "18.55";
    PositiveRowAsParsed(WeeklyFallback[0], "18", "55");
  }

  lemma WeeklyRow1AsParsed()
    ensures AsParsed(WeeklyFallback[1])
  {
    assert "9" + "." + "77" == "9.77";
    PositiveRowAsParsed(WeeklyFallback[1], "9", "77");
  }

  lemma WeeklyRow2AsParsed()
    ensures AsParsed(WeeklyFallback[2])
  {
    assert "11" + "." + "52" == "11.52";
    PositiveRowAsParsed(WeeklyFallback[2], "11", "52");
  }

  lemma WeeklyRow3AsParsed()
    ensures AsParsed(WeeklyFallback[3])
  {
    assert "3" + "." + "39" == "3.39";
    PositiveRowAsParsed(WeeklyFallback[3], "3", "39");
  }

  lemma WeeklyRow4AsParsed()
    ensures AsParsed(WeeklyFallback[4])
  {
    assert "10" + "." + "27" == "10.27";
    PositiveRowAsParsed(WeeklyFallback[4], "10", "27");
  }

  /** The weekly placeholder rows carry exactly the change the parser would read from their own text. */
  lemma WeeklyFallbackAsParsed()
    ensures |WeeklyFallback| == 8
    ensures forall i :: 0 <= i < |WeeklyFallback| ==> AsParsed(WeeklyFallback[i])
  {
    WeeklyRow0AsParsed();
    WeeklyRow1AsParsed();
    WeeklyRow2AsParsed();
    WeeklyRow3AsParsed();
    WeeklyRow4AsParsed();
    assert AsParsed(WeeklyFallback[5]) && AsParsed(WeeklyFallback[6]) && AsParsed(WeeklyFallback[7]);
    forall i | 0 <= i < |WeeklyFallback| ensures AsParsed(WeeklyFallback[i]) {
      assert i < 4 ==> i == 0 || i == 1 || i == 2 || i == 3;
      assert 4 <= i ==> i == 4 || i == 5 || i == 6 || i == 7;
    }
  }

  /**
   * The monthly placeholder row for "0.0%" is neutral, but the parser reads
   * "0.0%" as a positive change: only the exact text "0%" is neutral.
   */
  lemma MonthlyZeroRowDiffersFromParser()
    ensures |MonthlyFallback| == 8 && MonthlyFallback[3].change == "0.0%"
    ensures MonthlyFallback[3].isPositive == None
    ensures ClassifyChange(MonthlyFallback[3].change).1 == Some(true)
  {
    ZeroVariantsAreDirected();
  }

  /** Every weekly placeholder row names its metric. */
  lemma WeeklyMetricsNamed()
    ensures |WeeklyFallback| == 8
    ensures forall r :: r in WeeklyFallback ==> r.metric != ""
  {
  }

  /** Every monthly placeholder row names its metric. */
  lemma MonthlyMetricsNamed()
    ensures |MonthlyFallback| == 8
    ensures forall r :: r in MonthlyFallback ==> r.metric != ""
  {
  }

  /** Every placeholder row of this week's engagement names its page. */
  lemma ThisWeekPagesNamed()
    ensures |EngagementThisWeekFallback| == 20
    ensures forall r :: r in EngagementThisWeekFallback ==> r.page != ""
  {
    var rows := EngagementThisWeekFallback;
    assert forall i :: 0 <= i < |rows| ==> rows[i].page != "";
  }

  /** Every placeholder row of the prior week's engagement names its page. */
  lemma PriorWeekPagesNamed()
    ensures |EngagementPriorWeekFallback| == 10
    ensures forall r :: r in EngagementPriorWeekFallback ==> r.page != ""
  {
    var rows := EngagementPriorWeekFallback;
    assert forall i :: 0 <= i < |rows| ==> rows[i].page != "";
  }
}
