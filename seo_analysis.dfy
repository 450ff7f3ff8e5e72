/**
 * The expert-analysis panel: which expert name a request is made for, when a
 * request is made, and how the returned analysis text is laid out line by
 * line as headings, list items and paragraphs.
 */
module SeoAnalysis {
  import opened Options
  import opened Text
  import opened Rows
  import opened Extractor

  /** The experts offered in the selector. */
  const SeoExperts: seq<string> := ["Rand Fishkin", "Eli Schwartz", "Tim Soulo", "Aleyda Solis", "Brian Dean"]

  // ---------------------------------------------------------------------------
  // Expert resolution and the request

  /** `customExpert.trim() || selectedExpert`. */
  function ExpertToUse(customExpert: string, selectedExpert: string): string {
    var custom := Trim(customExpert);
    if custom != "" then custom else selectedExpert
  }

  /** The custom name wins whenever it has a non-space character; no expert is resolved only when both are empty. */
  lemma ExpertChoice(customExpert: string, selectedExpert: string)
    ensures !AllSpace(customExpert) ==>
      ExpertToUse(customExpert, selectedExpert) == Trim(customExpert) &&
      IsTrimmed(ExpertToUse(customExpert, selectedExpert)) && ExpertToUse(customExpert, selectedExpert) != ""
    ensures AllSpace(customExpert) ==> ExpertToUse(customExpert, selectedExpert) == selectedExpert
    ensures ExpertToUse(customExpert, selectedExpert) == "" <==> AllSpace(customExpert) && selectedExpert == ""
  {
  }

  datatype AnalysisRequest = AnalysisRequest(expert: string, analyticsData: AnalyticsData)

  /** `handleAnalyze`: the request it sends, if any. */
  function HandleAnalyze(analyticsData: Option<AnalyticsData>, customExpert: string, selectedExpert: string): Option<AnalysisRequest> {
    if analyticsData.None? then None
    else
      var expert := ExpertToUse(customExpert, selectedExpert);
      if expert == "" then None else Some(AnalysisRequest(expert, analyticsData.value))
  }

  /** The analyse button's `disabled` flag. */
  function ButtonDisabled(analyticsData: Option<AnalyticsData>, customExpert: string, selectedExpert: string, isPending: bool): bool {
    analyticsData.None? || ExpertToUse(customExpert, selectedExpert) == "" || isPending
  }

  /** A request goes out exactly when there is a report and some expert, and it names the resolved expert. */
  lemma AnalyzeRequiresDataAndExpert(analyticsData: Option<AnalyticsData>, customExpert: string, selectedExpert: string)
    ensures HandleAnalyze(analyticsData, customExpert, selectedExpert).Some? <==>
      analyticsData.Some? && !(AllSpace(customExpert) && selectedExpert == "")
    ensures HandleAnalyze(analyticsData, customExpert, selectedExpert).Some? ==>
      HandleAnalyze(analyticsData, customExpert, selectedExpert).value ==
        AnalysisRequest(ExpertToUse(customExpert, selectedExpert), analyticsData.value)
  {
    ExpertChoice(customExpert, selectedExpert);
  }

  /** An enabled button always sends a request; a pending request keeps the button disabled. */
  lemma EnabledButtonSends(analyticsData: Option<AnalyticsData>, customExpert: string, selectedExpert: string, isPending: bool)
    ensures !ButtonDisabled(analyticsData, customExpert, selectedExpert, isPending) ==>
      HandleAnalyze(analyticsData, customExpert, selectedExpert).Some?
    ensures isPending ==> ButtonDisabled(analyticsData, customExpert, selectedExpert, isPending)
    ensures !ButtonDisabled(analyticsData, customExpert, selectedExpert, false) <==>
      HandleAnalyze(analyticsData, customExpert, selectedExpert).Some?
  {
  }

  // ---------------------------------------------------------------------------
  // Splitting the analysis into lines

  /** The position of the first newline at or after `i`, or `|s|`. */
  function LineEnd(s: string, i: nat): (k: nat)
    requires i <= |s|
    ensures i <= k <= |s|
    ensures forall j :: i <= j < k ==> s[j] != '\n'
    ensures k < |s| ==> s[k] == '\n'
    decreases |s| - i
  {
    if i == |s| || s[i] == '\n' then i else LineEnd(s, i + 1)
  }

  /** The first newline is where the line ends, whichever way it is found. */
  lemma LineEndIs(s: string, i: nat, k: nat)
    requires i <= k <= |s|
    requires forall j :: i <= j < k ==> s[j] != '\n'
    requires k < |s| ==> s[k] == '\n'
    ensures LineEnd(s, i) == k
  {
  }

  /** `s.split('\n')`: the text up to the first newline, then the lines of the rest. */
  function Split(s: string): (r: seq<string>)
    ensures |r| >= 1
    decreases |s|
  {
    var k := LineEnd(s, 0);
    if k == |s| then [s] else [s[..k]] + Split(s[k + 1..])
  }

  /** `lines.join('\n')`. */
  function Join(lines: seq<string>): string
    requires |lines| >= 1
  {
    if |lines| == 1 then lines[0] else lines[0] + "\n" + Join(lines[1..])
  }

  /** Joining the lines gives the text back. */
  lemma {:induction false} SplitJoin(s: string)
    ensures Join(Split(s)) == s
    decreases |s|
  {
    var k := LineEnd(s, 0);
    if k < |s| {
      var rest := Split(s[k + 1..]);
      SplitJoin(s[k + 1..]);
      assert ([s[..k]] + rest)[1..] == rest;
      assert s == s[..k] + "\n" + s[k + 1..];
    }
  }

  /** No line contains the separator. */
  lemma {:induction false} SplitLinesHaveNoNewline(s: string)
    ensures forall i :: 0 <= i < |Split(s)| ==> '\n' !in Split(s)[i]
    decreases |s|
  {
    var k := LineEnd(s, 0);
    if k < |s| {
      SplitLinesHaveNoNewline(s[k + 1..]);
      var rest := Split(s[k + 1..]);
      assert '\n' !in s[..k];
      forall i | 0 <= i < |Split(s)| ensures '\n' !in Split(s)[i] {
        if i > 0 {
          assert Split(s)[i] == rest[i - 1];
        }
      }
    }
  }

  /** Splitting at a newline splits the lines. */
  lemma {:induction false} SplitAtNewline(a: string, b: string)
    ensures Split(a + "\n" + b) == Split(a) + Split(b)
    decreases |a|
  {
    var x := a + "\n" + b;
    var k := LineEnd(a, 0);
    assert LineEnd(x, 0) == k by {
      assert forall j :: 0 <= j < k ==> x[j] == a[j];
      LineEndIs(x, 0, k);
    }
    if k == |a| {
      assert Split(x) == [a] + Split(b) by {
        assert x[..k] == a;
        assert x[k + 1..] == b;
      }
    } else {
      assert Split(x) == [a[..k]] + Split(a[k + 1..] + "\n" + b) by {
        assert x[..k] == a[..k];
        assert x[k + 1..] == a[k + 1..] + "\n" + b;
      }
      SplitAtNewline(a[k + 1..], b);
    }
  }

  // ---------------------------------------------------------------------------
  // The line patterns

  /** The number of `c` characters at the start of `s[j..]`. */
  function RunOf(s: string, j: nat, c: char): (n: nat)
    requires j <= |s|
    ensures j + n <= |s|
    ensures forall i :: j <= i < j + n ==> s[i] == c
    ensures j + n == |s| || s[j + n] != c
    decreases |s| - j
  {
    if j < |s| && s[j] == c then 1 + RunOf(s, j + 1, c) else 0
  }

  /** `/^#+\s/` as computed: the run of `#` is followed by whitespace. */
  predicate HashPrefix(line: string) {
    var k := RunOf(line, 0, '#');
    k >= 1 && k < |line| && IsSpace(line[k])
  }

  /** The regular expression `^#+\s` matches `line` with `k` hashes. */
  ghost predicate HashMatch(line: string, k: nat) {
    1 <= k < |line| && (forall i :: 0 <= i < k ==> line[i] == '#') && IsSpace(line[k])
  }

  /** The computed test agrees with the regular expression, whose match is unique. */
  lemma HashPrefixIff(line: string, k: nat)
    ensures HashMatch(line, k) ==> HashPrefix(line) && k == RunOf(line, 0, '#')
    ensures HashPrefix(line) ==> HashMatch(line, RunOf(line, 0, '#'))
  {
  }

  /** `line.replace(/^#+\s/, '')`. */
  function StripHashes(line: string): string {
    if HashPrefix(line) then line[RunOf(line, 0, '#') + 1..] else line
  }

  /** The words that make a short all-capitals line a heading. */
  const HeadingKeywords: seq<string> := ["ANALYSIS", "RECOMMENDATIONS", "INSIGHTS", "OBSERVATIONS"]

  predicate HasHeadingKeyword(line: string) {
    ContainsAny(line, HeadingKeywords)
  }

  /** A `#` heading, or a short all-capitals line naming one of the heading keywords. */
  predicate IsHeadingLine(line: string) {
    HashPrefix(line) || (|line| < 100 && ToUpper(line) == line && HasHeadingKeyword(line))
  }

  predicate IsBullet(c: char) {
    c == '-' || c == '•' || c == '*'
  }

  /** `/^[-•*]\s/`. */
  predicate BulletPrefix(line: string) {
    |line| >= 2 && IsBullet(line[0]) && IsSpace(line[1])
  }

  /** `/^\d+\.\s/` as computed: the run of digits is followed by a dot and whitespace. */
  predicate NumberPrefix(line: string) {
    var k := DigitRun(line, 0);
    k >= 1 && k + 1 < |line| && line[k] == '.' && IsSpace(line[k + 1])
  }

  /** The regular expression `^\d+\.\s` matches `line` with `k` digits. */
  ghost predicate NumberMatchesAt(line: string, k: nat) {
    1 <= k && k + 1 < |line| && (forall i :: 0 <= i < k ==> IsDigit(line[i])) && line[k] == '.' && IsSpace(line[k + 1])
  }

  lemma NumberPrefixIff(line: string, k: nat)
    ensures NumberMatchesAt(line, k) ==> NumberPrefix(line) && k == DigitRun(line, 0)
    ensures NumberPrefix(line) ==> NumberMatchesAt(line, DigitRun(line, 0))
  {
  }

  predicate IsListLine(line: string) {
    BulletPrefix(line) || NumberPrefix(line)
  }

  /** `line.replace(/^[-•*]\s/, '')`. */
  function StripBullet(line: string): string {
    if BulletPrefix(line) then line[2..] else line
  }

  /** `line.replace(/^\d+\.\s/, '')`. */
  function StripNumber(line: string): string {
    if NumberPrefix(line) then line[DigitRun(line, 0) + 2..] else line
  }

  // ---------------------------------------------------------------------------
  // Classifying and rendering

  datatype Block = Heading(text: string) | ListItem(text: string) | Paragraph(text: string)

  /** What one line of the analysis renders as; whitespace-only lines render as nothing. */
  function Classify(line: string): Option<Block> {
    if Trim(line) == "" then None
    else if IsHeadingLine(line) then Some(Heading(StripHashes(line)))
    else if IsListLine(line) then Some(ListItem(StripNumber(StripBullet(line))))
    else Some(Paragraph(line))
  }

  predicate IsSuffix(t: string, line: string) {
    |t| <= |line| && line[|line| - |t|..] == t
  }

  /** Only whitespace-only lines render as nothing. */
  lemma ClassifyBlank(line: string)
    ensures Classify(line).None? <==> AllSpace(line)
  {
  }

  /**
   * Classification is decided by the untrimmed line: a heading before a list
   * item, a list item before a paragraph, and a paragraph keeps the whole line.
   */
  lemma ClassifyKinds(line: string)
    ensures Classify(line).Some? ==> (Classify(line).value.Heading? <==> IsHeadingLine(line))
    ensures Classify(line).Some? ==>
      (Classify(line).value.ListItem? <==> IsListLine(line) && !IsHeadingLine(line))
    ensures Classify(line).Some? ==>
      (Classify(line).value.Paragraph? <==> !IsListLine(line) && !IsHeadingLine(line))
    ensures Classify(line).Some? && Classify(line).value.Paragraph? ==> Classify(line).value.text == line
  {
  }

  /** The displayed text is what remains of the line after its markers. */
  lemma ClassifySuffix(line: string)
    ensures Classify(line).Some? ==> IsSuffix(Classify(line).value.text, line)
  {
    StripHashesSuffix(line);
    StripListSuffix(line);
    assert IsSuffix(line, line);
  }

  lemma StripHashesSuffix(line: string)
    ensures IsSuffix(StripHashes(line), line)
  {
  }

  lemma StripListSuffix(line: string)
    ensures IsSuffix(StripNumber(StripBullet(line)), line)
  {
    var u := StripBullet(line);
    var t := StripNumber(u);
    assert line[|line| - |u|..] == u;
    assert u[|u| - |t|..] == t;
  }

  /** The heading text keeps everything after `#…# `; a heading without hashes is shown as is. */
  lemma HeadingText(line: string)
    requires !AllSpace(line) && IsHeadingLine(line)
    ensures HashPrefix(line) ==> Classify(line) == Some(Heading(line[RunOf(line, 0, '#') + 1..]))
    ensures !HashPrefix(line) ==> Classify(line) == Some(Heading(line))
  {
    ClassifyBlank(line);
    assert Classify(line) == Some(Heading(StripHashes(line)));
  }

  /** An indented bullet is neither a heading nor a list item: it is kept verbatim as a paragraph. */
  lemma IndentedBulletIsParagraph(body: string)
    requires !HasHeadingKeyword("  - " + body)
    ensures Classify("  - " + body) == Some(Paragraph("  - " + body))
  {
    var line := "  - " + body;
    assert line[0] == ' ' && line[2] == '-';
    SpaceLedLineIsParagraph(line);
  }

  /** A line that starts with a space yet is not blank, and names no heading keyword, is a paragraph. */
  lemma SpaceLedLineIsParagraph(line: string)
    requires |line| >= 3 && line[0] == ' ' && !IsSpace(line[2]) && !HasHeadingKeyword(line)
    ensures Classify(line) == Some(Paragraph(line))
  {
    ClassifyBlank(line);
    assert !HashPrefix(line) by { assert RunOf(line, 0, '#') == 0; }
    assert !NumberPrefix(line) by { assert DigitRun(line, 0) == 0; }
  }

  /** A bulleted, numbered line loses both markers (here with a lower-case first letter, so it is no heading). */
  lemma BulletThenNumber(t: string)
    requires |t| > 0 && 'a' <= t[0] <= 'z'
    ensures Classify("- 1. " + t) == Some(ListItem(t))
  {
    var line := "- 1. " + t;
    assert line[0] == '-' && line[5] == t[0];
    assert !AllSpace(line) by { assert !IsSpace(line[0]); }
    assert RunOf(line, 0, '#') == 0;
    assert ToUpper(line)[5] != line[5];
    assert !IsHeadingLine(line);
    var u := StripBullet(line);
    assert u == "1. " + t;
    assert u[0] == '1' && u[1] == '.' && u[2] == ' ';
    assert DigitRun(u, 1) == 0;
    assert DigitRun(u, 0) == 1;
    assert u[3..] == t;
  }

  /** The results of `f` on `xs`, in order, with the `None`s dropped. */
  function FilterMap<A, B>(xs: seq<A>, f: A -> Option<B>): (r: seq<B>)
    ensures |r| <= |xs|
  {
    if xs == [] then []
    else
      var rest := FilterMap(xs[1..], f);
      if f(xs[0]).Some? then [f(xs[0]).value] + rest else rest
  }

  /** The blocks the panel shows for an analysis text: one per line that is not blank. */
  function Render(analysis: string): seq<Block> {
    FilterMap(Split(analysis), Classify)
  }

  lemma {:induction false} FilterMapAppend<A, B>(a: seq<A>, b: seq<A>, f: A -> Option<B>)
    ensures FilterMap(a + b, f) == FilterMap(a, f) + FilterMap(b, f)
  {
    if a != [] {
      assert (a + b)[0] == a[0];
      assert (a + b)[1..] == a[1..] + b;
      FilterMapAppend(a[1..], b, f);
    } else {
      assert a + b == b;
    }
  }

  /** An input on which `f` always fails gives nothing. */
  lemma {:induction false} FilterMapNone<A, B>(xs: seq<A>, f: A -> Option<B>)
    requires forall j :: 0 <= j < |xs| ==> f(xs[j]).None?
    ensures FilterMap(xs, f) == []
  {
    if xs != [] {
      assert f(xs[0]).None?;
      assert forall j :: 0 <= j < |xs[1..]| ==> f(xs[1..][j]).None? by {
        forall j | 0 <= j < |xs[1..]| ensures f(xs[1..][j]).None? {
          assert xs[1..][j] == xs[j + 1];
        }
      }
      FilterMapNone(xs[1..], f);
    }
  }

  /** Every result is `f` of some element. */
  lemma {:induction false} FilterMapSound<A, B>(xs: seq<A>, f: A -> Option<B>)
    ensures forall i :: 0 <= i < |FilterMap(xs, f)| ==>
      exists j :: 0 <= j < |xs| && f(xs[j]) == Some(FilterMap(xs, f)[i])
  {
    if xs != [] {
      FilterMapSound(xs[1..], f);
      var rest := FilterMap(xs[1..], f);
      var r := FilterMap(xs, f);
      var k := if f(xs[0]).Some? then 1 else 0;
      assert r[k..] == rest;
      forall i | 0 <= i < |r|
        ensures exists j :: 0 <= j < |xs| && f(xs[j]) == Some(r[i])
      {
        if i < k {
          assert f(xs[0]) == Some(r[i]);
        } else {
          assert r[i] == rest[i - k];
          var j :| 0 <= j < |xs[1..]| && f(xs[1..][j]) == Some(rest[i - k]);
          assert f(xs[j + 1]) == Some(r[i]);
        }
      }
      assert forall i :: 0 <= i < |r| ==> exists j :: 0 <= j < |xs| && f(xs[j]) == Some(r[i]);
    } else {
      assert FilterMap(xs, f) == [];
    }
  }

  /** Rendering two texts joined by a newline renders each in turn. */
  lemma RenderAtNewline(a: string, b: string)
    ensures Render(a + "\n" + b) == Render(a) + Render(b)
  {
    SplitAtNewline(a, b);
    FilterMapAppend(Split(a), Split(b), Classify);
  }

  /** A text made only of whitespace renders as nothing. */
  lemma BlankTextRendersNothing(analysis: string)
    requires AllSpace(analysis)
    ensures Render(analysis) == []
  {
    var lines := Split(analysis);
    SplitJoin(analysis);
    forall j | 0 <= j < |lines| ensures Classify(lines[j]).None? {
      LineOfBlankText(lines, j);
      ClassifyBlank(lines[j]);
    }
    FilterMapNone(lines, Classify);
  }

  /** A line of a blank text is blank. */
  lemma {:induction false} LineOfBlankText(lines: seq<string>, j: nat)
    requires j < |lines| && AllSpace(Join(lines))
    ensures AllSpace(lines[j])
  {
    if j > 0 {
      assert Join(lines) == lines[0] + "\n" + Join(lines[1..]);
      var t := Join(lines[1..]);
      forall i | 0 <= i < |t| ensures IsSpace(t[i]) {
        assert t[i] == Join(lines)[|lines[0]| + 1 + i];
      }
      LineOfBlankText(lines[1..], j - 1);
    } else if |lines| > 1 {
      assert Join(lines) == lines[0] + "\n" + Join(lines[1..]);
      forall i | 0 <= i < |lines[0]| ensures IsSpace(lines[0][i]) {
        assert lines[0][i] == Join(lines)[i];
      }
    }
  }
}
