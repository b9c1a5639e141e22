/** The base Markdown validator: a line-by-line syntax check, a frontmatter and annotation
    check, a scan for phrases that suggest commentary instead of extracted text, and a
    100-point quality score. */
module Validator {
  import opened Wrappers
  import opened Text
  import opened Markers
  import opened Phrases

  /** One entry of `issues` or `warnings`: its "type", its 1-based "line" where it carries
      one, and the link text or field name it names (empty otherwise). The wording of the
      "message" is not modelled. */
  datatype Finding = Finding(kind: string, line: Option<nat>, subject: string)

  // ---------------------------------------------------------------------------
  // Syntax check

  /** A line holding '|' that does not start with '|' (once stripped) and holds at least
      two of them, yet splits into fewer than three parts. */
  function TableIssues(line: string, n: nat): seq<Finding> {
    if '|' in line && !StartsWith(Strip(line), "|") && CountChar(line, '|') >= 2
       && |Split(line, '|')| < 3
    then [Finding("malformed_table", Some(n), "")]
    else []
  }

  /** One `empty_link` issue per link, in order, whose target is empty. */
  function LinkIssues(links: seq<Link>, n: nat): seq<Finding> {
    if links == [] then []
    else
      var last := links[|links| - 1];
      LinkIssues(links[..|links| - 1], n)
      + (if last.url == [] then [Finding("empty_link", Some(n), last.text)] else [])
  }

  /** The issues line n adds. */
  function LineIssues(line: string, n: nat): seq<Finding> {
    TableIssues(line, n) + LinkIssues(Links(line), n)
  }

  /** The warning line n adds when its '[' and ']' counts differ. */
  function LineWarnings(line: string, n: nat): seq<Finding> {
    if CountChar(line, '[') != CountChar(line, ']')
    then [Finding("unmatched_brackets", Some(n), "")]
    else []
  }

  /** The issues of lines 1..|ls|, line by line. */
  function IssuesOfLines(ls: seq<string>): seq<Finding> {
    if ls == [] then []
    else IssuesOfLines(ls[..|ls| - 1]) + LineIssues(ls[|ls| - 1], |ls|)
  }

  function WarningsOfLines(ls: seq<string>): seq<Finding> {
    if ls == [] then []
    else WarningsOfLines(ls[..|ls| - 1]) + LineWarnings(ls[|ls| - 1], |ls|)
  }

  const Fence: string := "```"

  /** The issues `validate_syntax` leaves in `issues`. */
  function SyntaxIssues(text: string): seq<Finding> {
    IssuesOfLines(Split(text, '\n'))
    + (if CountSub(text, Fence) % 2 != 0 then [Finding("unclosed_code_block", None, "")] else [])
  }

  /** The warnings `validate_syntax` appends to `warnings`. */
  function SyntaxWarnings(text: string): seq<Finding> {
    WarningsOfLines(Split(text, '\n'))
  }

  lemma IssuesOfLinesSnoc(ls: seq<string>, i: nat)
    requires i < |ls|
    ensures IssuesOfLines(ls[..i + 1]) == IssuesOfLines(ls[..i]) + LineIssues(ls[i], i + 1)
    ensures WarningsOfLines(ls[..i + 1]) == WarningsOfLines(ls[..i]) + LineWarnings(ls[i], i + 1)
  {
    assert ls[..i + 1][..i] == ls[..i];
  }

  lemma LinkIssuesSnoc(links: seq<Link>, j: nat, n: nat)
    requires j < |links|
    ensures LinkIssues(links[..j + 1], n) == LinkIssues(links[..j], n)
      + (if links[j].url == [] then [Finding("empty_link", Some(n), links[j].text)] else [])
  {
    assert links[..j + 1][..j] == links[..j];
  }

  /** A line with at least two pipes always splits into at least three parts, so the
      `malformed_table` branch never fires: every line issue is an `empty_link`. */
  lemma {:induction false} LineIssuesAreEmptyLinks(ls: seq<string>)
    ensures forall f :: f in IssuesOfLines(ls) ==> f.kind == "empty_link"
  {
    if ls != [] {
      LineIssuesAreEmptyLinks(ls[..|ls| - 1]);
      var l := ls[|ls| - 1];
      assert TableIssues(l, |ls|) == [];
      LinkIssuesAreEmptyLinks(Links(l), |ls|);
    }
  }

  lemma {:induction false} LinkIssuesAreEmptyLinks(links: seq<Link>, n: nat)
    ensures forall f :: f in LinkIssues(links, n) ==> f.kind == "empty_link"
  {
    if links != [] {
      LinkIssuesAreEmptyLinks(links[..|links| - 1], n);
    }
  }

  /** An `empty_link` issue names exactly the links of line n whose target is empty. */
  lemma {:induction false} LinkIssuesIff(links: seq<Link>, n: nat, m: Option<nat>, t: string)
    ensures Finding("empty_link", m, t) in LinkIssues(links, n) <==> m == Some(n) && Link(t, []) in links
  {
    if links != [] {
      var init := links[..|links| - 1];
      LinkIssuesIff(init, n, m, t);
      assert links == init + [links[|links| - 1]];
    }
  }

  /** The issues of lines 1..|ls| are those of the lines before the last plus the empty
      links of the last. */
  lemma IssuesOfLinesLast(ls: seq<string>, f: Finding)
    requires ls != []
    ensures f in IssuesOfLines(ls)
      <==> f in IssuesOfLines(ls[..|ls| - 1]) || f in LinkIssues(Links(ls[|ls| - 1]), |ls|)
  {
    assert TableIssues(ls[|ls| - 1], |ls|) == [];
  }

  lemma {:induction false} IssuesOfLinesIff(ls: seq<string>, n: nat, t: string)
    ensures Finding("empty_link", Some(n), t) in IssuesOfLines(ls)
      <==> 1 <= n <= |ls| && Link(t, []) in Links(ls[n - 1])
  {
    if ls != [] {
      var init := ls[..|ls| - 1];
      IssuesOfLinesLast(ls, Finding("empty_link", Some(n), t));
      IssuesOfLinesIff(init, n, t);
      LinkIssuesIff(Links(ls[|ls| - 1]), |ls|, Some(n), t);
      if 1 <= n < |ls| {
        assert init[n - 1] == ls[n - 1];
      }
    }
  }

  /** `validate_syntax` reports an empty link at line n exactly when line n holds a link
      `[t]()` whose target is empty. */
  lemma EmptyLinkIff(text: string, n: nat, t: string)
    ensures Finding("empty_link", Some(n), t) in SyntaxIssues(text)
      <==> 1 <= n <= |Split(text, '\n')| && Link(t, []) in Links(Split(text, '\n')[n - 1])
  {
    IssuesOfLinesIff(Split(text, '\n'), n, t);
  }

  /** An `unclosed_code_block` issue is raised exactly when "```" occurs an odd number of
      times. */
  lemma UnclosedFenceIff(text: string)
    ensures Finding("unclosed_code_block", None, "") in SyntaxIssues(text)
      <==> CountSub(text, Fence) % 2 == 1
  {
    LineIssuesAreEmptyLinks(Split(text, '\n'));
  }

  /** An `unmatched_brackets` warning names exactly the lines whose '[' and ']' counts
      differ. */
  lemma {:induction false} WarningsOfLinesIff(ls: seq<string>, n: nat)
    ensures Finding("unmatched_brackets", Some(n), "") in WarningsOfLines(ls)
      <==> 1 <= n <= |ls| && CountChar(ls[n - 1], '[') != CountChar(ls[n - 1], ']')
  {
    if ls != [] {
      var init := ls[..|ls| - 1];
      WarningsOfLinesIff(init, n);
      if 1 <= n < |ls| {
        assert init[n - 1] == ls[n - 1];
      }
    }
  }

  // ---------------------------------------------------------------------------
  // Frontmatter and annotations

  const Dashes: string := "---"
  const RequiredFields: seq<string> := ["document:", "source_file:", "document_id:"]

  /** The stripped text starts with "---". */
  predicate OpensFrontmatter(text: string) {
    StartsWith(Strip(text), Dashes)
  }

  /** What `validate_schema_compliance` returns: an opening "---" and some "---" at index
      3 or later (which need not be on a line of its own). */
  predicate SchemaCompliant(text: string) {
    OpensFrontmatter(text) && Find(text, Dashes, 3) != -1
  }

  /** `markdown_text[3:frontmatter_end]` */
  function Frontmatter(text: string): string
    requires SchemaCompliant(text)
  {
    text[3..Find(text, Dashes, 3)]
  }

  /** One `missing_metadata_field` warning per field, in order, absent from fm. */
  function FieldWarnings(fm: string, fields: seq<string>): seq<Finding> {
    if fields == [] then []
    else
      var f := fields[|fields| - 1];
      FieldWarnings(fm, fields[..|fields| - 1])
      + (if Contains(fm, f) then [] else [Finding("missing_metadata_field", None, f)])
  }

  /** `re.search(r'<!-- role:\w+ -->', text)` finds something. */
  predicate HasRoleAnnotation(text: string) {
    Roles(text, BareTail) != []
  }

  function SchemaIssues(text: string): seq<Finding> {
    if OpensFrontmatter(text) && Find(text, Dashes, 3) == -1
    then [Finding("malformed_frontmatter", None, "")]
    else []
  }

  function SchemaWarnings(text: string): seq<Finding> {
    (if !OpensFrontmatter(text) then [Finding("missing_frontmatter", None, "")]
     else if Find(text, Dashes, 3) == -1 then []
     else FieldWarnings(Frontmatter(text), RequiredFields))
    + (if HasRoleAnnotation(text) then [] else [Finding("missing_semantic_annotations", None, "")])
  }

  lemma {:induction false} FieldWarningsIff(fm: string, fields: seq<string>, f: string)
    ensures Finding("missing_metadata_field", None, f) in FieldWarnings(fm, fields)
      <==> f in fields && !Contains(fm, f)
    ensures forall w :: w in FieldWarnings(fm, fields) ==> w.kind == "missing_metadata_field"
  {
    if fields != [] {
      var init := fields[..|fields| - 1];
      FieldWarningsIff(fm, init, f);
      assert fields == init + [fields[|fields| - 1]];
    }
  }

  /** A required field is reported missing exactly when the frontmatter is well formed and
      the field does not occur between the opening and the first later "---". */
  lemma MissingFieldIff(text: string, f: string)
    ensures Finding("missing_metadata_field", None, f) in SchemaWarnings(text)
      <==> SchemaCompliant(text) && f in RequiredFields && !Contains(Frontmatter(text), f)
  {
    if SchemaCompliant(text) {
      FieldWarningsIff(Frontmatter(text), RequiredFields, f);
    }
  }

  /** The annotation warning is raised exactly when no bare role annotation occurs. */
  lemma MissingAnnotationsIff(text: string)
    ensures Finding("missing_semantic_annotations", None, "") in SchemaWarnings(text)
      <==> forall i :: 0 <= i < |text| ==> !RoleAt(text, i, BareTail)
  {
    RolesEmptyIff(text, 0, BareTail);
    if SchemaCompliant(text) {
      FieldWarningsIff(Frontmatter(text), RequiredFields, "");
    }
  }

  // ---------------------------------------------------------------------------
  // Hallucination phrases

  /** A "possible_hallucination" entry: line number, stripped line, pattern source. */
  datatype HallucinationMarker = HallucinationMarker(line: nat, text: string, pattern: string)

  const HallucinationPatterns: seq<Pattern> := [
    Pattern("based on (the|this) (image|document|page)",
      ["based on the image", "based on the document", "based on the page",
       "based on this image", "based on this document", "based on this page"]),
    Pattern("as (shown|seen|depicted) in (the|this)",
      ["as shown in the", "as shown in this", "as seen in the", "as seen in this",
       "as depicted in the", "as depicted in this"]),
    Pattern("it appears (that|to be)", ["it appears that", "it appears to be"]),
    Pattern("this (seems|looks like)", ["this seems", "this looks like"]),
    Pattern("I (can see|notice|observe)", ["i can see", "i notice", "i observe"]),
    Pattern("the (image|document) (shows|contains|displays)",
      ["the image shows", "the image contains", "the image displays",
       "the document shows", "the document contains", "the document displays"]),
    Pattern("from what I can (see|tell)", ["from what i can see", "from what i can tell"])
  ]

  /** The markers one line yields: one per pattern, in order, that it matches. */
  function LineMarkers(line: string, n: nat, pats: seq<Pattern>): seq<HallucinationMarker> {
    if pats == [] then []
    else
      var p := pats[|pats| - 1];
      LineMarkers(line, n, pats[..|pats| - 1])
      + (if Searches(line, p) then [HallucinationMarker(n, Strip(line), p.source)] else [])
  }

  function MarkersOfLines(ls: seq<string>, pats: seq<Pattern>): seq<HallucinationMarker> {
    if ls == [] then []
    else MarkersOfLines(ls[..|ls| - 1], pats) + LineMarkers(ls[|ls| - 1], |ls|, pats)
  }

  function HallucinationMarkers(text: string): seq<HallucinationMarker> {
    MarkersOfLines(Split(text, '\n'), HallucinationPatterns)
  }

  lemma {:induction false} LineMarkersSound(line: string, n: nat, pats: seq<Pattern>)
    ensures forall m :: m in LineMarkers(line, n, pats) ==>
      m.line == n && m.text == Strip(line)
      && exists k :: 0 <= k < |pats| && pats[k].source == m.pattern && Searches(line, pats[k])
  {
    if pats != [] {
      var init := pats[..|pats| - 1];
      LineMarkersSound(line, n, init);
      forall m | m in LineMarkers(line, n, init)
        ensures exists k :: 0 <= k < |pats| && pats[k].source == m.pattern && Searches(line, pats[k])
      {
        var k :| 0 <= k < |init| && init[k].source == m.pattern && Searches(line, init[k]);
        assert pats[k] == init[k];
      }
    }
  }

  lemma {:induction false} LineMarkersComplete(line: string, n: nat, pats: seq<Pattern>, k: nat)
    requires k < |pats| && Searches(line, pats[k])
    ensures HallucinationMarker(n, Strip(line), pats[k].source) in LineMarkers(line, n, pats)
  {
    var init := pats[..|pats| - 1];
    if k < |init| {
      assert init[k] == pats[k];
      LineMarkersComplete(line, n, init, k);
    }
  }

  /** Every marker names a line in range, that line stripped, and a pattern the line
      matches. */
  lemma {:induction false} MarkersOfLinesSound(ls: seq<string>, pats: seq<Pattern>)
    ensures forall m :: m in MarkersOfLines(ls, pats) ==>
      1 <= m.line <= |ls| && m.text == Strip(ls[m.line - 1])
      && exists k :: 0 <= k < |pats| && pats[k].source == m.pattern && Searches(ls[m.line - 1], pats[k])
  {
    if ls != [] {
      var init := ls[..|ls| - 1];
      MarkersOfLinesSound(init, pats);
      LineMarkersSound(ls[|ls| - 1], |ls|, pats);
      forall m | m in MarkersOfLines(init, pats)
        ensures ls[m.line - 1] == init[m.line - 1]
      {
      }
    }
  }

  /** Every (line, matching pattern) pair yields a marker; comment lines are not exempt. */
  lemma {:induction false} MarkersOfLinesComplete(ls: seq<string>, pats: seq<Pattern>, n: nat, k: nat)
    requires 1 <= n <= |ls| && k < |pats| && Searches(ls[n - 1], pats[k])
    ensures HallucinationMarker(n, Strip(ls[n - 1]), pats[k].source) in MarkersOfLines(ls, pats)
  {
    var init := ls[..|ls| - 1];
    if n < |ls| {
      assert init[n - 1] == ls[n - 1];
      MarkersOfLinesComplete(init, pats, n, k);
    } else {
      LineMarkersComplete(ls[n - 1], n, pats, k);
    }
  }

  // ---------------------------------------------------------------------------
  // Quality score

  /** `^` in MULTILINE mode: the start of the text or just after a line break. */
  predicate LineStart(s: string, p: nat) {
    p == 0 || (p <= |s| && s[p - 1] == '\n')
  }

  /** Length of the run of '#' starting at index i. */
  function HashRun(s: string, i: nat): (n: nat)
    requires i <= |s|
    ensures i + n <= |s|
    decreases |s| - i
  {
    if i < |s| && s[i] == '#' then 1 + HashRun(s, i + 1) else 0
  }

  /** `^#{1,6}\s` matches at p: a line of one to six '#' then whitespace. A longer run does
      not match, since the character after any six of its '#' is another '#'. */
  predicate HeadingAt(s: string, p: nat) {
    p < |s| && LineStart(s, p) && 1 <= HashRun(s, p) <= 6
    && p + HashRun(s, p) < |s| && IsSpace(s[p + HashRun(s, p)])
  }

  /** `^[\-\*\+]\s` matches at p. */
  predicate ListItemAt(s: string, p: nat) {
    p + 1 < |s| && LineStart(s, p) && s[p] in "-*+" && IsSpace(s[p + 1])
  }

  predicate HasHeading(s: string) {
    exists p :: 0 <= p < |s| && HeadingAt(s, p)
  }

  predicate HasListItem(s: string) {
    exists p :: 0 <= p < |s| && ListItemAt(s, p)
  }

  /** The content-richness component: headings 5, tables 7, lists 4, emphasis 4. */
  function RichnessPoints(s: string): (r: nat)
    ensures r <= 20
  {
    (if HasHeading(s) then 5 else 0)
    + (if '|' in s && Contains(s, Dashes) then 7 else 0)
    + (if HasListItem(s) then 4 else 0)
    + (if Contains(s, "**") || '*' in s then 4 else 0)
  }

  /** The extraction-method table, in the order it is searched. */
  const MethodTable: seq<(string, nat)> := [
    ("OpenRouter", 20), ("Qwen", 18), ("Gemini", 17), ("pymupdf4llm", 15),
    ("GMFT", 14), ("RapidOCR", 12), ("Fallback", 8)
  ]

  const DefaultMethodPoints: nat := 10

  /** `validate_markdown`'s default method name: none. */
  const UnnamedMethod: string := ""

  /** Without a method name no key of the table occurs, and the method component is the
      default 10. */
  lemma UnnamedMethodPoints()
    ensures MethodPoints(UnnamedMethod) == DefaultMethodPoints
  {
    forall x | 0 <= x < |MethodTable|
      ensures !Contains(UnnamedMethod, MethodTable[x].0)
    {
      assert MethodTable[x].0 != [];
    }
    MethodPointsFirstKey(UnnamedMethod, MethodTable, 0, |MethodTable|);
  }

  /** The points of the first entry at index i or later whose key occurs in the method name,
      else the default. */
  function MethodPointsFrom(m: string, table: seq<(string, nat)>, i: nat): nat
    decreases |table| - i
  {
    if i >= |table| then DefaultMethodPoints
    else if Contains(m, table[i].0) then table[i].1
    else MethodPointsFrom(m, table, i + 1)
  }

  function MethodPoints(m: string): nat {
    MethodPointsFrom(m, MethodTable, 0)
  }

  /** The first key (in table order) that the method name contains decides; no key gives
      the default. */
  lemma {:induction false} MethodPointsFirstKey(m: string, table: seq<(string, nat)>, i: nat, j: nat)
    requires i <= j <= |table|
    requires forall x :: i <= x < j ==> !Contains(m, table[x].0)
    ensures MethodPointsFrom(m, table, i)
      == if j == |table| then DefaultMethodPoints
         else if Contains(m, table[j].0) then table[j].1
         else MethodPointsFrom(m, table, j + 1)
    decreases j - i
  {
    if i < j {
      MethodPointsFirstKey(m, table, i + 1, j);
    }
  }

  /** The method component stays between the lowest and the highest points in the table. */
  lemma {:induction false} MethodPointsRange(m: string, table: seq<(string, nat)>, i: nat, lo: nat, hi: nat)
    requires lo <= DefaultMethodPoints <= hi
    requires forall x :: 0 <= x < |table| ==> lo <= table[x].1 <= hi
    ensures lo <= MethodPointsFrom(m, table, i) <= hi
    decreases |table| - i
  {
    if i < |table| && !Contains(m, table[i].0) {
      MethodPointsRange(m, table, i + 1, lo, hi);
    }
  }

  /** Any "OpenRouter" method name scores 20, the most the table gives; a name whose only
      key is "Fallback" scores 8. */
  lemma OpenRouterAboveFallback(m1: string, m2: string)
    requires Contains(m1, "OpenRouter")
    requires Contains(m2, "Fallback")
    requires forall x :: 0 <= x < 6 ==> !Contains(m2, MethodTable[x].0)
    ensures MethodPoints(m1) == 20 && MethodPoints(m2) == 8
    ensures MethodPoints(m1) > MethodPoints(m2)
  {
    MethodPointsFirstKey(m2, MethodTable, 0, 6);
  }

  /** 30 points for a valid syntax, otherwise 5 fewer per issue, never below 0. */
  function SyntaxPoints(valid: bool, issueCount: nat): (r: nat)
    ensures r <= 30
  {
    if valid then 30 else if 30 - 5 * issueCount > 0 then 30 - 5 * issueCount else 0
  }

  /** 20 points for a compliant schema, otherwise 5 fewer per "missing…" warning. */
  function SchemaPoints(valid: bool, missingCount: nat): (r: nat)
    ensures r <= 20
  {
    if valid then 20 else if 20 - 5 * missingCount > 0 then 20 - 5 * missingCount else 0
  }

  /** `ocr_confidence * 10`, or 5 when there is none. */
  function ConfidencePoints(confidence: Option<real>): real {
    if confidence.Some? then confidence.value * 10.0 else 5.0
  }

  /** The kind starts with "missing". */
  predicate IsMissingKind(kind: string) {
    StartsWith(kind, "missing")
  }

  function MissingCount(ws: seq<Finding>): (n: nat)
    ensures n <= |ws|
  {
    if ws == [] then 0
    else MissingCount(ws[..|ws| - 1]) + (if IsMissingKind(ws[|ws| - 1].kind) then 1 else 0)
  }

  /** `min(1.0, score / 100.0)` for the five components. */
  function QualityScore(points: nat, confidence: Option<real>): real {
    var total := (points as real + ConfidencePoints(confidence)) / 100.0;
    if total < 1.0 then total else 1.0
  }

  /** With the four integer components at most 90 and a confidence in [0, 1] (or none), the
      score lies in [0, 1]. */
  lemma QualityScoreInRange(points: nat, confidence: Option<real>)
    requires points <= 90
    requires confidence.Some? ==> 0.0 <= confidence.value <= 1.0
    ensures 0.0 <= QualityScore(points, confidence) <= 1.0
  {
  }

  // ---------------------------------------------------------------------------
  // The report

  datatype Metrics = Metrics(wordCount: nat, lineCount: nat, avgConfidence: Option<real>)

  datatype Report = Report(
    qualityScore: real,
    syntaxValid: bool,
    schemaCompliant: bool,
    issues: seq<Finding>,
    warnings: seq<Finding>,
    hallucinationMarkers: seq<HallucinationMarker>,
    metrics: Metrics)

  /** `ocr_confidence if ocr_confidence else None`: a zero confidence is dropped too. */
  function AvgConfidence(confidence: Option<real>): Option<real> {
    if confidence.Some? && confidence.value != 0.0 then confidence else None
  }

  /** The integer part of the quality score: syntax, schema, richness and method points. */
  function ScorePoints(text: string, extractionMethod: string, missingCount: nat): (p: nat)
    ensures p <= 90
  {
    MethodPointsRange(extractionMethod, MethodTable, 0, 8, 20);
    var syntax := SyntaxIssues(text);
    SyntaxPoints(syntax == [], |syntax|) + SchemaPoints(SchemaCompliant(text), missingCount)
    + RichnessPoints(text) + MethodPoints(extractionMethod)
  }

  /** The method-table loop: the points of the first key the method name contains, in
      table order, else the default. */
  method MethodScore(extractionMethod: string) returns (p: nat)
    ensures p == MethodPoints(extractionMethod)
    ensures 8 <= p <= 20
  {
    var table := MethodTable;
    var x := 0;
    p := DefaultMethodPoints;
    while x < |table|
      invariant 0 <= x <= |table|
      invariant p == DefaultMethodPoints
      invariant forall y :: 0 <= y < x ==> !Contains(extractionMethod, table[y].0)
    {
      if Contains(extractionMethod, table[x].0) {
        p := table[x].1;
        break;
      }
      x := x + 1;
    }
    MethodPointsFirstKey(extractionMethod, table, 0, x);
    MethodPointsRange(extractionMethod, table, 0, 8, 20);
  }

  lemma ScorePointsSum(text: string, extractionMethod: string, missingCount: nat,
                       syntaxPoints: nat, schemaPoints: nat, methodPoints: nat)
    requires syntaxPoints == SyntaxPoints(SyntaxIssues(text) == [], |SyntaxIssues(text)|)
    requires schemaPoints == SchemaPoints(SchemaCompliant(text), missingCount)
    requires methodPoints == MethodPoints(extractionMethod)
    ensures ScorePoints(text, extractionMethod, missingCount)
      == syntaxPoints + schemaPoints + RichnessPoints(text) + methodPoints
    ensures forall confidence ::
      QualityScore(ScorePoints(text, extractionMethod, missingCount), confidence)
        == QualityScore(syntaxPoints + schemaPoints + RichnessPoints(text) + methodPoints, confidence)
  {
  }

  /** The arithmetic of `calculate_quality_score`, given what the two checks found: the
      five components added up and capped at 1. */
  method AddUpScore(text: string, extractionMethod: string, confidence: Option<real>,
                    syntaxValid: bool, issueCount: nat, schemaValid: bool, missingCount: nat)
    returns (score: real)
    requires syntaxValid == (SyntaxIssues(text) == []) && issueCount == |SyntaxIssues(text)|
    requires schemaValid == SchemaCompliant(text)
    ensures score == QualityScore(ScorePoints(text, extractionMethod, missingCount), confidence)
  {
    var syntaxPoints := SyntaxPoints(syntaxValid, issueCount);
    var schemaPoints := SchemaPoints(schemaValid, missingCount);
    var methodPoints := MethodScore(extractionMethod);
    var points := syntaxPoints + schemaPoints + RichnessPoints(text) + methodPoints;
    ScorePointsSum(text, extractionMethod, missingCount, syntaxPoints, schemaPoints, methodPoints);
    score := QualityScore(points, confidence);
  }

  class MarkdownValidator {
    var issues: seq<Finding>
    var warnings: seq<Finding>

    constructor()
      ensures issues == [] && warnings == []
    {
      issues := [];
      warnings := [];
    }

    /** Resets `issues`, then checks each line and the fence count. Warnings accumulate. */
    method ValidateSyntax(text: string) returns (valid: bool)
      modifies this
      ensures issues == SyntaxIssues(text)
      ensures warnings == old(warnings) + SyntaxWarnings(text)
      ensures valid <==> issues == []
    {
      issues := [];
      valid := true;
      var lines := Split(text, '\n');
      var i := 0;
      while i < |lines|
        invariant 0 <= i <= |lines|
        invariant issues == IssuesOfLines(lines[..i])
        invariant warnings == old(warnings) + WarningsOfLines(lines[..i])
        invariant valid <==> issues == []
      {
        valid := CheckLine(lines[i], i + 1, valid);
        IssuesOfLinesSnoc(lines, i);
        AppendAssoc(old(warnings), WarningsOfLines(lines[..i]), LineWarnings(lines[i], i + 1));
        i := i + 1;
      }
      assert lines[..i] == lines;
      if CountSub(text, Fence) % 2 != 0 {
        issues := issues + [Finding("unclosed_code_block", None, "")];
        valid := false;
      }
    }

    /** The body of the line loop of `validate_syntax`, for line number n. */
    method CheckLine(line: string, n: nat, validBefore: bool) returns (valid: bool)
      modifies this
      requires validBefore <==> issues == []
      ensures issues == old(issues) + LineIssues(line, n)
      ensures warnings == old(warnings) + LineWarnings(line, n)
      ensures valid <==> issues == []
    {
      valid := validBefore;
      if '|' in line && !StartsWith(Strip(line), "|") {
        if CountChar(line, '|') >= 2 {
          var parts := Split(line, '|');
          if |parts| < 3 {
            // Split yields one more part than there are pipes, so this branch, which would
            // report a malformed table, is never taken.
            assert false;
          }
        }
      }
      ghost var acc := old(issues) + TableIssues(line, n);
      assert issues == acc;
      if CountChar(line, '[') != CountChar(line, ']') {
        warnings := warnings + [Finding("unmatched_brackets", Some(n), "")];
      }
      var links := Links(line);
      var j := 0;
      while j < |links|
        invariant 0 <= j <= |links|
        invariant issues == acc + LinkIssues(links[..j], n)
        invariant warnings == old(warnings) + LineWarnings(line, n)
        invariant valid <==> issues == []
      {
        LinkIssuesSnoc(links, j, n);
        if links[j].url == [] {
          AppendAssoc(acc, LinkIssues(links[..j], n), [Finding("empty_link", Some(n), links[j].text)]);
          issues := issues + [Finding("empty_link", Some(n), links[j].text)];
          valid := false;
        } else {
          assert LinkIssues(links[..j + 1], n) == LinkIssues(links[..j], n) + [];
        }
        j := j + 1;
      }
      assert links[..j] == links;
      AppendAssoc(old(issues), TableIssues(line, n), LinkIssues(links, n));
    }

    /** Checks the frontmatter and the presence of a role annotation. Only a frontmatter
        that opens but never closes adds an issue; the rest are warnings. */
    method ValidateSchemaCompliance(text: string) returns (compliant: bool)
      modifies this
      ensures compliant == SchemaCompliant(text)
      ensures issues == old(issues) + SchemaIssues(text)
      ensures warnings == old(warnings) + SchemaWarnings(text)
    {
      compliant := true;
      ghost var found: seq<Finding>;
      if !StartsWith(Strip(text), Dashes) {
        warnings := warnings + [Finding("missing_frontmatter", None, "")];
        compliant := false;
        found := [Finding("missing_frontmatter", None, "")];
      } else {
        var frontmatterEnd := Find(text, Dashes, 3);
        if frontmatterEnd == -1 {
          issues := issues + [Finding("malformed_frontmatter", None, "")];
          compliant := false;
          found := [];
        } else {
          var frontmatter := text[3..frontmatterEnd];
          CheckFields(frontmatter);
          found := FieldWarnings(frontmatter, RequiredFields);
        }
      }
      assert warnings == old(warnings) + found;
      if Roles(text, BareTail) == [] {
        AppendAssoc(old(warnings), found, [Finding("missing_semantic_annotations", None, "")]);
        warnings := warnings + [Finding("missing_semantic_annotations", None, "")];
      } else {
        assert found + [] == found;
      }
    }

    /** The field loop of `validate_schema_compliance`: one warning per required field
        absent from the frontmatter. */
    method CheckFields(frontmatter: string)
      modifies this
      ensures issues == old(issues)
      ensures warnings == old(warnings) + FieldWarnings(frontmatter, RequiredFields)
    {
      var k := 0;
      while k < |RequiredFields|
        invariant 0 <= k <= |RequiredFields|
        invariant issues == old(issues)
        invariant warnings == old(warnings) + FieldWarnings(frontmatter, RequiredFields[..k])
      {
        var field := RequiredFields[k];
        assert RequiredFields[..k + 1][..k] == RequiredFields[..k];
        if !Contains(frontmatter, field) {
          AppendAssoc(old(warnings), FieldWarnings(frontmatter, RequiredFields[..k]),
            [Finding("missing_metadata_field", None, field)]);
          warnings := warnings + [Finding("missing_metadata_field", None, field)];
        }
        k := k + 1;
      }
      assert RequiredFields[..k] == RequiredFields;
    }

    /** One marker per (line, pattern) pair where the pattern matches the line. */
    method DetectHallucinationMarkers(text: string) returns (markers: seq<HallucinationMarker>)
      ensures markers == HallucinationMarkers(text)
    {
      var lines := Split(text, '\n');
      markers := [];
      var i := 0;
      while i < |lines|
        invariant 0 <= i <= |lines|
        invariant markers == MarkersOfLines(lines[..i], HallucinationPatterns)
      {
        var found := ScanLine(lines[i], i + 1);
        assert lines[..i + 1][..i] == lines[..i];
        markers := markers + found;
        i := i + 1;
      }
      assert lines[..i] == lines;
    }

    /** Re-runs the syntax and schema checks (so their warnings are appended again), then
        adds up the five components. */
    method CalculateQualityScore(text: string, extractionMethod: string, confidence: Option<real>)
      returns (score: real)
      modifies this
      ensures issues == SyntaxIssues(text) + SchemaIssues(text)
      ensures warnings == old(warnings) + CheckWarnings(text)
      ensures score == QualityScore(ScorePoints(text, extractionMethod, MissingCount(warnings)), confidence)
    {
      var syntaxValid := ValidateSyntax(text);
      var issueCount := |issues|;
      var schemaValid := ValidateSchemaCompliance(text);
      AppendAssoc(old(warnings), SyntaxWarnings(text), SchemaWarnings(text));
      score := AddUpScore(text, extractionMethod, confidence, syntaxValid, issueCount, schemaValid,
        MissingCount(warnings));
    }

    /** Runs the syntax, schema and phrase checks, then the quality score, and reports. The
        report's lists are this validator's own. */
    method GetValidationReport(text: string, extractionMethod: string, confidence: Option<real>)
      returns (r: Report)
      modifies this
      ensures r == ReportOf(text, extractionMethod, confidence, old(warnings))
      ensures issues == r.issues && warnings == r.warnings
    {
      var syntaxValid := ValidateSyntax(text);
      var schemaCompliant := ValidateSchemaCompliance(text);
      AppendAssoc(old(warnings), SyntaxWarnings(text), SchemaWarnings(text));
      var hallucinations := DetectHallucinationMarkers(text);
      var qualityScore := CalculateQualityScore(text, extractionMethod, confidence);
      var wordCount := |Words(text)|;
      var lineCount := |Split(text, '\n')|;
      r := Report(qualityScore, syntaxValid, schemaCompliant, issues, warnings, hallucinations,
        Metrics(wordCount, lineCount, if confidence.Some? && confidence.value != 0.0 then confidence else None));
    }
  }

  /** The inner loop of `detect_hallucination_markers`: the markers line n yields. */
  method ScanLine(line: string, n: nat) returns (found: seq<HallucinationMarker>)
    ensures found == LineMarkers(line, n, HallucinationPatterns)
  {
    var patterns := HallucinationPatterns;
    found := [];
    var j := 0;
    while j < |patterns|
      invariant 0 <= j <= |patterns|
      invariant found == LineMarkers(line, n, patterns[..j])
    {
      assert patterns[..j + 1][..j] == patterns[..j];
      if Searches(line, patterns[j]) {
        found := found + [HallucinationMarker(n, Strip(line), patterns[j].source)];
      }
      j := j + 1;
    }
    assert patterns[..j] == patterns;
  }

  /** The "type" of each entry of a list of findings. */
  function Kinds(fs: seq<Finding>): seq<string>
  {
    seq(|fs|, i requires 0 <= i < |fs| => fs[i].kind)
  }

  /** `max(0.0, x)`, as the engine validators clamp their adjusted scores. */
  function Max0(x: real): real {
    if x > 0.0 then x else 0.0
  }

  /** The warnings one syntax check and one schema check append. */
  function CheckWarnings(text: string): seq<Finding> {
    SyntaxWarnings(text) + SchemaWarnings(text)
  }

  /** The warnings a validator whose warnings were `before` reports: both checks run twice. */
  function ReportWarnings(text: string, before: seq<Finding>): seq<Finding> {
    before + CheckWarnings(text) + CheckWarnings(text)
  }

  /** The report of `get_validation_report` on a validator whose warnings were `before`:
      the syntax and schema checks run twice (once directly, once inside the score), so
      their warnings are appended twice, and the score counts the "missing…" warnings of
      the whole list. */
  function ReportOf(text: string, extractionMethod: string, confidence: Option<real>,
                    before: seq<Finding>): Report
  {
    var warnings := ReportWarnings(text, before);
    Report(
      QualityScore(ScorePoints(text, extractionMethod, MissingCount(warnings)), confidence),
      SyntaxIssues(text) == [],
      SchemaCompliant(text),
      SyntaxIssues(text) + SchemaIssues(text),
      warnings,
      HallucinationMarkers(text),
      Metrics(|Words(text)|, |Split(text, '\n')|, AvgConfidence(confidence)))
  }

  /** `validate_markdown`: the report of a fresh validator. */
  method ValidateMarkdown(text: string, extractionMethod: string, confidence: Option<real>)
    returns (r: Report)
    ensures r == ReportOf(text, extractionMethod, confidence, [])
  {
    var v := new MarkdownValidator();
    r := v.GetValidationReport(text, extractionMethod, confidence);
  }

  /** The report's score lies in [0, 1] whenever the confidence does (or is absent). */
  lemma ReportScoreInRange(text: string, extractionMethod: string, confidence: Option<real>,
                           before: seq<Finding>)
    requires confidence.Some? ==> 0.0 <= confidence.value <= 1.0
    ensures 0.0 <= ReportOf(text, extractionMethod, confidence, before).qualityScore <= 1.0
  {
    QualityScoreInRange(ScorePoints(text, extractionMethod, MissingCount(ReportWarnings(text, before))), confidence);
  }

  /** `validate_markdown(text, original_method)` as the engine validators call it: without a
      confidence, the score stated through its components. */
  method BaseReport(text: string, originalMethod: string) returns (base: Report)
    ensures base.qualityScore
      == QualityScore(ScorePoints(text, originalMethod, MissingCount(ReportWarnings(text, []))), None)
    ensures 0.0 <= base.qualityScore <= 1.0
    ensures base.issues == SyntaxIssues(text) + SchemaIssues(text)
    ensures base.warnings == ReportWarnings(text, [])
    ensures base.syntaxValid == (SyntaxIssues(text) == [])
    ensures base.schemaCompliant == SchemaCompliant(text)
    ensures base.metrics == Metrics(|Words(text)|, |Split(text, '\n')|, None)
  {
    base := ValidateMarkdown(text, originalMethod, None);
    ReportScoreInRange(text, originalMethod, None, []);
  }

  lemma {:induction false} MissingCountAppend(a: seq<Finding>, b: seq<Finding>)
    ensures MissingCount(a + b) == MissingCount(a) + MissingCount(b)
    decreases |b|
  {
    if b != [] {
      MissingCountAppend(a, b[..|b| - 1]);
      assert (a + b)[..|a + b| - 1] == a + b[..|b| - 1];
    } else {
      assert a + b == a;
    }
  }

  /** In a fresh validator's report every warning of the two checks appears twice, so the
      schema component counts each "missing…" warning twice. */
  lemma MissingCountDoubled(text: string)
    ensures ReportWarnings(text, []) == CheckWarnings(text) + CheckWarnings(text)
    ensures MissingCount(ReportWarnings(text, [])) == 2 * MissingCount(CheckWarnings(text))
  {
    var w := CheckWarnings(text);
    assert [] + w == w;
    MissingCountAppend(w, w);
  }
}
