/** The RapidOCR validator: layout (page and reading-order markers, a column estimate),
    semantic role annotations with their distribution, the distribution of OCR confidence
    markers, a word-count completeness estimate, and the base report less penalties. */
module RapidOcr {
  import opened Wrappers
  import opened Text
  import opened Markers
  import opened Validator

  datatype Severity = Warning | Error

  /** The issues the RapidOCR checks raise; each has a fixed "type" and "severity" (the
      message text is not modelled). */
  datatype Issue =
    | MissingPageMarkers
    | ReadingOrderInconsistent
    | ColumnCountMismatch
    | InvalidRoleTypes
    | MissingSemanticAnnotations
    | HighUncertainty
    | VeryLowConfidence
    | PossiblyIncomplete
  {
    function Kind(): string {
      match this
      case MissingPageMarkers => "missing_page_markers"
      case ReadingOrderInconsistent => "reading_order_inconsistent"
      case ColumnCountMismatch => "column_count_mismatch"
      case InvalidRoleTypes => "invalid_role_types"
      case MissingSemanticAnnotations => "missing_semantic_annotations"
      case HighUncertainty => "high_uncertainty"
      case VeryLowConfidence => "very_low_confidence"
      case PossiblyIncomplete => "possibly_incomplete"
    }

    function Severity(): Severity {
      match this
      case ReadingOrderInconsistent | InvalidRoleTypes | VeryLowConfidence => Error
      case _ => Warning
    }
  }

  /** The "type" of each issue. */
  function IssueKinds(xs: seq<Issue>): seq<string>
  {
    seq(|xs|, i requires 0 <= i < |xs| => xs[i].Kind())
  }

  /** Distinct issues have distinct types. */
  lemma KindInjective(x: Issue, y: Issue)
    ensures x.Kind() == y.Kind() ==> x == y
  {
  }

  /** An issue's type appears in the list of types exactly when the issue is in the list:
      the report's type strings identify its issues. */
  lemma IssueKindsMember(xs: seq<Issue>, x: Issue)
    ensures x.Kind() in IssueKinds(xs) <==> x in xs
  {
    if x.Kind() in IssueKinds(xs) {
      var i :| 0 <= i < |xs| && IssueKinds(xs)[i] == x.Kind();
      KindInjective(xs[i], x);
    }
    if x in xs {
      var i :| 0 <= i < |xs| && xs[i] == x;
      assert IssueKinds(xs)[i] == x.Kind();
    }
  }

  /** The types of two lists joined are the types of each, joined. */
  lemma IssueKindsAppend(xs: seq<Issue>, ys: seq<Issue>)
    ensures IssueKinds(xs + ys) == IssueKinds(xs) + IssueKinds(ys)
  {
  }

  /** The number of issues of severity "error". */
  function ErrorCount(xs: seq<Issue>): (n: nat)
    ensures n <= |xs|
  {
    if xs == [] then 0
    else ErrorCount(xs[..|xs| - 1]) + (if xs[|xs| - 1].Severity() == Error then 1 else 0)
  }

  // ---------------------------------------------------------------------------
  // Layout

  datatype LayoutResult = LayoutResult(
    hasPageMarkers: bool,
    pageCount: nat,
    hasReadingOrder: bool,
    detectedColumns: nat,
    readingOrderCount: nat,
    issues: seq<Issue>)

  /** One column, two above an average of 20 reading-order markers per page, three above
      40; one whenever there are no markers or no pages. */
  function DetectedColumns(orderCount: nat, pageCount: nat): nat {
    if orderCount > 0 && pageCount > 0 then
      var avg := orderCount as real / pageCount as real;
      if avg > 40.0 then 3 else if avg > 20.0 then 2 else 1
    else 1
  }

  /** An expected column count is checked only when it is given and non-zero. */
  predicate ColumnsMismatch(expectedColumns: Option<int>, detected: nat) {
    expectedColumns.Some? && expectedColumns.value != 0 && detected != expectedColumns.value
  }

  /** The average exceeds a bound b exactly when the count exceeds b pages' worth. */
  lemma AverageAbove(orderCount: nat, pageCount: nat, b: nat)
    requires pageCount > 0
    ensures orderCount as real / pageCount as real > b as real <==> orderCount > b * pageCount
  {
    var q := orderCount as real / pageCount as real;
    assert q * pageCount as real == orderCount as real;
    if orderCount > b * pageCount {
      assert q * pageCount as real > b as real * pageCount as real;
    }
  }

  /** The estimate is 1, 2 or 3, and the thresholds are 20 and 40 markers per page. */
  lemma ColumnsFromDensity(orderCount: nat, pageCount: nat)
    ensures DetectedColumns(orderCount, pageCount) in {1, 2, 3}
    ensures orderCount == 0 || pageCount == 0 ==> DetectedColumns(orderCount, pageCount) == 1
    ensures pageCount > 0 ==>
      (DetectedColumns(orderCount, pageCount) >= 2 <==> orderCount > 20 * pageCount)
      && (DetectedColumns(orderCount, pageCount) == 3 <==> orderCount > 40 * pageCount)
  {
    if pageCount > 0 {
      AverageAbove(orderCount, pageCount, 20);
      AverageAbove(orderCount, pageCount, 40);
    }
  }

  /** 24 markers on one page suggest two columns; on two pages, one. */
  lemma ColumnExamples()
    ensures DetectedColumns(24, 1) == 2
    ensures DetectedColumns(24, 2) == 1
    ensures DetectedColumns(100, 2) == 3
  {
  }

  /** The layout issues, in the order they are raised. */
  function LayoutIssues(noPages: bool, inconsistent: bool, mismatch: bool): seq<Issue> {
    (if noPages then [MissingPageMarkers] else [])
    + (if inconsistent then [ReadingOrderInconsistent] else [])
    + (if mismatch then [ColumnCountMismatch] else [])
  }

  /** Each layout issue is raised exactly when its condition holds, and there are no
      others. */
  lemma LayoutIssuesIff(noPages: bool, inconsistent: bool, mismatch: bool)
    ensures var xs := LayoutIssues(noPages, inconsistent, mismatch);
      && (MissingPageMarkers in xs <==> noPages)
      && (ReadingOrderInconsistent in xs <==> inconsistent)
      && (ColumnCountMismatch in xs <==> mismatch)
      && forall x :: x in xs ==> x in {MissingPageMarkers, ReadingOrderInconsistent, ColumnCountMismatch}
  {
  }

  /** Only an inconsistent reading order is an error. */
  lemma LayoutErrorCount(noPages: bool, inconsistent: bool, mismatch: bool)
    ensures ErrorCount(LayoutIssues(noPages, inconsistent, mismatch)) == (if inconsistent then 1 else 0)
  {
    var a: seq<Issue> := if noPages then [MissingPageMarkers] else [];
    var b: seq<Issue> := if inconsistent then [ReadingOrderInconsistent] else [];
    var c: seq<Issue> := if mismatch then [ColumnCountMismatch] else [];
    assert ErrorCount(a) == 0;
    assert ErrorCount(a + b) == (if inconsistent then 1 else 0) by {
      if inconsistent {
        assert (a + b)[..|a + b| - 1] == a;
      } else {
        assert a + b == a;
      }
    }
    if mismatch {
      assert (a + b + c)[..|a + b + c| - 1] == a + b;
    } else {
      assert a + b + c == a + b;
    }
  }

  /** The layout checks over the page numbers and reading-order numbers found. */
  method CheckLayout(pageMarkers: seq<nat>, orderMarkers: seq<nat>, expectedColumns: Option<int>)
    returns (r: LayoutResult)
    ensures r.pageCount == |pageMarkers| && (r.hasPageMarkers <==> r.pageCount > 0)
    ensures r.readingOrderCount == |orderMarkers| && (r.hasReadingOrder <==> r.readingOrderCount > 0)
    ensures r.detectedColumns == DetectedColumns(r.readingOrderCount, r.pageCount)
    ensures r.issues == LayoutIssues(pageMarkers == [], orderMarkers != [] && !Sequential(orderMarkers),
      ColumnsMismatch(expectedColumns, r.detectedColumns))
  {
    var issues: seq<Issue> := [];
    var hasPageMarkers := |pageMarkers| > 0;
    var pageCount := |pageMarkers|;
    if !hasPageMarkers {
      issues := issues + [MissingPageMarkers];
    }
    var hasReadingOrder := |orderMarkers| > 0;
    if hasReadingOrder {
      if orderMarkers != OneTo(|orderMarkers|) {
        issues := issues + [ReadingOrderInconsistent];
      }
    }
    var detected := 1;
    if hasReadingOrder && pageCount > 0 {
      var avg := |orderMarkers| as real / pageCount as real;
      if avg > 20.0 {
        detected := 2;
      }
      if avg > 40.0 {
        detected := 3;
      }
    }
    if expectedColumns.Some? && expectedColumns.value != 0 && detected != expectedColumns.value {
      issues := issues + [ColumnCountMismatch];
    }
    r := LayoutResult(hasPageMarkers, pageCount, hasReadingOrder, detected, |orderMarkers|, issues);
  }

  /** What `validate_layout_analysis` finds in the text. */
  function LayoutOf(text: string, expectedColumns: Option<int>): LayoutResult {
    var pages := PageNumbers(text);
    var order := ReadingOrderNumbers(text);
    var detected := DetectedColumns(|order|, |pages|);
    LayoutResult(pages != [], |pages|, order != [], detected, |order|,
      LayoutIssues(pages == [], order != [] && !Sequential(order), ColumnsMismatch(expectedColumns, detected)))
  }

  /** `validate_layout_analysis`: page markers, reading order, the column estimate and the
      expected column count. */
  method ValidateLayoutAnalysis(text: string, expectedColumns: Option<int>) returns (r: LayoutResult)
    ensures r == LayoutOf(text, expectedColumns)
    ensures r.pageCount == |PageNumbers(text)|
    ensures r.hasPageMarkers <==> r.pageCount > 0
    ensures r.readingOrderCount == |ReadingOrderNumbers(text)|
    ensures r.hasReadingOrder <==> r.readingOrderCount > 0
    ensures r.detectedColumns == DetectedColumns(r.readingOrderCount, r.pageCount)
    ensures MissingPageMarkers in r.issues <==> PageNumbers(text) == []
    ensures ReadingOrderInconsistent in r.issues <==>
      ReadingOrderNumbers(text) != [] && !Sequential(ReadingOrderNumbers(text))
    ensures ColumnCountMismatch in r.issues <==> ColumnsMismatch(expectedColumns, r.detectedColumns)
    ensures ErrorCount(r.issues) == (if ReadingOrderInconsistent in r.issues then 1 else 0)
    ensures forall x :: x in r.issues ==> x in {MissingPageMarkers, ReadingOrderInconsistent, ColumnCountMismatch}
  {
    r := CheckLayout(PageNumbers(text), ReadingOrderNumbers(text), expectedColumns);
    var noPages := PageNumbers(text) == [];
    var inconsistent := ReadingOrderNumbers(text) != [] && !Sequential(ReadingOrderNumbers(text));
    LayoutIssuesIff(noPages, inconsistent, ColumnsMismatch(expectedColumns, r.detectedColumns));
    LayoutErrorCount(noPages, inconsistent, ColumnsMismatch(expectedColumns, r.detectedColumns));
  }

  // ---------------------------------------------------------------------------
  // Semantic role annotations

  /** The six roles the RapidOCR output may carry. */
  const RapidRoles: set<string> := {"heading", "paragraph", "list_item", "table", "caption", "footnote"}

  datatype SemanticResult = SemanticResult(
    hasAnnotations: bool,
    roleCount: nat,
    roleDistribution: map<string, nat>,
    invalidRoles: set<string>,
    issues: seq<Issue>)

  /** `re.findall(r'<!-- role:(\w+)(?: .*?)? -->', text)`: the role names. */
  function AnnotatedRoles(text: string): seq<string> {
    Roles(text, LazyTail)
  }

  /** The count of each role, as the counting loop leaves it. */
  function Distribution(roles: seq<string>): map<string, nat> {
    if roles == [] then map[]
    else
      var d := Distribution(roles[..|roles| - 1]);
      var x := roles[|roles| - 1];
      d[x := (if x in d then d[x] else 0) + 1]
  }

  /** The distinct roles in order of first appearance: the order of the dictionary's keys. */
  function FirstSeen(roles: seq<string>): seq<string> {
    if roles == [] then []
    else
      var ks := FirstSeen(roles[..|roles| - 1]);
      var x := roles[|roles| - 1];
      if x in roles[..|roles| - 1] then ks else ks + [x]
  }

  predicate Distinct(ks: seq<string>) {
    forall i, j :: 0 <= i < j < |ks| ==> ks[i] != ks[j]
  }

  /** The counts of the keys ks, in that order. */
  function Total(d: map<string, nat>, ks: seq<string>): nat {
    if ks == [] then 0 else (if ks[0] in d then d[ks[0]] else 0) + Total(d, ks[1..])
  }

  /** Every role that occurs is a key, and its count is its number of occurrences. */
  lemma {:induction false} DistributionCounts(roles: seq<string>)
    ensures forall x :: x in Distribution(roles) <==> x in roles
    ensures forall x :: x in Distribution(roles) ==> Distribution(roles)[x] == multiset(roles)[x]
  {
    if roles != [] {
      var init := roles[..|roles| - 1];
      DistributionCounts(init);
      assert roles == init + [roles[|roles| - 1]];
    }
  }

  /** The keys, in order, are the distinct roles. */
  lemma {:induction false} FirstSeenKeys(roles: seq<string>)
    ensures Distinct(FirstSeen(roles))
    ensures forall x :: x in FirstSeen(roles) <==> x in roles
  {
    if roles != [] {
      var init := roles[..|roles| - 1];
      FirstSeenKeys(init);
      assert roles == init + [roles[|roles| - 1]];
    }
  }

  lemma {:induction false} TotalSnoc(d: map<string, nat>, ks: seq<string>, k: string)
    ensures Total(d, ks + [k]) == Total(d, ks) + (if k in d then d[k] else 0)
  {
    if ks != [] {
      assert (ks + [k])[1..] == ks[1..] + [k];
      TotalSnoc(d, ks[1..], k);
    }
  }

  /** Changing the count of k changes the total by the difference when k is one of the
      distinct keys, and not at all when it is not among them. */
  lemma {:induction false} TotalUpdate(d: map<string, nat>, ks: seq<string>, k: string, v: nat)
    requires Distinct(ks)
    ensures k !in ks ==> Total(d[k := v], ks) == Total(d, ks)
    ensures k in ks ==> Total(d[k := v], ks) + (if k in d then d[k] else 0) == Total(d, ks) + v
  {
    if ks != [] {
      assert Distinct(ks[1..]);
      TotalUpdate(d, ks[1..], k, v);
      if ks[0] == k {
        assert k !in ks[1..];
      }
    }
  }

  /** `role_count` is the sum of `role_distribution`. */
  lemma {:induction false} DistributionTotal(roles: seq<string>)
    ensures Total(Distribution(roles), FirstSeen(roles)) == |roles|
  {
    if roles != [] {
      var init := roles[..|roles| - 1];
      var x := roles[|roles| - 1];
      var d := Distribution(init);
      var ks := FirstSeen(init);
      DistributionTotal(init);
      FirstSeenKeys(init);
      DistributionCounts(init);
      var v := (if x in d then d[x] else 0) + 1;
      TotalUpdate(d, ks, x, v);
      if x !in init {
        TotalSnoc(d[x := v], ks, x);
      }
    }
  }

  /** The counting loop over the roles. */
  method CountRoles(roles: seq<string>) returns (d: map<string, nat>)
    ensures d == Distribution(roles)
  {
    d := map[];
    var i := 0;
    while i < |roles|
      invariant i <= |roles|
      invariant d == Distribution(roles[..i])
    {
      var x := roles[i];
      assert roles[..i + 1][..i] == roles[..i];
      d := d[x := (if x in d then d[x] else 0) + 1];
      i := i + 1;
    }
    assert roles[..|roles|] == roles;
  }

  /** The issues of `validate_semantic_annotations`, in the order they are raised. */
  function AnnotationIssues(invalid: bool, missing: bool): seq<Issue> {
    (if invalid then [InvalidRoleTypes] else []) + (if missing then [MissingSemanticAnnotations] else [])
  }

  /** What `validate_semantic_annotations` finds for the role names. */
  function SemanticFrom(roles: seq<string>): SemanticResult {
    var invalid := set x | x in roles && x !in RapidRoles;
    SemanticResult(roles != [], |roles|, Distribution(roles), invalid, AnnotationIssues(invalid != {}, roles == []))
  }

  /** What `validate_semantic_annotations` finds in the text. */
  function SemanticOf(text: string): SemanticResult {
    SemanticFrom(AnnotatedRoles(text))
  }

  /** The whitelist, the distribution and the presence of annotations. */
  method ValidateSemanticAnnotations(text: string) returns (r: SemanticResult)
    ensures r == SemanticOf(text)
    ensures r.roleCount == |AnnotatedRoles(text)|
    ensures r.hasAnnotations <==> r.roleCount > 0
    ensures forall x :: x in r.invalidRoles <==> x in AnnotatedRoles(text) && x !in RapidRoles
    ensures forall x :: x in r.roleDistribution <==> x in AnnotatedRoles(text)
    ensures forall x :: x in r.roleDistribution ==> r.roleDistribution[x] == multiset(AnnotatedRoles(text))[x]
    ensures Total(r.roleDistribution, FirstSeen(AnnotatedRoles(text))) == r.roleCount
    ensures InvalidRoleTypes in r.issues <==> r.invalidRoles != {}
    ensures MissingSemanticAnnotations in r.issues <==> AnnotatedRoles(text) == []
    ensures forall x :: x in r.issues ==> x in {InvalidRoleTypes, MissingSemanticAnnotations}
  {
    var issues: seq<Issue> := [];
    var roles := AnnotatedRoles(text);
    var invalidRoles := set x | x in roles && x !in RapidRoles;
    if invalidRoles != {} {
      issues := issues + [InvalidRoleTypes];
    }
    var distribution := CountRoles(roles);
    DistributionCounts(roles);
    DistributionTotal(roles);
    var hasAnnotations := |roles| > 0;
    if !hasAnnotations {
      issues := issues + [MissingSemanticAnnotations];
    }
    r := SemanticResult(hasAnnotations, |roles|, distribution, invalidRoles, issues);
  }

  // ---------------------------------------------------------------------------
  // Confidence distribution

  datatype ConfidenceAnalysis = ConfidenceAnalysis(
    lowConfidenceCount: nat,
    uncertainCount: nat,
    uncertainPercentage: real,
    avgLowConfidence: Option<real>,
    minConfidence: Option<real>,
    issues: seq<Issue>)

  function Sum(xs: seq<real>): real {
    if xs == [] then 0.0 else Sum(xs[..|xs| - 1]) + xs[|xs| - 1]
  }

  /** Scores in [0, 1) sum to at least 0 and less than their number. */
  lemma {:induction false} SumBounds(xs: seq<real>)
    requires forall i :: 0 <= i < |xs| ==> 0.0 <= xs[i] < 1.0
    ensures 0.0 <= Sum(xs) <= |xs| as real
    ensures xs != [] ==> Sum(xs) < |xs| as real
  {
    if xs != [] {
      SumBounds(xs[..|xs| - 1]);
    }
  }

  /** The average score: it lies in [0, 1), and times the number of scores it gives
      their sum. */
  function Mean(xs: seq<real>): (m: real)
    requires xs != []
    requires forall i :: 0 <= i < |xs| ==> 0.0 <= xs[i] < 1.0
    ensures 0.0 <= m < 1.0
    ensures m * |xs| as real == Sum(xs)
  {
    SumBounds(xs);
    QuotientBelowOne(Sum(xs), |xs| as real);
    Sum(xs) / |xs| as real
  }

  /** The smallest score. */
  function Minimum(xs: seq<real>): (m: real)
    requires xs != []
    ensures m in xs
    ensures forall i :: 0 <= i < |xs| ==> m <= xs[i]
  {
    if |xs| == 1 then xs[0]
    else
      var m := Minimum(xs[..|xs| - 1]);
      assert forall i :: 0 <= i < |xs| - 1 ==> xs[..|xs| - 1][i] == xs[i];
      if xs[|xs| - 1] < m then xs[|xs| - 1] else m
  }

  /** The share of uncertain spans per line, in percent. */
  function UncertainPercentage(uncertainCount: nat, lineCount: nat): real
    requires lineCount > 0
  {
    uncertainCount as real / lineCount as real * 100.0
  }

  /** The share exceeds 20% exactly when more than one line in five carries an uncertain
      span. */
  lemma HighUncertaintyIff(uncertainCount: nat, lineCount: nat)
    requires lineCount > 0
    ensures UncertainPercentage(uncertainCount, lineCount) > 20.0 <==> 5 * uncertainCount > lineCount
  {
    var n := lineCount as real;
    var q := uncertainCount as real / n;
    assert q * n == uncertainCount as real;
    ScaleAbove(q, 0.2, n);
  }

  /** Multiplying by a positive factor keeps a strict comparison. */
  lemma ScaleAbove(q: real, c: real, n: real)
    requires n > 0.0
    ensures q > c <==> q * n > c * n
  {
    if q > c {
      assert (q - c) * n > 0.0;
    } else {
      assert (c - q) * n >= 0.0;
    }
  }

  /** The minimum is flagged only when it is non-zero and below 0.5: a 0.0 is treated as
      no minimum at all. */
  predicate FlagsMinimum(minConfidence: Option<real>) {
    minConfidence.Some? && minConfidence.value != 0.0 && minConfidence.value < 0.5
  }

  /** A smallest confidence of exactly 0.0 is not flagged, though 0.3 is. */
  lemma ZeroMinimumNotFlagged()
    ensures Minimum([0.0, 0.3]) == 0.0 && !FlagsMinimum(Some(Minimum([0.0, 0.3])))
    ensures Minimum([0.3, 0.7]) == 0.3 && FlagsMinimum(Some(Minimum([0.3, 0.7])))
  {
    assert [0.0, 0.3][..1] == [0.0];
    assert [0.3, 0.7][..1] == [0.3];
  }

  /** The issues of `analyze_confidence_distribution`, in the order they are raised. */
  function ConfidenceIssues(high: bool, veryLow: bool): seq<Issue> {
    (if high then [HighUncertainty] else []) + (if veryLow then [VeryLowConfidence] else [])
  }

  /** What `analyze_confidence_distribution` finds in the text. */
  function ConfidenceOf(text: string): ConfidenceAnalysis {
    var scores := Confidences(text);
    var avg := if scores != [] then Some(Mean(scores)) else None;
    var min := if scores != [] then Some(Minimum(scores)) else None;
    var pct := UncertainPercentage(UncertainCount(text), |Split(text, '\n')|);
    ConfidenceAnalysis(|scores|, UncertainCount(text), pct, avg, min,
      ConfidenceIssues(pct > 20.0, FlagsMinimum(min)))
  }

  /** Counts, average, minimum and uncertain share of the confidence markers. */
  method AnalyzeConfidenceDistribution(text: string) returns (r: ConfidenceAnalysis)
    ensures r == ConfidenceOf(text)
    ensures r.lowConfidenceCount == |Confidences(text)|
    ensures r.uncertainCount == UncertainCount(text)
    ensures r.uncertainPercentage == UncertainPercentage(r.uncertainCount, |Split(text, '\n')|)
    ensures r.avgLowConfidence.Some? <==> Confidences(text) != []
    ensures Confidences(text) != [] ==> r.avgLowConfidence == Some(Mean(Confidences(text)))
    ensures r.minConfidence.Some? <==> Confidences(text) != []
    ensures r.minConfidence.Some? ==> r.minConfidence.value in Confidences(text)
    ensures r.minConfidence.Some? ==>
      forall i :: 0 <= i < |Confidences(text)| ==> r.minConfidence.value <= Confidences(text)[i]
    ensures HighUncertainty in r.issues <==> r.uncertainPercentage > 20.0
    ensures VeryLowConfidence in r.issues <==> FlagsMinimum(r.minConfidence)
    ensures 0.0 in Confidences(text) ==> VeryLowConfidence !in r.issues
    ensures forall x :: x in r.issues ==> x in {HighUncertainty, VeryLowConfidence}
  {
    var issues: seq<Issue> := [];
    var scores := Confidences(text);
    var uncertainCount := UncertainCount(text);
    var avg: Option<real> := None;
    var min: Option<real> := None;
    if scores != [] {
      avg := Some(Mean(scores));
      min := Some(Minimum(scores));
    }
    var totalLines := |Split(text, '\n')|;
    var pct := UncertainPercentage(uncertainCount, totalLines);
    if pct > 20.0 {
      issues := issues + [HighUncertainty];
    }
    if min.Some? && min.value != 0.0 && min.value < 0.5 {
      issues := issues + [VeryLowConfidence];
    }
    r := ConfidenceAnalysis(|scores|, uncertainCount, pct, avg, min, issues);
  }

  // ---------------------------------------------------------------------------
  // Completeness

  datatype ExtractionCompleteness = ExtractionCompleteness(
    wordCount: nat,
    expectedMin: int,
    expectedMax: int,
    score: real,
    issues: seq<Issue>)

  /** The default expected words per page, minimum and maximum. */
  const WordsPerPage: (int, int) := (150, 600)

  /** The estimate for a given word count: short of the minimum the score is the fraction
      reached, otherwise 1; too many words are not an issue. */
  function CompletenessOfCount(wordCount: nat, pageCount: int, perPage: (int, int)): ExtractionCompleteness {
    var lo := pageCount * perPage.0;
    var hi := pageCount * perPage.1;
    if wordCount < lo then
      ExtractionCompleteness(wordCount, lo, hi, wordCount as real / lo as real, [PossiblyIncomplete])
    else
      ExtractionCompleteness(wordCount, lo, hi, 1.0, [])
  }

  /** `estimate_extraction_completeness`: the words are counted once comments are removed. */
  function EstimateExtractionCompleteness(text: string, pageCount: int, perPage: (int, int)): ExtractionCompleteness {
    CompletenessOfCount(|Words(StripComments(text))|, pageCount, perPage)
  }

  /** The score is in [0, 1]; it is below 1, with the one issue, exactly when the count is
      below the minimum. */
  lemma ExtractionScore(wordCount: nat, pageCount: int, perPage: (int, int))
    ensures var c := CompletenessOfCount(wordCount, pageCount, perPage);
      && c.expectedMin == pageCount * perPage.0 && c.expectedMax == pageCount * perPage.1
      && 0.0 <= c.score <= 1.0
      && (c.score < 1.0 <==> wordCount < c.expectedMin)
      && (wordCount < c.expectedMin ==> c.score * c.expectedMin as real == wordCount as real)
      && (c.issues == [PossiblyIncomplete] <==> wordCount < c.expectedMin)
      && (c.issues == [] <==> wordCount >= c.expectedMin)
  {
    var lo := pageCount * perPage.0;
    if wordCount < lo {
      QuotientBelowOne(wordCount as real, lo as real);
    }
  }

  /** For one page: 50 words score 1/3; 300 and 5000 words are fine. */
  lemma ExtractionExamples()
    ensures CompletenessOfCount(50, 1, WordsPerPage).score == 1.0 / 3.0
    ensures CompletenessOfCount(50, 1, WordsPerPage).issues == [PossiblyIncomplete]
    ensures CompletenessOfCount(300, 1, WordsPerPage).issues == []
    ensures CompletenessOfCount(5000, 1, WordsPerPage) == ExtractionCompleteness(5000, 150, 600, 1.0, [])
  {
  }

  // ---------------------------------------------------------------------------
  // The combined report

  datatype RapidOcrMetrics = RapidOcrMetrics(
    base: Metrics,
    pageCount: nat,
    detectedColumns: nat,
    roleAnnotations: nat,
    uncertainPercentage: real,
    completenessScore: real)

  datatype RapidOcrReport = RapidOcrReport(
    qualityScore: real,
    baseQualityScore: real,
    layout: LayoutResult,
    semantic: SemanticResult,
    confidence: ConfidenceAnalysis,
    completeness: ExtractionCompleteness,
    syntaxValid: bool,
    schemaCompliant: bool,
    issues: seq<string>,
    warnings: seq<Finding>,
    metrics: RapidOcrMetrics)

  /** 0.15 without page markers, 0.10 without annotations, 0.15 above 20% uncertain, 0.2 of
      the missing completeness and 0.10 per layout error. */
  function Penalty(hasPages: bool, hasAnnotations: bool, uncertainPercentage: real,
                   completeness: real, layoutErrors: nat): real {
    (if hasPages then 0.0 else 0.15)
    + (if hasAnnotations then 0.0 else 0.10)
    + (if uncertainPercentage > 20.0 then 0.15 else 0.0)
    + (1.0 - completeness) * 0.20
    + layoutErrors as real * 0.10
  }

  /** With a completeness score at most 1 the penalty is at least 0.1 per layout error. */
  lemma AdjustedScoreBounds(base: real, hasPages: bool, hasAnnotations: bool,
                            uncertainPercentage: real, completeness: real, layoutErrors: nat)
    requires 0.0 <= base && completeness <= 1.0
    ensures var q := Max0(base - Penalty(hasPages, hasAnnotations, uncertainPercentage, completeness, layoutErrors));
      0.0 <= q <= base && q <= Max0(base - layoutErrors as real * 0.10)
  {
  }

  /** The penalty accumulator of `validate_rapidocr_output`, then the clamped score. */
  method AdjustScore(base: real, hasPages: bool, hasAnnotations: bool, uncertainPercentage: real,
                     completeness: real, layoutIssues: seq<Issue>) returns (score: real)
    ensures score == Max0(base - Penalty(hasPages, hasAnnotations, uncertainPercentage, completeness,
      ErrorCount(layoutIssues)))
  {
    var penalties := 0.0;
    if !hasPages {
      penalties := penalties + 0.15;
    }
    if !hasAnnotations {
      penalties := penalties + 0.10;
    }
    if uncertainPercentage > 20.0 {
      penalties := penalties + 0.15;
    }
    penalties := penalties + (1.0 - completeness) * 0.20;
    var errors := 0;
    var i := 0;
    while i < |layoutIssues|
      invariant i <= |layoutIssues|
      invariant errors == ErrorCount(layoutIssues[..i])
    {
      assert layoutIssues[..i + 1][..i] == layoutIssues[..i];
      if layoutIssues[i].Severity() == Error {
        errors := errors + 1;
      }
      i := i + 1;
    }
    assert layoutIssues[..i] == layoutIssues;
    penalties := penalties + errors as real * 0.10;
    score := if base - penalties > 0.0 then base - penalties else 0.0;
  }

  /** The method name `validate_rapidocr_output` passes on when none is given, and the
      default of no expected column count. */
  const DefaultOriginalMethod: string := "RapidOCR"
  const DefaultExpectedColumns: Option<int> := None

  /** Without an expected column count there is never a column mismatch, so at most two
      layout issues. */
  lemma DefaultColumnsNoMismatch(text: string)
    ensures ColumnCountMismatch !in LayoutOf(text, DefaultExpectedColumns).issues
    ensures |LayoutOf(text, DefaultExpectedColumns).issues| <= 2
  {
    var pages := PageNumbers(text);
    var order := ReadingOrderNumbers(text);
    LayoutIssuesIff(pages == [], order != [] && !Sequential(order), false);
  }

  /** The four RapidOCR-specific checks `validate_rapidocr_output` runs first. */
  method RunChecks(text: string, pageCount: int, expectedColumns: Option<int>)
    returns (layout: LayoutResult, semantic: SemanticResult, confidence: ConfidenceAnalysis,
             completeness: ExtractionCompleteness)
    ensures layout == LayoutOf(text, expectedColumns) && semantic == SemanticOf(text)
    ensures confidence == ConfidenceOf(text)
    ensures layout.hasPageMarkers <==> PageNumbers(text) != []
    ensures layout.pageCount == |PageNumbers(text)|
    ensures layout.detectedColumns == DetectedColumns(|ReadingOrderNumbers(text)|, |PageNumbers(text)|)
    ensures ErrorCount(layout.issues)
      == (if ReadingOrderNumbers(text) != [] && !Sequential(ReadingOrderNumbers(text)) then 1 else 0)
    ensures semantic.hasAnnotations <==> AnnotatedRoles(text) != []
    ensures semantic.roleCount == |AnnotatedRoles(text)|
    ensures confidence.uncertainPercentage
      == UncertainPercentage(UncertainCount(text), |Split(text, '\n')|)
    ensures completeness == EstimateExtractionCompleteness(text, pageCount, WordsPerPage)
    ensures completeness.score <= 1.0
  {
    layout := ValidateLayoutAnalysis(text, expectedColumns);
    semantic := ValidateSemanticAnnotations(text);
    confidence := AnalyzeConfidenceDistribution(text);
    completeness := EstimateExtractionCompleteness(text, pageCount, WordsPerPage);
    ExtractionScore(completeness.wordCount, pageCount, WordsPerPage);
  }

  /** The report `validate_rapidocr_output` assembles from the checks and the base report. */
  method Assemble(layout: LayoutResult, semantic: SemanticResult, confidence: ConfidenceAnalysis,
                  completeness: ExtractionCompleteness, base: Report) returns (r: RapidOcrReport)
    requires 0.0 <= base.qualityScore <= 1.0 && completeness.score <= 1.0
    ensures r.layout == layout && r.semantic == semantic && r.confidence == confidence
    ensures r.completeness == completeness
    ensures r.baseQualityScore == base.qualityScore
    ensures r.qualityScore == Max0(r.baseQualityScore - Penalty(r.layout.hasPageMarkers,
      r.semantic.hasAnnotations, r.confidence.uncertainPercentage, r.completeness.score,
      ErrorCount(r.layout.issues)))
    ensures 0.0 <= r.qualityScore <= r.baseQualityScore <= 1.0
    ensures r.issues == IssueKinds(layout.issues) + IssueKinds(semantic.issues)
      + IssueKinds(confidence.issues) + IssueKinds(completeness.issues) + Kinds(base.issues)
    ensures r.syntaxValid == base.syntaxValid && r.schemaCompliant == base.schemaCompliant
    ensures r.warnings == base.warnings
    ensures r.metrics == RapidOcrMetrics(base.metrics, layout.pageCount, layout.detectedColumns,
      semantic.roleCount, confidence.uncertainPercentage, completeness.score)
  {
    AdjustedScoreBounds(base.qualityScore, layout.hasPageMarkers, semantic.hasAnnotations,
      confidence.uncertainPercentage, completeness.score, ErrorCount(layout.issues));
    var enhanced := AdjustScore(base.qualityScore, layout.hasPageMarkers, semantic.hasAnnotations,
      confidence.uncertainPercentage, completeness.score, layout.issues);
    var allIssues := IssueKinds(layout.issues) + IssueKinds(semantic.issues)
      + IssueKinds(confidence.issues) + IssueKinds(completeness.issues) + Kinds(base.issues);
    r := RapidOcrReport(enhanced, base.qualityScore, layout, semantic, confidence, completeness,
      base.syntaxValid, base.schemaCompliant, allIssues, base.warnings,
      RapidOcrMetrics(base.metrics, layout.pageCount, layout.detectedColumns, semantic.roleCount,
        confidence.uncertainPercentage, completeness.score));
  }

  /** `validate_rapidocr_output`: the four checks, the base validator (without a
      confidence), and the base score less the penalties, never below 0. */
  method ValidateRapidOcrOutput(text: string, pageCount: int, originalMethod: string,
                                expectedColumns: Option<int>) returns (r: RapidOcrReport)
    ensures r.layout == LayoutOf(text, expectedColumns) && r.semantic == SemanticOf(text)
    ensures r.confidence == ConfidenceOf(text)
    ensures r.layout.hasPageMarkers <==> PageNumbers(text) != []
    ensures ErrorCount(r.layout.issues)
      == (if ReadingOrderNumbers(text) != [] && !Sequential(ReadingOrderNumbers(text)) then 1 else 0)
    ensures r.layout.detectedColumns == DetectedColumns(|ReadingOrderNumbers(text)|, |PageNumbers(text)|)
    ensures r.semantic.hasAnnotations <==> AnnotatedRoles(text) != []
    ensures r.confidence.uncertainPercentage
      == UncertainPercentage(UncertainCount(text), |Split(text, '\n')|)
    ensures r.completeness == EstimateExtractionCompleteness(text, pageCount, WordsPerPage)
    ensures r.baseQualityScore
      == QualityScore(ScorePoints(text, originalMethod, MissingCount(ReportWarnings(text, []))), None)
    ensures r.qualityScore == Max0(r.baseQualityScore - Penalty(r.layout.hasPageMarkers,
      r.semantic.hasAnnotations, r.confidence.uncertainPercentage, r.completeness.score,
      ErrorCount(r.layout.issues)))
    ensures 0.0 <= r.qualityScore <= r.baseQualityScore <= 1.0
    ensures r.issues == IssueKinds(r.layout.issues) + IssueKinds(r.semantic.issues)
      + IssueKinds(r.confidence.issues) + IssueKinds(r.completeness.issues)
      + Kinds(SyntaxIssues(text) + SchemaIssues(text))
    ensures r.warnings == ReportWarnings(text, [])
    ensures r.syntaxValid == (SyntaxIssues(text) == [])
    ensures r.schemaCompliant == SchemaCompliant(text)
    ensures r.metrics.base == Metrics(|Words(text)|, |Split(text, '\n')|, None)
    ensures r.metrics.pageCount == r.layout.pageCount == |PageNumbers(text)|
    ensures r.metrics.detectedColumns == r.layout.detectedColumns
    ensures r.metrics.roleAnnotations == r.semantic.roleCount == |AnnotatedRoles(text)|
    ensures r.metrics.uncertainPercentage == r.confidence.uncertainPercentage
    ensures r.metrics.completenessScore == r.completeness.score
  {
    var layout, semantic, confidence, completeness := RunChecks(text, pageCount, expectedColumns);
    var base := BaseReport(text, originalMethod);
    r := Assemble(layout, semantic, confidence, completeness, base);
  }
}
