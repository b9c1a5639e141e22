/** Validation of Markdown produced by the OpenRouter vision models: a scan for commentary
    and hedging phrases, the page and role annotations, the reading-order markers, a
    word-count completeness estimate, and the base validator's score less penalties. */
module OpenRouter {
  import opened Wrappers
  import opened Text
  import opened Markers
  import opened Phrases
  import opened Validator

  // ---------------------------------------------------------------------------
  // Hallucination phrases

  /** A pattern and the subtype its matches are reported under. */
  datatype TaggedPattern = Tagged(pattern: Pattern, subtype: string)

  const PhrasePatterns: seq<TaggedPattern> := [
    Tagged(Pattern("based on (the|this) (image|document|page)",
      ["based on the image", "based on the document", "based on the page",
       "based on this image", "based on this document", "based on this page"]),
      "commentary_phrase"),
    Tagged(Pattern("as (shown|seen|depicted) in (the|this)",
      ["as shown in the", "as shown in this", "as seen in the", "as seen in this",
       "as depicted in the", "as depicted in this"]),
      "commentary_phrase"),
    Tagged(Pattern("it appears (that|to be)", ["it appears that", "it appears to be"]),
      "speculation"),
    Tagged(Pattern("this (seems|looks like)", ["this seems", "this looks like"]),
      "speculation"),
    Tagged(Pattern("I (can see|notice|observe|believe)",
      ["i can see", "i notice", "i observe", "i believe"]),
      "first_person"),
    Tagged(Pattern("the (image|document) (shows|contains|displays)",
      ["the image shows", "the image contains", "the image displays",
       "the document shows", "the document contains", "the document displays"]),
      "meta_reference"),
    Tagged(Pattern("from what I can (see|tell|determine)",
      ["from what i can see", "from what i can tell", "from what i can determine"]),
      "uncertainty"),
    Tagged(Pattern("(probably|possibly|likely|perhaps)",
      ["probably", "possibly", "likely", "perhaps"]),
      "hedging")
  ]

  predicate AllNonEmpty(tps: seq<TaggedPattern>) {
    forall k :: 0 <= k < |tps| ==> NonEmptyPhrases(tps[k].pattern.phrases)
  }

  /** One reported phrase: its subtype, 1-based line, the stripped line, the matched text as
      it appears in the line, and the severity (always "high"). */
  datatype PhraseMarker = PhraseMarker(subtype: string, line: nat, text: string, matched: string,
                                       severity: string)

  /** The line, once stripped, opens an HTML comment: it is a semantic annotation and is
      not scanned. */
  predicate IsCommentLine(line: string) {
    StartsWith(Strip(line), CommentOpen)
  }

  predicate InLine(line: string, ms: seq<Match>) {
    forall m :: m in ms ==> m.start + m.len <= |line|
  }

  /** One marker per match, in order. */
  function MatchMarkers(line: string, n: nat, subtype: string, ms: seq<Match>): (r: seq<PhraseMarker>)
    requires InLine(line, ms)
    ensures |r| == |ms|
  {
    if ms == [] then []
    else
      var m := ms[|ms| - 1];
      MatchMarkers(line, n, subtype, ms[..|ms| - 1])
      + [PhraseMarker(subtype, n, Strip(line), line[m.start..m.start + m.len], "high")]
  }

  /** Every match lies within the line. */
  lemma FindIterInLine(line: string, pat: Pattern)
    requires NonEmptyPhrases(pat.phrases)
    ensures InLine(line, FindIter(line, pat))
  {
    FindIterFromSound(LowerStr(line), pat.phrases, 0);
  }

  /** The markers of one pattern on line n. */
  function PatternMarkers(line: string, n: nat, tp: TaggedPattern): seq<PhraseMarker>
    requires NonEmptyPhrases(tp.pattern.phrases)
  {
    FindIterInLine(line, tp.pattern);
    MatchMarkers(line, n, tp.subtype, FindIter(line, tp.pattern))
  }

  /** The markers of line n, pattern by pattern. */
  function LinePhrases(line: string, n: nat, tps: seq<TaggedPattern>): seq<PhraseMarker>
    requires AllNonEmpty(tps)
  {
    if tps == [] then []
    else LinePhrases(line, n, tps[..|tps| - 1]) + PatternMarkers(line, n, tps[|tps| - 1])
  }

  /** The markers of line n, or none for a comment line. */
  function LineEntry(line: string, n: nat, tps: seq<TaggedPattern>): seq<PhraseMarker>
    requires AllNonEmpty(tps)
  {
    if IsCommentLine(line) then [] else LinePhrases(line, n, tps)
  }

  function PhrasesOfLines(ls: seq<string>, tps: seq<TaggedPattern>): seq<PhraseMarker>
    requires AllNonEmpty(tps)
  {
    if ls == [] then []
    else PhrasesOfLines(ls[..|ls| - 1], tps) + LineEntry(ls[|ls| - 1], |ls|, tps)
  }

  lemma PhrasePatternsNonEmpty()
    ensures AllNonEmpty(PhrasePatterns)
  {
  }

  /** What `detect_hallucination_phrases` returns. */
  function HallucinationPhrases(text: string): seq<PhraseMarker> {
    PhrasePatternsNonEmpty();
    PhrasesOfLines(Split(text, '\n'), PhrasePatterns)
  }

  /** The number of markers a pattern yields on a line is the number of non-overlapping
      matches `finditer` reports. */
  lemma PatternMarkersCount(line: string, n: nat, tp: TaggedPattern)
    requires NonEmptyPhrases(tp.pattern.phrases)
    ensures |PatternMarkers(line, n, tp)| == |FindIter(line, tp.pattern)|
  {
  }

  /** What a marker carries: the line number and stripped line it was found on, severity
      "high", and the text of one of the matches. */
  predicate MarkerOf(mk: PhraseMarker, line: string, n: nat, subtype: string, ms: seq<Match>) {
    mk.subtype == subtype && mk.line == n && mk.text == Strip(line) && mk.severity == "high"
    && exists m :: m in ms && m.start + m.len <= |line| && mk.matched == line[m.start..m.start + m.len]
  }

  lemma {:induction false} MatchMarkersSound(line: string, n: nat, subtype: string, ms: seq<Match>)
    requires InLine(line, ms)
    ensures forall mk :: mk in MatchMarkers(line, n, subtype, ms) ==> MarkerOf(mk, line, n, subtype, ms)
  {
    if ms != [] {
      var init := ms[..|ms| - 1];
      MatchMarkersSound(line, n, subtype, init);
      forall mk | mk in MatchMarkers(line, n, subtype, init)
        ensures MarkerOf(mk, line, n, subtype, ms)
      {
        var m :| m in init && m.start + m.len <= |line| && mk.matched == line[m.start..m.start + m.len];
        assert m in ms;
      }
    }
  }

  /** Lower-casing commutes with slicing. */
  lemma LowerSlice(s: string, i: nat, j: nat)
    requires i <= j <= |s|
    ensures LowerStr(s[i..j]) == LowerStr(s)[i..j]
  {
  }

  /** The text of a match of phrase p, lower-cased, is p, and the line contains p. */
  lemma MatchSpellsPhrase(line: string, p: string, m: Match, matched: string)
    requires OccursAt(LowerStr(line), p, m.start) && m.len == |p|
    requires m.start + m.len <= |line| && matched == line[m.start..m.start + m.len]
    ensures LowerStr(matched) == p
    ensures Contains(LowerStr(line), p)
  {
    OccursAtSlice(LowerStr(line), p, m.start);
    LowerSlice(line, m.start, m.start + |p|);
    ContainsAt(LowerStr(line), p, m.start);
  }

  /** A marker of a pattern spells, case-insensitively, one of the pattern's phrases. */
  lemma PatternMarkersSound(line: string, n: nat, tp: TaggedPattern)
    requires NonEmptyPhrases(tp.pattern.phrases)
    ensures forall mk :: mk in PatternMarkers(line, n, tp) ==>
      mk.subtype == tp.subtype && mk.line == n && mk.text == Strip(line) && mk.severity == "high"
      && LowerStr(mk.matched) in tp.pattern.phrases && Searches(line, tp.pattern)
  {
    var ps := tp.pattern.phrases;
    var ms := FindIter(line, tp.pattern);
    FindIterInLine(line, tp.pattern);
    FindIterFromSound(LowerStr(line), ps, 0);
    MatchMarkersSound(line, n, tp.subtype, ms);
    forall mk | mk in PatternMarkers(line, n, tp)
      ensures LowerStr(mk.matched) in ps && Searches(line, tp.pattern)
    {
      assert MarkerOf(mk, line, n, tp.subtype, ms);
      var m :| m in ms && m.start + m.len <= |line| && mk.matched == line[m.start..m.start + m.len];
      var k :| 0 <= k < |ps| && |ps[k]| == m.len && OccursAt(LowerStr(line), ps[k], m.start);
      MatchSpellsPhrase(line, ps[k], m, mk.matched);
      assert LowerStr(mk.matched) == ps[k];
    }
  }

  /** A pattern that matches a line yields at least one marker for it. */
  lemma PatternMarkersComplete(line: string, n: nat, tp: TaggedPattern)
    requires NonEmptyPhrases(tp.pattern.phrases)
    requires Searches(line, tp.pattern)
    ensures exists mk :: mk in PatternMarkers(line, n, tp) && mk.subtype == tp.subtype && mk.line == n
  {
    FindIterIffSearches(line, tp.pattern);
    var ms := FindIter(line, tp.pattern);
    FindIterInLine(line, tp.pattern);
    var r := MatchMarkers(line, n, tp.subtype, ms);
    assert r[|r| - 1] in r;
  }

  /** The markers of a line: each names a pattern of the list whose subtype it carries. */
  lemma {:induction false} LinePhrasesSound(line: string, n: nat, tps: seq<TaggedPattern>)
    requires AllNonEmpty(tps)
    ensures forall mk :: mk in LinePhrases(line, n, tps) ==>
      mk.line == n && mk.text == Strip(line) && mk.severity == "high"
      && exists k :: 0 <= k < |tps| && mk.subtype == tps[k].subtype
                     && LowerStr(mk.matched) in tps[k].pattern.phrases && Searches(line, tps[k].pattern)
  {
    if tps != [] {
      var init := tps[..|tps| - 1];
      var last := tps[|tps| - 1];
      LinePhrasesSound(line, n, init);
      PatternMarkersSound(line, n, last);
      forall mk | mk in LinePhrases(line, n, tps)
        ensures exists k :: 0 <= k < |tps| && mk.subtype == tps[k].subtype
                            && LowerStr(mk.matched) in tps[k].pattern.phrases && Searches(line, tps[k].pattern)
      {
        if mk in LinePhrases(line, n, init) {
          var k :| 0 <= k < |init| && mk.subtype == init[k].subtype
                   && LowerStr(mk.matched) in init[k].pattern.phrases && Searches(line, init[k].pattern);
          assert tps[k] == init[k];
        } else {
          assert tps[|tps| - 1] == last;
        }
      }
    }
  }

  lemma {:induction false} LinePhrasesComplete(line: string, n: nat, tps: seq<TaggedPattern>, k: nat)
    requires AllNonEmpty(tps) && k < |tps| && Searches(line, tps[k].pattern)
    ensures exists mk :: mk in LinePhrases(line, n, tps) && mk.subtype == tps[k].subtype && mk.line == n
  {
    var init := tps[..|tps| - 1];
    if k < |init| {
      assert init[k] == tps[k];
      LinePhrasesComplete(line, n, init, k);
    } else {
      PatternMarkersComplete(line, n, tps[k]);
    }
  }

  /** Every marker names a line in range that is not a comment line, carries that line
      stripped and severity "high", and spells a phrase of a pattern with its subtype. */
  lemma {:induction false} PhrasesOfLinesSound(ls: seq<string>, tps: seq<TaggedPattern>)
    requires AllNonEmpty(tps)
    ensures forall mk :: mk in PhrasesOfLines(ls, tps) ==>
      1 <= mk.line <= |ls| && !IsCommentLine(ls[mk.line - 1])
      && mk.text == Strip(ls[mk.line - 1]) && mk.severity == "high"
      && exists k :: 0 <= k < |tps| && mk.subtype == tps[k].subtype
                     && LowerStr(mk.matched) in tps[k].pattern.phrases && Searches(ls[mk.line - 1], tps[k].pattern)
  {
    if ls != [] {
      var init := ls[..|ls| - 1];
      PhrasesOfLinesSound(init, tps);
      LinePhrasesSound(ls[|ls| - 1], |ls|, tps);
      forall mk | mk in PhrasesOfLines(init, tps)
        ensures ls[mk.line - 1] == init[mk.line - 1]
      {
      }
    }
  }

  /** Every non-comment line that a pattern matches yields a marker with that pattern's
      subtype and the line's number. */
  lemma {:induction false} PhrasesOfLinesComplete(ls: seq<string>, tps: seq<TaggedPattern>, n: nat, k: nat)
    requires AllNonEmpty(tps) && 1 <= n <= |ls| && k < |tps|
    requires !IsCommentLine(ls[n - 1]) && Searches(ls[n - 1], tps[k].pattern)
    ensures exists mk :: mk in PhrasesOfLines(ls, tps) && mk.subtype == tps[k].subtype && mk.line == n
  {
    var init := ls[..|ls| - 1];
    if n < |ls| {
      assert init[n - 1] == ls[n - 1];
      PhrasesOfLinesComplete(init, tps, n, k);
    } else {
      LinePhrasesComplete(ls[n - 1], n, tps, k);
    }
  }

  /** The matches of one pattern on line n, appended one by one. */
  method AppendMatches(line: string, n: nat, tp: TaggedPattern, markers: seq<PhraseMarker>)
    returns (r: seq<PhraseMarker>)
    requires NonEmptyPhrases(tp.pattern.phrases)
    ensures r == markers + PatternMarkers(line, n, tp)
  {
    FindIterInLine(line, tp.pattern);
    var ms := FindIter(line, tp.pattern);
    r := markers;
    var j := 0;
    while j < |ms|
      invariant 0 <= j <= |ms|
      invariant r == markers + MatchMarkers(line, n, tp.subtype, ms[..j])
    {
      var m := ms[j];
      assert ms[..j + 1][..j] == ms[..j];
      assert m in ms;
      AppendAssoc(markers, MatchMarkers(line, n, tp.subtype, ms[..j]),
        [PhraseMarker(tp.subtype, n, Strip(line), line[m.start..m.start + m.len], "high")]);
      r := r + [PhraseMarker(tp.subtype, n, Strip(line), line[m.start..m.start + m.len], "high")];
      j := j + 1;
    }
    assert ms[..j] == ms;
  }

  /** The pattern loop for line n. */
  method ScanPhrases(line: string, n: nat, tps: seq<TaggedPattern>, markers: seq<PhraseMarker>)
    returns (r: seq<PhraseMarker>)
    requires AllNonEmpty(tps)
    ensures r == markers + LinePhrases(line, n, tps)
  {
    r := markers;
    var k := 0;
    while k < |tps|
      invariant 0 <= k <= |tps|
      invariant r == markers + LinePhrases(line, n, tps[..k])
    {
      assert tps[..k + 1][..k] == tps[..k];
      AppendAssoc(markers, LinePhrases(line, n, tps[..k]), PatternMarkers(line, n, tps[k]));
      r := AppendMatches(line, n, tps[k], r);
      k := k + 1;
    }
    assert tps[..k] == tps;
  }

  /** The body of the line loop: comment lines are skipped. */
  method ScanLine(line: string, n: nat, tps: seq<TaggedPattern>, markers: seq<PhraseMarker>)
    returns (r: seq<PhraseMarker>)
    requires AllNonEmpty(tps)
    ensures r == markers + LineEntry(line, n, tps)
  {
    if IsCommentLine(line) {
      r := markers;
      assert markers + [] == markers;
    } else {
      r := ScanPhrases(line, n, tps, markers);
    }
  }

  /** The line loop of `detect_hallucination_phrases`. */
  method ScanLines(lines: seq<string>, tps: seq<TaggedPattern>) returns (markers: seq<PhraseMarker>)
    requires AllNonEmpty(tps)
    ensures markers == PhrasesOfLines(lines, tps)
  {
    markers := [];
    var i := 0;
    while i < |lines|
      invariant 0 <= i <= |lines|
      invariant markers == PhrasesOfLines(lines[..i], tps)
    {
      assert lines[..i + 1][..i] == lines[..i];
      markers := ScanLine(lines[i], i + 1, tps, markers);
      i := i + 1;
    }
    assert lines[..i] == lines;
  }

  /** `detect_hallucination_phrases`: every line but comment lines, every pattern, every
      match. */
  method DetectHallucinationPhrases(text: string) returns (markers: seq<PhraseMarker>)
    ensures markers == HallucinationPhrases(text)
  {
    PhrasePatternsNonEmpty();
    markers := ScanLines(Split(text, '\n'), PhrasePatterns);
  }

  /** `detect_hallucination_phrases` marks no comment line; every marker has severity
      "high", a line number in range, and the subtype of a pattern that the line matches. */
  lemma HallucinationPhrasesSound(text: string)
    ensures forall mk :: mk in HallucinationPhrases(text) ==>
      1 <= mk.line <= |Split(text, '\n')| && !IsCommentLine(Split(text, '\n')[mk.line - 1])
      && mk.severity == "high"
      && exists k :: 0 <= k < |PhrasePatterns| && mk.subtype == PhrasePatterns[k].subtype
                     && Searches(Split(text, '\n')[mk.line - 1], PhrasePatterns[k].pattern)
  {
    PhrasePatternsNonEmpty();
    PhrasesOfLinesSound(Split(text, '\n'), PhrasePatterns);
  }

  /** A marker is there when some pattern matches a line that is not a comment. */
  lemma PhrasesOfLinesSome(ls: seq<string>, tps: seq<TaggedPattern>, i: nat, k: nat)
    requires AllNonEmpty(tps) && i < |ls| && k < |tps|
    requires !IsCommentLine(ls[i]) && Searches(ls[i], tps[k].pattern)
    ensures PhrasesOfLines(ls, tps) != []
  {
    PhrasesOfLinesComplete(ls, tps, i + 1, k);
  }

  /** No pattern matches a line that is not a comment. */
  predicate NoPhraseLine(ls: seq<string>, tps: seq<TaggedPattern>) {
    forall i, k :: 0 <= i < |ls| && 0 <= k < |tps| && !IsCommentLine(ls[i])
      ==> !Searches(ls[i], tps[k].pattern)
  }

  /** A line with a marker is matched by some pattern of the list. */
  lemma {:induction false} LinePhrasesWitness(line: string, n: nat, tps: seq<TaggedPattern>)
    requires AllNonEmpty(tps) && LinePhrases(line, n, tps) != []
    ensures exists k :: 0 <= k < |tps| && Searches(line, tps[k].pattern)
  {
    var init := tps[..|tps| - 1];
    if LinePhrases(line, n, init) != [] {
      LinePhrasesWitness(line, n, init);
      var k :| 0 <= k < |init| && Searches(line, init[k].pattern);
      assert tps[k] == init[k];
    } else {
      var last := tps[|tps| - 1];
      PatternMarkersCount(line, n, last);
      FindIterIffSearches(line, last.pattern);
    }
  }

  /** A marker names a line that is not a comment and that some pattern matches. */
  lemma {:induction false} PhrasesOfLinesWitness(ls: seq<string>, tps: seq<TaggedPattern>)
    requires AllNonEmpty(tps) && PhrasesOfLines(ls, tps) != []
    ensures !NoPhraseLine(ls, tps)
  {
    var init := ls[..|ls| - 1];
    if PhrasesOfLines(init, tps) != [] {
      PhrasesOfLinesWitness(init, tps);
      var i, k :| 0 <= i < |init| && 0 <= k < |tps| && !IsCommentLine(init[i])
        && Searches(init[i], tps[k].pattern);
      assert ls[i] == init[i];
    } else {
      var last := ls[|ls| - 1];
      LinePhrasesWitness(last, |ls|, tps);
      var k :| 0 <= k < |tps| && Searches(last, tps[k].pattern);
      assert !IsCommentLine(ls[|ls| - 1]);
    }
  }

  /** No marker at all exactly when no pattern matches a line that is not a comment. */
  lemma PhrasesOfLinesEmptyIff(ls: seq<string>, tps: seq<TaggedPattern>)
    requires AllNonEmpty(tps)
    ensures PhrasesOfLines(ls, tps) == [] <==> NoPhraseLine(ls, tps)
  {
    if PhrasesOfLines(ls, tps) != [] {
      PhrasesOfLinesWitness(ls, tps);
    } else {
      forall i, k | 0 <= i < |ls| && 0 <= k < |tps| && !IsCommentLine(ls[i])
        ensures !Searches(ls[i], tps[k].pattern)
      {
        if Searches(ls[i], tps[k].pattern) {
          PhrasesOfLinesSome(ls, tps, i, k);
        }
      }
    }
  }

  /** `detect_hallucination_phrases` returns nothing exactly when no pattern matches any
      line that is not a comment. */
  lemma HallucinationPhrasesEmptyIff(text: string)
    ensures HallucinationPhrases(text) == [] <==> NoPhraseLine(Split(text, '\n'), PhrasePatterns)
  {
    PhrasePatternsNonEmpty();
    PhrasesOfLinesEmptyIff(Split(text, '\n'), PhrasePatterns);
  }

  // ---------------------------------------------------------------------------
  // Page and role annotations

  /** The fourteen roles the OpenRouter prompt defines. */
  const ValidRoles: set<string> := {
    "heading", "paragraph", "table", "list", "figure", "caption", "footnote", "equation",
    "code", "header", "footer", "page_number", "artifact", "watermark"
  }

  /** What `validate_semantic_annotations` returns; each issue is given by its "type". */
  datatype SemanticResult = SemanticResult(
    hasPageMarkers: bool,
    hasRoleAnnotations: bool,
    pageCount: nat,
    roleCount: nat,
    roleTypes: set<string>,
    issues: seq<string>)

  /** The page markers are numbered 1..n for some n >= 0 (no markers at all included). */
  predicate PagesSequential(text: string) {
    Sequential(PageNumbers(text))
  }

  /** `re.findall(r'<!-- role:(\w+)(?:\s+([^>]+))? -->', text)`: the role names. */
  function AnnotatedRoles(text: string): seq<string> {
    Roles(text, SpacedTail)
  }

  /** Some annotated role is not one of the fourteen. */
  predicate HasInvalidRole(roles: seq<string>) {
    exists x :: x in roles && x !in ValidRoles
  }

  /** The issues of `validate_semantic_annotations`, in the order they are raised: one
      about the page markers, then missing roles, then roles outside the whitelist. */
  function SemanticIssues(noPages: bool, outOfOrder: bool, noRoles: bool, invalid: bool): seq<string> {
    (if noPages then ["missing_page_markers"] else if outOfOrder then ["non_sequential_pages"] else [])
    + (if noRoles then ["missing_role_annotations"] else [])
    + (if invalid then ["invalid_role_types"] else [])
  }

  /** The result for the page numbers and role names found. */
  function SemanticFrom(pages: seq<nat>, roles: seq<string>): SemanticResult {
    SemanticResult(pages != [], roles != [], |pages|, |roles|, (set x | x in roles),
      SemanticIssues(pages == [], !Sequential(pages), roles == [], HasInvalidRole(roles)))
  }

  /** What `validate_semantic_annotations` finds in the text. */
  function SemanticOf(text: string): SemanticResult {
    SemanticFrom(PageNumbers(text), AnnotatedRoles(text))
  }

  /** Each issue is raised exactly on its condition, and there are no others. */
  lemma SemanticIssuesIff(pages: seq<nat>, roles: seq<string>)
    ensures var r := SemanticFrom(pages, roles);
      && ("missing_page_markers" in r.issues <==> pages == [])
      && ("non_sequential_pages" in r.issues <==> pages != [] && !Sequential(pages))
      && ("missing_role_annotations" in r.issues <==> roles == [])
      && ("invalid_role_types" in r.issues <==> HasInvalidRole(roles))
      && forall x :: x in r.issues ==> x in SemanticIssueKinds
  {
  }

  /** The semantic checks over the page numbers and role names found. */
  method CheckAnnotations(pageMarkers: seq<nat>, roleMatches: seq<string>) returns (r: SemanticResult)
    ensures r == SemanticFrom(pageMarkers, roleMatches)
  {
    var issues: seq<string> := [];
    var hasPageMarkers := false;
    var pageCount := 0;
    if pageMarkers != [] {
      hasPageMarkers := true;
      pageCount := |pageMarkers|;
      if pageMarkers != OneTo(|pageMarkers|) {
        issues := issues + ["non_sequential_pages"];
      }
    } else {
      issues := issues + ["missing_page_markers"];
    }
    var hasRoleAnnotations := false;
    var roleCount := 0;
    var roleTypes: set<string> := {};
    if roleMatches != [] {
      hasRoleAnnotations := true;
      roleCount := |roleMatches|;
      roleTypes := set x | x in roleMatches;
    } else {
      issues := issues + ["missing_role_annotations"];
    }
    var invalidRoles := roleTypes - ValidRoles;
    if invalidRoles != {} {
      issues := issues + ["invalid_role_types"];
    }
    r := SemanticResult(hasPageMarkers, hasRoleAnnotations, pageCount, roleCount, roleTypes, issues);
  }

  /** Page markers, then role annotations, then the role whitelist. */
  method ValidateSemanticAnnotations(text: string) returns (r: SemanticResult)
    ensures r == SemanticOf(text)
    ensures r.pageCount == |PageNumbers(text)|
    ensures r.hasPageMarkers <==> r.pageCount > 0
    ensures "missing_page_markers" in r.issues <==> PageNumbers(text) == []
    ensures "non_sequential_pages" in r.issues <==> PageNumbers(text) != [] && !PagesSequential(text)
    ensures r.roleCount == |AnnotatedRoles(text)|
    ensures r.hasRoleAnnotations <==> r.roleCount > 0
    ensures r.roleTypes == set x | x in AnnotatedRoles(text)
    ensures "missing_role_annotations" in r.issues <==> AnnotatedRoles(text) == []
    ensures "invalid_role_types" in r.issues <==> exists x :: x in AnnotatedRoles(text) && x !in ValidRoles
    ensures forall x :: x in r.issues ==> x in SemanticIssueKinds
  {
    r := CheckAnnotations(PageNumbers(text), AnnotatedRoles(text));
    SemanticIssuesIff(PageNumbers(text), AnnotatedRoles(text));
  }

  const SemanticIssueKinds: set<string> :=
    {"missing_page_markers", "non_sequential_pages", "missing_role_annotations", "invalid_role_types"}

  /** Headers, footers and page numbers are roles of their own, not invalid ones. */
  lemma LayoutRolesValid()
    ensures "header" in ValidRoles && "footer" in ValidRoles && "page_number" in ValidRoles
    ensures "title" !in ValidRoles
  {
  }

  // ---------------------------------------------------------------------------
  // Reading order

  datatype ReadingOrderResult = ReadingOrderResult(hasReadingOrder: bool, orderCount: nat,
                                                   issues: seq<string>)

  /** What `validate_reading_order` finds in the text. */
  function ReadingOrderOf(text: string): ReadingOrderResult {
    var order := ReadingOrderNumbers(text);
    ReadingOrderResult(order != [], |order|,
      if order != [] && !Sequential(order) then ["non_sequential_order"] else [])
  }

  /** No reading-order markers is no issue; otherwise they must run 1..n. */
  method ValidateReadingOrder(text: string) returns (r: ReadingOrderResult)
    ensures r == ReadingOrderOf(text)
    ensures r.orderCount == |ReadingOrderNumbers(text)|
    ensures r.hasReadingOrder <==> r.orderCount > 0
    ensures r.issues == [] || r.issues == ["non_sequential_order"]
    ensures r.issues != [] <==> ReadingOrderNumbers(text) != [] && !Sequential(ReadingOrderNumbers(text))
  {
    var issues: seq<string> := [];
    var hasReadingOrder := false;
    var orderCount := 0;
    var orderMarkers := ReadingOrderNumbers(text);
    if orderMarkers != [] {
      hasReadingOrder := true;
      orderCount := |orderMarkers|;
      if orderMarkers != OneTo(|orderMarkers|) {
        issues := issues + ["non_sequential_order"];
      }
    }
    r := ReadingOrderResult(hasReadingOrder, orderCount, issues);
  }

  // ---------------------------------------------------------------------------
  // Completeness

  /** What `estimate_completeness` returns; each issue is given by its "type". */
  datatype Completeness = Completeness(
    wordCount: nat,
    lineCount: nat,
    expectedMin: int,
    expectedMax: int,
    score: real,
    issues: seq<string>)

  /** The number of lines that are not blank once stripped. */
  function NonBlankLines(ls: seq<string>): (n: nat)
    ensures n <= |ls|
  {
    if ls == [] then 0
    else NonBlankLines(ls[..|ls| - 1]) + (if Strip(ls[|ls| - 1]) != [] then 1 else 0)
  }

  /** A positive expected word count gives the range [⌊0.8e⌋, ⌊1.5e⌋]; otherwise 150 to 600
      words per page. */
  function ExpectedRange(pageCount: int, expected: Option<int>): (int, int) {
    if expected.Some? && expected.value > 0 then (4 * expected.value / 5, 3 * expected.value / 2)
    else (pageCount * 150, pageCount * 600)
  }

  /** The estimate for a given word and line count. */
  function CompletenessOf(wordCount: nat, lineCount: nat, pageCount: int, expected: Option<int>): Completeness {
    var (lo, hi) := ExpectedRange(pageCount, expected);
    if wordCount < lo then
      Completeness(wordCount, lineCount, lo, hi,
        if lo > 0 then wordCount as real / lo as real else 0.0, ["possibly_incomplete"])
    else if wordCount > hi then
      Completeness(wordCount, lineCount, lo, hi, 1.0, ["possibly_excessive"])
    else
      Completeness(wordCount, lineCount, lo, hi, 1.0, [])
  }

  /** `estimate_completeness`: words and non-blank lines are counted once comments are
      removed. */
  function EstimateCompleteness(text: string, pageCount: int, expected: Option<int>): Completeness {
    var clean := StripComments(text);
    CompletenessOf(|Words(clean)|, NonBlankLines(Split(clean, '\n')), pageCount, expected)
  }

  /** The bounds are 80% and 150% of a positive expected count, rounded down. */
  lemma ExpectedRangeFloors(pageCount: int, e: int)
    requires e > 0
    ensures var (lo, hi) := ExpectedRange(pageCount, Some(e));
      5 * lo <= 4 * e < 5 * (lo + 1) && 2 * hi <= 3 * e < 2 * (hi + 1) && 0 <= lo <= hi
  {
  }

  /** The score is 1 unless the count falls short of the minimum, and then it is the
      fraction of the minimum reached, in [0, 1). */
  lemma CompletenessScore(wordCount: nat, lineCount: nat, pageCount: int, expected: Option<int>)
    ensures var c := CompletenessOf(wordCount, lineCount, pageCount, expected);
      && (c.score < 1.0 <==> wordCount < c.expectedMin)
      && (wordCount < c.expectedMin ==> c.score == wordCount as real / c.expectedMin as real)
      && 0.0 <= c.score <= 1.0
  {
    var c := CompletenessOf(wordCount, lineCount, pageCount, expected);
    if wordCount < c.expectedMin {
      QuotientBelowOne(wordCount as real, c.expectedMin as real);
    }
  }

  /** At most one issue: too few words, or else too many. */
  lemma CompletenessIssues(wordCount: nat, lineCount: nat, pageCount: int, expected: Option<int>)
    ensures var c := CompletenessOf(wordCount, lineCount, pageCount, expected);
      && |c.issues| <= 1
      && ("possibly_incomplete" in c.issues <==> wordCount < c.expectedMin)
      && ("possibly_excessive" in c.issues <==> c.expectedMin <= wordCount && wordCount > c.expectedMax)
  {
  }

  /** For one page and no ground truth: 300 words are fine, 50 too few, 700 too many. */
  lemma OnePageExamples(lineCount: nat)
    ensures CompletenessOf(300, lineCount, 1, None).issues == []
    ensures CompletenessOf(50, lineCount, 1, None).issues == ["possibly_incomplete"]
    ensures CompletenessOf(50, lineCount, 1, None).score == 1.0 / 3.0
    ensures CompletenessOf(700, lineCount, 1, None).issues == ["possibly_excessive"]
  {
  }

  /** Words inside a comment are not counted. */
  lemma CommentWordsIgnored(a: string, c: string, b: string, pageCount: int, expected: Option<int>)
    requires '<' !in a && !Contains(c, CommentClose)
    ensures EstimateCompleteness(a + CommentOpen + c + CommentClose + b, pageCount, expected).wordCount
      == |Words(a + StripComments(b))|
  {
    CommentRemoved(a, c, b);
  }

  // ---------------------------------------------------------------------------
  // The combined report

  datatype OpenRouterMetrics = OpenRouterMetrics(
    base: Metrics,
    pageMarkers: nat,
    roleAnnotations: nat,
    completenessScore: real)

  datatype OpenRouterReport = OpenRouterReport(
    qualityScore: real,
    baseQualityScore: real,
    hallucinationCount: nat,
    hallucinations: seq<PhraseMarker>,
    semantic: SemanticResult,
    readingOrder: ReadingOrderResult,
    completeness: Completeness,
    syntaxValid: bool,
    schemaCompliant: bool,
    issues: seq<string>,
    warnings: seq<Finding>,
    metrics: OpenRouterMetrics)

  /** n entries of type "hallucination". */
  function HallucinationKinds(n: nat): seq<string>
  {
    seq(n, i => "hallucination")
  }

  /** 0.1 per hallucination, 0.15 each for missing page markers and missing roles, and 0.2
      of the missing completeness. */
  function Penalty(hallucinations: nat, hasPages: bool, hasRoles: bool, completeness: real): real {
    (if hallucinations > 0 then hallucinations as real * 0.1 else 0.0)
    + (if hasPages then 0.0 else 0.15)
    + (if hasRoles then 0.0 else 0.15)
    + (1.0 - completeness) * 0.2
  }

  /** With a completeness score at most 1, the penalty is at least 0.1 per hallucination,
      so never negative. */
  lemma PenaltyBounds(hallucinations: nat, hasPages: bool, hasRoles: bool, completeness: real)
    requires completeness <= 1.0
    ensures Penalty(hallucinations, hasPages, hasRoles, completeness) >= hallucinations as real * 0.1 >= 0.0
  {
  }

  /** The adjusted score lies between 0 and the base score, and falls 0.1 per hallucination
      while it stays above 0. */
  lemma AdjustedScoreBounds(base: real, hallucinations: nat, hasPages: bool, hasRoles: bool, completeness: real)
    requires 0.0 <= base && completeness <= 1.0
    ensures var q := Max0(base - Penalty(hallucinations, hasPages, hasRoles, completeness));
      0.0 <= q <= base && q <= Max0(base - hallucinations as real * 0.1)
  {
    PenaltyBounds(hallucinations, hasPages, hasRoles, completeness);
  }

  /** The penalty accumulator of `validate_openrouter_output`, then the clamped score. */
  method AdjustScore(base: real, hallucinations: nat, hasPages: bool, hasRoles: bool, completeness: real)
    returns (score: real)
    ensures score == Max0(base - Penalty(hallucinations, hasPages, hasRoles, completeness))
  {
    var penalties := 0.0;
    if hallucinations > 0 {
      penalties := penalties + hallucinations as real * 0.1;
    }
    if !hasPages {
      penalties := penalties + 0.15;
    }
    if !hasRoles {
      penalties := penalties + 0.15;
    }
    penalties := penalties + (1.0 - completeness) * 0.2;
    score := if base - penalties > 0.0 then base - penalties else 0.0;
  }

  /** The method name `validate_openrouter_output` passes on when none is given. */
  const DefaultOriginalMethod: string := "OpenRouter"

  /** The default method name earns the highest method score, 20. */
  lemma DefaultMethodScore()
    ensures MethodPoints(DefaultOriginalMethod) == 20
  {
    StartsWithAppend(DefaultOriginalMethod, []);
    assert DefaultOriginalMethod + [] == DefaultOriginalMethod;
    ContainsAt(DefaultOriginalMethod, MethodTable[0].0, 0);
  }

  /** The OpenRouter-specific checks `validate_openrouter_output` runs first. */
  method RunChecks(text: string, pageCount: int, expected: Option<int>)
    returns (hallucinations: seq<PhraseMarker>, semantic: SemanticResult,
             readingOrder: ReadingOrderResult, completeness: Completeness)
    ensures hallucinations == HallucinationPhrases(text)
    ensures semantic == SemanticOf(text) && readingOrder == ReadingOrderOf(text)
    ensures semantic.hasPageMarkers <==> PageNumbers(text) != []
    ensures semantic.hasRoleAnnotations <==> AnnotatedRoles(text) != []
    ensures semantic.pageCount == |PageNumbers(text)| && semantic.roleCount == |AnnotatedRoles(text)|
    ensures completeness == EstimateCompleteness(text, pageCount, expected)
    ensures completeness.score <= 1.0
  {
    hallucinations := DetectHallucinationPhrases(text);
    semantic := ValidateSemanticAnnotations(text);
    readingOrder := ValidateReadingOrder(text);
    completeness := EstimateCompleteness(text, pageCount, expected);
    CompletenessScore(completeness.wordCount, completeness.lineCount, pageCount, expected);
  }

  /** The report `validate_openrouter_output` assembles from the checks and the base
      report. */
  method Assemble(hallucinations: seq<PhraseMarker>, semantic: SemanticResult,
                  readingOrder: ReadingOrderResult, completeness: Completeness, base: Report)
    returns (r: OpenRouterReport)
    requires 0.0 <= base.qualityScore && completeness.score <= 1.0
    ensures r.hallucinations == hallucinations && r.hallucinationCount == |hallucinations|
    ensures r.semantic == semantic && r.readingOrder == readingOrder && r.completeness == completeness
    ensures r.baseQualityScore == base.qualityScore
    ensures r.qualityScore == Max0(base.qualityScore - Penalty(|hallucinations|,
      semantic.hasPageMarkers, semantic.hasRoleAnnotations, completeness.score))
    ensures 0.0 <= r.qualityScore <= base.qualityScore
    ensures r.issues == HallucinationKinds(|hallucinations|) + semantic.issues
      + readingOrder.issues + completeness.issues + Kinds(base.issues)
    ensures r.syntaxValid == base.syntaxValid && r.schemaCompliant == base.schemaCompliant
    ensures r.warnings == base.warnings
    ensures r.metrics == OpenRouterMetrics(base.metrics, semantic.pageCount, semantic.roleCount,
      completeness.score)
  {
    AdjustedScoreBounds(base.qualityScore, |hallucinations|, semantic.hasPageMarkers,
      semantic.hasRoleAnnotations, completeness.score);
    var enhanced := AdjustScore(base.qualityScore, |hallucinations|, semantic.hasPageMarkers,
      semantic.hasRoleAnnotations, completeness.score);
    var allIssues := HallucinationKinds(|hallucinations|) + semantic.issues + readingOrder.issues
      + completeness.issues + Kinds(base.issues);
    r := OpenRouterReport(enhanced, base.qualityScore, |hallucinations|, hallucinations, semantic,
      readingOrder, completeness, base.syntaxValid, base.schemaCompliant, allIssues, base.warnings,
      OpenRouterMetrics(base.metrics, semantic.pageCount, semantic.roleCount, completeness.score));
  }

  /** `validate_openrouter_output`: the four checks, the base validator (without a
      confidence), and the base score less the penalties, never below 0. */
  method ValidateOpenRouterOutput(text: string, pageCount: int, originalMethod: string,
                                  expected: Option<int>) returns (r: OpenRouterReport)
    ensures r.hallucinations == HallucinationPhrases(text)
    ensures r.hallucinationCount == |r.hallucinations|
    ensures r.semantic == SemanticOf(text) && r.readingOrder == ReadingOrderOf(text)
    ensures r.semantic.hasPageMarkers <==> PageNumbers(text) != []
    ensures r.semantic.hasRoleAnnotations <==> AnnotatedRoles(text) != []
    ensures r.completeness == EstimateCompleteness(text, pageCount, expected)
    ensures r.baseQualityScore
      == QualityScore(ScorePoints(text, originalMethod, MissingCount(ReportWarnings(text, []))), None)
    ensures r.qualityScore == Max0(r.baseQualityScore - Penalty(r.hallucinationCount,
      r.semantic.hasPageMarkers, r.semantic.hasRoleAnnotations, r.completeness.score))
    ensures 0.0 <= r.qualityScore <= r.baseQualityScore <= 1.0
    ensures r.issues == HallucinationKinds(r.hallucinationCount) + r.semantic.issues
      + r.readingOrder.issues + r.completeness.issues
      + Kinds(SyntaxIssues(text) + SchemaIssues(text))
    ensures r.warnings == ReportWarnings(text, [])
    ensures r.syntaxValid == (SyntaxIssues(text) == [])
    ensures r.schemaCompliant == SchemaCompliant(text)
    ensures r.metrics.base == Metrics(|Words(text)|, |Split(text, '\n')|, None)
    ensures r.metrics.pageMarkers == r.semantic.pageCount == |PageNumbers(text)|
    ensures r.metrics.roleAnnotations == r.semantic.roleCount == |AnnotatedRoles(text)|
    ensures r.metrics.completenessScore == r.completeness.score
  {
    var hallucinations, semantic, readingOrder, completeness := RunChecks(text, pageCount, expected);
    var base := BaseReport(text, originalMethod);
    r := Assemble(hallucinations, semantic, readingOrder, completeness, base);
  }
}
