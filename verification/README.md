# DocFlow cleaning, validation and frontmatter — a Dafny model

DocFlow turns PDFs and images into Markdown intended for retrieval-augmented generation.
This project models the parts of it that work on text alone, and proves what they promise:

- **Text cleaning** (`cleaner.py`):
  - the hyphen-break repair;
  - header and footer removal across pages;
  - paragraph defragmentation.
- **The base validator** (`validator.py`): class `MarkdownValidator` with its `issues` and `warnings` lists. It covers:
  - the syntax check (link targets, code-fence parity, bracket balance);
  - the frontmatter/schema check;
  - the hallucination-phrase scan;
  - the 100-point quality score and the validation report.
- **The OpenRouter output validator** (`openrouter_validator.py`):
  - hallucination phrases;
  - page and role annotations;
  - reading order;
  - completeness;
  - the penalised score.
- **The RapidOCR output validator** (`rapidocr_validator.py`):
  - layout markers and the column estimate;
  - the role whitelist and the role distribution;
  - confidence and uncertainty markers;
  - completeness;
  - the penalised score.
- **Metadata formatting** (`metadata_extractor.py`):
  - the PDF date parser (the `D:YYYYMMDDHHmmSS` date form of section 7.9.4 of ISO 32000-1);
  - the YAML frontmatter emitter, and the function that prepends its output to a document.

Layout of the project:

- **`wrappers.dfy`** (module `Wrappers`): `Option`.
- **`text.dfy`** (module `Text`): the Python string operations the sources use, as `seq<char>` functions with their laws. These are `strip`, `split(c)`, `split()` (as `Words`), `'\n'.join`, `find`, `startswith`, `endswith`, `in` and `count`.
- **`phrases.dfy`** (module `Phrases`): `re.search` and `re.finditer` for patterns that are alternations of literal phrases, matched ignoring ASCII case.
- **`markers.dfy`** (module `Markers`): hand-written scanners for the fixed regular expressions. These are:
  - page and reading-order markers;
  - role annotations, in three tail forms;
  - confidence markers and `[uncertain: …]`;
  - comment removal;
  - Markdown links.
- **`cleaner.dfy`** (module `Cleaner`): `cleaner.py`.
- **`validator.dfy`** (module `Validator`): `validator.py`, with class `MarkdownValidator`.
- **`openrouter.dfy`** (module `OpenRouter`): `openrouter_validator.py`.
- **`rapidocr.dfy`** (module `RapidOcr`): `rapidocr_validator.py`.
- **`metadata.dfy`** (module `Metadata`): `parse_pdf_date`, `format_yaml_frontmatter` and `add_yaml_frontmatter`.
- **`frontmatter_schema.dfy`** (module `FrontmatterSchema`): how the frontmatter emitter and the schema check relate to each other.

How the model takes the source's form:

- **Imperative code stays imperative.** Loops that append to lists become methods with `while` loops. Each method is proved equal to a recursive specification function, and the properties are proved as lemmas about that function. This covers:
  - the header/footer counter;
  - the `defragment_text` accumulator;
  - the syntax line loop;
  - the phrase scans;
  - the role-distribution loop;
  - the frontmatter line list.
- **`MarkdownValidator` is a class.** Its `issues` and `warnings` fields are reassigned by its methods. The contracts show that:
  - only `validate_syntax` resets `issues`;
  - `warnings` only grows.
- **Scores are exact.** Scores and percentages are exact `real`s. `int(x * 0.8)` and `int(x * 1.5)` are floors.

Where DocFlow's design description and its code differ, the model follows the code:

- **Header and footer removal.** The design describes repeating texts as tagged and never deleted. `detect_and_remove_headers_footers` deletes them from every page, and so does `Cleaner.DetectAndRemoveHeadersFooters`.
- **Hyphen-break merge.** The design says a continuation must start with a lower-case letter, so that "Mac-⏎Book" stays apart. The code's pattern `[a-zA-Z]+` accepts either case, and `Cleaner.MergeJoinsWords` proves that such a break is joined.
- **Repeater threshold.** The design calls a text a repeater when its frequency exceeds the threshold. The code tests `count / total_pages >= threshold`, and the model uses `>=`.

## Model

| member | source | states |
|---|---|---|
| Cleaner.MergeHyphenatedWords | cleaner.py:5-13 | The substitution never lengthens the text |
| Cleaner.BreakFrom | cleaner.py:12 | A match found has the regex's shape: a hyphen, then only whitespace up to the continuation, then the continuation ends within the text |
| Cleaner.MergeUnchangedIff | cleaner.py:12-13 | The text comes back unchanged exactly when it holds no letters–hyphen–whitespace-with-newline–letters break |
| Cleaner.MergeWithoutBreak | cleaner.py:12-13 | Without a break from position i onward, the rest of the text is copied verbatim |
| Cleaner.MergeShortensBreak | cleaner.py:12-13 | With a break, the result is strictly shorter |
| Cleaner.MergeShortensBreakAt | cleaner.py:12-13 | The scan cannot pass a given break without merging it, so what follows any scan position holding a break gets shorter |
| Cleaner.MergeStepLength | cleaner.py:12-13 | One step of the substitution copies a non-letter or a word that ends no break, and a break loses at least its hyphen |
| Cleaner.MergeWithoutHyphen | cleaner.py:12-13 | A text without any hyphen is returned as it is |
| Cleaner.MergeKeepsVisible | cleaner.py:12-13 | Only hyphens and whitespace are deleted: every other character survives, in its order |
| Cleaner.MergeJoinsWords | cleaner.py:8-13 | `a + "-" + gap + b`, with letter runs a and b and a whitespace gap holding a newline, becomes `a + b`. Upper-case continuations are joined too (the "bro- \n ken" case) |
| Cleaner.MergeChainFirst | cleaner.py:12-13 | In `x-⏎y-⏎z`, one pass joins only x and y, because matches do not overlap |
| Cleaner.MergeChainSecond | cleaner.py:12-13 | A second pass joins the rest |
| Cleaner.MergeIsNotIdempotent | cleaner.py:12-13 | One pass is not a fixpoint: "a-⏎b-⏎c" gives "ab-⏎c", and that gives "abc" |
| Cleaner.DetectAndRemoveHeadersFooters | cleaner.py:15-69 | Same number of pages. Each page is its kept elements, decided across all pages. Fewer than three pages come back unchanged |
| Cleaner.CountCandidates | cleaner.py:43-51 | The Counter holds, for every stripped text longer than three characters, its number of text elements on all pages, and holds no zero entries |
| Cleaner.RemoveRepeaters | cleaner.py:59-67 | The new page is the old page without the text elements whose stripped content repeats |
| Cleaner.KeptAllWhenFewPages | cleaner.py:28-29 | With fewer than three pages nothing is removed from any page |
| Cleaner.KeptIsSubsequence | cleaner.py:59-67 | What is kept is a subsequence of the page, so the kept elements are unmodified and in order |
| Cleaner.KeptIff | cleaner.py:56-66 | An element is kept exactly when it was on the page and is not a repeating text element. The rule is the same on every page |
| Cleaner.DefaultThresholdShare | cleaner.py:15-56 | Under the default threshold 0.6, a text is a header or footer exactly when it is counted on at least three pages in five |
| Cleaner.ShortOrNonTextKept | cleaner.py:48-51 | Non-text elements, and texts of at most three stripped characters, are never removed |
| Cleaner.HeaderOnEveryPageRemoved | cleaner.py:46-65 | A text standing on every page (of three or more) is removed from every page, for any threshold up to 1 |
| Cleaner.Paragraphs | cleaner.py:80-101 | Never more paragraphs than lines. The first output line is empty exactly when the first line is |
| Cleaner.StripAll | cleaner.py:81 | One stripped line per input line |
| Cleaner.ParagraphsSnoc | cleaner.py:89-98 | One more line either extends the last paragraph with a space or starts a new one, according to the terminal-punctuation rule |
| Cleaner.ParagraphsCons | cleaner.py:89-98 | A line in front either joins the first paragraph with a space or starts a paragraph of its own |
| Cleaner.ParagraphsFeed | cleaner.py:80-98 | The loop's four cases agree with the specification: blank line, first line, line after a sentence end, line joined with a space |
| Cleaner.MergeLines | cleaner.py:76-101 | The accumulator loop, with the final flush, produces the paragraphs of the stripped lines |
| Cleaner.FeedLine | cleaner.py:80-98 | One loop step keeps the loop invariant relating `merged` and `current_line` to the lines read so far |
| Cleaner.DefragmentText | cleaner.py:71-103 | Returns the joined paragraphs of the stripped lines, and the whitespace-separated word sequence of the text is unchanged |
| Cleaner.DefragmentKeepsWords | cleaner.py:76-103 | Splitting, stripping, joining into paragraphs and joining with newlines keeps `text.split()` |
| Cleaner.ParagraphsKeepWords | cleaner.py:89-98 | Joining lines into paragraphs keeps every word, in order |
| Cleaner.ParagraphsSplitAt | cleaner.py:93-95 | A line ending in `.`, `?`, `!` or `:` is never joined to the next: the paragraphs split there |
| Cleaner.ParagraphsBlankCount | cleaner.py:82-87 | Each blank input line gives exactly one empty output line |
| Cleaner.ParagraphsStripped | cleaner.py:81-98 | Every output line built from stripped lines is itself stripped |
| Cleaner.DefragmentJoinsSentence | cleaner.py:96-98 | "This is a sentence" and "that was broken." become one line joined by a space |
| Cleaner.DefragmentListItems | cleaner.py:93-98 | A line ending in ':' stays on its own, and the following items without end punctuation are joined |
| Validator.MarkdownValidator.constructor | validator.py:15-17 | Both lists start empty |
| Validator.MarkdownValidator.ValidateSyntax | validator.py:19-84 | `issues` is reset and then holds exactly the syntax issues. `warnings` gains the bracket warnings. The result is True exactly when no issue was recorded |
| Validator.MarkdownValidator.CheckLine | validator.py:35-72 | One line appends its issues and warnings, and keeps `valid` equal to "no issue yet" |
| Validator.LineIssuesAreEmptyLinks | validator.py:41-52 | Every line issue is an `empty_link`: the `malformed_table` branch is unreachable, because two pipes give at least three parts |
| Validator.EmptyLinkIff | validator.py:63-72 | There is an `empty_link` issue with line n and text t exactly when line n (1-based) holds the link `[t]()` |
| Validator.UnclosedFenceIff | validator.py:74-82 | There is an `unclosed_code_block` issue exactly when the number of ``` is odd |
| Validator.WarningsOfLinesIff | validator.py:54-60 | There is an `unmatched_brackets` warning for line n exactly when that line's counts of `[` and `]` differ |
| Validator.MarkdownValidator.ValidateSchemaCompliance | validator.py:86-138 | Returns whether the stripped text opens with `---` and a `---` follows at index 3 or later. It appends the `malformed_frontmatter` issue and the warnings, and `issues` is otherwise untouched |
| Validator.MarkdownValidator.CheckFields | validator.py:121-128 | The field loop appends one warning per missing required field, and only to `warnings` |
| Validator.FieldWarningsIff | validator.py:122-128 | There is a missing-field warning for f exactly when f is required and absent from the frontmatter |
| Validator.MissingFieldIff | validator.py:104-128 | A required field is reported missing exactly when the frontmatter is well formed and the field is absent between the opening and the first later `---` |
| Validator.MissingAnnotationsIff | validator.py:130-136 | The annotation warning is raised exactly when no `<!-- role:\w+ -->` occurs anywhere |
| Validator.MarkdownValidator.DetectHallucinationMarkers | validator.py:140-175 | Returns the markers of every (line, matching pattern) pair, in line then pattern order |
| Validator.ScanLine | validator.py:166-173 | The pattern loop for one line gives that line's markers |
| Validator.LineMarkersSound | validator.py:166-173 | Each marker of a line carries that line's number, its stripped text and a pattern that matches it |
| Validator.LineMarkersComplete | validator.py:166-173 | Each pattern that matches a line gives a marker for it |
| Validator.MarkersOfLinesSound | validator.py:163-175 | Every marker has a line number in 1..line count, and some listed pattern matches that line |
| Validator.MarkersOfLinesComplete | validator.py:163-175 | Every (line, matching pattern) pair gives a marker, comment lines included |
| Validator.SyntaxPoints | validator.py:200-206 | The syntax component is at most 30 |
| Validator.SchemaPoints | validator.py:208-214 | The schema component is at most 20 |
| Validator.MissingCount | validator.py:214 | The number of warnings whose type starts with "missing" is at most the number of warnings |
| Validator.RichnessPoints | validator.py:216-227 | The richness component is at most 20 |
| Validator.MethodPointsFirstKey | validator.py:240-245 | The first table key, in table order, contained in the method name decides the points. No key gives the default of 10 |
| Validator.MethodPointsRange | validator.py:230-245 | The method component lies between the smallest and the largest table value |
| Validator.OpenRouterAboveFallback | validator.py:230-245 | A method name containing "OpenRouter" scores 20. A name matching only "Fallback" scores 8, which is less |
| Validator.UnnamedMethodPoints | validator.py:303 | With the default empty method name no key matches, so the method component is the default of 10 |
| Validator.MethodScore | validator.py:240-245 | The `for … else` loop returns the table's points, between 8 and 20 |
| Validator.ScorePoints | validator.py:198-245 | The integer part of the score is at most 90 |
| Validator.ScorePointsSum | validator.py:198-254 | The score is the sum of the four components as the method accumulates them |
| Validator.QualityScoreInRange | validator.py:247-254 | With the confidence absent or in [0, 1], the score lies in [0, 1] |
| Validator.AddUpScore | validator.py:198-254 | The step-by-step accumulation equals the quality score of the text |
| Validator.MarkdownValidator.CalculateQualityScore | validator.py:177-254 | `issues` ends as the syntax issues followed by the schema issues. `warnings` gains both checks' warnings. The score counts every "missing…" warning accumulated so far |
| Validator.MarkdownValidator.GetValidationReport | validator.py:256-299 | The report equals the specification report. The checks run twice, so the warnings of both runs are in it, and it returns the object's final lists |
| Validator.ValidateMarkdown | validator.py:302-317 | A fresh validator's report: warnings start empty |
| Validator.ReportScoreInRange | validator.py:247-288 | The report's quality score lies in [0, 1] when the confidence does or is absent |
| Validator.MissingCountDoubled | validator.py:201-214 | In a report, the warnings are those of one syntax-and-schema run, twice. The score's schema part counts each "missing…" warning twice |
| Validator.BaseReport | validator.py:302-317 | `validate_markdown(text, method)` without confidence: a score in [0, 1], the base issues and warnings, syntax validity exactly when there is no syntax issue, schema compliance as the text determines it, and the word and line counts of the text with no average confidence |
| Phrases.PhraseAt | openrouter_validator.py:23-31 | The alternative the regex takes at one position: the first listed phrase that occurs there, or none |
| Phrases.FindIterFromSound | openrouter_validator.py:43 | Every `finditer` match lies in the line and spells, ignoring case, one of the pattern's phrases |
| Phrases.FindIterFromEmpty | openrouter_validator.py:43 | `finditer` finds nothing exactly when no phrase occurs anywhere from the start position |
| Phrases.FindIterIffSearches | openrouter_validator.py:43 | `finditer` finds something exactly when `search` does |
| OpenRouter.DetectHallucinationPhrases | openrouter_validator.py:13-54 | The nested loops return the specification's marker list |
| OpenRouter.ScanLines | openrouter_validator.py:37-52 | The line loop gives the markers of all lines |
| OpenRouter.ScanLine | openrouter_validator.py:39-52 | A line whose stripped text starts with `<!--` adds nothing; otherwise it adds its pattern markers |
| OpenRouter.ScanPhrases | openrouter_validator.py:42-52 | The pattern loop gives a line's markers |
| OpenRouter.AppendMatches | openrouter_validator.py:43-52 | The match loop appends one marker per match |
| OpenRouter.MatchMarkers | openrouter_validator.py:44-52 | One marker per match |
| OpenRouter.PatternMarkersSound | openrouter_validator.py:42-52 | Each marker of a pattern has its subtype, the line number, the stripped line, severity "high", and a matched text that is one of the pattern's phrases |
| OpenRouter.PatternMarkersComplete | openrouter_validator.py:43-52 | A pattern that matches a line gives a marker for it |
| OpenRouter.LinePhrasesSound | openrouter_validator.py:42-52 | Each marker of a line comes from a listed pattern that matches the line, with that pattern's subtype |
| OpenRouter.LinePhrasesComplete | openrouter_validator.py:42-52 | Every pattern matching a line gives a marker with its subtype |
| OpenRouter.PhrasesOfLinesSound | openrouter_validator.py:37-52 | Every marker has a 1-based line number, names a line that is not a comment, and has severity "high" and its pattern's subtype |
| OpenRouter.PhrasesOfLinesComplete | openrouter_validator.py:37-52 | Every non-comment line and matching pattern give a marker |
| OpenRouter.PhrasesOfLinesEmptyIff | openrouter_validator.py:37-52 | No marker at all exactly when no pattern matches a non-comment line |
| OpenRouter.HallucinationPhrasesSound | openrouter_validator.py:13-54 | For the fixed pattern table: every marker names a non-comment line in range, has severity "high", and has the subtype of a pattern matching that line |
| OpenRouter.HallucinationPhrasesEmptyIff | openrouter_validator.py:13-54 | The list is empty exactly when no pattern of the table matches a non-comment line of the text |
| OpenRouter.SemanticIssuesIff | openrouter_validator.py:67-121 | In the issue list built from the page numbers and role names, `missing_page_markers` appears exactly without pages, `non_sequential_pages` exactly when pages are not 1..n, `missing_role_annotations` exactly without roles, and `invalid_role_types` exactly when a role is outside the whitelist. No other kind appears |
| OpenRouter.CheckAnnotations | openrouter_validator.py:67-123 | From the page numbers and role names found, the method builds exactly their semantic result. The counts, the role set and the issues appear in the order they are raised: the page issue, then missing roles, then invalid roles |
| OpenRouter.ValidateSemanticAnnotations | openrouter_validator.py:57-123 | The result is exactly `SemanticOf(text)`, the semantic result of the page numbers and role names the text holds. `page_count` is the number of page markers. `missing_page_markers` exactly when there are none; `non_sequential_pages` exactly when they exist and are not 1..n. `role_count` and `role_types` are the number and the set of roles. `missing_role_annotations` exactly when there is no role; `invalid_role_types` exactly when a role is outside the whitelist. No other issue |
| OpenRouter.LayoutRolesValid | openrouter_validator.py:110-114 | header, footer and page_number are valid roles; title is not |
| OpenRouter.ValidateReadingOrder | openrouter_validator.py:126-157 | The result is exactly `ReadingOrderOf(text)`. `order_count` is the number of markers. There is at most one issue, `non_sequential_order`, raised exactly when markers exist and are not 1..n |
| OpenRouter.NonBlankLines | openrouter_validator.py:176 | The line count never exceeds the number of lines |
| OpenRouter.ExpectedRangeFloors | openrouter_validator.py:179-184 | For a positive ground truth e, the bounds are ⌊0.8e⌋ and ⌊1.5e⌋ |
| OpenRouter.CompletenessScore | openrouter_validator.py:190-199 | The score is in [0, 1]. It is below 1 exactly when the word count is below the minimum, and then it is count / minimum |
| OpenRouter.CompletenessIssues | openrouter_validator.py:193-205 | At most one issue: `possibly_incomplete` exactly below the minimum, otherwise `possibly_excessive` exactly above the maximum |
| OpenRouter.OnePageExamples | openrouter_validator.py:186-205 | For one page: 300 words give no issue, 50 are incomplete with score 1/3, 700 are excessive |
| OpenRouter.CommentWordsIgnored | openrouter_validator.py:173-175 | Words inside a `<!-- … -->` comment are not counted |
| OpenRouter.PenaltyBounds | openrouter_validator.py:242-255 | The penalty is at least 0.1 per hallucination, and not negative |
| OpenRouter.AdjustedScoreBounds | openrouter_validator.py:242-258 | The adjusted score lies in [0, base] and is at most base minus 0.1 per hallucination (clamped at 0) |
| OpenRouter.AdjustScore | openrouter_validator.py:242-258 | The penalty accumulator and the clamp give `max(0, base − penalty)` |
| OpenRouter.RunChecks | openrouter_validator.py:233-236 | The hallucination markers, the semantic result and the reading-order result are exactly those the text determines (`HallucinationPhrases`, `SemanticOf`, `ReadingOrderOf`). So are the page and role counts and presence flags, and the completeness estimate, whose score is at most 1 |
| OpenRouter.Assemble | openrouter_validator.py:258-287 | The report fields. The score is the clamped penalised base and lies in [0, base]. The issues are concatenated in source order and the metrics are merged |
| OpenRouter.ValidateOpenRouterOutput | openrouter_validator.py:216-287 | The hallucinations, the semantic and reading-order results and the completeness estimate are those the text determines. The base score is that of `validate_markdown(text, method)`. The final score is `max(0, base − penalties)` and lies in [0, base] ⊆ [0, 1]. The issue list is the hallucination, semantic, reading-order, completeness and base issue types, in that order, each list fixed by the text. The warnings are the base warnings. Syntax validity, schema compliance and the base word and line counts are those of `validate_markdown(text, method)`, with no average confidence. The page-marker and role-annotation metrics are the numbers of page markers and of role annotations in the text |
| OpenRouter.DefaultMethodScore | openrouter_validator.py:218 | The default method name "OpenRouter" earns the highest method score, 20, in the base validator |
| Markers.DigitGroups | openrouter_validator.py:77 | Every group `findall` returns for `<!-- page:(\d+) -->` is a non-empty run of digits |
| Markers.DigitGroupsEmptyIff | openrouter_validator.py:77-78 | `findall` finds nothing exactly when no marker starts anywhere in the text |
| Markers.Ints | openrouter_validator.py:83 | `int` of each group, element by element |
| Markers.SequentialSteps | openrouter_validator.py:84 | Numbers equal `list(range(1, n + 1))` exactly when they are empty, or start at 1 and each is one more than the one before. A gap, a repeat or a swap breaks the order |
| Markers.SequentialExamples | openrouter_validator.py:151 | 1, 2, 3 is in order; 1, 3 and 2, 1 are not |
| Markers.WordRunSpec | openrouter_validator.py:96 | The `\w+` run is all word characters and maximal |
| Markers.RoleEnd | openrouter_validator.py:96 | The end of an annotation is -1 or lies after the role name and the closing ` -->` |
| Markers.Roles | rapidocr_validator.py:95-96 | Every role found is a non-empty run of word characters |
| Markers.RolesAreNames | rapidocr_validator.py:95-96 | The scan from any position yields only role names |
| Markers.RolesEmptyIff | openrouter_validator.py:96-99 | No role is found exactly when no annotation of the given shape starts anywhere |
| Markers.Fraction | rapidocr_validator.py:147-148 | `float("0." + digits)` lies in [0, 1) |
| Markers.Confidences | rapidocr_validator.py:147-148 | Every confidence read from a marker lies in [0, 1) |
| Markers.BracketOnLine | rapidocr_validator.py:151 | The lazy `(.*?)\]` closes at the first `]` on the same line, or does not close |
| Markers.UncertainFrom | rapidocr_validator.py:151-153 | Each `[uncertain: …]` match takes at least 13 characters |
| Markers.UncertainZeroIff | rapidocr_validator.py:151-153 | The count is 0 exactly when no closed `[uncertain: …]` starts anywhere |
| Markers.StripComments | openrouter_validator.py:173 | Removing comments never lengthens the text |
| Markers.StripWithoutComments | rapidocr_validator.py:208 | A text in which no comment opens is left as it is |
| Markers.StripPlainPrefix | openrouter_validator.py:173 | Text without `<` before the rest is kept as it is |
| Markers.StripPlainStep | openrouter_validator.py:173 | A first character other than `<` cannot open a comment and is kept |
| Markers.CommentRemoved | openrouter_validator.py:173 | `a<!--c-->b` becomes a followed by the stripped b, when c holds no `-->` |
| Markers.EmptyLinkFound | validator.py:63-64 | `[t]()` at the start of a line is found as a link with text t and an empty target |
| RapidOcr.IssueKindsMember | rapidocr_validator.py:292-298 | An issue's type is in the report's list of types exactly when the issue was raised |
| RapidOcr.KindInjective | rapidocr_validator.py:33-222 | The eight issues have eight distinct types |
| RapidOcr.IssueKindsAppend | rapidocr_validator.py:292-298 | The types of two issue lists joined are the two lists of types joined |
| RapidOcr.ErrorCount | rapidocr_validator.py:284-285 | The number of issues of severity "error" is at most the number of issues |
| RapidOcr.AverageAbove | rapidocr_validator.py:57-61 | Markers per page exceed b exactly when the count exceeds b times the pages |
| RapidOcr.ColumnsFromDensity | rapidocr_validator.py:55-62 | The estimate is 1, 2 or 3. It is 1 without markers or pages, at least 2 exactly above 20 per page, and 3 exactly above 40 per page |
| RapidOcr.ColumnExamples | rapidocr_validator.py:55-62 | 24 markers on 1 page give 2 columns; on 2 pages, 1; 100 on 2 pages, 3 |
| RapidOcr.LayoutIssuesIff | rapidocr_validator.py:31-70 | Each layout issue is present exactly when its condition holds, and there are no others |
| RapidOcr.LayoutErrorCount | rapidocr_validator.py:31-70 | Only `reading_order_inconsistent` has severity "error" |
| RapidOcr.CheckLayout | rapidocr_validator.py:24-79 | The counts, the column estimate and the issue list, built from the marker numbers |
| RapidOcr.ValidateLayoutAnalysis | rapidocr_validator.py:12-79 | The result is exactly `LayoutOf(text, expected)`, whose issues are raised in source order. `page_count` is the number of page markers. `missing_page_markers` exactly when there are none. `reading_order_inconsistent` exactly when the markers are not 1..n. `column_count_mismatch` exactly when a non-zero expectation differs. At most that one error |
| RapidOcr.DistributionCounts | rapidocr_validator.py:110-113 | The distribution's keys are the roles found, and each maps to its number of occurrences |
| RapidOcr.FirstSeenKeys | rapidocr_validator.py:110-113 | The key order (first occurrence) lists each role found once |
| RapidOcr.DistributionTotal | rapidocr_validator.py:110-127 | `role_count` equals the sum of `role_distribution` |
| RapidOcr.CountRoles | rapidocr_validator.py:111-113 | The `get(role, 0) + 1` loop builds the distribution |
| RapidOcr.ValidateSemanticAnnotations | rapidocr_validator.py:82-131 | The result is exactly `SemanticOf(text)`, whose issues are `invalid_role_types` then `missing_semantic_annotations`. `invalid_roles` is exactly the roles found outside the six-role whitelist. `role_count` is the number found and the sum of the distribution. `has_annotations` holds exactly when the count is positive. Each issue is raised exactly on its condition |
| RapidOcr.SumBounds | rapidocr_validator.py:157 | Confidences in [0, 1) sum to less than their number |
| RapidOcr.Mean | rapidocr_validator.py:157 | The average lies in [0, 1) and times the count is the sum |
| RapidOcr.Minimum | rapidocr_validator.py:158 | `min` is one of the scores and no larger than any |
| RapidOcr.HighUncertaintyIff | rapidocr_validator.py:164-172 | The uncertainty exceeds 20% exactly when 5 × uncertain count exceeds the line count |
| RapidOcr.ZeroMinimumNotFlagged | rapidocr_validator.py:174-179 | A smallest confidence of exactly 0.0 is falsy and not flagged; 0.3 is |
| RapidOcr.AnalyzeConfidenceDistribution | rapidocr_validator.py:134-188 | The result is exactly `ConfidenceOf(text)`, whose issues are `high_uncertainty` then `very_low_confidence`. The counts, the percentage, an average and a minimum that exist exactly when there are markers, and the two issues exactly on their conditions |
| RapidOcr.ExtractionScore | rapidocr_validator.py:214-231 | The range is pages × (150, 600). The score is in [0, 1], below 1 exactly below the minimum, and then count / minimum. `possibly_incomplete` is the only issue, and excess is never flagged |
| RapidOcr.ExtractionExamples | rapidocr_validator.py:214-231 | For one page: 50 words score 1/3 and are incomplete; 300 and 5000 words give no issue |
| RapidOcr.AdjustedScoreBounds | rapidocr_validator.py:266-289 | The adjusted score lies in [0, base] and is at most base minus 0.1 per layout error (clamped) |
| RapidOcr.AdjustScore | rapidocr_validator.py:266-289 | The penalty accumulator and the clamp give `max(0, base − penalty)` |
| RapidOcr.RunChecks | rapidocr_validator.py:257-260 | The layout, semantic and confidence results are exactly those the text determines (`LayoutOf`, `SemanticOf`, `ConfidenceOf`), and so is the completeness estimate, whose score is at most 1. The page count, the column estimate, the role count and the uncertain share follow from the text. There is one layout error exactly when reading-order markers exist and are not 1..n |
| RapidOcr.Assemble | rapidocr_validator.py:289-319 | The report fields. The score is the clamped penalised base. The issues are concatenated in source order and the metrics are merged |
| RapidOcr.ValidateRapidOcrOutput | rapidocr_validator.py:240-319 | The four check results are those the text determines. The base score is that of `validate_markdown(text, method)`. The final score is `max(0, base − penalties)` and lies in [0, base] ⊆ [0, 1]. The layout-error term counts one exactly for out-of-order reading-order markers. The issue list is the layout, semantic, confidence, completeness and base issue types, in that order, each list fixed by the text. The warnings are the base warnings. Syntax validity, schema compliance and the base word and line counts are those of `validate_markdown(text, method)`, with no average confidence. The page-count and role-annotation metrics are the numbers of page markers and of role annotations in the text |
| RapidOcr.DefaultColumnsNoMismatch | rapidocr_validator.py:243 | Without an expected column count, the default, there is no `column_count_mismatch` and at most two layout issues |
| Metadata.DateFieldShape | metadata_extractor.py:42-46 | A field is its two-character slice when the string is long enough, else its default |
| Metadata.IsoShape | metadata_extractor.py:52 | The result is 19 characters, with the fields at fixed offsets between `-`, `T` and `:` |
| Metadata.ParsePdfDateShape | metadata_extractor.py:28-55 | Non-empty exactly when at least four characters remain after the prefix and they parse as an int. A non-empty result has the fixed ISO shape with each field from its slice or default |
| Metadata.PrefixIgnored | metadata_extractor.py:33-34 | One leading `D:` makes no difference |
| Metadata.DateDigitsPrefixed | metadata_extractor.py:33-34 | The prefix is removed once |
| Metadata.YearParses | metadata_extractor.py:49 | "2024" parses as an int |
| Metadata.SeparatorStartRejected | metadata_extractor.py:49 | A text that starts with one of U+001C..U+001F is no int: `int()` does not skip these four characters, as it does other whitespace |
| Metadata.SeparatorEndRejected | metadata_extractor.py:49 | A text that ends with one of U+001C..U+001F is no int either |
| Metadata.LeadingIntSpace | metadata_extractor.py:49 | Whitespace that `int()` skips, followed by an int, is still an int |
| Metadata.NextLineYearAccepted | metadata_extractor.py:41-52 | A year led by U+0085 parses, and the ISO string keeps the year's four characters as they are |
| Metadata.SeparatorYearRejected | metadata_extractor.py:41-55 | A year led by U+001C or ended by U+001F makes `int` raise, so the result is "" |
| Metadata.ParsePrefixed | metadata_extractor.py:33-52 | After the prefix, a date with a valid year is its fields in ISO order |
| Metadata.FullFields | metadata_extractor.py:41-46 | The six slices of a full date are its six pieces |
| Metadata.ParseFull | metadata_extractor.py:33-52 | `D:` + YYYYMMDDHHmmSS gives YYYY-MM-DDTHH:mm:SS, with no range check on any field |
| Metadata.ParseDay | metadata_extractor.py:41-52 | Without a time, hour, minute and second default to "00" |
| Metadata.ParseYear | metadata_extractor.py:41-52 | A year alone gets month and day "01" |
| Metadata.TooShortExample | metadata_extractor.py:28-38 | "" and "D:202" give "" |
| Metadata.InvalidRejected | metadata_extractor.py:49-55 | "invalid" gives "", because `int` rejects its first four characters |
| Metadata.DoublePrefixRejected | metadata_extractor.py:33-55 | "D:D:20240115" gives "", because only one prefix is removed |
| Metadata.Render | metadata_extractor.py:228-260 | One `key: value` line per field |
| Metadata.AppendSizeLines | metadata_extractor.py:230-234 | Appends the `pages` line, or the `dimensions` and `format` lines, or nothing |
| Metadata.AppendDocumentLines | metadata_extractor.py:227-245 | Appends the `document:` lines in source order |
| Metadata.AppendOptional | metadata_extractor.py:251-260 | Appends one optional line when its value is truthy |
| Metadata.AppendMetadataLines | metadata_extractor.py:248-260 | Appends the `metadata:` lines for the truthy optional keys, in order |
| Metadata.FormatYamlFrontmatter | metadata_extractor.py:210-265 | The appended lines, joined with newlines, are the specification's frontmatter text |
| Metadata.AddYamlFrontmatter | metadata_extractor.py:268-286 | The result is the frontmatter followed by the Markdown. The Markdown is an unchanged suffix, and the result opens with `---⏎document:` |
| Metadata.SizeFieldsIff | metadata_extractor.py:230-234 | A `pages` line exactly when "pages" is a key. `dimensions` and `format` lines exactly when "pages" is absent and "width" is present. Nothing else |
| Metadata.DocumentFieldsIff | metadata_extractor.py:228-245 | source_file, extraction_date, language and document_id lines are always there. `extraction_method` appears exactly for a non-empty method, `confidence_score` exactly for a given score. The size lines are as above. There are no others |
| Metadata.DefaultDocumentFields | metadata_extractor.py:210-245 | With the defaults (no method, no score, "en"), the `document:` section has no `extraction_method` and no `confidence_score` line, and its language line reads "en" |
| Metadata.MetadataFieldsIff | metadata_extractor.py:251-260 | A `metadata:` line exactly for each of the five optional keys whose value is truthy |
| Metadata.FenceJoin | metadata_extractor.py:262-265 | Whatever the body, the joined text starts with `---⏎document:` and ends with `---⏎` |
| Metadata.FrontmatterEnds | metadata_extractor.py:225-265 | The frontmatter starts with `---⏎document:` and ends with `---⏎` |
| FrontmatterSchema.OpeningOpens | validator.py:104 | A text opening with the frontmatter passes the "starts with ---" test |
| FrontmatterSchema.ClosingFound | validator.py:111-124 | After that opening, the first `---` at index 3 or later lies past the `document:` line, so the cut-out frontmatter contains "document:" |
| FrontmatterSchema.FencedCompliant | validator.py:104-128 | Any text opened by the frontmatter opening and closed by `---⏎`, followed by anything, is schema-compliant, with "document:" inside |
| FrontmatterSchema.AddedFrontmatterCompliant | validator.py:104-128 | Whatever `add_yaml_frontmatter` returns passes `validate_schema_compliance` with no issue and no missing-field warning for "document:", for every metadata value |
| Text.Split | validator.py:32 | `split('\n')` is never empty and no piece holds a newline |
| Text.Find | validator.py:112 | `find('---', 3)` is the first occurrence at or after 3, or -1 |
| Text.WordsAreWords | openrouter_validator.py:175 | Every item of `split()` is a non-empty run without whitespace |

## Left out

- **Regular-expression semantics in general.** Only the fixed shapes the sources use are modelled, with scanners written out by hand.
  - `\w`, `\d` and `re.IGNORECASE` are taken over ASCII only.
  - `\s`, `strip()` and `split()` follow Python's `str.isspace`, Unicode whitespace included (`Text.IsSpace`).
  - The hallucination patterns are alternations of literal phrases, written out as their literal expansions.
- **Floating point.** Python float rounding and the `:.2f` and `:.1f` formats are not modelled: scores and percentages are exact reals.
  - Metadata.FormatYamlFrontmatter: takes the confidence as its already rendered text, because `f"{x:.2f}"` is float formatting.
- **Report entries.** They are kept as their issue type (and, in the RapidOCR model, their severity). The message strings are left out because they are formatted text only.
  - OpenRouter.ValidateOpenRouterOutput: its issue list holds the `type` of each entry. A hallucination dictionary contributes "hallucination" rather than the whole dictionary.
- **Default arguments.** Dafny has none, so every operation takes all of its arguments and a caller passes the source's default itself. Each default is a named constant:
  - `threshold=0.6` of `detect_and_remove_headers_footers` is `Cleaner.DefaultThreshold`;
  - `extraction_method=""` and `ocr_confidence=None` of `validate_markdown` are `Validator.UnnamedMethod` and `None`;
  - `original_method="OpenRouter"` of `validate_openrouter_output` is `OpenRouter.DefaultOriginalMethod`, and its `expected_word_count=None` is `None`;
  - `original_method="RapidOCR"` and `expected_columns=None` of `validate_rapidocr_output` are `RapidOcr.DefaultOriginalMethod` and `RapidOcr.DefaultExpectedColumns`;
  - `extraction_method=""`, `confidence_score=None` and `language="en"` of `format_yaml_frontmatter` and `add_yaml_frontmatter` are `Metadata.DefaultExtractionMethod`, `Metadata.DefaultConfidence` and `Metadata.DefaultLanguage`.
- **Printing.** The `print` in the `except` path of `parse_pdf_date` has no effect on the result and is left out.
- **Integer parsing.** `int()` is modelled with surrounding whitespace, a sign and single underscores between digits, but over ASCII digits only. Other Unicode decimal digits are not accepted. The whitespace is that of `str.isspace` except U+001C..U+001F (`Metadata.IsIntSpace`): CPython maps non-ASCII whitespace to spaces and then skips only ASCII whitespace, and those four separators are not part of it.
- **Shared report lists.** `get_validation_report` (validator.py:291-292) puts the validator's own `issues` and `warnings` lists into the report, not copies. A caller that keeps a report and then validates again with the same validator sees that report's lists grow. The model's reports are values and do not capture this aliasing.
- **Metadata values.** They are taken as already rendered strings. Truthiness is "present and non-empty", so a numeric zero or another falsy non-string value is not modelled.
- Metadata.FormatYamlFrontmatter: requires that metadata with "width" and without "pages" also has "height". The source raises `KeyError` there, and the model does not represent the exception.
- RapidOcr.ValidateSemanticAnnotations: the insertion order of `role_distribution` is given by `FirstSeen`. `invalid_roles` is a set, because `list(set(…))` has no defined order.
- FrontmatterSchema.AddedFrontmatterCompliant: proves "document:" inside the frontmatter but not "source_file:" and "document_id:". A metadata value that contains `---` ends the frontmatter early, so those two fields can be reported missing.
- **Other metadata functions.** `generate_document_id`, `extract_pdf_metadata` and `extract_image_metadata` read files, hash them, call PDF and image libraries and read the clock, so they are not part of this model.
- **The rest of DocFlow.** The user interface, the HTTP API, the table and layout engines, the model-list fetcher and the library probes are not part of this model.
- **Modules without source.** The layout analyzer, the noise filter, the semantic annotator and `normalize_markdown` are imported by tests, but their source is not available, so they are not part of this model.
- **Element fields.** The `y` position of an element is carried but unused, as in the source.
