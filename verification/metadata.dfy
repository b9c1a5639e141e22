/** Metadata formatting: PDF date strings to ISO 8601, and the YAML frontmatter block put in
    front of the extracted Markdown. Metadata values are given as the text the f-strings
    render them to. */
module Metadata {
  import opened Wrappers
  import opened Text

  // ---------------------------------------------------------------------------
  // parse_pdf_date

  /** The prefix of the PDF date format "D:YYYYMMDDHHmmSS" (section 7.9.4 of ISO 32000-1). */
  const DatePrefix: string := "D:"

  /** Decimal digits with single underscores between them. */
  predicate IsIntBody(b: string) {
    && b != [] && IsDigit(b[0]) && IsDigit(b[|b| - 1])
    && (forall i :: 0 <= i < |b| ==> IsDigit(b[i]) || b[i] == '_')
    && (forall i :: 0 <= i < |b| - 1 ==> b[i] == '_' ==> b[i + 1] != '_')
  }

  /** The whitespace `int()` skips around its digits: that of `str.isspace` except the
      separators U+001C..U+001F. CPython turns non-ASCII whitespace into spaces first, then
      skips only the ASCII whitespace of C's `isspace`, which leaves those four out. */
  predicate IsIntSpace(c: char) {
    IsSpace(c) && !('\U{001C}' <= c <= '\U{001F}')
  }

  function IntTrimStart(s: string): string {
    if s != [] && IsIntSpace(s[0]) then IntTrimStart(s[1..]) else s
  }

  function IntTrimEnd(s: string): string {
    if s != [] && IsIntSpace(s[|s| - 1]) then IntTrimEnd(s[..|s| - 1]) else s
  }

  /** s without the whitespace `int()` skips at either end. */
  function IntStrip(s: string): string {
    IntTrimEnd(IntTrimStart(s))
  }

  /** Python's `int(s)` succeeds: surrounding whitespace, an optional sign, then the
      digits. */
  predicate ParsesAsInt(s: string) {
    var t := IntStrip(s);
    t != [] && IsIntBody(if t[0] == '+' || t[0] == '-' then t[1..] else t)
  }

  /** Trimming the end keeps a prefix. */
  lemma {:induction false} IntTrimEndPrefix(s: string)
    ensures var r := IntTrimEnd(s); |r| <= |s| && r == s[..|r|]
  {
    if s != [] && IsIntSpace(s[|s| - 1]) {
      IntTrimEndPrefix(s[..|s| - 1]);
    }
  }

  /** A text that starts with one of the separators U+001C..U+001F is no integer: `int()`
      does not skip it, and it is neither a sign nor a digit. */
  lemma SeparatorStartRejected(s: string)
    requires s != [] && '\U{001C}' <= s[0] <= '\U{001F}'
    ensures !ParsesAsInt(s)
  {
    assert IntTrimStart(s) == s;
    IntTrimEndPrefix(s);
    var t := IntStrip(s);
    if t != [] {
      assert t[0] == s[0];
    }
  }

  /** Trimming the start keeps a suffix. */
  lemma {:induction false} IntTrimStartSuffix(s: string)
    ensures var r := IntTrimStart(s); |r| <= |s| && r == s[|s| - |r|..]
  {
    if s != [] && IsIntSpace(s[0]) {
      IntTrimStartSuffix(s[1..]);
    }
  }

  /** A text that ends with one of the separators U+001C..U+001F is no integer either. */
  lemma SeparatorEndRejected(s: string)
    requires s != [] && '\U{001C}' <= s[|s| - 1] <= '\U{001F}'
    ensures !ParsesAsInt(s)
  {
    var u := IntTrimStart(s);
    IntTrimStartSuffix(s);
    var t := IntStrip(s);
    if u != [] {
      assert u[|u| - 1] == s[|s| - 1];
      assert t == u;
    }
  }

  /** Whitespace that `int()` skips may stand before the digits. */
  lemma LeadingIntSpace(c: char, y: string)
    requires IsIntSpace(c) && IsIntBody(y)
    ensures ParsesAsInt([c] + y)
  {
    assert ([c] + y)[1..] == y;
    assert IntTrimStart([c] + y) == IntTrimStart(y) == y;
  }

  /** `int()` skips the non-ASCII whitespace U+0085, and the year keeps it in the result. */
  lemma NextLineYearAccepted()
    ensures ParsePdfDate("D:\U{0085}202") == Iso("\U{0085}202", "01", "01", "00", "00", "00")
  {
    assert IsIntBody("202");
    LeadingIntSpace('\U{0085}', "202");
    assert "\U{0085}202" == ['\U{0085}'] + "202";
    ParseYear("\U{0085}202");
    assert "D:\U{0085}202" == DatePrefix + "\U{0085}202";
  }

  /** `int()` does not skip U+001C or U+001F, so a year edged by either is rejected. */
  lemma SeparatorYearRejected()
    ensures ParsePdfDate("D:\U{001C}2024") == ""
    ensures ParsePdfDate("D:202\U{001F}") == ""
  {
    var d := "\U{001C}2024";
    assert "D:\U{001C}2024" == DatePrefix + d;
    DateDigitsPrefixed(d);
    SeparatorStartRejected(d[..4]);
    var e := "202\U{001F}";
    assert "D:202\U{001F}" == DatePrefix + e;
    DateDigitsPrefixed(e);
    assert e[..4] == e;
    SeparatorEndRejected(e);
  }

  /** The date string once one leading "D:" is removed. */
  function DateDigits(s: string): string {
    if StartsWith(s, DatePrefix) then s[|DatePrefix|..] else s
  }

  /** `d[start:start + 2] if len(d) >= start + 2 else default` */
  function DateField(d: string, start: nat, default: string): string {
    if |d| >= start + 2 then d[start..start + 2] else default
  }

  /** year-month-dayThour:minute:second */
  function Iso(year: string, month: string, day: string, hour: string, minute: string,
               second: string): string {
    year + "-" + month + "-" + day + "T" + hour + ":" + minute + ":" + second
  }

  /** `parse_pdf_date`: "" for an empty string, for fewer than four characters after the
      prefix, or for a year int() rejects; otherwise year-month-dayThour:minute:second, each
      field a fixed slice or its default. */
  function ParsePdfDate(s: string): string {
    if s == [] then ""
    else
      var d := DateDigits(s);
      if |d| < 4 || !ParsesAsInt(d[..4]) then ""
      else
        Iso(d[..4], DateField(d, 4, "01"), DateField(d, 6, "01"), DateField(d, 8, "00"),
            DateField(d, 10, "00"), DateField(d, 12, "00"))
  }

  /** Every field is two characters, from its fixed slice or its default. */
  lemma DateFieldShape(d: string, start: nat, default: string)
    requires |default| == 2
    ensures |DateField(d, start, default)| == 2
    ensures |d| >= start + 2 ==> DateField(d, start, default) == d[start..start + 2]
    ensures |d| < start + 2 ==> DateField(d, start, default) == default
  {
  }

  /** With a four-character year and two-character fields, each field sits at a fixed
      place between fixed separators. */
  lemma IsoShape(year: string, month: string, day: string, hour: string, minute: string,
                 second: string)
    requires |year| == 4 && |month| == 2 && |day| == 2 && |hour| == 2 && |minute| == 2 && |second| == 2
    ensures var r := Iso(year, month, day, hour, minute, second);
      && |r| == 19
      && r[..4] == year && r[5..7] == month && r[8..10] == day
      && r[11..13] == hour && r[14..16] == minute && r[17..] == second
      && r[4] == '-' && r[7] == '-' && r[10] == 'T' && r[13] == ':' && r[16] == ':'
  {
    var r := Iso(year, month, day, hour, minute, second);
    var a := year + "-" + month;
    var b := a + "-" + day + "T" + hour;
    assert r == b + ":" + minute + ":" + second;
    assert r[..4] == a[..4] == year;
    assert r[5..7] == a[5..7] == month;
    assert r[8..10] == b[8..10] == day;
    assert r[11..13] == b[11..13] == hour;
  }

  /** A result is empty exactly when fewer than four characters follow the prefix or they
      are no integer; otherwise it is 19 characters long, the four year characters, then
      each two-character field between its separators. */
  lemma ParsePdfDateShape(s: string)
    ensures ParsePdfDate(s) != "" <==> |DateDigits(s)| >= 4 && ParsesAsInt(DateDigits(s)[..4])
    ensures var r := ParsePdfDate(s); var d := DateDigits(s);
      r != "" ==>
        && |r| == 19
        && r[..4] == d[..4]
        && r[4] == '-' && r[7] == '-' && r[10] == 'T' && r[13] == ':' && r[16] == ':'
        && r[5..7] == DateField(d, 4, "01") && r[8..10] == DateField(d, 6, "01")
        && r[11..13] == DateField(d, 8, "00") && r[14..16] == DateField(d, 10, "00")
        && r[17..] == DateField(d, 12, "00")
  {
    var d := DateDigits(s);
    if s == [] {
      assert d == [];
    } else if |d| >= 4 && ParsesAsInt(d[..4]) {
      DateFieldShape(d, 4, "01");
      DateFieldShape(d, 6, "01");
      DateFieldShape(d, 8, "00");
      DateFieldShape(d, 10, "00");
      DateFieldShape(d, 12, "00");
      IsoShape(d[..4], DateField(d, 4, "01"), DateField(d, 6, "01"), DateField(d, 8, "00"),
        DateField(d, 10, "00"), DateField(d, 12, "00"));
    }
  }

  /** One leading "D:" makes no difference. */
  lemma PrefixIgnored(s: string)
    requires !StartsWith(s, DatePrefix)
    ensures ParsePdfDate(DatePrefix + s) == ParsePdfDate(s)
  {
    assert StartsWith(DatePrefix + s, DatePrefix);
    assert (DatePrefix + s)[|DatePrefix|..] == s;
  }

  lemma YearParses()
    ensures ParsesAsInt("2024")
  {
    assert IntStrip("2024") == "2024";
  }

  /** The prefix is removed once. */
  lemma DateDigitsPrefixed(x: string)
    ensures DateDigits(DatePrefix + x) == x
  {
    assert StartsWith(DatePrefix + x, DatePrefix);
    assert (DatePrefix + x)[|DatePrefix|..] == x;
  }

  /** After the prefix, a date with a valid year is its fields in ISO order. */
  lemma ParsePrefixed(d: string)
    requires |d| >= 4 && ParsesAsInt(d[..4])
    ensures ParsePdfDate(DatePrefix + d)
         == Iso(d[..4], DateField(d, 4, "01"), DateField(d, 6, "01"), DateField(d, 8, "00"),
                DateField(d, 10, "00"), DateField(d, 12, "00"))
  {
    DateDigitsPrefixed(d);
  }

  /** The six fields of a full date are its six pieces. */
  lemma FullFields(y: string, mo: string, dd: string, h: string, mi: string, se: string)
    requires |y| == 4 && |mo| == 2 && |dd| == 2 && |h| == 2 && |mi| == 2 && |se| == 2
    ensures var d := y + mo + dd + h + mi + se;
      && d[..4] == y && DateField(d, 4, "01") == mo && DateField(d, 6, "01") == dd
      && DateField(d, 8, "00") == h && DateField(d, 10, "00") == mi && DateField(d, 12, "00") == se
  {
    var d := y + mo + dd + h + mi + se;
    assert d[..4] == y;
    assert d[4..6] == mo;
    assert d[6..8] == dd;
    assert d[8..10] == h;
    assert d[10..12] == mi;
    assert d[12..14] == se;
  }

  /** A prefixed full date: each field is its own slice. */
  lemma ParseFull(y: string, mo: string, dd: string, h: string, mi: string, se: string)
    requires |y| == 4 && |mo| == 2 && |dd| == 2 && |h| == 2 && |mi| == 2 && |se| == 2
    requires ParsesAsInt(y)
    ensures ParsePdfDate(DatePrefix + (y + mo + dd + h + mi + se)) == Iso(y, mo, dd, h, mi, se)
  {
    FullFields(y, mo, dd, h, mi, se);
    ParsePrefixed(y + mo + dd + h + mi + se);
  }

  /** A prefixed date without a time: the time fields default to "00". */
  lemma ParseDay(y: string, mo: string, dd: string)
    requires |y| == 4 && |mo| == 2 && |dd| == 2
    requires ParsesAsInt(y)
    ensures ParsePdfDate(DatePrefix + (y + mo + dd)) == Iso(y, mo, dd, "00", "00", "00")
  {
    var d := y + mo + dd;
    assert d[..4] == y;
    assert d[4..6] == mo;
    assert d[6..8] == dd;
    ParsePrefixed(d);
  }

  /** A prefixed year alone: month and day default to "01". */
  lemma ParseYear(y: string)
    requires |y| == 4 && ParsesAsInt(y)
    ensures ParsePdfDate(DatePrefix + y) == Iso(y, "01", "01", "00", "00", "00")
  {
    assert y[..4] == y;
    ParsePrefixed(y);
  }

  /** An empty string, and fewer than four characters after the prefix, give "". */
  lemma TooShortExample()
    ensures ParsePdfDate("") == ""
    ensures ParsePdfDate("D:202") == ""
  {
    assert StartsWith("D:202", DatePrefix);
    assert DateDigits("D:202") == "202";
  }

  /** A year int() rejects gives "". */
  lemma InvalidRejected()
    ensures ParsePdfDate("invalid") == ""
  {
    assert !StartsWith("invalid", DatePrefix);
    assert IntStrip("inva") == "inva";
  }

  /** Only one prefix is removed: a second one stands where the year should be. */
  lemma DoublePrefixRejected()
    ensures ParsePdfDate("D:D:20240115") == ""
  {
    assert StartsWith("D:D:20240115", DatePrefix);
    assert DateDigits("D:D:20240115") == "D:20240115";
    assert IntStrip("D:20") == "D:20";
  }

  // ---------------------------------------------------------------------------
  // format_yaml_frontmatter and add_yaml_frontmatter

  /** The line that opens and closes a frontmatter block. */
  const Fence: string := "---"

  /** How every frontmatter block begins. */
  const Opening: string := Fence + "\n" + "document:"

  /** How every frontmatter block ends. */
  const Closing: string := Fence + "\n"

  /** Metadata, each value as the f-strings render it. */
  type Meta = map<string, string>

  /** `metadata.get(k, "")` */
  function Get(m: Meta, k: string): string {
    if k in m then m[k] else ""
  }

  /** `metadata.get(k)` is truthy. */
  predicate Truthy(m: Meta, k: string) {
    k in m && m[k] != ""
  }

  function Quoted(v: string): string {
    "\"" + v + "\""
  }

  /** One indented `key: value` line. */
  function KeyLine(key: string, value: string): string {
    "  " + key + ": " + value
  }

  /** Image metadata with a "width" also has a "height" (the lookup raises otherwise). */
  predicate HasDimensions(m: Meta) {
    "width" in m && "pages" !in m ==> "height" in m
  }

  /** The key-value lines of a section, in order. */
  type Fields = seq<(string, string)>

  /** The defaults of `format_yaml_frontmatter` and `add_yaml_frontmatter`: no extraction
      method, no confidence score, English. */
  const DefaultExtractionMethod: string := ""
  const DefaultConfidence: Option<string> := None
  const DefaultLanguage: string := "en"

  /** A page count for a PDF; otherwise dimensions and format for an image. */
  function SizeFields(m: Meta): Fields
    requires HasDimensions(m)
  {
    if "pages" in m then [("pages", m["pages"])]
    else if "width" in m then
      [("dimensions", Quoted(m["width"] + "x" + m["height"])), ("format", Quoted(Get(m, "format")))]
    else []
  }

  /** The `document:` section. */
  function DocumentFields(m: Meta, extractionMethod: string, confidence: Option<string>,
                          language: string): Fields
    requires HasDimensions(m)
  {
    [("source_file", Quoted(Get(m, "source_file")))]
    + SizeFields(m)
    + (if extractionMethod != "" then [("extraction_method", Quoted(extractionMethod))] else [])
    + [("extraction_date", Quoted(Get(m, "extraction_date")))]
    + (if confidence.Some? then [("confidence_score", confidence.value)] else [])
    + [("language", Quoted(language)), ("document_id", Quoted(Get(m, "document_id")))]
  }

  /** A `metadata:` line for k when its value is truthy. */
  function OptionalField(m: Meta, k: string): Fields {
    if Truthy(m, k) then [(k, Quoted(m[k]))] else []
  }

  /** The `metadata:` section. */
  function MetadataFields(m: Meta): Fields {
    OptionalField(m, "title") + OptionalField(m, "author") + OptionalField(m, "subject")
    + OptionalField(m, "creator") + OptionalField(m, "creation_date")
  }

  const OptionalKeys: set<string> := {"title", "author", "subject", "creator", "creation_date"}

  /** One `key: value` line per field, in order. */
  function Render(fs: Fields): (ls: seq<string>)
    ensures |ls| == |fs|
  {
    if fs == [] then [] else Render(fs[..|fs| - 1]) + [KeyLine(fs[|fs| - 1].0, fs[|fs| - 1].1)]
  }

  /** The lines `format_yaml_frontmatter` joins. */
  function FrontmatterLines(m: Meta, extractionMethod: string, confidence: Option<string>,
                            language: string): seq<string>
    requires HasDimensions(m)
  {
    [Fence, "document:"] + Render(DocumentFields(m, extractionMethod, confidence, language))
    + ["", "metadata:"] + Render(MetadataFields(m)) + [Fence, ""]
  }

  function FrontmatterText(m: Meta, extractionMethod: string, confidence: Option<string>,
                           language: string): string
    requires HasDimensions(m)
  {
    JoinWith(FrontmatterLines(m, extractionMethod, confidence, language), '\n')
  }

  /** Rendering one more field adds its line. */
  lemma RenderSnoc(fs: Fields, key: string, value: string)
    ensures Render(fs + [(key, value)]) == Render(fs) + [KeyLine(key, value)]
  {
    assert (fs + [(key, value)])[..|fs|] == fs;
  }

  /** Rendering distributes over concatenation. */
  lemma {:induction false} RenderAppend(a: Fields, b: Fields)
    ensures Render(a + b) == Render(a) + Render(b)
    decreases |b|
  {
    if b == [] {
      assert a + b == a;
    } else {
      var c := b[..|b| - 1];
      var x := b[|b| - 1];
      assert b == c + [x];
      assert a + b == (a + c) + [x];
      RenderAppend(a, c);
      RenderSnoc(a + c, x.0, x.1);
      RenderSnoc(c, x.0, x.1);
    }
  }

  /** The size lines: the page count, or the dimensions and the format. */
  method AppendSizeLines(lines: seq<string>, m: Meta) returns (out: seq<string>)
    requires HasDimensions(m)
    ensures out == lines + Render(SizeFields(m))
  {
    out := lines;
    if "pages" in m {
      out := out + [KeyLine("pages", m["pages"])];
    } else if "width" in m {
      out := out + [KeyLine("dimensions", Quoted(m["width"] + "x" + m["height"]))];
      out := out + [KeyLine("format", Quoted(Get(m, "format")))];
    }
  }

  lemma SnocTwice<T>(s: seq<T>, x: T, y: T)
    ensures s + [x] + [y] == s + [x, y]
  {
  }

  /** Appending one line keeps `out == lines + Render(fs)` for the field it renders. */
  lemma AppendLine(lines: seq<string>, fs: Fields, key: string, value: string)
    ensures lines + Render(fs) + [KeyLine(key, value)] == lines + Render(fs + [(key, value)])
  {
    RenderSnoc(fs, key, value);
    AppendAssoc(lines, Render(fs), [KeyLine(key, value)]);
  }

  /** The `document:` lines, appended one by one after `lines`. */
  method AppendDocumentLines(lines: seq<string>, m: Meta, extractionMethod: string,
                             confidence: Option<string>, language: string) returns (out: seq<string>)
    requires HasDimensions(m)
    ensures out == lines + Render(DocumentFields(m, extractionMethod, confidence, language))
  {
    ghost var fs: Fields := [];
    out := lines;
    assert out == lines + Render(fs);
    AppendLine(lines, fs, "source_file", Quoted(Get(m, "source_file")));
    out, fs := out + [KeyLine("source_file", Quoted(Get(m, "source_file")))],
               fs + [("source_file", Quoted(Get(m, "source_file")))];
    out := AppendSizeLines(out, m);
    RenderAppend(fs, SizeFields(m));
    AppendAssoc(lines, Render(fs), Render(SizeFields(m)));
    fs := fs + SizeFields(m);
    ghost var before := fs;
    if extractionMethod != "" {
      AppendLine(lines, fs, "extraction_method", Quoted(extractionMethod));
      out, fs := out + [KeyLine("extraction_method", Quoted(extractionMethod))],
                 fs + [("extraction_method", Quoted(extractionMethod))];
    } else {
      assert fs == before + [];
    }
    AppendLine(lines, fs, "extraction_date", Quoted(Get(m, "extraction_date")));
    out, fs := out + [KeyLine("extraction_date", Quoted(Get(m, "extraction_date")))],
               fs + [("extraction_date", Quoted(Get(m, "extraction_date")))];
    before := fs;
    if confidence.Some? {
      AppendLine(lines, fs, "confidence_score", confidence.value);
      out, fs := out + [KeyLine("confidence_score", confidence.value)],
                 fs + [("confidence_score", confidence.value)];
    } else {
      assert fs == before + [];
    }
    before := fs;
    AppendLine(lines, fs, "language", Quoted(language));
    out, fs := out + [KeyLine("language", Quoted(language))], fs + [("language", Quoted(language))];
    AppendLine(lines, fs, "document_id", Quoted(Get(m, "document_id")));
    out, fs := out + [KeyLine("document_id", Quoted(Get(m, "document_id")))],
               fs + [("document_id", Quoted(Get(m, "document_id")))];
    SnocTwice(before, ("language", Quoted(language)), ("document_id", Quoted(Get(m, "document_id"))));
  }

  /** The line for k when its value is truthy, as each `if metadata.get(k)` appends it. */
  method AppendOptional(lines: seq<string>, m: Meta, k: string) returns (out: seq<string>)
    ensures out == lines + Render(OptionalField(m, k))
  {
    out := lines;
    if Truthy(m, k) {
      out := out + [KeyLine(k, Quoted(m[k]))];
    }
  }

  /** The `metadata:` lines, one per truthy optional key, appended after `lines`. */
  method AppendMetadataLines(lines: seq<string>, m: Meta) returns (out: seq<string>)
    ensures out == lines + Render(MetadataFields(m))
  {
    out := AppendOptional(lines, m, "title");
    ghost var fs := OptionalField(m, "title");
    out := AppendOptional(out, m, "author");
    RenderAppend(fs, OptionalField(m, "author"));
    AppendAssoc(lines, Render(fs), Render(OptionalField(m, "author")));
    fs := fs + OptionalField(m, "author");
    out := AppendOptional(out, m, "subject");
    RenderAppend(fs, OptionalField(m, "subject"));
    AppendAssoc(lines, Render(fs), Render(OptionalField(m, "subject")));
    fs := fs + OptionalField(m, "subject");
    out := AppendOptional(out, m, "creator");
    RenderAppend(fs, OptionalField(m, "creator"));
    AppendAssoc(lines, Render(fs), Render(OptionalField(m, "creator")));
    fs := fs + OptionalField(m, "creator");
    out := AppendOptional(out, m, "creation_date");
    RenderAppend(fs, OptionalField(m, "creation_date"));
    AppendAssoc(lines, Render(fs), Render(OptionalField(m, "creation_date")));
    fs := fs + OptionalField(m, "creation_date");
  }

  /** `format_yaml_frontmatter`: the lines appended one by one, then joined by newlines. The
      confidence is given as its two-decimal rendering. */
  method FormatYamlFrontmatter(m: Meta, extractionMethod: string, confidence: Option<string>,
                               language: string) returns (r: string)
    requires HasDimensions(m)
    ensures r == FrontmatterText(m, extractionMethod, confidence, language)
  {
    var lines := [Fence, "document:"];
    lines := AppendDocumentLines(lines, m, extractionMethod, confidence, language);
    SnocTwice(lines, "", "metadata:");
    lines := lines + [""];
    lines := lines + ["metadata:"];
    lines := AppendMetadataLines(lines, m);
    SnocTwice(lines, Fence, "");
    lines := lines + [Fence];
    lines := lines + [""];
    r := JoinWith(lines, '\n');
  }

  /** `add_yaml_frontmatter`: the frontmatter, then the Markdown unchanged. */
  method AddYamlFrontmatter(markdown: string, m: Meta, extractionMethod: string,
                            confidence: Option<string>, language: string) returns (r: string)
    requires HasDimensions(m)
    ensures r == FrontmatterText(m, extractionMethod, confidence, language) + markdown
    ensures EndsWith(r, markdown)
    ensures StartsWith(r, Opening)
  {
    var frontmatter := FormatYamlFrontmatter(m, extractionMethod, confidence, language);
    r := frontmatter + markdown;
    FrontmatterEnds(m, extractionMethod, confidence, language);
    StartsWithExtend(frontmatter, Opening, markdown);
    EndsWithAppend(frontmatter, markdown);
  }

  // ---------------------------------------------------------------------------
  // Properties of the frontmatter

  /** Some field of fs has key k. */
  predicate HasField(fs: Fields, k: string) {
    exists i :: 0 <= i < |fs| && fs[i].0 == k
  }

  lemma HasFieldAppend(a: Fields, b: Fields, k: string)
    ensures HasField(a + b, k) <==> HasField(a, k) || HasField(b, k)
  {
    if HasField(a + b, k) {
      var i :| 0 <= i < |a + b| && (a + b)[i].0 == k;
      if i >= |a| {
        assert b[i - |a|].0 == k;
      }
    }
    if HasField(a, k) {
      var i :| 0 <= i < |a| && a[i].0 == k;
      assert (a + b)[i].0 == k;
    }
    if HasField(b, k) {
      var i :| 0 <= i < |b| && b[i].0 == k;
      assert (a + b)[|a| + i].0 == k;
    }
  }

  /** The size lines: pages for a PDF, else dimensions and format when there is a width. */
  lemma SizeFieldsIff(m: Meta, k: string)
    requires HasDimensions(m)
    ensures k == "pages" ==> (HasField(SizeFields(m), k) <==> "pages" in m)
    ensures k == "dimensions" || k == "format" ==>
      (HasField(SizeFields(m), k) <==> "pages" !in m && "width" in m)
    ensures k != "pages" && k != "dimensions" && k != "format" ==> !HasField(SizeFields(m), k)
  {
    var fs := SizeFields(m);
    if "pages" in m {
      assert fs[0].0 == "pages";
    } else if "width" in m {
      assert fs[0].0 == "dimensions" && fs[1].0 == "format";
    }
  }

  lemma HasFieldOne(key: string, value: string, k: string)
    ensures HasField([(key, value)], k) <==> k == key
  {
    if k == key {
      assert [(key, value)][0].0 == k;
    }
  }

  /** The `document:` section has a line for k exactly when k is source_file,
      extraction_date, language or document_id, extraction_method for a non-empty method,
      confidence_score for a given score, or a size key SizeFieldsIff admits. */
  lemma DocumentFieldsIff(m: Meta, extractionMethod: string, confidence: Option<string>,
                          language: string, k: string)
    requires HasDimensions(m)
    ensures HasField(DocumentFields(m, extractionMethod, confidence, language), k) <==>
      || k == "source_file" || k == "extraction_date" || k == "language" || k == "document_id"
      || (k == "extraction_method" && extractionMethod != "")
      || (k == "confidence_score" && confidence.Some?)
      || HasField(SizeFields(m), k)
  {
    var a: Fields := [("source_file", Quoted(Get(m, "source_file")))];
    var s := SizeFields(m);
    var b: Fields := if extractionMethod != "" then [("extraction_method", Quoted(extractionMethod))] else [];
    var c: Fields := [("extraction_date", Quoted(Get(m, "extraction_date")))];
    var d: Fields := if confidence.Some? then [("confidence_score", confidence.value)] else [];
    var l: Fields := [("language", Quoted(language))];
    var i: Fields := [("document_id", Quoted(Get(m, "document_id")))];
    assert DocumentFields(m, extractionMethod, confidence, language) == a + s + b + c + d + (l + i);
    HasFieldAppend(a + s + b + c + d, l + i, k);
    HasFieldAppend(l, i, k);
    HasFieldAppend(a + s + b + c, d, k);
    HasFieldAppend(a + s + b, c, k);
    HasFieldAppend(a + s, b, k);
    HasFieldAppend(a, s, k);
    HasFieldOne("source_file", Quoted(Get(m, "source_file")), k);
    HasFieldOne("extraction_date", Quoted(Get(m, "extraction_date")), k);
    HasFieldOne("language", Quoted(language), k);
    HasFieldOne("document_id", Quoted(Get(m, "document_id")), k);
    if extractionMethod != "" {
      HasFieldOne("extraction_method", Quoted(extractionMethod), k);
    }
    if confidence.Some? {
      HasFieldOne("confidence_score", confidence.value, k);
    }
  }

  /** With the defaults the `document:` section has no extraction_method and no
      confidence_score line, and its language is "en". */
  lemma DefaultDocumentFields(m: Meta)
    requires HasDimensions(m)
    ensures var fs := DocumentFields(m, DefaultExtractionMethod, DefaultConfidence, DefaultLanguage);
      && !HasField(fs, "extraction_method") && !HasField(fs, "confidence_score")
      && |fs| >= 2 && fs[|fs| - 2] == ("language", Quoted("en"))
  {
    DocumentFieldsIff(m, DefaultExtractionMethod, DefaultConfidence, DefaultLanguage, "extraction_method");
    DocumentFieldsIff(m, DefaultExtractionMethod, DefaultConfidence, DefaultLanguage, "confidence_score");
    SizeFieldsIff(m, "extraction_method");
    SizeFieldsIff(m, "confidence_score");
  }

  /** A `metadata:` line appears exactly for the five optional keys with a truthy value. */
  lemma MetadataFieldsIff(m: Meta, k: string)
    ensures HasField(MetadataFields(m), k) <==> k in OptionalKeys && Truthy(m, k)
  {
    var t := OptionalField(m, "title");
    var a := OptionalField(m, "author");
    var s := OptionalField(m, "subject");
    var c := OptionalField(m, "creator");
    var d := OptionalField(m, "creation_date");
    HasFieldAppend(t + a + s + c, d, k);
    HasFieldAppend(t + a + s, c, k);
    HasFieldAppend(t + a, s, k);
    HasFieldAppend(t, a, k);
    if k in OptionalKeys && Truthy(m, k) {
      assert OptionalField(m, k)[0].0 == k;
    }
  }

  /** The two ways the frontmatter lines are taken apart: from the front and from the back. */
  lemma Regroup<T>(a: T, b: T, xs: seq<T>, c: T, d: T)
    ensures [a, b] + xs + [c, d] == [a] + ([b] + (xs + [c, d]))
    ensures [a, b] + xs + [c, d] == ([a, b] + xs + [c]) + [d]
  {
  }

  /** Any lines between the opening and the closing fence join to a text that opens with the
      fence and the `document:` line and closes with the fence and a newline. */
  lemma FenceJoin(body: seq<string>)
    ensures StartsWith(JoinWith([Fence, "document:"] + body + [Fence, ""], '\n'), Opening)
    ensures EndsWith(JoinWith([Fence, "document:"] + body + [Fence, ""], '\n'), Closing)
  {
    var ls := [Fence, "document:"] + body + [Fence, ""];
    var t := JoinWith(ls, '\n');
    Regroup(Fence, "document:", body, Fence, "");
    var rest := JoinWith(body + [Fence, ""], '\n');
    JoinCons(Fence, ["document:"] + (body + [Fence, ""]), '\n');
    JoinCons("document:", body + [Fence, ""], '\n');
    assert t == Opening + (['\n'] + rest);
    StartsWithAppend(Opening, ['\n'] + rest);
    var front := [Fence, "document:"] + body;
    JoinSnoc(front + [Fence], "", '\n');
    JoinSnoc(front, Fence, '\n');
    assert t == (JoinWith(front, '\n') + ['\n']) + Closing;
    EndsWithAppend(JoinWith(front, '\n') + ['\n'], Closing);
  }

  /** The frontmatter text opens with the fence and the `document:` line and closes with the
      fence and a newline. */
  lemma FrontmatterEnds(m: Meta, extractionMethod: string, confidence: Option<string>, language: string)
    requires HasDimensions(m)
    ensures StartsWith(FrontmatterText(m, extractionMethod, confidence, language), Opening)
    ensures EndsWith(FrontmatterText(m, extractionMethod, confidence, language), Closing)
  {
    var d := Render(DocumentFields(m, extractionMethod, confidence, language));
    var x := Render(MetadataFields(m));
    var head: seq<string> := [Fence, "document:"];
    var mid: seq<string> := ["", "metadata:"];
    AppendAssoc(head, d, mid);
    AppendAssoc(head, d + mid, x);
    FenceJoin(d + mid + x);
  }
}
