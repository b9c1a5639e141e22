/** How the frontmatter `add_yaml_frontmatter` writes fares under `validate_schema_compliance`:
    the two modules are written apart, and these lemmas tie the emitter to the checker. */
module FrontmatterSchema {
  import opened Wrappers
  import opened Text
  import opened Validator
  import opened Metadata

  /** Trailing whitespace removal keeps every character up to a non-space one. */
  lemma TrimEndKeeps(s: string, j: nat)
    requires j < |s| && !IsSpace(s[j])
    ensures j < |TrimEnd(s)| <= |s| && TrimEnd(s) == s[..|TrimEnd(s)|]
  {
    TrimEndSpec(s);
    var r := TrimEnd(s);
    if |r| <= j {
      assert false;
    }
  }

  /** A text that begins with the frontmatter opening starts with "---" once stripped. */
  lemma OpeningOpens(t: string)
    requires StartsWith(t, Opening)
    ensures OpensFrontmatter(t)
  {
    OccursAtSlice(t, Opening, 0);
    assert t[..|Opening|] == Opening;
    assert t[0] == '-' && t[12] == ':';
    assert TrimStart(t) == t;
    TrimEndKeeps(t, 12);
    var r := TrimEnd(t);
    OccursAtSlice(r, Dashes, 0);
    assert r[..3] == t[..3];
  }

  /** Past the opening, the first "---" at index 3 or later cannot come before the end of the
      `document:` line, so the frontmatter the validator cuts out holds "document:". */
  lemma ClosingFound(t: string, k: nat)
    requires StartsWith(t, Opening) && 3 <= k && OccursAt(t, Dashes, k)
    ensures SchemaCompliant(t) && 13 <= Find(t, Dashes, 3) <= k
    ensures Contains(Frontmatter(t), "document:")
  {
    OpeningOpens(t);
    OccursAtSlice(t, Opening, 0);
    assert t[..|Opening|] == Opening;
    assert forall i :: 3 <= i < 13 ==> t[i] != '-';
    var e := Find(t, Dashes, 3);
    OccursAtSlice(t, Dashes, e);
    assert t[e] == '-';
    var fm := t[3..e];
    assert fm[1..10] == t[4..13] == "document:";
    OccursAtSlice(fm, "document:", 1);
  }

  /** Any text that opens with the frontmatter opening and closes with the closing fence,
      followed by anything, passes the schema check with "document:" inside. */
  lemma FencedCompliant(f: string, markdown: string)
    requires StartsWith(f, Opening) && EndsWith(f, Closing)
    ensures SchemaCompliant(f + markdown) && Contains(Frontmatter(f + markdown), "document:")
  {
    var t := f + markdown;
    StartsWithExtend(f, Opening, markdown);
    OccursAtSlice(f, Opening, 0);
    assert t[|f| - 4..|f| - 1] == f[|f| - |Closing|..][..3];
    OccursAtSlice(t, Dashes, |f| - 4);
    ClosingFound(t, |f| - 4);
  }

  /** `validate_schema_compliance` accepts whatever `add_yaml_frontmatter` returns: the
      stripped text starts with "---", a closing "---" follows, and "document:" lies between
      them, so neither a malformed-frontmatter issue nor a warning for "document:" is raised. */
  lemma AddedFrontmatterCompliant(markdown: string, m: Meta, extractionMethod: string,
                                  confidence: Option<string>, language: string)
    requires HasDimensions(m)
    ensures var t := FrontmatterText(m, extractionMethod, confidence, language) + markdown;
      && SchemaCompliant(t)
      && SchemaIssues(t) == []
      && Finding("missing_metadata_field", None, "document:") !in FieldWarnings(Frontmatter(t), RequiredFields)
  {
    var f := FrontmatterText(m, extractionMethod, confidence, language);
    FrontmatterEnds(m, extractionMethod, confidence, language);
    FencedCompliant(f, markdown);
    FieldWarningsIff(Frontmatter(f + markdown), RequiredFields, "document:");
  }
}
