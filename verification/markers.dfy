/** Hand-written scanners for the fixed comment and span shapes that the validators look
    for with regular expressions: numbered `<!-- page:N -->` / `<!-- reading-order:N -->`
    markers, `<!-- confidence:0.D -->` markers, `<!-- role:W … -->` annotations in the two
    spellings the validators use, `[uncertain: …]` spans, Markdown links and the removal of
    `<!-- … -->` comments. Each scanner walks the text left to right the way `re.findall`
    does: after a match it resumes at the match's end, otherwise one character further on. */
module Markers {
  import opened Text

  /** The common tail of every marker comment. */
  const Close: string := " -->"

  // ---------------------------------------------------------------------------
  // Numbered markers: prefix, a run of digits, " -->"

  const PagePrefix: string := "<!-- page:"
  const ReadingOrderPrefix: string := "<!-- reading-order:"
  /** `<!-- confidence:(0\.\d+) -->` is the same shape with "0." folded into the prefix. */
  const ConfidencePrefix: string := "<!-- confidence:0."

  /** A marker `prefix` + digits + " -->" starts at index p. The greedy `\d+` takes the whole
      digit run; a shorter run cannot be followed by the space of " -->". */
  predicate NumberedAt(s: string, prefix: string, p: nat) {
    && OccursAt(s, prefix, p)
    && DigitRun(s, p + |prefix|) > 0
    && OccursAt(s, Close, p + |prefix| + DigitRun(s, p + |prefix|))
  }

  predicate IsDigitGroup(d: string) {
    d != [] && AllDigits(d)
  }

  /** The digit groups `re.findall(prefix + r'(\d+) -->', s)` returns, for the scan resumed at p. */
  function DigitGroupsFrom(s: string, prefix: string, p: nat): seq<string>
    requires p <= |s|
    decreases |s| - p
  {
    if p == |s| then []
    else if NumberedAt(s, prefix, p) then
      var q := p + |prefix|;
      var n := DigitRun(s, q);
      [s[q..q + n]] + DigitGroupsFrom(s, prefix, q + n + |Close|)
    else DigitGroupsFrom(s, prefix, p + 1)
  }

  /** Every group found is a non-empty run of digits. */
  lemma {:induction false} DigitGroupsAreGroups(s: string, prefix: string, p: nat)
    requires p <= |s|
    ensures forall k :: 0 <= k < |DigitGroupsFrom(s, prefix, p)| ==> IsDigitGroup(DigitGroupsFrom(s, prefix, p)[k])
    decreases |s| - p
  {
    if p < |s| {
      if NumberedAt(s, prefix, p) {
        var q := p + |prefix|;
        DigitRunSpec(s, q);
        DigitGroupsAreGroups(s, prefix, q + DigitRun(s, q) + |Close|);
      } else {
        DigitGroupsAreGroups(s, prefix, p + 1);
      }
    }
  }

  function DigitGroups(s: string, prefix: string): (r: seq<string>)
    ensures forall k :: 0 <= k < |r| ==> IsDigitGroup(r[k])
  {
    DigitGroupsAreGroups(s, prefix, 0);
    DigitGroupsFrom(s, prefix, 0)
  }

  /** `[int(m) for m in groups]` */
  function Ints(ds: seq<string>): (r: seq<nat>)
    requires forall k :: 0 <= k < |ds| ==> AllDigits(ds[k])
    ensures |r| == |ds|
    ensures forall k :: 0 <= k < |ds| ==> r[k] == DigitsValue(ds[k])
  {
    if ds == [] then [] else [DigitsValue(ds[0])] + Ints(ds[1..])
  }

  function PageNumbers(s: string): seq<nat> {
    Ints(DigitGroups(s, PagePrefix))
  }

  function ReadingOrderNumbers(s: string): seq<nat> {
    Ints(DigitGroups(s, ReadingOrderPrefix))
  }

  /** `list(range(1, n + 1))` */
  function OneTo(n: nat): seq<nat>
  {
    seq(n, i => i + 1)
  }

  /** `numbers == list(range(1, len(numbers) + 1))` */
  predicate Sequential(ns: seq<nat>) {
    ns == OneTo(|ns|)
  }

  /** Numbers that start at 1 and go up by one are each their position plus one. */
  lemma {:induction false} StepsPosition(ns: seq<nat>, i: nat)
    requires ns != [] && ns[0] == 1
    requires forall j :: 0 < j < |ns| ==> ns[j] == ns[j - 1] + 1
    requires i < |ns|
    ensures ns[i] == i + 1
  {
    if i > 0 {
      StepsPosition(ns, i - 1);
    }
  }

  /** The numbering is sequential exactly when it is empty, or starts at 1 and each number
      is one more than the one before: a gap, a repeat or a swap breaks it. */
  lemma SequentialSteps(ns: seq<nat>)
    ensures Sequential(ns) <==>
      (ns == [] || ns[0] == 1) && forall i :: 0 < i < |ns| ==> ns[i] == ns[i - 1] + 1
  {
    if ns != [] && ns[0] == 1 && forall i :: 0 < i < |ns| ==> ns[i] == ns[i - 1] + 1 {
      forall i | 0 <= i < |ns|
        ensures ns[i] == OneTo(|ns|)[i]
      {
        StepsPosition(ns, i);
      }
    }
  }

  /** Markers 1, 2, 3 are in order; 1, 3 and 2, 1 are not. */
  lemma SequentialExamples()
    ensures Sequential([1, 2, 3])
    ensures !Sequential([1, 3]) && !Sequential([2, 1])
  {
    SequentialSteps([1, 2, 3]);
    SequentialSteps([1, 3]);
    assert [1, 3][1] != [1, 3][0] + 1;
    SequentialSteps([2, 1]);
  }

  /** The scan finds nothing exactly when no marker starts at or after p. */
  lemma {:induction false} DigitGroupsEmptyIff(s: string, prefix: string, p: nat)
    requires p <= |s|
    ensures DigitGroupsFrom(s, prefix, p) == [] <==> forall i :: p <= i < |s| ==> !NumberedAt(s, prefix, i)
    decreases |s| - p
  {
    if p < |s| && !NumberedAt(s, prefix, p) {
      DigitGroupsEmptyIff(s, prefix, p + 1);
    }
  }

  /** The value of a fractional digit group: float("0." + d). */
  function Fraction(d: string): (x: real)
    requires IsDigitGroup(d)
    ensures 0.0 <= x < 1.0
  {
    DigitsBelowPow10(d);
    QuotientBelowOne(DigitsValue(d) as real, Pow10(|d|) as real);
    DigitsValue(d) as real / Pow10(|d|) as real
  }

  lemma QuotientBelowOne(v: real, q: real)
    requires 0.0 <= v < q
    ensures 0.0 <= v / q < 1.0
  {
    assert (v / q) * q == v;
  }

  function Pow10(n: nat): (r: nat)
    ensures r >= 1
  {
    if n == 0 then 1 else 10 * Pow10(n - 1)
  }

  lemma {:induction false} DigitsBelowPow10(d: string)
    requires AllDigits(d)
    ensures DigitsValue(d) < Pow10(|d|)
    decreases |d|
  {
    if d != [] {
      DigitsBelowPow10(d[..|d| - 1]);
    }
  }

  /** `[float(c) for c in groups]` */
  function Fractions(ds: seq<string>): (r: seq<real>)
    requires forall k :: 0 <= k < |ds| ==> IsDigitGroup(ds[k])
    ensures |r| == |ds|
    ensures forall k :: 0 <= k < |ds| ==> r[k] == Fraction(ds[k])
  {
    if ds == [] then [] else [Fraction(ds[0])] + Fractions(ds[1..])
  }

  function Confidences(s: string): (r: seq<real>)
    ensures forall k :: 0 <= k < |r| ==> 0.0 <= r[k] < 1.0
  {
    Fractions(DigitGroups(s, ConfidencePrefix))
  }

  // ---------------------------------------------------------------------------
  // Role annotations

  const RolePrefix: string := "<!-- role:"

  /** What may follow the role name before " -->": `(?:\s+([^>]+))?` in the OpenRouter
      validator, `(?: .*?)?` in the RapidOCR one, and nothing at all in the base validator's
      `<!-- role:\w+ -->`. */
  datatype RoleTail = SpacedTail | LazyTail | BareTail

  /** Length of the run of `\w` characters starting at index i. */
  function WordRun(s: string, i: nat): (n: nat)
    requires i <= |s|
    ensures i + n <= |s|
    decreases |s| - i
  {
    if i < |s| && IsWordChar(s[i]) then 1 + WordRun(s, i + 1) else 0
  }

  /** The run WordRun measures is all word characters, and it is maximal. */
  lemma {:induction false} WordRunSpec(s: string, i: nat)
    requires i <= |s|
    ensures forall k :: i <= k < i + WordRun(s, i) ==> IsWordChar(s[k])
    ensures i + WordRun(s, i) < |s| ==> !IsWordChar(s[i + WordRun(s, i)])
    decreases |s| - i
  {
    if i < |s| && IsWordChar(s[i]) {
      WordRunSpec(s, i + 1);
    }
  }

  predicate IsRoleName(w: string) {
    w != [] && forall k :: 0 <= k < |w| ==> IsWordChar(w[k])
  }

  /** The first " -->" at or after i that is reached before a line break (the lazy `.*?`,
      whose `.` does not match a newline), or -1. */
  function CloseOnLine(s: string, i: nat): (t: int)
    requires i <= |s|
    ensures t == -1 || (i <= t && OccursAt(s, Close, t))
    decreases |s| - i
  {
    if OccursAt(s, Close, i) then i
    else if i < |s| && s[i] != '\n' then CloseOnLine(s, i + 1)
    else -1
  }

  /** A whitespace character (`\s`) stands at index r. */
  predicate SpaceAt(s: string, r: nat) {
    r < |s| && IsSpace(s[r])
  }

  /** SpacedTail: `\s+[^>]+` followed by " -->" ends the comment at the first '>' after the
      name, which must close a " -->" and leave at least one character for `[^>]+`; failing
      that, the bare " -->" is tried. Returns where the comment ends, or -1. */
  function SpacedEnd(s: string, r: nat): (e: int)
    requires r <= |s|
    ensures e == -1 || r + |Close| <= e <= |s|
  {
    var g := Find(s, ">", r);
    if SpaceAt(s, r) && g >= r + 5 && OccursAt(s, Close, g - 3) then g + 1
    else if OccursAt(s, Close, r) then r + |Close|
    else -1
  }

  /** LazyTail: a space, then the nearest " -->" on the same line; failing that, the bare
      " -->". Returns where the comment ends, or -1. */
  function LazyEnd(s: string, r: nat): (e: int)
    requires r <= |s|
    ensures e == -1 || r + |Close| <= e <= |s|
  {
    var t := if r < |s| && s[r] == ' ' then CloseOnLine(s, r + 1) else -1;
    if t != -1 then t + |Close|
    else if OccursAt(s, Close, r) then r + |Close|
    else -1
  }

  /** Where a role annotation whose name ends at index r ends, or -1 when it does not close. */
  function RoleEnd(s: string, r: nat, tail: RoleTail): (e: int)
    requires r <= |s|
    ensures e == -1 || r + |Close| <= e <= |s|
  {
    match tail
    case SpacedTail => SpacedEnd(s, r)
    case LazyTail => LazyEnd(s, r)
    case BareTail => if OccursAt(s, Close, r) then r + |Close| else -1
  }

  /** A role annotation starts at index p. The greedy `\w+` takes the whole name: a shorter
      name would leave a word character where both tails need a space. */
  predicate RoleAt(s: string, p: nat, tail: RoleTail) {
    && OccursAt(s, RolePrefix, p)
    && WordRun(s, p + |RolePrefix|) > 0
    && RoleEnd(s, p + |RolePrefix| + WordRun(s, p + |RolePrefix|), tail) != -1
  }

  /** The role names `re.findall` returns for the scan resumed at p. */
  function RolesFrom(s: string, p: nat, tail: RoleTail): seq<string>
    requires p <= |s|
    decreases |s| - p
  {
    if p == |s| then []
    else if RoleAt(s, p, tail) then
      var q := p + |RolePrefix|;
      var m := WordRun(s, q);
      [s[q..q + m]] + RolesFrom(s, RoleEnd(s, q + m, tail) as nat, tail)
    else RolesFrom(s, p + 1, tail)
  }

  /** Every role found is a non-empty run of word characters. */
  lemma {:induction false} RolesAreNames(s: string, p: nat, tail: RoleTail)
    requires p <= |s|
    ensures forall k :: 0 <= k < |RolesFrom(s, p, tail)| ==> IsRoleName(RolesFrom(s, p, tail)[k])
    decreases |s| - p
  {
    if p < |s| {
      if RoleAt(s, p, tail) {
        var q := p + |RolePrefix|;
        var m := WordRun(s, q);
        WordRunSpec(s, q);
        var e := RoleEnd(s, q + m, tail) as nat;
        RolesAreNames(s, e, tail);
        assert IsRoleName(s[q..q + m]);
        assert RolesFrom(s, p, tail) == [s[q..q + m]] + RolesFrom(s, e, tail);
      } else {
        RolesAreNames(s, p + 1, tail);
      }
    }
  }

  function Roles(s: string, tail: RoleTail): (r: seq<string>)
    ensures forall k :: 0 <= k < |r| ==> IsRoleName(r[k])
  {
    RolesAreNames(s, 0, tail);
    RolesFrom(s, 0, tail)
  }

  lemma {:induction false} RolesEmptyIff(s: string, p: nat, tail: RoleTail)
    requires p <= |s|
    ensures RolesFrom(s, p, tail) == [] <==> forall i :: p <= i < |s| ==> !RoleAt(s, i, tail)
    decreases |s| - p
  {
    if p < |s| && !RoleAt(s, p, tail) {
      RolesEmptyIff(s, p + 1, tail);
    }
  }

  // ---------------------------------------------------------------------------
  // `[uncertain: …]` spans

  const UncertainPrefix: string := "[uncertain: "

  /** The first ']' at or after i reached before a line break, or -1. */
  function BracketOnLine(s: string, i: nat): (t: int)
    requires i <= |s|
    ensures t == -1 || (i <= t < |s| && s[t] == ']')
    decreases |s| - i
  {
    if i < |s| && s[i] == ']' then i
    else if i < |s| && s[i] != '\n' then BracketOnLine(s, i + 1)
    else -1
  }

  predicate UncertainAt(s: string, p: nat) {
    OccursAt(s, UncertainPrefix, p) && BracketOnLine(s, p + |UncertainPrefix|) != -1
  }

  /** `len(re.findall(r'\[uncertain: (.*?)\]', s))` for the scan resumed at p; every span
      uses at least the 12 characters of its opening and its closing bracket. */
  function UncertainFrom(s: string, p: nat): (n: nat)
    requires p <= |s|
    ensures (|UncertainPrefix| + 1) * n <= |s| - p
    decreases |s| - p
  {
    if p == |s| then 0
    else if UncertainAt(s, p) then 1 + UncertainFrom(s, BracketOnLine(s, p + |UncertainPrefix|) as nat + 1)
    else UncertainFrom(s, p + 1)
  }

  function UncertainCount(s: string): nat {
    UncertainFrom(s, 0)
  }

  lemma {:induction false} UncertainZeroIff(s: string, p: nat)
    requires p <= |s|
    ensures UncertainFrom(s, p) == 0 <==> forall i :: p <= i < |s| ==> !UncertainAt(s, i)
    decreases |s| - p
  {
    if p < |s| && !UncertainAt(s, p) {
      UncertainZeroIff(s, p + 1);
    }
  }

  // ---------------------------------------------------------------------------
  // re.sub(r'<!--.*?-->', '', s, flags=re.DOTALL)

  const CommentOpen: string := "<!--"
  const CommentClose: string := "-->"

  /** Where a comment opened at the start of s ends: just past the first "-->" after the
      opening (the lazy `.*?`, with DOTALL crossing line breaks), or -1. */
  function CommentEnd(s: string): (e: int)
    ensures e == -1 || |CommentOpen| + |CommentClose| <= e <= |s|
  {
    if OccursAt(s, CommentOpen, 0) then
      var f := Find(s, CommentClose, |CommentOpen|);
      if f == -1 then -1 else f + |CommentClose|
    else -1
  }

  /** s with every comment removed; an opening without a closing "-->" stays as text. */
  function StripComments(s: string): (r: string)
    ensures |r| <= |s|
    decreases |s|
  {
    if s == [] then []
    else if CommentEnd(s) != -1 then StripComments(s[CommentEnd(s)..])
    else [s[0]] + StripComments(s[1..])
  }

  /** An occurrence in the tail of s is an occurrence in s, one place further on. */
  lemma {:induction false} AgreeTail(s: string, p: string, i: nat, k: nat)
    requires |s| > 0 && i + 1 + |p| <= |s|
    ensures AgreeFrom(s[1..], p, i, k) == AgreeFrom(s, p, i + 1, k)
    decreases |p| - k
  {
    if k < |p| {
      AgreeTail(s, p, i, k + 1);
    }
  }

  /** Text in which no comment is opened is left as it is. */
  lemma {:induction false} StripWithoutComments(s: string)
    requires forall i :: 0 <= i < |s| ==> !OccursAt(s, CommentOpen, i)
    ensures StripComments(s) == s
    decreases |s|
  {
    if s != [] {
      assert !OccursAt(s, CommentOpen, 0);
      forall i | 0 <= i < |s| - 1
        ensures !OccursAt(s[1..], CommentOpen, i)
      {
        if i + 1 + |CommentOpen| <= |s| {
          AgreeTail(s, CommentOpen, i, 0);
        }
        assert !OccursAt(s, CommentOpen, i + 1);
      }
      StripWithoutComments(s[1..]);
    }
  }

  /** Text free of '<' in front of the rest is kept as it is. */
  lemma {:induction false} StripPlainPrefix(a: string, t: string)
    requires '<' !in a
    ensures StripComments(a + t) == a + StripComments(t)
    decreases |a|
  {
    if a != [] {
      var s := a + t;
      assert s[0] == a[0] && s[1..] == a[1..] + t;
      StripPlainStep(s);
      StripPlainPrefix(a[1..], t);
      var r := StripComments(t);
      assert [a[0]] + (a[1..] + r) == a + r;
    } else {
      assert a + t == t;
    }
  }

  /** A first character other than '<' is kept. */
  lemma StripPlainStep(s: string)
    requires s != [] && s[0] != '<'
    ensures StripComments(s) == [s[0]] + StripComments(s[1..])
  {
    assert !OccursAt(s, CommentOpen, 0);
  }

  /** The first "-->" after an opening that encloses c, c holding none itself, is the one
      that follows c. */
  lemma CloseAfterBody(c: string, rest: string)
    requires !Contains(c, CommentClose)
    ensures Find(CommentOpen + c + CommentClose + rest, CommentClose, |CommentOpen|)
            == |CommentOpen| + |c|
  {
    var s := CommentOpen + c + CommentClose + rest;
    var o := |CommentOpen|;
    assert s[o + |c|..o + |c| + 3] == CommentClose;
    OccursAtSlice(s, CommentClose, o + |c|);
    forall j | o <= j < o + |c|
      ensures !OccursAt(s, CommentClose, j)
    {
      if OccursAt(s, CommentClose, j) {
        OccursAtSlice(s, CommentClose, j);
        if j + 3 <= o + |c| {
          assert c[j - o..j - o + 3] == s[j..j + 3];
          OccursAtSlice(c, CommentClose, j - o);
          ContainsAt(c, CommentClose, j - o);
        }
      }
    }
  }

  /** Words inside a comment are not counted: a comment whose body holds no "-->" is removed
      with its delimiters, and the text before it (free of '<') is kept. */
  lemma CommentRemoved(a: string, c: string, b: string)
    requires '<' !in a
    requires !Contains(c, CommentClose)
    ensures StripComments(a + CommentOpen + c + CommentClose + b) == a + StripComments(b)
  {
    var t := CommentOpen + c + CommentClose + b;
    assert a + CommentOpen + c + CommentClose + b == a + t;
    StripPlainPrefix(a, t);
    assert t[..4] == CommentOpen;
    OccursAtSlice(t, CommentOpen, 0);
    CloseAfterBody(c, b);
    assert t[|CommentOpen| + |c| + |CommentClose|..] == b;
  }

  // ---------------------------------------------------------------------------
  // Markdown links: re.findall(r'\[([^\]]+)\]\(([^\)]*)\)', line)

  datatype Link = Link(text: string, url: string)

  /** Where the link starting at p ends (past its ')'), or -1. `[^\]]+` runs to the first ']'
      and must be non-empty; '(' must follow; `[^\)]*` runs to the first ')'. */
  function LinkEnd(s: string, p: nat): (e: int)
    ensures e == -1 || (p + 4 <= e <= |s|)
  {
    if p < |s| && s[p] == '[' then
      var q := Find(s, "]", p + 1);
      if q >= p + 2 && q + 1 < |s| && s[q + 1] == '(' then
        var r := Find(s, ")", q + 2);
        if r == -1 then -1 else r + 1
      else -1
    else -1
  }

  function LinksFrom(s: string, p: nat): seq<Link>
    requires p <= |s|
    decreases |s| - p
  {
    if p == |s| then []
    else if LinkEnd(s, p) != -1 then
      var q := Find(s, "]", p + 1);
      var e := LinkEnd(s, p);
      [Link(s[p + 1..q], s[q + 2..e - 1])] + LinksFrom(s, e as nat)
    else LinksFrom(s, p + 1)
  }

  function Links(s: string): seq<Link> {
    LinksFrom(s, 0)
  }

  /** A link written `[t]()` at the start of a line is found, with an empty target. */
  lemma EmptyLinkFound(t: string, rest: string)
    requires t != [] && ']' !in t
    ensures Links("[" + t + "]()" + rest) != []
    ensures Links("[" + t + "]()" + rest)[0] == Link(t, "")
  {
    var s := "[" + t + "]()" + rest;
    var q := |t| + 1;
    assert s[q] == ']' && s[q + 1] == '(' && s[q + 2] == ')';
    assert OccursAt(s, "]", q);
    forall i | 1 <= i < q
      ensures !OccursAt(s, "]", i)
    {
      assert s[i] == t[i - 1];
    }
    assert Find(s, "]", 1) == q;
    assert OccursAt(s, ")", q + 2);
    assert Find(s, ")", q + 2) == q + 2;
    assert s[1..q] == t;
  }
}
