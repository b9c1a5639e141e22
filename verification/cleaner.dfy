/** String-level repair of extracted text: hyphen-break merging, removal of
    headers and footers that repeat across pages, and paragraph defragmentation. */
module Cleaner {
  import opened Wrappers
  import opened Text

  // ===========================================================================
  // merge_hyphenated_words: re.sub(r'([a-zA-Z]+)-\s*\n\s*([a-zA-Z]+)', r'\1\2', text)

  /** End of the run of ASCII letters that starts at index i. */
  function LetterEnd(s: string, i: nat): (e: nat)
    requires i <= |s|
    ensures i <= e <= |s|
    ensures forall p :: i <= p < e ==> IsAsciiLetter(s[p])
    ensures e < |s| ==> !IsAsciiLetter(s[e])
    decreases |s| - i
  {
    if i < |s| && IsAsciiLetter(s[i]) then LetterEnd(s, i + 1) else i
  }

  /** End of the run of whitespace that starts at index i. */
  function SpaceEnd(s: string, i: nat): (e: nat)
    requires i <= |s|
    ensures i <= e <= |s|
    ensures forall p :: i <= p < e ==> IsSpace(s[p])
    ensures e < |s| ==> !IsSpace(s[e])
    decreases |s| - i
  {
    if i < |s| && IsSpace(s[i]) then SpaceEnd(s, i + 1) else i
  }

  /** A match of the hyphen-break pattern: s[i..j] is the first word, s[j] the hyphen,
      s[j+1..k] the whitespace gap (holding a newline) and s[k..l] the continuation word. */
  datatype Break = Break(j: nat, k: nat, l: nat)

  /** Where the pattern matches when the scan stands at index i, the first letter of a word.
      The greedy `[a-zA-Z]+` takes the whole word, the two `\s*` around `\n` together take
      the whole whitespace run after the hyphen (which must hold a newline), and the second
      `[a-zA-Z]+` takes the whole following word. Backtracking into a shorter first word
      cannot help, since the hyphen must follow the last letter of the run. */
  function BreakFrom(s: string, i: nat): (b: Option<Break>)
    requires i <= |s|
    ensures b.Some? ==> i < b.value.j < b.value.k < b.value.l <= |s|
    ensures b.Some? ==> s[b.value.j] == '-' && forall p :: b.value.j < p < b.value.k ==> IsSpace(s[p])
  {
    var j := LetterEnd(s, i);
    if j == i || j >= |s| || s[j] != '-' then None
    else
      var k := SpaceEnd(s, j + 1);
      if '\n' !in s[j + 1..k] || k >= |s| || !IsAsciiLetter(s[k]) then None
      else Some(Break(j, k, LetterEnd(s, k)))
  }

  /** The substitution pass from index i on, where s[i] starts a word or is not a letter:
      every matched `word-<gap>\nword` loses its hyphen and gap. The scan resumes after the
      continuation word, so matches never overlap. */
  function MergeFrom(s: string, i: nat): (r: string)
    requires i <= |s|
    ensures |r| <= |s| - i
    decreases |s| - i
  {
    if i == |s| then []
    else if !IsAsciiLetter(s[i]) then [s[i]] + MergeFrom(s, i + 1)
    else match BreakFrom(s, i)
      case Some(b) => s[i..b.j] + s[b.k..b.l] + MergeFrom(s, b.l)
      case None =>
        var j := LetterEnd(s, i);
        s[i..j] + MergeFrom(s, j)
  }

  /** merge_hyphenated_words: one left-to-right pass of the substitution over the text. */
  function MergeHyphenatedWords(s: string): (r: string)
    ensures |r| <= |s|
  {
    MergeFrom(s, 0)
  }

  /** The hyphen-break shape, seen from the hyphen at index j: a letter before it, and a
      whitespace run after it that holds a newline and is followed by a letter. */
  ghost predicate BreakAt(s: string, j: int) {
    && 1 <= j < |s| && IsAsciiLetter(s[j - 1]) && s[j] == '-'
    && var k := SpaceEnd(s, j + 1);
       k < |s| && IsAsciiLetter(s[k]) && '\n' in s[j + 1..k]
  }

  /** The text holds the hyphen-break shape with its first word's last letter at i or later. */
  ghost predicate HasBreakFrom(s: string, i: nat) {
    exists j :: i < j && BreakAt(s, j)
  }

  /** From the first letter of a word, the scan matches exactly when the hyphen-break shape
      sits at the end of that word. */
  lemma BreakAtWordEnd(s: string, i: nat)
    requires i < |s| && IsAsciiLetter(s[i])
    ensures BreakFrom(s, i).Some? <==> BreakAt(s, LetterEnd(s, i))
  {
    var j := LetterEnd(s, i);
    assert i < j && IsAsciiLetter(s[j - 1]);
    if j < |s| && s[j] == '-' {
      var k := SpaceEnd(s, j + 1);
      assert BreakFrom(s, i).Some? <==> '\n' in s[j + 1..k] && k < |s| && IsAsciiLetter(s[k]);
    } else {
      assert BreakFrom(s, i).None?;
    }
  }

  /** Text without the hyphen-break shape is left exactly as it is. */
  lemma {:induction false} MergeWithoutBreak(s: string, i: nat)
    requires i <= |s| && !HasBreakFrom(s, i)
    ensures MergeFrom(s, i) == s[i..]
    decreases |s| - i
  {
    if i == |s| {
    } else if !IsAsciiLetter(s[i]) {
      MergeWithoutBreak(s, i + 1);
      assert s[i..] == [s[i]] + s[i + 1..];
    } else {
      var j := LetterEnd(s, i);
      BreakAtWordEnd(s, i);
      MergeWithoutBreak(s, j);
      assert s[i..] == s[i..j] + s[j..];
    }
  }

  /** Text with the hyphen-break shape always gets shorter: the first break is always merged. */
  lemma MergeShortensBreak(s: string, i: nat)
    requires i <= |s| && HasBreakFrom(s, i)
    ensures |MergeFrom(s, i)| < |s| - i
  {
    var jb :| i < jb && BreakAt(s, jb);
    MergeShortensBreakAt(s, i, jb);
  }

  /** The same, for a given break at jb: the scan cannot pass it without merging. */
  lemma {:induction false} MergeShortensBreakAt(s: string, i: nat, jb: nat)
    requires i < jb && BreakAt(s, jb)
    ensures |MergeFrom(s, i)| < |s| - i
    decreases |s| - i
  {
    assert IsAsciiLetter(s[jb - 1]) && s[jb] == '-';
    MergeStepLength(s, i);
    if !IsAsciiLetter(s[i]) {
      assert i + 1 < jb;
      MergeShortensBreakAt(s, i + 1, jb);
    } else if BreakFrom(s, i).None? {
      var j := LetterEnd(s, i);
      BreakAtWordEnd(s, i);
      HyphenAfterWord(s, i, jb);
      assert j != jb;
      MergeShortensBreakAt(s, j, jb);
    }
  }

  /** One step of the scan: a non-letter is copied, a word without a break is copied, and a
      break loses at least its hyphen. */
  lemma MergeStepLength(s: string, i: nat)
    requires i < |s|
    ensures !IsAsciiLetter(s[i]) ==> |MergeFrom(s, i)| == 1 + |MergeFrom(s, i + 1)|
    ensures IsAsciiLetter(s[i]) && BreakFrom(s, i).None? ==>
      |MergeFrom(s, i)| == LetterEnd(s, i) - i + |MergeFrom(s, LetterEnd(s, i))|
    ensures IsAsciiLetter(s[i]) && BreakFrom(s, i).Some? ==> |MergeFrom(s, i)| < |s| - i
  {
    if IsAsciiLetter(s[i]) && BreakFrom(s, i).Some? {
      var b := BreakFrom(s, i).value;
      assert MergeFrom(s, i) == s[i..b.j] + s[b.k..b.l] + MergeFrom(s, b.l);
    }
  }

  /** A hyphen at or after the first letter of a word lies at or after that word's end. */
  lemma HyphenAfterWord(s: string, i: nat, p: nat)
    requires i <= p < |s| && s[p] == '-'
    ensures LetterEnd(s, i) <= p
  {
  }

  /** merge_hyphenated_words changes a text exactly when the text holds a hyphen break. */
  lemma MergeUnchangedIff(s: string)
    ensures MergeHyphenatedWords(s) == s <==> !(exists j :: BreakAt(s, j))
  {
    if exists j :: BreakAt(s, j) {
      MergeShortensBreak(s, 0);
    } else {
      MergeWithoutBreak(s, 0);
    }
  }

  /** The characters that are neither a hyphen nor whitespace, in order. */
  function Visible(s: string): string {
    if s == [] then []
    else (if s[0] == '-' || IsSpace(s[0]) then [] else [s[0]]) + Visible(s[1..])
  }

  lemma {:induction false} VisibleAppend(a: string, b: string)
    ensures Visible(a + b) == Visible(a) + Visible(b)
  {
    if a == [] {
      assert a + b == b;
    } else {
      VisibleAppend(a[1..], b);
      assert (a + b)[1..] == a[1..] + b && (a + b)[0] == a[0];
      var h := if a[0] == '-' || IsSpace(a[0]) then [] else [a[0]];
      AppendAssoc(h, Visible(a[1..]), Visible(b));
    }
  }

  lemma {:induction false} VisibleAllSpace(s: string)
    requires AllSpace(s)
    ensures Visible(s) == []
  {
    if s != [] {
      VisibleAllSpace(s[1..]);
    }
  }

  lemma VisibleSplitSlice(s: string, i: nat, k: nat)
    requires i <= k <= |s|
    ensures Visible(s[i..]) == Visible(s[i..k]) + Visible(s[k..])
  {
    VisibleAppend(s[i..k], s[k..]);
    assert s[i..k] + s[k..] == s[i..];
  }

  lemma VisibleSkipGap(s: string, j: nat, k: nat)
    requires j < k <= |s| && s[j] == '-' && forall p :: j < p < k ==> IsSpace(s[p])
    ensures Visible(s[j..]) == Visible(s[k..])
  {
    assert s[j..][1..] == s[j + 1..];
    VisibleSplitSlice(s, j + 1, k);
    assert AllSpace(s[j + 1..k]);
    VisibleAllSpace(s[j + 1..k]);
  }

  /** The hyphen and the gap of a break hold no visible character. */
  lemma VisibleBreak(s: string, i: nat, b: Break)
    requires i <= b.j < b.k <= b.l <= |s| && s[b.j] == '-'
    requires forall p :: b.j < p < b.k ==> IsSpace(s[p])
    ensures Visible(s[i..]) == Visible(s[i..b.j]) + Visible(s[b.k..b.l]) + Visible(s[b.l..])
  {
    VisibleSplitSlice(s, i, b.j);
    VisibleSkipGap(s, b.j, b.k);
    VisibleSplitSlice(s, b.k, b.l);
    AppendAssoc(Visible(s[i..b.j]), Visible(s[b.k..b.l]), Visible(s[b.l..]));
  }

  /** Merging only deletes hyphens and whitespace: every other character survives, in order. */
  lemma {:induction false} MergeKeepsVisible(s: string, i: nat)
    requires i <= |s|
    ensures Visible(MergeFrom(s, i)) == Visible(s[i..])
    decreases |s| - i
  {
    if i == |s| {
    } else if !IsAsciiLetter(s[i]) {
      MergeKeepsVisible(s, i + 1);
      VisibleAppend([s[i]], MergeFrom(s, i + 1));
      VisibleSplitSlice(s, i, i + 1);
      assert s[i..i + 1] == [s[i]];
    } else {
      match BreakFrom(s, i)
      case Some(b) =>
        MergeKeepsVisible(s, b.l);
        VisibleAppend(s[i..b.j] + s[b.k..b.l], MergeFrom(s, b.l));
        VisibleAppend(s[i..b.j], s[b.k..b.l]);
        VisibleBreak(s, i, b);
      case None =>
        var j := LetterEnd(s, i);
        MergeKeepsVisible(s, j);
        VisibleAppend(s[i..j], MergeFrom(s, j));
        VisibleSplitSlice(s, i, j);
    }
  }

  lemma LetterEndOf(s: string, i: nat, j: nat)
    requires i <= j <= |s| && forall p :: i <= p < j ==> IsAsciiLetter(s[p])
    requires j == |s| || !IsAsciiLetter(s[j])
    ensures LetterEnd(s, i) == j
    decreases j - i
  {
    if i < j {
      LetterEndOf(s, i + 1, j);
    }
  }

  lemma SpaceEndOf(s: string, i: nat, j: nat)
    requires i <= j <= |s| && forall p :: i <= p < j ==> IsSpace(s[p])
    requires j == |s| || !IsSpace(s[j])
    ensures SpaceEnd(s, i) == j
    decreases j - i
  {
    if i < j {
      SpaceEndOf(s, i + 1, j);
    }
  }

  /** A word followed by the end of the text or by a character that is neither a letter nor
      a hyphen is copied as it is. */
  lemma MergeWord(s: string, i: nat, j: nat)
    requires i < j <= |s| && forall p :: i <= p < j ==> IsAsciiLetter(s[p])
    requires j == |s| || (!IsAsciiLetter(s[j]) && s[j] != '-')
    ensures MergeFrom(s, i) == s[i..j] + MergeFrom(s, j)
  {
    LetterEndOf(s, i, j);
  }

  /** A word, a hyphen, a whitespace gap holding a newline and a second word become the two
      words written together. */
  lemma MergeJoinsBreak(s: string, i: nat, b: Break)
    requires i < b.j < b.k < b.l <= |s|
    requires forall p :: i <= p < b.j ==> IsAsciiLetter(s[p])
    requires s[b.j] == '-' && (forall p :: b.j < p < b.k ==> IsSpace(s[p])) && '\n' in s[b.j + 1..b.k]
    requires forall p :: b.k <= p < b.l ==> IsAsciiLetter(s[p])
    requires b.l == |s| || !IsAsciiLetter(s[b.l])
    ensures MergeFrom(s, i) == s[i..b.j] + s[b.k..b.l] + MergeFrom(s, b.l)
  {
    LetterEndOf(s, i, b.j);
    SpaceEndOf(s, b.j + 1, b.k);
    LetterEndOf(s, b.k, b.l);
    BreakFromIs(s, i, b);
  }

  lemma BreakFromIs(s: string, i: nat, b: Break)
    requires i < b.j < |s| && LetterEnd(s, i) == b.j && s[b.j] == '-'
    requires b.j < b.k < |s| && SpaceEnd(s, b.j + 1) == b.k && '\n' in s[b.j + 1..b.k]
    requires IsAsciiLetter(s[b.k]) && LetterEnd(s, b.k) == b.l
    ensures BreakFrom(s, i) == Some(b)
  {
  }

  /** A text without a hyphen is left as it is. */
  lemma MergeWithoutHyphen(s: string)
    requires '-' !in s
    ensures MergeHyphenatedWords(s) == s
  {
    MergeWithoutBreak(s, 0);
  }

  /** A word, a hyphen, a whitespace gap holding a newline and a second word become the two
      words written together; the continuation may start with a capital letter, as nothing checks
      its case. */
  lemma MergeJoinsWords(a: string, gap: string, b: string)
    requires a != [] && b != [] && AllSpace(gap) && '\n' in gap
    requires forall p :: 0 <= p < |a| ==> IsAsciiLetter(a[p])
    requires forall p :: 0 <= p < |b| ==> IsAsciiLetter(b[p])
    ensures MergeHyphenatedWords(a + "-" + gap + b) == a + b
  {
    var s := a + "-" + gap + b;
    var k := |a| + 1 + |gap|;
    assert s[|a| + 1..k] == gap;
    assert s[0..|a|] == a && s[k..|s|] == b;
    forall p | 0 <= p < |a| ensures IsAsciiLetter(s[p]) {
      assert s[p] == a[p];
    }
    forall p | k <= p < |s| ensures IsAsciiLetter(s[p]) {
      assert s[p] == b[p - k];
    }
    forall p | |a| < p < k ensures IsSpace(s[p]) {
      assert s[p] == gap[p - |a| - 1];
    }
    MergeJoinsBreak(s, 0, Break(|a|, k, |s|));
    assert MergeFrom(s, |s|) == [];
    assert MergeFrom(s, 0) == a + b + [];
  }

  /** A one-letter continuation that itself ends in a hyphen break keeps that second break:
      the first pass joins the first pair of words only. */
  lemma MergeChainFirst(x: char, y: char, z: char)
    requires IsAsciiLetter(x) && IsAsciiLetter(y) && IsAsciiLetter(z)
    ensures MergeHyphenatedWords([x, '-', '\n', y, '-', '\n', z]) == [x, y, '-', '\n', z]
  {
    var s := [x, '-', '\n', y, '-', '\n', z];
    MergeWord(s, 6, 7);
    assert MergeFrom(s, 4) == ['-', '\n', z];
    assert s[2..3] == "\n";
    MergeJoinsBreak(s, 0, Break(1, 3, 4));
    assert s[0..1] == [x] && s[3..4] == [y];
  }

  /** The second pass joins the rest. */
  lemma MergeChainSecond(x: char, y: char, z: char)
    requires IsAsciiLetter(x) && IsAsciiLetter(y) && IsAsciiLetter(z)
    ensures MergeHyphenatedWords([x, y, '-', '\n', z]) == [x, y, z]
  {
    var t := [x, y, '-', '\n', z];
    assert t[3..4] == "\n";
    MergeJoinsBreak(t, 0, Break(2, 4, 5));
    assert t[0..2] == [x, y] && t[4..5] == [z];
  }

  /** One pass is not a fixpoint: a continuation that itself ends in a hyphen break stays. */
  lemma MergeIsNotIdempotent()
    ensures MergeHyphenatedWords("a-\nb-\nc") == "ab-\nc"
    ensures MergeHyphenatedWords("ab-\nc") == "abc"
  {
    MergeChainFirst('a', 'b', 'c');
    MergeChainSecond('a', 'b', 'c');
  }

  // ===========================================================================
  // detect_and_remove_headers_footers

  /** A layout element of a page: its vertical position, its type ("text", "table", ...) and
      its content. */
  datatype Element = Element(y: real, kind: string, content: string)

  /** The key a text element is counted under: its stripped content, when longer than three
      characters; shorter texts are ignored as artifacts. */
  predicate CountedAs(e: Element, t: string) {
    e.kind == "text" && Strip(e.content) == t && |t| > 3
  }

  /** How many elements of one page are counted under t. */
  function PageOccurrences(page: seq<Element>, t: string): nat {
    if page == [] then 0
    else PageOccurrences(page[..|page| - 1], t) + (if CountedAs(page[|page| - 1], t) then 1 else 0)
  }

  /** How many elements of all pages are counted under t. */
  function Occurrences(pages: seq<seq<Element>>, t: string): nat {
    if pages == [] then 0
    else Occurrences(pages[..|pages| - 1], t) + PageOccurrences(pages[|pages| - 1], t)
  }

  /** A text is a header or footer when it was counted and its count, relative to the number
      of pages, reaches the threshold. */
  predicate IsRepeater(pages: seq<seq<Element>>, threshold: real, t: string) {
    |pages| > 0 && Occurrences(pages, t) > 0
    && (Occurrences(pages, t) as real) / (|pages| as real) >= threshold
  }

  /** The threshold `detect_and_remove_headers_footers` uses when none is given. */
  const DefaultThreshold: real := 0.6

  /** Under the default threshold a text is a header or footer exactly when it is counted on
      at least three pages in five. */
  lemma DefaultThresholdShare(pages: seq<seq<Element>>, t: string)
    requires |pages| > 0
    ensures IsRepeater(pages, DefaultThreshold, t) <==>
      Occurrences(pages, t) > 0 && 5 * Occurrences(pages, t) >= 3 * |pages|
  {
    ShareAtLeast(Occurrences(pages, t), |pages|);
  }

  /** A count o out of n reaches 0.6 exactly when 5o is at least 3n. */
  lemma ShareAtLeast(o: nat, n: nat)
    requires n > 0
    ensures o as real / n as real >= 0.6 <==> 5 * o >= 3 * n
  {
    RatioAtLeast(o as real, n as real);
  }

  lemma RatioAtLeast(x: real, y: real)
    requires y > 0.0
    ensures x / y >= 0.6 <==> 5.0 * x >= 3.0 * y
  {
    var q := x / y;
    assert q * y == x;
    if q >= 0.6 {
      assert (q - 0.6) * y >= 0.0;
    } else {
      assert (0.6 - q) * y > 0.0;
    }
  }

  /** An element is dropped when there are at least three pages and it is a text element whose
      stripped content is a header or footer. */
  predicate Dropped(pages: seq<seq<Element>>, threshold: real, e: Element) {
    |pages| >= 3 && e.kind == "text" && IsRepeater(pages, threshold, Strip(e.content))
  }

  /** The elements of a page that are not dropped, in their order. */
  function KeptElements(page: seq<Element>, pages: seq<seq<Element>>, threshold: real): seq<Element> {
    if page == [] then []
    else
      var last := page[|page| - 1];
      KeptElements(page[..|page| - 1], pages, threshold) + (if Dropped(pages, threshold, last) then [] else [last])
  }

  function CountOf(counts: map<string, nat>, t: string): nat {
    if t in counts then counts[t] else 0
  }

  /** detect_and_remove_headers_footers: count the stripped text of text elements across all
      pages, and remove from every page the text elements whose text repeats on at least the
      threshold fraction of the pages. Fewer than three pages come back unchanged. */
  method DetectAndRemoveHeadersFooters(pages: seq<seq<Element>>, threshold: real)
    returns (cleaned: seq<seq<Element>>)
    ensures |cleaned| == |pages|
    ensures forall q :: 0 <= q < |pages| ==> cleaned[q] == KeptElements(pages[q], pages, threshold)
    ensures |pages| < 3 ==> cleaned == pages
  {
    if |pages| < 3 {
      KeptAllWhenFewPages(pages, threshold);
      return pages;
    }
    var candidates := CountCandidates(pages);
    var totalPages := |pages|;
    var repeaters := set t | t in candidates && (candidates[t] as real) / (totalPages as real) >= threshold;
    assert forall t :: t in repeaters <==> IsRepeater(pages, threshold, t);

    cleaned := [];
    var p := 0;
    while p < |pages|
      invariant 0 <= p <= |pages| && |cleaned| == p
      invariant forall q :: 0 <= q < p ==> cleaned[q] == KeptElements(pages[q], pages, threshold)
    {
      var newPage := RemoveRepeaters(pages[p], repeaters, pages, threshold);
      cleaned := cleaned + [newPage];
      p := p + 1;
    }
  }

  /** The Counter of the stripped texts of text elements longer than three characters. */
  method CountCandidates(pages: seq<seq<Element>>) returns (candidates: map<string, nat>)
    ensures forall t :: CountOf(candidates, t) == Occurrences(pages, t)
    ensures forall t :: t in candidates ==> candidates[t] > 0
  {
    candidates := map[];
    var p := 0;
    while p < |pages|
      invariant 0 <= p <= |pages|
      invariant forall t :: CountOf(candidates, t) == Occurrences(pages[..p], t)
      invariant forall t :: t in candidates ==> candidates[t] > 0
    {
      var page := pages[p];
      var i := 0;
      while i < |page|
        invariant 0 <= i <= |page|
        invariant forall t :: CountOf(candidates, t) == Occurrences(pages[..p], t) + PageOccurrences(page[..i], t)
        invariant forall t :: t in candidates ==> candidates[t] > 0
      {
        var elem := page[i];
        assert page[..i + 1][..i] == page[..i];
        if elem.kind == "text" {
          var cleanText := Strip(elem.content);
          if |cleanText| > 3 {
            candidates := candidates[cleanText := CountOf(candidates, cleanText) + 1];
          }
        }
        i := i + 1;
      }
      assert page[..|page|] == page;
      assert pages[..p + 1][..p] == pages[..p];
      p := p + 1;
    }
    assert pages[..|pages|] == pages;
  }

  /** One page without the text elements whose stripped content is among the repeaters. */
  method RemoveRepeaters(page: seq<Element>, repeaters: set<string>, ghost pages: seq<seq<Element>>, ghost threshold: real)
    returns (newPage: seq<Element>)
    requires |pages| >= 3
    requires forall t :: t in repeaters <==> IsRepeater(pages, threshold, t)
    ensures newPage == KeptElements(page, pages, threshold)
  {
    newPage := [];
    var i := 0;
    while i < |page|
      invariant 0 <= i <= |page|
      invariant newPage == KeptElements(page[..i], pages, threshold)
    {
      var elem := page[i];
      assert page[..i + 1][..i] == page[..i];
      var skip := false;
      if elem.kind == "text" {
        var cleanText := Strip(elem.content);
        skip := cleanText in repeaters;
      }
      if !skip {
        newPage := newPage + [elem];
      }
      i := i + 1;
    }
    assert page[..|page|] == page;
  }

  lemma {:induction false} KeptAllWhenFewPages(pages: seq<seq<Element>>, threshold: real)
    requires |pages| < 3
    ensures forall q :: 0 <= q < |pages| ==> KeptElements(pages[q], pages, threshold) == pages[q]
  {
    forall q | 0 <= q < |pages| {
      KeptWhenNothingDropped(pages[q], pages, threshold);
    }
  }

  lemma {:induction false} KeptWhenNothingDropped(page: seq<Element>, pages: seq<seq<Element>>, threshold: real)
    requires |pages| < 3
    ensures KeptElements(page, pages, threshold) == page
  {
    if page != [] {
      KeptWhenNothingDropped(page[..|page| - 1], pages, threshold);
    }
  }

  /** a is a subsequence of b: b with some elements removed, the rest in their order. */
  ghost predicate SubsequenceOf<T>(a: seq<T>, b: seq<T>) {
    if b == [] then a == []
    else
      || (a != [] && a[|a| - 1] == b[|b| - 1] && SubsequenceOf(a[..|a| - 1], b[..|b| - 1]))
      || SubsequenceOf(a, b[..|b| - 1])
  }

  /** Removal only deletes elements: what is kept is in its original order. */
  lemma {:induction false} KeptIsSubsequence(page: seq<Element>, pages: seq<seq<Element>>, threshold: real)
    ensures SubsequenceOf(KeptElements(page, pages, threshold), page)
  {
    if page != [] {
      var init := page[..|page| - 1];
      KeptIsSubsequence(init, pages, threshold);
      var k := KeptElements(page, pages, threshold);
      if !Dropped(pages, threshold, page[|page| - 1]) {
        assert k[..|k| - 1] == KeptElements(init, pages, threshold);
      } else {
        assert k == KeptElements(init, pages, threshold);
        assert page[..|page| - 1] == init;
      }
    }
  }

  /** An element survives exactly when it was on the page and is not a dropped header or
      footer: tables, short texts and texts below the threshold always stay. */
  lemma {:induction false} KeptIff(page: seq<Element>, pages: seq<seq<Element>>, threshold: real, e: Element)
    ensures e in KeptElements(page, pages, threshold) <==> e in page && !Dropped(pages, threshold, e)
  {
    if page != [] {
      var init := page[..|page| - 1];
      KeptIff(init, pages, threshold, e);
      assert page == init + [page[|page| - 1]];
    }
  }

  lemma {:induction false} PageShortNeverCounted(page: seq<Element>, t: string)
    requires |t| <= 3
    ensures PageOccurrences(page, t) == 0
  {
    if page != [] {
      PageShortNeverCounted(page[..|page| - 1], t);
    }
  }

  lemma {:induction false} ShortNeverCounted(pages: seq<seq<Element>>, t: string)
    requires |t| <= 3
    ensures Occurrences(pages, t) == 0
  {
    if pages != [] {
      ShortNeverCounted(pages[..|pages| - 1], t);
      PageShortNeverCounted(pages[|pages| - 1], t);
    }
  }

  /** Tables and other non-text elements, and texts of at most three characters once stripped,
      are never removed, whatever the threshold. */
  lemma ShortOrNonTextKept(page: seq<Element>, pages: seq<seq<Element>>, threshold: real, e: Element)
    requires e in page && (e.kind != "text" || |Strip(e.content)| <= 3)
    ensures e in KeptElements(page, pages, threshold)
  {
    KeptIff(page, pages, threshold, e);
    if e.kind == "text" {
      ShortNeverCounted(pages, Strip(e.content));
    }
  }

  lemma {:induction false} PageOccurrencesPositive(page: seq<Element>, t: string, i: nat)
    requires i < |page| && CountedAs(page[i], t)
    ensures PageOccurrences(page, t) > 0
  {
    if i < |page| - 1 {
      assert page[..|page| - 1][i] == page[i];
      PageOccurrencesPositive(page[..|page| - 1], t, i);
    }
  }

  lemma {:induction false} OccurrencesAtLeastPages(pages: seq<seq<Element>>, t: string)
    requires forall q :: 0 <= q < |pages| ==> PageOccurrences(pages[q], t) > 0
    ensures Occurrences(pages, t) >= |pages|
  {
    if pages != [] {
      OccurrencesAtLeastPages(pages[..|pages| - 1], t);
    }
  }

  lemma RatioAtLeastOne(a: nat, n: nat)
    requires 0 < n <= a
    ensures (a as real) / (n as real) >= 1.0
  {
    assert (a as real) >= (n as real);
  }

  /** A text that stands on every page (of at least three) is removed from all of them, for any
      threshold up to 1. */
  lemma HeaderOnEveryPageRemoved(pages: seq<seq<Element>>, threshold: real, t: string)
    requires |pages| >= 3 && threshold <= 1.0
    requires forall q :: 0 <= q < |pages| ==> exists i :: 0 <= i < |pages[q]| && CountedAs(pages[q][i], t)
    ensures forall q, e :: 0 <= q < |pages| && e in KeptElements(pages[q], pages, threshold) ==> !CountedAs(e, t)
  {
    forall q | 0 <= q < |pages| ensures PageOccurrences(pages[q], t) > 0 {
      var i :| 0 <= i < |pages[q]| && CountedAs(pages[q][i], t);
      PageOccurrencesPositive(pages[q], t, i);
    }
    OccurrencesAtLeastPages(pages, t);
    RatioAtLeastOne(Occurrences(pages, t), |pages|);
    assert IsRepeater(pages, threshold, t);
    forall q, e | 0 <= q < |pages| && e in KeptElements(pages[q], pages, threshold)
      ensures !CountedAs(e, t)
    {
      KeptIff(pages[q], pages, threshold, e);
    }
  }

  // ===========================================================================
  // defragment_text

  /** The line ends a sentence: its last character is one of `.`, `?`, `!`, `:`. */
  predicate EndsWithTerminal(line: string) {
    line != [] && line[|line| - 1] in {'.', '?', '!', ':'}
  }

  /** A stripped line is joined to the next one when both are non-blank and it does not end a
      sentence. */
  predicate Joins(line: string, next: string) {
    line != [] && next != [] && !EndsWithTerminal(line)
  }

  /** The paragraphs of a sequence of stripped lines: each blank line stays an empty
      paragraph, and a run of non-blank lines is joined with single spaces up to each line that
      ends a sentence. */
  function Paragraphs(ls: seq<string>): (ps: seq<string>)
    ensures |ps| <= |ls|
    ensures ls != [] ==> ps != [] && (ps[0] == [] <==> ls[0] == [])
  {
    if ls == [] then []
    else
      var rest := Paragraphs(ls[1..]);
      if |ls| > 1 && Joins(ls[0], ls[1]) then [ls[0] + " " + rest[0]] + rest[1..]
      else [ls[0]] + rest
  }

  /** Every line stripped. */
  function StripAll(ls: seq<string>): (r: seq<string>)
    ensures |r| == |ls|
  {
    if ls == [] then [] else [Strip(ls[0])] + StripAll(ls[1..])
  }

  lemma {:induction false} StripAllSnoc(ls: seq<string>, x: string)
    ensures StripAll(ls + [x]) == StripAll(ls) + [Strip(x)]
  {
    if ls != [] {
      assert (ls + [x])[1..] == ls[1..] + [x];
      StripAllSnoc(ls[1..], x);
    }
  }

  lemma StripAllPrefix(ls: seq<string>, i: nat)
    requires i < |ls|
    ensures StripAll(ls[..i + 1]) == StripAll(ls[..i]) + [Strip(ls[i])]
  {
    assert ls[..i + 1] == ls[..i] + [ls[i]];
    StripAllSnoc(ls[..i], ls[i]);
  }

  /** The paragraph under construction, as a list of zero or one paragraph. */
  function Pending(current: string): seq<string> {
    if current == [] then [] else [current]
  }

  /** Adding one more line either extends the last paragraph or starts a new one. */
  lemma {:induction false} ParagraphsSnoc(xs: seq<string>, x: string)
    requires xs != []
    ensures var p := Paragraphs(xs);
      Paragraphs(xs + [x]) ==
        if Joins(xs[|xs| - 1], x) then p[..|p| - 1] + [p[|p| - 1] + " " + x] else p + [x]
  {
    var a := xs[0];
    var ys := xs[1..];
    assert xs == [a] + ys && xs + [x] == [a] + (ys + [x]);
    ParagraphsCons(a, ys + [x]);
    if ys == [] {
      assert Paragraphs(ys + [x]) == [x];
    } else {
      ParagraphsCons(a, ys);
      ParagraphsSnoc(ys, x);
      assert ys[|ys| - 1] == xs[|xs| - 1];
      var q := Paragraphs(ys);
      var r := Paragraphs(ys + [x]);
      var joined := Joins(ys[|ys| - 1], x);
      if Joins(a, ys[0]) {
        PrefixFirstSnoc(a, q, r, x, joined);
      } else {
        PrefixSnoc(a, q, r, x, joined);
      }
    }
  }

  /** A line in front either joins the first paragraph or starts one of its own. */
  lemma ParagraphsCons(a: string, ys: seq<string>)
    requires ys != []
    ensures var q := Paragraphs(ys);
      Paragraphs([a] + ys) == if Joins(a, ys[0]) then [a + " " + q[0]] + q[1..] else [a] + q
  {
    assert ([a] + ys)[1..] == ys;
  }

  /** Putting a paragraph in front commutes with extending or appending at the end. */
  lemma PrefixSnoc(a: string, q: seq<string>, r: seq<string>, x: string, joined: bool)
    requires q != []
    requires r == if joined then q[..|q| - 1] + [q[|q| - 1] + " " + x] else q + [x]
    ensures var p := [a] + q;
      [a] + r == if joined then p[..|p| - 1] + [p[|p| - 1] + " " + x] else p + [x]
  {
    var p := [a] + q;
    if joined {
      assert p[..|p| - 1] == [a] + q[..|q| - 1];
    }
  }

  /** Prefixing a line to the first paragraph commutes with extending or appending at the end. */
  lemma PrefixFirstSnoc(a: string, q: seq<string>, r: seq<string>, x: string, joined: bool)
    requires q != []
    requires r == if joined then q[..|q| - 1] + [q[|q| - 1] + " " + x] else q + [x]
    ensures var p := [a + " " + q[0]] + q[1..];
      [a + " " + r[0]] + r[1..] ==
        if joined then p[..|p| - 1] + [p[|p| - 1] + " " + x] else p + [x]
  {
    var p := [a + " " + q[0]] + q[1..];
    if !joined {
      assert r[0] == q[0] && r[1..] == q[1..] + [x];
    } else if |q| == 1 {
      assert r == [q[0] + " " + x];
      assert a + " " + (q[0] + " " + x) == (a + " " + q[0]) + " " + x;
    } else {
      assert r[0] == q[0] && r[1..] == q[1..|q| - 1] + [q[|q| - 1] + " " + x];
      assert p[..|p| - 1] == [a + " " + q[0]] + q[1..|q| - 1] && p[|p| - 1] == q[|q| - 1];
    }
  }

  /** What one more stripped line does to the finished paragraphs and the pending one, in each of
      the four cases of the loop body of defragment_text. */
  lemma ParagraphsFeed(xs: seq<string>, x: string, merged: seq<string>, current: string)
    requires Paragraphs(xs) == merged + Pending(current)
    requires current == [] <==> xs == [] || xs[|xs| - 1] == []
    requires current != [] ==> EndsWithTerminal(current) == EndsWithTerminal(xs[|xs| - 1])
    ensures x == [] ==> Paragraphs(xs + [x]) == merged + Pending(current) + [[]]
    ensures x != [] && current == [] ==> Paragraphs(xs + [x]) == merged + [x]
    ensures x != [] && current != [] && EndsWithTerminal(current)
      ==> Paragraphs(xs + [x]) == merged + [current] + [x]
    ensures x != [] && current != [] && !EndsWithTerminal(current)
      ==> Paragraphs(xs + [x]) == merged + [current + " " + x]
  {
    if xs == [] {
      assert xs + [x] == [x];
    } else {
      ParagraphsSnoc(xs, x);
      var p := Paragraphs(xs);
      if current != [] {
        assert p[..|p| - 1] == merged && p[|p| - 1] == current;
      }
    }
  }

  /** defragment_text: split the text into lines, strip each, join each line that does not end a
      sentence to the next non-blank line, keep blank lines as empty paragraphs, and join the
      paragraphs with newlines. */
  method DefragmentText(text: string) returns (r: string)
    ensures r == JoinWith(Paragraphs(StripAll(Split(text, '\n'))), '\n')
    ensures Words(r) == Words(text)
  {
    var lines := Split(text, '\n');
    var merged := MergeLines(lines);
    r := JoinWith(merged, '\n');
    DefragmentKeepsWords(text);
  }

  /** The loop of defragment_text over the lines of the text. */
  method MergeLines(lines: seq<string>) returns (merged: seq<string>)
    ensures merged == Paragraphs(StripAll(lines))
  {
    ghost var done: seq<string> := [];
    merged := [];
    var current: string := "";
    var i := 0;
    while i < |lines|
      invariant 0 <= i <= |lines| && done == StripAll(lines[..i])
      invariant Defragmenting(done, merged, current)
    {
      var line := Strip(lines[i]);
      StripAllPrefix(lines, i);
      merged, current := FeedLine(done, merged, current, line);
      done := done + [line];
      i := i + 1;
    }
    assert lines[..|lines|] == lines;
    if current != [] {
      merged := merged + [current];
    }
  }

  /** The state of the loop of defragment_text after the stripped lines `done`: the finished
      paragraphs and the pending one are the paragraphs of `done`, a paragraph is pending exactly
      when the last line is not blank, and it ends a sentence exactly when that line does. */
  ghost predicate Defragmenting(done: seq<string>, merged: seq<string>, current: string) {
    && Paragraphs(done) == merged + Pending(current)
    && (current == [] <==> done == [] || done[|done| - 1] == [])
    && (current != [] ==> EndsWithTerminal(current) == EndsWithTerminal(done[|done| - 1]))
  }

  /** One pass of the loop of defragment_text: a blank line flushes the pending paragraph and
      adds an empty one; a non-blank line starts a paragraph, ends the pending one first when it
      ends a sentence, or is appended to it after a space. */
  method FeedLine(ghost done: seq<string>, merged: seq<string>, current: string, line: string)
    returns (merged': seq<string>, current': string)
    requires Defragmenting(done, merged, current)
    ensures Defragmenting(done + [line], merged', current')
  {
    ParagraphsFeed(done, line, merged, current);
    ghost var last := (done + [line])[|done|];
    assert last == line;
    merged', current' := merged, current;
    if line == [] {
      if current != [] {
        merged' := merged' + [current];
        current' := "";
      }
      merged' := merged' + [""];
      assert merged' + Pending(current') == merged + Pending(current) + [[]];
    } else if current == [] {
      current' := line;
      assert merged' + Pending(current') == merged + [line];
    } else if EndsWithTerminal(current) {
      merged' := merged' + [current];
      current' := line;
      assert merged' + Pending(current') == merged + [current] + [line];
    } else {
      current' := current + " " + line;
      assert current'[|current'| - 1] == line[|line| - 1];
      assert merged' + Pending(current') == merged + [current + " " + line];
    }
  }

  /** Joining lines and re-splitting the text at newlines neither adds nor loses a word. */
  lemma DefragmentKeepsWords(text: string)
    ensures Words(JoinWith(Paragraphs(StripAll(Split(text, '\n'))), '\n')) == Words(text)
  {
    var lines := Split(text, '\n');
    WordsJoin(Paragraphs(StripAll(lines)), '\n');
    ParagraphsKeepWords(StripAll(lines));
    StripAllKeepsWords(lines);
    WordsJoin(lines, '\n');
    JoinSplit(text, '\n');
  }

  lemma {:induction false} StripAllKeepsWords(ls: seq<string>)
    ensures WordsOfAll(StripAll(ls)) == WordsOfAll(ls)
  {
    if ls != [] {
      StripAllKeepsWords(ls[1..]);
      WordsStrip(ls[0]);
    }
  }

  /** Joining lines into paragraphs keeps every word, in order. */
  lemma {:induction false} ParagraphsKeepWords(ls: seq<string>)
    ensures WordsOfAll(Paragraphs(ls)) == WordsOfAll(ls)
  {
    if ls != [] {
      var rest := Paragraphs(ls[1..]);
      ParagraphsKeepWords(ls[1..]);
      if |ls| > 1 && Joins(ls[0], ls[1]) {
        WordsSep(ls[0], ' ', rest[0]);
        assert ls[0] + " " + rest[0] == ls[0] + [' '] + rest[0];
        assert ([ls[0] + " " + rest[0]] + rest[1..])[1..] == rest[1..];
        assert WordsOfAll(rest) == Words(rest[0]) + WordsOfAll(rest[1..]);
      } else {
        assert ([ls[0]] + rest)[1..] == rest;
      }
    }
  }

  /** A line that is not joined to the next one ends its paragraph: the paragraphs of the two
      parts are simply put together. In particular a line ending in `.`, `?`, `!` or `:` is
      never joined to the line after it. */
  lemma {:induction false} ParagraphsSplitAt(xs: seq<string>, ys: seq<string>)
    requires xs != [] && ys != [] && !Joins(xs[|xs| - 1], ys[0])
    ensures Paragraphs(xs + ys) == Paragraphs(xs) + Paragraphs(ys)
  {
    if |xs| == 1 {
      assert (xs + ys)[1..] == ys;
      assert Paragraphs(xs) == [xs[0]];
    } else {
      var zs := xs + ys;
      assert zs[1..] == xs[1..] + ys;
      assert zs[0] == xs[0] && zs[1] == xs[1];
      ParagraphsSplitAt(xs[1..], ys);
      if Joins(xs[0], xs[1]) {
        PrefixFirstAppend(xs[0], Paragraphs(xs[1..]), Paragraphs(ys));
      }
    }
  }

  /** Prefixing a line to the first paragraph commutes with appending paragraphs at the end. */
  lemma PrefixFirstAppend(a: string, p: seq<string>, q: seq<string>)
    requires p != []
    ensures [a + " " + (p + q)[0]] + (p + q)[1..] == ([a + " " + p[0]] + p[1..]) + q
  {
    assert (p + q)[1..] == p[1..] + q;
  }

  /** Blank lines and paragraphs correspond one to one: there are as many empty paragraphs as
      blank lines. */
  lemma {:induction false} ParagraphsBlankCount(ls: seq<string>)
    ensures CountEmpty(Paragraphs(ls)) == CountEmpty(ls)
  {
    if ls != [] {
      ParagraphsBlankCount(ls[1..]);
      var rest := Paragraphs(ls[1..]);
      if |ls| > 1 && Joins(ls[0], ls[1]) {
        assert ([ls[0] + " " + rest[0]] + rest[1..])[1..] == rest[1..];
      } else {
        assert ([ls[0]] + rest)[1..] == rest;
      }
    }
  }

  function CountEmpty(ls: seq<string>): nat {
    if ls == [] then 0 else (if ls[0] == [] then 1 else 0) + CountEmpty(ls[1..])
  }

  /** Every paragraph built from stripped lines is itself stripped. */
  lemma {:induction false} ParagraphsStripped(ls: seq<string>)
    requires forall i :: 0 <= i < |ls| ==> IsStripped(ls[i])
    ensures forall i :: 0 <= i < |Paragraphs(ls)| ==> IsStripped(Paragraphs(ls)[i])
  {
    if ls != [] {
      ParagraphsStripped(ls[1..]);
    }
  }

  /** The first example of the cleaning tests: a line without final punctuation is joined. */
  lemma DefragmentJoinsSentence()
    ensures Paragraphs(["This is a sentence", "that was broken."]) == ["This is a sentence that was broken."]
  {
    var ls := ["This is a sentence", "that was broken."];
    assert ls[1..] == ["that was broken."];
    assert Joins(ls[0], ls[1]);
    assert ls[0] + " " + ls[1] == "This is a sentence that was broken.";
  }

  /** The second example: a colon ends a paragraph, a list item without final punctuation is
      joined to the next item. */
  lemma DefragmentListItems()
    ensures Paragraphs(["List item:", "- one", "- two"]) == ["List item:", "- one - two"]
  {
    var ls := ["List item:", "- one", "- two"];
    assert ls[1..] == ["- one", "- two"];
    assert ls[1..][1..] == ["- two"];
    assert |ls[0]| == 10 && ls[0][9] == ':';
    assert |ls[1]| == 5 && ls[1][4] == 'e';
    assert !Joins(ls[0], ls[1]) && Joins(ls[1], ls[2]);
    assert Paragraphs(ls[1..][1..]) == ["- two"];
    assert ls[1] + " " + ls[2] == "- one - two";
    assert Paragraphs(ls[1..]) == ["- one - two"];
  }
}
