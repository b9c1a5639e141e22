/** Case-insensitive search for the fixed hallucination phrases. Every such pattern is an
    alternation of literal words, so it is written out here as the list of lower-case phrases
    it matches, in the order the regex engine tries its alternatives. */
module Phrases {
  import opened Text

  /** A pattern: its regex source text, and the phrases it matches. */
  datatype Pattern = Pattern(source: string, phrases: seq<string>)

  /** No phrase is empty (an empty match would never advance a scan). */
  predicate NonEmptyPhrases(ps: seq<string>) {
    forall k :: 0 <= k < |ps| ==> |ps[k]| > 0
  }

  /** `re.search(pattern, line, re.IGNORECASE)` finds something. */
  predicate Searches(line: string, pat: Pattern) {
    exists k :: 0 <= k < |pat.phrases| && Contains(LowerStr(line), pat.phrases[k])
  }

  /** The first alternative (as the regex tries them) that matches at index i of l, or -1. */
  function PhraseAt(l: string, ps: seq<string>, i: nat): (k: int)
    ensures k == -1 || (0 <= k < |ps| && OccursAt(l, ps[k], i))
    ensures k == -1 ==> forall j :: 0 <= j < |ps| ==> !OccursAt(l, ps[j], i)
    ensures k != -1 ==> forall j :: 0 <= j < k ==> !OccursAt(l, ps[j], i)
    decreases |ps|
  {
    if ps == [] then -1
    else if OccursAt(l, ps[0], i) then 0
    else
      var k := PhraseAt(l, ps[1..], i);
      if k == -1 then -1 else k + 1
  }

  /** One match of a finditer scan: where it starts and how long it is. */
  datatype Match = Match(start: nat, len: nat)

  /** `re.finditer(pattern, l)` over the lower-cased line l, for the scan resumed at i:
      the matches, left to right, none overlapping the one before. */
  function FindIterFrom(l: string, ps: seq<string>, i: nat): seq<Match>
    requires NonEmptyPhrases(ps)
    requires i <= |l|
    decreases |l| - i
  {
    if i == |l| then []
    else
      var k := PhraseAt(l, ps, i);
      if k == -1 then FindIterFrom(l, ps, i + 1)
      else [Match(i, |ps[k]|)] + FindIterFrom(l, ps, i + |ps[k]|)
  }

  /** The matches of a pattern in a line, case-insensitively. */
  function FindIter(line: string, pat: Pattern): seq<Match>
    requires NonEmptyPhrases(pat.phrases)
  {
    FindIterFrom(LowerStr(line), pat.phrases, 0)
  }

  /** Every match lies inside the line and spells one of the phrases there. */
  lemma {:induction false} FindIterFromSound(l: string, ps: seq<string>, i: nat)
    requires NonEmptyPhrases(ps) && i <= |l|
    ensures forall m :: m in FindIterFrom(l, ps, i) ==>
      i <= m.start && m.start + m.len <= |l|
      && exists k :: 0 <= k < |ps| && |ps[k]| == m.len && OccursAt(l, ps[k], m.start)
    decreases |l| - i
  {
    if i < |l| {
      var k := PhraseAt(l, ps, i);
      if k == -1 {
        FindIterFromSound(l, ps, i + 1);
      } else {
        FindIterFromSound(l, ps, i + |ps[k]|);
      }
    }
  }

  /** The scan finds nothing exactly when no phrase occurs at or after i. */
  lemma {:induction false} FindIterFromEmpty(l: string, ps: seq<string>, i: nat)
    requires NonEmptyPhrases(ps) && i <= |l|
    ensures FindIterFrom(l, ps, i) == [] <==>
      forall j, k :: i <= j < |l| && 0 <= k < |ps| ==> !OccursAt(l, ps[k], j)
    decreases |l| - i
  {
    if i < |l| && PhraseAt(l, ps, i) == -1 {
      FindIterFromEmpty(l, ps, i + 1);
    }
  }

  /** Contains, spelled out: some occurrence at an index of s. */
  lemma ContainsIff(s: string, p: string)
    requires |p| > 0
    ensures Contains(s, p) <==> exists j :: 0 <= j < |s| && OccursAt(s, p, j)
  {
    if Contains(s, p) {
      assert OccursAt(s, p, Find(s, p, 0));
    }
  }

  /** `re.finditer` yields a match exactly when `re.search` finds one: the OpenRouter and
      base validators agree on which lines a pattern hits. */
  lemma FindIterIffSearches(line: string, pat: Pattern)
    requires NonEmptyPhrases(pat.phrases)
    ensures FindIter(line, pat) != [] <==> Searches(line, pat)
  {
    var l := LowerStr(line);
    var ps := pat.phrases;
    FindIterFromEmpty(l, ps, 0);
    forall k | 0 <= k < |ps|
      ensures Contains(l, ps[k]) <==> exists j :: 0 <= j < |l| && OccursAt(l, ps[k], j)
    {
      ContainsIff(l, ps[k]);
    }
  }
}
