/** `text.match(/\{[\s\S]*\}/)`: the part of a model's answer that holds
    its JSON object. The pattern starts at a `{`, takes any characters
    greedily and ends at a `}`; the leftmost start that allows a match wins,
    and from it the longest match. */
module JsonSpan {
  import opened Types
  import opened Text

  /** `text[a..b]` matches the pattern. */
  predicate IsMatch(text: string, a: int, b: int) {
    0 <= a && a + 2 <= b <= |text| && text[a] == '{' && text[b - 1] == '}'
  }

  /** The first index at or after `from` holding `c`. */
  function FirstIndex(s: string, c: char, from: nat): (r: Option<nat>)
    ensures r.Some? ==> (from <= r.value < |s| && s[r.value] == c
                         && forall k :: from <= k < r.value ==> s[k] != c)
    ensures r.None? ==> forall k :: from <= k < |s| ==> s[k] != c
    decreases |s| - from
  {
    if from >= |s| then None
    else if s[from] == c then Some(from)
    else FirstIndex(s, c, from + 1)
  }

  /** The last index below `upto` holding `c`. */
  function LastIndex(s: string, c: char, upto: nat): (r: Option<nat>)
    requires upto <= |s|
    ensures r.Some? ==> (r.value < upto && s[r.value] == c
                         && forall k :: r.value < k < upto ==> s[k] != c)
    ensures r.None? ==> forall k :: 0 <= k < upto ==> s[k] != c
  {
    if upto == 0 then None
    else if s[upto - 1] == c then Some(upto - 1)
    else LastIndex(s, c, upto - 1)
  }

  /** The bounds of the match: from the first `{` to just past the last
      `}`, provided that `}` comes after that `{`. */
  function MatchSpan(text: string): (r: Option<(int, int)>)
    ensures r.Some? ==> IsMatch(text, r.value.0, r.value.1)
    ensures r.Some? ==> forall k :: 0 <= k < |text| && text[k] == '{' ==> r.value.0 <= k
    ensures r.Some? ==> forall k :: 0 <= k < |text| && text[k] == '}' ==> k < r.value.1
  {
    match FirstIndex(text, '{', 0)
    case None => None
    case Some(a) =>
      match LastIndex(text, '}', |text|)
      case None => None
      case Some(j) => if a < j then Some((a, j + 1)) else None
  }

  /** `jsonMatch[0]`, or no match. */
  function JsonMatch(text: string): (r: Option<string>)
    ensures r.Some? ==> |r.value| >= 2 && r.value[0] == '{' && r.value[|r.value| - 1] == '}'
    ensures r.Some? ==> exists a :: OccursAt(text, r.value, a)
  {
    match MatchSpan(text)
    case None => None
    case Some((a, b)) =>
      assert OccursAt(text, text[a..b], a);
      Some(text[a..b])
  }

  /** Any match of the pattern means the span exists. */
  lemma MatchGivesSpan(text: string, a: int, b: int)
    requires IsMatch(text, a, b)
    ensures MatchSpan(text).Some?
  {
    var first := FirstIndex(text, '{', 0);
    var last := LastIndex(text, '}', |text|);
    assert first.Some? && first.value <= a;
    assert last.Some? && b - 1 <= last.value;
  }

  /** The span is the leftmost, and from there the longest, match of the
      pattern; there is none exactly when no `}` follows a `{`. */
  lemma MatchSpanIsLeftmostLongest(text: string)
    ensures MatchSpan(text).None? <==> forall a, b :: !IsMatch(text, a, b)
    ensures MatchSpan(text).Some? ==> forall a, b :: IsMatch(text, a, b) ==>
      MatchSpan(text).value.0 <= a && b <= MatchSpan(text).value.1
  {
    forall a, b | IsMatch(text, a, b) ensures MatchSpan(text).Some? {
      MatchGivesSpan(text, a, b);
    }
  }

  /** A `{` with no `}` after it: no match, whatever comes before. */
  lemma NoMatchWithoutClosingBrace(text: string, a: nat)
    requires a < |text| && text[a] == '{'
    requires forall k :: 0 <= k < a ==> text[k] != '{'
    requires forall k :: a < k < |text| ==> text[k] != '}'
    ensures JsonMatch(text).None?
  {
    forall a', b' ensures !IsMatch(text, a', b') {
    }
    MatchSpanIsLeftmostLongest(text);
  }
}
