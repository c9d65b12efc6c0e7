/** The two regular expressions the script uses, `(\S+)` and `<literal>(\S+)`,
    and `re.search` restricted to them: leftmost match, greedy capture. */
module Patterns {
  import opened Wrappers

  /** Python 3's `\s` on text: the characters for which `str.isspace()` holds. */
  predicate IsWhitespace(c: char)
  {
    '\t' <= c <= '\r' || '\U{1C}' <= c <= ' ' || c == '\U{85}' || c == '\U{A0}'
    || c == '\U{1680}' || '\U{2000}' <= c <= '\U{200A}' || c == '\U{2028}' || c == '\U{2029}'
    || c == '\U{202F}' || c == '\U{205F}' || c == '\U{3000}'
  }

  /** The regular expression `prefix(\S+)`: a literal prefix (possibly empty)
      followed by one capturing group of one or more non-whitespace characters. */
  datatype Pattern = Pattern(prefix: string)

  /** `(\S+)` */
  const AnyToken := Pattern("")

  /** The pattern can start matching at position `i` of `text`: the prefix occurs
      there and is immediately followed by a non-whitespace character. */
  predicate MatchesAt(p: Pattern, text: string, i: nat)
  {
    i + |p.prefix| < |text| && text[i..i + |p.prefix|] == p.prefix && !IsWhitespace(text[i + |p.prefix|])
  }

  /** The end of the maximal run of non-whitespace characters starting at `k`
      (what the greedy `\S+` consumes). */
  function RunEnd(text: string, k: nat): (e: nat)
    requires k <= |text|
    ensures k <= e <= |text|
    ensures forall j :: k <= j < e ==> !IsWhitespace(text[j])
    ensures e == |text| || IsWhitespace(text[e])
    decreases |text| - k
  {
    if k == |text| || IsWhitespace(text[k]) then k else RunEnd(text, k + 1)
  }

  /** The text captured by the group when the prefix ends at `k`. */
  function Capture(text: string, k: nat): string
    requires k <= |text|
  {
    text[k..RunEnd(text, k)]
  }

  /** The leftmost position at or after `i` where the pattern matches. */
  function FirstMatch(p: Pattern, text: string, i: nat): (r: Option<nat>)
    requires i <= |text|
    ensures r.Some? ==> i <= r.value && MatchesAt(p, text, r.value)
    ensures r.Some? ==> forall j :: i <= j < r.value ==> !MatchesAt(p, text, j)
    ensures r.None? ==> forall j: nat :: i <= j ==> !MatchesAt(p, text, j)
    decreases |text| - i
  {
    if i == |text| then None
    else if MatchesAt(p, text, i) then Some(i)
    else FirstMatch(p, text, i + 1)
  }

  /** `re.search(pattern, text)` followed by `.group(1)`: `None` when there is no
      match, otherwise the captured token. */
  function Search(p: Pattern, text: string): (r: Option<string>)
    ensures r.None? <==> forall j: nat :: !MatchesAt(p, text, j)
    ensures r.Some? ==> |r.value| > 0
    ensures r.Some? ==> forall k :: 0 <= k < |r.value| ==> !IsWhitespace(r.value[k])
  {
    match FirstMatch(p, text, 0)
    case None => None
    case Some(i) => Some(Capture(text, i + |p.prefix|))
  }

  /** The match is the leftmost one, and the token is the whole run of
      non-whitespace characters after the prefix: it ends at the end of the
      text or just before a whitespace character. */
  lemma SearchLeftmost(p: Pattern, text: string, i: nat)
    requires MatchesAt(p, text, i)
    requires forall j :: 0 <= j < i ==> !MatchesAt(p, text, j)
    ensures Search(p, text) == Some(Capture(text, i + |p.prefix|))
    ensures var e := i + |p.prefix| + |Capture(text, i + |p.prefix|)|;
      e == |text| || IsWhitespace(text[e])
  {
  }

  /** For `(\S+)`: no match exactly when the text is empty or all whitespace. */
  lemma AnyTokenNone(text: string)
    ensures Search(AnyToken, text).None? <==> forall k :: 0 <= k < |text| ==> IsWhitespace(text[k])
  {
    if Search(AnyToken, text).None? {
      forall k | 0 <= k < |text| ensures IsWhitespace(text[k]) {
        assert !MatchesAt(AnyToken, text, k);
        assert text[k..k] == "";
      }
    } else {
      var i := FirstMatch(AnyToken, text, 0).value;
      assert !IsWhitespace(text[i]);
    }
  }

  /** For `(\S+)`: the token is the first whitespace-delimited token of the text,
      so the text is leading whitespace, the token, then nothing or whitespace. */
  lemma AnyTokenFirst(text: string, i: nat)
    requires i < |text| && !IsWhitespace(text[i])
    requires forall j :: 0 <= j < i ==> IsWhitespace(text[j])
    ensures Search(AnyToken, text).Some?
    ensures var tok := Search(AnyToken, text).value;
      i + |tok| <= |text| && text[i..i + |tok|] == tok
      && (i + |tok| == |text| || IsWhitespace(text[i + |tok|]))
  {
    assert MatchesAt(AnyToken, text, i) by { assert text[i..i] == ""; }
    forall j | 0 <= j < i ensures !MatchesAt(AnyToken, text, j) {
      assert IsWhitespace(text[j]);
    }
    SearchLeftmost(AnyToken, text, i);
  }
}
