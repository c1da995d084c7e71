/**
 * The ExplanationOfBenefit id text `"<kind tag>-<claim id>"` and
 * `EOB_ID_PATTERN`, the regular expression `(\p{Alpha}+)-(\p{Alnum}+)` that
 * `read` matches it against in full.
 */
module EobIds {
  import opened Wrappers
  import opened JavaLang
  import opened ClaimTypes

  /** A non-empty run of `\p{Alpha}`: what group 1 of the pattern matches. */
  predicate IsAlphaWord(s: string) {
    |s| > 0 && forall i :: 0 <= i < |s| ==> IsAlpha(s[i])
  }

  /** A non-empty run of `\p{Alnum}`: what group 2 of the pattern matches. */
  predicate IsAlnumWord(s: string) {
    |s| > 0 && forall i :: 0 <= i < |s| ==> IsAlnum(s[i])
  }

  /** The pattern matches all of `s` with its '-' at position `i`. */
  predicate MatchesAt(s: string, i: int) {
    0 <= i < |s| && s[i] == '-' && IsAlphaWord(s[..i]) && IsAlnumWord(s[i + 1..])
  }

  /** The captured groups of a successful match. */
  datatype EobIdGroups = EobIdGroups(claimTypeText: string, claimIdText: string)

  /** The number of leading `\p{Alpha}` characters of `s`. */
  function AlphaPrefixLength(s: string): (n: nat)
    ensures n <= |s|
    ensures forall i :: 0 <= i < n ==> IsAlpha(s[i])
    ensures n < |s| ==> !IsAlpha(s[n])
  {
    if s == [] || !IsAlpha(s[0]) then 0 else 1 + AlphaPrefixLength(s[1..])
  }

  /**
   * `EOB_ID_PATTERN.matcher(s).matches()` with `group(1)` and `group(2)`:
   * `Some` exactly when the whole of `s` matches, and then `s` is group 1,
   * a '-', and group 2.
   */
  function MatchEobId(s: string): (r: Option<EobIdGroups>)
    ensures r.Some? <==> exists i :: MatchesAt(s, i)
    ensures r.Some? ==> IsAlphaWord(r.value.claimTypeText) && IsAlnumWord(r.value.claimIdText)
    ensures r.Some? ==> s == r.value.claimTypeText + "-" + r.value.claimIdText
  {
    var n := AlphaPrefixLength(s);
    if n < |s| && MatchesAt(s, n) then
      assert s == s[..n] + "-" + s[n + 1..];
      Some(EobIdGroups(s[..n], s[n + 1..]))
    else
      None
  }

  /**
   * The id text of a claim of kind `c` whose unprefixed id is `claimId`,
   * as the application builds it.
   */
  function EobIdText(c: ClaimType, claimId: string): string {
    Tag(c) + "-" + claimId
  }

  /** An alphabetic tag and an alphanumeric key joined by '-' match with exactly those groups. */
  lemma MatchJoined(tag: string, key: string)
    requires IsAlphaWord(tag) && IsAlnumWord(key)
    ensures MatchEobId(tag + "-" + key) == Some(EobIdGroups(tag, key))
  {
    var s := tag + "-" + key;
    assert s[..|tag|] == tag && s[|tag| + 1..] == key;
    assert MatchesAt(s, |tag|);
    var g := MatchEobId(s).value;
    var n := |g.claimTypeText|;
    assert s[n] == '-' && s[..n] == g.claimTypeText;
    assert g.claimIdText == s[n + 1..];
  }

  /** Every id built for a claim kind decodes to that kind's tag, which parses back to the kind. */
  lemma DecodeEobIdText(c: ClaimType, claimId: string)
    requires IsAlnumWord(claimId)
    ensures MatchEobId(EobIdText(c, claimId)) == Some(EobIdGroups(Tag(c), claimId))
    ensures Parse(Tag(c)) == Some(c)
  {
    TagIsAlphabetic(c);
    MatchJoined(Tag(c), claimId);
    ParseTag(c);
  }
}
