/** The version text carried by the X-Jenkins response header. */
module VersionHeader {

  /** Java's String.indexOf(char): the first position of c in s, or -1. */
  function IndexOf(s: string, c: char): (i: int)
    ensures -1 <= i < |s|
    ensures i == -1 <==> c !in s
    ensures 0 <= i ==> s[i] == c && c !in s[..i]
  {
    if s == [] then -1
    else if s[0] == c then 0
    else
      var j := IndexOf(s[1..], c);
      if j == -1 then -1
      else
        assert s[..j + 1] == [s[0]] + s[1..][..j];
        j + 1
  }

  /**
   * The header value cut at its first space: the version proper, without
   * the build details some distributions append after a space.
   */
  function VersionText(header: string): (text: string)
    ensures text <= header
    ensures ' ' !in text
    ensures ' ' !in header ==> text == header
    ensures ' ' in header ==> |text| < |header| && header[|text|] == ' '
  {
    var space := IndexOf(header, ' ');
    if space != -1 then header[..space] else header
  }

  /** p is the longest prefix of h that holds no space. */
  ghost predicate IsLeadingToken(h: string, p: string)
  {
    p <= h && ' ' !in p && (|p| == |h| || h[|p|] == ' ')
  }

  /** Reference definition: the characters of s up to, not including, its first space. */
  function LeadingToken(s: string): (token: string)
  {
    if s == [] || s[0] == ' ' then [] else [s[0]] + LeadingToken(s[1..])
  }

  lemma {:induction false} LeadingTokenIsLeadingToken(s: string)
    ensures IsLeadingToken(s, LeadingToken(s))
  {
    if s != [] && s[0] != ' ' {
      LeadingTokenIsLeadingToken(s[1..]);
      var t := LeadingToken(s[1..]);
      assert LeadingToken(s) == [s[0]] + t;
      assert s == [s[0]] + s[1..];
    }
  }

  /** At most one prefix of h is space-free and stops at a space or at the end. */
  lemma LeadingTokenUnique(h: string, p: string, q: string)
    requires IsLeadingToken(h, p) && IsLeadingToken(h, q)
    ensures p == q
  {
  }

  /** VersionText is exactly the longest space-free prefix, in both directions. */
  lemma VersionTextCharacterized(h: string, p: string)
    ensures IsLeadingToken(h, p) <==> p == VersionText(h)
  {
    var v := VersionText(h);
    assert IsLeadingToken(h, v);
    if IsLeadingToken(h, p) {
      LeadingTokenUnique(h, p, v);
    }
  }

  /** The cut agrees with the reference definition. */
  lemma VersionTextIsLeadingToken(h: string)
    ensures VersionText(h) == LeadingToken(h)
  {
    LeadingTokenIsLeadingToken(h);
    VersionTextCharacterized(h, LeadingToken(h));
  }

  /** Cutting twice is cutting once. */
  lemma VersionTextIdempotent(h: string)
    ensures VersionText(VersionText(h)) == VersionText(h)
  {
  }

  /** Whatever follows the first space is dropped. */
  lemma VersionTextDropsSuffix(v: string, details: string)
    requires ' ' !in v
    ensures VersionText(v + " " + details) == v
  {
    VersionTextCharacterized(v + " " + details, v);
  }

  /** A header value with build details after a space. */
  lemma VersionTextDropsBuildDetails()
    ensures VersionText("2.450.3 (private-abcdef)") == "2.450.3"
  {
    assert "2.450.3 (private-abcdef)" == "2.450.3" + " " + "(private-abcdef)";
    VersionTextDropsSuffix("2.450.3", "(private-abcdef)");
  }

  /** A header value without a space is taken whole. */
  lemma VersionTextKeepsPlainVersion()
    ensures VersionText("1.609") == "1.609"
  {
  }
}
