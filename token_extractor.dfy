// Bearer-token extraction from the Authorization header (RFC 6750, section 2.1).

module TokenExtractor {
  import opened Wrappers
  import opened JavaText

  /** The case-sensitive scheme prefix, including its single space. */
  const BearerPrefix: string := "Bearer "

  /** `extractFromRequest`: the header value is passed in, null as None. */
  function ExtractFromHeader(authHeader: Option<string>): (r: Option<string>)
    ensures r.Some? <==>
      authHeader.Some? && StartsWith(authHeader.value, BearerPrefix)
      && !AllTrimChars(authHeader.value[|BearerPrefix|..])
    ensures r.Some? ==> |r.value| > 0 && IsTrimmed(r.value)
  {
    if authHeader.None? || !StartsWith(authHeader.value, BearerPrefix) then None
    else
      var token := Trim(authHeader.value[|BearerPrefix|..]);
      TrimIsTrimmed(authHeader.value[|BearerPrefix|..]);
      TrimEmptyIffAllTrimChars(authHeader.value[|BearerPrefix|..]);
      if token == [] then None else Some(token)
  }

  /** The token is the trimmed remainder of the header after the prefix. */
  lemma ExtractIsTrimmedRemainder(h: string)
    requires StartsWith(h, BearerPrefix)
    ensures ExtractFromHeader(Some(h)) == (if Trim(h[7..]) == [] then None else Some(Trim(h[7..])))
  {
  }

  /** Round trip: a non-empty token with nothing to trim comes back unchanged
      from the header built for it. */
  lemma ExtractRoundTrip(t: string)
    requires |t| > 0 && IsTrimmed(t)
    ensures ExtractFromHeader(Some(BearerPrefix + t)) == Some(t)
  {
    var h := BearerPrefix + t;
    assert h[..|BearerPrefix|] == BearerPrefix;
    assert h[|BearerPrefix|..] == t;
    TrimIsTrimmed(t);
  }

  /** Any other scheme spelling, such as a lower-case "bearer ", is rejected. */
  lemma ExtractRejectsLowerCaseScheme(t: string)
    ensures ExtractFromHeader(Some("bearer " + t)) == None
  {
    assert ("bearer " + t)[0] != BearerPrefix[0];
  }
}
