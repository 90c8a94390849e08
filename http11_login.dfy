/**
 * The POST /login outcome in Http11Processor: the status loginGet
 * picks, the Set-Cookie line, and where the client is redirected.
 */
module Http11Login {
  import opened Wrappers
  import opened Text

  const Found: string := "302 FOUND"
  const Unauthorized: string := "401 UNAUTHORIZED"
  const CookiePrefix: string := "Set-Cookie: JSESSIONID="
  const CookieSuffix: string := " " + CRLF

  /** loginGet: the status and page for a login that did or did not obtain a session. */
  function LoginGet(isLogined: bool): (r: (string, string))
    ensures r.0 == Found <==> isLogined
    ensures r.0 == Unauthorized <==> !isLogined
  {
    if !isLogined then (Unauthorized, "/401") else (Found, "/index")
  }

  /** setCookieHeader: a complete `Set-Cookie` header line, with no cookie attributes. */
  function SetCookieHeader(uuid: string): (r: string)
    ensures StartsWith(r, CookiePrefix) && EndsWith(r, CRLF)
    ensures |r| == |CookiePrefix| + |uuid| + |CookieSuffix|
  {
    var r := CookiePrefix + uuid + CookieSuffix;
    assert r[..|CookiePrefix|] == CookiePrefix;
    assert r[|r| - |CRLF|..] == CRLF;
    r
  }

  /** Reads the session id back out of a header line built by SetCookieHeader. */
  function SessionIdOf(header: string): Option<string>
  {
    if |CookiePrefix| + |CookieSuffix| <= |header| && StartsWith(header, CookiePrefix) &&
       EndsWith(header, CookieSuffix)
    then Some(header[|CookiePrefix|..|header| - |CookieSuffix|])
    else None
  }

  /** The Set-Cookie line carries exactly the session id it was built from. */
  lemma SetCookieRoundTrip(uuid: string)
    ensures SessionIdOf(SetCookieHeader(uuid)) == Some(uuid)
  {
  }

  /** The redirect a POST /login ends in, with the cookie header it carries ("" for none). */
  datatype LoginRedirect = LoginRedirect(cookieHeader: string, location: string)

  /**
   * The decision of login(): session is the id of the session loginPost
   * obtained (None when it obtained none); cookieResolves says that the
   * request carries a JSESSIONID cookie that findSession resolves.
   */
  function LoginOutcome(session: Option<string>, cookieResolves: bool): (r: LoginRedirect)
    ensures r.cookieHeader != "" <==> session.Some? && !cookieResolves
    ensures r.cookieHeader != "" ==> SessionIdOf(r.cookieHeader) == Some(session.value)
    ensures r.location == "/" <==> session.Some?
    ensures r.location == "/401" <==> session.None?
  {
    var result := LoginGet(session.Some?);
    var httpStatus := result.0;
    var cookieHeader :=
      if session.Some? && !cookieResolves then SetCookieHeader(session.value) else "";
    assert session.Some? ==> SessionIdOf(SetCookieHeader(session.value)) == Some(session.value) by {
      if session.Some? {
        SetCookieRoundTrip(session.value);
      }
    }
    if httpStatus == Found then LoginRedirect(cookieHeader, "/")
    else LoginRedirect(cookieHeader, "/401")
  }
}
