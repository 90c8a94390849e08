/**
 * Response assembly in Http11Processor: the header block of
 * createHttpResponse and of redirect, and the byte array made of the
 * header bytes followed by the body.
 */
module Http11Response {
  import opened Wrappers
  import opened Text
  import opened Bytes
  import opened Http11Paths
  import opened Http11Login

  const NotFoundPage: string := "/static/404.html"
  const ErrorPage: string := "/static/500.html"
  const RegisterPage: string := "/static/register.html"
  const UnauthorizedPage: string := "/static/401.html"

  const StatusNotFound: string := "404 NOT FOUND"
  const StatusInternalError: string := "500 INTERNAL SERVER ERROR"
  const StatusBadRequest: string := "400 BAD REQUEST"

  const ContentLengthName: string := "Content-Length: "

  /** The classpath resources, by path. */
  type Resources = map<string, seq<byte>>

  /**
   * The lines createHttpResponse joins with CRLF: the status, type and
   * length lines end in a space; the cookie line is taken as given.
   */
  function ResponseHeaderLines(status: string, contentType: string, contentLength: nat, cookieHeader: string): seq<string>
  {
    [ "HTTP/1.1 " + status + " ",
      "Content-Type: " + contentType + " ",
      ContentLengthName + NatToString(contentLength) + " ",
      cookieHeader,
      "" ]
  }

  /**
   * The lines redirect joins with CRLF: a fixed 302 status and HTML type
   * (the type line ends in two spaces), the length, and a Location line
   * with no trailing space.
   */
  function RedirectHeaderLines(location: string, contentLength: nat, cookieHeader: string): seq<string>
  {
    [ "HTTP/1.1 302 FOUND ",
      "Content-Type: text/html;charset=utf-8  ",
      ContentLengthName + NatToString(contentLength) + " ",
      "Location: " + location,
      cookieHeader,
      "" ]
  }

  /** Reads the length back out of a `Content-Length: <digits> ` line. */
  function ContentLengthValue(line: string): Option<nat>
  {
    if |ContentLengthName| + 2 <= |line| && StartsWith(line, ContentLengthName) && line[|line| - 1] == ' ' &&
       AllDigits(line[|ContentLengthName|..|line| - 1])
    then Some(ParseNat(line[|ContentLengthName|..|line| - 1]))
    else None
  }

  /** The Content-Length line states exactly the length it was built from. */
  lemma ContentLengthRoundTrip(n: nat)
    ensures ContentLengthValue(ContentLengthName + NatToString(n) + " ") == Some(n)
  {
    var digits := NatToString(n);
    var line := ContentLengthName + digits + " ";
    assert line[..|ContentLengthName|] == ContentLengthName;
    assert line[|ContentLengthName|..|line| - 1] == digits;
    ParseNatToString(n);
  }

  /** Each line followed by CRLF. */
  function Terminated(lines: seq<string>): string
  {
    if lines == [] then "" else lines[0] + CRLF + Terminated(lines[1..])
  }

  lemma TerminatedCons(line: string, rest: seq<string>)
    ensures Terminated([line] + rest) == line + CRLF + Terminated(rest)
  {
  }

  /** Joining with CRLF and a final empty line ends every line with CRLF. */
  lemma {:induction false} JoinTerminated(lines: seq<string>)
    ensures Join(CRLF, lines + [""]) == Terminated(lines)
  {
    if lines != [] {
      assert (lines + [""])[1..] == lines[1..] + [""];
      JoinTerminated(lines[1..]);
    }
  }

  function ResponseHeader(status: string, contentType: string, contentLength: nat, cookieHeader: string): string
  {
    Join(CRLF, ResponseHeaderLines(status, contentType, contentLength, cookieHeader))
  }

  function RedirectHeader(location: string, contentLength: nat, cookieHeader: string): string
  {
    Join(CRLF, RedirectHeaderLines(location, contentLength, cookieHeader))
  }

  /**
   * The cookie headers the processor ever passes: none, or a Set-Cookie
   * line of the shape setCookieHeader builds.
   */
  predicate WellFormedCookieHeader(cookieHeader: string)
  {
    cookieHeader == "" || SessionIdOf(cookieHeader).Some?
  }

  lemma SetCookieHeaderWellFormed(uuid: string)
    ensures WellFormedCookieHeader(SetCookieHeader(uuid))
  {
  }

  lemma CookieHeaderEndsBlankLine(prefix: string, cookieHeader: string)
    requires WellFormedCookieHeader(cookieHeader)
    ensures EndsWith(prefix + CRLF + cookieHeader + CRLF, CRLF + CRLF)
  {
  }

  /** Four lines and a final empty one, joined with CRLF. */
  lemma JoinFourLines(l0: string, l1: string, l2: string, l3: string)
    ensures Join(CRLF, [l0, l1, l2, l3, ""]) == (l0 + CRLF) + (l1 + CRLF + l2) + CRLF + l3 + CRLF
  {
    assert [l0, l1, l2, l3, ""] == [l0, l1, l2, l3] + [""];
    JoinTerminated([l0, l1, l2, l3]);
    TerminatedCons(l3, []);
    TerminatedCons(l2, [l3]);
    TerminatedCons(l1, [l2, l3]);
    TerminatedCons(l0, [l1, l2, l3]);
  }

  /** Five lines and a final empty one, joined with CRLF. */
  lemma JoinFiveLines(l0: string, l1: string, l2: string, l3: string, l4: string)
    ensures Join(CRLF, [l0, l1, l2, l3, l4, ""]) == (l0 + CRLF) + (l1 + CRLF + l2 + CRLF + l3) + CRLF + l4 + CRLF
  {
    assert [l0, l1, l2, l3, l4, ""] == [l0, l1, l2, l3, l4] + [""];
    JoinTerminated([l0, l1, l2, l3, l4]);
    TerminatedCons(l4, []);
    TerminatedCons(l3, [l4]);
    TerminatedCons(l2, [l3, l4]);
    TerminatedCons(l1, [l2, l3, l4]);
    TerminatedCons(l0, [l1, l2, l3, l4]);
  }

  lemma StartsWithConcat(s: string, t: string)
    ensures StartsWith(s + t, s)
  {
  }

  /**
   * The createHttpResponse header: starts with the status line, carries
   * the body length in its Content-Length line, and ends in CRLF CRLF.
   */
  lemma ResponseHeaderLayout(status: string, contentType: string, contentLength: nat, cookieHeader: string)
    requires WellFormedCookieHeader(cookieHeader)
    ensures var header := ResponseHeader(status, contentType, contentLength, cookieHeader);
      && StartsWith(header, "HTTP/1.1 " + status + " " + CRLF)
      && EndsWith(header, CRLF + CRLF)
      && ContentLengthValue(ResponseHeaderLines(status, contentType, contentLength, cookieHeader)[2]) == Some(contentLength)
  {
    var lines := ResponseHeaderLines(status, contentType, contentLength, cookieHeader);
    JoinFourLines(lines[0], lines[1], lines[2], lines[3]);
    var statusLine := lines[0] + CRLF;
    var rest := lines[1] + CRLF + lines[2];
    StartsWithConcat(statusLine, rest + CRLF + lines[3] + CRLF);
    CookieHeaderEndsBlankLine(statusLine + rest, cookieHeader);
    ContentLengthRoundTrip(contentLength);
  }

  /**
   * The redirect header: a 302 status line, the Location line naming the
   * target, the body length in its Content-Length line, and CRLF CRLF at
   * the end.
   */
  lemma RedirectHeaderLayout(location: string, contentLength: nat, cookieHeader: string)
    requires WellFormedCookieHeader(cookieHeader)
    ensures var header := RedirectHeader(location, contentLength, cookieHeader);
      var lines := RedirectHeaderLines(location, contentLength, cookieHeader);
      && StartsWith(header, "HTTP/1.1 302 FOUND " + CRLF)
      && EndsWith(header, CRLF + CRLF)
      && lines[3] == "Location: " + location
      && ContentLengthValue(lines[2]) == Some(contentLength)
  {
    var lines := RedirectHeaderLines(location, contentLength, cookieHeader);
    JoinFiveLines(lines[0], lines[1], lines[2], lines[3], lines[4]);
    var statusLine := lines[0] + CRLF;
    var rest := lines[1] + CRLF + lines[2] + CRLF + lines[3];
    StartsWithConcat(statusLine, rest + CRLF + lines[4] + CRLF);
    CookieHeaderEndsBlankLine(statusLine + rest, cookieHeader);
    ContentLengthRoundTrip(contentLength);
  }

  /** What createHttpResponse serves for a path: (status, body). */
  datatype Served = Served(status: string, body: seq<byte>)

  function ServedFor(resources: Resources, status: string, path: string): Served
    requires NotFoundPage in resources
  {
    if path in resources then Served(status, resources[path])
    else Served(StatusNotFound, resources[NotFoundPage])
  }

  /** The bytes createHttpResponse returns. */
  function ResponseBytes(resources: Resources, status: string, contentType: string, cookieHeader: string, path: string): seq<byte>
    requires NotFoundPage in resources
  {
    var served := ServedFor(resources, status, path);
    Encode(ResponseHeader(served.status, contentType, |served.body|, cookieHeader)) + served.body
  }

  /** The bytes redirect writes for a location (its resource must exist). */
  function RedirectBytes(resources: Resources, cookieHeader: string, location: string): seq<byte>
    requires DetermineResourcePath(location).path in resources
  {
    var body := resources[DetermineResourcePath(location).path];
    Encode(RedirectHeader(location, |body|, cookieHeader)) + body
  }

  /**
   * createHttpResponse: an existing resource is served with the status
   * passed in; a missing one is answered with the 404 page and status
   * "404 NOT FOUND", whatever status was passed in. The response is the
   * header bytes followed by the body, its length their sum.
   */
  lemma ResponseLayout(resources: Resources, status: string, contentType: string, cookieHeader: string, path: string)
    requires NotFoundPage in resources
    requires WellFormedCookieHeader(cookieHeader)
    ensures var st := if path in resources then status else StatusNotFound;
      var body := if path in resources then resources[path] else resources[NotFoundPage];
      var header := ResponseHeader(st, contentType, |body|, cookieHeader);
      var r := ResponseBytes(resources, status, contentType, cookieHeader, path);
      && |r| == |header| + |body|
      && r[..|header|] == Encode(header)
      && r[|header|..] == body
      && StartsWith(header, "HTTP/1.1 " + st + " " + CRLF)
      && EndsWith(header, CRLF + CRLF)
      && ContentLengthValue(ResponseHeaderLines(st, contentType, |body|, cookieHeader)[2]) == Some(|body|)
  {
    var served := ServedFor(resources, status, path);
    ResponseHeaderLayout(served.status, contentType, |served.body|, cookieHeader);
  }

  /** For a missing resource the status passed in makes no difference to the bytes. */
  lemma MissingResourceIgnoresStatus(resources: Resources, status1: string, status2: string,
                                     contentType: string, cookieHeader: string, path: string)
    requires NotFoundPage in resources
    requires path !in resources
    ensures ResponseBytes(resources, status1, contentType, cookieHeader, path)
         == ResponseBytes(resources, status2, contentType, cookieHeader, path)
  {
  }

  /**
   * redirect: a 302 response whose Location is the target, whose body is
   * the target's resolved resource, laid out as header then body.
   */
  lemma RedirectLayout(resources: Resources, cookieHeader: string, location: string)
    requires DetermineResourcePath(location).path in resources
    requires WellFormedCookieHeader(cookieHeader)
    ensures var body := resources[DetermineResourcePath(location).path];
      var header := RedirectHeader(location, |body|, cookieHeader);
      var r := RedirectBytes(resources, cookieHeader, location);
      && |r| == |header| + |body|
      && r[..|header|] == Encode(header)
      && r[|header|..] == body
      && StartsWith(header, "HTTP/1.1 302 FOUND " + CRLF)
      && EndsWith(header, CRLF + CRLF)
      && RedirectHeaderLines(location, |body|, cookieHeader)[3] == "Location: " + location
      && ContentLengthValue(RedirectHeaderLines(location, |body|, cookieHeader)[2]) == Some(|body|)
  {
    var body := resources[DetermineResourcePath(location).path];
    RedirectHeaderLayout(location, |body|, cookieHeader);
  }

  /**
   * The two System.arraycopy calls: a new array holding the header bytes
   * followed by the body bytes.
   */
  method AssembleResponse(headerBytes: seq<byte>, responseBody: seq<byte>) returns (response: array<byte>)
    ensures response.Length == |headerBytes| + |responseBody|
    ensures response[..] == headerBytes + responseBody
  {
    response := new byte[|headerBytes| + |responseBody|];
    forall i | 0 <= i < |headerBytes| {
      response[i] := headerBytes[i];
    }
    forall i | 0 <= i < |responseBody| {
      response[|headerBytes| + i] := responseBody[i];
    }
  }
}
