# Http11Processor and Session, modelled in Dafny

This project models the request-dispatch and response-assembly core of a
minimal HTTP/1.1 server (`Http11Processor`) together with the `Session`
attribute container it stores logged-in users in, and proves what the
code promises about them:

- **Static resources.** A request URL resolves to a classpath resource
  under `/static`, always with status `200 OK`. The checks run in a fixed
  order: the index page, any `.svg` (always the fixed not-found icon),
  `.html`/`.css`/`.js` as they are, anything else with `.html` appended.
  The Content-Type follows the URL's extension, and HTML is the default.
- **Response assembly.** A response is a byte array: the header block's
  bytes followed by the body. A missing resource is answered with the
  `/static/404.html` page and status `404 NOT FOUND`, whatever status was
  asked for. The `Content-Length` line reads back as the body length. The
  header block ends in CRLF CRLF, both with no cookie and with a
  `Set-Cookie: JSESSIONID=<id> ` line (section 4.1 of RFC 6265, no
  attributes). The framing is a loose form of section 2.1 of RFC 9112:
  the status, Content-Type and Content-Length lines carry a trailing space
  (the redirect's Content-Type line two), the `Location` line and the
  final empty line carry none, and a Set-Cookie line brings its own
  trailing space and CRLF.
- **Login.** `validateUser` handles four cases: unknown account, wrong
  password, correct password with an existing session for the user, and
  correct password with none. Only the last creates a session, and it
  creates exactly one. The session store keeps at most one session per
  user. The redirect goes to `/` exactly when a session was obtained.
  `Set-Cookie` is attached exactly when a session was obtained and the
  request's `JSESSIONID` does not resolve.
- **Registration.** An existing account is refused and the store is left
  alone. The response is then `/static/register.html` with `400 BAD
  REQUEST`, or the 404 page with `404 NOT FOUND` when that page is
  missing. A new account is saved once, and the response is a 302 to `/`.
- **Dispatch.** Only GET and POST write anything. An
  `IllegalArgumentException` or `IOException` is answered with the
  `/static/500.html` page and `500 INTERNAL SERVER ERROR`, or the 404
  page with `404 NOT FOUND` when the 500 page is missing. A GET `/login`
  with a live session writes a redirect to `/` and then the normal
  resource response too, because no `return` follows the redirect.

Modules, one per source component:

- `Wrappers` (`wrappers.dfy`) holds Option and Result.
- `Text` and `Bytes` (`text.dfy`) hold `endsWith`, `String.join`, decimal
  rendering of a length, and `getBytes`.
- `Sessions` (`sessions.dfy`) holds the `Session` class and the
  `SessionManager` registry.
- `Users` (`users.dfy`) holds `User` and `InMemoryUserRepository`.
- `Http11Paths`, `Http11Login` and `Http11Response` hold the pure parts of
  the processor: resolution, the login decision, and the header and byte
  layout.
- `Http11` (`http11_processor.dfy`) holds the `Http11Processor` class. Its
  methods write to an `OutputStream`, which records the sequence of
  responses written. The session store and the account store are objects
  the methods modify.

The model follows the code as written; in particular:

- `parseUserInfo` runs outside the `try` in `loginPost`. An empty
  `account` or `password` therefore gives no `/401` redirect: the
  `IllegalArgumentException` reaches `performProcess`, which answers with
  the 500 page.
- A body without an `account` field, or with a non-empty account and no
  `password` field, makes `parseUserInfo` dereference null. That
  exception is caught nowhere, so nothing is written. `PerformProcess`
  reports it as an escaped `NullPointer`.
- Every `.svg` URL resolves to the fixed not-found icon, whether or not a
  real asset exists at that path.
- The `Set-Cookie` check in `login` runs after a new session has been
  added. It therefore consults the store as updated by this login.
- A POST to any path other than `/login` and `/register`, and any method
  other than GET and POST, writes nothing.

## Model

| member | source | states |
|---|---|---|
| `Sessions.Session.constructor` | tomcat/src/main/java/org/apache/catalina/session/Session.java:9-18 | `getId` returns the id given to the constructor; the id is a `const` no method can change; a new session has no attributes |
| `Sessions.Session.GetAttribute` | tomcat/src/main/java/org/apache/catalina/session/Session.java:20-22 | returns a value exactly when the name is present, and then the stored one; absent names give None (null) |
| `Sessions.Session.SetAttribute` | tomcat/src/main/java/org/apache/catalina/session/Session.java:24-26 | afterwards `getAttribute(name)` is the new value (so the last write wins) and every other name keeps its value |
| `Sessions.Session.RemoveAttribute` | tomcat/src/main/java/org/apache/catalina/session/Session.java:28-30 | afterwards `getAttribute(name)` is None, every other name keeps its value, and removing an absent name changes nothing |
| `Sessions.Session.Invalidate` | tomcat/src/main/java/org/apache/catalina/session/Session.java:32-34 | afterwards every `getAttribute` is None; the id is untouched; invalidating an empty session changes nothing (idempotent) |
| `Sessions.SessionManager.FindSession` | tomcat/src/main/java/org/apache/coyote/http11/Http11Processor.java:177 | `findSession` returns a session exactly when the id is filed, and then the one filed under it |
| `Sessions.SessionManager.Add` | tomcat/src/main/java/org/apache/coyote/http11/Http11Processor.java:297 | `add` files the session under its own id and changes no other entry |
| `Sessions.SessionManager.UserSession` | tomcat/src/main/java/org/apache/coyote/http11/Http11Processor.java:277 | the id of a session whose `"user"` attribute is the user, or None when no session carries it |
| `Sessions.SessionManager.FindSessionId` | tomcat/src/main/java/org/apache/coyote/http11/Http11Processor.java:277 | `findSessionId(user)` finds the user's session id when one exists, else None; it is unique under the store invariant |
| `Users.InMemoryUserRepository.FindByAccount` | tomcat/src/main/java/org/apache/coyote/http11/Http11Processor.java:268 | finds the user filed under the account, or empty |
| `Users.InMemoryUserRepository.Save` | tomcat/src/main/java/org/apache/coyote/http11/Http11Processor.java:153-154 | saves the user built from the registration under its account, leaving other accounts alone |
| `Text.NatToString` | tomcat/src/main/java/org/apache/coyote/http11/Http11Processor.java:348 | the decimal rendering of the body length: digits only, no leading zero except for 0 |
| `Text.ParseNatToString` | tomcat/src/main/java/org/apache/coyote/http11/Http11Processor.java:348 | reading the rendered length back as a decimal number gives the length |
| `Bytes.Encode` | tomcat/src/main/java/org/apache/coyote/http11/Http11Processor.java:352 | `getBytes` gives one byte per character, equal to the character's code for ASCII |
| `Http11Paths.DetermineResourcePath` | tomcat/src/main/java/org/apache/coyote/http11/Http11Processor.java:189-210 | the status is always `200 OK` and the path always starts with `/static` |
| `Http11Paths.ResolvedPathHasKnownExtension` | tomcat/src/main/java/org/apache/coyote/http11/Http11Processor.java:189-210 | every resolved path ends in `.html`, `.css`, `.js` or `.svg` |
| `Http11Paths.DetermineContentType` | tomcat/src/main/java/org/apache/coyote/http11/Http11Processor.java:212-226 | one of the four types, and HTML exactly when the path ends in none of `.css`, `.js`, `.svg` |
| `Http11Paths.ExtensionsExclusive` | tomcat/src/main/java/org/apache/coyote/http11/Http11Processor.java:203 | no string ends in two of the four extensions, so the order of the suffix checks cannot change a result |
| `Http11Paths.ContentTypeFollowsUrl` | tomcat/src/main/java/org/apache/coyote/http11/Http11Processor.java:181-186 | the type a GET is served with follows the URL: `.css`, `.js`, `.svg` get theirs, every other URL gets `text/html;charset=utf-8` |
| `Http11Paths.HtmlFallbackIsHtml` | tomcat/src/main/java/org/apache/coyote/http11/Http11Processor.java:208 | a URL resolved by appending `.html` ends in `.html` and is served as `text/html;charset=utf-8` |
| `Http11Login.LoginGet` | tomcat/src/main/java/org/apache/coyote/http11/Http11Processor.java:245-250 | the status is `302 FOUND` exactly for a login that obtained a session, `401 UNAUTHORIZED` exactly otherwise |
| `Http11Login.SetCookieHeader` | tomcat/src/main/java/org/apache/coyote/http11/Http11Processor.java:132-135 | a line starting `Set-Cookie: JSESSIONID=` and ending in CRLF |
| `Http11Login.SetCookieRoundTrip` | tomcat/src/main/java/org/apache/coyote/http11/Http11Processor.java:119-121 | the Set-Cookie line reads back as exactly the session id it was built from |
| `Http11Login.LoginOutcome` | tomcat/src/main/java/org/apache/coyote/http11/Http11Processor.java:112-129 | a cookie header is attached iff a session was obtained and the request's JSESSIONID does not resolve, and it carries that session's id; the target is `/` iff a session was obtained, `/401` iff not |
| `Http11Response.ContentLengthRoundTrip` | tomcat/src/main/java/org/apache/coyote/http11/Http11Processor.java:314 | the `Content-Length` line reads back as the length it was built from |
| `Http11Response.JoinTerminated` | tomcat/src/main/java/org/apache/coyote/http11/Http11Processor.java:345-350 | joining lines with CRLF and a final empty line ends every line with CRLF |
| `Http11Response.SetCookieHeaderWellFormed` | tomcat/src/main/java/org/apache/coyote/http11/Http11Processor.java:121 | every `setCookieHeader` line is of the shape the header layout accepts |
| `Http11Response.ResponseHeaderLayout` | tomcat/src/main/java/org/apache/coyote/http11/Http11Processor.java:345-350 | the header starts with the status line, its `Content-Length` line reads back as the length, and it ends in CRLF CRLF when the cookie header is empty or a Set-Cookie line |
| `Http11Response.RedirectHeaderLayout` | tomcat/src/main/java/org/apache/coyote/http11/Http11Processor.java:311-317 | the redirect header starts with `HTTP/1.1 302 FOUND `, has the `Location` line, a `Content-Length` that reads back, and ends in CRLF CRLF |
| `Http11Response.ResponseLayout` | tomcat/src/main/java/org/apache/coyote/http11/Http11Processor.java:336-357 | the response is header bytes then body, of their summed length; an existing resource keeps the given status, a missing one gets the 404 page and `404 NOT FOUND`; Content-Length equals the body length |
| `Http11Response.MissingResourceIgnoresStatus` | tomcat/src/main/java/org/apache/coyote/http11/Http11Processor.java:338-341 | for a missing resource the status passed in does not affect the bytes at all |
| `Http11Response.RedirectLayout` | tomcat/src/main/java/org/apache/coyote/http11/Http11Processor.java:302-323 | a redirect is header bytes then the resolved target's body, 302 status, `Location: <path>`, Content-Length equal to the body length |
| `Http11Response.AssembleResponse` | tomcat/src/main/java/org/apache/coyote/http11/Http11Processor.java:352-356 | the new array holds the header bytes followed by the body bytes, and its length is their sum |
| `Http11.UserInfoError` | tomcat/src/main/java/org/apache/coyote/http11/Http11Processor.java:254-256 | no exception iff both fields are present and non-empty; `IllegalArgumentException` iff the account is present and empty, or the password is present and empty |
| `Http11.RedirectTargetsResolve` | tomcat/src/main/java/org/apache/coyote/http11/Http11Processor.java:125-129 | the redirect targets `/` and `/401` resolve to `/static/index.html` and `/static/401.html` |
| `Http11.LoginResponseFraming` | tomcat/src/main/java/org/apache/coyote/http11/Http11Processor.java:118-129 | the login response is a full 302 message whose Location is `/` exactly when a session was obtained, and whose header block ends in CRLF CRLF whether or not a cookie is attached |
| `Http11.OutputStream.Write` | tomcat/src/main/java/org/apache/coyote/http11/Http11Processor.java:362 | appends the response's bytes to what was written |
| `Http11.Http11Processor.constructor` | tomcat/src/main/java/org/apache/coyote/http11/Http11Processor.java:39-44 | the processor works on the given session store, account store and resources |
| `Http11.Http11Processor.WriteHttpResponse` | tomcat/src/main/java/org/apache/coyote/http11/Http11Processor.java:361-364 | writes exactly one more response |
| `Http11.Http11Processor.CreateHttpResponse` | tomcat/src/main/java/org/apache/coyote/http11/Http11Processor.java:335-359 | the bytes of the resource response; for a missing path they equal the 404 page served as `404 NOT FOUND` |
| `Http11.Http11Processor.SendHttpResponse` | tomcat/src/main/java/org/apache/coyote/http11/Http11Processor.java:328-333 | writes exactly the response createHttpResponse builds |
| `Http11.Http11Processor.Redirect` | tomcat/src/main/java/org/apache/coyote/http11/Http11Processor.java:302-326 | writes exactly one redirect response to the path |
| `Http11.Http11Processor.HandleException` | tomcat/src/main/java/org/apache/coyote/http11/Http11Processor.java:83-89 | writes the 500 page with `500 INTERNAL SERVER ERROR`, or the 404 page with `404 NOT FOUND` when the 500 page is missing |
| `Http11.Http11Processor.DoGet` | tomcat/src/main/java/org/apache/coyote/http11/Http11Processor.java:165-187 | writes the resolved resource; for `/login` with a live session, first a redirect to `/` and then that resource too |
| `Http11.Http11Processor.ParseUserInfo` | tomcat/src/main/java/org/apache/coyote/http11/Http11Processor.java:252-262 | fails with the exception `UserInfoError` names; otherwise a map of exactly account and password, both non-empty, copied from the body |
| `Http11.Http11Processor.CreateNewSession` | tomcat/src/main/java/org/apache/coyote/http11/Http11Processor.java:291-300 | adds exactly one new session, filed under the fresh id and carrying the user, and returns that id; the store invariant is kept |
| `Http11.Http11Processor.ValidateUser` | tomcat/src/main/java/org/apache/coyote/http11/Http11Processor.java:264-289 | unknown account or wrong password: None and the store unchanged; correct password: the user's existing id with nothing added, or one new session for the user; afterwards the returned id is the user's session, so a repeated login returns it again |
| `Http11.Http11Processor.LoginPost` | tomcat/src/main/java/org/apache/coyote/http11/Http11Processor.java:228-243 | passes on parseUserInfo's exception with the store unchanged; otherwise returns the session validateUser obtained, filed in the store, or empty; an obtained session is afterwards the one carrying the user, and a new one holds exactly the user, so a repeated login finds it again |
| `Http11.Http11Processor.Login` | tomcat/src/main/java/org/apache/coyote/http11/Http11Processor.java:109-130 | on an exception writes nothing; otherwise writes one redirect as `LoginOutcome` decides, with the cookie check made against the updated store; the obtained session is the one carrying the user, and a first login adds exactly one session holding the user |
| `Http11.Http11Processor.ValidateRegistration` | tomcat/src/main/java/org/apache/coyote/http11/Http11Processor.java:145-163 | false with the store unchanged for an existing account; true with exactly the new user added otherwise |
| `Http11.Http11Processor.Register` | tomcat/src/main/java/org/apache/coyote/http11/Http11Processor.java:137-143 | registers the body's account, password and email as validateRegistration does |
| `Http11.Http11Processor.DoPost` | tomcat/src/main/java/org/apache/coyote/http11/Http11Processor.java:91-107 | `/login` runs the login flow with `Login`'s store effects (the obtained session carries the user; a first login adds one session holding the user); `/register` saves a new account and writes a redirect to `/`, or leaves the store alone and writes the register page with `400 BAD REQUEST`; other paths write and change nothing |
| `Http11.Http11Processor.PerformProcess` | tomcat/src/main/java/org/apache/coyote/http11/Http11Processor.java:63-81 | only GET and POST write; an IllegalArgumentException or IOException gives exactly the 500 response; a NullPointerException escapes with nothing written and both stores unchanged; a POST /login has `DoPost`'s session effects, including the new session of a first login; a POST /register for a new account saves it; the store invariant is kept |

## Left out

- Socket and stream I/O, `run`/`process` and logging are not modelled. A write appends to `OutputStream.written`. Failures of `write`/`flush` are not modelled.
- Request parsing (`HttpRequest`, `RequestHeader`, `HttpCookies`) is not part of this model. `PerformProcess` takes either the parse failure or the method, the path, the form body and the optional `JSESSIONID`.
- Classpath lookup and `Files.readAllBytes` are a map from path to bytes, so reading an existing resource never fails. `redirect` dereferences a missing resource, and `createHttpResponse` dereferences a missing 404 page. Both are preconditions: the index, 401 and 404 pages exist.
- `UUID.randomUUID()` is a `freshId` parameter, with the precondition that the id is not already in the store.
- The code of `SessionManager` and `InMemoryUserRepository` is not shown; they are modelled as plain maps: `findSession` is a lookup, `add` files by id and requires a new id, `findSessionId` finds the session whose `"user"` attribute equals the user, `findByAccount` is a lookup, and `save` files by account. Their thread safety and the singleton are left out, and there is no concurrency.
- The code of `User` and `UserRegistration` is not shown; they are modelled as values. `User` is a value with account, password and email. `checkPassword` is equality of passwords, and users are compared by value.
- `Http11.Http11Processor.Register`, `Http11.Http11Processor.DoPost` and `Http11.Http11Processor.PerformProcess`: require a POST /register body to carry `account`, `password` and `email`. The behaviour of `InMemoryUserRepository` on a null account is not known here.
- `Bytes.Encode`: `getBytes` is one byte per character, the character's code modulo 256. This is exact for ASCII. Multi-byte encodings of other characters are not modelled.
- `Http11Processor.java` lines 46-61 hold `run` and `process`, which are socket plumbing.
- `study/src/main/java/cache/com/example/cachecontrol/CacheInterceptor.java` is not part of this model. It only calls a library `CacheControl` builder and has no logic of its own.
