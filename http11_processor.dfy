/**
 * Http11Processor: dispatch of one parsed request to the GET or POST
 * handling, the login and registration flows against the session and
 * account stores, and the writes to the connection's output stream.
 */
module Http11 {
  import opened Wrappers
  import opened Text
  import opened Bytes
  import opened Sessions
  import opened Users
  import opened Http11Paths
  import opened Http11Login
  import opened Http11Response

  datatype HttpMethod = GET | POST | OtherMethod(name: string)

  /**
   * What the processor reads from a parsed request: method, path, the
   * JSESSIONID cookie if the request carries one, and the form body.
   */
  datatype HttpRequest = HttpRequest(
    httpMethod: HttpMethod,
    path: string,
    jsessionId: Option<string>,
    body: map<string, string>)

  /** The exceptions that change the processor's course. */
  datatype Exception = IllegalArgument | IOError | NullPointer

  const AccountField: string := "account"
  const PasswordField: string := "password"
  const EmailField: string := "email"

  /** The connection's output stream, as the sequence of responses written to it. */
  class OutputStream {
    var written: seq<seq<byte>>

    constructor ()
      ensures written == []
    {
      written := [];
    }

    method Write(response: array<byte>)
      modifies this
      ensures written == old(written) + [response[..]]
    {
      written := written + [response[..]];
    }
  }

  /**
   * The exception parseUserInfo throws for a body, if any: a missing
   * field is dereferenced (NullPointerException), an empty one is
   * rejected (IllegalArgumentException); account is checked before
   * password, and an empty account stops the check.
   */
  function UserInfoError(requestBody: map<string, string>): (r: Option<Exception>)
    ensures r.None? <==> AccountField in requestBody && PasswordField in requestBody &&
                         requestBody[AccountField] != "" && requestBody[PasswordField] != ""
    ensures r == Some(IllegalArgument) <==>
              AccountField in requestBody &&
              (requestBody[AccountField] == "" || (PasswordField in requestBody && requestBody[PasswordField] == ""))
  {
    if AccountField !in requestBody then Some(NullPointer)
    else if requestBody[AccountField] == "" then Some(IllegalArgument)
    else if PasswordField !in requestBody then Some(NullPointer)
    else if requestBody[PasswordField] == "" then Some(IllegalArgument)
    else None
  }

  /** The classpath pages the processor reads without a null check. */
  predicate FixedPagesPresent(resources: Resources)
  {
    NotFoundPage in resources && IndexPage in resources && UnauthorizedPage in resources
  }

  lemma RedirectTargetsResolve()
    ensures DetermineResourcePath("/").path == IndexPage
    ensures DetermineResourcePath("/401").path == UnauthorizedPage
  {
  }

  /**
   * The response a POST /login writes is a complete 302 message: the
   * status line, the Location it decided on, a header block ending in
   * CRLF CRLF, then the page the location resolves to.
   */
  lemma LoginResponseFraming(resources: Resources, session: Option<string>, cookieResolves: bool)
    requires FixedPagesPresent(resources)
    ensures RedirectTargetsResolvedTo(resources)
    ensures var decision := LoginOutcome(session, cookieResolves);
      var body := resources[if session.Some? then IndexPage else UnauthorizedPage];
      var header := RedirectHeader(decision.location, |body|, decision.cookieHeader);
      && RedirectBytes(resources, decision.cookieHeader, decision.location) == Encode(header) + body
      && StartsWith(header, "HTTP/1.1 302 FOUND " + CRLF)
      && EndsWith(header, CRLF + CRLF)
      && RedirectHeaderLines(decision.location, |body|, decision.cookieHeader)[3] ==
         "Location: " + (if session.Some? then "/" else "/401")
  {
    RedirectTargetsResolve();
    var decision := LoginOutcome(session, cookieResolves);
    if decision.cookieHeader != "" {
      SetCookieHeaderWellFormed(session.value);
    }
    RedirectLayout(resources, decision.cookieHeader, decision.location);
  }

  predicate RedirectTargetsResolvedTo(resources: Resources)
  {
    DetermineResourcePath("/").path in resources && DetermineResourcePath("/401").path in resources
  }

  class Http11Processor {
    const sessionManager: SessionManager<User>
    const userRepository: InMemoryUserRepository
    const resources: Resources

    ghost predicate Valid()
      reads sessionManager, sessionManager.sessions.Values
    {
      sessionManager.Valid() && FixedPagesPresent(resources)
    }

    constructor (sessionManager: SessionManager<User>, userRepository: InMemoryUserRepository, resources: Resources)
      ensures this.sessionManager == sessionManager
      ensures this.userRepository == userRepository
      ensures this.resources == resources
    {
      this.sessionManager := sessionManager;
      this.userRepository := userRepository;
      this.resources := resources;
    }

    /** The 500 page response handleException sends. */
    ghost function ErrorResponse(): seq<byte>
      requires NotFoundPage in resources
    {
      ResponseBytes(resources, StatusInternalError, TextHtml, "", ErrorPage)
    }

    /** Whether findSession resolves the request's JSESSIONID ("" when it has none). */
    ghost function SessionLive(jsessionId: Option<string>): bool
      reads sessionManager
    {
      (if jsessionId.Some? then jsessionId.value else "") in sessionManager.sessions
    }

    /**
     * The responses doGet writes: for /login with a live session a
     * redirect to "/" and then, since nothing returns after it, the
     * resolved resource as for any other URL.
     */
    ghost function GetResponses(requestUrl: string, live: bool): seq<seq<byte>>
      requires FixedPagesPresent(resources)
    {
      RedirectTargetsResolve();
      var target := DetermineResourcePath(requestUrl);
      var page := ResponseBytes(resources, target.status, DetermineContentType(target.path), "", target.path);
      if live && requestUrl == "/login" then [RedirectBytes(resources, "", "/"), page] else [page]
    }

    /** The session id a login with these credentials obtains, None when it is refused. */
    ghost function LoginSession(account: string, password: string, freshId: string): Option<string>
      reads userRepository, sessionManager, sessionManager.sessions.Values
    {
      if account in userRepository.database && userRepository.database[account].CheckPassword(password) then
        match sessionManager.UserSession(userRepository.database[account])
        case Some(id) => Some(id)
        case None => Some(freshId)
      else None
    }

    /** The redirect a POST /login writes once the session outcome is known. */
    ghost function LoginResponse(session: Option<string>, cookieResolves: bool): seq<byte>
      requires FixedPagesPresent(resources)
    {
      RedirectTargetsResolve();
      var decision := LoginOutcome(session, cookieResolves);
      RedirectBytes(resources, decision.cookieHeader, decision.location)
    }

    method WriteHttpResponse(response: array<byte>, outputStream: OutputStream)
      modifies outputStream
      ensures outputStream.written == old(outputStream.written) + [response[..]]
    {
      outputStream.Write(response);
    }

    /**
     * createHttpResponse: the resource at path with the status passed in,
     * or the 404 page with status "404 NOT FOUND" when there is none.
     */
    method CreateHttpResponse(httpStatus: string, contentType: string, cookieHeader: string, path: string)
      returns (response: array<byte>)
      requires NotFoundPage in resources
      ensures response[..] == ResponseBytes(resources, httpStatus, contentType, cookieHeader, path)
      ensures path !in resources ==>
        response[..] == ResponseBytes(resources, StatusNotFound, contentType, cookieHeader, NotFoundPage)
    {
      var status := httpStatus;
      var responseBody: seq<byte>;
      if path in resources {
        responseBody := resources[path];
      } else {
        responseBody := resources[NotFoundPage];
        status := StatusNotFound;
      }
      var headerBytes := Encode(ResponseHeader(status, contentType, |responseBody|, cookieHeader));
      response := AssembleResponse(headerBytes, responseBody);
    }

    method SendHttpResponse(path: string, outputStream: OutputStream, httpStatus: string,
                            contentType: string, cookie: string)
      requires NotFoundPage in resources
      modifies outputStream
      ensures outputStream.written ==
              old(outputStream.written) + [ResponseBytes(resources, httpStatus, contentType, cookie, path)]
    {
      var response := CreateHttpResponse(httpStatus, contentType, cookie, path);
      WriteHttpResponse(response, outputStream);
    }

    /**
     * redirect: a 302 response to path whose body is path's resolved
     * resource. The resource is read without a null check, hence the
     * precondition.
     */
    method Redirect(cookieHeader: string, path: string, outputStream: OutputStream)
      requires DetermineResourcePath(path).path in resources
      modifies outputStream
      ensures outputStream.written == old(outputStream.written) + [RedirectBytes(resources, cookieHeader, path)]
    {
      var resourcePath := DetermineResourcePath(path);
      var responseBody := resources[resourcePath.path];
      var headerBytes := Encode(RedirectHeader(path, |responseBody|, cookieHeader));
      var response := AssembleResponse(headerBytes, responseBody);
      WriteHttpResponse(response, outputStream);
    }

    method HandleException(outputStream: OutputStream)
      requires NotFoundPage in resources
      modifies outputStream
      ensures outputStream.written == old(outputStream.written) + [ErrorResponse()]
    {
      SendHttpResponse(ErrorPage, outputStream, StatusInternalError, TextHtml, "");
    }

    /** doGet: the optional /login redirect, then the resolved resource. */
    method DoGet(requestUrl: string, jsessionId: Option<string>, outputStream: OutputStream)
      requires Valid()
      modifies outputStream
      ensures outputStream.written == old(outputStream.written) + GetResponses(requestUrl, SessionLive(jsessionId))
    {
      RedirectTargetsResolve();
      var searchResourcePath := DetermineResourcePath(requestUrl);
      var sessionId := "";
      if jsessionId.Some? {
        sessionId := jsessionId.value;
      }
      if sessionManager.FindSession(sessionId).Some? && requestUrl == "/login" {
        Redirect("", "/", outputStream);
      }
      var httpStatus := searchResourcePath.status;
      var resourcePath := searchResourcePath.path;
      var contentType := DetermineContentType(resourcePath);
      SendHttpResponse(resourcePath, outputStream, httpStatus, contentType, "");
    }

    /** parseUserInfo: a fresh map holding the account and password, or the exception it throws. */
    method ParseUserInfo(requestBody: map<string, string>) returns (r: Result<map<string, string>, Exception>)
      ensures r.Failure? <==> UserInfoError(requestBody).Some?
      ensures r.Failure? ==> r.error == UserInfoError(requestBody).value
      ensures r.Success? ==> r.value.Keys == {AccountField, PasswordField}
      ensures r.Success? ==> r.value[AccountField] == requestBody[AccountField] != ""
      ensures r.Success? ==> r.value[PasswordField] == requestBody[PasswordField] != ""
    {
      if AccountField !in requestBody {
        return Failure(NullPointer);
      }
      if requestBody[AccountField] == "" {
        return Failure(IllegalArgument);
      }
      if PasswordField !in requestBody {
        return Failure(NullPointer);
      }
      if requestBody[PasswordField] == "" {
        return Failure(IllegalArgument);
      }
      var userInfo: map<string, string> := map[];
      userInfo := userInfo[AccountField := requestBody[AccountField]];
      userInfo := userInfo[PasswordField := requestBody[PasswordField]];
      r := Success(userInfo);
    }

    /**
     * createNewSession: a new session under freshId (the random UUID),
     * carrying user, added to the session store.
     */
    method CreateNewSession(user: User, freshId: string) returns (uuid: string)
      requires sessionManager.Valid()
      requires freshId !in sessionManager.sessions
      requires sessionManager.UserSession(user).None?
      modifies sessionManager
      ensures uuid == freshId
      ensures sessionManager.Valid()
      ensures freshId in sessionManager.sessions && fresh(sessionManager.sessions[freshId])
      ensures sessionManager.sessions == old(sessionManager.sessions)[freshId := sessionManager.sessions[freshId]]
      ensures sessionManager.sessions[freshId].attributes == map[UserAttribute := user]
      ensures sessionManager.UserSession(user) == Some(freshId)
    {
      uuid := freshId;
      var session := new Session<User>(uuid);
      session.SetAttribute(UserAttribute, user);
      sessionManager.Add(session);
      assert HoldsUser(sessionManager.sessions[freshId], user);
    }

    /**
     * validateUser: an unknown account or a wrong password yields None and
     * leaves the store alone; a correct password yields the user's
     * existing session id, or else the id of one new session for the user.
     */
    method ValidateUser(userInfo: map<string, string>, freshId: string) returns (uuid: Option<string>)
      requires sessionManager.Valid()
      requires AccountField in userInfo && PasswordField in userInfo
      requires freshId !in sessionManager.sessions
      modifies sessionManager
      ensures sessionManager.Valid()
      ensures uuid == old(LoginSession(userInfo[AccountField], userInfo[PasswordField], freshId))
      ensures userInfo[AccountField] !in userRepository.database ==>
                uuid.None? && sessionManager.sessions == old(sessionManager.sessions)
      ensures userInfo[AccountField] in userRepository.database &&
              !userRepository.database[userInfo[AccountField]].CheckPassword(userInfo[PasswordField]) ==>
                uuid.None? && sessionManager.sessions == old(sessionManager.sessions)
      ensures uuid.Some? ==> sessionManager.UserSession(userRepository.database[userInfo[AccountField]]) == uuid
      ensures uuid != Some(freshId) ==> sessionManager.sessions == old(sessionManager.sessions)
      ensures uuid == Some(freshId) ==>
                && freshId in sessionManager.sessions
                && fresh(sessionManager.sessions[freshId])
                && sessionManager.sessions == old(sessionManager.sessions)[freshId := sessionManager.sessions[freshId]]
                && sessionManager.sessions[freshId].attributes ==
                   map[UserAttribute := userRepository.database[userInfo[AccountField]]]
    {
      var account := userInfo[AccountField];
      var password := userInfo[PasswordField];
      var loginUser := userRepository.FindByAccount(account);
      if loginUser.None? {
        return None;
      }
      var user := loginUser.value;
      var existing := sessionManager.FindSessionId(user);
      if user.CheckPassword(password) {
        if existing.None? {
          var created := CreateNewSession(user, freshId);
          existing := Some(created);
        }
        return existing;
      }
      return None;
    }

    /**
     * loginPost: the session a login obtains. The exceptions of
     * parseUserInfo are not caught here: they reach the caller.
     */
    method LoginPost(requestBody: map<string, string>, freshId: string)
      returns (r: Result<Option<Session<User>>, Exception>)
      requires Valid()
      requires freshId !in sessionManager.sessions
      modifies sessionManager
      ensures Valid()
      ensures r.Failure? <==> UserInfoError(requestBody).Some?
      ensures r.Failure? ==> r.error == UserInfoError(requestBody).value &&
                             sessionManager.sessions == old(sessionManager.sessions)
      ensures r.Success? ==>
                var expected := old(LoginSession(requestBody[AccountField], requestBody[PasswordField], freshId));
                && (r.value.Some? <==> expected.Some?)
                && (r.value.Some? ==> r.value.value.id == expected.value &&
                                      expected.value in sessionManager.sessions &&
                                      sessionManager.sessions[expected.value] == r.value.value)
                && (expected.Some? ==>
                      && requestBody[AccountField] in userRepository.database
                      && sessionManager.UserSession(userRepository.database[requestBody[AccountField]]) == expected)
                && (expected != Some(freshId) ==> sessionManager.sessions == old(sessionManager.sessions))
                && (expected == Some(freshId) ==>
                      && freshId in sessionManager.sessions
                      && fresh(sessionManager.sessions[freshId])
                      && sessionManager.sessions == old(sessionManager.sessions)[freshId := sessionManager.sessions[freshId]]
                      && sessionManager.sessions[freshId].attributes ==
                         map[UserAttribute := userRepository.database[requestBody[AccountField]]])
    {
      var userInfo := ParseUserInfo(requestBody);
      if userInfo.Failure? {
        return Failure(userInfo.error);
      }
      var uuid := ValidateUser(userInfo.value, freshId);
      if uuid.Some? {
        return Success(sessionManager.FindSession(uuid.value));
      }
      return Success(None);
    }

    /**
     * login: a redirect to "/" when a session was obtained and to "/401"
     * otherwise, with a Set-Cookie line exactly when a session was
     * obtained and the request's JSESSIONID does not resolve (checked
     * after the session was created).
     */
    method Login(jsessionId: Option<string>, requestBody: map<string, string>, outputStream: OutputStream,
                 freshId: string)
      returns (thrown: Option<Exception>)
      requires Valid()
      requires freshId !in sessionManager.sessions
      modifies outputStream, sessionManager
      ensures Valid()
      ensures thrown == UserInfoError(requestBody)
      ensures thrown.Some? ==> outputStream.written == old(outputStream.written) &&
                               sessionManager.sessions == old(sessionManager.sessions)
      ensures thrown.None? ==>
                var expected := old(LoginSession(requestBody[AccountField], requestBody[PasswordField], freshId));
                && outputStream.written ==
                   old(outputStream.written) + [LoginResponse(expected, SessionLive(jsessionId) && jsessionId.Some?)]
                && (expected.Some? ==>
                      && requestBody[AccountField] in userRepository.database
                      && sessionManager.UserSession(userRepository.database[requestBody[AccountField]]) == expected)
                && (expected != Some(freshId) ==> sessionManager.sessions == old(sessionManager.sessions))
                && (expected == Some(freshId) ==>
                      && freshId in sessionManager.sessions
                      && fresh(sessionManager.sessions[freshId])
                      && sessionManager.sessions == old(sessionManager.sessions)[freshId := sessionManager.sessions[freshId]]
                      && sessionManager.sessions[freshId].attributes ==
                         map[UserAttribute := userRepository.database[requestBody[AccountField]]])
    {
      RedirectTargetsResolve();
      var httpSession := LoginPost(requestBody, freshId);
      if httpSession.Failure? {
        return Some(httpSession.error);
      }
      thrown := None;
      var result := LoginGet(httpSession.value.Some?);
      var httpStatus := result.0;
      var cookieHeader := "";
      if httpSession.value.Some? &&
         (jsessionId.None? || sessionManager.FindSession(jsessionId.value).None?) {
        cookieHeader := SetCookieHeader(httpSession.value.value.GetId());
      }
      if httpStatus == Found {
        Redirect(cookieHeader, "/", outputStream);
        return;
      }
      Redirect(cookieHeader, "/401", outputStream);
    }

    /** validateRegistration: refuses an existing account, otherwise saves the new user once. */
    method ValidateRegistration(account: string, password: string, email: string) returns (ok: bool)
      modifies userRepository
      ensures ok <==> account !in old(userRepository.database)
      ensures !ok ==> userRepository.database == old(userRepository.database)
      ensures ok ==> userRepository.database == old(userRepository.database)[account := User(account, password, email)]
    {
      var existing := userRepository.FindByAccount(account);
      if existing.Some? {
        return false;
      }
      var newUser := userRepository.Save(UserRegistration(account, password, email));
      return true;
    }

    /** register: reads account, password and email from the form body. */
    method Register(requestBody: map<string, string>) returns (isRegistered: bool)
      requires AccountField in requestBody && PasswordField in requestBody && EmailField in requestBody
      modifies userRepository
      ensures isRegistered <==> requestBody[AccountField] !in old(userRepository.database)
      ensures !isRegistered ==> userRepository.database == old(userRepository.database)
      ensures isRegistered ==>
                userRepository.database ==
                old(userRepository.database)[requestBody[AccountField] :=
                  User(requestBody[AccountField], requestBody[PasswordField], requestBody[EmailField])]
    {
      isRegistered := ValidateRegistration(requestBody[AccountField], requestBody[PasswordField],
                                           requestBody[EmailField]);
    }

    /**
     * doPost: /login runs the login flow; /register redirects to "/" on
     * success and answers with the register page and "400 BAD REQUEST"
     * otherwise; any other path writes nothing.
     */
    method DoPost(request: HttpRequest, outputStream: OutputStream, freshId: string)
      returns (thrown: Option<Exception>)
      requires Valid()
      requires freshId !in sessionManager.sessions
      requires request.path == "/register" ==>
                 AccountField in request.body && PasswordField in request.body && EmailField in request.body
      modifies outputStream, sessionManager, userRepository
      ensures Valid()
      ensures request.path == "/login" ==>
                && userRepository.database == old(userRepository.database)
                && thrown == UserInfoError(request.body)
                && (thrown.Some? ==> outputStream.written == old(outputStream.written) &&
                                     sessionManager.sessions == old(sessionManager.sessions))
                && (thrown.None? ==>
                      var expected := old(LoginSession(request.body[AccountField], request.body[PasswordField], freshId));
                      && outputStream.written == old(outputStream.written) +
                         [LoginResponse(expected, SessionLive(request.jsessionId) && request.jsessionId.Some?)]
                      && (expected.Some? ==>
                            && request.body[AccountField] in userRepository.database
                            && sessionManager.UserSession(userRepository.database[request.body[AccountField]]) == expected)
                      && (expected != Some(freshId) ==> sessionManager.sessions == old(sessionManager.sessions))
                      && (expected == Some(freshId) ==>
                            && freshId in sessionManager.sessions
                            && fresh(sessionManager.sessions[freshId])
                            && sessionManager.sessions ==
                               old(sessionManager.sessions)[freshId := sessionManager.sessions[freshId]]
                            && sessionManager.sessions[freshId].attributes ==
                               map[UserAttribute := userRepository.database[request.body[AccountField]]]))
      ensures request.path == "/register" ==>
                var account := request.body[AccountField];
                && thrown.None?
                && sessionManager.sessions == old(sessionManager.sessions)
                && (account in old(userRepository.database) ==>
                      && userRepository.database == old(userRepository.database)
                      && outputStream.written == old(outputStream.written) +
                         [ResponseBytes(resources, StatusBadRequest, TextHtml, "", RegisterPage)])
                && (account !in old(userRepository.database) ==>
                      && userRepository.database == old(userRepository.database)[account :=
                           User(account, request.body[PasswordField], request.body[EmailField])]
                      && outputStream.written == old(outputStream.written) + [RedirectBytes(resources, "", "/")])
      ensures request.path != "/login" && request.path != "/register" ==>
                && thrown.None?
                && outputStream.written == old(outputStream.written)
                && sessionManager.sessions == old(sessionManager.sessions)
                && userRepository.database == old(userRepository.database)
    {
      RedirectTargetsResolve();
      thrown := None;
      var requestBody := request.body;
      if request.path == "/login" {
        thrown := Login(request.jsessionId, requestBody, outputStream, freshId);
      }
      if request.path == "/register" {
        var isRegistered := Register(requestBody);
        if isRegistered {
          Redirect("", "/", outputStream);
          return;
        }
        SendHttpResponse(RegisterPage, outputStream, StatusBadRequest, TextHtml, "");
      }
    }

    /**
     * performProcess: GET and POST are dispatched, every other method
     * writes nothing; an IllegalArgumentException or IOException (from
     * parsing or from the handlers) is answered with the 500 page, any
     * other exception escapes with nothing more written.
     */
    method PerformProcess(request: Result<HttpRequest, Exception>, outputStream: OutputStream, freshId: string)
      returns (escaped: Option<Exception>)
      requires Valid()
      requires freshId !in sessionManager.sessions
      requires request.Success? && request.value.httpMethod == POST && request.value.path == "/register" ==>
                 AccountField in request.value.body && PasswordField in request.value.body &&
                 EmailField in request.value.body
      modifies outputStream, sessionManager, userRepository
      ensures Valid()
      ensures escaped.Some? ==>
                && escaped == Some(NullPointer)
                && outputStream.written == old(outputStream.written)
                && sessionManager.sessions == old(sessionManager.sessions)
                && userRepository.database == old(userRepository.database)
      ensures request.Failure? ==>
                && sessionManager.sessions == old(sessionManager.sessions)
                && userRepository.database == old(userRepository.database)
                && (request.error == NullPointer ==> escaped == Some(NullPointer))
                && (request.error != NullPointer ==>
                      escaped.None? && outputStream.written == old(outputStream.written) + [ErrorResponse()])
      ensures request.Success? && request.value.httpMethod.OtherMethod? ==>
                && escaped.None?
                && outputStream.written == old(outputStream.written)
                && sessionManager.sessions == old(sessionManager.sessions)
                && userRepository.database == old(userRepository.database)
      ensures request.Success? && request.value.httpMethod == GET ==>
                && escaped.None?
                && outputStream.written ==
                   old(outputStream.written) + GetResponses(request.value.path, old(SessionLive(request.value.jsessionId)))
                && sessionManager.sessions == old(sessionManager.sessions)
                && userRepository.database == old(userRepository.database)
      ensures request.Success? && request.value.httpMethod == POST && request.value.path == "/login" ==>
                var body := request.value.body;
                && userRepository.database == old(userRepository.database)
                && (UserInfoError(body) == Some(NullPointer) ==> escaped == Some(NullPointer))
                && (UserInfoError(body) == Some(IllegalArgument) ==>
                      escaped.None? && outputStream.written == old(outputStream.written) + [ErrorResponse()] &&
                      sessionManager.sessions == old(sessionManager.sessions))
                && (UserInfoError(body).None? ==>
                      var expected := old(LoginSession(body[AccountField], body[PasswordField], freshId));
                      && escaped.None?
                      && outputStream.written == old(outputStream.written) +
                         [LoginResponse(expected, SessionLive(request.value.jsessionId) && request.value.jsessionId.Some?)]
                      && (expected.Some? ==>
                            && body[AccountField] in userRepository.database
                            && sessionManager.UserSession(userRepository.database[body[AccountField]]) == expected)
                      && (expected != Some(freshId) ==> sessionManager.sessions == old(sessionManager.sessions))
                      && (expected == Some(freshId) ==>
                            && freshId in sessionManager.sessions
                            && fresh(sessionManager.sessions[freshId])
                            && sessionManager.sessions ==
                               old(sessionManager.sessions)[freshId := sessionManager.sessions[freshId]]
                            && sessionManager.sessions[freshId].attributes ==
                               map[UserAttribute := userRepository.database[body[AccountField]]]))
      ensures request.Success? && request.value.httpMethod == POST && request.value.path == "/register" ==>
                var account := request.value.body[AccountField];
                && escaped.None?
                && sessionManager.sessions == old(sessionManager.sessions)
                && (account in old(userRepository.database) ==>
                      && userRepository.database == old(userRepository.database)
                      && outputStream.written == old(outputStream.written) +
                         [ResponseBytes(resources, StatusBadRequest, TextHtml, "", RegisterPage)])
                && (account !in old(userRepository.database) ==>
                      && userRepository.database == old(userRepository.database)[account :=
                           User(account, request.value.body[PasswordField], request.value.body[EmailField])]
                      && outputStream.written == old(outputStream.written) + [RedirectBytes(resources, "", "/")])
      ensures request.Success? && request.value.httpMethod == POST &&
              request.value.path != "/login" && request.value.path != "/register" ==>
                && escaped.None?
                && outputStream.written == old(outputStream.written)
                && sessionManager.sessions == old(sessionManager.sessions)
                && userRepository.database == old(userRepository.database)
    {
      if request.Failure? {
        if request.error == NullPointer {
          return Some(NullPointer);
        }
        HandleException(outputStream);
        return None;
      }
      var httpRequest := request.value;
      var thrown: Option<Exception> := None;
      if httpRequest.httpMethod == GET {
        DoGet(httpRequest.path, httpRequest.jsessionId, outputStream);
      }
      if httpRequest.httpMethod == POST {
        thrown := DoPost(httpRequest, outputStream, freshId);
      }
      if thrown == Some(IllegalArgument) || thrown == Some(IOError) {
        HandleException(outputStream);
        return None;
      }
      escaped := thrown;
    }
  }
}
