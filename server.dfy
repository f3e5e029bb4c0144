/** The authorization server's handlers (api/server/server.go): the fixed
    password check, and the login protocol the handlers run over each browser
    session's key/value store.

    A session holds at most two keys. `ReturnUri` keeps the authorize form of
    a user who still has to log in; `LoggedInUserID` is the claim `/login`
    leaves for the user handler, which consumes it. The go-oauth2 calls
    (`HandleAuthorizeRequest`, `HandleTokenRequest`) are parameters of type
    `Library`: what they validate, issue or store is not part of this model. */
module Server {

  import opened Wrappers
  import opened Http

  const LoginPath: string := "/login"
  const AuthPath: string := "/auth"
  const LoginTemplate: string := "templates/login.html"
  const AuthTemplate: string := "templates/auth.html"

  /** The fixed test identity the password grant accepts. */
  const TestUser: string := "test"

  /** What `passwordAuthorizationHandler` returns. */
  datatype PasswordVerdict = PasswordVerdict(userID: string, err: Option<string>)

  /** `passwordAuthorizationHandler`: the client id is not looked at, and no
      error is ever returned; a wrong credential is an empty user id. */
  function PasswordAuthorization(clientID: string, username: string, password: string): (r: PasswordVerdict)
    ensures r.err == None
    ensures r.userID == TestUser <==> username == TestUser && password == TestUser
    ensures r.userID != TestUser ==> r.userID == ""
  {
    if username == "test" && password == "test" then PasswordVerdict("test", None)
    else PasswordVerdict("", None)
  }

  datatype Key = ReturnUri | LoggedInUserID

  datatype Value = User(id: string) | Form(values: Values)

  type SessionId = string

  type Session = map<Key, Value>

  /** The type assertions `v.(url.Values)` and `uid.(string)` never fail:
      `ReturnUri` only ever holds a form, `LoggedInUserID` only a user id. */
  ghost predicate WellTyped(s: Session) {
    (ReturnUri in s ==> s[ReturnUri].Form?) && (LoggedInUserID in s ==> s[LoggedInUserID].User?)
  }

  /** The outcome of `session.Start`, which can fail (its cookie and store
      mechanics are not modelled). */
  datatype SessionStart = Started | StartFailed(err: string)

  /** An incoming request. `form` is `r.Form`, `None` while it is nil;
      `parsed` and `parseError` are what `r.ParseForm()` would set it to and
      return. */
  datatype Request = Request(
    httpMethod: string,
    sid: SessionId,
    form: Option<Values>,
    parsed: Values,
    parseError: Option<string>)

  /** A go-oauth2 entry point: it writes a response, or returns an error. */
  type Library = Request -> Result<Response>

  /** The form a handler sees once `r.ParseForm()` has run if needed. */
  function EffectiveForm(r: Request): Values {
    match r.form
    case Some(f) => f
    case None => r.parsed
  }

  /** The `/oauth/token` closure: a preflight returns at once; otherwise a
      library error becomes a 500 whose body is the error's text. */
  function TokenEndpoint(r: Request, handleTokenRequest: Library): (resp: Response)
    ensures r.httpMethod == Options ==> resp == Nothing
    ensures r.httpMethod != Options && handleTokenRequest(r).Err? ==>
      resp == Error(StatusInternalServerError, handleTokenRequest(r).message)
    ensures r.httpMethod != Options && handleTokenRequest(r).Ok? ==> resp == handleTokenRequest(r).value
  {
    if r.httpMethod == Options then Nothing
    else
      match handleTokenRequest(r)
      case Ok(written) => written
      case Err(e) => Error(StatusInternalServerError, e)
  }

  class AuthServer {
    var sessions: map<SessionId, Session>

    ghost predicate Valid()
      reads this
    {
      forall sid :: sid in sessions ==> WellTyped(sessions[sid])
    }

    /** The store `session.Start` yields for an id: empty for a new session. */
    function SessionOf(sid: SessionId): (s: Session)
      reads this
      ensures Valid() ==> WellTyped(s)
    {
      if sid in sessions then sessions[sid] else map[]
    }

    constructor ()
      ensures Valid() && sessions == map[]
    {
      sessions := map[];
    }

    /** `userAuthorizeHandler`, which the library calls from
        `HandleAuthorizeRequest`. Without a login claim it saves the request's
        form under `ReturnUri` and sends the browser to `/login`; with one it
        returns the claimed user and deletes the claim. */
    method UserAuthorize(r: Request, start: SessionStart) returns (userID: string, err: Option<string>, resp: Response)
      requires Valid()
      modifies this
      ensures Valid()
      ensures start.StartFailed? ==>
        userID == "" && err == Some(start.err) && resp == Nothing && sessions == old(sessions)
      ensures start.Started? ==> err == None && sessions == old(sessions)[r.sid := SessionOf(r.sid)]
      ensures start.Started? && LoggedInUserID !in old(SessionOf(r.sid)) ==>
        userID == "" && resp == Redirect(LoginPath) &&
        SessionOf(r.sid) == old(SessionOf(r.sid))[ReturnUri := Form(EffectiveForm(r))]
      ensures start.Started? && LoggedInUserID in old(SessionOf(r.sid)) ==>
        userID == old(SessionOf(r.sid))[LoggedInUserID].id && resp == Nothing &&
        SessionOf(r.sid) == old(SessionOf(r.sid)) - {LoggedInUserID}
      // either way no claim is left behind: a claim is used at most once
      ensures start.Started? ==> LoggedInUserID !in SessionOf(r.sid)
    {
      userID, err, resp := "", None, Nothing;
      if start.StartFailed? {
        err := Some(start.err);
        return;
      }
      var store := SessionOf(r.sid);
      if LoggedInUserID !in store {
        var form := EffectiveForm(r);
        store := store[ReturnUri := Form(form)];
        sessions := sessions[r.sid := store];
        resp := Redirect(LoginPath);
        return;
      }
      userID := store[LoggedInUserID].id;
      store := store - {LoggedInUserID};
      sessions := sessions[r.sid := store];
    }

    /** The `/oauth/authorize` closure. The form saved under `ReturnUri`, if
        any, replaces the request's form (otherwise the form is cleared, and
        the library parses the request again); `ReturnUri` is deleted before
        the library runs. `forwarded` is the request handed to the library,
        `None` when it is not called. */
    method Authorize(r: Request, start: SessionStart, handleAuthorizeRequest: Library)
      returns (resp: Response, forwarded: Option<Request>)
      requires Valid()
      modifies this
      ensures Valid()
      ensures r.httpMethod == Options ==> resp == Nothing && forwarded == None && sessions == old(sessions)
      ensures r.httpMethod != Options && start.StartFailed? ==>
        resp == Error(StatusInternalServerError, start.err) && forwarded == None && sessions == old(sessions)
      ensures r.httpMethod != Options && start.Started? ==>
        sessions == old(sessions)[r.sid := old(SessionOf(r.sid)) - {ReturnUri}] &&
        forwarded == Some(r.(form := if ReturnUri in old(SessionOf(r.sid))
                                    then Some(old(SessionOf(r.sid))[ReturnUri].values)
                                    else None)) &&
        resp == (match handleAuthorizeRequest(forwarded.value)
                 case Ok(written) => written
                 case Err(e) => Error(StatusBadRequest, e))
    {
      if r.httpMethod == Options {
        return Nothing, None;
      }
      if start.StartFailed? {
        return Error(StatusInternalServerError, start.err), None;
      }
      var store := SessionOf(r.sid);
      var form: Option<Values> := None;
      if ReturnUri in store {
        form := Some(store[ReturnUri].values);
      }
      var request := r.(form := form);
      store := store - {ReturnUri};
      sessions := sessions[r.sid := store];
      forwarded := Some(request);
      match handleAuthorizeRequest(request)
      case Ok(written) =>
        resp := written;
      case Err(e) =>
        resp := Error(StatusBadRequest, e);
    }

    /** `loginHandler`: a POST records the submitted user name as the
        session's login claim (the password is not looked at) and sends the
        browser to `/auth`; any other method serves the login page. */
    method Login(r: Request, start: SessionStart) returns (resp: Response)
      requires Valid()
      modifies this
      ensures Valid()
      ensures r.httpMethod == Options ==> resp == Nothing && sessions == old(sessions)
      ensures r.httpMethod != Options && start.StartFailed? ==>
        resp == Error(StatusInternalServerError, start.err) && sessions == old(sessions)
      ensures r.httpMethod != Options && r.httpMethod != Post && start.Started? ==>
        resp == Page(LoginTemplate) && sessions == old(sessions)
      ensures r.httpMethod == Post && start.Started? && r.form.None? && r.parseError.Some? ==>
        resp == Error(StatusInternalServerError, r.parseError.value) && sessions == old(sessions)
      ensures r.httpMethod == Post && start.Started? && (r.form.Some? || r.parseError.None?) ==>
        resp == Redirect(AuthPath) &&
        sessions == old(sessions)[r.sid := old(SessionOf(r.sid))[LoggedInUserID := User(FormGet(EffectiveForm(r), "username"))]]
    {
      if r.httpMethod == Options {
        return Nothing;
      }
      if start.StartFailed? {
        return Error(StatusInternalServerError, start.err);
      }
      if r.httpMethod == Post {
        if r.form.None? && r.parseError.Some? {
          return Error(StatusInternalServerError, r.parseError.value);
        }
        var store := SessionOf(r.sid);
        store := store[LoggedInUserID := User(FormGet(EffectiveForm(r), "username"))];
        sessions := sessions[r.sid := store];
        return Redirect(AuthPath);
      }
      resp := Page(LoginTemplate);
    }

    /** `authHandler`: reads the login claim without consuming it. It changes
        no session, so it has no `modifies` clause. */
    method Auth(r: Request, start: SessionStart) returns (resp: Response)
      ensures r.httpMethod == Options ==> resp == Nothing
      ensures r.httpMethod != Options && start.StartFailed? ==> resp == Error(StatusInternalServerError, start.err)
      ensures r.httpMethod != Options && start.Started? ==>
        (resp == Redirect(LoginPath) <==> LoggedInUserID !in SessionOf(r.sid)) &&
        (resp == Page(AuthTemplate) <==> LoggedInUserID in SessionOf(r.sid))
    {
      if r.httpMethod == Options {
        return Nothing;
      }
      if start.StartFailed? {
        return Error(StatusInternalServerError, start.err);
      }
      if LoggedInUserID !in SessionOf(r.sid) {
        return Redirect(LoginPath);
      }
      resp := Page(AuthTemplate);
    }

    /** One pass of the interactive login, in the order the browser and the
        library drive the handlers: an authorize request from a fresh session
        is parked and sent to `/login`; the login POST leaves a claim that
        `/auth` can see; the next authorize request gets the parked form back
        and the user handler hands out the claim exactly once. */
    method LoginFlow(sid: SessionId, query: Values, username: string, handleAuthorizeRequest: Library)
      returns (firstUser: string, restored: Option<Values>, secondUser: string, thirdUser: string, thirdResp: Response)
      requires Valid() && sid !in sessions
      modifies this
      ensures Valid()
      ensures firstUser == ""
      ensures restored == Some(query)
      ensures secondUser == username
      ensures thirdUser == "" && thirdResp == Redirect(LoginPath)
    {
      // the client sends the browser to /oauth/authorize; nothing is parked yet
      var get := Request("GET", sid, None, query, None);
      var resp, forwarded := Authorize(get, Started, handleAuthorizeRequest);
      var err;
      // the library asks the user handler, which parks the form
      firstUser, err, resp := UserAuthorize(forwarded.value, Started);
      assert resp == Redirect(LoginPath);
      // the user submits the login form
      var loginForm := map["username" := [username], "password" := [""]];
      assert FormGet(loginForm, "username") == username;
      var post := Request(Post, sid, Some(loginForm), map[], None);
      resp := Login(post, Started);
      assert resp == Redirect(AuthPath);
      assert SessionOf(sid)[LoggedInUserID] == User(username);
      resp := Auth(Request("GET", sid, None, map[], None), Started);
      assert resp == Page(AuthTemplate);
      // the auth page sends the browser back to /oauth/authorize
      resp, forwarded := Authorize(Request("POST", sid, None, map[], None), Started, handleAuthorizeRequest);
      restored := forwarded.value.form;
      assert ReturnUri !in SessionOf(sid);
      assert SessionOf(sid)[LoggedInUserID] == User(username);
      secondUser, err, resp := UserAuthorize(forwarded.value, Started);
      // the claim is gone: asking again parks the form and redirects to /login
      thirdUser, err, thirdResp := UserAuthorize(forwarded.value, Started);
    }
  }
}
