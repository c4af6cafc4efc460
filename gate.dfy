/** The read-only routes of server.js: the `checkAdultAuth` middleware (and
    its one use, `/main`), the `/` entry redirect and `/api/check-auth`. */
module Gate {
  import opened Wrappers
  import opened Verification

  const DefaultUserName := "사용자"

  /** What the middleware does with a request: hand it on, or redirect. */
  datatype GateDecision = PassThrough | RedirectTo(path: string)

  /** `userInfo` of `/api/check-auth`: the stored identity or, when the
      session is adult without one, a name-only placeholder. */
  datatype UserInfo = Certified(info: CertInfo) | DefaultUser(name: string)

  datatype AuthStatus = AuthStatus(isAuthenticated: bool, userInfo: Option<UserInfo>)

  /** `checkAdultAuth`: the request goes on exactly when the session is
      adult; every other request is sent to the verification page. */
  function CheckAdultAuth(s: SessionState): (g: GateDecision)
    ensures g.PassThrough? <==> s.isAdult
    ensures !g.PassThrough? ==> g == RedirectTo(AuthPage)
  {
    if s.isAdult then PassThrough else RedirectTo(AuthPage)
  }

  /** `GET /`: where the entry redirect sends the browser. */
  function RootRedirect(s: SessionState): (path: string)
    ensures path == ProtectedPage <==> s.isAdult
    ensures path == AuthPage <==> !s.isAdult
  {
    if s.isAdult then ProtectedPage else AuthPage
  }

  /** `GET /main`: behind the middleware, redirects to the protected page. */
  function MainRedirect(s: SessionState): (path: string)
    ensures path == ProtectedPage <==> s.isAdult
    ensures path == AuthPage <==> !s.isAdult
  {
    match CheckAdultAuth(s)
    case PassThrough => ProtectedPage
    case RedirectTo(p) => p
  }

  /** `GET /api/check-auth`: the status the client polls. */
  function CheckAuth(s: SessionState): (r: AuthStatus)
    ensures r.isAuthenticated == s.isAdult
    ensures r.userInfo.Some? <==> s.isAdult
    ensures s.isAdult && s.certInfo.Some? ==> r.userInfo == Some(Certified(s.certInfo.value))
    ensures s.isAdult && s.certInfo.None? ==> r.userInfo == Some(DefaultUser(DefaultUserName))
  {
    if s.isAdult then
      AuthStatus(true, Some(match s.certInfo
                            case Some(info) => Certified(info)
                            case None => DefaultUser(DefaultUserName)))
    else
      AuthStatus(false, None)
  }

  /** The middleware, the entry redirect and the status API agree on every
      session: `/` and `/main` land on the same page, and the gate opens
      exactly when the status API reports the session as authenticated. */
  lemma RoutesAgree(s: SessionState)
    ensures RootRedirect(s) == MainRedirect(s)
    ensures CheckAdultAuth(s).PassThrough? <==> CheckAuth(s).isAuthenticated
  {
  }
}
