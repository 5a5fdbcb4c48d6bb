/** The admin route guard (src/middleware.ts): a request is classified from its
    path, its method and its cookies, assuming the framework invoked the middleware. */
module AdminGuard {

  /** `NextResponse.next()`, a redirect to a path on the same origin, or `401 Unauthorized`. */
  datatype Decision = Pass | Redirect(location: string) | Unauthorized

  const LoginPath: string := "/admin/login"
  const AdminPrefix: string := "/admin"
  const ApiPrefix: string := "/api/"
  const ReservationsApi: string := "/api/reservations"
  const SessionCookie: string := "admin_session"
  /** The value the admin login route stores in the session cookie. */
  const SessionValue: string := "authenticated"

  /** `s.startsWith(prefix)`. */
  predicate StartsWith(s: string, prefix: string) {
    prefix <= s
  }

  /** `request.cookies.get('admin_session')?.value === 'authenticated'`. */
  predicate Authenticated(cookies: map<string, string>) {
    SessionCookie in cookies && cookies[SessionCookie] == SessionValue
  }

  /** `handleAdminAuth`: the session passes, otherwise a page is sent to the login page
      and an API path is refused. */
  function HandleAdminAuth(pathname: string, cookies: map<string, string>): (d: Decision)
    ensures (d == Pass) <==> Authenticated(cookies)
    ensures d.Redirect? <==> !Authenticated(cookies) && !StartsWith(pathname, ApiPrefix)
    ensures d.Redirect? ==> d.location == LoginPath
  {
    if Authenticated(cookies) then Pass
    else if !StartsWith(pathname, ApiPrefix) then Redirect(LoginPath)
    else Unauthorized
  }

  /** `middleware`: the early returns in order. Only the login page is ever a redirect
      target, and a 401 is given only to the reservations API. */
  function Middleware(pathname: string, requestMethod: string, cookies: map<string, string>): (d: Decision)
    ensures d.Redirect? ==> d.location == LoginPath && StartsWith(pathname, AdminPrefix)
    ensures d == Unauthorized ==> pathname == ReservationsApi && requestMethod in {"POST", "DELETE"}
  {
    if pathname == LoginPath then Pass
    else if StartsWith(pathname, AdminPrefix) then AdminIsNotApi(pathname); HandleAdminAuth(pathname, cookies)
    else if pathname == ReservationsApi && (requestMethod == "POST" || requestMethod == "DELETE") then HandleAdminAuth(pathname, cookies)
    else Pass
  }

  /** Reference definition of the protected requests: every path under the admin prefix
      except the login page itself, and writes to the reservations API. */
  predicate Guarded(pathname: string, requestMethod: string) {
    pathname != LoginPath &&
    (StartsWith(pathname, AdminPrefix) || (pathname == ReservationsApi && requestMethod in {"POST", "DELETE"}))
  }

  lemma AdminIsNotApi(pathname: string)
    requires StartsWith(pathname, AdminPrefix)
    ensures !StartsWith(pathname, ApiPrefix)
  {
    assert pathname[2] == AdminPrefix[2];
  }

  /** The three outcomes, each characterised in both directions. */
  lemma MiddlewareDecides(pathname: string, requestMethod: string, cookies: map<string, string>)
    ensures (Middleware(pathname, requestMethod, cookies) == Pass)
              <==> !Guarded(pathname, requestMethod) || Authenticated(cookies)
    ensures (Middleware(pathname, requestMethod, cookies) == Redirect(LoginPath))
              <==> Guarded(pathname, requestMethod) && !Authenticated(cookies) && StartsWith(pathname, AdminPrefix)
    ensures (Middleware(pathname, requestMethod, cookies) == Unauthorized)
              <==> Guarded(pathname, requestMethod) && !Authenticated(cookies) && pathname == ReservationsApi
    ensures Middleware(pathname, requestMethod, cookies).Redirect? ==> Middleware(pathname, requestMethod, cookies).location == LoginPath
  {
    if StartsWith(pathname, AdminPrefix) {
      AdminIsNotApi(pathname);
    }
    if pathname == ReservationsApi {
      assert StartsWith(pathname, ApiPrefix);
      assert !StartsWith(pathname, AdminPrefix) by { assert pathname[2] != AdminPrefix[2]; }
    }
  }

  /** The login page is always open, with or without a session. */
  lemma LoginPageOpen(requestMethod: string, cookies: map<string, string>)
    ensures Middleware(LoginPath, requestMethod, cookies) == Pass
  {
  }

  /** With the session the login route sets, every request passes. */
  lemma SessionPassesEverything(pathname: string, requestMethod: string, cookies: map<string, string>)
    requires SessionCookie in cookies && cookies[SessionCookie] == SessionValue
    ensures Middleware(pathname, requestMethod, cookies) == Pass
  {
  }

  /** An admin page other than the login page, requested without the session, is
      redirected to the login page and never answered 401; the match is a prefix
      match, so this covers paths such as "/administrator" and "/admin/login/x". */
  lemma AdminPagesRedirect(pathname: string, requestMethod: string, cookies: map<string, string>)
    requires StartsWith(pathname, AdminPrefix) && pathname != LoginPath && !Authenticated(cookies)
    ensures Middleware(pathname, requestMethod, cookies) == Redirect(LoginPath)
  {
    AdminIsNotApi(pathname);
  }

  /** The reservations API is guarded for POST and DELETE only, and without the
      session it answers 401, never a redirect. */
  lemma ReservationsApiGuard(requestMethod: string, cookies: map<string, string>)
    ensures requestMethod != "POST" && requestMethod != "DELETE" ==> Middleware(ReservationsApi, requestMethod, cookies) == Pass
    ensures (requestMethod == "POST" || requestMethod == "DELETE") && !Authenticated(cookies) ==>
              Middleware(ReservationsApi, requestMethod, cookies) == Unauthorized
  {
    assert !StartsWith(ReservationsApi, AdminPrefix) by { assert ReservationsApi[2] != AdminPrefix[2]; }
  }

  /** A path under neither rule passes whatever the requestMethod and the cookies. */
  lemma UnmatchedPathsPass(pathname: string, requestMethod: string, cookies: map<string, string>)
    requires !StartsWith(pathname, AdminPrefix) && pathname != ReservationsApi
    ensures Middleware(pathname, requestMethod, cookies) == Pass
  {
  }
}
