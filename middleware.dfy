/** The route guard (middleware.js): from the session token, if any, and
    the request path, decide to redirect to the login page, redirect to the
    unauthorized page, or let the request through. */
module Middleware {
  import opened Wrappers
  import opened Strings
  import OrdersRoute

  /** The decoded JWT; `role` is absent when the token carries no role claim. */
  datatype Token = Token(role: Option<string>)

  datatype Decision = RedirectToLogin | RedirectToUnauthorized | PassThrough

  predicate ManagerArea(pathname: string) {
    StartsWith(pathname, "/manager")
  }

  /** `token?.role === "manager"`: an exact, case-sensitive comparison. */
  predicate IsManagerToken(token: Option<Token>) {
    token.Some? && token.value.role == Some("manager")
  }

  function Guard(token: Option<Token>, pathname: string): (d: Decision)
    ensures d == RedirectToLogin <==> token.None? && ManagerArea(pathname)
    ensures d == RedirectToUnauthorized <==> token.Some? && !IsManagerToken(token) && ManagerArea(pathname)
    ensures d == PassThrough <==> !ManagerArea(pathname) || IsManagerToken(token)
  {
    if token.None? && ManagerArea(pathname) then RedirectToLogin
    else if !IsManagerToken(token) && ManagerArea(pathname) then RedirectToUnauthorized
    else PassThrough
  }

  /** `config.matcher: ["/manager/:path*"]`: the paths the guard is run on. */
  function Matched(pathname: string): (r: bool)
    ensures r ==> StartsWith(pathname, "/manager")
  {
    pathname == "/manager" || StartsWith(pathname, "/manager/")
  }

  /** On every path the matcher selects, a request gets through exactly when
      its token carries the role `manager`, and a missing token always goes
      to the login page rather than the unauthorized page. */
  lemma MatchedPathsNeedManagerToken(token: Option<Token>, pathname: string)
    requires Matched(pathname)
    ensures Guard(token, pathname) == PassThrough <==> IsManagerToken(token)
    ensures token.None? ==> Guard(token, pathname) == RedirectToLogin
  {
    assert pathname[..|"/manager"|] == "/manager" by {
      if pathname != "/manager" {
        assert pathname[..|"/manager/"|][..|"/manager"|] == pathname[..|"/manager"|];
      }
    }
  }

  /** The guard compares the role exactly, the orders API case-insensitively:
      a session whose role is "Manager" is turned away from the manager
      pages but may approve orders through PATCH. */
  lemma RoleCaseMismatch(pathname: string, s: OrdersRoute.Session)
    requires ManagerArea(pathname) && s.role == "Manager"
    ensures Guard(Some(Token(Some(s.role))), pathname) == RedirectToUnauthorized
    ensures OrdersRoute.HasRole(s, "manager")
  {
    assert ToLower(s.role) == "manager";
  }
}
