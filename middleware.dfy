/** The request guard of src/middleware.ts: a decision over whether a valid
    session exists and the request's pathname. */
module Middleware {
  import opened Common
  import Session

  datatype Decision = Redirect(location: string) | Pass

  /** The route list, compared by exact string equality (`Array.includes`). */
  const ProtectedRoutes: seq<string> := ["/home/*", "/upload", "/profile"]

  /** middleware (src/middleware.ts:5-22), given verifySession's result. */
  function Guard(payload: Option<Session.Claims>, pathname: string): (d: Decision)
    ensures d == Redirect("/home") <==> payload.Some? && pathname == "/"
    ensures d == Redirect("/signin") <==> payload.None? && pathname in ProtectedRoutes
    ensures d == Pass <==> (payload.Some? && pathname != "/") || (payload.None? && pathname !in ProtectedRoutes)
  {
    if payload.Some? && pathname == "/" then Redirect("/home")
    else if payload.None? && pathname in ProtectedRoutes then Redirect("/signin")
    else Pass
  }

  /** The decision for a request carrying cookie store `store` at `nowMs`. */
  function Route(store: Session.CookieStore, key: string, nowMs: nat, pathname: string): Decision {
    Guard(Session.VerifySession(store, key, nowMs), pathname)
  }

  /** Only the presence of a session matters, never which user it names. */
  lemma OnlyPresenceMatters(p: Option<Session.Claims>, q: Option<Session.Claims>, pathname: string)
    requires p.Some? == q.Some?
    ensures Guard(p, pathname) == Guard(q, pathname)
  {
  }

  /** Signed-out requests for `/home` and everything under it are not
      redirected: the wildcard entry of the list matches only its own text. */
  lemma WildcardIsLiteral(suffix: string)
    requires suffix != "*"
    ensures Guard(None, "/home") == Pass
    ensures Guard(None, "/home/" + suffix) == Pass
  {
    var path, wildcard := "/home/" + suffix, "/home/*";
    assert path[6..] == suffix && wildcard[6..] == "*";
    assert path[1] == 'h' && "/upload"[1] == 'u' && "/profile"[1] == 'p';
    assert path !in ProtectedRoutes;
  }

  /** A request with no cookie reaches `/upload` only through a redirect. */
  lemma NoCookieProtectsUpload(store: Session.CookieStore, key: string, nowMs: nat)
    requires Session.SessionCookie !in store
    ensures Route(store, key, nowMs, "/upload") == Redirect("/signin")
  {
  }

  predicate IsPrefix(p: string, s: string) {
    |p| <= |s| && s[..|p|] == p
  }

  /** What the wildcard entry evidently stands for: `/home` and every path below it. */
  predicate IntendedProtected(pathname: string) {
    pathname == "/home" || IsPrefix("/home/", pathname) || pathname == "/upload" || pathname == "/profile"
  }

  /** The guard with the wildcard read as a prefix match. */
  function IntendedGuard(payload: Option<Session.Claims>, pathname: string): (d: Decision)
    ensures d == Redirect("/home") <==> payload.Some? && pathname == "/"
    ensures d == Redirect("/signin") <==> payload.None? && IntendedProtected(pathname)
    ensures payload.Some? ==> d == Guard(payload, pathname)
  {
    if payload.Some? && pathname == "/" then Redirect("/home")
    else if payload.None? && IntendedProtected(pathname) then Redirect("/signin")
    else Pass
  }

  /** With the intended reading every path under `/home` is guarded, and the
      two guards differ only on signed-out requests for that subtree. */
  lemma IntendedGuardsHomeSubtree(payload: Option<Session.Claims>, suffix: string)
    ensures IntendedGuard(None, "/home") == Redirect("/signin")
    ensures IntendedGuard(None, "/home/" + suffix) == Redirect("/signin")
    ensures forall p :: !IntendedProtected(p) || p in ProtectedRoutes ==> IntendedGuard(payload, p) == Guard(payload, p)
  {
    assert IsPrefix("/home/", "/home/" + suffix) by {
      assert ("/home/" + suffix)[..6] == "/home/";
    }
  }
}
