/**
 * The frontend router's route table and its `beforeEach` guard. The guard reads the stored
 * token and user (`localStorage.getItem`, so `null` or a string) and only checks that both
 * are present.
 */
module RouterGuard {
  import opened Wrappers
  import opened Text

  /** A page of the route table, with its `meta.requiresAuth` flag. */
  datatype Route = Route(path: string, requiresAuth: bool)

  /** The pages; `/` is a plain redirect to `/login` that the router resolves before the guard runs. */
  const ROUTES: seq<Route> := [
    Route("/login", false),
    Route("/register", false),
    Route("/forgot-password", false),
    Route("/reset-password", false),
    Route("/dashboard", true),
    Route("/profile", true),
    Route("/chat", true)]

  /**
   * The router's default matching (`sensitive: false`, `strict: false`): letter case is
   * ignored and one trailing slash is allowed. The table's paths are lower-case ASCII, and a
   * case-insensitive regular expression without the `u` flag folds no other character onto
   * an ASCII letter, so lower-casing the ASCII letters of `path` is enough.
   */
  predicate PathMatches(routePath: string, path: string) {
    ToLowerAscii(path) == routePath || ToLowerAscii(path) == routePath + "/"
  }

  /** `to.meta.requiresAuth` of the page `path` resolves to; an unknown path has no meta. */
  function RequiresAuth(path: string): (r: bool)
    ensures r ==> ToLowerAscii(path) in {"/dashboard", "/profile", "/chat", "/dashboard/", "/profile/", "/chat/"}
  {
    var r := exists i :: 0 <= i < |ROUTES| && PathMatches(ROUTES[i].path, path) && ROUTES[i].requiresAuth;
    assert r ==> ToLowerAscii(path) in {"/dashboard", "/profile", "/chat", "/dashboard/", "/profile/", "/chat/"} by {
      if r {
        var i :| 0 <= i < |ROUTES| && PathMatches(ROUTES[i].path, path) && ROUTES[i].requiresAuth;
        var p := ToLowerAscii(path);
        if i == 4 { assert p == "/dashboard" || p == "/dashboard/"; }
        else if i == 5 { assert p == "/profile" || p == "/profile/"; }
        else { assert i == 6; assert p == "/chat" || p == "/chat/"; }
      }
    }
    r
  }

  /** What the guard does with a navigation: `next()` or `next(path)`. */
  datatype Decision = Proceed | Redirect(path: string)

  /** A stored item counts as present when it is a non-empty string (`!item` is false). */
  predicate Present(item: Option<string>) {
    item.Some? && item.value != ""
  }

  /** Token and user are both present. */
  predicate SignedIn(token: Option<string>, user: Option<string>) {
    Present(token) && Present(user)
  }

  /** A page for signed-out visitors that a signed-in visitor is sent away from. */
  predicate IsAuthPage(path: string) {
    path == "/login" || path == "/register"
  }

  /** `router.beforeEach((to, from, next) => …)` for a navigation to `path`. */
  function BeforeEach(requiresAuth: bool, path: string, token: Option<string>, user: Option<string>): (d: Decision)
    ensures d == Redirect("/login") <==> requiresAuth && !SignedIn(token, user)
    ensures d == Redirect("/dashboard") <==> IsAuthPage(path) && SignedIn(token, user)
    ensures d == Proceed <==> (requiresAuth ==> SignedIn(token, user)) && !(IsAuthPage(path) && SignedIn(token, user))
  {
    if requiresAuth && !SignedIn(token, user) then Redirect("/login")
    else if IsAuthPage(path) && SignedIn(token, user) then Redirect("/dashboard")
    else Proceed
  }

  /** The guard on a page of the route table. */
  function Guard(path: string, token: Option<string>, user: Option<string>): Decision {
    BeforeEach(RequiresAuth(path), path, token, user)
  }

  /**
   * Redirects settle after one step: from any page, the guard's redirect target is a page of
   * the table that the guard then lets through, so navigation never loops.
   */
  lemma GuardSettlesInOneStep(path: string, token: Option<string>, user: Option<string>)
    ensures Guard(path, token, user).Redirect? ==>
      var target := Guard(path, token, user).path;
      (exists i :: 0 <= i < |ROUTES| && ROUTES[i].path == target) && Guard(target, token, user) == Proceed
  {
    if Guard(path, token, user).Redirect? {
      if SignedIn(token, user) {
        assert ROUTES[4].path == "/dashboard";
      } else {
        assert ROUTES[0].path == "/login";
        LowerCaseFixed("/login");
        assert !RequiresAuth("/login");
      }
    }
  }

  /** A path without upper-case ASCII letters is its own lower-case form. */
  lemma LowerCaseFixed(path: string)
    requires forall k :: 0 <= k < |path| ==> !('A' <= path[k] <= 'Z')
    ensures ToLowerAscii(path) == path
  {
  }

  /** Only presence matters: a forged or expired token is let through like a valid one. */
  lemma GuardChecksPresenceOnly(path: string, t1: Option<string>, u1: Option<string>, t2: Option<string>, u2: Option<string>)
    requires Present(t1) == Present(t2) && Present(u1) == Present(u2)
    ensures Guard(path, t1, u1) == Guard(path, t2, u2)
  {
  }

  /** The protected pages are exactly the dashboard, the profile and the chat. */
  lemma ProtectedPages(path: string)
    ensures RequiresAuth(path) <==>
      ToLowerAscii(path) in {"/dashboard", "/profile", "/chat", "/dashboard/", "/profile/", "/chat/"}
  {
    var p := ToLowerAscii(path);
    if p == "/dashboard" || p == "/dashboard/" { assert PathMatches(ROUTES[4].path, path); }
    else if p == "/profile" || p == "/profile/" { assert PathMatches(ROUTES[5].path, path); }
    else if p == "/chat" || p == "/chat/" { assert PathMatches(ROUTES[6].path, path); }
  }

  /** `t` is the lower-case form of `s`, checked one character at a time. */
  lemma LowerCaseOf(s: string, t: string)
    requires |s| == |t| && forall k :: 0 <= k < |s| ==> LowerChar(s[k]) == t[k]
    ensures ToLowerAscii(s) == t
  {
  }

  /** Letter case and one trailing slash do not get round the guard: `/Dashboard/` is protected. */
  lemma MixedCasePathIsProtected()
    ensures RequiresAuth("/Dashboard/")
  {
    LowerCaseOf("/Dashboard/", "/dashboard/");
    ProtectedPages("/Dashboard/");
  }

  /** Two trailing slashes match no page, so the path is not protected. */
  lemma DoubleSlashPathIsNotProtected()
    ensures !RequiresAuth("/dashboard//")
  {
    ProtectedPages("/dashboard//");
    assert |ToLowerAscii("/dashboard//")| == 12;
  }
}
