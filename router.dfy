/**
 * The front end's route table and its navigation guard: which pages need a login, and
 * where a navigation is sent depending on whether a token is stored.
 */
module Router {
  import opened Wrappers

  /** One entry of the route table; `requiresAuth` is its `meta.requiresAuth`. */
  datatype Route = Route(path: string, name: string, component: string, requiresAuth: bool)

  /** What the guard tells the router: go on, or go to another path instead. */
  datatype Decision = Proceed | Redirect(target: string)

  const Routes: seq<Route> := [
    Route("/", "Home", "Home", true),
    Route("/home", "HomeAlt", "Home", true),
    Route("/profile", "Profile", "Profile", true),
    Route("/process", "ProcessMeeting", "ProcessMeeting", true),
    Route("/whatsapp", "ProcessWhatsApp", "ProcessWhatsApp", true),
    Route("/test", "TestCapability", "ProcessMeeting", false),
    Route("/opportunities", "Opportunities", "Opportunities", true),
    Route("/preparation", "Preparation", "Preparation", true),
    Route("/login", "Login", "Login", false),
    Route("/register", "Register", "Register", false),
    Route("/auth-success", "AuthSuccess", "AuthSuccess", false)
  ]

  function LowerAscii(c: char): char {
    if 'A' <= c <= 'Z' then (c as int + 32) as char else c
  }

  /**
   * The form in which the router compares a path with the table: matching ignores ASCII
   * case and accepts one trailing slash.
   */
  function Normalize(p: string): (r: string)
    ensures |r| == |p| - (if |p| > 1 && p[|p| - 1] == '/' then 1 else 0)
    ensures forall i :: 0 <= i < |r| ==> r[i] == LowerAscii(p[i])
  {
    var lower := seq(|p|, i requires 0 <= i < |p| => LowerAscii(p[i]));
    if |lower| > 1 && lower[|lower| - 1] == '/' then lower[..|lower| - 1] else lower
  }

  /** The index of the first route at or after `i` whose path is `n`, or -1. */
  function RouteIndexFrom(rs: seq<Route>, n: string, i: nat): (k: int)
    requires i <= |rs|
    ensures k == -1 || i <= k < |rs|
    ensures k == -1 ==> forall j :: i <= j < |rs| ==> rs[j].path != n
    ensures k >= 0 ==> rs[k].path == n && forall j :: i <= j < k ==> rs[j].path != n
    decreases |rs| - i
  {
    if i == |rs| then -1 else if rs[i].path == n then i else RouteIndexFrom(rs, n, i + 1)
  }

  /** The first route of `rs` whose path is `n`. */
  function FindRoute(rs: seq<Route>, n: string): (r: Option<Route>)
    ensures r.Some? ==> r.value in rs && r.value.path == n
    ensures r.None? ==> forall i :: 0 <= i < |rs| ==> rs[i].path != n
  {
    var k := RouteIndexFrom(rs, n, 0);
    if k < 0 then None else Some(rs[k])
  }

  /** `to.meta.requiresAuth`: false for a path no route matches. */
  predicate RequiresAuth(p: string) {
    var r := FindRoute(Routes, Normalize(p));
    r.Some? && r.value.requiresAuth
  }

  /** `!!localStorage.getItem('token')`: a stored, non-empty token. */
  predicate Authenticated(token: Option<string>) {
    token.Some? && token.value != ""
  }

  /** `router.beforeEach`: protected pages send a visitor without a token to the login page, and the login page sends a logged-in user home. */
  function Guard(p: string, token: Option<string>): Decision {
    if RequiresAuth(p) && !Authenticated(token) then Redirect("/login")
    else if p == "/login" && Authenticated(token) then Redirect("/")
    else Proceed
  }

  /** The three rules of the guard, each as an if-and-only-if. */
  lemma {:induction false} GuardRules(p: string, token: Option<string>)
    ensures Guard(p, token) == Redirect("/login") <==> RequiresAuth(p) && !Authenticated(token)
    ensures Guard(p, token) == Redirect("/") <==> Authenticated(token) && p == "/login" && !RequiresAuth(p)
    ensures Guard(p, token) == Proceed <==>
      !(RequiresAuth(p) && !Authenticated(token)) && !(p == "/login" && Authenticated(token))
  {
  }

  /** The paths in the table are already normal and distinct, so each table path matches its own route. */
  lemma {:induction false} TablePathsMatchThemselves(i: nat)
    requires i < |Routes|
    ensures Normalize(Routes[i].path) == Routes[i].path
    ensures FindRoute(Routes, Routes[i].path) == Some(Routes[i])
  {
    TablePathNormal(i);
    TablePathsDistinct(i);
    FindRouteAt(Routes, Routes[i].path, i);
  }

  lemma {:induction false} TablePathNormal(i: nat)
    requires i < |Routes|
    ensures Normalize(Routes[i].path) == Routes[i].path
  {
    var p := Routes[i].path;
    assert forall j :: 0 <= j < |p| ==> LowerAscii(p[j]) == p[j] by {
      if i < 4 {
        assert Routes[i].path in {"/", "/home", "/profile", "/process"};
      } else if i < 8 {
        assert Routes[i].path in {"/whatsapp", "/test", "/opportunities", "/preparation"};
      } else {
        assert Routes[i].path in {"/login", "/register", "/auth-success"};
      }
    }
  }

  lemma {:induction false} TablePathsDistinct(i: nat)
    requires i < |Routes|
    ensures forall j :: 0 <= j < i ==> Routes[j].path != Routes[i].path
  {
  }

  /** `FindRoute` returns the entry at the first index whose path matches. */
  lemma {:induction false} FindRouteAt(rs: seq<Route>, n: string, i: nat)
    requires i < |rs| && rs[i].path == n
    requires forall j :: 0 <= j < i ==> rs[j].path != n
    ensures FindRoute(rs, n) == Some(rs[i])
  {
  }

  /**
   * Exactly the pages marked in the table are protected: a visitor without a token who
   * asks for one of them is sent to the login page, and never for any other table path.
   */
  lemma {:induction false} ProtectedPages(i: nat, token: Option<string>)
    requires i < |Routes|
    ensures RequiresAuth(Routes[i].path) == Routes[i].requiresAuth
    ensures !Authenticated(token) ==>
      (Guard(Routes[i].path, token) == Redirect("/login") <==> Routes[i].requiresAuth)
  {
    TablePathsMatchThemselves(i);
  }

  /** The public pages: registration, the sign-in callback and the test page let anyone through. */
  lemma {:induction false} PublicPages(p: string, token: Option<string>)
    requires p in {"/register", "/auth-success", "/test"}
    ensures Guard(p, token) == Proceed
  {
    if p == "/test" {
      TablePathsMatchThemselves(5);
      assert Routes[5].path == "/test";
    } else if p == "/register" {
      TablePathsMatchThemselves(9);
      assert Routes[9].path == "/register";
    } else {
      TablePathsMatchThemselves(10);
      assert Routes[10].path == "/auth-success";
    }
  }

  /** The login page lets a visitor without a token through and sends one with a token home. */
  lemma {:induction false} LoginPage(token: Option<string>)
    ensures Guard("/login", token) == if Authenticated(token) then Redirect("/") else Proceed
  {
    TablePathsMatchThemselves(8);
    assert Routes[8].path == "/login";
  }

  /** An empty stored token counts as no token. */
  lemma {:induction false} EmptyTokenIsNoToken(p: string)
    ensures Guard(p, Some("")) == Guard(p, None)
  {
  }

  /** A redirect is never redirected again: its target lets the same visitor through. */
  lemma {:induction false} RedirectSettles(p: string, token: Option<string>)
    ensures Guard(p, token).Redirect? ==> Guard(Guard(p, token).target, token) == Proceed
  {
    TablePathsMatchThemselves(0);
    assert Routes[0].path == "/";
    TablePathsMatchThemselves(8);
    assert Routes[8].path == "/login";
  }

  /** Matching ignores case and one trailing slash, so such spellings are protected like the page itself. */
  lemma {:induction false} SpellingsProtected(p: string, q: string)
    requires Normalize(p) == Normalize(q)
    ensures RequiresAuth(p) == RequiresAuth(q)
  {
  }

  /**
   * The guard compares `to.path` with '/login' literally while the matcher does not: a
   * logged-in user who opens '/login/' gets the login page instead of being sent home.
   */
  lemma {:induction false} LoginSpellingSlipsThrough()
    ensures FindRoute(Routes, Normalize("/login/")) == Some(Routes[8]) && Routes[8].name == "Login"
    ensures Guard("/login/", Some("token")) == Proceed
  {
    var p := "/login/";
    assert Normalize(p) == "/login" by {
      var lower := seq(|p|, i requires 0 <= i < |p| => LowerAscii(p[i]));
      assert forall j :: 0 <= j < |p| ==> LowerAscii(p[j]) == p[j];
      assert lower == p;
      assert p[..|p| - 1] == "/login";
    }
    TablePathsMatchThemselves(8);
  }

  /** The guard as intended: the login page is recognised however the router matched it. */
  function IntendedGuard(p: string, token: Option<string>): Decision {
    if RequiresAuth(p) && !Authenticated(token) then Redirect("/login")
    else if Normalize(p) == "/login" && Authenticated(token) then Redirect("/")
    else Proceed
  }

  /** Every spelling that opens the login page sends a logged-in user home and lets a visitor without a token through. */
  lemma {:induction false} IntendedLoginRedirect(p: string, token: Option<string>)
    requires Normalize(p) == "/login"
    ensures IntendedGuard(p, token) == if Authenticated(token) then Redirect("/") else Proceed
  {
    TablePathsMatchThemselves(8);
    assert Routes[8].path == "/login";
    assert !RequiresAuth(p);
  }

  /** Away from the login page the intended guard decides exactly as the written one. */
  lemma {:induction false} IntendedGuardElsewhere(p: string, token: Option<string>)
    requires Normalize(p) != "/login"
    ensures IntendedGuard(p, token) == Guard(p, token)
  {
    TablePathsMatchThemselves(8);
    assert Routes[8].path == "/login";
  }
}
