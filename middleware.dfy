/**
 * The request middleware's routing decision: which paths are the sign-in
 * pages, which need a session, and whether a request is let through or
 * redirected to `/login` or `/recettes`. Whether a user is signed in is an
 * input (the session lookup happens before the decision).
 */
module Middleware {
  import opened Strings

  /** `isAuthRoute`: a prefix test, so `/login-help` and `/signup/x` count too. */
  predicate IsAuthRoute(path: string) {
    StartsWith(path, "/login") || StartsWith(path, "/signup")
  }

  /** `isProtectedRoute`: not a sign-in page, not the home page, not framework assets nor the API. */
  predicate IsProtectedRoute(path: string) {
    !IsAuthRoute(path) && path != "/" && !StartsWith(path, "/_next") && !StartsWith(path, "/api")
  }

  datatype Decision = PassThrough | RedirectTo(target: string)

  /**
   * The middleware's answer: no session on a protected route goes to
   * `/login`; a session on a sign-in page goes to `/recettes`; everything
   * else passes.
   */
  function Decide(path: string, signedIn: bool): (d: Decision)
    ensures d == RedirectTo("/login") <==> !signedIn && IsProtectedRoute(path)
    ensures d == RedirectTo("/recettes") <==> signedIn && IsAuthRoute(path)
    ensures d.RedirectTo? ==> d.target == "/login" || d.target == "/recettes"
  {
    if !signedIn && IsProtectedRoute(path) then RedirectTo("/login")
    else if signedIn && IsAuthRoute(path) then RedirectTo("/recettes")
    else PassThrough
  }

  /** A route is never both a sign-in page and protected, so at most one redirect rule applies. */
  lemma RulesExclusive(path: string)
    ensures !(IsAuthRoute(path) && IsProtectedRoute(path))
  {
  }

  /** The home page and the API are never redirected, signed in or not. */
  lemma PublicPathsPass(rest: string, signedIn: bool)
    ensures Decide("/", signedIn) == PassThrough
    ensures Decide("/api" + rest, signedIn) == PassThrough
  {
    assert !StartsWith("/", "/login") && !StartsWith("/", "/signup");
    var api := "/api" + rest;
    assert StartsWith(api, "/api") by {
      assert api[..4] == "/api";
    }
    assert !StartsWith(api, "/login") && !StartsWith(api, "/signup") by {
      assert api[1] == 'a';
    }
  }

  /** `/login-help` is treated as a sign-in page: a signed-in visitor is sent to `/recettes`. */
  lemma LoginPrefixCounts()
    ensures IsAuthRoute("/login-help")
    ensures Decide("/login-help", true) == RedirectTo("/recettes")
  {
    assert "/login-help"[..6] == "/login";
  }

  /**
   * A redirect never leads to another redirect for the same visitor: `/login`
   * lets the signed-out visitor through and `/recettes` the signed-in one.
   */
  lemma NoRedirectLoop(path: string, signedIn: bool)
    ensures Decide(path, signedIn).RedirectTo? ==> Decide(Decide(path, signedIn).target, signedIn) == PassThrough
  {
    assert IsAuthRoute("/login") by {
      assert "/login"[..6] == "/login";
    }
    assert !IsAuthRoute("/recettes") by {
      assert "/recettes"[1] == 'r';
    }
  }
}
