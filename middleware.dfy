/**
 * The route guard (middleware.ts, lines 58-124): from the request path, the
 * outcome of the user lookup and the `redirectTo` query parameter, it either
 * lets the request through or redirects it. Cookie handling is not part of
 * this model.
 */
module Middleware {
  import opened Options
  import opened Text

  const ProtectedRoutes: seq<string> := ["/", "/debts", "/transactions", "/budget", "/profile"]
  const AuthRoutes: seq<string> := ["/auth/login", "/auth/signup", "/auth/forgot-password"]
  const ResetPasswordRoute: string := "/auth/reset-password"
  const LoginPath: string := "/auth/login"

  /** `routes.some((route) => path.startsWith(route))`. */
  predicate StartsWithAny(path: string, routes: seq<string>)
  {
    exists i :: 0 <= i < |routes| && StartsWith(path, routes[i])
  }

  predicate IsProtectedRoute(path: string) { StartsWithAny(path, ProtectedRoutes) }

  predicate IsAuthRoute(path: string) { StartsWithAny(path, AuthRoutes) }

  predicate IsResetPasswordRoute(path: string) { StartsWith(path, ResetPasswordRoute) }

  /** What `supabase.auth.getUser()` did: it threw, or it returned a user or none, with an error or none. */
  datatype Lookup = Thrown | Returned(signedIn: bool, error: bool)

  /** The response: the request goes on, or a redirect to a target with an optional `redirectTo` parameter. */
  datatype Decision = PassThrough | Redirect(target: string, redirectTo: Option<string>)

  /** Lines 97-101: `redirectTo` when it starts with `/`, else the home page. */
  function AfterLoginTarget(redirectTo: Option<string>): string
  {
    if redirectTo.Some? && StartsWith(redirectTo.value, "/") then redirectTo.value else "/"
  }

  /** The catch block (lines 104-121): a protected path goes to the login page, without `redirectTo`. */
  function Caught(path: string): Decision
  {
    if IsProtectedRoute(path) then Redirect(LoginPath, None) else PassThrough
  }

  /**
   * Whether `new URL(target, req.url)` (lines 98-101) throws. A target that
   * stays on the origin is a path, and resolving a path against the request's
   * URL never fails. A target that names a host of its own fails when that host
   * is empty; for any other host the verdict of the URL parser's host rules is
   * given as `hostRejected`.
   */
  predicate TargetThrows(target: string, hostRejected: bool)
  {
    LeavesOrigin(target) && (EmptyHost(target) || hostRejected)
  }

  /** The guard as written; a target the URL parser rejects throws into the catch block. */
  function Decide(path: string, lookup: Lookup, redirectTo: Option<string>, hostRejected: bool): Decision
  {
    match lookup
    case Thrown => Caught(path)
    case Returned(signedIn, error) =>
      if !signedIn && !error && IsProtectedRoute(path) then Redirect(LoginPath, Some(path))
      else if signedIn && IsAuthRoute(path) && !IsResetPasswordRoute(path) then
        var target := AfterLoginTarget(redirectTo);
        if TargetThrows(target, hostRejected) then Caught(path) else Redirect(target, None)
      else PassThrough
  }

  /** Because `/` is one of the protected prefixes, every path that starts with `/` is protected. */
  lemma ProtectedIffRooted(path: string)
    ensures IsProtectedRoute(path) <==> StartsWith(path, "/")
  {
    if IsProtectedRoute(path) {
      var i :| 0 <= i < |ProtectedRoutes| && StartsWith(path, ProtectedRoutes[i]);
      assert path[0] == ProtectedRoutes[i][0];
    }
    if StartsWith(path, "/") {
      assert StartsWith(path, ProtectedRoutes[0]);
    }
  }

  /** No auth route is the password-reset route, so that test never changes the decision. */
  lemma AuthRouteIsNotReset(path: string)
    ensures IsResetPasswordRoute(path) ==> !IsAuthRoute(path)
  {
    if IsResetPasswordRoute(path) {
      assert path[6] == 'r';
      forall i | 0 <= i < |AuthRoutes| ensures !StartsWith(path, AuthRoutes[i]) {
        assert AuthRoutes[i][6] != path[6];
      }
    }
  }

  /** Every auth route starts with `/`, so it is protected. */
  lemma AuthRouteIsRooted(path: string)
    requires IsAuthRoute(path)
    ensures StartsWith(path, "/")
  {
    var i :| 0 <= i < |AuthRoutes| && StartsWith(path, AuthRoutes[i]);
    assert path[0] == AuthRoutes[i][0];
  }

  /**
   * The decision case by case: a thrown lookup sends every rooted path to the
   * login page without `redirectTo`; no user and no error sends it there with
   * `redirectTo` set to the path; an error without a throw lets everything
   * through; a signed-in user is sent away from the auth routes only, to a
   * target that starts with `/`, or to the login page without `redirectTo`
   * when the URL parser rejects that target.
   */
  lemma DecideSpec(path: string, redirectTo: Option<string>, hostRejected: bool)
    ensures Decide(path, Thrown, redirectTo, hostRejected) == if StartsWith(path, "/") then Redirect(LoginPath, None) else PassThrough
    ensures Decide(path, Returned(false, false), redirectTo, hostRejected) == if StartsWith(path, "/") then Redirect(LoginPath, Some(path)) else PassThrough
    ensures Decide(path, Returned(false, true), redirectTo, hostRejected) == PassThrough
    ensures Decide(path, Returned(true, false), redirectTo, hostRejected) == Decide(path, Returned(true, true), redirectTo, hostRejected)
         == if !IsAuthRoute(path) then PassThrough
            else if TargetThrows(AfterLoginTarget(redirectTo), hostRejected) then Redirect(LoginPath, None)
            else Redirect(AfterLoginTarget(redirectTo), None)
    ensures StartsWith(AfterLoginTarget(redirectTo), "/")
    ensures !LeavesOrigin(AfterLoginTarget(redirectTo)) ==> !TargetThrows(AfterLoginTarget(redirectTo), hostRejected)
  {
    ProtectedIffRooted(path);
    AuthRouteIsNotReset(path);
    if IsAuthRoute(path) {
      AuthRouteIsRooted(path);
    }
  }

  // ---------------------------------------------------------------------------
  // The login page is itself protected

  /** A signed-out visitor of the login page is redirected to the login page, which redirects again. */
  lemma LoginRedirectsToItself(redirectTo: Option<string>, hostRejected: bool)
    ensures Decide(LoginPath, Returned(false, false), redirectTo, hostRejected) == Redirect(LoginPath, Some(LoginPath))
    ensures IsAuthRoute(LoginPath)
  {
    ProtectedIffRooted(LoginPath);
    assert StartsWith(LoginPath, AuthRoutes[0]);
  }

  /** The protected pages: the home page exactly, and the application's sections by prefix. */
  predicate IsProtectedPage(path: string)
  {
    path == "/" || StartsWithAny(path, ProtectedRoutes[1..])
  }

  /** The guard with the home page matched exactly. */
  function DecideExactHome(path: string, lookup: Lookup, redirectTo: Option<string>): Decision
  {
    match lookup
    case Thrown =>
      if IsProtectedPage(path) then Redirect(LoginPath, None) else PassThrough
    case Returned(signedIn, error) =>
      if !signedIn && !error && IsProtectedPage(path) then Redirect(LoginPath, Some(path))
      else if signedIn && IsAuthRoute(path) && !IsResetPasswordRoute(path) then Redirect(SafeAfterLoginTarget(redirectTo), None)
      else PassThrough
  }

  /**
   * With the home page matched exactly, the auth pages and the reset page are
   * open to a signed-out visitor, so the login redirect is followed by the login
   * page itself, while every page that needs a user is still guarded.
   */
  lemma SignedOutReachesLogin(path: string, redirectTo: Option<string>)
    ensures IsAuthRoute(path) || IsResetPasswordRoute(path) ==>
      DecideExactHome(path, Returned(false, false), redirectTo) == PassThrough
    ensures DecideExactHome(LoginPath, Returned(false, false), redirectTo) == PassThrough
    ensures IsProtectedPage(path) ==> DecideExactHome(path, Returned(false, false), redirectTo) == Redirect(LoginPath, Some(path))
  {
    if IsAuthRoute(path) || IsResetPasswordRoute(path) {
      AuthPagesAreNotProtected(path);
    }
    assert StartsWith(LoginPath, AuthRoutes[0]);
    AuthPagesAreNotProtected(LoginPath);
  }

  lemma AuthPagesAreNotProtected(path: string)
    requires IsAuthRoute(path) || IsResetPasswordRoute(path)
    ensures !IsProtectedPage(path)
  {
    assert StartsWith(path, "/auth/") by {
      if IsAuthRoute(path) {
        var i :| 0 <= i < |AuthRoutes| && StartsWith(path, AuthRoutes[i]);
        assert path[..6] == AuthRoutes[i][..6];
      } else {
        assert path[..6] == ResetPasswordRoute[..6];
      }
    }
    forall i | 0 <= i < |ProtectedRoutes[1..]| ensures !StartsWith(path, ProtectedRoutes[1..][i]) {
      assert ProtectedRoutes[1..][i][1] != path[1];
    }
  }

  // ---------------------------------------------------------------------------
  // Where a signed-in user is sent

  /** The characters the URL parser removes from anywhere in its input: tab, line feed and carriage return. */
  function StripTabsAndNewlines(s: string): (r: string)
    ensures |r| <= |s|
  {
    if s == [] then []
    else (if s[0] in {'\t', '\n', '\r'} then [] else [s[0]]) + StripTabsAndNewlines(s[1..])
  }

  predicate IsSlash(c: char) { c == '/' || c == '\\' }

  /**
   * A reference that, once cleaned, starts with two slashes (in an http URL a
   * backslash counts as a slash) names a host of its own: resolving it against
   * the request's URL leaves the application's origin.
   */
  predicate LeavesOrigin(reference: string)
  {
    var s := StripTabsAndNewlines(reference);
    |s| >= 2 && IsSlash(s[0]) && IsSlash(s[1])
  }

  /** The slashes the URL parser skips before the host of a reference that names one. */
  function DropSlashes(s: string): (r: string)
    ensures |r| <= |s|
    ensures r == [] || !IsSlash(r[0])
  {
    if s != [] && IsSlash(s[0]) then DropSlashes(s[1..]) else s
  }

  /**
   * A reference that names a host but leaves it empty: after the slashes the
   * input ends or a query or fragment starts. The URL parser rejects it.
   */
  predicate EmptyHost(reference: string)
  {
    var rest := DropSlashes(StripTabsAndNewlines(reference));
    rest == [] || rest[0] == '?' || rest[0] == '#'
  }

  /** A host name made of letters, digits, hyphens and dots, such as `evil.example`. */
  predicate PlainHost(host: string)
  {
    |host| > 0 && forall i :: 0 <= i < |host| ==> IsHostChar(host[i])
  }

  predicate IsHostChar(c: char)
  {
    'a' <= c <= 'z' || 'A' <= c <= 'Z' || '0' <= c <= '9' || c == '-' || c == '.'
  }

  /** Cleaning leaves a plain host name as it is. */
  lemma {:induction false} StripKeepsPlainHost(host: string)
    requires forall i :: 0 <= i < |host| ==> IsHostChar(host[i])
    ensures StripTabsAndNewlines(host) == host
  {
    if host != [] {
      StripKeepsPlainHost(host[1..]);
      assert host == [host[0]] + host[1..];
    }
  }

  /** A slash in front survives cleaning. */
  lemma {:induction false} StripSlash(t: string)
    ensures StripTabsAndNewlines("/" + t) == "/" + StripTabsAndNewlines(t)
  {
    assert ("/" + t)[1..] == t;
  }

  /** A tab in front is removed by cleaning. */
  lemma {:induction false} StripTab(t: string)
    ensures StripTabsAndNewlines("\t" + t) == StripTabsAndNewlines(t)
  {
    assert ("\t" + t)[1..] == t;
  }

  /** `//host` and `/<tab>/host` both clean to `//host`. */
  lemma {:induction false} CleanedForeignTargets(host: string)
    requires PlainHost(host)
    ensures StripTabsAndNewlines("//" + host) == "//" + host
    ensures StripTabsAndNewlines("/\t/" + host) == "//" + host
  {
    var h1 := "/" + host;
    StripKeepsPlainHost(host);
    StripSlash(host);
    StripSlash(h1);
    assert "/" + h1 == "//" + host;
    StripTab(h1);
    StripSlash("\t" + h1);
    assert "/" + ("\t" + h1) == "/\t/" + host;
  }

  /**
   * A `redirectTo` that names another host passes the check of line 99, the URL
   * parser accepts it, and a signed-in visitor of the login page is sent there.
   */
  lemma {:induction false} ForeignTargetAccepted(host: string)
    requires PlainHost(host)
    ensures LeavesOrigin("//" + host) && LeavesOrigin("/\t/" + host)
    ensures Decide(LoginPath, Returned(true, false), Some("//" + host), false) == Redirect("//" + host, None)
    ensures Decide(LoginPath, Returned(true, false), Some("/\t/" + host), false) == Redirect("/\t/" + host, None)
  {
    CleanedForeignTargets(host);
    var a := "//" + host;
    assert a[1..] == "/" + host && a[1..][1..] == host;
    assert IsHostChar(host[0]);
    assert DropSlashes(host) == host;
    assert DropSlashes(a) == host;
    StartsWithAppend("/", "/" + host);
    assert "/" + ("/" + host) == a;
    StartsWithAppend("/", "\t/" + host);
    assert "/" + ("\t/" + host) == "/\t/" + host;
    assert StartsWith(LoginPath, AuthRoutes[0]);
    AuthRouteIsNotReset(LoginPath);
  }

  /** A target whose host is empty, such as `//`, throws, and the catch block sends the visitor to the login page. */
  lemma EmptyHostCaught(hostRejected: bool)
    ensures LeavesOrigin("//") && EmptyHost("//")
    ensures Decide(LoginPath, Returned(true, false), Some("//"), hostRejected) == Redirect(LoginPath, None)
  {
    assert StripTabsAndNewlines("//") == "//" by {
      assert "//"[1..] == "/";
      assert StripTabsAndNewlines("/") == "/";
    }
    assert "//"[1..] == "/" && "/"[1..] == "";
    assert DropSlashes("//") == "";
    assert StartsWith("//", "/");
    assert StartsWith(LoginPath, AuthRoutes[0]);
    AuthRouteIsNotReset(LoginPath);
    ProtectedIffRooted(LoginPath);
  }

  /** The after-login target restricted to paths on the application's own origin. */
  function SafeAfterLoginTarget(redirectTo: Option<string>): string
  {
    if redirectTo.Some? && StartsWith(redirectTo.value, "/") && !LeavesOrigin(redirectTo.value) then redirectTo.value
    else "/"
  }

  /** The restricted target is always a path of this origin, and it keeps every such `redirectTo`. */
  lemma SafeTargetStaysOnOrigin(redirectTo: Option<string>)
    ensures var t := SafeAfterLoginTarget(redirectTo);
      StartsWith(t, "/") && !LeavesOrigin(t)
    ensures redirectTo.Some? && StartsWith(redirectTo.value, "/") && !LeavesOrigin(redirectTo.value) ==>
      SafeAfterLoginTarget(redirectTo) == redirectTo.value
  {
    assert StripTabsAndNewlines("/") == "/";
  }
}
