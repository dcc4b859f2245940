/** The Next.js edge middleware (webapp/src/middleware.ts): which requests
    pass, which are redirected and which are refused, as a function of the
    request path and the session token that next-auth decoded from the
    request (decoding itself is not modelled). */
module Middleware {
  import opened Common

  /** The claims of a decoded session token; a claim can be missing. */
  datatype Token = Token(id: Option<string>, role: Option<string>)

  /** What the middleware answers. */
  datatype Decision =
    | Next                                                // NextResponse.next()
    | NextWithUser(userIdHeader: string, roleHeader: string) // next() with x-user-id / x-user-role
    | Redirect(to: string, callbackUrl: Option<string>)
    | Unauthorized                                        // 401 {"error": "Unauthorized"}

  /** The path prefixes listed in `config.matcher` (each `/x/:path*`). */
  const MatcherRoots: seq<string> := ["/dashboard", "/cases", "/documents", "/calendar", "/api", "/auth"]

  /** `/x/:path*` matches `/x` itself and everything below `/x/`. */
  predicate UnderRoot(path: string, root: string) {
    path == root || StartsWith(path, root + "/")
  }

  /** Only requests whose path matches a matcher entry reach the middleware. */
  predicate Matched(path: string) {
    exists i :: 0 <= i < |MatcherRoots| && UnderRoot(path, MatcherRoots[i])
  }

  /** A header set from a token claim: a missing claim is stringified by
      `Headers.set` as "undefined". */
  function ClaimHeader(claim: Option<string>): (r: string)
    ensures claim.Some? ==> r == claim.value
    ensures claim.None? ==> r == "undefined"
  {
    claim.GetOr("undefined")
  }

  predicate IsAuthPage(path: string) { StartsWith(path, "/auth") }

  /** An API route other than the public next-auth routes. */
  predicate IsProtectedApi(path: string) {
    StartsWith(path, "/api") && !StartsWith(path, "/api/auth")
  }

  /** No path is both a sign-in page and an API route. */
  lemma AuthPageNotApi(path: string)
    ensures !(IsAuthPage(path) && StartsWith(path, "/api"))
  {
    if IsAuthPage(path) {
      assert path[2] == path[..5][2] == 'u';
    }
  }

  /** The middleware function itself, for a request that reached it. */
  function Decide(path: string, token: Option<Token>): (r: Decision)
    ensures IsAuthPage(path) ==>
      (token.Some? ==> r == Redirect("/dashboard", None)) && (token.None? ==> r == Next)
    ensures IsProtectedApi(path) && token.None? ==> r == Unauthorized
    ensures r.NextWithUser? <==> IsProtectedApi(path) && token.Some?
    ensures r.NextWithUser? ==>
      r.userIdHeader == ClaimHeader(token.value.id) && r.roleHeader == ClaimHeader(token.value.role)
    ensures r == Redirect("/auth/signin", Some(path)) <==>
      token.None? && !IsAuthPage(path) && !IsProtectedApi(path)
    ensures token.Some? && !IsAuthPage(path) && !IsProtectedApi(path) ==> r == Next
  {
    AuthPageNotApi(path);
    if IsAuthPage(path) then
      if token.Some? then Redirect("/dashboard", None) else Next
    else if IsProtectedApi(path) then
      if token.None? then Unauthorized
      else NextWithUser(ClaimHeader(token.value.id), ClaimHeader(token.value.role))
    else if token.None? then Redirect("/auth/signin", Some(path))
    else Next
  }

  /** A request as the framework handles it: unmatched paths never reach
      the middleware and pass through untouched. */
  function Route(path: string, token: Option<Token>): (r: Decision)
    ensures !Matched(path) ==> r == Next
    ensures Matched(path) ==> r == Decide(path, token)
  {
    if Matched(path) then Decide(path, token) else Next
  }

  /** A path under a root begins with that root's characters. */
  lemma RootChars(path: string, root: string)
    requires UnderRoot(path, root)
    ensures |root| <= |path| && forall k :: 0 <= k < |root| ==> path[k] == root[k]
  {
    if path != root {
      assert path[..|root + "/"|] == root + "/";
      forall k | 0 <= k < |root| ensures path[k] == root[k] {
        assert path[..|root + "/"|][k] == (root + "/")[k];
      }
    }
  }

  /** Among the paths the matcher lets through, "starts with /auth" means
      exactly the `/auth/:path*` entry: paths such as "/authors" never get
      this far. */
  lemma AuthPageIsAuthEntry(path: string)
    requires Matched(path)
    ensures IsAuthPage(path) <==> UnderRoot(path, "/auth")
  {
    var i :| 0 <= i < |MatcherRoots| && UnderRoot(path, MatcherRoots[i]);
    RootChars(path, MatcherRoots[i]);
    if UnderRoot(path, "/auth") {
      RootChars(path, "/auth");
      assert path[..5] == "/auth";
    }
    if IsAuthPage(path) {
      assert path[..5] == "/auth";
      assert path[1] == 'a' && path[2] == 'u';
    }
  }

  /** Every unauthenticated request the matcher lets through, except the
      sign-in pages themselves, is stopped: a 401 for the protected API and
      a redirect to sign-in for everything else. */
  lemma NoAnonymousAccess(path: string)
    requires Matched(path) && !IsAuthPage(path)
    ensures Route(path, None) != Next && !Route(path, None).NextWithUser?
  {
  }

  /** The next-auth API routes are not let through without a session: an
      anonymous request to any path beginning with "/api/auth" is
      redirected to the sign-in page like a page request, while a signed-in
      one passes without the user headers. The test is a bare prefix test,
      so "/api/authors" counts as one of these routes too. */
  lemma AnonymousAuthApiRedirected(path: string)
    requires StartsWith(path, "/api/auth")
    ensures Matched(path)
    ensures Route(path, None) == Redirect("/auth/signin", Some(path))
    ensures forall t :: Route(path, Some(t)) == Next
  {
    assert path[..5] == path[..9][..5] == "/api/";
    assert UnderRoot(path, MatcherRoots[4]);
    assert path[2] == path[..5][2] == 'p';
  }

  /** A signed-in user opening any sign-in page is sent to the dashboard. */
  lemma SignedInLeavesAuthPages(path: string, t: Token)
    requires UnderRoot(path, "/auth")
    ensures Route(path, Some(t)) == Redirect("/dashboard", None)
  {
    assert UnderRoot(path, MatcherRoots[5]);
    RootChars(path, "/auth");
    assert path[..5] == "/auth";
  }

  // ---------------------------------------------------------------------
  // The next-auth API left public
  // ---------------------------------------------------------------------

  /** The routes next-auth itself serves (sign-in, callbacks, session). */
  predicate IsPublicApi(path: string) { StartsWith(path, "/api/auth") }

  /** The decision with the public API routes let through, as the comment
      "Allow auth pages and public API routes" says: an `/api/auth` request
      passes with or without a session; every other request is decided as
      before. */
  function DecideWithPublicApi(path: string, token: Option<Token>): (r: Decision)
    ensures IsPublicApi(path) ==> r == Next
    ensures !IsPublicApi(path) ==> r == Decide(path, token)
  {
    if IsPublicApi(path) then Next else Decide(path, token)
  }

  function RouteWithPublicApi(path: string, token: Option<Token>): (r: Decision)
    ensures !Matched(path) ==> r == Next
    ensures Matched(path) ==> r == DecideWithPublicApi(path, token)
  {
    if Matched(path) then DecideWithPublicApi(path, token) else Next
  }

  /** With the public routes let through, a visitor without a session can
      reach next-auth's sign-in endpoints, while every other matched path
      except the sign-in pages still stops them. */
  lemma PublicApiAdmitsSignIn(path: string)
    requires Matched(path)
    ensures IsPublicApi(path) ==> RouteWithPublicApi(path, None) == Next
    ensures !IsPublicApi(path) && !IsAuthPage(path) ==>
      RouteWithPublicApi(path, None) != Next && !RouteWithPublicApi(path, None).NextWithUser?
  {
    if !IsPublicApi(path) && !IsAuthPage(path) {
      NoAnonymousAccess(path);
    }
  }

  /** The two decisions differ only for an anonymous request to the public
      API: the written middleware redirects it, the corrected one lets it
      through. */
  lemma PublicApiOnlyChangesAnonymous(path: string, token: Option<Token>)
    requires Matched(path)
    ensures RouteWithPublicApi(path, token) != Route(path, token) <==> IsPublicApi(path) && token.None?
  {
    if IsPublicApi(path) {
      assert path[..4] == path[..9][..4] == "/api";
      assert !IsAuthPage(path) by { assert path[2] == path[..4][2] == 'p'; }
      assert !IsProtectedApi(path);
    }
  }
}
