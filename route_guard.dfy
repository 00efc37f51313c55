/** The Next.js middleware that guards routes on the `token` cookie (middleware.ts). */
module RouteGuard {
  import opened Wrappers
  import opened JsText

  datatype Response = Next | Redirect(location: string)

  /** `request.cookies.get("token")?.value` is truthy: present and not empty. */
  predicate HasToken(token: Option<string>) {
    token.Some? && token.value != ""
  }

  /** The paths that need a session. */
  predicate Protected(pathname: string) {
    StartsWith(pathname, "/threads") || StartsWith(pathname, "/about")
  }

  /** `middleware(request)`. */
  function Middleware(token: Option<string>, pathname: string): (r: Response)
    ensures r == Redirect("/") <==> !HasToken(token) && Protected(pathname)
    ensures r == Redirect("/threads") <==> HasToken(token) && pathname == "/"
    ensures r == Next <==> !(!HasToken(token) && Protected(pathname)) && !(HasToken(token) && pathname == "/")
  {
    if !HasToken(token) && Protected(pathname) then Redirect("/")
    else if HasToken(token) && pathname == "/" then Redirect("/threads")
    else Next
  }

  /**
   * The middleware's tests are plain string prefixes, so on its own it would
   * also redirect `/threadsX` and `/about-us`; the matcher never runs it on
   * those paths, so in the app they pass through.
   */
  lemma PrefixNotSegment()
    ensures Middleware(None, "/threadsX") == Redirect("/")
    ensures Middleware(Some(""), "/about-us") == Redirect("/")
    ensures Guard(None, "/threadsX") == Next
    ensures Guard(Some(""), "/about-us") == Next
  {
    assert "/threadsX"[..8] == "/threads";
    assert "/about-us"[..6] == "/about";
    assert "/threadsX"[8] != "/threads/"[8];
    assert "/about-us"[6] != "/about/"[6];
  }

  /** A redirect target passes through on the next request with the same cookie: no redirect loop. */
  lemma NoRedirectLoop(token: Option<string>, pathname: string)
    ensures Middleware(token, pathname).Redirect? ==>
      Middleware(token, Middleware(token, pathname).location) == Next
  {
    assert !StartsWith("/", "/threads") && !StartsWith("/", "/about");
  }

  /** `config.matcher`: `/`, `/threads/:path*` and `/about/:path*` (a `:path*` parameter may be empty). */
  predicate Matched(pathname: string) {
    pathname == "/"
    || pathname == "/threads" || StartsWith(pathname, "/threads/")
    || pathname == "/about" || StartsWith(pathname, "/about/")
  }

  /** What a request receives: the middleware runs only on matched paths. */
  function Guard(token: Option<string>, pathname: string): (r: Response)
    ensures !Matched(pathname) ==> r == Next
    ensures Matched(pathname) ==> r == Middleware(token, pathname)
  {
    if Matched(pathname) then Middleware(token, pathname) else Next
  }

  /**
   * On the matched paths the prefix test agrees with the path segments:
   * without a token every matched path but `/` redirects to `/`, and with a
   * token only `/` redirects.
   */
  lemma MatchedPathsDecision(token: Option<string>, pathname: string)
    requires Matched(pathname)
    ensures !HasToken(token) ==> (Guard(token, pathname) == Redirect("/") <==> pathname != "/")
    ensures HasToken(token) ==> (Guard(token, pathname) == Next <==> pathname != "/")
  {
    if pathname != "/" {
      if StartsWith(pathname, "/threads/") {
        assert pathname[..8] == pathname[..9][..8];
      } else if StartsWith(pathname, "/about/") {
        assert pathname[..6] == pathname[..7][..6];
      }
    } else {
      assert !StartsWith("/", "/threads") && !StartsWith("/", "/about");
    }
  }
}
