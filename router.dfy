/** utils/router.ts: the route names and the conversion between a route and the path in the
    address bar. The base path is a parameter; the deployed one is empty. */
module Router {
  /** The `Route` union type. */
  datatype Route = Login | Signup | Feed | Profile | Users | Admin | Settings | Root

  function RouteText(r: Route): (s: string)
    ensures |s| >= 1 && s[0] == '/'
  {
    match r
    case Login => "/login"
    case Signup => "/signup"
    case Feed => "/feed"
    case Profile => "/profile"
    case Users => "/users"
    case Admin => "/admin"
    case Settings => "/settings"
    case Root => "/"
  }

  /** Distinct routes are distinct paths. */
  lemma RouteTextInjective(r1: Route, r2: Route)
    requires RouteText(r1) == RouteText(r2)
    ensures r1 == r2
  {
    var s := RouteText(r1);
    assert |s| >= 2 ==> s[1] == RouteText(r2)[1];
    assert |s| >= 3 ==> s[2] == RouteText(r2)[2];
  }

  /** getBasePath: the site is served from the root. */
  const BasePath: string := ""

  /** buildPath: the base path followed by the route. */
  function BuildPath(base: string, r: Route): (p: string)
    ensures base <= p && p[|base|..] == RouteText(r)
  {
    base + RouteText(r)
  }

  /** With the deployed base path the path is the route itself. */
  lemma BuildPathIsRoute(r: Route)
    ensures BuildPath(BasePath, r) == RouteText(r)
  {
  }

  /** getRouteFromPath: a non-empty base path that starts the pathname is removed, and an
      empty remainder becomes "/"; any other pathname comes back unchanged. */
  function GetRouteFromPath(base: string, pathname: string): (r: string)
    ensures base == "" || !(base <= pathname) ==> r == pathname
    ensures base != "" && pathname == base ==> r == "/"
    ensures base != "" && base <= pathname && pathname != base ==> base + r == pathname
  {
    if base != "" && base <= pathname then
      if pathname[|base|..] != "" then pathname[|base|..] else "/"
    else pathname
  }

  /** Reading back a built path gives the route, whatever the base path. */
  lemma RouteRoundTrip(base: string, r: Route)
    ensures GetRouteFromPath(base, BuildPath(base, r)) == RouteText(r)
  {
    var p := BuildPath(base, r);
    if base != "" {
      assert p != base;
      assert base + GetRouteFromPath(base, p) == base + RouteText(r);
      assert GetRouteFromPath(base, p) == (base + GetRouteFromPath(base, p))[|base|..];
    }
  }

  /** getCurrentRoute: with the deployed base path the route is the pathname itself. */
  function GetCurrentRoute(pathname: string): (r: string)
    ensures r == pathname
  {
    GetRouteFromPath(BasePath, pathname)
  }
}
