/** The route table's access flags and the `beforeEach` guard that decides,
    from the target route's flags and the session's `isAuthenticated`, whether
    navigation goes ahead or is redirected. */
module Router {

  /** A route's `meta`; a flag the route does not declare reads as false. */
  datatype Meta = Meta(requiresAuth: bool, requiresGuest: bool)

  datatype Route = Route(path: string, name: string, meta: Meta)

  /** `next()` or `next(path)`. */
  datatype Decision = Proceed | Redirect(path: string)

  const LoginPath := "/login"
  const HomePath := "/"

  const Routes: seq<Route> := [
    Route("/login", "login", Meta(false, true)),
    Route("/register", "register", Meta(false, true)),
    Route("/", "contacts", Meta(true, false)),
    Route("/contacts/:id", "contact-detail", Meta(true, false)),
    Route("/contacts/:id/edit", "contact-edit", Meta(true, false)),
    Route("/contacts/new", "contact-new", Meta(true, false))
  ]

  /** The paths of routes only a signed-out visitor may see. */
  const GuestPaths: set<string> := {"/login", "/register"}

  /** The paths of routes only a signed-in user may see. */
  const ContactPaths: set<string> := {"/", "/contacts/:id", "/contacts/:id/edit", "/contacts/new"}

  /** Meta of the first route declared with `path` in `routes`; a path that no
      route declares gets no flags. */
  function MetaIn(routes: seq<Route>, path: string): Meta
  {
    if routes == [] then Meta(false, false)
    else if routes[0].path == path then routes[0].meta
    else MetaIn(routes[1..], path)
  }

  /** The flags of the first route declared with exactly `declaredPath`, or
      none when no route declares it. */
  function MetaOf(declaredPath: string): (m: Meta)
    ensures (forall k :: 0 <= k < |Routes| ==> Routes[k].path != declaredPath) ==> m == Meta(false, false)
    ensures forall k ::
      (0 <= k < |Routes| && Routes[k].path == declaredPath
       && (forall j :: 0 <= j < k ==> Routes[j].path != declaredPath)) ==> m == Routes[k].meta
  {
    MetaInFirst(Routes, declaredPath);
    MetaIn(Routes, declaredPath)
  }

  lemma {:induction false} MetaInFirst(routes: seq<Route>, path: string)
    ensures (forall k :: 0 <= k < |routes| ==> routes[k].path != path) ==> MetaIn(routes, path) == Meta(false, false)
    ensures forall k ::
      (0 <= k < |routes| && routes[k].path == path
       && (forall j :: 0 <= j < k ==> routes[j].path != path)) ==> MetaIn(routes, path) == routes[k].meta
  {
    if routes != [] {
      MetaInFirst(routes[1..], path);
      forall k | 0 < k < |routes| && routes[k].path == path
        && (forall j :: 0 <= j < k ==> routes[j].path != path)
        ensures MetaIn(routes, path) == routes[k].meta
      {
        assert routes[0].path != path;
        assert routes[1..][k - 1] == routes[k];
        forall j | 0 <= j < k - 1 ensures routes[1..][j].path != path {
          assert routes[1..][j] == routes[j + 1];
        }
      }
      if forall k :: 0 <= k < |routes| ==> routes[k].path != path {
        forall k | 0 <= k < |routes[1..]| ensures routes[1..][k].path != path {
          assert routes[1..][k] == routes[k + 1];
        }
      }
    }
  }

  /** The guard: an auth-only route is refused to a signed-out visitor
      (checked first), a guest-only route to a signed-in user. */
  function Guard(to: Meta, isAuthenticated: bool): (d: Decision)
    ensures d == Proceed <==>
      (to.requiresAuth ==> isAuthenticated) && (to.requiresGuest ==> !isAuthenticated)
    ensures to.requiresAuth && !isAuthenticated ==> d == Redirect(LoginPath)
    ensures !(to.requiresAuth && !isAuthenticated) && to.requiresGuest && isAuthenticated ==>
      d == Redirect(HomePath)
  {
    if to.requiresAuth && !isAuthenticated then Redirect(LoginPath)
    else if to.requiresGuest && isAuthenticated then Redirect(HomePath)
    else Proceed
  }

  /** No route is both auth-only and guest-only; the guest-only routes are
      `/login` and `/register`, the auth-only ones the four contact routes. */
  lemma RouteTableFlags()
    ensures forall r :: r in Routes ==> !(r.meta.requiresAuth && r.meta.requiresGuest)
    ensures forall r :: r in Routes ==> (r.meta.requiresGuest <==> r.path in GuestPaths)
    ensures forall r :: r in Routes ==> (r.meta.requiresAuth <==> r.path in ContactPaths)
    ensures forall p :: p in GuestPaths + ContactPaths ==> exists r :: r in Routes && r.path == p
  {
    assert Routes[0].path == "/login";
    assert Routes[1].path == "/register";
    assert Routes[2].path == "/";
    assert Routes[3].path == "/contacts/:id";
    assert Routes[4].path == "/contacts/:id/edit";
    assert Routes[5].path == "/contacts/new";
  }

  /** Looking a declared path up gives the flags the table declares for it. */
  lemma MetaOfTable()
    ensures forall p :: p in GuestPaths ==> MetaOf(p) == Meta(false, true)
    ensures forall p :: p in ContactPaths ==> MetaOf(p) == Meta(true, false)
  {
    assert MetaOf("/login") == Routes[0].meta;
    assert MetaOf("/register") == Routes[1].meta;
    assert MetaOf("/") == Routes[2].meta;
    assert MetaOf("/contacts/:id") == Routes[3].meta;
    assert MetaOf("/contacts/:id/edit") == Routes[4].meta;
    assert MetaOf("/contacts/new") == Routes[5].meta;
  }

  /** A signed-out visitor never gets through to a route matched as one of the
      contact routes, and a signed-in user never to the route matched as
      `/login` or `/register`; `declaredPath` is the matched route's declared
      path. */
  lemma GuardProtectsRoutes(declaredPath: string, isAuthenticated: bool)
    ensures declaredPath in ContactPaths && !isAuthenticated ==>
      Guard(MetaOf(declaredPath), isAuthenticated) == Redirect(LoginPath)
    ensures declaredPath in GuestPaths && isAuthenticated ==>
      Guard(MetaOf(declaredPath), isAuthenticated) == Redirect(HomePath)
  {
    MetaOfTable();
  }

  /** A redirect lands on a declared route that the same visitor is let
      through to, so the guard never redirects twice in a row. */
  lemma RedirectSettles(to: Meta, isAuthenticated: bool)
    requires Guard(to, isAuthenticated).Redirect?
    ensures var target := Guard(to, isAuthenticated).path;
      (exists r :: r in Routes && r.path == target)
      && Guard(MetaOf(target), isAuthenticated) == Proceed
  {
    MetaOfTable();
    RouteTableFlags();
  }
}
