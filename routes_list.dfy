/**
 * The route and layout registry of src/routes-list.tsx: an append-only list of
 * layouts, each holding its routes, whose paths are prefixed with an optional
 * locale group and the current app's base path when they are registered.
 */
module RoutesList {
  import opened Wrappers
  import opened Foreign
  import opened Text
  import Lists
  import AppsList

  /** A React component, known only by its identity. */
  type ComponentId = nat

  /** `FULL_PAGE`: the fragment layout used when none is named. */
  const FULL_PAGE: ComponentId := 0

  /** A middleware component or function, known only by its identity. */
  type MiddlewareFn = nat

  /** A route's `middleware`: a single middleware, or an array of them. */
  datatype MiddlewareRef = Single(f: MiddlewareFn) | Many(list: seq<MiddlewareFn>)

  /** `Route`: its path, component and middleware, and the layout `routesList()` tags it with. */
  datatype Route = Route(path: string, component: ComponentId, middleware: Option<MiddlewareRef>, layout: Option<ComponentId>)

  /** `Layout`: its component, its routes and the list of their paths. */
  datatype Layout = Layout(component: ComponentId, routes: seq<Route>, routesList: seq<string>)

  /** `GroupOptions`: routes, a path prefix, a middleware and a layout, each optional. */
  datatype GroupOptions = GroupOptions(routes: Option<seq<Route>>, path: Option<string>,
                                       middleware: Option<MiddlewareRef>, layout: Option<ComponentId>)

  /** `` gluedLocaleCodes ? `/:localeCode(${gluedLocaleCodes})?` : "" `` with the codes joined by `|`. */
  function LocaleGroup(codes: seq<string>): (g: string)
    ensures Join(codes, "|") == "" ==> g == ""
    ensures Join(codes, "|") != "" ==> g == "/:localeCode(" + Join(codes, "|") + ")?"
  {
    var glued := Join(codes, "|");
    if glued != "" then "/:localeCode(" + glued + ")?" else ""
  }

  /** The routes with their paths rewritten to `concatRoute(localeGroup, basePath, path)`. */
  function Localized(host: Host, group: string, base: string, routes: seq<Route>): (rs: seq<Route>)
    ensures |rs| == |routes|
    ensures forall i :: 0 <= i < |routes| ==> rs[i] == routes[i].(path := Concat(host, [group, base, routes[i].path]))
  {
    seq(|routes|, i requires 0 <= i < |routes| => routes[i].(path := Concat(host, [group, base, routes[i].path])))
  }

  /** The paths of the routes, in order. */
  function Paths(routes: seq<Route>): (ps: seq<string>)
    ensures |ps| == |routes|
    ensures forall i :: 0 <= i < |routes| ==> ps[i] == routes[i].path
  {
    seq(|routes|, i requires 0 <= i < |routes| => routes[i].path)
  }

  /** The layout after its routes gain `rs`. */
  function AddToLayout(l: Layout, rs: seq<Route>): Layout {
    l.(routes := l.routes + rs, routesList := l.routesList + Paths(rs))
  }

  /** What `partOf` does to the layouts: the layout of `component` (new at the end if absent) gains `rs`. */
  function PartOfLayouts(ls: seq<Layout>, component: ComponentId, rs: seq<Route>): seq<Layout> {
    match Lists.FirstIndex(ls, (l: Layout) => l.component == component)
    case None => ls + [AddToLayout(Layout(component, [], []), rs)]
    case Some(i) => ls[i := AddToLayout(ls[i], rs)]
  }

  /** `group`'s rewrite: the group middleware replaces each route's own, the group path prefixes each path. */
  function GroupRoutes(host: Host, routes: seq<Route>, path: Option<string>, middleware: Option<MiddlewareRef>): (rs: seq<Route>)
    ensures |rs| == |routes|
    ensures forall i :: 0 <= i < |routes| ==>
              && rs[i].component == routes[i].component && rs[i].layout == routes[i].layout
              && rs[i].middleware == (if middleware.Some? then middleware else routes[i].middleware)
              && rs[i].path == (if path.Some? && path.value != "" then Concat(host, [path.value, routes[i].path]) else routes[i].path)
  {
    seq(|routes|, i requires 0 <= i < |routes| =>
      var r := if middleware.Some? then routes[i].(middleware := middleware) else routes[i];
      if path.Some? && path.value != "" then r.(path := Concat(host, [path.value, r.path])) else r)
  }

  /** A route tagged with the layout it belongs to. */
  function Tag(l: Layout): (t: Layout)
    ensures t.component == l.component && t.routesList == l.routesList && |t.routes| == |l.routes|
    ensures forall j :: 0 <= j < |l.routes| ==> t.routes[j] == l.routes[j].(layout := Some(l.component))
  {
    l.(routes := seq(|l.routes|, j requires 0 <= j < |l.routes| => l.routes[j].(layout := Some(l.component))))
  }

  /** Every layout tagged, in order: the layouts after `routesList()` has run. */
  function TagAll(ls: seq<Layout>): (r: seq<Layout>)
    ensures |r| == |ls|
    ensures forall i :: 0 <= i < |ls| ==> r[i] == Tag(ls[i])
  {
    seq(|ls|, i requires 0 <= i < |ls| => Tag(ls[i]))
  }

  /** `routesList()`'s result: every layout's tagged routes, layout by layout. */
  function AllRoutes(ls: seq<Layout>): seq<Route> {
    if ls == [] then [] else AllRoutes(ls[..|ls| - 1]) + Tag(ls[|ls| - 1]).routes
  }

  /** The number of routes over all layouts. */
  function RouteCount(ls: seq<Layout>): nat {
    if ls == [] then 0 else RouteCount(ls[..|ls| - 1]) + |ls[|ls| - 1].routes|
  }

  // ---------------------------------------------------------------- registry invariants

  /** No two layouts share a component, and each layout's path list is the paths of its routes. */
  ghost predicate WellFormed(ls: seq<Layout>) {
    && (forall i, j :: 0 <= i < j < |ls| ==> ls[i].component != ls[j].component)
    && (forall i :: 0 <= i < |ls| ==> ls[i].routesList == Paths(ls[i].routes))
  }

  /** `partOf` adds at most one layout, and one exactly when the component had none. */
  lemma PartOfGrowth(ls: seq<Layout>, component: ComponentId, rs: seq<Route>)
    ensures (exists i :: 0 <= i < |ls| && ls[i].component == component) ==> |PartOfLayouts(ls, component, rs)| == |ls|
    ensures (forall i :: 0 <= i < |ls| ==> ls[i].component != component) ==> |PartOfLayouts(ls, component, rs)| == |ls| + 1
  {
  }

  /**
   * `partOf` leaves every other layout as it was, and the layout of `component`
   * gains exactly `rs` after its old routes, and their paths after its old paths.
   */
  lemma PartOfAppends(ls: seq<Layout>, component: ComponentId, rs: seq<Route>, k: nat)
    requires WellFormed(ls)
    requires k < |PartOfLayouts(ls, component, rs)|
    ensures var ls' := PartOfLayouts(ls, component, rs);
            && (k < |ls| && ls[k].component != component ==> ls'[k] == ls[k])
            && (k < |ls| && ls[k].component == component ==> ls'[k] == AddToLayout(ls[k], rs))
            && (k == |ls| ==> ls'[k] == Layout(component, rs, Paths(rs)))
  {
    match Lists.FirstIndex(ls, (l: Layout) => l.component == component)
    case None =>
      assert [] + rs == rs && [] + Paths(rs) == Paths(rs);
    case Some(i) =>
      if k < |ls| && ls[k].component == component { assert k == i; }
  }

  /** `partOf` keeps the registry well formed. */
  lemma PartOfWellFormed(ls: seq<Layout>, component: ComponentId, rs: seq<Route>)
    requires WellFormed(ls)
    ensures WellFormed(PartOfLayouts(ls, component, rs))
  {
    var ls' := PartOfLayouts(ls, component, rs);
    forall k | 0 <= k < |ls'| ensures ls'[k].routesList == Paths(ls'[k].routes) {
      PartOfAppends(ls, component, rs, k);
      if k < |ls| && ls[k].component == component {
        assert Paths(ls[k].routes + rs) == Paths(ls[k].routes) + Paths(rs);
      } else if k == |ls| {
        assert Paths(rs) == Paths(rs);
      }
    }
    forall i, j | 0 <= i < j < |ls'| ensures ls'[i].component != ls'[j].component {
      PartOfAppends(ls, component, rs, i);
      PartOfAppends(ls, component, rs, j);
    }
  }

  /** The routes of `routesList()` number the sum of the layouts' route counts. */
  lemma {:induction false} AllRoutesCount(ls: seq<Layout>)
    ensures |AllRoutes(ls)| == RouteCount(ls)
  {
    if ls != [] { AllRoutesCount(ls[..|ls| - 1]); }
  }

  /** `routesList()` lists layout `i`'s routes, in order and tagged with its component, after those of the earlier layouts. */
  lemma {:induction false} AllRoutesAt(ls: seq<Layout>, i: nat, j: nat)
    requires i < |ls| && j < |ls[i].routes|
    ensures RouteCount(ls[..i]) + j < |AllRoutes(ls)|
    ensures AllRoutes(ls)[RouteCount(ls[..i]) + j] == ls[i].routes[j].(layout := Some(ls[i].component))
  {
    var front := ls[..|ls| - 1];
    AllRoutesCount(front);
    if i == |ls| - 1 {
      assert ls[..i] == front;
    } else {
      assert front[..i] == ls[..i];
      AllRoutesAt(front, i, j);
    }
  }

  // ---------------------------------------------------------------- the registry state

  class Registry {
    /** `layoutsList`. */
    var layoutsList: seq<Layout>

    constructor ()
      ensures layoutsList == [] && Valid()
    {
      layoutsList := [];
    }

    /** The registry invariant: one layout per component, each listing its routes' paths. */
    ghost predicate Valid()
      reads this
    {
      WellFormed(layoutsList)
    }

    /**
     * `partOf(LayoutComponent, routes)`: finds or appends the layout of the
     * component, localises each route path and appends the routes to it.
     */
    method PartOf(host: Host, codes: seq<string>, apps: AppsList.Registry, component: ComponentId, routes: seq<Route>)
      requires Valid()
      modifies this
      ensures Valid()
      ensures layoutsList == PartOfLayouts(old(layoutsList), component, Localized(host, LocaleGroup(codes), apps.currentBaseAppPath, routes))
    {
      var found := Lists.FirstIndex(layoutsList, (l: Layout) => l.component == component);
      var index: nat;
      if found.None? {
        layoutsList := layoutsList + [Layout(component, [], [])];
        index := |layoutsList| - 1;
      } else {
        index := found.value;
      }
      var gluedLocaleCodes := Join(codes, "|");
      var currentAppBasePath := apps.GetCurrentBseAppPath();
      var group := if gluedLocaleCodes != "" then "/:localeCode(" + gluedLocaleCodes + ")?" else "";
      var layout := layoutsList[index];
      ghost var target := Localized(host, group, currentAppBasePath, routes);
      var localized: seq<Route> := [];
      var i := 0;
      while i < |routes|
        invariant 0 <= i <= |routes|
        invariant localized == target[..i]
        invariant layout == layoutsList[index].(routesList := layoutsList[index].routesList + Paths(localized))
      {
        var route := routes[i].(path := Concat(host, [group, currentAppBasePath, routes[i].path]));
        assert Paths(localized + [route]) == Paths(localized) + [route.path];
        layout := layout.(routesList := layout.routesList + [route.path]);
        localized := localized + [route];
        i := i + 1;
      }
      assert localized == target;
      layout := layout.(routes := layout.routes + localized);
      layoutsList := layoutsList[index := layout];
      PartOfWellFormed(old(layoutsList), component, target);
    }

    /** `addRouter(path, component, middleware)`: one route under `FULL_PAGE`. */
    method AddRouter(host: Host, codes: seq<string>, apps: AppsList.Registry,
                     path: string, component: ComponentId, middleware: Option<MiddlewareRef>)
      requires Valid()
      modifies this
      ensures Valid()
      ensures layoutsList == PartOfLayouts(old(layoutsList), FULL_PAGE,
                [Route(Concat(host, [LocaleGroup(codes), apps.currentBaseAppPath, path]), component, middleware, None)])
    {
      var routes := [Route(path, component, middleware, None)];
      PartOf(host, codes, apps, FULL_PAGE, routes);
      assert Localized(host, LocaleGroup(codes), apps.currentBaseAppPath, routes)
        == [Route(Concat(host, [LocaleGroup(codes), apps.currentBaseAppPath, path]), component, middleware, None)];
    }

    /** `group(options)`: the routes rewritten by the group's middleware and path, then `partOf` the group's layout. */
    method Group(host: Host, codes: seq<string>, apps: AppsList.Registry, options: GroupOptions)
      requires Valid()
      modifies this
      ensures Valid()
      ensures layoutsList == PartOfLayouts(old(layoutsList), options.layout.GetOr(FULL_PAGE),
                Localized(host, LocaleGroup(codes), apps.currentBaseAppPath,
                          GroupRoutes(host, options.routes.GetOr([]), options.path, options.middleware)))
    {
      var routes := GroupRoutes(host, options.routes.GetOr([]), options.path, options.middleware);
      PartOf(host, codes, apps, options.layout.GetOr(FULL_PAGE), routes);
    }

    /** `routesList()`: all routes, layout by layout, each tagged (in place) with its layout's component. */
    method RoutesList() returns (all: seq<Route>)
      modifies this
      ensures all == AllRoutes(old(layoutsList))
      ensures |layoutsList| == |old(layoutsList)|
      ensures forall i :: 0 <= i < |layoutsList| ==> layoutsList[i] == Tag(old(layoutsList)[i])
      ensures layoutsList == TagAll(old(layoutsList))
      ensures old(Valid()) ==> Valid()
    {
      ghost var ls := layoutsList;
      all := [];
      var i := 0;
      while i < |layoutsList|
        invariant 0 <= i <= |layoutsList| && |layoutsList| == |ls|
        invariant all == AllRoutes(ls[..i])
        invariant forall k :: 0 <= k < i ==> layoutsList[k] == Tag(ls[k])
        invariant forall k :: i <= k < |ls| ==> layoutsList[k] == ls[k]
      {
        assert ls[..i + 1][..i] == ls[..i];
        var tagged := Tag(layoutsList[i]);
        all := all + tagged.routes;
        layoutsList := layoutsList[i := tagged];
        i := i + 1;
      }
      assert ls[..i] == ls;
      forall k | 0 <= k < |layoutsList| ensures Paths(layoutsList[k].routes) == Paths(ls[k].routes) {
        assert layoutsList[k] == Tag(ls[k]);
      }
    }
  }
}
