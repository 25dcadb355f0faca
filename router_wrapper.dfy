/**
 * The controller logic of src/components/RouterWrapper.tsx: which page the
 * wrapper shows for a route, when a route's render key is renewed, how its
 * middleware can stop the page, lazy loading of unknown routes, the not-found
 * page, and when the shown content is handed to the router's cache.
 */
module RouterWrapper {
  import opened Wrappers
  import opened Foreign
  import opened AbstractRouter
  import Lists
  import Utilities

  /** What a middleware returns: the `NAVIGATING` marker, a falsy value, or an element to show instead of the page. */
  datatype MiddlewareResult = Navigating | Falsy | Element(element: ElementId)

  /** The first middleware, in order, that stops the page: the position of the first non-falsy result. */
  function FirstStop(ms: seq<MiddlewareFn>, run: MiddlewareFn -> MiddlewareResult): (r: Option<nat>)
    ensures r.Some? ==> r.value < |ms| && !run(ms[r.value]).Falsy?
    ensures r.Some? ==> forall j :: 0 <= j < r.value ==> run(ms[j]).Falsy?
    ensures r.None? <==> forall j :: 0 <= j < |ms| ==> run(ms[j]).Falsy?
  {
    Lists.FirstIndex(ms, (m: MiddlewareFn) => !run(m).Falsy?)
  }

  /**
   * The key `updatePage` gives the route: a fresh token when the route is the
   * active one (same path) and force-refresh is on, otherwise `route.key || ""`.
   */
  function RenderKey(route: RouteOptions, active: Option<RouteOptions>, forceRefresh: bool, token: string): (key: string)
    ensures active.Some? && active.value.path == route.path && forceRefresh ==> key == token
    ensures !(active.Some? && active.value.path == route.path) ==> key == route.key.GetOr("")
    ensures !forceRefresh ==> key == route.key.GetOr("")
  {
    if active.Some? && route.path == active.value.path && forceRefresh then token else route.key.GetOr("")
  }

  /** The part of the state `updatePage` decides: the layout, the content, the active route and the pending `rendered` events. */
  datatype Page = Page(layout: Option<ComponentId>, content: Content, activeRoute: Option<RouteOptions>, scheduled: seq<string>)

  /**
   * `updatePage(route)`: the middleware run in order; a `NAVIGATING` result stops
   * with nothing changed, an element stops with that element as the content;
   * when none stops, the route (with its key) becomes the active one, its page
   * is shown under its layout, and a `rendered` event is scheduled for its path.
   */
  function UpdatePageSpec(p: Page, route: RouteOptions, forceRefresh: bool, token: string,
                          run: MiddlewareFn -> MiddlewareResult): Page
  {
    var key := RenderKey(route, p.activeRoute, forceRefresh, token);
    var ms := route.middleware.GetOr([]);
    match FirstStop(ms, run)
    case Some(i) => if run(ms[i]).Element? then p.(content := MiddlewareOutput(run(ms[i]).element)) else p
    case None => Page(route.layout, RoutePage(route.component, key), Some(route.(key := Some(key))), p.scheduled + [route.path])
  }

  /**
   * The active route changes only when no middleware stops the page, and a
   * `rendered` event is scheduled exactly then; a stopped page keeps its layout,
   * and a `NAVIGATING` stop leaves the whole page as it was.
   */
  lemma UpdatePageActivation(p: Page, route: RouteOptions, forceRefresh: bool, token: string,
                             run: MiddlewareFn -> MiddlewareResult)
    ensures var q := UpdatePageSpec(p, route, forceRefresh, token, run);
            var stop := FirstStop(route.middleware.GetOr([]), run);
      && (stop.None? <==> |q.scheduled| == |p.scheduled| + 1)
      && (stop.None? ==> q.activeRoute == Some(route.(key := Some(RenderKey(route, p.activeRoute, forceRefresh, token))))
                         && q.scheduled[|p.scheduled|] == route.path)
      && (stop.Some? ==> q.activeRoute == p.activeRoute && q.layout == p.layout && q.scheduled == p.scheduled)
      && (stop.Some? && run(route.middleware.value[stop.value]).Navigating? ==> q == p)
  {
  }

  /** A route shown twice in a row under force-refresh gets the fresh token, so its component is mounted anew. */
  lemma SameRouteRefreshed(p: Page, route: RouteOptions, token: string, run: MiddlewareFn -> MiddlewareResult)
    requires p.activeRoute.Some? && p.activeRoute.value.path == route.path
    requires FirstStop(route.middleware.GetOr([]), run).None?
    ensures UpdatePageSpec(p, route, true, token, run).content == RoutePage(route.component, token)
    ensures UpdatePageSpec(p, route, true, token, run).activeRoute.value.key == Some(token)
  {
  }

  /** A route other than the active one keeps its own key, whatever the force-refresh setting. */
  lemma OtherRouteKeepsKey(p: Page, route: RouteOptions, forceRefresh: bool, token: string, run: MiddlewareFn -> MiddlewareResult)
    requires p.activeRoute.None? || p.activeRoute.value.path != route.path
    requires FirstStop(route.middleware.GetOr([]), run).None?
    ensures UpdatePageSpec(p, route, forceRefresh, token, run).content == RoutePage(route.component, route.key.GetOr(""))
  {
  }

  /** What the wrapper renders: the loading view while loading (over the page when so configured), otherwise the page. */
  function FullContent(isLoading: bool, renderOverPage: bool, loading: Option<ComponentId>,
                       layout: Option<ComponentId>, content: Content): (v: View)
    ensures v.PageView? <==> !isLoading
    ensures v.LoadingOverPage? <==> isLoading && renderOverPage
    ensures v.PageView? ==> v.layout == layout && v.content == content
  {
    if isLoading then
      if renderOverPage then LoadingOverPage(loading, loading.Some?, layout, content)
      else LoadingOnly(loading, loading.Some?)
    else PageView(renderOverPage, layout, content)
  }

  /** The path the not-found redirect goes to: the configured one when truthy, `/404` otherwise. */
  function NotFoundPath(options: NotFoundOptions): (path: string)
    ensures options.path.Some? && options.path.value != "" ==> path == options.path.value
    ensures options.path.None? || options.path.value == "" ==> path == "/404"
  {
    if options.path.Some? && options.path.value != "" then options.path.value else "/404"
  }

  class Wrapper {
    /** The `Layout` state; none is the fragment. */
    var layout: Option<ComponentId>
    /** The `content` state. */
    var content: Content
    /** The `isLoading` state. */
    var isLoading: bool
    /** The routes whose lazy loaders are still running, in the order they started. */
    var pending: seq<string>
    /** The paths of the `rendered` events scheduled with `setTimeout` and not yet fired. */
    var scheduled: seq<string>

    constructor ()
      ensures layout == None && content == Blank && !isLoading && pending == [] && scheduled == []
    {
      layout := None;
      content := Blank;
      isLoading := false;
      pending := [];
      scheduled := [];
    }

    /** The page part of the state, with the router's active route. */
    function PageOf(router: Router): Page
      reads this, router
    {
      Page(layout, content, router.activeRoute, scheduled)
    }

    /** `updatePage(route)`, with `token` standing for the random key and `run` for the middleware results. */
    method UpdatePage(router: Router, route: RouteOptions, token: string, run: MiddlewareFn -> MiddlewareResult)
      modifies this, router
      ensures PageOf(router) == UpdatePageSpec(old(PageOf(router)), route, router.getters.forceRefresh, token, run)
      ensures router.trace == old(router.trace) && router.getters == old(router.getters)
      ensures isLoading == old(isLoading) && pending == old(pending)
    {
      var key := route.key.GetOr("");
      if router.activeRoute.Some? && route.path == router.activeRoute.value.path && router.getters.forceRefresh {
        key := token;
      }
      var keyed := route.(key := Some(key));
      if route.middleware.Some? {
        var ms := route.middleware.value;
        var i := 0;
        while i < |ms|
          invariant 0 <= i <= |ms|
          invariant forall j :: 0 <= j < i ==> run(ms[j]).Falsy?
        {
          var output := run(ms[i]);
          if output.Navigating? {
            return;
          }
          if output.Element? {
            content := MiddlewareOutput(output.element);
            return;
          }
          i := i + 1;
        }
      }
      layout := route.layout;
      router.activeRoute := Some(keyed);
      content := RoutePage(route.component, key);
      scheduled := scheduled + [route.path];
    }

    /** The oldest scheduled `rendered` event fires, with the navigation mode the router has at that moment. */
    method FireRendered(router: Router)
      requires scheduled != []
      modifies this, router
      ensures router.trace == old(router.trace) + [Triggered(Rendered(old(scheduled[0]), router.getters.navigationMode))]
      ensures scheduled == old(scheduled[1..])
      ensures layout == old(layout) && content == old(content) && isLoading == old(isLoading) && pending == old(pending)
      ensures router.activeRoute == old(router.activeRoute) && router.getters == old(router.getters)
    {
      router.Record(Triggered(Rendered(scheduled[0], router.getters.navigationMode)));
      scheduled := scheduled[1..];
    }

    /** `notFound()`: redirect through `navigateTo`, or show the configured not-found component. */
    method NotFound(host: Host, router: Router)
      modifies this, router
      ensures router.getters.notFound.mode == Redirect ==>
                router.trace == old(router.trace)
                  + [GoTo(Utilities.NavigateTarget(host, router.getters, NotFoundPath(router.getters.notFound), None, None), None)]
                && content == old(content)
      ensures router.getters.notFound.mode == Render ==>
                router.trace == old(router.trace) && content == NotFoundPage(router.getters.notFound.component)
      ensures layout == old(layout) && isLoading == old(isLoading) && pending == old(pending) && scheduled == old(scheduled)
      ensures router.activeRoute == old(router.activeRoute) && router.getters == old(router.getters)
    {
      if router.getters.notFound.mode == Redirect {
        var path := router.getters.notFound.path;
        Utilities.NavigateTo(host, router, if path.Some? && path.value != "" then path.value else "/404", None, None);
      } else {
        content := NotFoundPage(router.getters.notFound.component);
      }
    }

    /** `lazyLoading(route)`: with loaders, loading starts and the route waits for them; without, not found. */
    method LazyLoading(host: Host, router: Router, route: string)
      modifies this, router
      ensures route in router.getters.lazyRoutes ==>
                isLoading && pending == old(pending) + [route]
                && content == old(content) && router.trace == old(router.trace)
      ensures route !in router.getters.lazyRoutes ==>
                isLoading == old(isLoading) && pending == old(pending)
                && (router.getters.notFound.mode == Render ==>
                      content == NotFoundPage(router.getters.notFound.component) && router.trace == old(router.trace))
                && (router.getters.notFound.mode == Redirect ==>
                      content == old(content)
                      && router.trace == old(router.trace) + [GoTo(Utilities.NavigateTarget(host, router.getters,
                                                                  NotFoundPath(router.getters.notFound), None, None), None)])
      ensures layout == old(layout) && scheduled == old(scheduled)
      ensures router.activeRoute == old(router.activeRoute) && router.getters == old(router.getters)
    {
      if route in router.getters.lazyRoutes {
        isLoading := true;
        pending := pending + [route];
      } else {
        NotFound(host, router);
      }
    }

    /**
     * The loaders of the `i`-th pending route have all fulfilled: loading is
     * cleared, the route's `onLoad` runs, and the route is looked up again.
     */
    method FinishLoading(host: Host, router: Router, i: nat, token: string, run: MiddlewareFn -> MiddlewareResult)
      requires i < |pending|
      modifies this, router
      ensures !isLoading && pending == old(pending[..i] + pending[i + 1..])
      ensures |router.trace| >= |old(router.trace)| + 1
      ensures router.trace[..|old(router.trace)| + 1] == old(router.trace) + [OnLoad(old(pending[i]))]
      ensures old(pending[i]) in router.getters.routes ==>
                PageOf(router) == UpdatePageSpec(old(PageOf(router)), router.getters.routes[old(pending[i])],
                                                 router.getters.forceRefresh, token, run)
                && router.trace == old(router.trace) + [OnLoad(old(pending[i]))]
      ensures old(pending[i]) !in router.getters.routes ==>
                router.activeRoute == old(router.activeRoute) && scheduled == old(scheduled) && layout == old(layout)
                && (router.getters.notFound.mode == Render ==>
                      content == NotFoundPage(router.getters.notFound.component)
                      && router.trace == old(router.trace) + [OnLoad(old(pending[i]))])
                && (router.getters.notFound.mode == Redirect ==>
                      content == old(content)
                      && router.trace == old(router.trace) + [OnLoad(old(pending[i])),
                           GoTo(Utilities.NavigateTarget(host, router.getters, NotFoundPath(router.getters.notFound), None, None), None)])
      ensures router.getters == old(router.getters)
    {
      var route := pending[i];
      pending := pending[..i] + pending[i + 1..];
      isLoading := false;
      router.Record(OnLoad(route));
      if route in router.getters.routes {
        UpdatePage(router, router.getters.routes[route], token, run);
      } else {
        NotFound(host, router);
      }
    }

    /**
     * The `rendering` event handler: a known route is shown; otherwise lazy
     * loading starts, for the router's current route rather than the given path.
     * The first mount does the same with the current route as the path.
     */
    method OnRendering(host: Host, router: Router, path: string, token: string, run: MiddlewareFn -> MiddlewareResult)
      modifies this, router
      ensures path in router.getters.routes ==>
                PageOf(router) == UpdatePageSpec(old(PageOf(router)), router.getters.routes[path],
                                                 router.getters.forceRefresh, token, run)
                && router.trace == old(router.trace) && isLoading == old(isLoading) && pending == old(pending)
      ensures path !in router.getters.routes && router.getters.currentRoute in router.getters.lazyRoutes ==>
                isLoading && pending == old(pending) + [router.getters.currentRoute]
                && PageOf(router) == old(PageOf(router)) && router.trace == old(router.trace)
      ensures path !in router.getters.routes && router.getters.currentRoute !in router.getters.lazyRoutes ==>
                isLoading == old(isLoading) && pending == old(pending) && layout == old(layout)
                && (router.getters.notFound.mode == Render ==>
                      content == NotFoundPage(router.getters.notFound.component) && router.trace == old(router.trace))
                && (router.getters.notFound.mode == Redirect ==>
                      content == old(content)
                      && router.trace == old(router.trace) + [GoTo(Utilities.NavigateTarget(host, router.getters,
                                                                  NotFoundPath(router.getters.notFound), None, None), None)])
      ensures path !in router.getters.routes ==> router.activeRoute == old(router.activeRoute) && scheduled == old(scheduled)
      ensures router.getters == old(router.getters)
    {
      if path in router.getters.routes {
        UpdatePage(router, router.getters.routes[path], token, run);
      } else {
        LazyLoading(host, router, router.getters.currentRoute);
      }
    }

    /** The memoised full content: computed from the state, and cached by the router only when a route is active and nothing is loading. */
    method Settle(router: Router) returns (view: View)
      modifies router
      ensures view == FullContent(isLoading, router.getters.renderOverPage, router.getters.loadingComponent, layout, content)
      ensures router.activeRoute.Some? && !isLoading ==>
                router.trace == old(router.trace) + [CacheRouteContent(router.activeRoute.value, view)]
      ensures !(router.activeRoute.Some? && !isLoading) ==> router.trace == old(router.trace)
      ensures router.activeRoute == old(router.activeRoute) && router.getters == old(router.getters)
    {
      view := FullContent(isLoading, router.getters.renderOverPage, router.getters.loadingComponent, layout, content);
      if router.activeRoute.Some? && !isLoading {
        router.Record(CacheRouteContent(router.activeRoute.value, view));
      }
    }
  }

  /** Whatever the trace caches is a page view with the page's own layout and content, never a loading view. */
  lemma CachedViewIsPage(renderOverPage: bool, loading: Option<ComponentId>, layout: Option<ComponentId>, content: Content)
    ensures var v := FullContent(false, renderOverPage, loading, layout, content);
            v.PageView? && v.layout == layout && v.content == content
  {
  }
}
