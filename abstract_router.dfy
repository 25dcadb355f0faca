/**
 * The `router` object of the newer router generation, whose implementation
 * (src/router/router.ts) is not part of this model. It is kept as abstract state:
 * what its getters answer, the route it holds as active, and one ordered trace of
 * everything the modelled code asks of the outside world: calls on the router,
 * events triggered, callbacks run and page loads requested.
 */
module AbstractRouter {
  import opened Wrappers

  /** A React component, known only by its identity. */
  type ComponentId = nat

  /** A middleware function, known only by its identity. */
  type MiddlewareFn = nat

  /** A dynamic `import()` promise, known only by its identity. */
  type LoaderId = nat

  /** A React element returned by a middleware, known only by its identity. */
  type ElementId = nat

  /** `NavigationMode`: only the two members the modelled code passes are told apart. */
  datatype NavigationMode = ChangeLocaleCodeMode | RefreshMode | OtherMode

  /** `RouteOptions`: a registered route as the router hands it out. */
  datatype RouteOptions = RouteOptions(
    path: string,
    key: Option<string>,
    middleware: Option<seq<MiddlewareFn>>,
    layout: Option<ComponentId>,
    component: ComponentId)

  /** `notFound.mode`: `"redirect"`, or anything else, which renders. */
  datatype NotFoundMode = Redirect | Render

  /** `router.notFound`: the mode, the redirect path and the component to render, each optional. */
  datatype NotFoundOptions = NotFoundOptions(mode: NotFoundMode, path: Option<string>, component: Option<ComponentId>)

  /**
   * What the router's getters answer. Nothing in the modelled code changes these;
   * the environment may change them between two steps.
   */
  datatype Getters = Getters(
    /** `router.hasLocaleCode`. */
    hasLocaleCode: bool,
    /** `router.getCurrentLocaleCode()`. */
    currentLocaleCode: string,
    /** `router.getCurrentApp()?.name`. */
    currentApp: Option<string>,
    /** `router.getApp(name)?.path`, for the names that have an app. */
    apps: map<string, string>,
    /** `router.getPreviousRoute()`. */
    previousRoute: string,
    /** `router.getCurrentRoute()`. */
    currentRoute: string,
    /** `router.getCurrentAppPath()`. */
    currentAppPath: string,
    /** `router.basePath`. */
    basePath: string,
    /** `router.isForceRefreshEnabled()`. */
    forceRefresh: bool,
    /** `router.navigationMode`. */
    navigationMode: NavigationMode,
    /** `router.notFound`. */
    notFound: NotFoundOptions,
    /** `router.getRouteByPath(path)`, for the paths that have a route. */
    routes: map<string, RouteOptions>,
    /** The loaders of `router.getLazyRouter(path)`, for the paths that have any. */
    lazyRoutes: map<string, seq<LoaderId>>,
    /** `router.lazyLoading?.renderOverPage`. */
    renderOverPage: bool,
    /** `router.lazyLoading?.loadingComponent`; none is the fragment. */
    loadingComponent: Option<ComponentId>)

  /** `router.getApp(name)?.path`: undefined for an undefined name or an unknown app. */
  function AppPath(g: Getters, name: Option<string>): (p: Option<string>)
    ensures p.Some? <==> name.Some? && name.value in g.apps
  {
    if name.Some? && name.value in g.apps then Some(g.apps[name.value]) else None
  }

  /** The events `triggerEvent` announces. */
  datatype Event =
    | LocaleCodeChanging(localeCode: string, currentLocaleCode: string)
    | LocaleChanged(localeCode: string, previousLocaleCode: string)
    | Rendered(path: string, mode: NavigationMode)

  /** What RouterWrapper shows: the loading view, with or without the page under it, or the page. */
  datatype View =
    | LoadingOnly(loading: Option<ComponentId>, loadingProp: bool)
    | LoadingOverPage(loading: Option<ComponentId>, loadingProp: bool, layout: Option<ComponentId>, content: Content)
    | PageView(hiddenPreloader: bool, layout: Option<ComponentId>, content: Content)

  /** RouterWrapper's `content` state. */
  datatype Content =
    | Blank
    | RoutePage(component: ComponentId, key: string)
    | MiddlewareOutput(element: ElementId)
    | NotFoundPage(notFoundComponent: Option<ComponentId>)

  /** One entry of the trace. */
  datatype Call =
    | GoTo(path: string, mode: Option<NavigationMode>)
    | RefreshActiveRouteKey
    | RefreshPage(refreshMode: NavigationMode)
    | CacheRouteContent(route: RouteOptions, view: View)
    | Triggered(event: Event)
    | OnLoad(loadedRoute: string)
    | SetHref(url: string)

  class Router {
    /** What the getters answer. */
    var getters: Getters
    /** `router.activeRoute`. */
    var activeRoute: Option<RouteOptions>
    /** Everything asked of the outside world, oldest first. */
    var trace: seq<Call>

    constructor (g: Getters)
      ensures getters == g && activeRoute == None && trace == []
    {
      getters := g;
      activeRoute := None;
      trace := [];
    }

    /** One call, event or page load, appended to the trace; the router's own reaction is not modelled. */
    method Record(c: Call)
      modifies this
      ensures trace == old(trace) + [c]
      ensures getters == old(getters) && activeRoute == old(activeRoute)
    {
      trace := trace + [c];
    }
  }
}
