/**
 * The controller logic of src/components/Renderer/index.tsx: for each location,
 * which module of which app must be loaded first, when the dynamic-route module
 * is loaded, when the not-found page is shown, when the preloader is shown, and
 * how the layouts' routes and middleware are rendered. The loaded app and module
 * lists only grow and never hold an entry twice.
 */
module Renderer {
  import opened Wrappers
  import opened Foreign
  import opened AppsList
  import RoutesList
  import Lists
  import RendererHelpers
  import Navigator
  import DetectLocaleChange

  /** No element occurs twice. */
  predicate NoDuplicates<T(==)>(s: seq<T>) {
    forall i, j :: 0 <= i < j < |s| ==> s[i] != s[j]
  }

  /** `if (!list.includes(x)) list.push(x)`. */
  function AddIfAbsent<T(==)>(s: seq<T>, x: T): (r: seq<T>)
    ensures x in r && s <= r
    ensures x in s ==> r == s
    ensures x !in s ==> r == s + [x]
    ensures NoDuplicates(s) ==> NoDuplicates(r)
  {
    if x in s then s else s + [x]
  }

  /** The loaders a module's entry starts, in order: the app provider first, then the module provider, each when present. */
  function LoaderList(info: ModuleInfo): (ls: seq<Loader>)
    ensures |ls| == (if info.loadApp.Some? then 1 else 0) + (if info.loadModule.Some? then 1 else 0)
    ensures info.loadApp.Some? ==> ls[0] == info.loadApp.value
    ensures info.loadModule.Some? ==> ls[|ls| - 1] == info.loadModule.value
  {
    (if info.loadApp.Some? then [info.loadApp.value] else []) + (if info.loadModule.Some? then [info.loadModule.value] else [])
  }

  /** A load that has been started and has not yet completed. */
  datatype Completion =
    /** The loaders of a module found by its entry route, and the loaded entries as they were when it started. */
    | ModuleLoad(info: ModuleInfo, loaders: seq<Loader>, snapshot: seq<string>)
    /** The two loader slots of the dynamic-route module (either may be `undefined`), and the loaded entries when it started. */
    | DynamicLoad(info: ModuleInfo, slots: seq<Option<Loader>>, snapshot: seq<string>)

  /** The loads a step starts, as a list: none, or the one it starts. */
  function Started(c: Option<Completion>): (cs: seq<Completion>)
    ensures (c.None? <==> cs == []) && (c.Some? ==> cs == [c.value])
  {
    if c.Some? then [c.value] else []
  }

  /** The router settings the renderer reads, with their defaults applied. */
  datatype Config = Config(
    /** `notFound.mode` (default `"render"`). */
    notFoundMode: string,
    /** `notFound.route` (default `/404`). */
    notFoundRoute: string,
    /** `notFound.component`; none is the fragment. */
    notFoundComponent: Option<RoutesList.ComponentId>,
    /** `preloadOverlay` (default true). */
    preloadOverlay: bool,
    /** `preloader`; none is the fragment. */
    preloader: Option<RoutesList.ComponentId>,
    /** `forceRefresh` (default true). */
    forceRefresh: bool)

  /** What one render of the renderer returns. */
  datatype Output =
    | Nothing
    | NotFoundView(component: Option<RoutesList.ComponentId>)
    | PreloaderOnly(preloader: Option<RoutesList.ComponentId>)
    /** The layouts' routes, with the preloader above them and the container positioned when preloading. */
    | Layouts(preloading: bool, preload: Option<Option<RoutesList.ComponentId>>, layouts: seq<RoutesList.Layout>)

  /** Some registered route path matches the segment, read as a regular expression. */
  predicate AnyRouteMatches(host: Host, routes: seq<RoutesList.Route>, segment: string) {
    exists i :: 0 <= i < |routes| && host.regexMatches(routes[i].path, segment)
  }

  /** The module key of a location: the current base app path joined in front of the parsed route segment. */
  function SegmentKey(host: Host, codes: seq<string>, appsList: seq<string>, basePath: string, pathname: string): string {
    Concat(host, [basePath, host.concatRoute([RendererHelpers.Classify(codes, appsList, pathname).segment])])
  }

  /** A route's middleware as a list: a single one is wrapped into a one-element array. */
  function MiddlewareList(m: RoutesList.MiddlewareRef): (ms: seq<RoutesList.MiddlewareFn>)
    ensures m.Single? ==> ms == [m.f]
    ensures m.Many? ==> ms == m.list
  {
    match m
    case Single(f) => [f]
    case Many(list) => list
  }

  /** What a layout's `render` returns: the first truthy middleware output, or the layout around its routes. */
  datatype LayoutOutput = MiddlewareElement(element: nat) | LayoutElement(component: RoutesList.ComponentId, routes: seq<RoutesList.Route>)

  /** `routes.find(route => route.path === matchPath)`: the first route with that path. */
  function FindRoute(routes: seq<RoutesList.Route>, matchPath: string): (r: Option<RoutesList.Route>)
    ensures r.None? <==> forall j :: 0 <= j < |routes| ==> routes[j].path != matchPath
    ensures r.Some? ==> exists i :: 0 <= i < |routes| && r.value == routes[i] && routes[i].path == matchPath
                          && forall j :: 0 <= j < i ==> routes[j].path != matchPath
  {
    match Lists.FirstIndex(routes, (r: RoutesList.Route) => r.path == matchPath)
    case None => None
    case Some(i) => Some(routes[i])
  }

  /** The position of the first middleware with a truthy output. */
  function FirstTruthy(ms: seq<RoutesList.MiddlewareFn>, run: RoutesList.MiddlewareFn -> Option<nat>): (r: Option<nat>)
    ensures r.Some? ==> r.value < |ms| && run(ms[r.value]).Some?
    ensures r.Some? ==> forall j :: 0 <= j < r.value ==> run(ms[j]).None?
    ensures r.None? <==> forall j :: 0 <= j < |ms| ==> run(ms[j]).None?
  {
    Lists.FirstIndex(ms, (m: RoutesList.MiddlewareFn) => run(m).Some?)
  }

  /**
   * The output of a layout's `render` for the matched path: the route whose path
   * is the matched one is found, and its middleware are run in order; the first
   * truthy output replaces the layout.
   */
  function LayoutSpec(layout: RoutesList.Layout, matchPath: string, run: RoutesList.MiddlewareFn -> Option<nat>): LayoutOutput {
    var current := FindRoute(layout.routes, matchPath);
    var ms := if current.Some? && current.value.middleware.Some? then MiddlewareList(current.value.middleware.value) else [];
    match FirstTruthy(ms, run)
    case Some(i) => MiddlewareElement(run(ms[i]).value)
    case None => LayoutElement(layout.component, layout.routes)
  }

  /** A single middleware is run as the one-element array holding it: its truthy output replaces the layout. */
  lemma SingleIsWrapped(layout: RoutesList.Layout, matchPath: string, run: RoutesList.MiddlewareFn -> Option<nat>,
                        i: nat, f: RoutesList.MiddlewareFn)
    requires i < |layout.routes| && layout.routes[i].path == matchPath
    requires forall j :: 0 <= j < i ==> layout.routes[j].path != matchPath
    requires layout.routes[i].middleware == Some(RoutesList.Single(f))
    ensures LayoutSpec(layout, matchPath, run)
            == if run(f).Some? then MiddlewareElement(run(f).value) else LayoutElement(layout.component, layout.routes)
  {
    assert FindRoute(layout.routes, matchPath) == Some(layout.routes[i]);
    var t := FirstTruthy([f], run);
    if run(f).Some? {
      assert t == Some(0);
    } else {
      assert t == None;
    }
  }

  /** A route none of whose middleware gives a truthy output is rendered inside its layout. */
  lemma LayoutWhenMiddlewarePasses(layout: RoutesList.Layout, matchPath: string, run: RoutesList.MiddlewareFn -> Option<nat>)
    requires forall i :: 0 <= i < |layout.routes| && layout.routes[i].middleware.Some? ==>
               forall j :: 0 <= j < |MiddlewareList(layout.routes[i].middleware.value)| ==>
                 run(MiddlewareList(layout.routes[i].middleware.value)[j]).None?
    ensures LayoutSpec(layout, matchPath, run) == LayoutElement(layout.component, layout.routes)
  {
    var current := FindRoute(layout.routes, matchPath);
    if current.Some? && current.value.middleware.Some? {
      var i :| 0 <= i < |layout.routes| && layout.routes[i] == current.value;
      var ms := MiddlewareList(current.value.middleware.value);
      assert forall j :: 0 <= j < |ms| ==> run(ms[j]).None?;
    }
  }

  /** The element `renderRoute` returns: the route's middleware host, keyed by a timestamp under force-refresh. */
  datatype RouteElement = MiddlewareHost(route: RoutesList.Route, key: Option<string>)

  class RendererState {
    /** `isLoadingDynamicRoute`. */
    var isLoadingDynamicRoute: bool
    /** `loadedApps`: the owning apps of the loaded modules. */
    var loadedApps: seq<Option<string>>
    /** `loadedModulesList`: the names of the loaded modules. */
    var loadedModulesList: seq<string>
    /** `currentRoute.routeInfo`: the route rendered in this pass, if any. */
    var routeInfo: Option<RoutesList.Route>
    /** The component's `loadedModules` state: the entry routes whose module has been loaded. */
    var loadedModules: seq<string>
    /** The dependencies of the last run of the loading effect. */
    var lastDeps: Option<(string, bool, seq<string>)>
    /** Loads started and not yet completed, oldest first. */
    var pending: seq<Completion>
    /** The routes handed to `setCurrentRouteData`, oldest first. */
    var routeData: seq<RoutesList.Route>

    constructor ()
      ensures !isLoadingDynamicRoute && loadedApps == [] && loadedModulesList == [] && routeInfo == None
      ensures loadedModules == [] && lastDeps == None && pending == [] && routeData == []
      ensures Valid()
    {
      isLoadingDynamicRoute := false;
      loadedApps := [];
      loadedModulesList := [];
      routeInfo := None;
      loadedModules := [];
      lastDeps := None;
      pending := [];
      routeData := [];
    }

    /** The loaded app and module lists hold no entry twice. */
    predicate Valid()
      reads this
    {
      NoDuplicates(loadedApps) && NoDuplicates(loadedModulesList)
    }

    /** The dynamic-route module counts as loaded only when both its app and its module are in the loaded lists. */
    predicate DynamicModuleIsLoaded(dyn: ModuleInfo)
      reads this
    {
      dyn.app in loadedApps && dyn.moduleName in loadedModulesList
    }

    /**
     * The dynamic-route load a render starts: for a segment with no loaded and
     * no lazy module, when the current app serves a dynamic route whose module
     * is not loaded yet.
     */
    function DynamicStart(reg: Registry, segment: string, moduleIsLoaded: bool): (c: Option<Completion>)
      reads this, reg
      ensures c.Some? <==> !moduleIsLoaded && segment !in reg.modulesList
                           && DynamicRouteModule(reg.allApps, reg.currentBaseAppPath).Some?
                           && !DynamicModuleIsLoaded(DynamicRouteModule(reg.allApps, reg.currentBaseAppPath).value)
      ensures c.Some? ==> c.value.DynamicLoad? && c.value.snapshot == loadedModules
                          && c.value.info == DynamicRouteModule(reg.allApps, reg.currentBaseAppPath).value
    {
      var dyn := DynamicRouteModule(reg.allApps, reg.currentBaseAppPath);
      if !moduleIsLoaded && segment !in reg.modulesList && dyn.Some? && !DynamicModuleIsLoaded(dyn.value)
      then Some(DynamicLoad(dyn.value, [dyn.value.loadApp, dyn.value.loadModule], loadedModules))
      else None
    }

    /**
     * The module load the loading effect starts: only when its dependencies
     * changed since its last run and the segment names a lazy module that is
     * not loaded yet.
     */
    function EffectStart(reg: Registry, segment: string, moduleIsLoaded: bool): (c: Option<Completion>)
      reads this, reg
      ensures c.Some? <==> lastDeps != Some((segment, moduleIsLoaded, loadedModules)) && !moduleIsLoaded && segment in reg.modulesList
      ensures c.Some? ==> c.value.ModuleLoad? && c.value.snapshot == loadedModules && c.value.info == reg.modulesList[segment]
    {
      if lastDeps != Some((segment, moduleIsLoaded, loadedModules)) && !moduleIsLoaded && segment in reg.modulesList
      then Some(ModuleLoad(reg.modulesList[segment], LoaderList(reg.modulesList[segment]), loadedModules))
      else None
    }

    /**
     * The dynamic-route check of a render for a segment with no module: when
     * the current app serves a dynamic route whose module is not loaded yet, its
     * loaders start and the dynamic route counts as loading.
     */
    method CheckDynamicRoute(reg: Registry) returns (dyn: Option<ModuleInfo>)
      modifies this
      ensures dyn == DynamicRouteModule(reg.allApps, reg.currentBaseAppPath)
      ensures dyn.Some? && !old(DynamicModuleIsLoaded(dyn.value)) ==>
                isLoadingDynamicRoute
                && pending == old(pending) + [DynamicLoad(dyn.value, [dyn.value.loadApp, dyn.value.loadModule], loadedModules)]
      ensures !(dyn.Some? && !old(DynamicModuleIsLoaded(dyn.value))) ==>
                isLoadingDynamicRoute == old(isLoadingDynamicRoute) && pending == old(pending)
      ensures loadedApps == old(loadedApps) && loadedModulesList == old(loadedModulesList) && loadedModules == old(loadedModules)
      ensures routeInfo == old(routeInfo) && lastDeps == old(lastDeps) && routeData == old(routeData)
    {
      dyn := reg.AppDynamicRouteModule();
      if dyn.Some? {
        var dynamicModuleIsLoaded := dyn.value.app in loadedApps && dyn.value.moduleName in loadedModulesList;
        if !dynamicModuleIsLoaded {
          isLoadingDynamicRoute := true;
          pending := pending + [DynamicLoad(dyn.value, [dyn.value.loadApp, dyn.value.loadModule], loadedModules)];
        }
      }
    }

    /**
     * The loading effect, run after a render whenever its dependencies changed:
     * a segment with a module that is not loaded yet starts that module's loaders.
     */
    method LoadingEffect(reg: Registry, segment: string, moduleIsLoaded: bool)
      modifies this
      ensures lastDeps == Some((segment, moduleIsLoaded, loadedModules))
      ensures old(lastDeps) != Some((segment, moduleIsLoaded, loadedModules)) && !moduleIsLoaded && segment in reg.modulesList ==>
                !isLoadingDynamicRoute
                && pending == old(pending) + [ModuleLoad(reg.modulesList[segment], LoaderList(reg.modulesList[segment]), loadedModules)]
      ensures !(old(lastDeps) != Some((segment, moduleIsLoaded, loadedModules)) && !moduleIsLoaded && segment in reg.modulesList) ==>
                isLoadingDynamicRoute == old(isLoadingDynamicRoute) && pending == old(pending)
      ensures loadedApps == old(loadedApps) && loadedModulesList == old(loadedModulesList) && loadedModules == old(loadedModules)
      ensures routeInfo == old(routeInfo) && routeData == old(routeData)
    {
      var deps := (segment, moduleIsLoaded, loadedModules);
      if lastDeps != Some(deps) {
        lastDeps := Some(deps);
        if !moduleIsLoaded && segment in reg.modulesList {
          var moduleInfo := reg.modulesList[segment];
          isLoadingDynamicRoute := false;
          var loadingModulePaths: seq<Loader> := [];
          if moduleInfo.loadApp.Some? {
            loadingModulePaths := loadingModulePaths + [moduleInfo.loadApp.value];
          }
          if moduleInfo.loadModule.Some? {
            loadingModulePaths := loadingModulePaths + [moduleInfo.loadModule.value];
          }
          assert loadingModulePaths == LoaderList(moduleInfo);
          pending := pending + [ModuleLoad(moduleInfo, loadingModulePaths, loadedModules)];
        }
      }
    }

    /** The module key of a render: the route's first segment, after any app switch, under the current base app path. */
    method ModuleKey(host: Host, reg: Registry, codes: seq<string>, pathname: string) returns (segment: string)
      modifies reg
      ensures segment == SegmentKey(host, codes, old(reg.appsList), reg.currentBaseAppPath, pathname)
      ensures reg.appsList == old(reg.appsList) && reg.modulesList == old(reg.modulesList) && reg.allApps == old(reg.allApps)
      ensures var c := RendererHelpers.Classify(codes, old(reg.appsList), pathname);
        && (c.newApp.None? ==> reg.currentBaseAppPath == old(reg.currentBaseAppPath) && reg.currentAppName == old(reg.currentAppName))
        && (c.newApp.Some? ==> reg.currentBaseAppPath == host.concatRoute([c.newApp.value])
                               && reg.currentAppName == AppNameAt(reg.allApps, reg.currentBaseAppPath))
    {
      var first := RendererHelpers.FirstSegmentOfRoute(reg, host, codes, pathname);
      var currentBasePath := reg.GetCurrentBseAppPath();
      segment := Concat(host, [currentBasePath, first]);
    }

    /**
     * The not-found branch of a render: a segment with no loaded module, no lazy
     * module, no dynamic route and no matching route path either redirects to
     * the not-found route or renders the not-found component, as configured.
     */
    method NotFound(host: Host, reg: Registry, routes: RoutesList.Registry, nav: Navigator.NavigatorState,
                    tracker: DetectLocaleChange.LocaleTracker, codes: seq<string>, segment: string, moduleIsLoaded: bool,
                    config: Config)
      returns (out: Output, decided: bool)
      modifies this, routes, nav, tracker
      ensures loadedApps == old(loadedApps) && loadedModulesList == old(loadedModulesList) && loadedModules == old(loadedModules)
      ensures routeInfo == old(routeInfo) && lastDeps == old(lastDeps) && routeData == old(routeData)
      ensures var checked := !moduleIsLoaded && segment !in reg.modulesList
                && DynamicRouteModule(reg.allApps, reg.currentBaseAppPath).None?;
        && (checked ==> routes.layoutsList == RoutesList.TagAll(old(routes.layoutsList)))
        && (!checked ==> routes.layoutsList == old(routes.layoutsList))
      ensures pending == old(pending) + Started(old(DynamicStart(reg, segment, moduleIsLoaded)))
      ensures isLoadingDynamicRoute == (old(isLoadingDynamicRoute) || old(DynamicStart(reg, segment, moduleIsLoaded)).Some?)
      ensures var notFound := !moduleIsLoaded && segment !in reg.modulesList
                && DynamicRouteModule(reg.allApps, reg.currentBaseAppPath).None?
                && !AnyRouteMatches(host, RoutesList.AllRoutes(old(routes.layoutsList)), segment);
        var target := Navigator.NavigateTarget(host, Navigator.AppPathOf(reg, reg.currentAppName), config.notFoundRoute,
                                               Navigator.EffectiveLocale(None, old(nav.HasInitialLocaleCode()), old(tracker.currentLocale)));
        var kept := nav.Kept(tracker, old(nav.currentFullRoute), old(nav.fullRouteWithoutLocaleCode), old(nav.previousRoute),
                             old(tracker.events), old(tracker.currentLocale));
        && (decided <==> notFound && (config.notFoundMode == "redirect" || config.notFoundMode == "render"))
        && (decided && config.notFoundMode == "render" ==> out == NotFoundView(config.notFoundComponent))
        && (decided && config.notFoundMode == "redirect" ==>
              out == Nothing
              && nav.pushed == old(nav.pushed) + [target]
              && (old(nav.listening) ==>
                    nav.UpdatedTo(tracker, codes, Navigator.PathnameOf(target), old(nav.currentFullRoute),
                                  old(tracker.events), old(tracker.currentLocale)))
              && (!old(nav.listening) ==> kept))
        && (!(notFound && config.notFoundMode == "redirect") ==> nav.pushed == old(nav.pushed) && kept)
      ensures nav.listening == old(nav.listening) && tracker.subscribed == old(tracker.subscribed)
    {
      out, decided := Nothing, false;
      if !moduleIsLoaded && segment !in reg.modulesList {
        var dyn := CheckDynamicRoute(reg);
        if dyn.None? {
          var all := routes.RoutesList();
          var found := Lists.FirstIndex(all, (r: RoutesList.Route) => host.regexMatches(r.path, segment));
          if found.None? {
            if config.notFoundMode == "redirect" {
              nav.NavigateTo(host, tracker, reg, codes, config.notFoundRoute, None, reg.currentAppName);
              out, decided := Nothing, true;
            } else if config.notFoundMode == "render" {
              out, decided := NotFoundView(config.notFoundComponent), true;
            }
          } else {
            assert AnyRouteMatches(host, all, segment);
          }
        }
      }
    }

    /**
     * One render of `Renderer` for the location's path, followed by its loading
     * effect. Returns what is rendered and the module key of the location.
     */
    method Render(host: Host, reg: Registry, routes: RoutesList.Registry, nav: Navigator.NavigatorState,
                  tracker: DetectLocaleChange.LocaleTracker, codes: seq<string>, pathname: string, config: Config)
      returns (out: Output, segment: string)
      requires Valid()
      modifies this, reg, routes, nav, tracker
      ensures Valid()
      ensures segment == SegmentKey(host, codes, old(reg.appsList), reg.currentBaseAppPath, pathname)
      ensures loadedApps == old(loadedApps) && loadedModulesList == old(loadedModulesList) && loadedModules == old(loadedModules)
      ensures reg.appsList == old(reg.appsList) && reg.modulesList == old(reg.modulesList) && reg.allApps == old(reg.allApps)
      ensures var c := RendererHelpers.Classify(codes, old(reg.appsList), pathname);
        && (c.newApp.None? ==> reg.currentBaseAppPath == old(reg.currentBaseAppPath) && reg.currentAppName == old(reg.currentAppName))
        && (c.newApp.Some? ==> reg.currentBaseAppPath == host.concatRoute([c.newApp.value])
                               && reg.currentAppName == AppNameAt(reg.allApps, reg.currentBaseAppPath))
      ensures var checked := segment !in old(loadedModules) && segment !in reg.modulesList
                && DynamicRouteModule(reg.allApps, reg.currentBaseAppPath).None?;
        && (checked ==> routes.layoutsList == RoutesList.TagAll(old(routes.layoutsList)))
        && (!checked ==> routes.layoutsList == old(routes.layoutsList))
      ensures var notFound := segment !in old(loadedModules) && segment !in reg.modulesList
                && DynamicRouteModule(reg.allApps, reg.currentBaseAppPath).None?
                && !AnyRouteMatches(host, RoutesList.AllRoutes(old(routes.layoutsList)), segment);
        var target := Navigator.NavigateTarget(host, Navigator.AppPathOf(reg, reg.currentAppName), config.notFoundRoute,
                                               Navigator.EffectiveLocale(None, old(nav.HasInitialLocaleCode()), old(tracker.currentLocale)));
        var kept := nav.Kept(tracker, old(nav.currentFullRoute), old(nav.fullRouteWithoutLocaleCode), old(nav.previousRoute),
                             old(tracker.events), old(tracker.currentLocale));
        && (out.Nothing? || out.NotFoundView? <==> notFound && (config.notFoundMode == "redirect" || config.notFoundMode == "render"))
        && (notFound && config.notFoundMode == "render" ==> out == NotFoundView(config.notFoundComponent))
        && (notFound && config.notFoundMode == "redirect" ==>
              out == Nothing
              && nav.pushed == old(nav.pushed) + [target]
              && (old(nav.listening) ==>
                    nav.UpdatedTo(tracker, codes, Navigator.PathnameOf(target), old(nav.currentFullRoute),
                                  old(tracker.events), old(tracker.currentLocale)))
              && (!old(nav.listening) ==> kept))
        && (!(notFound && config.notFoundMode == "redirect") ==> nav.pushed == old(nav.pushed) && kept)
      ensures nav.listening == old(nav.listening) && tracker.subscribed == old(tracker.subscribed)
      ensures var preloading := (segment !in old(loadedModules) && segment in reg.modulesList)
                || old(isLoadingDynamicRoute) || DynamicStart(reg, segment, segment in old(loadedModules)).Some?;
        && (!(out.Nothing? || out.NotFoundView?) ==> (out.PreloaderOnly? <==> preloading && !config.preloadOverlay))
        && (out.PreloaderOnly? ==> out.preloader == config.preloader)
        && (out.Layouts? ==> out.preloading == preloading && out.preload == (if preloading then Some(config.preloader) else None))
      ensures out.Layouts? ==> routeInfo == None && out.layouts == routes.layoutsList
      ensures !out.Layouts? ==> routeInfo == old(routeInfo)
      ensures var dynamicLoad := DynamicStart(reg, segment, segment in old(loadedModules));
              var moduleLoad := old(EffectStart(reg, segment, segment in loadedModules));
        && pending == old(pending) + Started(dynamicLoad) + Started(moduleLoad)
        && isLoadingDynamicRoute == (moduleLoad.None? && (old(isLoadingDynamicRoute) || dynamicLoad.Some?))
        && lastDeps == Some((segment, segment in old(loadedModules), old(loadedModules)))
        && routeData == old(routeData)
    {
      segment := ModuleKey(host, reg, codes, pathname);
      var moduleIsLoaded := segment in loadedModules;
      out := RenderKey(host, reg, routes, nav, tracker, codes, segment, moduleIsLoaded, config);
    }

    /**
     * A render for a module key, followed by its loading effect: the not-found
     * outcome when one applies, and otherwise the preloader or the layouts.
     */
    method RenderKey(host: Host, reg: Registry, routes: RoutesList.Registry, nav: Navigator.NavigatorState,
                   tracker: DetectLocaleChange.LocaleTracker, codes: seq<string>, segment: string, moduleIsLoaded: bool,
                   config: Config)
      returns (out: Output)
      modifies this, routes, nav, tracker
      ensures loadedApps == old(loadedApps) && loadedModulesList == old(loadedModulesList) && loadedModules == old(loadedModules)
      ensures var checked := !moduleIsLoaded && segment !in reg.modulesList
                && DynamicRouteModule(reg.allApps, reg.currentBaseAppPath).None?;
        && (checked ==> routes.layoutsList == RoutesList.TagAll(old(routes.layoutsList)))
        && (!checked ==> routes.layoutsList == old(routes.layoutsList))
      ensures var notFound := !moduleIsLoaded && segment !in reg.modulesList
                && DynamicRouteModule(reg.allApps, reg.currentBaseAppPath).None?
                && !AnyRouteMatches(host, RoutesList.AllRoutes(old(routes.layoutsList)), segment);
        var target := Navigator.NavigateTarget(host, Navigator.AppPathOf(reg, reg.currentAppName), config.notFoundRoute,
                                               Navigator.EffectiveLocale(None, old(nav.HasInitialLocaleCode()), old(tracker.currentLocale)));
        var kept := nav.Kept(tracker, old(nav.currentFullRoute), old(nav.fullRouteWithoutLocaleCode), old(nav.previousRoute),
                             old(tracker.events), old(tracker.currentLocale));
        && (out.Nothing? || out.NotFoundView? <==> notFound && (config.notFoundMode == "redirect" || config.notFoundMode == "render"))
        && (notFound && config.notFoundMode == "render" ==> out == NotFoundView(config.notFoundComponent))
        && (notFound && config.notFoundMode == "redirect" ==>
              out == Nothing
              && nav.pushed == old(nav.pushed) + [target]
              && (old(nav.listening) ==>
                    nav.UpdatedTo(tracker, codes, Navigator.PathnameOf(target), old(nav.currentFullRoute),
                                  old(tracker.events), old(tracker.currentLocale)))
              && (!old(nav.listening) ==> kept))
        && (!(notFound && config.notFoundMode == "redirect") ==> nav.pushed == old(nav.pushed) && kept)
      ensures nav.listening == old(nav.listening) && tracker.subscribed == old(tracker.subscribed)
      ensures var preloading := (!moduleIsLoaded && segment in reg.modulesList)
                || old(isLoadingDynamicRoute) || old(DynamicStart(reg, segment, moduleIsLoaded)).Some?;
        && (!(out.Nothing? || out.NotFoundView?) ==> (out.PreloaderOnly? <==> preloading && !config.preloadOverlay))
        && (out.PreloaderOnly? ==> out.preloader == config.preloader)
        && (out.Layouts? ==> out.preloading == preloading && out.preload == (if preloading then Some(config.preloader) else None))
      ensures out.Layouts? ==> routeInfo == None && out.layouts == routes.layoutsList
      ensures !out.Layouts? ==> routeInfo == old(routeInfo)
      ensures var dynamicLoad := old(DynamicStart(reg, segment, moduleIsLoaded));
              var moduleLoad := old(EffectStart(reg, segment, moduleIsLoaded));
        && pending == old(pending) + Started(dynamicLoad) + Started(moduleLoad)
        && isLoadingDynamicRoute == (moduleLoad.None? && (old(isLoadingDynamicRoute) || dynamicLoad.Some?))
        && lastDeps == Some((segment, moduleIsLoaded, old(loadedModules)))
        && routeData == old(routeData)
    {
      var decided;
      out, decided := NotFound(host, reg, routes, nav, tracker, codes, segment, moduleIsLoaded, config);
      if !decided {
        out := Preload(reg, routes, segment, moduleIsLoaded, config);
      }
      LoadingEffect(reg, segment, moduleIsLoaded);
    }

    /**
     * The rest of a render once no not-found outcome applies: while a lazy
     * module or the dynamic route is loading, only the preloader is shown when
     * there is no overlay; otherwise the layouts are rendered, with the
     * preloader over them while loading.
     */
    method Preload(reg: Registry, routes: RoutesList.Registry, segment: string, moduleIsLoaded: bool, config: Config)
      returns (out: Output)
      modifies this
      ensures var preloading := (!moduleIsLoaded && segment in reg.modulesList) || isLoadingDynamicRoute;
        && (out.PreloaderOnly? <==> preloading && !config.preloadOverlay)
        && (out.PreloaderOnly? ==> out.preloader == config.preloader)
        && (!out.PreloaderOnly? ==> out.Layouts?)
        && (out.Layouts? ==> out.preloading == preloading && out.preload == (if preloading then Some(config.preloader) else None))
      ensures out.Layouts? ==> routeInfo == None && out.layouts == routes.layoutsList
      ensures !out.Layouts? ==> routeInfo == old(routeInfo)
      ensures isLoadingDynamicRoute == old(isLoadingDynamicRoute) && pending == old(pending) && lastDeps == old(lastDeps)
      ensures loadedApps == old(loadedApps) && loadedModulesList == old(loadedModulesList) && loadedModules == old(loadedModules)
      ensures routeData == old(routeData)
    {
      var performPreLoading := (!moduleIsLoaded && RendererHelpers.IsPartOfLazyModules(reg, segment).Some?)
                               || isLoadingDynamicRoute;
      if performPreLoading && !config.preloadOverlay {
        out := PreloaderOnly(config.preloader);
      } else {
        routeInfo := None;
        out := Layouts(performPreLoading, if performPreLoading then Some(config.preloader) else None, routes.layoutsList);
      }
    }

    /**
     * The loaders of the `i`-th pending load have all fulfilled: the module's app
     * and the module join the loaded lists when absent, and the loaded entries
     * grow from the snapshot the load started with.
     */
    method Complete(i: nat)
      requires i < |pending| && Valid()
      modifies this
      ensures Valid()
      ensures pending == old(pending[..i] + pending[i + 1..])
      ensures loadedApps == AddIfAbsent(old(loadedApps), old(pending[i]).info.app)
      ensures loadedModulesList == AddIfAbsent(old(loadedModulesList), old(pending[i]).info.moduleName)
      ensures old(pending[i]).ModuleLoad? ==>
                isLoadingDynamicRoute == old(isLoadingDynamicRoute)
                && loadedModules == (match old(pending[i]).info.entry
                                     case Some(entry) => old(pending[i]).snapshot + entry
                                     case None => old(loadedModules))
      ensures old(pending[i]).DynamicLoad? ==>
                !isLoadingDynamicRoute && loadedModules == old(pending[i]).snapshot + [old(pending[i]).info.moduleName]
      ensures routeInfo == old(routeInfo) && lastDeps == old(lastDeps) && routeData == old(routeData)
    {
      var c := pending[i];
      pending := pending[..i] + pending[i + 1..];
      if c.DynamicLoad? {
        isLoadingDynamicRoute := false;
      }
      if c.info.app !in loadedApps {
        loadedApps := loadedApps + [c.info.app];
      }
      if c.info.moduleName !in loadedModulesList {
        loadedModulesList := loadedModulesList + [c.info.moduleName];
      }
      if c.DynamicLoad? {
        loadedModules := c.snapshot + [c.info.moduleName];
      } else if c.info.entry.Some? {
        loadedModules := c.snapshot + c.info.entry.value;
      }
    }

    /** A layout's `render` for the matched path. */
    method RenderLayout(layout: RoutesList.Layout, matchPath: string, run: RoutesList.MiddlewareFn -> Option<nat>)
      returns (out: LayoutOutput)
      ensures out == LayoutSpec(layout, matchPath, run)
    {
      var current := FindRoute(layout.routes, matchPath);
      if current.Some? && current.value.middleware.Some? {
        var middlewareList := MiddlewareList(current.value.middleware.value);
        var k := 0;
        while k < |middlewareList|
          invariant 0 <= k <= |middlewareList|
          invariant forall j :: 0 <= j < k ==> run(middlewareList[j]).None?
        {
          var output := run(middlewareList[k]);
          if output.Some? {
            assert FirstTruthy(middlewareList, run) == Some(k);
            return MiddlewareElement(output.value);
          }
          k := k + 1;
        }
      }
      out := LayoutElement(layout.component, layout.routes);
    }

    /**
     * `renderRoute(routeData, route)`: only the first route matched in a render
     * pass is rendered; it is recorded as the current route data.
     */
    method RenderRoute(route: RoutesList.Route, forceRefresh: bool, timestamp: string) returns (e: Option<RouteElement>)
      modifies this
      ensures old(routeInfo).Some? ==> e.None? && routeInfo == old(routeInfo) && routeData == old(routeData)
      ensures old(routeInfo).None? ==>
                e == Some(MiddlewareHost(route, if forceRefresh then Some(timestamp) else None))
                && routeInfo == Some(route) && routeData == old(routeData) + [route]
      ensures loadedApps == old(loadedApps) && loadedModulesList == old(loadedModulesList) && loadedModules == old(loadedModules)
      ensures pending == old(pending) && isLoadingDynamicRoute == old(isLoadingDynamicRoute) && lastDeps == old(lastDeps)
    {
      if routeInfo.Some? {
        return None;
      }
      routeInfo := Some(route);
      routeData := routeData + [route];
      e := Some(MiddlewareHost(route, if forceRefresh then Some(timestamp) else None));
    }
  }
}
