/**
 * The navigation helpers of src/utilities.tsx over the abstract router:
 * `navigateTo`, `navigateBack`, `changeLocaleCode` in its soft and hard reload
 * modes, and `refresh`.
 */
module Utilities {
  import opened Wrappers
  import opened Foreign
  import opened AbstractRouter

  /** `ChangeLanguageReloadModeOptions`. */
  datatype ReloadMode = Soft | Hard

  /** The locale `navigateTo` puts in front: the given one when truthy, otherwise the router's current one when it has a locale code. */
  function NavigateLocale(g: Getters, localeCode: Option<string>): (l: Option<string>)
    ensures localeCode.Some? && localeCode.value != "" ==> l == localeCode
    ensures !g.hasLocaleCode ==> l == localeCode
    ensures (localeCode.None? || localeCode.value == "") && g.hasLocaleCode ==> l == Some(g.currentLocaleCode)
  {
    if (localeCode.None? || localeCode.value == "") && g.hasLocaleCode then Some(g.currentLocaleCode) else localeCode
  }

  /** The path `navigateTo(path, localeCode, appName)` hands to `router.goTo`. */
  function NavigateTarget(host: Host, g: Getters, path: string, localeCode: Option<string>, appName: Option<string>): string {
    var app := if appName.Some? then appName else g.currentApp;
    host.concatRoute([Some(NavigateLocale(g, localeCode).GetOr("")), AppPath(g, app), Some(path)])
  }

  /** With no locale given and no locale code in the route, nothing stands before the app path. */
  lemma NoLocaleWithoutCode(host: Host, g: Getters, path: string, appName: Option<string>)
    requires !g.hasLocaleCode
    ensures NavigateTarget(host, g, path, None, appName)
            == host.concatRoute([Some(""), AppPath(g, if appName.Some? then appName else g.currentApp), Some(path)])
  {
  }

  /** A given locale is used whether or not the route carries one. */
  lemma GivenLocaleUsed(host: Host, g: Getters, path: string, code: string, appName: Option<string>)
    requires code != ""
    ensures NavigateTarget(host, g, path, Some(code), appName)
            == NavigateTarget(host, g.(hasLocaleCode := !g.hasLocaleCode), path, Some(code), appName)
    ensures NavigateTarget(host, g, path, Some(code), appName)
            == host.concatRoute([Some(code), AppPath(g, if appName.Some? then appName else g.currentApp), Some(path)])
  {
  }

  /** `navigateTo(path, localeCode, appName)`; an absent app name means the current app. */
  method NavigateTo(host: Host, router: Router, path: string, localeCode: Option<string>, appName: Option<string>)
    modifies router
    ensures router.trace == old(router.trace) + [GoTo(NavigateTarget(host, router.getters, path, localeCode, appName), None)]
    ensures router.getters == old(router.getters) && router.activeRoute == old(router.activeRoute)
  {
    var code := localeCode;
    if (code.None? || code.value == "") && router.getters.hasLocaleCode {
      code := Some(router.getters.currentLocaleCode);
    }
    var app := if appName.Some? then appName else router.getters.currentApp;
    var appPath := AppPath(router.getters, app);
    router.Record(GoTo(host.concatRoute([Some(code.GetOr("")), appPath, Some(path)]), None));
  }

  /** `navigateBack()`: `navigateTo` the router's previous route, in the current app. */
  method NavigateBack(host: Host, router: Router)
    modifies router
    ensures router.trace == old(router.trace)
              + [GoTo(NavigateTarget(host, router.getters, router.getters.previousRoute, None, None), None)]
    ensures router.getters == old(router.getters) && router.activeRoute == old(router.activeRoute)
  {
    NavigateTo(host, router, router.getters.previousRoute, None, None);
  }

  /**
   * What `changeLocaleCode(localeCode, mode)` asks of the outside world, in order.
   * Both modes announce the change first. The soft mode refreshes the active
   * route's key, navigates under the new code and then announces the change as
   * done; the hard mode only reloads the page at the new address.
   */
  function ChangeLocaleCalls(host: Host, g: Getters, localeCode: string, mode: ReloadMode,
                             search: string, hash: string): (cs: seq<Call>)
    ensures |cs| >= 2 && cs[0] == Triggered(LocaleCodeChanging(localeCode, g.currentLocaleCode))
  {
    var changing := Triggered(LocaleCodeChanging(localeCode, g.currentLocaleCode));
    match mode
    case Hard =>
      [changing, SetHref(host.concatRoute([Some(g.basePath), Some(localeCode), Some(g.currentAppPath), Some(g.currentRoute)])
                         + search + hash)]
    case Soft =>
      [changing, RefreshActiveRouteKey,
       GoTo(Concat(host, [localeCode, g.currentAppPath, g.currentRoute]), Some(ChangeLocaleCodeMode)),
       Triggered(LocaleChanged(localeCode, g.currentLocaleCode))]
  }

  /**
   * The event order of a locale change: `localeCodeChanging` comes before
   * anything else, `localeChanged` is announced exactly in soft mode and last,
   * and the router is asked to navigate only in soft mode, after the key refresh.
   */
  lemma ChangeLocaleOrder(host: Host, g: Getters, localeCode: string, mode: ReloadMode, search: string, hash: string)
    ensures var cs := ChangeLocaleCalls(host, g, localeCode, mode, search, hash);
      && (forall i :: 0 < i < |cs| ==> !cs[i].Triggered? || !cs[i].event.LocaleCodeChanging?)
      && ((exists i :: 0 <= i < |cs| && cs[i] == Triggered(LocaleChanged(localeCode, g.currentLocaleCode))) <==> mode == Soft)
      && (mode == Soft ==> cs[|cs| - 1] == Triggered(LocaleChanged(localeCode, g.currentLocaleCode)))
      && (forall i :: 0 <= i < |cs| && cs[i].GoTo? ==> mode == Soft && i > 0 && cs[i - 1] == RefreshActiveRouteKey)
      && (mode == Hard ==> forall i :: 0 <= i < |cs| ==> !cs[i].GoTo? && !cs[i].RefreshActiveRouteKey?)
  {
    var cs := ChangeLocaleCalls(host, g, localeCode, mode, search, hash);
    if mode == Soft {
      assert cs[3] == Triggered(LocaleChanged(localeCode, g.currentLocaleCode));
    }
  }

  /** `changeLocaleCode(localeCode, mode)`, given the location's search and hash texts (each with its leading mark). */
  method ChangeLocaleCode(host: Host, router: Router, localeCode: string, mode: ReloadMode, search: string, hash: string)
    modifies router
    ensures router.trace == old(router.trace) + ChangeLocaleCalls(host, old(router.getters), localeCode, mode, search, hash)
    ensures router.getters == old(router.getters) && router.activeRoute == old(router.activeRoute)
  {
    var currentLocaleCode := router.getters.currentLocaleCode;
    router.Record(Triggered(LocaleCodeChanging(localeCode, currentLocaleCode)));
    var currentRoute := router.getters.currentRoute;
    var currentAppPath := router.getters.currentAppPath;
    if mode == Hard {
      var basePath := router.getters.basePath;
      var fullPath := host.concatRoute([Some(basePath), Some(localeCode), Some(currentAppPath), Some(currentRoute)])
                      + search + hash;
      router.Record(SetHref(fullPath));
      return;
    }
    router.Record(RefreshActiveRouteKey);
    router.Record(GoTo(Concat(host, [localeCode, currentAppPath, currentRoute]), Some(ChangeLocaleCodeMode)));
    router.Record(Triggered(LocaleChanged(localeCode, currentLocaleCode)));
  }

  /** `refresh()`: the active route's key is refreshed before the router reloads the page. */
  method Refresh(router: Router)
    modifies router
    ensures router.trace == old(router.trace) + [RefreshActiveRouteKey, RefreshPage(RefreshMode)]
    ensures router.getters == old(router.getters) && router.activeRoute == old(router.activeRoute)
  {
    router.Record(RefreshActiveRouteKey);
    router.Record(RefreshPage(RefreshMode));
  }
}
