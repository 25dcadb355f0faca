/**
 * The navigation state of src/navigator.ts: the previous and the current full
 * route, the route with its locale prefix removed, and the targets pushed onto
 * the browser history.
 */
module Navigator {
  import opened Wrappers
  import opened Foreign
  import AppsList
  import opened DetectLocaleChange

  /** The alternatives of `(${codes.join("|")})`: an empty list still gives the empty alternative. */
  function Alternatives(codes: seq<string>): (alts: seq<string>)
    ensures |alts| >= 1
    ensures codes != [] ==> alts == codes
  {
    if codes == [] then [""] else codes
  }

  /** `route` starts with `/<code>/`. */
  predicate HasLocalePrefix(route: string, code: string) {
    |code| + 2 <= |route| && route[..|code| + 2] == "/" + code + "/"
  }

  /** The code `^/(c1|c2|...)/` matches with: the first alternative, in list order, that prefixes the route. */
  function LocaleMatch(route: string, alts: seq<string>): (r: Option<string>)
    ensures r.Some? ==> r.value in alts && HasLocalePrefix(route, r.value)
    ensures r.None? <==> forall i :: 0 <= i < |alts| ==> !HasLocalePrefix(route, alts[i])
    ensures forall i :: (0 <= i < |alts| && HasLocalePrefix(route, alts[i])
              && (forall j :: 0 <= j < i ==> !HasLocalePrefix(route, alts[j]))) ==> r == Some(alts[i])
  {
    if alts == [] then None
    else if HasLocalePrefix(route, alts[0]) then Some(alts[0])
    else
      var r := LocaleMatch(route, alts[1..]);
      assert forall i :: 1 <= i < |alts| ==> alts[1..][i - 1] == alts[i];
      r
  }

  /** `route.replace(regex, () => "")`: the route without its locale prefix, and the code removed. */
  function StripLocale(route: string, codes: seq<string>): (r: (string, Option<string>))
    ensures r.1 == LocaleMatch(route, Alternatives(codes))
    ensures r.1.None? ==> r.0 == route
    ensures r.1.Some? ==> route == "/" + r.1.value + "/" + r.0
  {
    match LocaleMatch(route, Alternatives(codes))
    case None => (route, None)
    case Some(c) =>
      assert route == route[..|c| + 2] + route[|c| + 2..];
      (route[|c| + 2..], Some(c))
  }

  /** A route changes under stripping exactly when a locale prefix was found. */
  lemma StripChangesIffMatched(route: string, codes: seq<string>)
    ensures StripLocale(route, codes).0 != route <==> StripLocale(route, codes).1.Some?
  {
    var r := StripLocale(route, codes);
    if r.1.Some? { assert |route| == |r.1.value| + 2 + |r.0|; }
  }

  /** Two slash-free codes cannot both be the locale prefix of one route. */
  lemma PrefixUnique(route: string, a: string, b: string)
    requires '/' !in a && '/' !in b && a != b
    requires HasLocalePrefix(route, b)
    ensures !HasLocalePrefix(route, a)
  {
    assert route[1..|b| + 1] == b && route[|b| + 1] == '/';
    if |a| + 2 <= |route| {
      var p := "/" + a + "/";
      if |a| < |b| {
        assert route[|a| + 1] == b[|a|] != '/' == p[|a| + 1];
      } else if |a| > |b| {
        assert p[|b| + 1] == a[|b|] != '/' == route[|b| + 1];
      } else {
        assert p[1..|a| + 1] == a != b == route[1..|b| + 1];
      }
    }
  }

  /** With slash-free codes, `/<code>/<rest>` strips to `<rest>` and reports `<code>`. */
  lemma StripLocaleRoundTrip(code: string, rest: string, codes: seq<string>)
    requires code in codes
    requires forall i :: 0 <= i < |codes| ==> '/' !in codes[i]
    ensures StripLocale("/" + code + "/" + rest, codes) == (rest, Some(code))
  {
    var route := "/" + code + "/" + rest;
    var alts := Alternatives(codes);
    assert HasLocalePrefix(route, code);
    var c := LocaleMatch(route, alts).value;
    if c != code {
      PrefixUnique(route, c, code);
    }
    assert route[|c| + 2..] == rest;
  }

  /** A bare `/<code>` with no slash after it is never stripped. */
  lemma BareLocaleKept(code: string, codes: seq<string>)
    requires '/' !in code
    ensures StripLocale("/" + code, codes) == ("/" + code, None)
  {
    var alts := Alternatives(codes);
    forall i | 0 <= i < |alts| ensures !HasLocalePrefix("/" + code, alts[i]) {
      NoLocalePrefix(code, alts[i]);
    }
  }

  /** `/<code>` with a slash-free code holds no second slash, so no code prefixes it as `/<a>/`. */
  lemma NoLocalePrefix(code: string, a: string)
    requires '/' !in code
    ensures !HasLocalePrefix("/" + code, a)
  {
    var route := "/" + code;
    if |a| + 2 <= |route| {
      assert route[|a| + 1] == code[|a|];
      assert ("/" + a + "/")[|a| + 1] == '/';
    }
  }

  /** The pushed target of `refresh()` as written: `route` + `"?" + search` + `"#" + hash`, each only when non-empty. */
  function RefreshTarget(route: string, search: string, hash: string): (t: string)
    ensures search == "" && hash == "" ==> t == route
  {
    route + (if search != "" then "?" + search else "") + (if hash != "" then "#" + hash else "")
  }

  /**
   * `history.location.search` already starts with `?`, so the target as written
   * doubles it: `/users` with search `?page=2` refreshes to `/users??page=2`.
   */
  lemma RefreshDoublesQuestionMark()
    ensures RefreshTarget("/users", "?page=2", "") == "/users??page=2"
  {
  }

  /** `refresh()` with the search text as the location gives it (with its `?`), appended once. */
  function RefreshTargetFixed(route: string, search: string, hash: string): (t: string)
    requires search == "" || search[0] == '?'
    ensures hash == "" ==> t == route + search
  {
    route + search + (if hash != "" then "#" + hash else "")
  }

  /** The index of the first occurrence of `c` in `s`, or `|s|`. */
  function IndexOfChar(s: string, c: char): (i: nat)
    ensures i <= |s| && c !in s[..i]
    ensures i < |s| ==> s[i] == c
  {
    if s == [] then 0
    else if s[0] == c then 0
    else
      var j := IndexOfChar(s[1..], c);
      assert s[..j + 1] == [s[0]] + s[1..][..j];
      j + 1
  }

  /** The `?search` part of a target URL: what lies before its first `#`, from the first `?` on. */
  function SearchOf(t: string): string {
    var beforeHash := t[..IndexOfChar(t, '#')];
    beforeHash[IndexOfChar(beforeHash, '?')..]
  }

  /** The refreshed target carries the current search text unchanged. */
  lemma RefreshKeepsSearch(route: string, search: string, hash: string)
    requires search == "" || search[0] == '?'
    requires '?' !in route && '#' !in route && '#' !in search
    ensures SearchOf(RefreshTargetFixed(route, search, hash)) == search
  {
    var h := if hash != "" then "#" + hash else "";
    var t := RefreshTargetFixed(route, search, hash);
    assert t == (route + search) + h;
    assert '#' !in route + search;
    IndexOfCharAfter(route + search, h, '#');
    assert IndexOfChar(h, '#') == 0;
    assert t[..|route + search|] == route + search;
    IndexOfCharAfter(route, search, '?');
    assert IndexOfChar(search, '?') == 0;
    assert (route + search)[|route|..] == search;
  }

  /** As written, a non-empty search comes back with one `?` too many. */
  lemma RefreshAsWrittenDoublesSearch(route: string, search: string, hash: string)
    requires search != "" && search[0] == '?'
    requires '?' !in route && '#' !in route && '#' !in search
    ensures SearchOf(RefreshTarget(route, search, hash)) == "?" + search
  {
    assert RefreshTarget(route, search, hash) == RefreshTargetFixed(route, "?" + search, hash);
    RefreshKeepsSearch(route, "?" + search, hash);
  }

  /** A character absent from `a` is first found in `a + b` where `b` has it first. */
  lemma {:induction false} IndexOfCharAfter(a: string, b: string, c: char)
    requires c !in a
    ensures IndexOfChar(a + b, c) == |a| + IndexOfChar(b, c)
  {
    if a != [] {
      assert (a + b)[1..] == a[1..] + b;
      IndexOfCharAfter(a[1..], b, c);
    } else {
      assert a + b == b;
    }
  }

  /** The path `navigateTo` pushes: the app path joined in front, then the locale code when it is truthy. */
  function NavigateTarget(host: Host, appPath: string, path: string, localeCode: Option<string>): string
  {
    var p := Concat(host, [appPath, path]);
    if localeCode.Some? && localeCode.value != "" then Concat(host, [localeCode.value, p]) else p
  }

  /** The locale `navigateTo` uses: the given one; when none is given (null), the current one if the route had a locale. */
  function EffectiveLocale(given: Option<string>, hasInitial: bool, current: string): Option<string>
  {
    if given.None? && hasInitial then Some(current) else given
  }

  /** The app path of an app name, where an undefined name matches no app. */
  function AppPathOf(apps: AppsList.Registry, app: Option<string>): string
    reads apps
  {
    match app case None => "" case Some(name) => apps.GetAppPath(name)
  }

  /**
   * The `location.pathname` of a pushed path: the text before its first `?` or
   * `#`, which start the search and the hash.
   */
  function PathnameOf(path: string): (p: string)
    ensures |p| <= |path| && p == path[..|p|]
    ensures forall i :: 0 <= i < |p| ==> p[i] != '?' && p[i] != '#'
    ensures |p| < |path| ==> path[|p|] == '?' || path[|p|] == '#'
  {
    if path == [] || path[0] == '?' || path[0] == '#' then []
    else [path[0]] + PathnameOf(path[1..])
  }

  /** A path with no search and no hash is its own pathname. */
  lemma PathnameOfPlain(path: string)
    requires forall i :: 0 <= i < |path| ==> path[i] != '?' && path[i] != '#'
    ensures PathnameOf(path) == path
  {
  }

  /** The pathname ends where the search or the hash begins. */
  lemma PathnameOfSuffix(path: string, rest: string)
    requires forall i :: 0 <= i < |path| ==> path[i] != '?' && path[i] != '#'
    requires rest != [] && (rest[0] == '?' || rest[0] == '#')
    ensures PathnameOf(path + rest) == path
  {
    assert (path + rest)[..|path|] == path;
  }

  class NavigatorState {
    /** `currentFullRoute`: undefined until the first update. */
    var currentFullRoute: Option<string>
    /** `fullRouteWithoutLocaleCode`. */
    var fullRouteWithoutLocaleCode: Option<string>
    /** `previousRoute`: `/` at start. */
    var previousRoute: Option<string>
    /** Every path given to `history.push`, oldest first. */
    var pushed: seq<string>
    /** Whether `initiateNavigator` has installed the history listener, which runs `updateFullRoute` on every push. */
    var listening: bool

    constructor ()
      ensures currentFullRoute == None && fullRouteWithoutLocaleCode == None
      ensures previousRoute == Some("/") && pushed == [] && !listening
    {
      currentFullRoute := None;
      fullRouteWithoutLocaleCode := None;
      previousRoute := Some("/");
      pushed := [];
      listening := false;
    }

    /** `hasInitialLocaleCode()`: false until the first `updateFullRoute`. */
    function HasInitialLocaleCode(): (r: bool)
      reads this
      ensures currentFullRoute.None? && fullRouteWithoutLocaleCode.None? ==> !r
    {
      currentFullRoute != fullRouteWithoutLocaleCode
    }

    /** After `updateFullRoute(route)`, the route had a locale exactly when a locale prefix was stripped from it. */
    lemma UpdatedHasInitialIffStripped(tracker: LocaleTracker, codes: seq<string>, route: string,
                                       before: Option<string>, events: seq<LocaleEvent>, locale: string)
      requires UpdatedTo(tracker, codes, route, before, events, locale)
      ensures HasInitialLocaleCode() <==> StripLocale(route, codes).1.Some?
    {
      StripChangesIffMatched(route, codes);
    }

    /**
     * The state `updateFullRoute(route)` leaves, from the current route before
     * it ran (`before`) and the tracker's events and locale before it ran: the
     * old current route is the previous one, the route is the current one, its
     * locale prefix is removed, and the removed code, if any, is announced.
     */
    predicate UpdatedTo(tracker: LocaleTracker, codes: seq<string>, route: string,
                        before: Option<string>, events: seq<LocaleEvent>, locale: string)
      reads this, tracker
    {
      var stripped := StripLocale(route, codes);
      && previousRoute == before && currentFullRoute == Some(route)
      && fullRouteWithoutLocaleCode == Some(stripped.0)
      && tracker.events == events + (if stripped.1.Some? then [LocaleCodeChange(stripped.1.value, None)] else [])
      && tracker.currentLocale == (if stripped.1.Some? && tracker.subscribed then stripped.1.value else locale)
    }

    /** The route fields and the tracker's events and locale are the given ones. */
    predicate Kept(tracker: LocaleTracker, current: Option<string>, without: Option<string>, previous: Option<string>,
                   events: seq<LocaleEvent>, locale: string)
      reads this, tracker
    {
      && currentFullRoute == current && fullRouteWithoutLocaleCode == without && previousRoute == previous
      && tracker.events == events && tracker.currentLocale == locale
    }

    /** `updateFullRoute(route)`. */
    method UpdateFullRoute(tracker: LocaleTracker, codes: seq<string>, route: string)
      modifies this, tracker
      ensures UpdatedTo(tracker, codes, route, old(currentFullRoute), old(tracker.events), old(tracker.currentLocale))
      ensures pushed == old(pushed) && listening == old(listening) && tracker.subscribed == old(tracker.subscribed)
      ensures HasInitialLocaleCode() <==> StripLocale(route, codes).1.Some?
    {
      previousRoute := currentFullRoute;
      currentFullRoute := Some(route);
      var stripped := StripLocale(route, codes);
      if stripped.1.Some? {
        tracker.Trigger(LocaleCodeChange(stripped.1.value, None));
      }
      fullRouteWithoutLocaleCode := Some(stripped.0);
      StripChangesIffMatched(route, codes);
    }

    /**
     * `goTo(path)`: `history.push(path)`; once the listener is installed, the
     * push runs `updateFullRoute` with the pushed pathname.
     */
    method GoTo(tracker: LocaleTracker, codes: seq<string>, path: string)
      modifies this, tracker
      ensures pushed == old(pushed) + [path]
      ensures listening == old(listening) && tracker.subscribed == old(tracker.subscribed)
      ensures old(listening) ==>
                UpdatedTo(tracker, codes, PathnameOf(path), old(currentFullRoute), old(tracker.events), old(tracker.currentLocale))
      ensures !old(listening) ==>
                Kept(tracker, old(currentFullRoute), old(fullRouteWithoutLocaleCode), old(previousRoute),
                     old(tracker.events), old(tracker.currentLocale))
    {
      pushed := pushed + [path];
      if listening {
        UpdateFullRoute(tracker, codes, PathnameOf(path));
      }
    }

    /** `navigateTo(path, localeCode, app)`: pushes the app- and locale-prefixed path. */
    method NavigateTo(host: Host, tracker: LocaleTracker, apps: AppsList.Registry, codes: seq<string>,
                      path: string, localeCode: Option<string>, app: Option<string>)
      modifies this, tracker
      ensures var target := NavigateTarget(host, AppPathOf(apps, app), path,
                                           EffectiveLocale(localeCode, old(HasInitialLocaleCode()), old(tracker.currentLocale)));
        && pushed == old(pushed) + [target]
        && (old(listening) ==>
              UpdatedTo(tracker, codes, PathnameOf(target), old(currentFullRoute), old(tracker.events), old(tracker.currentLocale)))
        && (!old(listening) ==>
              Kept(tracker, old(currentFullRoute), old(fullRouteWithoutLocaleCode), old(previousRoute),
                   old(tracker.events), old(tracker.currentLocale)))
      ensures listening == old(listening) && tracker.subscribed == old(tracker.subscribed)
    {
      var target := Concat(host, [AppPathOf(apps, app), path]);
      var code := localeCode;
      if code.None? && HasInitialLocaleCode() {
        code := Some(tracker.GetCurrentLocaleCode());
      }
      if code.Some? && code.value != "" {
        target := Concat(host, [code.value, target]);
      }
      GoTo(tracker, codes, target);
    }

    /**
     * `navigateBack(defaultRoute)`: the previous route unchanged, or
     * `navigateTo(defaultRoute)` when it is empty. Once the listener is
     * installed, the previous route is the one the user was on before the
     * latest push.
     */
    method NavigateBack(host: Host, tracker: LocaleTracker, apps: AppsList.Registry, codes: seq<string>, defaultRoute: string)
      modifies this, tracker
      ensures var target := if old(previousRoute).Some? && old(previousRoute).value != "" then old(previousRoute).value
                            else NavigateTarget(host, AppPathOf(apps, apps.currentAppName), defaultRoute,
                                                EffectiveLocale(None, old(HasInitialLocaleCode()), old(tracker.currentLocale)));
        && pushed == old(pushed) + [target]
        && (old(listening) ==>
              UpdatedTo(tracker, codes, PathnameOf(target), old(currentFullRoute), old(tracker.events), old(tracker.currentLocale)))
        && (!old(listening) ==>
              Kept(tracker, old(currentFullRoute), old(fullRouteWithoutLocaleCode), old(previousRoute),
                   old(tracker.events), old(tracker.currentLocale)))
      ensures listening == old(listening) && tracker.subscribed == old(tracker.subscribed)
    {
      if previousRoute.None? || previousRoute.value == "" {
        NavigateTo(host, tracker, apps, codes, defaultRoute, None, apps.currentAppName);
        return;
      }
      GoTo(tracker, codes, previousRoute.value);
    }

    /** `currentRoute()`: the location's path without the locale prefix (of the given current code) and the app base path. */
    function CurrentRoute(host: Host, currentLocale: string, apps: AppsList.Registry, pathname: string): (r: string)
      reads apps
      ensures host.ltrim(pathname, "/" + currentLocale) == "" ==>
                r == host.concatRoute([Some(host.ltrim("/", apps.GetCurrentBseAppPath()))])
      ensures host.ltrim(pathname, "/" + currentLocale) != "" ==>
                r == host.concatRoute([Some(host.ltrim(host.ltrim(pathname, "/" + currentLocale), apps.GetCurrentBseAppPath()))])
    {
      var route := host.ltrim(pathname, "/" + currentLocale);
      var route' := if route != "" then route else "/";
      host.concatRoute([Some(host.ltrim(route', apps.GetCurrentBseAppPath()))])
    }

    /**
     * `refresh()`: pushes the current path with `?` and the location's search
     * text, then `#` and the hash, each only when non-empty. The search text of
     * the location already starts with `?` (see `RefreshDoublesQuestionMark`).
     */
    method Refresh(tracker: LocaleTracker, codes: seq<string>, pathname: string, search: string, hash: string)
      modifies this, tracker
      ensures pushed == old(pushed) + [RefreshTarget(pathname, search, hash)]
      ensures old(listening) ==>
                UpdatedTo(tracker, codes, PathnameOf(RefreshTarget(pathname, search, hash)), old(currentFullRoute),
                          old(tracker.events), old(tracker.currentLocale))
      ensures !old(listening) ==>
                Kept(tracker, old(currentFullRoute), old(fullRouteWithoutLocaleCode), old(previousRoute),
                     old(tracker.events), old(tracker.currentLocale))
      ensures listening == old(listening) && tracker.subscribed == old(tracker.subscribed)
    {
      GoTo(tracker, codes, pathname + (if search != "" then "?" + search else "") + (if hash != "" then "#" + hash else ""));
    }

    /**
     * `switchLang(localeCode)`: announces the new code, then navigates to the
     * current route under it. The announcement comes first, so when the locale
     * subscription is active the prefix `currentRoute()` removes is the NEW code's.
     */
    method SwitchLang(host: Host, tracker: LocaleTracker, apps: AppsList.Registry, codes: seq<string>,
                      pathname: string, localeCode: string)
      modifies this, tracker
      ensures var announced := old(tracker.events) + [LocaleCodeChange(localeCode, None)];
              var locale := if old(tracker.subscribed) then localeCode else old(tracker.currentLocale);
              var target := NavigateTarget(host, AppPathOf(apps, apps.currentAppName),
                                           CurrentRoute(host, locale, apps, pathname), Some(localeCode));
        && pushed == old(pushed) + [target]
        && (old(listening) ==> UpdatedTo(tracker, codes, PathnameOf(target), old(currentFullRoute), announced, locale))
        && (!old(listening) ==>
              Kept(tracker, old(currentFullRoute), old(fullRouteWithoutLocaleCode), old(previousRoute), announced, locale))
      ensures listening == old(listening) && tracker.subscribed == old(tracker.subscribed)
    {
      tracker.Trigger(LocaleCodeChange(localeCode, None));
      var route := CurrentRoute(host, tracker.GetCurrentLocaleCode(), apps, pathname);
      NavigateTo(host, tracker, apps, codes, route, Some(localeCode), apps.currentAppName);
    }

    /** `initiateNavigator()`: installs the history listener and records the initial route (`/` when empty). */
    method Initiate(tracker: LocaleTracker, codes: seq<string>, pathname: string)
      modifies this, tracker
      ensures listening && pushed == old(pushed) && tracker.subscribed == old(tracker.subscribed)
      ensures UpdatedTo(tracker, codes, if pathname != "" then pathname else "/", old(currentFullRoute),
                        old(tracker.events), old(tracker.currentLocale))
    {
      listening := true;
      UpdateFullRoute(tracker, codes, if pathname != "" then pathname else "/");
    }
  }
}
