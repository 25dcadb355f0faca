/**
 * The app and module registry of src/apps-list.ts: the list of app base paths,
 * the map from entry route to module, the registered apps, and the current app.
 */
module AppsList {
  import opened Wrappers
  import opened Foreign
  import Lists

  /** A dynamic `import()` of the given module specifier. */
  datatype Loader = Import(specifier: string)

  /** `Module`: a module name, its entry routes, its owning app and its loaders. */
  datatype ModuleInfo = ModuleInfo(
    moduleName: string,
    entry: Option<seq<string>>,
    app: Option<string>,
    loadModule: Option<Loader>,
    loadApp: Option<Loader>)

  /** `App`: a name, a base path, an optional dynamic-route module and the modules. */
  datatype App = App(name: string, path: string, dynamicRouteModule: Option<string>, modules: seq<ModuleInfo>)

  /** A string is truthy exactly when it is not empty. */
  predicate Truthy(s: string) { s != "" }

  /** `setModuleLoaders`: the module and app providers of the owning app. */
  function WithLoaders(m: ModuleInfo, app: string): (r: ModuleInfo)
    ensures r.moduleName == m.moduleName && r.entry == m.entry && r.app == m.app
    ensures r.loadModule == Some(Import("apps/" + app + "/" + m.moduleName + "/provider"))
    ensures r.loadApp == Some(Import("apps/" + app + "/" + app + "-provider"))
  {
    m.(loadModule := Some(Import("apps/" + app + "/" + m.moduleName + "/provider")),
       loadApp := Some(Import("apps/" + app + "/" + app + "-provider")))
  }

  /** `(moduleInfo.entry || []).map(route => concatRoute(path, route))`. */
  function PrefixEntries(host: Host, path: string, entry: Option<seq<string>>): (r: seq<string>)
    ensures |r| == |entry.GetOr([])|
    ensures forall k :: 0 <= k < |r| ==> r[k] == Concat(host, [path, entry.GetOr([])[k]])
  {
    var routes := entry.GetOr([]);
    seq(|routes|, k requires 0 <= k < |routes| => Concat(host, [path, routes[k]]))
  }

  /** A module as `setApps` leaves it: owned by the app, with loaders, entries under the app path. */
  function RegisterModule(host: Host, a: App, m: ModuleInfo): (r: ModuleInfo)
    ensures r.moduleName == m.moduleName && r.app == Some(a.name)
    ensures r.entry == Some(PrefixEntries(host, a.path, m.entry))
    ensures r.loadApp.Some? && r.loadModule.Some?
  {
    WithLoaders(m.(app := Some(a.name)), a.name).(entry := Some(PrefixEntries(host, a.path, m.entry)))
  }

  /** An app whose modules have all been registered. */
  function RegisterApp(host: Host, a: App): (r: App)
    ensures r.name == a.name && r.path == a.path && r.dynamicRouteModule == a.dynamicRouteModule
    ensures |r.modules| == |a.modules|
    ensures forall j :: 0 <= j < |a.modules| ==> r.modules[j] == RegisterModule(host, a, a.modules[j])
  {
    a.(modules := seq(|a.modules|, j requires 0 <= j < |a.modules| => RegisterModule(host, a, a.modules[j])))
  }

  /** The truthy base paths of the apps, in order. */
  function TruthyPaths(apps: seq<App>): seq<string> {
    if apps == [] then []
    else TruthyPaths(apps[..|apps| - 1]) + (if Truthy(apps[|apps| - 1].path) then [apps[|apps| - 1].path] else [])
  }

  /** Every module of the apps, app by app, in order. */
  function AllModules(apps: seq<App>): seq<ModuleInfo> {
    if apps == [] then [] else AllModules(apps[..|apps| - 1]) + apps[|apps| - 1].modules
  }

  /** `modulesList[entryRoute] = moduleInfo` for each entry route in turn. */
  function AddEntries(ml: map<string, ModuleInfo>, entries: seq<string>, m: ModuleInfo): map<string, ModuleInfo> {
    if entries == [] then ml else AddEntries(ml, entries[..|entries| - 1], m)[entries[|entries| - 1] := m]
  }

  /** Each module in turn adds all its (already rewritten) entries. */
  function AddModules(ml: map<string, ModuleInfo>, mods: seq<ModuleInfo>): map<string, ModuleInfo> {
    if mods == [] then ml
    else AddEntries(AddModules(ml, mods[..|mods| - 1]), mods[|mods| - 1].entry.GetOr([]), mods[|mods| - 1])
  }

  /** The apps of a `setApps` call, every module registered. */
  function Registered(host: Host, apps: seq<App>): (r: seq<App>)
    ensures |r| == |apps|
    ensures forall i :: 0 <= i < |apps| ==> r[i] == RegisterApp(host, apps[i])
  {
    seq(|apps|, i requires 0 <= i < |apps| => RegisterApp(host, apps[i]))
  }

  // ---------------------------------------------------------------- properties of the registry

  /** Adding entries for one module maps exactly those entries to it and leaves every other key alone. */
  lemma {:induction false} AddEntriesMaps(ml: map<string, ModuleInfo>, entries: seq<string>, m: ModuleInfo, k: string)
    ensures k in entries ==> k in AddEntries(ml, entries, m) && AddEntries(ml, entries, m)[k] == m
    ensures k !in entries ==> (k in AddEntries(ml, entries, m) <==> k in ml)
    ensures k !in entries && k in ml ==> AddEntries(ml, entries, m)[k] == ml[k]
  {
    if entries != [] {
      var front := entries[..|entries| - 1];
      AddEntriesMaps(ml, front, m, k);
      assert entries == front + [entries[|entries| - 1]];
    }
  }

  /**
   * In `modulesList`, an entry route belongs to the LAST module that lists it;
   * a route no module lists keeps its earlier module, if any.
   */
  lemma {:induction false} AddModulesLastWins(ml: map<string, ModuleInfo>, mods: seq<ModuleInfo>, k: string, j: nat)
    requires j < |mods| && k in mods[j].entry.GetOr([])
    requires forall j' :: j < j' < |mods| ==> k !in mods[j'].entry.GetOr([])
    ensures k in AddModules(ml, mods) && AddModules(ml, mods)[k] == mods[j]
  {
    var last := mods[|mods| - 1];
    AddEntriesMaps(AddModules(ml, mods[..|mods| - 1]), last.entry.GetOr([]), last, k);
    if j < |mods| - 1 {
      AddModulesLastWins(ml, mods[..|mods| - 1], k, j);
    }
  }

  /** A route that no module lists is untouched by the registration. */
  lemma {:induction false} AddModulesUnlisted(ml: map<string, ModuleInfo>, mods: seq<ModuleInfo>, k: string)
    requires forall j :: 0 <= j < |mods| ==> k !in mods[j].entry.GetOr([])
    ensures k in AddModules(ml, mods) <==> k in ml
    ensures k in ml ==> AddModules(ml, mods)[k] == ml[k]
  {
    if mods != [] {
      var last := mods[|mods| - 1];
      AddModulesUnlisted(ml, mods[..|mods| - 1], k);
      AddEntriesMaps(AddModules(ml, mods[..|mods| - 1]), last.entry.GetOr([]), last, k);
    }
  }

  /** Registering module after module is registering the concatenation. */
  lemma {:induction false} AddModulesAppend(ml: map<string, ModuleInfo>, a: seq<ModuleInfo>, b: seq<ModuleInfo>)
    ensures AddModules(ml, a + b) == AddModules(AddModules(ml, a), b)
    decreases |b|
  {
    if b == [] {
      assert a + b == a;
    } else {
      var b' := b[..|b| - 1];
      assert (a + b)[..|a + b| - 1] == a + b';
      AddModulesAppend(ml, a, b');
    }
  }

  /** The flat module list of the first `i + 1` apps. */
  lemma AllModulesStep(apps: seq<App>, i: nat)
    requires i < |apps|
    ensures AllModules(apps[..i + 1]) == AllModules(apps[..i]) + apps[i].modules
  {
    assert apps[..i + 1][..i] == apps[..i];
  }

  /** The truthy paths of the first `i + 1` apps. */
  lemma TruthyPathsStep(apps: seq<App>, i: nat)
    requires i < |apps|
    ensures TruthyPaths(apps[..i + 1]) == TruthyPaths(apps[..i]) + (if Truthy(apps[i].path) then [apps[i].path] else [])
  {
    assert apps[..i + 1][..i] == apps[..i];
  }

  /** What the outer `setApps` loop knows after the first `i` apps. */
  ghost predicate SetAppsLoop(host: Host, apps: seq<App>, i: nat, done: seq<App>,
                              appsList0: seq<string>, modulesList0: map<string, ModuleInfo>,
                              appsList: seq<string>, modulesList: map<string, ModuleInfo>) {
    && i <= |apps|
    && done == Registered(host, apps[..i])
    && appsList == appsList0 + TruthyPaths(apps[..i])
    && modulesList == AddModules(modulesList0, AllModules(done))
  }

  /** One turn of the outer `setApps` loop: the app registered, its path and its modules' entries added. */
  lemma SetAppsStep(host: Host, apps: seq<App>, i: nat, done: seq<App>,
                    appsList0: seq<string>, modulesList0: map<string, ModuleInfo>,
                    appsList: seq<string>, modulesList: map<string, ModuleInfo>, mods: seq<ModuleInfo>)
    requires i < |apps| && SetAppsLoop(host, apps, i, done, appsList0, modulesList0, appsList, modulesList)
    requires mods == RegisterApp(host, apps[i]).modules
    ensures SetAppsLoop(host, apps, i + 1, done + [apps[i].(modules := mods)], appsList0, modulesList0,
                        appsList + (if Truthy(apps[i].path) then [apps[i].path] else []), AddModules(modulesList, mods))
  {
    var next := done + [apps[i].(modules := mods)];
    assert next == Registered(host, apps[..i + 1]) by {
      RegisteredStep(host, apps, i);
    }
    assert appsList + (if Truthy(apps[i].path) then [apps[i].path] else []) == appsList0 + TruthyPaths(apps[..i + 1]) by {
      TruthyPathsStep(apps, i);
    }
    assert AddModules(modulesList, mods) == AddModules(modulesList0, AllModules(next)) by {
      assert AllModules(next) == AllModules(done) + mods by {
        assert next[..|next| - 1] == done;
      }
      AddModulesAppend(modulesList0, AllModules(done), mods);
    }
  }

  /** Registering one more app appends its registered form. */
  lemma RegisteredStep(host: Host, apps: seq<App>, i: nat)
    requires i < |apps|
    ensures Registered(host, apps[..i + 1]) == Registered(host, apps[..i]) + [RegisterApp(host, apps[i])]
  {
  }

  /** Every truthy app path, and only those, ends up in the list, in input order. */
  lemma {:induction false} TruthyPathsExact(apps: seq<App>, s: string)
    ensures s in TruthyPaths(apps) <==> Truthy(s) && exists i :: 0 <= i < |apps| && apps[i].path == s
  {
    if apps != [] {
      var front := apps[..|apps| - 1];
      TruthyPathsExact(front, s);
      if s in TruthyPaths(apps) && s !in TruthyPaths(front) {
        assert apps[|apps| - 1].path == s;
      }
      if Truthy(s) && (exists i :: 0 <= i < |apps| && apps[i].path == s) {
        var i :| 0 <= i < |apps| && apps[i].path == s;
        if i < |apps| - 1 { assert front[i].path == s; }
      }
    }
  }

  // ---------------------------------------------------------------- the registry state

  class Registry {
    /** `appsList`: every app base path ever added. */
    var appsList: seq<string>
    /** `modulesList`: entry route to module. */
    var modulesList: map<string, ModuleInfo>
    /** `allApps`. */
    var allApps: seq<App>
    /** `currentBaseAppPath`. */
    var currentBaseAppPath: string
    /** `currentAppName`: undefined until an app path is set. */
    var currentAppName: Option<string>

    /** The module's initial state. */
    constructor ()
      ensures appsList == [] && modulesList == map[] && allApps == []
      ensures currentBaseAppPath == "/" && currentAppName == None
    {
      appsList := [];
      modulesList := map[];
      allApps := [];
      currentBaseAppPath := "/";
      currentAppName := None;
    }

    /** `addBaseAppPath(path)`. */
    method AddBaseAppPath(path: string)
      modifies this
      ensures appsList == old(appsList) + [path]
      ensures modulesList == old(modulesList) && allApps == old(allApps)
      ensures currentBaseAppPath == old(currentBaseAppPath) && currentAppName == old(currentAppName)
    {
      appsList := appsList + [path];
    }

    /** `getAppPath(appName)`: the path of the first app with that name, or `""`. */
    function GetAppPath(appName: string): (r: string)
      reads this
      ensures (forall i :: 0 <= i < |allApps| ==> allApps[i].name != appName) ==> r == ""
      ensures forall i :: (0 <= i < |allApps| && allApps[i].name == appName
                && (forall j :: 0 <= j < i ==> allApps[j].name != appName)) ==> r == allApps[i].path
    {
      match Lists.Find(allApps, (a: App) => a.name == appName)
      case None => ""
      case Some(a) => if Truthy(a.path) then a.path else ""
    }

    /** `setCurrentBseAppPath(path)`: the normalised path, and the name of the first app at that path. */
    method SetCurrentBseAppPath(host: Host, path: Option<string>)
      modifies this
      ensures currentBaseAppPath == host.concatRoute([path])
      ensures currentAppName == AppNameAt(allApps, currentBaseAppPath)
      ensures appsList == old(appsList) && modulesList == old(modulesList) && allApps == old(allApps)
    {
      currentBaseAppPath := host.concatRoute([path]);
      currentAppName := AppNameAt(allApps, currentBaseAppPath);
    }

    /** `setApps(apps)`: registers every app, its base path and its modules' entries. */
    method SetApps(host: Host, apps: seq<App>)
      modifies this
      ensures allApps == Registered(host, apps)
      ensures appsList == old(appsList) + TruthyPaths(apps)
      ensures modulesList == AddModules(old(modulesList), AllModules(Registered(host, apps)))
      ensures currentBaseAppPath == old(currentBaseAppPath) && currentAppName == old(currentAppName)
    {
      var done: seq<App> := [];
      var i := 0;
      while i < |apps|
        invariant SetAppsLoop(host, apps, i, done, old(appsList), old(modulesList), appsList, modulesList)
        invariant currentBaseAppPath == old(currentBaseAppPath) && currentAppName == old(currentAppName)
      {
        var app := apps[i];
        SetAppsStep(host, apps, i, done, old(appsList), old(modulesList), appsList, modulesList,
                    RegisterApp(host, app).modules);
        if Truthy(app.path) {
          AddBaseAppPath(app.path);
        }
        var mods := RegisterModules(host, app);
        done := done + [app.(modules := mods)];
        i := i + 1;
      }
      assert apps[..i] == apps;
      allApps := done;
    }

    /** The inner loop of `setApps`: each module of one app is registered and its entries mapped. */
    method RegisterModules(host: Host, app: App) returns (mods: seq<ModuleInfo>)
      modifies this
      ensures mods == RegisterApp(host, app).modules
      ensures modulesList == AddModules(old(modulesList), mods)
      ensures appsList == old(appsList) && allApps == old(allApps)
      ensures currentBaseAppPath == old(currentBaseAppPath) && currentAppName == old(currentAppName)
    {
      ghost var reg := RegisterApp(host, app).modules;
      mods := [];
      var j := 0;
      while j < |app.modules|
        invariant 0 <= j <= |app.modules|
        invariant mods == reg[..j]
        invariant modulesList == AddModules(old(modulesList), mods)
        invariant appsList == old(appsList) && allApps == old(allApps)
        invariant currentBaseAppPath == old(currentBaseAppPath) && currentAppName == old(currentAppName)
      {
        var info := WithLoaders(app.modules[j].(app := Some(app.name)), app.name);
        info := info.(entry := Some(PrefixEntries(host, app.path, info.entry)));
        AddModuleEntries(info);
        assert info == reg[j];
        assert (mods + [info])[..|mods|] == mods;
        mods := mods + [info];
        assert mods == reg[..j + 1];
        j := j + 1;
      }
      assert mods == reg;
    }

    /** The innermost loop of `setApps`: every entry route of the module maps to it. */
    method AddModuleEntries(info: ModuleInfo)
      modifies this
      ensures modulesList == AddEntries(old(modulesList), info.entry.GetOr([]), info)
      ensures appsList == old(appsList) && allApps == old(allApps)
      ensures currentBaseAppPath == old(currentBaseAppPath) && currentAppName == old(currentAppName)
    {
      var entries := info.entry.GetOr([]);
      var k := 0;
      while k < |entries|
        invariant 0 <= k <= |entries|
        invariant modulesList == AddEntries(old(modulesList), entries[..k], info)
        invariant appsList == old(appsList) && allApps == old(allApps)
        invariant currentBaseAppPath == old(currentBaseAppPath) && currentAppName == old(currentAppName)
      {
        assert entries[..k + 1][..k] == entries[..k];
        modulesList := modulesList[entries[k] := info];
        k := k + 1;
      }
      assert entries[..k] == entries;
    }

    /** `getCurrentBseAppPath()`. */
    function GetCurrentBseAppPath(): (r: string)
      reads this
      ensures r == currentBaseAppPath
    {
      currentBaseAppPath
    }

    /** `appDynamicRouteModule()`: a fresh module for the first dynamic-route app at the current base path. */
    method AppDynamicRouteModule() returns (r: Option<ModuleInfo>)
      ensures r == DynamicRouteModule(allApps, currentBaseAppPath)
    {
      var current := GetCurrentBseAppPath();
      var i := 0;
      while i < |allApps|
        invariant 0 <= i <= |allApps|
        invariant forall j :: 0 <= j < i ==> !ServesDynamicRoute(allApps[j], current)
      {
        var app := allApps[i];
        if app.dynamicRouteModule.None? || !Truthy(app.dynamicRouteModule.value) {
          i := i + 1;
          continue;
        }
        if current != app.path {
          i := i + 1;
          continue;
        }
        r := Some(WithLoaders(ModuleInfo(app.dynamicRouteModule.value, None, Some(app.name), None, None), app.name));
        return;
      }
      r := None;
    }
  }

  /** The name of the first app whose path is `path`, or undefined. */
  function AppNameAt(apps: seq<App>, path: string): (r: Option<string>)
    ensures r.None? <==> forall i :: 0 <= i < |apps| ==> apps[i].path != path
    ensures forall i :: (0 <= i < |apps| && apps[i].path == path
              && (forall j :: 0 <= j < i ==> apps[j].path != path)) ==> r == Some(apps[i].name)
  {
    match Lists.FirstIndex(apps, (a: App) => a.path == path)
    case None => None
    case Some(i) => Some(apps[i].name)
  }

  /** The app has a truthy dynamic-route module and sits at the given base path. */
  predicate ServesDynamicRoute(a: App, current: string) {
    a.dynamicRouteModule.Some? && Truthy(a.dynamicRouteModule.value) && a.path == current
  }

  /** What `appDynamicRouteModule` returns: `{app, module}` with loaders for the first serving app, or null. */
  function DynamicRouteModule(apps: seq<App>, current: string): (r: Option<ModuleInfo>)
    ensures r.None? <==> forall i :: 0 <= i < |apps| ==> !ServesDynamicRoute(apps[i], current)
    ensures forall i :: (0 <= i < |apps| && ServesDynamicRoute(apps[i], current)
              && (forall j :: 0 <= j < i ==> !ServesDynamicRoute(apps[j], current))) ==>
              r.Some? && r.value.moduleName == apps[i].dynamicRouteModule.value && r.value.app == Some(apps[i].name)
              && r.value.entry.None? && r.value.loadApp.Some? && r.value.loadModule.Some?
  {
    match Lists.FirstIndex(apps, (a: App) => ServesDynamicRoute(a, current))
    case None => None
    case Some(i) =>
      var a := apps[i];
      Some(WithLoaders(ModuleInfo(a.dynamicRouteModule.value, None, Some(a.name), None, None), a.name))
  }
}
