/**
 * The location parser of src/components/Renderer/renderer-helpers.ts: the first
 * three segments of the path name are read as locale code, app base path and
 * route segment, and the current app is switched as a side effect.
 */
module RendererHelpers {
  import opened Wrappers
  import opened Foreign
  import opened Text
  import opened AppsList

  /** `pathname.replace(/^\//, "")`: one leading slash removed, if there is one. */
  function StripLeadingSlash(p: string): (r: string)
    ensures |p| > 0 && p[0] == '/' ==> p == "/" + r
    ensures (|p| == 0 || p[0] != '/') ==> r == p
  {
    if |p| > 0 && p[0] == '/' then p[1..] else p
  }

  /** The `/`-separated segments of the path name after its leading slash. */
  function Segments(pathname: string): (segs: seq<string>)
    ensures |segs| >= 1
  {
    Split(StripLeadingSlash(pathname), '/')
  }

  /** Array destructuring: the `i`-th segment, or `undefined` past the end. */
  function At(segs: seq<string>, i: nat): Option<string> {
    if i < |segs| then Some(segs[i]) else None
  }

  /** `"/" + value`, where an undefined value prints as `undefined`. */
  function SlashPlus(v: Option<string>): string {
    "/" + (match v case None => "undefined" case Some(s) => s)
  }

  /** `value || ""`. */
  function OrEmpty(v: Option<string>): string {
    match v case Some(s) => s case None => ""
  }

  /**
   * What the parser decides: the argument of `setCurrentBseAppPath` when it is
   * called (`None` when it is not), and the segment given to `concatRoute`.
   */
  datatype Classification = Classification(newApp: Option<Option<string>>, segment: Option<string>)

  /** The decision of `firstSegmentOfRoute` for the given locale codes and app paths. */
  function Classify(codes: seq<string>, appsList: seq<string>, pathname: string): Classification {
    ClassifySegments(codes, appsList, Segments(pathname))
  }

  /** The same decision, read from the segments of the path name. */
  function ClassifySegments(codes: seq<string>, appsList: seq<string>, segs: seq<string>): Classification
    requires |segs| >= 1
  {
    var first, second, third := segs[0], At(segs, 1), At(segs, 2);
    if first in codes then
      if SlashPlus(second) in appsList then Classification(Some(second), Some(OrEmpty(third)))
      else Classification(None, Some(OrEmpty(second)))
    else if SlashPlus(Some(first)) in appsList then Classification(Some(Some(first)), second)
    else Classification(None, Some(first))
  }

  /** `isPartOfLazyModules(segment)`: the module registered for that entry route, if any. */
  function IsPartOfLazyModules(reg: Registry, segment: string): (r: Option<ModuleInfo>)
    reads reg
    ensures r.Some? <==> segment in reg.modulesList
    ensures r.Some? ==> r.value == reg.modulesList[segment]
  {
    if segment in reg.modulesList then Some(reg.modulesList[segment]) else None
  }

  /** `firstSegmentOfRoute(location)`: switches the current app when the path names one, and returns the route segment. */
  method FirstSegmentOfRoute(reg: Registry, host: Host, codes: seq<string>, pathname: string) returns (r: string)
    modifies reg
    ensures r == host.concatRoute([Classify(codes, old(reg.appsList), pathname).segment])
    ensures reg.appsList == old(reg.appsList) && reg.modulesList == old(reg.modulesList) && reg.allApps == old(reg.allApps)
    ensures Classify(codes, old(reg.appsList), pathname).newApp.None? ==>
              reg.currentBaseAppPath == old(reg.currentBaseAppPath) && reg.currentAppName == old(reg.currentAppName)
    ensures Classify(codes, old(reg.appsList), pathname).newApp.Some? ==>
              reg.currentBaseAppPath == host.concatRoute([Classify(codes, old(reg.appsList), pathname).newApp.value])
              && reg.currentAppName == AppNameAt(reg.allApps, reg.currentBaseAppPath)
  {
    var segs := Split(StripLeadingSlash(pathname), '/');
    var firstSegment, secondSegment, thirdSegment := segs[0], At(segs, 1), At(segs, 2);
    var segment := Some(firstSegment);
    if firstSegment in codes {
      if SlashPlus(secondSegment) in reg.appsList {
        reg.SetCurrentBseAppPath(host, secondSegment);
        segment := Some(OrEmpty(thirdSegment));
      } else {
        segment := Some(OrEmpty(secondSegment));
      }
    } else if SlashPlus(segment) in reg.appsList {
      segment := secondSegment;
      reg.SetCurrentBseAppPath(host, Some(firstSegment));
    }
    r := host.concatRoute([segment]);
  }

  // ---------------------------------------------------------------- what the parser reads from a path

  /** A path written as `/` followed by slash-free segments splits back into those segments. */
  lemma SegmentsOfJoin(segs: seq<string>)
    requires |segs| >= 1
    requires forall i :: 0 <= i < |segs| ==> '/' !in segs[i]
    ensures Segments("/" + Join(segs, "/")) == segs
  {
    assert StripLeadingSlash("/" + Join(segs, "/")) == Join(segs, "/");
    SplitJoin(segs, '/');
  }

  /** The decision on a path written as `/` followed by slash-free segments is the decision on those segments. */
  lemma ClassifyJoin(codes: seq<string>, appsList: seq<string>, segs: seq<string>)
    requires |segs| >= 1
    requires forall i :: 0 <= i < |segs| ==> '/' !in segs[i]
    ensures Classify(codes, appsList, "/" + Join(segs, "/")) == ClassifySegments(codes, appsList, segs)
  {
    SegmentsOfJoin(segs);
  }

  /**
   * `/<locale>/<app>/<route>/...`: the app becomes current and the route segment is
   * returned; nothing after the third segment is read.
   */
  lemma LocaleThenApp(codes: seq<string>, appsList: seq<string>, segs: seq<string>)
    requires |segs| >= 3 && forall i :: 0 <= i < |segs| ==> '/' !in segs[i]
    requires segs[0] in codes && "/" + segs[1] in appsList
    ensures Classify(codes, appsList, "/" + Join(segs, "/")) == Classification(Some(Some(segs[1])), Some(segs[2]))
  {
    ClassifyJoin(codes, appsList, segs);
    assert At(segs, 1) == Some(segs[1]) && At(segs, 2) == Some(segs[2]);
  }

  /** `/<locale>/<app>` with no third segment: the segment is the empty text, not `undefined`. */
  lemma LocaleThenAppOnly(codes: seq<string>, appsList: seq<string>, locale: string, app: string)
    requires locale in codes && "/" + app in appsList
    requires '/' !in locale && '/' !in app
    ensures Classify(codes, appsList, "/" + Join([locale, app], "/")) == Classification(Some(Some(app)), Some(""))
  {
    ClassifyJoin(codes, appsList, [locale, app]);
  }

  /** `/<locale>/<other>/...` where `<other>` is no app: the current app is kept, `<other>` is returned. */
  lemma LocaleThenRoute(codes: seq<string>, appsList: seq<string>, segs: seq<string>)
    requires |segs| >= 2 && forall i :: 0 <= i < |segs| ==> '/' !in segs[i]
    requires segs[0] in codes && "/" + segs[1] !in appsList
    ensures Classify(codes, appsList, "/" + Join(segs, "/")) == Classification(None, Some(segs[1]))
  {
    ClassifyJoin(codes, appsList, segs);
    assert At(segs, 1) == Some(segs[1]);
  }

  /** `/<locale>` alone: the segment is empty, unless `/undefined` happens to be an app path. */
  lemma LocaleOnly(codes: seq<string>, appsList: seq<string>, locale: string)
    requires locale in codes && '/' !in locale
    ensures "/undefined" !in appsList ==> Classify(codes, appsList, "/" + locale) == Classification(None, Some(""))
    ensures "/undefined" in appsList ==> Classify(codes, appsList, "/" + locale) == Classification(Some(None), Some(""))
  {
    SegmentsOfJoin([locale]);
    assert Join([locale], "/") == locale;
    assert Segments("/" + locale) == [locale];
    assert SlashPlus(None) == "/undefined";
  }

  /**
   * `/<app>/<route>/...` where `<app>` is not a locale code: the app becomes current.
   * Locale codes are looked for only in the first segment, so `/admin/en/users`
   * yields the app `admin` and the segment `en`.
   */
  lemma AppThenRoute(codes: seq<string>, appsList: seq<string>, segs: seq<string>)
    requires |segs| >= 2 && forall i :: 0 <= i < |segs| ==> '/' !in segs[i]
    requires segs[0] !in codes && "/" + segs[0] in appsList
    ensures Classify(codes, appsList, "/" + Join(segs, "/")) == Classification(Some(Some(segs[0])), Some(segs[1]))
  {
    ClassifyJoin(codes, appsList, segs);
    assert At(segs, 1) == Some(segs[1]);
  }

  /** `/<app>` alone: the app becomes current and the segment is `undefined`. */
  lemma AppOnly(codes: seq<string>, appsList: seq<string>, app: string)
    requires app !in codes && "/" + app in appsList && '/' !in app
    ensures Classify(codes, appsList, "/" + app) == Classification(Some(Some(app)), None)
  {
    SegmentsOfJoin([app]);
    assert Join([app], "/") == app;
  }

  /** A first segment that is neither a locale code nor an app is itself the segment; the app is untouched. */
  lemma PlainRoute(codes: seq<string>, appsList: seq<string>, segs: seq<string>)
    requires |segs| >= 1 && forall i :: 0 <= i < |segs| ==> '/' !in segs[i]
    requires segs[0] !in codes && "/" + segs[0] !in appsList
    ensures Classify(codes, appsList, "/" + Join(segs, "/")) == Classification(None, Some(segs[0]))
  {
    ClassifyJoin(codes, appsList, segs);
  }

  /** Only one leading slash is removed: `//x` has an empty first segment. */
  lemma OneSlashStripped(rest: string)
    ensures Segments("//" + rest)[0] == ""
  {
    assert StripLeadingSlash("//" + rest) == "/" + rest;
    assert ("/" + rest)[1..] == rest;
  }
}
