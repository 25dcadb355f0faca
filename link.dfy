/**
 * The link component of src/components/Link/Link.tsx: the address a link
 * points to, the `href` it renders, which clicks it takes over and sends to
 * the router, its `target`/`rel` attributes, and the link options.
 */
module Link {
  import opened Wrappers
  import opened Foreign
  import opened AbstractRouter
  import Utilities

  /** The props the link reads; `newTab` is false when not given. */
  datatype LinkProps = LinkProps(
    href: Option<string>,
    to: Option<string>,
    email: Option<string>,
    tel: Option<string>,
    newTab: bool,
    localeCode: Option<string>,
    app: Option<string>,
    target: Option<string>,
    rel: Option<string>)

  /** A mouse click: its modifier keys and the button pressed. */
  datatype Click = Click(ctrlKey: bool, metaKey: bool, shiftKey: bool, altKey: bool, button: int)

  /** A string is truthy exactly when it is not empty. */
  predicate Given(s: Option<string>) {
    s.Some? && s.value != ""
  }

  /** `s.startsWith(prefix)` for a one-character prefix. */
  predicate StartsWith(s: string, c: char) {
    |s| > 0 && s[0] == c
  }

  /**
   * The address the link points to: `mailto:` or `tel:` links first, an anchor
   * or a full URL as given, otherwise the path under the app's base path and,
   * when there is one, the locale code. `None` stands for the TypeError thrown
   * when neither `to` nor `href` is given.
   */
  function LinkPath(host: Host, g: Getters, props: LinkProps): (r: Option<string>)
    ensures Given(props.email) ==> r == Some("mailto:" + props.email.value)
    ensures !Given(props.email) && Given(props.tel) ==> r == Some("tel:" + props.tel.value)
  {
    if Given(props.email) then Some("mailto:" + props.email.value)
    else if Given(props.tel) then Some("tel:" + props.tel.value)
    else
      var given := if Given(props.to) then props.to else props.href;
      match given
      case None => None
      case Some(path) =>
        if StartsWith(path, '#') || host.isUrl(path) then Some(path)
        else
          var appName := if Given(props.app) then props.app else g.currentApp;
          var routed := host.concatRoute([AppPath(g, appName), Some(path)]);
          var localeCode := Utilities.NavigateLocale(g, props.localeCode);
          Some(if Given(localeCode) then Concat(host, [localeCode.value, routed]) else routed)
  }

  /** An in-page anchor or a full URL is kept exactly as given; any other path is routed through `concatRoute`. */
  lemma KeptAsGiven(host: Host, g: Getters, props: LinkProps)
    requires !Given(props.email) && !Given(props.tel)
    requires var path := if Given(props.to) then props.to else props.href;
             path.Some? && (StartsWith(path.value, '#') || host.isUrl(path.value))
    ensures LinkPath(host, g, props) == if Given(props.to) then props.to else props.href
  {
  }

  /** Without `email` or `tel`, the link throws (no address) exactly when `to` is not truthy and no `href` is given. */
  lemma NoAddressThrows(host: Host, g: Getters, props: LinkProps)
    requires !Given(props.email) && !Given(props.tel)
    ensures LinkPath(host, g, props).None? <==> !Given(props.to) && props.href.None?
  {
  }

  /** When `to` is not truthy, a non-empty `href` gives the address `to` would have given. */
  lemma HrefFallback(host: Host, g: Getters, props: LinkProps, path: string)
    requires !Given(props.email) && !Given(props.tel) && !Given(props.to)
    requires props.href == Some(path) && path != ""
    ensures LinkPath(host, g, props) == LinkPath(host, g, props.(to := Some(path), href := None))
  {
  }

  /** A path link with no locale code given, and none (or an empty one) in the router, is just the app path joined in front. */
  lemma NoLocalePrefix(host: Host, g: Getters, props: LinkProps, path: string)
    requires !Given(props.email) && !Given(props.tel) && props.to == Some(path) && path != ""
    requires !StartsWith(path, '#') && !host.isUrl(path)
    requires !Given(props.localeCode) && (!g.hasLocaleCode || g.currentLocaleCode == "")
    ensures LinkPath(host, g, props)
            == Some(host.concatRoute([AppPath(g, if Given(props.app) then props.app else g.currentApp), Some(path)]))
  {
  }

  /** A path link names the locale first when one is given, and otherwise when the router has one. */
  lemma LocaleFirst(host: Host, g: Getters, props: LinkProps, path: string)
    requires !Given(props.email) && !Given(props.tel) && props.to == Some(path) && path != ""
    requires !StartsWith(path, '#') && !host.isUrl(path)
    requires Given(props.localeCode) || g.hasLocaleCode
    requires g.hasLocaleCode && !Given(props.localeCode) ==> g.currentLocaleCode != ""
    ensures var code := if Given(props.localeCode) then props.localeCode.value else g.currentLocaleCode;
            LinkPath(host, g, props)
              == Some(Concat(host, [code, host.concatRoute([AppPath(g, if Given(props.app) then props.app else g.currentApp), Some(path)])]))
  {
  }

  /** The rendered `href`: the router's base path is put in front of a path starting with `/`, and only of those. */
  function RenderedHref(host: Host, g: Getters, path: string): (href: string)
    ensures !StartsWith(path, '/') ==> href == path
    ensures StartsWith(path, '/') ==> href == Concat(host, [g.basePath, path])
  {
    if StartsWith(path, '/') then Concat(host, [g.basePath, path]) else path
  }

  /** The `target` and `rel` the link renders with: a new tab only when no target is given, and `rel` guarding every `_blank` target. */
  function TargetAndRel(props: LinkProps): (r: (Option<string>, Option<string>))
    ensures Given(props.target) ==> r.0 == props.target
    ensures props.newTab && !Given(props.target) ==> r.0 == Some("_blank")
    ensures !props.newTab ==> r.0 == props.target
    ensures r.0 == Some("_blank") ==> r.1 == Some("noopener noreferrer")
    ensures r.0 != Some("_blank") ==> r.1 == props.rel
  {
    var target := if props.newTab && !Given(props.target) then Some("_blank") else props.target;
    (target, if target == Some("_blank") then Some("noopener noreferrer") else props.rel)
  }

  /** The click handler takes a click over exactly when the target is not `_blank`, no modifier is held, the button is not the middle one, and the path starts with `/`. */
  predicate Intercepts(target: Option<string>, e: Click, path: string) {
    !(target == Some("_blank") || e.ctrlKey || e.metaKey || e.shiftKey || e.altKey || e.button == 1)
    && StartsWith(path, '/')
  }

  /**
   * The click handler, run on the link as rendered: an intercepted click is
   * prevented and the path (without the base path) is handed to the router.
   */
  method OnClick(router: Router, target: Option<string>, e: Click, path: string) returns (prevented: bool)
    modifies router
    ensures prevented == Intercepts(target, e, path)
    ensures prevented ==> router.trace == old(router.trace) + [GoTo(path, None)]
    ensures !prevented ==> router.trace == old(router.trace)
    ensures router.getters == old(router.getters) && router.activeRoute == old(router.activeRoute)
  {
    if target == Some("_blank") || e.ctrlKey || e.metaKey || e.shiftKey || e.altKey || e.button == 1 {
      return false;
    }
    prevented := false;
    if StartsWith(path, '/') {
      prevented := true;
      router.Record(GoTo(path, None));
    }
  }

  /** A link asked to open in a new tab, with no target of its own, is never taken over by the router. */
  lemma NewTabNotIntercepted(props: LinkProps, e: Click, path: string)
    requires props.newTab && !Given(props.target)
    ensures !Intercepts(TargetAndRel(props).0, e, path)
  {
  }

  /** `mailto:` and `tel:` links are left to the browser. */
  lemma SchemeLinksNotIntercepted(host: Host, g: Getters, props: LinkProps, e: Click)
    requires Given(props.email) || Given(props.tel)
    ensures !Intercepts(TargetAndRel(props).0, e, LinkPath(host, g, props).value)
  {
  }

  class LinkOptions {
    /** `linkOptions`: each option by name; `component` is `"a"` at start. */
    var options: map<string, string>

    constructor ()
      ensures options == map["component" := "a"]
    {
      options := map["component" := "a"];
    }

    /** `setLinkOptions(options)`: the given options replace the current ones key by key. */
    method SetLinkOptions(given: map<string, string>)
      modifies this
      ensures forall k :: k in given ==> k in options && options[k] == given[k]
      ensures forall k :: k !in given && k in old(options) ==> k in options && options[k] == old(options)[k]
      ensures options.Keys == old(options).Keys + given.Keys
    {
      options := options + given;
    }
  }
}
