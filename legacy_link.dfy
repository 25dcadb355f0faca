/**
 * The link component of the older router generation, src/components/Link.tsx,
 * with its `MailLink`, `TelLink` and `ExternalLink` variants: the address and
 * the relative flag it computes, its `target`/`rel` attributes, and whether it
 * renders a plain anchor or a react-router link.
 */
module LegacyLink {
  import opened Wrappers
  import opened Foreign
  import AppsList
  import Navigator
  import DetectLocaleChange

  /** The props the link reads; each is absent (`None`) or given. */
  datatype Props = Props(
    to: Option<string>,
    href: Option<string>,
    newTab: Option<bool>,
    localeCode: Option<string>,
    mailTo: Option<string>,
    tel: Option<string>,
    relative: Option<bool>,
    app: Option<string>,
    target: Option<string>,
    rel: Option<string>)

  /** What the link renders: a plain anchor, or a react-router link to a path. */
  datatype Element =
    | Anchor(href: string, target: Option<string>, rel: Option<string>)
    | RouterLink(to: string, linkTarget: Option<string>, linkRel: Option<string>)

  /** A string prop is truthy exactly when it is given and not empty. */
  predicate Given(s: Option<string>) {
    s.Some? && s.value != ""
  }

  /**
   * The `[path, relative]` pair: a `mailto:` or `tel:` address, or a full URL,
   * is never relative; any other address is the app path joined in front, then
   * the locale code (the given one, or the current one when the route had one),
   * and is relative unless the props say otherwise.
   */
  function PathAndRelative(host: Host, apps: AppsList.Registry, nav: Navigator.NavigatorState,
                           tracker: DetectLocaleChange.LocaleTracker, props: Props): (r: (string, bool))
    reads apps, nav, tracker
    ensures Given(props.mailTo) ==> r == ("mailto:" + props.mailTo.value, false)
    ensures !Given(props.mailTo) && Given(props.tel) ==> r == ("tel:" + props.tel.value, false)
  {
    if Given(props.mailTo) then ("mailto:" + props.mailTo.value, false)
    else if Given(props.tel) then ("tel:" + props.tel.value, false)
    else
      var anchorHref := if Given(props.href) then props.href.value else if Given(props.to) then props.to.value else "";
      if host.isUrlLib(anchorHref) then (anchorHref, false)
      else
        var localeCode :=
          if !Given(props.localeCode) && nav.HasInitialLocaleCode() then Some(tracker.GetCurrentLocaleCode())
          else props.localeCode;
        var app := if props.app.Some? then props.app else apps.currentAppName;
        var path := Concat(host, [Navigator.AppPathOf(apps, app), anchorHref]);
        var path' := if Given(localeCode) then Concat(host, [localeCode.value, path]) else path;
        (Concat(host, [path']), props.relative.GetOr(true))
  }

  /** An address that is not `mailto:`, `tel:` or a URL is relative exactly when the `relative` prop is not `false`. */
  lemma RelativeUnlessSaid(host: Host, apps: AppsList.Registry, nav: Navigator.NavigatorState,
                           tracker: DetectLocaleChange.LocaleTracker, props: Props)
    requires !Given(props.mailTo) && !Given(props.tel)
    requires !host.isUrlLib(if Given(props.href) then props.href.value else if Given(props.to) then props.to.value else "")
    ensures PathAndRelative(host, apps, nav, tracker, props).1 <==> props.relative != Some(false)
  {
  }

  /** With a locale code given, any other address is the app path joined in front, then that locale code. */
  lemma GivenLocalePrefixed(host: Host, apps: AppsList.Registry, nav: Navigator.NavigatorState,
                            tracker: DetectLocaleChange.LocaleTracker, props: Props)
    requires !Given(props.mailTo) && !Given(props.tel) && Given(props.localeCode)
    requires !host.isUrlLib(if Given(props.href) then props.href.value else if Given(props.to) then props.to.value else "")
    ensures var anchorHref := if Given(props.href) then props.href.value else if Given(props.to) then props.to.value else "";
            var appPath := Navigator.AppPathOf(apps, if props.app.Some? then props.app else apps.currentAppName);
            PathAndRelative(host, apps, nav, tracker, props).0
              == Concat(host, [Concat(host, [props.localeCode.value, Concat(host, [appPath, anchorHref])])])
  {
  }

  /**
   * With no locale code given, a navigator that started under a locale code
   * makes the current locale code the prefix; an empty current code adds none.
   */
  lemma CurrentLocaleFallback(host: Host, apps: AppsList.Registry, nav: Navigator.NavigatorState,
                              tracker: DetectLocaleChange.LocaleTracker, props: Props)
    requires !Given(props.mailTo) && !Given(props.tel) && !Given(props.localeCode) && nav.HasInitialLocaleCode()
    requires !host.isUrlLib(if Given(props.href) then props.href.value else if Given(props.to) then props.to.value else "")
    ensures var anchorHref := if Given(props.href) then props.href.value else if Given(props.to) then props.to.value else "";
            var appPath := Navigator.AppPathOf(apps, if props.app.Some? then props.app else apps.currentAppName);
            var code := tracker.GetCurrentLocaleCode();
            PathAndRelative(host, apps, nav, tracker, props).0
              == if code != "" then Concat(host, [Concat(host, [code, Concat(host, [appPath, anchorHref])])])
                 else Concat(host, [Concat(host, [appPath, anchorHref])])
  {
  }

  /** With no locale code given and none at the navigator's start, the address carries no locale prefix. */
  lemma NoLocaleNoPrefix(host: Host, apps: AppsList.Registry, nav: Navigator.NavigatorState,
                         tracker: DetectLocaleChange.LocaleTracker, props: Props)
    requires !Given(props.mailTo) && !Given(props.tel) && !Given(props.localeCode) && !nav.HasInitialLocaleCode()
    requires !host.isUrlLib(if Given(props.href) then props.href.value else if Given(props.to) then props.to.value else "")
    ensures var anchorHref := if Given(props.href) then props.href.value else if Given(props.to) then props.to.value else "";
            var appPath := Navigator.AppPathOf(apps, if props.app.Some? then props.app else apps.currentAppName);
            PathAndRelative(host, apps, nav, tracker, props).0 == Concat(host, [Concat(host, [appPath, anchorHref])])
  {
  }

  /** A full URL is used as given, `href` taking precedence over `to`. */
  lemma UrlKept(host: Host, apps: AppsList.Registry, nav: Navigator.NavigatorState,
                tracker: DetectLocaleChange.LocaleTracker, props: Props, url: string)
    requires !Given(props.mailTo) && !Given(props.tel)
    requires props.href == Some(url) && url != "" && host.isUrlLib(url)
    ensures PathAndRelative(host, apps, nav, tracker, props) == (url, false)
  {
  }

  /** The `target` and `rel` rendered: `newTab` forces `_blank` over any given target, and every `_blank` target gets `rel`. */
  function TargetAndRel(props: Props): (r: (Option<string>, Option<string>))
    ensures props.newTab == Some(true) ==> r.0 == Some("_blank")
    ensures props.newTab != Some(true) ==> r.0 == props.target
    ensures r.0 == Some("_blank") ==> r.1 == Some("noopener noreferrer")
    ensures r.0 != Some("_blank") ==> r.1 == props.rel
  {
    var target := if props.newTab.GetOr(false) then Some("_blank") else props.target;
    (target, if target == Some("_blank") then Some("noopener noreferrer") else props.rel)
  }

  /** The rendered element: a plain anchor when the address is not relative or is `mailto:`/`tel:`, otherwise a router link. */
  function Render(host: Host, apps: AppsList.Registry, nav: Navigator.NavigatorState,
                  tracker: DetectLocaleChange.LocaleTracker, props: Props): (e: Element)
    reads apps, nav, tracker
    ensures e.Anchor? <==> !PathAndRelative(host, apps, nav, tracker, props).1 || Given(props.mailTo) || Given(props.tel)
    ensures e.Anchor? ==> e.href == PathAndRelative(host, apps, nav, tracker, props).0
    ensures e.RouterLink? ==> e.to == PathAndRelative(host, apps, nav, tracker, props).0
  {
    var (path, relative) := PathAndRelative(host, apps, nav, tracker, props);
    var (target, rel) := TargetAndRel(props);
    if !relative || Given(props.mailTo) || Given(props.tel) then Anchor(path, target, rel)
    else RouterLink(path, target, rel)
  }

  /** `mailto:`, `tel:` and URL links always render as plain anchors. */
  lemma SchemeLinksAreAnchors(host: Host, apps: AppsList.Registry, nav: Navigator.NavigatorState,
                              tracker: DetectLocaleChange.LocaleTracker, props: Props)
    requires Given(props.mailTo) || Given(props.tel)
             || host.isUrlLib(if Given(props.href) then props.href.value else if Given(props.to) then props.to.value else "")
    ensures Render(host, apps, nav, tracker, props).Anchor?
  {
  }

  /** `MailLink`: the `to` prop becomes the `mailTo` address. */
  function MailLinkProps(props: Props): (p: Props)
    ensures p.mailTo == props.to && p.to == None
  {
    props.(mailTo := props.to, to := None)
  }

  /** `TelLink`: the `to` prop becomes the `tel` number. */
  function TelLinkProps(props: Props): (p: Props)
    ensures p.tel == props.to && p.to == None
  {
    props.(tel := props.to, to := None)
  }

  /** A mail link with an address renders a `mailto:` anchor to it. */
  lemma MailLinkIsMailto(host: Host, apps: AppsList.Registry, nav: Navigator.NavigatorState,
                         tracker: DetectLocaleChange.LocaleTracker, props: Props, address: string)
    requires props.to == Some(address) && address != ""
    ensures Render(host, apps, nav, tracker, MailLinkProps(props)).Anchor?
    ensures Render(host, apps, nav, tracker, MailLinkProps(props)).href == "mailto:" + address
  {
  }

  /** A telephone link with a number and no mail address renders a `tel:` anchor to it. */
  lemma TelLinkIsTel(host: Host, apps: AppsList.Registry, nav: Navigator.NavigatorState,
                     tracker: DetectLocaleChange.LocaleTracker, props: Props, number: string)
    requires props.to == Some(number) && number != "" && !Given(props.mailTo)
    ensures Render(host, apps, nav, tracker, TelLinkProps(props)).Anchor?
    ensures Render(host, apps, nav, tracker, TelLinkProps(props)).href == "tel:" + number
  {
  }

  /**
   * `ExternalLink` as written: its misspelt `newTa` attribute is not the
   * `newTab` prop, so only `relative` is overridden.
   */
  function ExternalLinkProps(props: Props): (p: Props)
    ensures p.relative == Some(false)
    ensures p.newTab == props.newTab
  {
    props.(relative := Some(false))
  }

  /** As written, an external link given no `newTab` and no `target` opens in the same tab, without `rel`. */
  lemma ExternalLinkStaysInTab(props: Props)
    requires props.newTab.None? && props.target.None? && props.rel.None?
    ensures TargetAndRel(ExternalLinkProps(props)) == (None, None)
  {
  }

  /** `ExternalLink` as intended: `newTab` on unless the caller says otherwise, then the props, then `relative={false}`. */
  function ExternalLinkPropsFixed(props: Props): (p: Props)
    ensures p.relative == Some(false)
    ensures props.newTab.None? ==> p.newTab == Some(true)
    ensures props.newTab.Some? ==> p.newTab == props.newTab
  {
    props.(newTab := Some(props.newTab.GetOr(true)), relative := Some(false))
  }

  /** An external link, as intended, renders a plain anchor in a new tab with `rel="noopener noreferrer"` unless the caller turns `newTab` off. */
  lemma ExternalLinkOpensNewTab(host: Host, apps: AppsList.Registry, nav: Navigator.NavigatorState,
                                tracker: DetectLocaleChange.LocaleTracker, props: Props)
    requires props.newTab != Some(false)
    ensures var e := Render(host, apps, nav, tracker, ExternalLinkPropsFixed(props));
            e.Anchor? && e.target == Some("_blank") && e.rel == Some("noopener noreferrer")
  {
  }
}
