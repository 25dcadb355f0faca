# Route resolution of hassanzohdy/react-router, modelled in Dafny

This project models the route-resolution core of the `react-router` package by
hassanzohdy (TypeScript). That core is the bookkeeping that decides which
locale, app, module and route a browser path addresses, and how links and
navigation build the paths they push. The model covers:

- the URL pattern compiler and its cached matcher (`src/matcher.ts`);
- the location parser (`src/components/Renderer/renderer-helpers.ts`);
- the app and module registry (`src/apps-list.ts`);
- the layout and route registry (`src/routes-list.tsx`);
- the navigation and current-locale state (`src/navigator.ts`, `src/detect-locale-change.ts`);
- both generations of query-string parsers (`src/query-string-parsers.ts`, `src/router/query-string-parsers.ts`);
- the `isNumeric` recogniser (`src/helpers.ts`);
- the navigation helpers over the newer `router` object (`src/utilities.tsx`);
- the decision logic of both renderers (`src/components/RouterWrapper.tsx`, `src/components/Renderer/index.tsx`);
- both link components (`src/components/Link/Link.tsx`, `src/components/Link.tsx`).

Some helpers are called but not defined in the repository: `concatRoute`, `Is.url`, `Is.numeric`,
`decodeURIComponent`, `ltrim`, and `String.prototype.match` with a string pattern. Each is a
function value of `Foreign.Host`, passed in by the caller. Every property is stated relative to
them, and nothing is assumed about how they behave.

The newer `router` object (src/router/router.ts) is not part of this model. `AbstractRouter.Router`
stands in for it and holds three things:

- what its getters answer;
- its `activeRoute`;
- one ordered trace of everything the modelled code asks of the outside world: router calls,
  triggered events, `onLoad` callbacks, cached page content and `window.location.href` assignments.

Module-level mutable state is one class per source file, with the variables as fields:

- `AppsList.Registry`
- `RoutesList.Registry`
- `Navigator.NavigatorState`
- `DetectLocaleChange.LocaleTracker`
- `Matcher.MatchCache`
- `Renderer.RendererState`
- `RouterWrapper.Wrapper`
- `Link.LinkOptions`

The operations that update that state are methods. Each is proved against a function of the old
state, and the lemmas about those functions state what the source promises.

Code in the file layout:

| file | module | models |
|---|---|---|
| wrappers.dfy | Wrappers | `Option` |
| foreign.dfy | Foreign | the helpers the code calls but does not define |
| text.dfy | Text | `split`, `join`, `includes`, `replace` on strings |
| lists.dfy | Lists | `findIndex` and `find` |
| helpers.dfy | Helpers | `isNumeric` |
| matcher.dfy | Matcher | `escapeRx`, `rxForSegment`, `urlPatternMatcher`, `matchUrl` |
| apps_list.dfy | AppsList | the app/module registry |
| renderer_helpers.dfy | RendererHelpers | `firstSegmentOfRoute`, `isPartOfLazyModules` |
| routes_list.dfy | RoutesList | `partOf`, `group`, `addRouter`, `routesList` |
| detect_locale_change.dfy | DetectLocaleChange | the current locale code |
| navigator.dfy | Navigator | the older navigation state |
| query_values.dfy | QueryValues | what the two query parsers share |
| query_string_parsers.dfy | QueryStringParsers | the nested query parser |
| router_query_string_parsers.dfy | RouterQueryStringParsers | the flat query parser |
| abstract_router.dfy | AbstractRouter | the newer `router` object, as abstract state |
| utilities.dfy | Utilities | `navigateTo`, `navigateBack`, `changeLocaleCode`, `refresh` |
| router_wrapper.dfy | RouterWrapper | the newer page controller |
| renderer.dfy | Renderer | the older page controller |
| link.dfy | Link | the newer link component |
| legacy_link.dfy | LegacyLink | the older link component |

## Model

| member | source | states |
|---|---|---|
| Helpers.IsNumeric | src/helpers.ts:8-10 | an accepted text is non-empty, starts with a digit or a sign and ends with a digit |
| Helpers.IsNumericMatchesGrammar | src/helpers.ts:8-10 | the scanner accepts exactly the texts that split into an optional sign, one or more digits, an optional `.`-fraction with at least one digit, and an optional exponent `[Ee][+-]?` with at least one digit, covering the whole text |
| Helpers.ScannerSound | src/helpers.ts:9 | every accepted text splits as the regular expression demands |
| Helpers.NumericAccepted | src/helpers.ts:9 | `42`, `-1.5e+10` and `+0E7` are numeric |
| Helpers.NumericRejected | src/helpers.ts:9 | the empty text, `1.`, `.5`, ` 1`, `1 `, `1e` and `undefined` are not numeric |
| Matcher.EscapeRx | src/matcher.ts:31-32 | the escaped text is never shorter than the input |
| Matcher.EscapeRxRoundTrip | src/matcher.ts:31-32 | reading the escaped text back (dropping each backslash and keeping the character after it) gives the input again |
| Matcher.EscapeRxShape | src/matcher.ts:31-32 | every input character appears in the output, and a special character brings a backslash into it |
| Matcher.EscapeRxAppend | src/matcher.ts:31-32 | escaping works character by character: the escape of a concatenation is the concatenation of the escapes |
| Matcher.EscapeRxChar | src/matcher.ts:31-32 | a special character of `.+*?=^!:${}()[]|/\` becomes a backslash followed by it; any other character is kept as it is |
| Matcher.EscapeRxPlain | src/matcher.ts:31-32 | a text with no special character is its own escape |
| Matcher.RxForSegment | src/matcher.ts:36-40 | `?` is appended exactly when the token is optional; the `(?:\/…)` group is used exactly when it is optional and prefixed; otherwise the body is the single or the repeating capture according to `repeat` |
| Matcher.ExecFrom | src/matcher.ts:43-50 | `groupRx.exec` finds the leftmost token start at or after `lastIndex`, or none when there is none |
| Matcher.ExecAt | src/matcher.ts:43 | a match at `:` takes the whole run of `[A-Za-z0-9_]` characters after it (the next character is not a name character), then one modifier from `?+*` when one follows (with no modifier taken, the next character is not a modifier) |
| Matcher.Assemble | src/matcher.ts:69-70 | the compiled source starts with `^`, ends with `(?:\/)?$`, and the expression is case-insensitive |
| Matcher.TokenizeStep | src/matcher.ts:50-67 | one turn of the loop moves `lastIndex` strictly forward, past the token, and splits off the token with the literal before it |
| Matcher.UrlPatternMatcher | src/matcher.ts:42-71 | the scanning loop returns exactly the compiled form of the pattern |
| Matcher.TokenizeRebuilds | src/matcher.ts:50-69 | the literals, names and modifiers of the tokens, followed by the trailing text, spell the pattern again |
| Matcher.TokenizeWellFormed | src/matcher.ts:43-50 | every key is a non-empty run of name characters with a valid modifier, and no literal hides a token |
| Matcher.TokenizeMaximal | src/matcher.ts:43-50 | no token's name is cut short: the text after each token's name (its modifier, then the rest of the pattern) does not start with a name character, and a token without a modifier is not followed by one |
| Matcher.PrefixStep | src/matcher.ts:59-61 | the slash before an optional token is dropped from the literal exactly when the token is optional, not at index 0, and preceded by `/` |
| Matcher.CompileKeys | src/matcher.ts:43-63 | the keys are exactly the token names, in order of appearance; the tokens and the trailing text spell the pattern again; each name is a non-empty run of name characters that is not cut short, as in `TokenizeMaximal` |
| Matcher.CompileWithoutTokens | src/matcher.ts:69-70 | a pattern without tokens has no keys and compiles to `^` + the escaped pattern + `(?:\/)?$` |
| Matcher.ZipParams | src/matcher.ts:21-24 | the parameter names are exactly the key names |
| Matcher.ZipParamsLastWins | src/matcher.ts:21-24 | each name gets the capture of its last occurrence, so a later duplicate overwrites an earlier one |
| Matcher.MatchCompiled | src/matcher.ts:16-26 | no match gives `[false, null]`; a match gives `[true, params]` with every key mapped to its capture |
| Matcher.MatchCache.constructor | src/matcher.ts:3 | the cache starts empty, with nothing built |
| Matcher.MatchCache.MatchUrl | src/matcher.ts:5-27 | a pattern is built at most once (a cached pattern is not rebuilt), and the result is the match against the cached compiled pattern |
| RendererHelpers.StripLeadingSlash | src/components/Renderer/renderer-helpers.ts:22-23 | exactly one leading slash is removed, and only when there is one |
| RendererHelpers.IsPartOfLazyModules | src/components/Renderer/renderer-helpers.ts:11-13 | the lookup finds a module exactly when the segment is a key of `modulesList`, and returns that module |
| RendererHelpers.FirstSegmentOfRoute | src/components/Renderer/renderer-helpers.ts:21-46 | returns `concatRoute` of the classified segment and switches the current app exactly when the classification names one |
| RendererHelpers.LocaleThenApp | src/components/Renderer/renderer-helpers.ts:31-36 | `/<locale>/<app>/<route>/…` sets the app to the second segment and gives the third |
| RendererHelpers.LocaleThenAppOnly | src/components/Renderer/renderer-helpers.ts:34-36 | `/<locale>/<app>` gives the empty segment, not `undefined` |
| RendererHelpers.LocaleThenRoute | src/components/Renderer/renderer-helpers.ts:37-39 | `/<locale>/<other>/…` keeps the app and gives the second segment |
| RendererHelpers.LocaleOnly | src/components/Renderer/renderer-helpers.ts:31-39 | `/<locale>` alone gives the empty segment; it switches the app to `undefined` only when `/undefined` is an app path |
| RendererHelpers.AppThenRoute | src/components/Renderer/renderer-helpers.ts:40-42 | `/<app>/<route>/…` where `<app>` is no locale sets the app and gives the second segment, so the locale check takes priority |
| RendererHelpers.AppOnly | src/components/Renderer/renderer-helpers.ts:40-42 | `/<app>` alone sets the app and gives `undefined` |
| RendererHelpers.PlainRoute | src/components/Renderer/renderer-helpers.ts:25-45 | a first segment that is neither a locale nor an app is the segment, and the app is untouched |
| RendererHelpers.OneSlashStripped | src/components/Renderer/renderer-helpers.ts:22-24 | only one leading slash is stripped: `//x` has an empty first segment |
| AppsList.WithLoaders | src/apps-list.ts:116-121 | the module loader imports `apps/<app>/<module>/provider` and the app loader `apps/<app>/<app>-provider` |
| AppsList.PrefixEntries | src/apps-list.ts:98-100 | each entry becomes `concatRoute(app.path, entry)`, in order; a missing entry list gives none |
| AppsList.RegisterModule | src/apps-list.ts:94-100 | a registered module belongs to its app by name, has both loaders, and has its entries under the app path |
| AppsList.RegisterApp | src/apps-list.ts:86-106 | an app keeps its name, path and dynamic module, and every module is registered |
| AppsList.Registered | src/apps-list.ts:86-106 | every app of the list is registered, one for one and in order |
| AppsList.AddEntriesMaps | src/apps-list.ts:103-105 | each entry maps to its module, and every other key is left alone |
| AppsList.AddModulesLastWins | src/apps-list.ts:94-105 | an entry listed by several modules maps to the last of them |
| AppsList.AddModulesUnlisted | src/apps-list.ts:94-105 | a route no module lists keeps its old mapping or stays absent |
| AppsList.AddModulesAppend | src/apps-list.ts:94-105 | registering two module lists one after the other maps the routes as registering their concatenation does |
| AppsList.TruthyPathsExact | src/apps-list.ts:89-91 | `appsList` gains exactly the truthy app paths |
| AppsList.Registry.constructor | src/apps-list.ts:4-18 | everything starts empty, the base path is `/`, and no app is current |
| AppsList.Registry.AddBaseAppPath | src/apps-list.ts:25-27 | the path is appended and nothing else changes |
| AppsList.Registry.GetAppPath | src/apps-list.ts:35-37 | the path of the first app with that name, or `""` when there is none |
| AppsList.Registry.SetCurrentBseAppPath | src/apps-list.ts:62-66 | the base path becomes `concatRoute(path)`, and the current app becomes the first app at that path or undefined |
| AppsList.Registry.SetApps | src/apps-list.ts:83-108 | `allApps` holds the registered apps; `appsList` is appended with the truthy paths in input order and never reset; `modulesList` gains every rewritten entry, the last module winning |
| AppsList.Registry.RegisterModules | src/apps-list.ts:94-106 | each module of an app is registered and its entries are mapped, in order |
| AppsList.Registry.AddModuleEntries | src/apps-list.ts:103-105 | every entry route of the module maps to it |
| AppsList.Registry.GetCurrentBseAppPath | src/apps-list.ts:73-75 | returns the current base path |
| AppsList.Registry.AppDynamicRouteModule | src/apps-list.ts:128-149 | the loop returns the dynamic-route module of the first app with a truthy dynamic module at the current base path, or null |
| AppsList.AppNameAt | src/apps-list.ts:64-65 | the name of the first app at that path; undefined exactly when none is there |
| AppsList.DynamicRouteModule | src/apps-list.ts:128-149 | null exactly when no app serves a dynamic route at the base path; otherwise `{app, module}` with loaders for the first that does |
| RoutesList.LocaleGroup | src/routes-list.tsx:71-77 | `/:localeCode(c1\|…)?` exactly when the joined codes are non-empty, and `""` otherwise |
| RoutesList.Localized | src/routes-list.tsx:74-80 | each path becomes `concatRoute(localeGroup, currentAppBasePath, path)`, in order, and nothing else changes |
| RoutesList.GroupRoutes | src/routes-list.tsx:100-110 | group middleware replaces a route's own middleware, and the group path prefixes each path |
| RoutesList.Tag | src/routes-list.tsx:120-123 | each route is tagged with its layout's component and nothing else changes |
| RoutesList.Registry.constructor | src/routes-list.tsx:24 | no layout is registered at start |
| RoutesList.PartOfGrowth | src/routes-list.tsx:54-68 | the layout list grows by one exactly when no layout has the component, and by none otherwise |
| RoutesList.PartOfAppends | src/routes-list.tsx:82-87 | the layout's routes become old ++ new and its path list gains the new paths in order; other layouts are untouched |
| RoutesList.PartOfWellFormed | src/routes-list.tsx:53-88 | no two layouts share a component, and each path list is its routes' paths |
| RoutesList.AllRoutesCount | src/routes-list.tsx:117-125 | `routesList()` has as many routes as all layouts together |
| RoutesList.AllRoutesAt | src/routes-list.tsx:117-125 | `routesList()` lists each layout's tagged routes in order, after those of earlier layouts |
| RoutesList.Registry.PartOf | src/routes-list.tsx:53-88 | the layouts become `PartOfLayouts` of the localized routes, and the registry stays well formed (one layout per component, each listing its routes' paths) |
| RoutesList.Registry.AddRouter | src/routes-list.tsx:33-45 | exactly one route is registered, under `FULL_PAGE` |
| RoutesList.Registry.Group | src/routes-list.tsx:95-112 | the rewritten routes go to the group's layout, `FULL_PAGE` by default |
| RoutesList.Registry.RoutesList | src/routes-list.tsx:117-126 | returns every layout's routes in layout order, each tagged in place with its layout; the layouts list afterwards is exactly `TagAll` of the one before |
| RoutesList.TagAll | src/routes-list.tsx:119-124 | the layouts after tagging: as many as before, each the `Tag` of the layout in the same position |
| DetectLocaleChange.FirstSegment | src/detect-locale-change.ts:14 | the candidate is the first `/`-segment after one leading slash |
| DetectLocaleChange.FirstSegmentOf | src/detect-locale-change.ts:14 | `/<segment>` and `/<segment>/…` give `<segment>` |
| DetectLocaleChange.LocaleTracker.constructor | src/detect-locale-change.ts:5 | the current locale is `""` until detected |
| DetectLocaleChange.LocaleTracker.Trigger | src/detect-locale-change.ts:17-23 | an event is recorded, and once subscribed it sets the current locale to its code |
| DetectLocaleChange.LocaleTracker.DetectLocaleCodeChange | src/detect-locale-change.ts:10-24 | when the first segment is a registered code, the change is triggered with (new, previous) before the locale becomes that code; otherwise nothing changes; the subscription is installed |
| DetectLocaleChange.LocaleTracker.GetCurrentLocaleCode | src/detect-locale-change.ts:26-28 | returns the current locale |
| Navigator.Alternatives | src/navigator.ts:52 | the alternatives of the locale group are the codes, or the single empty alternative when there are none |
| Navigator.LocaleMatch | src/navigator.ts:52-60 | the code the regular expression removes is the first alternative, in order, that prefixes the route as `/<code>/`; none exactly when no alternative does |
| Navigator.StripLocale | src/navigator.ts:52-60 | an unmatched route is kept; a matched one is `/<code>/` + the result |
| Navigator.StripChangesIffMatched | src/navigator.ts:54-60 | the route changes under stripping exactly when a locale code was removed |
| Navigator.StripLocaleRoundTrip | src/navigator.ts:52-60 | with slash-free codes, `/<code>/<rest>` strips to `<rest>` and reports `<code>` |
| Navigator.PrefixUnique | src/navigator.ts:52 | two different slash-free codes cannot both prefix one route as `/<code>/` |
| Navigator.BareLocaleKept | src/navigator.ts:52 | a bare `/<code>` with no trailing slash is not stripped |
| Navigator.RefreshTarget | src/navigator.ts:159-169 | with empty search and hash the refresh pushes the route itself |
| Navigator.RefreshDoublesQuestionMark | src/navigator.ts:159-169 | as written, route `/users` with location search `?page=2` is refreshed to `/users??page=2` |
| Navigator.RefreshTargetFixed | src/navigator.ts:159-169 | as intended, the search text that already carries its `?` is appended once, and with no hash the target is route + search |
| Navigator.RefreshKeepsSearch | src/navigator.ts:159-169 | as intended, the `?`-part of the refreshed target is exactly the location's search |
| Navigator.RefreshAsWrittenDoublesSearch | src/navigator.ts:159-169 | as written, the `?`-part of the refreshed target is `?` + the location's search, for every non-empty search |
| Navigator.PathnameOf | src/navigator.ts:190-192 | the pathname the history listener receives for a pushed path is its longest prefix with no `?` or `#`, ending where the search or the hash begins |
| Navigator.PathnameOfPlain | src/navigator.ts:190-192 | a path with no search and no hash is its own pathname |
| Navigator.PathnameOfSuffix | src/navigator.ts:190-192 | a path followed by a search or a hash has that path as its pathname |
| Navigator.NavigatorState.constructor | src/navigator.ts:15-17 | the previous route starts as `/`, and the full routes are undefined |
| Navigator.NavigatorState.HasInitialLocaleCode | src/navigator.ts:203-205 | false before the first `updateFullRoute`, when both routes are undefined |
| Navigator.NavigatorState.UpdatedHasInitialIffStripped | src/navigator.ts:47-61 | after `updateFullRoute(route)`, `hasInitialLocaleCode()` holds exactly when a locale prefix was stripped from the route |
| Navigator.NavigatorState.CurrentRoute | src/navigator.ts:146-152 | the route after trimming `/` + the current locale falls back to `/` when empty, then the base app path is trimmed and the result passed through `concatRoute` |
| Navigator.NavigatorState.UpdateFullRoute | src/navigator.ts:47-61 | the previous route takes the old current route, the current route takes the argument, the locale-free route is the stripped one, `localeCodeChange` fires exactly when a code was removed, and `hasInitialLocaleCode()` holds exactly then |
| Navigator.NavigatorState.GoTo | src/navigator.ts:127-130 | the path is pushed; once `initiateNavigator` has installed the listener, `updateFullRoute` then runs on the pushed pathname (previous route, current route, locale-free route, locale announcement); before that, the route state and the locale are unchanged |
| Navigator.NavigatorState.NavigateTo | src/navigator.ts:103-120 | pushes `concatRoute(appPath, path)` prefixed by the given code, or by the current code when none is given and the route had a locale; the listener, when installed, then updates the route state from the pushed pathname |
| Navigator.NavigatorState.NavigateBack | src/navigator.ts:33-39 | pushes the stored previous route unchanged when it is non-empty, and otherwise navigates to the default route; with the listener installed, the previous route is the one before the latest push |
| Navigator.NavigatorState.Refresh | src/navigator.ts:159-169 | pushes the route, then `?` + query and `#` + hash, each only when non-empty; the listener, when installed, updates the route state |
| Navigator.NavigatorState.SwitchLang | src/navigator.ts:176-180 | triggers `localeCodeChange` with the code, then navigates to the current route (stripped of the locale in force after the announcement) under the new code; the listener, when installed, updates the route state |
| Navigator.NavigatorState.Initiate | src/navigator.ts:185-195 | installs the listener and records the initial route, `/` when it is empty |
| QueryValues.Convert | src/query-string-parsers.ts:17-23 | an absent value stays undefined and no value becomes an array |
| QueryValues.Entries | src/query-string-parsers.ts:9-17 | one entry per `&`-part, in order, each read from its own part |
| QueryValues.EntryOfPair | src/query-string-parsers.ts:10-17 | `key=value` and `key[]=value` read back as written, the second as an array key |
| QueryValues.SecondEqualsCutsValue | src/query-string-parsers.ts:10-17 | only the text between the first and second `=` is the value |
| QueryValues.NoEqualsUndefined | src/query-string-parsers.ts:10-17 | a part with no `=` has an undefined value |
| QueryValues.KeyWithBrackets | src/query-string-parsers.ts:12-16 | `key[]` is an array key whose name is `key` again |
| QueryValues.Accumulate | src/query-string-parsers.ts:25-37 | one part adds its key and leaves every other key unchanged |
| QueryValues.FoldFromKeys | src/query-string-parsers.ts:9-38 | the result's keys are exactly the keys of the parts |
| QueryValues.FoldFromAppend | src/query-string-parsers.ts:9-38 | parsing two lists of parts in turn is parsing their concatenation |
| QueryValues.RepeatedKey | src/query-string-parsers.ts:25-36 | a plain key given twice becomes `[first, second]` when the first value is truthy, and only the second value otherwise |
| QueryValues.FalsyValueDropped | src/query-string-parsers.ts:25-36 | as written, `a=0&a=1` parses to `{a: 1}`, losing the 0 |
| QueryValues.AccumulateKept | src/query-string-parsers.ts:25-37 | accumulating by presence adds the key and leaves every other key unchanged |
| QueryValues.FoldKeptKeys | src/query-string-parsers.ts:9-38 | accumulating by presence yields exactly the keys of the parts |
| QueryValues.FoldKeptKeepsAll | src/query-string-parsers.ts:25-37 | accumulating by presence keeps every value of every key, in order |
| QueryValues.FalsyValueKept | src/query-string-parsers.ts:25-37 | read by presence, `a=0&a=1` gives `{a: [0, 1]}` |
| QueryValues.RepeatedKeyKept | src/query-string-parsers.ts:25-37 | read by presence, a plain key given twice always holds both values |
| QueryValues.ArrayParts | src/query-string-parsers.ts:56 | an array gives one `key[]=item` part per item, in order |
| QueryStringParsers.ToObjectParser | src/query-string-parsers.ts:4-41 | the loop returns the fold of the parts, with numeric conversion and URI decoding |
| QueryStringParsers.ParseNext | src/query-string-parsers.ts:9-38 | one turn of the loop extends the fold over the parts before it by the next part |
| QueryStringParsers.ParsePart | src/query-string-parsers.ts:10-37 | one part is accumulated exactly as `Accumulate` of its entry: key with `[]` removed, array flag, numeric or decoded value |
| QueryStringParsers.KeyParts | src/query-string-parsers.ts:48-61 | exactly one part per key |
| QueryStringParsers.FlatAgrees | src/query-string-parsers.ts:47-64 | without nested objects or nulls, the output is the flat serialiser's |
| QueryStringParsers.ToStringParser | src/query-string-parsers.ts:43-64 | no entries give the empty text; one entry gives its own part; more give the first entry's part, `&`, then the rest serialised under the same parent key |
| QueryStringParsers.RoundTrip | src/query-string-parsers.ts:4-64 | a flat object that is non-empty, with distinct keys free of `&`, `=` and `[]` and with plain values, parses back to the same keys, each value converted as the parser converts it (numbers by `Is.numeric`, other texts decoded) |
| QueryStringParsers.NestedExample | src/query-string-parsers.ts:51-54 | nested entries are named by their path: `{a: {b: "1", c: ["x"]}}` gives `a[b]=1&a[c][]=x` |
| QueryStringParsers.EmptyPartsExample | src/query-string-parsers.ts:53-61 | a `null` entry and an empty array each leave an empty part |
| RouterQueryStringParsers.ToObjectParser | src/router/query-string-parsers.ts:4-39 | the loop returns the fold of the parts, with library numeric conversion and no decoding |
| RouterQueryStringParsers.ParseNext | src/router/query-string-parsers.ts:9-36 | one turn of the loop extends the fold over the parts before it by the next part |
| RouterQueryStringParsers.ParsePart | src/router/query-string-parsers.ts:10-35 | one part is accumulated exactly as `Accumulate` of its entry: key with `[]` removed, array flag, library-numeric or raw value |
| RouterQueryStringParsers.KeyParts | src/router/query-string-parsers.ts:43-52 | one part per key, in key order, each the key's own part |
| RouterQueryStringParsers.ToStringParser | src/router/query-string-parsers.ts:41-56 | no entries give the empty text; one entry gives its own part; more give the first entry's part, `&`, then the rest serialised |
| RouterQueryStringParsers.RoundTrip | src/router/query-string-parsers.ts:4-56 | an object that is non-empty, with distinct keys free of `&`, `=` and `[]` and with plain values, parses back to the same keys, each value converted by the library check and each non-empty array kept as an array of converted items |
| RouterQueryStringParsers.SerialisedParts | src/router/query-string-parsers.ts:41-56 | the output is the `&`-join of every key's parts |
| RouterQueryStringParsers.FoldPieces | src/router/query-string-parsers.ts:4-39 | parsing the pieces of serialisable entries, one entry after another, gives each key its expected converted value |
| RouterQueryStringParsers.FoldArrayParts | src/router/query-string-parsers.ts:23-33 | `key[]=item` parts on a fresh key collect every item, in order |
| RouterQueryStringParsers.AppendArrayItem | src/router/query-string-parsers.ts:23-33 | the first `key[]` part starts an array and every later one is appended |
| RouterQueryStringParsers.ArrayExample | src/router/query-string-parsers.ts:47-48 | `{a: ["1", "x"]}` gives `a[]=1&a[]=x` |
| AbstractRouter.AppPath | src/utilities.tsx:24 | `router.getApp(name)?.path` is defined exactly when the name has an app |
| AbstractRouter.Router.constructor | src/utilities.tsx:3 | the router starts with the given getters, no active route and an empty trace |
| AbstractRouter.Router.Record | src/utilities.tsx:24-26 | a call on the router is appended to the trace, and its getters and active route are unchanged |
| Utilities.NavigateLocale | src/utilities.tsx:20-22 | a truthy given locale is used; otherwise the current one when the router has a locale code; otherwise the given one |
| Utilities.NoLocaleWithoutCode | src/utilities.tsx:20-26 | with no locale and none in the route, nothing stands before the app path |
| Utilities.GivenLocaleUsed | src/utilities.tsx:20-26 | a given locale is used whether or not the route has one |
| Utilities.NavigateTo | src/utilities.tsx:15-27 | `router.goTo(concatRoute(localeCode \|\| "", appPath, path))` is the one call made |
| Utilities.NavigateBack | src/utilities.tsx:32-34 | navigates to the router's previous route in the current app |
| Utilities.ChangeLocaleCalls | src/utilities.tsx:56-86 | the first call is always `localeCodeChanging(new, current)` |
| Utilities.ChangeLocaleOrder | src/utilities.tsx:60-85 | `localeCodeChanging` comes first and only once; `localeChanged` is announced exactly in soft mode and last; `goTo` happens only in soft mode and right after the key refresh; hard mode neither navigates nor refreshes the key |
| Utilities.ChangeLocaleCode | src/utilities.tsx:56-86 | the trace gains exactly the calls of `ChangeLocaleCalls`: hard mode sets the href to `concatRoute(basePath, locale, appPath, route)` + search + hash and returns |
| Utilities.Refresh | src/utilities.tsx:91-94 | the active key is refreshed before `router.refresh(refresh)` |
| RouterWrapper.FirstStop | src/components/RouterWrapper.tsx:44-59 | the middleware run in order up to the first non-falsy output; none exactly when every output is falsy |
| RouterWrapper.RenderKey | src/components/RouterWrapper.tsx:33-40 | the fresh token when the route is the active one and force-refresh is on; `route.key \|\| ""` otherwise |
| RouterWrapper.UpdatePageActivation | src/components/RouterWrapper.tsx:44-83 | the active route changes and `rendered` is scheduled exactly when no middleware stops; a stop keeps the active route and the layout; `NAVIGATING` changes nothing |
| RouterWrapper.SameRouteRefreshed | src/components/RouterWrapper.tsx:33-71 | the active route shown again under force-refresh is mounted with the fresh key |
| RouterWrapper.OtherRouteKeepsKey | src/components/RouterWrapper.tsx:33-71 | a route other than the active one keeps its own key |
| RouterWrapper.FullContent | src/components/RouterWrapper.tsx:143-180 | the page is shown exactly when not loading; the loading view is over the page exactly when loading with `renderOverPage` |
| RouterWrapper.NotFoundPath | src/components/RouterWrapper.tsx:88 | the configured path when truthy, `/404` otherwise |
| RouterWrapper.CachedViewIsPage | src/components/RouterWrapper.tsx:182-185 | what gets cached is always the page view with the page's layout and content |
| RouterWrapper.Wrapper.constructor | src/components/RouterWrapper.tsx:13-17 | fragment layout, empty content, not loading |
| RouterWrapper.Wrapper.UpdatePage | src/components/RouterWrapper.tsx:32-84 | the middleware loop leaves the page, the active route and the scheduled events as `UpdatePageSpec` decides, and calls nothing on the router |
| RouterWrapper.Wrapper.FireRendered | src/components/RouterWrapper.tsx:81-83 | the oldest scheduled `rendered(path, mode)` fires with the mode the router has at that moment |
| RouterWrapper.Wrapper.NotFound | src/components/RouterWrapper.tsx:86-95 | redirect mode navigates to the configured path or `/404`; render mode shows the configured component |
| RouterWrapper.Wrapper.LazyLoading | src/components/RouterWrapper.tsx:97-120 | with loaders, loading starts and the route waits; without them, not found: in `render` mode the not-found page is shown and no router call is made, in `redirect` mode the not-found path is navigated to and the content is unchanged |
| RouterWrapper.Wrapper.FinishLoading | src/components/RouterWrapper.tsx:105-116 | loading is cleared, then `onLoad` runs, then the route is looked up again and shown; when it is still unknown, `render` mode shows the not-found page after the `onLoad` call, and `redirect` mode keeps the content and records `onLoad` then the navigation to the not-found path |
| RouterWrapper.Wrapper.OnRendering | src/components/RouterWrapper.tsx:19-29 | a known route is shown; otherwise lazy loading starts for the router's current route; when that route has no loader either, loading, pending loads and layout are unchanged and the not-found outcome is as in `LazyLoading` |
| RouterWrapper.Wrapper.Settle | src/components/RouterWrapper.tsx:143-188 | the view is `FullContent` of the state, and it is cached exactly when a route is active and nothing is loading |
| Renderer.AddIfAbsent | src/components/Renderer/index.tsx:84-127 | the list only grows, gains the element exactly when it was absent, and stays duplicate-free |
| Renderer.LoaderList | src/components/Renderer/index.tsx:72-81 | the app loader first, then the module loader, each only when present |
| Renderer.MiddlewareList | src/components/Renderer/index.tsx:194-197 | a single middleware is wrapped into a one-element array, and an array is kept |
| Renderer.FindRoute | src/components/Renderer/index.tsx:189-191 | the first route with the matched path; none exactly when no route has it |
| Renderer.FirstTruthy | src/components/Renderer/index.tsx:199-209 | the first middleware with a truthy output; none exactly when every output is falsy |
| Renderer.SingleIsWrapped | src/components/Renderer/index.tsx:193-209 | a single middleware's truthy output replaces the layout |
| Renderer.LayoutWhenMiddlewarePasses | src/components/Renderer/index.tsx:193-228 | a route whose middleware all give falsy outputs is rendered inside its layout |
| Renderer.RendererState.constructor | src/components/Renderer/index.tsx:19-63 | all lists empty, nothing loading, no route rendered, and the lists are duplicate-free |
| Renderer.RendererState.CheckDynamicRoute | src/components/Renderer/index.tsx:103-131 | the dynamic module counts as loaded only when its app and its module are both in the loaded lists; when not, dynamic loading starts with both loader slots |
| Renderer.RendererState.DynamicStart | src/components/Renderer/index.tsx:101-131 | a dynamic-route load starts exactly when the segment has no loaded and no lazy module, the current app serves a dynamic route, and that module is not loaded; it runs both loader slots and keeps a snapshot of the loaded entries |
| Renderer.RendererState.EffectStart | src/components/Renderer/index.tsx:68-95 | the loading effect starts a module load exactly when its dependencies changed, the module is not loaded, and the segment names a lazy module; it runs that module's loaders with a snapshot of the loaded entries |
| Renderer.RendererState.ModuleKey | src/components/Renderer/index.tsx:57-61 | the module key is the classified first segment under the base app path in force after any app switch; the app and module registries are untouched; with no app switch the base path and app name are kept, and with one the base path is `concatRoute(app)` and the app name the one registered for it |
| Renderer.RendererState.NotFound | src/components/Renderer/index.tsx:101-149 | the not-found outcome is decided exactly when no loaded or lazy module, no dynamic module and no route path matches the segment, and the mode is `redirect` or `render`; a redirect pushes `navigateTo(notFound.route)` for the current app, under the current locale when the route had one, and the history listener then updates the route state; `render` returns the component; nothing else navigates; the dynamic-route check starts its load and sets the loading flag exactly as `DynamicStart` says; when the route-path check runs, every layout is tagged (`TagAll`), and otherwise the layouts list is unchanged |
| Renderer.RendererState.LoadingEffect | src/components/Renderer/index.tsx:68-95 | when the dependencies changed and the module of the segment is known but not loaded, a load of its loaders starts and dynamic loading is cleared |
| Renderer.RendererState.Preload | src/components/Renderer/index.tsx:151-180 | preloading holds exactly when the segment names a lazy module that is not loaded or a dynamic route is loading; the preloader alone is returned exactly when preloading without overlay; otherwise the layouts are rendered, with the preloader exactly when preloading, and the route holder is reset |
| Renderer.RendererState.RenderKey | src/components/Renderer/index.tsx:68-180 | for a module key: the not-found outcome as in `NotFound`, otherwise the preloader or the layouts as in `Preload` with the dynamic-route flag after the check; then the loading effect; the pending loads gain this render's dynamic load and then the effect's module load; a module load clears the loading flag; the effect records its dependencies; the layouts list is tagged exactly when the route-path check runs |
| Renderer.RendererState.Render | src/components/Renderer/index.tsx:54-180 | the module key is the classified first segment under the base app path; for it, not-found is taken exactly when no module exists for the segment, no dynamic module exists and no route path matches, with the redirect target and the listener's update stated; otherwise the preloader alone shows exactly when preloading without overlay, and the layouts carry the preloader exactly when preloading; the pending loads, the loading flag and the effect's dependencies are as in `RenderKey`; the loaded lists stay duplicate-free; the app switch and the untouched registries are as in `ModuleKey`; the layouts list is tagged exactly when the route-path check runs |
| Renderer.RendererState.Complete | src/components/Renderer/index.tsx:83-130 | after loaders complete, the app and module join the loaded lists only when absent, and the loaded entries grow from the snapshot taken when the load started |
| Renderer.RendererState.RenderLayout | src/components/Renderer/index.tsx:188-229 | the layout's render loop returns exactly `LayoutSpec` |
| Renderer.RendererState.RenderRoute | src/components/Renderer/index.tsx:23-47 | at most one route is rendered per pass: once a route is recorded, later ones render nothing |
| Link.LinkPath | src/components/Link/Link.tsx:34-56 | `email` wins over `tel`, giving `mailto:`+email or `tel:`+tel |
| Link.KeptAsGiven | src/components/Link/Link.tsx:43-47 | a `#` anchor or a URL is kept exactly as given |
| Link.NoAddressThrows | src/components/Link/Link.tsx:39-45 | without `email` or `tel`, the link has no address (the source throws) exactly when `to` is not truthy and `href` is not given |
| Link.HrefFallback | src/components/Link/Link.tsx:43-55 | when `to` is not truthy, a non-empty `href` gives the same address that `to` would |
| Link.NoLocalePrefix | src/components/Link/Link.tsx:34-55 | a path link with no locale code given, and none (or an empty one) in the router, is the app path joined in front, with no locale prefix |
| Link.LocaleFirst | src/components/Link/Link.tsx:34-55 | a path link is `concatRoute(locale, concatRoute(appPath, path))`, where the locale is the given one or else the router's current one |
| Link.RenderedHref | src/components/Link/Link.tsx:91 | the base path is joined in front exactly for paths starting with `/` |
| Link.TargetAndRel | src/components/Link/Link.tsx:80-86 | `newTab` gives `_blank` only when no target is given; every `_blank` target gets `rel="noopener noreferrer"`; other props are kept |
| Link.OnClick | src/components/Link/Link.tsx:58-78 | a click is taken over exactly when the target is not `_blank`, no modifier is held, the button is not the middle one, and the path starts with `/`; a taken click sends the path (without base path) to `router.goTo` |
| Link.NewTabNotIntercepted | src/components/Link/Link.tsx:62-82 | a `newTab` link with no target of its own is never taken over |
| Link.SchemeLinksNotIntercepted | src/components/Link/Link.tsx:39-73 | `mailto:` and `tel:` links are never taken over |
| Link.LinkOptions.constructor | src/components/Link/Link.tsx:8-10 | the `component` option is `"a"` |
| Link.LinkOptions.SetLinkOptions | src/components/Link/Link.tsx:12-17 | the given options replace the current ones key by key, and the other keys are kept |
| LegacyLink.PathAndRelative | src/components/Link.tsx:26-54 | `mailTo` wins over `tel`, and both give a non-relative address |
| LegacyLink.RelativeUnlessSaid | src/components/Link.tsx:21-53 | any other non-URL address is relative exactly when `relative` is not `false` |
| LegacyLink.UrlKept | src/components/Link.tsx:37-41 | a URL `href` is used as given and is not relative |
| LegacyLink.GivenLocalePrefixed | src/components/Link.tsx:43-53 | with a locale code given, any other address is the app path joined in front of it, then that code in front of the result |
| LegacyLink.CurrentLocaleFallback | src/components/Link.tsx:43-53 | with no locale code given and a route that started with one, the current locale code is put in front; an empty current code puts nothing |
| LegacyLink.NoLocaleNoPrefix | src/components/Link.tsx:43-53 | with no locale code given and none at the start, the address is the app path joined in front, with no locale prefix |
| LegacyLink.TargetAndRel | src/components/Link.tsx:56-64 | `newTab` forces `_blank` over any given target; every `_blank` target gets `rel="noopener noreferrer"` |
| LegacyLink.Render | src/components/Link.tsx:66-73 | a plain anchor exactly when the address is not relative or `mailTo`/`tel` is given, and a router link otherwise, both to the computed path |
| LegacyLink.SchemeLinksAreAnchors | src/components/Link.tsx:29-68 | `mailto:`, `tel:` and URL links always render as plain anchors |
| LegacyLink.MailLinkProps | src/components/Link.tsx:76-78 | `MailLink` passes `to` as `mailTo` |
| LegacyLink.TelLinkProps | src/components/Link.tsx:80-82 | `TelLink` passes `to` as `tel` |
| LegacyLink.MailLinkIsMailto | src/components/Link.tsx:29-78 | a mail link renders a `mailto:` anchor to its address |
| LegacyLink.TelLinkIsTel | src/components/Link.tsx:33-82 | a telephone link renders a `tel:` anchor to its number |
| LegacyLink.ExternalLinkProps | src/components/Link.tsx:84-86 | as written, `ExternalLink` forces `relative={false}` and leaves `newTab` as the caller gave it |
| LegacyLink.ExternalLinkStaysInTab | src/components/Link.tsx:56-86 | as written, an external link given no `newTab`, `target` or `rel` renders with no target and no rel, so it opens in the same tab |
| LegacyLink.ExternalLinkPropsFixed | src/components/Link.tsx:84-86 | as intended, `newTab` is on unless the caller sets it, and `relative` is `false` |
| LegacyLink.ExternalLinkOpensNewTab | src/components/Link.tsx:56-86 | an intended external link renders an anchor with target `_blank` and `rel="noopener noreferrer"` |

## Left out

- Foreign helpers: `concatRoute`, `isUrl` and `Is.url` (two separate functions), `Is.numeric`, `decodeURIComponent`, `ltrim` and `String.prototype.match` are uninterpreted function values. The `isUrl` regular expression in src/helpers.ts is not modelled, and neither is the throw of `decodeURIComponent` on malformed input.
- `RegExp.exec` on a compiled pattern is an oracle parameter of `Matcher.MatchCompiled`. The regular-expression engine is not modelled, so the captures are whatever it returns.
- src/router/router.ts, src/events.ts, src/router/events.ts, src/router-history.ts and src/query-string.ts are not part of this model. Router calls and events are recorded in a trace; the router's own reaction is not modelled.
- React rendering: JSX output is a datatype (`View`, `Output`, `Element`) naming components by identity. Hooks, memoisation, `Suspense` and re-renders are explicit steps.
- Timers and promises: `setTimeout` and `Promise.all(...).then` are explicit later steps (`FireRendered`, `FinishLoading`, `Complete`). The environment chooses which pending load completes next, by index.
- `Math.random()` and `Date.now()` are parameters (`token`, `timestamp`). Middleware results are a function parameter (`run`).
- Aliasing: route and module objects that the source mutates in place (`route.key`, `moduleInfo.entry`, `route.layout`) are values, so a later reader of the same object is not modelled.
- Key order: `Object.keys` order is the order of the entry list given to the serialisers. The parsers return maps, which have no order.
- QueryValues.Truthy: `Number(text)` is modelled as zero exactly when its mantissa digits are all `0`. Values outside the double range (`1e999`, `Infinity`) are not modelled.
- QueryValues.Convert: the numeric value is kept as its text, not as a double, so two texts of the same number are not identified.
- The serialisers take values already printed as text. Keys such as `__proto__`, which a JavaScript object does not keep as its own, are not modelled. The empty object serialises to the empty text, but its round trip is not claimed: `Serialisable` requires at least one key, because the empty query parses to the key `""` holding `undefined`.
- QueryValues.Accumulate: the lookup `result[key]` on a plain object also finds inherited properties. The model treats every key that has not been parsed yet as absent. In the source, `constructor=1` gives `{constructor: [Object, 1]}`, because the inherited `Object` is truthy and not an array, and `__proto__=1` replaces the prototype and leaves no own key. The same holds for `toString` and the other members of `Object.prototype`. The model gives `constructor` and `__proto__` the parsed value alone.
- QueryStringParsers.ToObjectParser: inherited keys are treated as absent, as described in the `QueryValues.Accumulate` line.
- QueryStringParsers.ParseNext: inherited keys are treated as absent, as described in the `QueryValues.Accumulate` line.
- QueryStringParsers.ParsePart: inherited keys are treated as absent, as described in the `QueryValues.Accumulate` line.
- RouterQueryStringParsers.ToObjectParser: inherited keys are treated as absent, as described in the `QueryValues.Accumulate` line.
- RouterQueryStringParsers.ParseNext: inherited keys are treated as absent, as described in the `QueryValues.Accumulate` line.
- RouterQueryStringParsers.ParsePart: inherited keys are treated as absent, as described in the `QueryValues.Accumulate` line.
- Matcher.MatchCache.MatchUrl: the cache is a plain object, so the lookup `cache[pattern]` also finds inherited properties. For the pattern `constructor`, the source takes the inherited `Object` function as the cached entry, and `regexp.exec` then throws. The model's cache is a map holding only the built patterns, so it builds and matches that pattern.
- `updateQueryString`, `url`, `fullRoute` and `baseUrl` (src/navigator.ts) are left out. They read `window` or the history object and hold no routing decision.
- Navigator.PathnameOf: a pushed path is taken as absolute. `history` resolves a relative path against the current location and applies the basename, which is not modelled.
- Navigator.LocaleMatch: locale codes are compared as literal text. The source joins them into a RegExp unescaped (src/navigator.ts:52, src/routes-list.tsx:71-77), so a code holding a regular-expression character such as `.` or `|` matches differently there.
- `silentNavigation`, `previousRoute`, `currentRoute`, `getHash` and `setApps` in src/utilities.tsx forward to the router with no logic of their own.
- `window.scrollTo` in the renderer and the `baseOnClick` callback of the link are side effects with no routing decision, and are not modelled.
- `setCurrentRouteData` is a call outside the model; `RenderRoute` records its argument.
- `getRouterConfig` and `getRouterConfigurations` are read through `Renderer.Config`, with their defaults applied by the caller.
- Navigator.NavigatorState.CurrentRoute: `ltrim` is foreign, so only the composition of calls is modelled.
- DetectLocaleChange.LocaleTracker.Trigger, DetectLocaleChange.LocaleTracker.DetectLocaleCodeChange, Navigator.NavigatorState.UpdateFullRoute and Navigator.NavigatorState.SwitchLang: as written these throw. src/detect-locale-change.ts:1 imports a named `routerEvents` that src/events.ts does not export (src/events.ts:90 has only the default export), and the object at src/events.ts:53-74 has no `trigger` and no `onLocaleCodeChange`, so the calls at src/detect-locale-change.ts:17,21 and src/navigator.ts:57,177 fail. The model follows the evidently intended behaviour: one `localeCodeChange` channel that is triggered and listened to.
- Renderer.RendererState.NotFound: `route.path.match(firstSegment)` compiles the segment as a regular expression, so a segment that is not a valid pattern, such as `(`, throws a SyntaxError. `Host.regexMatches` is total and does not model that throw.
- Link.LinkPath: `None` stands for the TypeError thrown when neither `to` nor `href` is given.

## Findings

| source | as written | input that shows it | evidently intended | confidence | as-written member | corrected member |
|---|---|---|---|---|---|---|
| src/navigator.ts:159-169 | `refresh()` puts `"?"` before `queryString().toString()`, but that text is `history.location.search` (src/router-history.ts:47-49), which already starts with `?` | location `/users?page=2`: the pushed target is `/users??page=2` | the search is appended once, as the location gives it | not executed | Navigator.RefreshDoublesQuestionMark, Navigator.RefreshAsWrittenDoublesSearch | Navigator.RefreshKeepsSearch |
| src/query-string-parsers.ts:25-37 | in both parser files (the flat one at src/router/query-string-parsers.ts:23-35 too), a key collects a second value only when its current value is truthy | `a=0&a=1` parses to `{a: 1}`; the 0 is lost | every value of a repeated key is kept, in order | not executed | QueryValues.FalsyValueDropped | QueryValues.FoldKeptKeepsAll |
| src/components/Link.tsx:84-86 | `ExternalLink` passes the attribute `newTa`, which is not the `newTab` prop | `<ExternalLink href="https://example.com" />`: no `target`, no `rel`, so the link opens in the same tab | an external link opens in a new tab with `rel="noopener noreferrer"` | not executed | LegacyLink.ExternalLinkStaysInTab | LegacyLink.ExternalLinkOpensNewTab |
