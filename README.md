# AI Chat Hub: embed-and-fallback controller

AI Chat Hub is a browser side panel that shows third-party AI chat sites
(Gemini, ChatGPT, Perplexity, Copilot, Claude, Grok, Meta AI) in an iframe,
plus a built-in "Quick Chat" entry (`api`). The only part with real decisions
is the embed-and-fallback logic of the `AiChatHub` class in `sidepanel.js`:

- it picks the URL to load when a site is opened;
- after a frame error it moves to the site's next fallback URL, in declared
  order, until the fallbacks run out, and then shows a load-error view;
- it resets the attempt counter after a successful load;
- it marks a site permanently non-embeddable when a CSP frame-embedding
  violation is reported for it, and from then on routes the site to a
  message instead of the frame;
- it maps a URL to a site by hostname containment.

This project models that logic in Dafny and proves its properties.

Layout:

- `wrappers.dfy` (`Wrappers`): `Option`.
- `strings.dfy` (`Strings`): ASCII `toLowerCase` and `includes`.
- `registry.dfy` (`Registry`): the `siteConfigs` table, key lookup, and the
  table update of `markSiteAsNonEmbeddable`.
- `classifier.dfy` (`Classifier`): `findSiteKeyByUrl`, `isBlockedPage`,
  `isAuthRedirect`, and the CSP-report test of `handleCSPViolation`.
- `resolver.dfy` (`Resolver`): the fallback policy of `tryFallbackUrl` stated
  on values, runs of consecutive steps, and the counter bound.
- `hub.dfy` (`Hub`): the class `AiChatHub`. Its fields are the site table,
  `loadAttempts`, `currentSiteKey`, the frame's `src` and `apiKey`. Its
  methods are the event handlers. Every request made of the page or browser
  (view shown, frame navigated, message rendered, auth notice, `lastSite`
  saved) is appended to an `effects` log, in order.

Frame inspection is a parameter `Option<string>`. `None` means that reading
the frame's location threw, which is the cross-origin case.

Behaviour of the code a reader might not expect, which the model keeps:

- No late load or error event is discarded for a superseded site.
  `handleFrameError` always acts on the current site.
- The blocked-page branch never runs. It sits in the first `handleFrameLoad`
  (sidepanel.js:217-254), and the later definition at sidepanel.js:355
  replaces that one. So `isBlockedPage` is modelled only as a standalone
  predicate.
- Every CSP embedding violation records the reason
  `CSP frame-ancestors policy`, including `frame-src` violations.
- A non-embeddable site still becomes the current site.
  `showNonEmbeddableMessage` calls `showView('webContainer', key)`.
- An unknown key passed to `handleOptionClick` is still saved as `lastSite`.

## Model

| member | source | states |
|---|---|---|
| `Strings.LowerChar` | sidepanel.js:303 | one character lower-cased: the result is never an upper-case ASCII letter, and any other character is kept |
| `Strings.ToLower` | sidepanel.js:303 | `toLowerCase`: same length, each character lower-cased, and no upper-case letter left |
| `Strings.ToLowerFixesLowerCase` | sidepanel.js:303 | lower-casing a lower-case string returns it unchanged |
| `Strings.ToLowerIdempotent` | sidepanel.js:303 | lower-casing twice is the same as lower-casing once |
| `Strings.Contains` | sidepanel.js:309 | `s.includes(p)` is true exactly when `p` occurs at some index of `s` |
| `Registry.InitialTableFacts` | sidepanel.js:37-82 | the shipped table: 8 entries, distinct keys, `api` first; `api` is the only entry without a URL or fallbacks; every other entry has at least one fallback |
| `Registry.IndexOf` | sidepanel.js:407 | `siteConfigs[key]`, when it finds something, finds an entry carrying that key |
| `Registry.IndexOfFirst` | sidepanel.js:407 | the entry found is the first with that key, and nothing is found exactly when no entry has the key |
| `Registry.Lookup` | sidepanel.js:611-612 | the entry of a key is defined exactly when the key is known, and it carries that key |
| `Registry.KnownIffSomeEntry` | sidepanel.js:342 | `this.siteConfigs[siteKey]` is defined exactly when some entry of the table carries the key |
| `Registry.SameShapeLookup` | sidepanel.js:342-344 | tables that differ only in `embeddable`/`reason` agree on key positions, on which keys are known, and on the fallback bounds |
| `Registry.MarkNonEmbeddable` | sidepanel.js:341-345 | a known key's entry gets `embeddable = false` and the given reason; every other entry is unchanged; an unknown key changes nothing; URLs and fallbacks never change |
| `Registry.MarkKeepsNonEmbeddable` | sidepanel.js:341-345 | marking never makes a non-embeddable entry embeddable again |
| `Registry.MarkTwiceLastReasonWins` | sidepanel.js:341-345 | marking the same key twice equals marking it once with the later reason |
| `Classifier.AfterScheme` | sidepanel.js:308 | the text after the scheme separator is a suffix of the URL with room for `://` before it |
| `Classifier.AfterSchemeCutsAtFirstSeparator` | sidepanel.js:308 | the cut is right after the first occurrence of `://`, and nothing is found exactly when `://` never occurs (modelled as the URL constructor throwing) |
| `Classifier.HostPrefix` | sidepanel.js:308 | the host is the longest prefix that has no `/`, `?`, `#` or `:` |
| `Classifier.Hostname` | sidepanel.js:308 | the hostname of a configured URL, when it parses, is non-empty and lower case |
| `Classifier.AnyUrlMatches` | sidepanel.js:321-335 | the fallback loop matches exactly when some fallback's hostname (or, if the fallback does not parse, its whole URL) occurs in the URL |
| `Classifier.UrlMatches` | sidepanel.js:307-317 | when the configured URL has a hostname, the candidate matches exactly when that hostname occurs in it |
| `Classifier.UrlMatchesUnparsed` | sidepanel.js:313-316 | when the configured URL does not parse, the candidate matches exactly when the lower-cased configured URL occurs in it |
| `Classifier.SiteMatches` | sidepanel.js:306-335 | an entry matches through its primary URL only when that URL is present and non-empty, or through any one of its fallbacks |
| `Classifier.FirstMatch` | sidepanel.js:305-336 | the scan in table order returns the first matching entry, or none exactly when no entry matches |
| `Classifier.FindSiteKeyByUrl` | sidepanel.js:299-339 | null for an empty URL; otherwise the key of the first entry in table order whose primary or fallback hostname occurs in the lower-cased URL; null only when no entry matches |
| `Classifier.FindSiteKeyIgnoresCase` | sidepanel.js:303 | a URL and its lower-cased form map to the same site |
| `Classifier.FindSiteKeyNeverApi` | sidepanel.js:38 | no URL ever maps to `api` |
| `Classifier.ContainsAny` | sidepanel.js:296 | `patterns.some(p => url.includes(p))` is true exactly when some pattern occurs in the URL |
| `Classifier.IsBlockedPage` | sidepanel.js:287-297 | true exactly when the URL contains one of the five error-page markers, case-sensitively |
| `Classifier.IsAuthRedirect` | sidepanel.js:391-404 | true exactly when the URL contains one of the eight identity-provider markers, case-sensitively |
| `Classifier.BlockedUrl` | sidepanel.js:205 | `blockedURI` if non-empty, else `documentURI` if non-empty, else `sourceFile`; empty only when all three are empty |
| `Classifier.IsFrameDirective` | sidepanel.js:200-204 | the directive counts as an embedding violation exactly when `frame-ancestors` or `frame-src` occurs in it |
| `Classifier.CspTarget` | sidepanel.js:200-210 | a report names a site only if its directive contains `frame-ancestors` or `frame-src` and it carries a non-empty URL; the site named is the first entry in table order matching that URL lower-cased, and none is named only when no entry matches |
| `Classifier.CspTargetNeverApi` | sidepanel.js:200-210 | on a table of the shipped shape, a violation report never marks `api` |
| `Resolver.DecideFallback` | sidepanel.js:406-421 | an unknown key or an entry without fallbacks is ignored; below the bound, the fallback at the counter's index is loaded and the counter advances by one without passing the bound; at or past the bound, the step gives up |
| `Resolver.AttemptsOfDefaultsToZero` | sidepanel.js:410 | `this.loadAttempts[siteKey] || 0`: a key never set reads as 0, and setting one counter changes what only that key reads |
| `Resolver.DecideKeepsBounded` | sidepanel.js:410-416 | a fallback step keeps every counter within its site's fallback count |
| `Resolver.ResetRestartsFromFirstFallback` | sidepanel.js:367-369 | a counter reset keeps the bound, and the next step then loads the first fallback |
| `Resolver.SameShapeKeepsBounded` | sidepanel.js:342-344 | marking a site leaves every counter within its bound |
| `Resolver.RunLoadsInDeclaredOrder` | sidepanel.js:412-420 | consecutive steps load the fallbacks strictly in declared order, one per step; once the bound is reached they load nothing and the counter stays at the bound |
| `Resolver.ActivationThenErrors` | sidepanel.js:412-420 | from counter 0, `n <= len` steps load exactly the first `n` fallbacks and end on the `n`-th; at the bound, further steps load nothing |
| `Hub.ShownReason` | sidepanel.js:450 | the message shows the stored reason when it is non-empty, else a non-empty default |
| `Hub.ResetCurrent` | sidepanel.js:367-369 | an inspectable load zeroes the current site's counter and leaves every other counter alone |
| `Hub.ResetCurrentIdempotent` | sidepanel.js:179-185 | a second `handleFrameLoad` from the repeated listener leaves the counters as the first one did |
| `Hub.FallbackStep` | sidepanel.js:406-421 | one step changes no other site's counter and appends at most one effect |
| `Hub.StepsFollowRun` | sidepanel.js:412-420 | repeated steps on the controller's state end with the counter and the frame URL that the value-level run predicts |
| `Hub.StepsNavigateInOrder` | sidepanel.js:412-416 | below the bound, `n` steps append exactly `n` navigation requests, to the fallbacks from the counter onward in declared order |
| `Hub.ErrorStreakAfterActivation` | sidepanel.js:620-627 | after an activation, `n <= len` error steps leave `src` on the `n`-th fallback with the counter at `n`, having requested navigations to exactly `fbs[0..n]` in declared order; after all fallbacks, more steps change neither `src` nor the counter, request no navigation, and each appends only the load-error view |
| `Hub.ExhaustedStepsOnlyReportError` | sidepanel.js:406-421 | at or past the bound, `m` steps leave counters and `src` alone and append exactly `m` load-error requests |
| `Hub.ErrorEventSkipsFirstFallback` | sidepanel.js:188-194 | one DOM error event, as written, navigates to fallback 0 and then straight on to fallback 1; the counter ends at 2 |
| `Hub.SingleErrorLoadsNextFallback` | sidepanel.js:384-389 | with one listener, an error event after an activation loads fallback 0 and sets the counter to 1 |
| `Hub.AiChatHub.constructor` | sidepanel.js:37-88 | the initial table, no counters, no current site, and the API key read from storage |
| `Hub.AiChatHub.ShowView` | sidepanel.js:587-597 | the current site becomes the given key if the table has it, and null otherwise |
| `Hub.AiChatHub.SetFrameSrc` | sidepanel.js:417 | assigns the frame's `src` and records the navigation |
| `Hub.AiChatHub.ShowNonEmbeddableMessage` | sidepanel.js:448-452 | the site becomes current; the web view and the message with the site's reason are shown |
| `Hub.AiChatHub.ShowLoadErrorMessage` | sidepanel.js:515-548 | records the load-error view for the site and changes nothing else |
| `Hub.AiChatHub.ShowAuthNotification` | sidepanel.js:423-446 | records the auth notice and changes nothing else |
| `Hub.AiChatHub.MarkSiteAsNonEmbeddable` | sidepanel.js:341-351 | updates the table as `MarkNonEmbeddable` says, never clears a flag, and shows the message only when the marked site is the current one |
| `Hub.AiChatHub.HandleCSPViolation` | sidepanel.js:197-214 | state changes only when the report's site (`CspTarget`) exists; that site is then marked with the fixed CSP reason |
| `Hub.AiChatHub.HandleFrameLoad` | sidepanel.js:355-382 | a cross-origin frame changes nothing; an inspectable load zeroes the current site's counter and raises the auth notice exactly when the URL is an auth redirect |
| `Hub.AiChatHub.TryFallbackUrl` | sidepanel.js:406-421 | the new counters, `src` and effects are exactly one `FallbackStep`, and every counter stays within its bound |
| `Hub.AiChatHub.HandleFrameError` | sidepanel.js:384-389 | one fallback step for the current site; with no current site, nothing changes |
| `Hub.AiChatHub.OnFrameLoadEvent` | sidepanel.js:179-185 | the two `load` listeners leave the counters as after one load, but raise the auth notice twice |
| `Hub.AiChatHub.OnFrameErrorEvent` | sidepanel.js:188-194 | the two `error` listeners take two fallback steps for the current site |
| `Hub.AiChatHub.OnFrameErrorEventOnce` | sidepanel.js:166 | one registered `error` listener takes one fallback step |
| `Hub.AiChatHub.HandleOptionClick` | sidepanel.js:604-630 | `api` opens the chat or key-setup view. A non-embeddable site shows its message with no navigation, no counter change and no `lastSite` save. An embeddable site becomes current, its counter resets to 0, and `src` is assigned its primary URL only if `src` differs. All other paths save `lastSite` |
| `Hub.AiChatHub.ShowWelcomeScreen` | sidepanel.js:749-753 | no current site, and null saved as `lastSite` |

## Left out

- Rendering: the HTML of the non-embeddable, load-error and auth messages, the
  API-card expand/collapse, the settings modal and class toggling
  (sidepanel.js:423-573, 632-756). Each shown view or message is one entry in
  `effects`. What the frame displays afterwards (`srcdoc` over `src`) is not
  modelled.
- Storage: `loadSetting`, `saveSetting`, `loadLastState`, `loadSettings`,
  `saveApiKey` and `saveServiceApiKey` use asynchronous `chrome.storage`. A
  `lastSite` write is recorded as an effect. The stored API key is a
  constructor parameter.
- Timers and liveness probing: `checkFrameContent`, the `setTimeout` calls and
  `frameLoadTimeout`, which is cleared but never set. None of them changes
  state.
- The first `handleFrameLoad` (sidepanel.js:217-254) is replaced by the later
  definition and never runs.
- Browser calls: `chrome.tabs.create`, the Retry button's `location.reload()`
  and the reload button (`src = src`). A page reload simply constructs a new
  object.
- background.js: context-menu and side-panel registration only.
- Whether and when the browser fires `load`, `error` or
  `securitypolicyviolation` is up to the browser. The model takes each event as
  given.
- Display names: they are used only for rendering.
- Keys that name `Object.prototype` members (such as `toString`) count as
  unknown. In JavaScript they would find an inherited property.
- `src` is compared as the raw string last assigned. The browser normalises
  the reflected `src` (for example by appending `/` to `https://www.pplx.ai`),
  and that normalisation is not modelled.
- The `api` entry leaves `embeddable` undefined. It is modelled as
  `true`, because the only test is `=== false`.
- Strings.ToLower: ASCII only. Full Unicode case mapping is not modelled.
- Classifier.Hostname: weaker than `new URL(u).hostname`. It reads the text
  after the first `://` up to `/`, `?`, `#` or `:`, and treats a URL without
  `://` or with an empty host as unparsable. Userinfo, IPv6 literals, IDNA and
  the rest of URL parsing are not modelled. Every URL of the shipped table is
  plain, so the `catch` branches of `findSiteKeyByUrl` are modelled but never
  taken for it.

## Findings

| source | as written | input that shows it | evidently intended | confidence | as-written member | corrected member |
|---|---|---|---|---|---|---|
| sidepanel.js:188-194 | the frame's `error` listener is registered again in `setupFrameMonitoring`, after the one at line 166, so one error event runs `tryFallbackUrl` twice | activate `gemini` (counter 0), then one frame error event: `src` becomes `https://gemini.google.com/app` and at once `https://bard.google.com/`, the first fallback never loads, and the counter ends at 2 | one fallback per failed load | medium, not executed | `Hub.ErrorEventSkipsFirstFallback` | `Hub.SingleErrorLoadsNextFallback` |
