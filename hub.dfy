/** The `AiChatHub` controller of sidepanel.js, reduced to the state its
    embed-and-fallback logic reads and writes: the site table, the attempt
    counters, the current site and the frame's `src`. Everything it asks of
    the browser (showing a view, navigating the frame, rendering a message,
    the auth notice, saving `lastSite`) is appended to `effects`, in order. */
module Hub {
  import opened Wrappers
  import opened Registry
  import opened Classifier
  import opened Resolver

  /** The four top-level views `showView` can reveal. */
  datatype View = WelcomeScreen | WebContainer | ApiKeySetup | ChatContainer

  /** One request the controller makes of the page or the browser. */
  datatype Effect =
    | ViewShown(view: View)                          // showView
    | FrameNavigated(url: string)                    // webFrame.src = url
    | NonEmbeddableShown(key: string, reason: string) // showNonEmbeddableMessage
    | LoadErrorShown(key: string)                    // showLoadErrorMessage
    | AuthNoticeShown                                // showAuthNotification
    | LastSiteSaved(site: Option<string>)            // saveSetting('lastSite', ...)

  /** `config.reason || 'security restrictions'`. */
  function ShownReason(c: SiteConfig): (r: string)
    ensures r != ""
    ensures c.reason.Some? && c.reason.value != "" ==> r == c.reason.value
  {
    if c.reason.Some? && c.reason.value != "" then c.reason.value else "security restrictions"
  }

  /** What an inspectable frame load does to the counters: the current
      site's, if any, goes back to 0. */
  function ResetCurrent(attempts: map<string, nat>, current: Option<string>): (r: map<string, nat>)
    ensures current.Some? ==> AttemptsOf(r, current.value) == 0
    ensures forall k :: (current.None? || k != current.value) ==> AttemptsOf(r, k) == AttemptsOf(attempts, k)
  {
    if current.Some? then attempts[current.value := 0] else attempts
  }

  /** A second reset changes nothing: the repeated `load` listener is harmless
      to the counters. */
  lemma ResetCurrentIdempotent(attempts: map<string, nat>, current: Option<string>)
    ensures ResetCurrent(ResetCurrent(attempts, current), current) == ResetCurrent(attempts, current)
  {
  }

  /** The part of the controller one fallback step touches. */
  datatype FrameState = FrameState(attempts: map<string, nat>, src: string, effects: seq<Effect>)

  /** The state after one `tryFallbackUrl(key)`: per DecideFallback, either
      nothing, or the next fallback loaded with the counter advanced, or the
      load-error view requested. */
  function FallbackStep(sites: seq<SiteConfig>, key: string, f: FrameState): (g: FrameState)
    ensures forall k :: k != key ==> AttemptsOf(g.attempts, k) == AttemptsOf(f.attempts, k)
    ensures f.effects <= g.effects && |g.effects| <= |f.effects| + 1
  {
    match DecideFallback(Lookup(sites, key), AttemptsOf(f.attempts, key))
    case Ignore => f
    case Load(u, a) => FrameState(f.attempts[key := a], u, f.effects + [FrameNavigated(u)])
    case Exhausted => f.(effects := f.effects + [LoadErrorShown(key)])
  }

  /** `n` fallback steps in a row for the same key. */
  function FallbackSteps(sites: seq<SiteConfig>, key: string, f: FrameState, n: nat): FrameState
    decreases n
  {
    if n == 0 then f else FallbackSteps(sites, key, FallbackStep(sites, key, f), n - 1)
  }

  /** Repeated steps follow Run: the counter ends where Run says and the
      frame shows the last URL Run loads (or keeps its `src` if none). */
  lemma {:induction false} StepsFollowRun(sites: seq<SiteConfig>, key: string, f: FrameState, n: nat)
    requires Known(sites, key)
    ensures var r := Run(Lookup(sites, key).value, AttemptsOf(f.attempts, key), n);
            var g := FallbackSteps(sites, key, f, n);
            AttemptsOf(g.attempts, key) == r.1 &&
            g.src == (if r.0 == [] then f.src else r.0[|r.0| - 1])
    decreases n
  {
    if n > 0 {
      StepsFollowRun(sites, key, FallbackStep(sites, key, f), n - 1);
    }
  }

  /** Below the bound, each step requests exactly one navigation, to the
      next fallback in declared order. */
  lemma {:induction false} StepsNavigateInOrder(sites: seq<SiteConfig>, key: string, f: FrameState, n: nat)
    requires Known(sites, key) && Lookup(sites, key).value.fallbackUrls.Some?
    requires AttemptsOf(f.attempts, key) + n <= |Lookup(sites, key).value.fallbackUrls.value|
    ensures var fbs := Lookup(sites, key).value.fallbackUrls.value;
            var a := AttemptsOf(f.attempts, key);
            FallbackSteps(sites, key, f, n).effects ==
              f.effects + seq(n, i requires 0 <= i < n => FrameNavigated(fbs[a + i]))
    decreases n
  {
    if n > 0 {
      var fbs := Lookup(sites, key).value.fallbackUrls.value;
      var a := AttemptsOf(f.attempts, key);
      var g := FallbackStep(sites, key, f);
      assert DecideFallback(Lookup(sites, key), a) == Load(fbs[a], a + 1);
      assert g.effects == f.effects + [FrameNavigated(fbs[a])];
      assert AttemptsOf(g.attempts, key) == a + 1;
      StepsNavigateInOrder(sites, key, g, n - 1);
      assert [FrameNavigated(fbs[a])] + seq(n - 1, i requires 0 <= i < n - 1 => FrameNavigated(fbs[a + 1 + i]))
          == seq(n, i requires 0 <= i < n => FrameNavigated(fbs[a + i]));
    }
  }

  /** Once a site's counter has reached its number of fallbacks, every
      further step only requests the load-error view: no navigation, no
      change to `src` or to the counters. */
  lemma {:induction false} ExhaustedStepsOnlyReportError(sites: seq<SiteConfig>, key: string, f: FrameState, m: nat)
    requires Known(sites, key) && Lookup(sites, key).value.fallbackUrls.Some?
    requires AttemptsOf(f.attempts, key) >= |Lookup(sites, key).value.fallbackUrls.value|
    ensures FallbackSteps(sites, key, f, m) == f.(effects := f.effects + seq(m, _ => LoadErrorShown(key)))
    decreases m
  {
    if m > 0 {
      var g := FallbackStep(sites, key, f);
      assert g == f.(effects := f.effects + [LoadErrorShown(key)]);
      ExhaustedStepsOnlyReportError(sites, key, g, m - 1);
      assert f.effects + [LoadErrorShown(key)] + seq(m - 1, _ => LoadErrorShown(key))
          == f.effects + seq(m, _ => LoadErrorShown(key));
    }
  }

  /** After an activation (counter 0), `n` error steps with `n` at most the
      number of fallbacks leave the frame on the `n`-th fallback with the
      counter at `n`, having requested navigations to exactly the first `n`
      fallbacks in declared order; further steps never navigate again and each only
      requests the load-error view. */
  lemma ErrorStreakAfterActivation(sites: seq<SiteConfig>, key: string, f: FrameState, n: nat, m: nat)
    requires Known(sites, key) && Lookup(sites, key).value.fallbackUrls.Some?
    requires AttemptsOf(f.attempts, key) == 0
    requires 0 < n <= |Lookup(sites, key).value.fallbackUrls.value|
    ensures var fbs := Lookup(sites, key).value.fallbackUrls.value;
            var g := FallbackSteps(sites, key, f, n);
            g.src == fbs[n - 1] && AttemptsOf(g.attempts, key) == n &&
            g.effects == f.effects + seq(n, i requires 0 <= i < n => FrameNavigated(fbs[i]))
    ensures var fbs := Lookup(sites, key).value.fallbackUrls.value;
            var g := FallbackSteps(sites, key, f, |fbs|);
            FallbackSteps(sites, key, g, m).src == g.src &&
            AttemptsOf(FallbackSteps(sites, key, g, m).attempts, key) == |fbs|
    ensures var fbs := Lookup(sites, key).value.fallbackUrls.value;
            var g := FallbackSteps(sites, key, f, |fbs|);
            var h := FallbackSteps(sites, key, g, m);
            |h.effects| == |g.effects| + m &&
            forall i :: |g.effects| <= i < |h.effects| ==>
              !h.effects[i].FrameNavigated? && h.effects[i] == LoadErrorShown(key)
  {
    var c := Lookup(sites, key).value;
    var fbs := c.fallbackUrls.value;
    ActivationThenErrors(c, n, m);
    StepsFollowRun(sites, key, f, n);
    StepsNavigateInOrder(sites, key, f, n);
    ActivationThenErrors(c, |fbs|, m);
    StepsFollowRun(sites, key, f, |fbs|);
    StepsFollowRun(sites, key, FallbackSteps(sites, key, f, |fbs|), m);
    ExhaustedStepsOnlyReportError(sites, key, FallbackSteps(sites, key, f, |fbs|), m);
  }

  /** One DOM `error` event runs two fallback steps (the listener is
      registered twice): right after an activation it navigates to the first
      fallback and, in the same turn, on to the second, so the first fallback
      is replaced before it can load. */
  lemma ErrorEventSkipsFirstFallback(sites: seq<SiteConfig>, key: string, f: FrameState)
    requires Known(sites, key) && Lookup(sites, key).value.fallbackUrls.Some?
    requires |Lookup(sites, key).value.fallbackUrls.value| >= 2
    requires AttemptsOf(f.attempts, key) == 0
    ensures var fbs := Lookup(sites, key).value.fallbackUrls.value;
            var g := FallbackStep(sites, key, FallbackStep(sites, key, f));
            g.src == fbs[1] && AttemptsOf(g.attempts, key) == 2 &&
            g.effects == f.effects + [FrameNavigated(fbs[0]), FrameNavigated(fbs[1])]
  {
  }

  /** With the listener registered once, an `error` event right after an
      activation loads only the first fallback. */
  lemma SingleErrorLoadsNextFallback(sites: seq<SiteConfig>, key: string, f: FrameState)
    requires Known(sites, key) && Lookup(sites, key).value.fallbackUrls.Some?
    requires |Lookup(sites, key).value.fallbackUrls.value| >= 1
    requires AttemptsOf(f.attempts, key) == 0
    ensures var fbs := Lookup(sites, key).value.fallbackUrls.value;
            var g := FallbackStep(sites, key, f);
            g.src == fbs[0] && AttemptsOf(g.attempts, key) == 1 &&
            g.effects == f.effects + [FrameNavigated(fbs[0])]
  {
  }

  class AiChatHub {
    /** `siteConfigs`, in declaration order. */
    var sites: seq<SiteConfig>
    /** `loadAttempts`. */
    var loadAttempts: map<string, nat>
    /** `currentSiteKey`; `None` for null or never set. */
    var currentSiteKey: Option<string>
    /** `webFrame.src`, as last assigned. */
    var src: string
    /** `apiKey`; the empty string stands for null. */
    var apiKey: string
    /** The requests made of the page and the browser, oldest first. */
    var effects: seq<Effect>
    /** The table as constructed; only `embeddable`/`reason` may drift from it. */
    ghost const table: seq<SiteConfig>

    /** Only `embeddable`/`reason` of the table ever change, and the current
        site, when set, is in the table. */
    ghost predicate TableValid()
      reads this`sites, this`currentSiteKey
    {
      && SameShape(sites, table)
      && WellFormed(sites)
      && (currentSiteKey.Some? ==> Known(sites, currentSiteKey.value))
    }

    /** Every counter belongs to a site and stays within that site's
        fallback count. */
    ghost predicate CountersValid()
      reads this`sites, this`loadAttempts
    {
      AttemptsBounded(sites, loadAttempts)
    }

    ghost predicate Valid()
      reads this`sites, this`loadAttempts, this`currentSiteKey
    {
      TableValid() && CountersValid()
    }

    /** The object after its constructor and the API-key part of
        `loadSettings` (`storedApiKey` is what storage held, "" for none). */
    constructor (frameSrc: string, storedApiKey: string)
      ensures Valid()
      ensures sites == table == InitialSiteConfigs() && loadAttempts == map[] && currentSiteKey == None
      ensures src == frameSrc && apiKey == storedApiKey && effects == []
    {
      InitialTableFacts();
      sites := InitialSiteConfigs();
      table := sites;
      loadAttempts := map[];
      currentSiteKey := None;
      src := frameSrc;
      apiKey := storedApiKey;
      effects := [];
    }

    /** `showView(view, siteKey)`: the current site becomes `siteKey` when it
        names a table entry, and null otherwise. */
    method ShowView(view: View, siteKey: Option<string>)
      requires Valid()
      modifies this`currentSiteKey, this`effects
      ensures Valid()
      ensures currentSiteKey == (if siteKey.Some? && Known(sites, siteKey.value) then siteKey else None)
      ensures effects == old(effects) + [ViewShown(view)]
    {
      effects := effects + [ViewShown(view)];
      if siteKey.Some? && Known(sites, siteKey.value) {
        currentSiteKey := siteKey;
      } else {
        currentSiteKey := None;
      }
    }

    /** `webFrame.src = url`. */
    method SetFrameSrc(url: string)
      modifies this`src, this`effects
      ensures src == url && effects == old(effects) + [FrameNavigated(url)]
    {
      src := url;
      effects := effects + [FrameNavigated(url)];
    }

    /** `showNonEmbeddableMessage(siteKey)`: the web view for the site, with
        the message naming its reason in place of the page. */
    method ShowNonEmbeddableMessage(siteKey: string)
      requires Valid() && Known(sites, siteKey)
      modifies this`currentSiteKey, this`effects
      ensures Valid()
      ensures currentSiteKey == Some(siteKey)
      ensures effects == old(effects) +
                [ViewShown(WebContainer), NonEmbeddableShown(siteKey, ShownReason(Lookup(sites, siteKey).value))]
    {
      var reason := ShownReason(Lookup(sites, siteKey).value);
      ShowView(WebContainer, Some(siteKey));
      effects := effects + [NonEmbeddableShown(siteKey, reason)];
    }

    /** `showLoadErrorMessage(siteKey)`. */
    method ShowLoadErrorMessage(siteKey: string)
      requires Known(sites, siteKey)
      modifies this`effects
      ensures effects == old(effects) + [LoadErrorShown(siteKey)]
    {
      effects := effects + [LoadErrorShown(siteKey)];
    }

    /** `showAuthNotification()`. */
    method ShowAuthNotification()
      modifies this`effects
      ensures effects == old(effects) + [AuthNoticeShown]
    {
      effects := effects + [AuthNoticeShown];
    }

    /** `markSiteAsNonEmbeddable(siteKey, reason)`: a known site becomes
        non-embeddable with this reason and nothing else in the table
        changes; if it is the current site, its message is shown. An unknown
        key changes nothing. */
    method MarkSiteAsNonEmbeddable(siteKey: string, reason: string)
      requires Valid()
      modifies this`sites, this`currentSiteKey, this`effects
      ensures Valid()
      ensures sites == MarkNonEmbeddable(old(sites), siteKey, reason)
      ensures forall i :: 0 <= i < |sites| && !old(sites)[i].embeddable ==> !sites[i].embeddable
      ensures currentSiteKey == old(currentSiteKey)
      ensures effects == old(effects) +
                if Known(old(sites), siteKey) && old(currentSiteKey) == Some(siteKey)
                then [ViewShown(WebContainer),
                      NonEmbeddableShown(siteKey, if reason != "" then reason else "security restrictions")]
                else []
    {
      if Known(sites, siteKey) {
        var marked := MarkNonEmbeddable(sites, siteKey, reason);
        SameShapeLookup(marked, sites, siteKey);
        SameShapeKeepsBounded(marked, sites, loadAttempts);
        SameShapeWellFormed(marked, sites);
        if currentSiteKey.Some? {
          SameShapeLookup(marked, sites, currentSiteKey.value);
        }
        sites := marked;
        if currentSiteKey == Some(siteKey) {
          ShowNonEmbeddableMessage(siteKey);
        }
      }
    }

    /** `handleCSPViolation(event)`: a frame-embedding violation whose first
        non-empty URL maps to a site marks that site with the fixed CSP
        reason; any other report changes nothing. */
    method HandleCSPViolation(e: CspReport)
      requires Valid()
      modifies this`sites, this`currentSiteKey, this`effects
      ensures Valid()
      ensures var t := CspTarget(old(sites), e);
              sites == (if t.Some? then MarkNonEmbeddable(old(sites), t.value, CspReason) else old(sites))
      ensures currentSiteKey == old(currentSiteKey)
      ensures var t := CspTarget(old(sites), e);
              effects == old(effects) +
                if t.Some? && old(currentSiteKey) == t
                then [ViewShown(WebContainer), NonEmbeddableShown(t.value, CspReason)]
                else []
    {
      if IsFrameDirective(e.violatedDirective) {
        var blockedUrl := BlockedUrl(e);
        var siteKey := FindSiteKeyByUrl(sites, blockedUrl);
        if siteKey.Some? {
          MarkSiteAsNonEmbeddable(siteKey.value, CspReason);
        }
      }
    }

    /** `handleFrameLoad()` (the later of its two definitions, which replaces
        the first). `frameUrl` is the frame's location, or `None` when
        reading it throws (a cross-origin frame): then nothing changes.
        Otherwise the current site's counter goes back to 0 and the auth
        notice is shown exactly when the URL is an auth redirect. */
    method HandleFrameLoad(frameUrl: Option<string>)
      requires Valid()
      modifies this`loadAttempts, this`effects
      ensures Valid()
      ensures frameUrl.None? ==> loadAttempts == old(loadAttempts) && effects == old(effects)
      ensures frameUrl.Some? ==> loadAttempts == ResetCurrent(old(loadAttempts), currentSiteKey)
      ensures frameUrl.Some? ==>
                effects == old(effects) + if IsAuthRedirect(frameUrl.value) then [AuthNoticeShown] else []
    {
      match frameUrl
      case None =>
      case Some(currentUrl) =>
        if currentSiteKey.Some? {
          ResetRestartsFromFirstFallback(sites, loadAttempts, currentSiteKey.value);
          loadAttempts := loadAttempts[currentSiteKey.value := 0];
        }
        if IsAuthRedirect(currentUrl) {
          ShowAuthNotification();
        }
    }

    /** `tryFallbackUrl(siteKey)`: one step of the fallback policy. */
    method TryFallbackUrl(siteKey: string)
      requires Valid()
      modifies this`loadAttempts, this`src, this`effects
      ensures Valid()
      ensures FrameState(loadAttempts, src, effects)
           == FallbackStep(sites, siteKey, FrameState(old(loadAttempts), old(src), old(effects)))
    {
      var config := Lookup(sites, siteKey);
      ghost var before := FrameState(loadAttempts, src, effects);
      if config.None? || config.value.fallbackUrls.None? {
        assert FallbackStep(sites, siteKey, before) == before;
        return;
      }
      var fallbackUrls := config.value.fallbackUrls.value;
      var attempts := AttemptsOf(loadAttempts, siteKey);
      if attempts < |fallbackUrls| {
        var fallbackUrl := fallbackUrls[attempts];
        assert DecideFallback(config, attempts) == Load(fallbackUrl, attempts + 1);
        DecideKeepsBounded(sites, loadAttempts, siteKey);
        loadAttempts := loadAttempts[siteKey := attempts + 1];
        SetFrameSrc(fallbackUrl);
      } else {
        assert DecideFallback(config, attempts) == Exhausted;
        ShowLoadErrorMessage(siteKey);
      }
    }

    /** `handleFrameError(event)`: a fallback step for the current site, if
        there is one. */
    method HandleFrameError()
      requires Valid()
      modifies this`loadAttempts, this`src, this`effects
      ensures Valid()
      ensures currentSiteKey.None? ==>
                loadAttempts == old(loadAttempts) && src == old(src) && effects == old(effects)
      ensures currentSiteKey.Some? ==>
                (FrameState(loadAttempts, src, effects) ==
                 FallbackStep(sites, currentSiteKey.value, FrameState(old(loadAttempts), old(src), old(effects))))
    {
      if currentSiteKey.Some? {
        TryFallbackUrl(currentSiteKey.value);
      }
    }

    /** A DOM `load` event on the frame: `handleFrameLoad` runs once per
        registered listener, twice. The counter ends as after one run; an
        auth redirect raises the notice twice. */
    method OnFrameLoadEvent(frameUrl: Option<string>)
      requires Valid()
      modifies this`loadAttempts, this`effects
      ensures Valid()
      ensures frameUrl.None? ==> loadAttempts == old(loadAttempts) && effects == old(effects)
      ensures frameUrl.Some? ==> loadAttempts == ResetCurrent(old(loadAttempts), currentSiteKey)
      ensures frameUrl.Some? ==>
                effects == old(effects) +
                  if IsAuthRedirect(frameUrl.value) then [AuthNoticeShown, AuthNoticeShown] else []
    {
      HandleFrameLoad(frameUrl);
      ghost var once := effects;
      HandleFrameLoad(frameUrl);
      if frameUrl.Some? && IsAuthRedirect(frameUrl.value) {
        assert effects == once + [AuthNoticeShown];
      }
      if frameUrl.Some? {
        ResetCurrentIdempotent(old(loadAttempts), currentSiteKey);
      }
    }

    /** A DOM `error` event on the frame as the code is written: the
        `error` listener is registered twice, so `handleFrameError` runs
        twice and two fallback steps are taken. */
    method OnFrameErrorEvent()
      requires Valid()
      modifies this`loadAttempts, this`src, this`effects
      ensures Valid()
      ensures currentSiteKey.None? ==>
                loadAttempts == old(loadAttempts) && src == old(src) && effects == old(effects)
      ensures currentSiteKey.Some? ==>
                (FrameState(loadAttempts, src, effects) ==
                 FallbackSteps(sites, currentSiteKey.value, FrameState(old(loadAttempts), old(src), old(effects)), 2))
    {
      HandleFrameError();
      HandleFrameError();
    }

    /** A DOM `error` event with the listener registered once: one fallback
        step. */
    method OnFrameErrorEventOnce()
      requires Valid()
      modifies this`loadAttempts, this`src, this`effects
      ensures Valid()
      ensures currentSiteKey.None? ==>
                loadAttempts == old(loadAttempts) && src == old(src) && effects == old(effects)
      ensures currentSiteKey.Some? ==>
                (FrameState(loadAttempts, src, effects) ==
                 FallbackSteps(sites, currentSiteKey.value, FrameState(old(loadAttempts), old(src), old(effects)), 1))
    {
      HandleFrameError();
    }

    /** `handleOptionClick(siteKey)`. `api` opens the chat view when an API
        key is set and its setup view otherwise. A known site marked
        non-embeddable gets its message and the method returns before
        anything else: no navigation, no counter change, no `lastSite`
        save. Any other known site becomes current, its counter is reset and
        the frame is pointed at its primary URL unless already there. Every
        path but the non-embeddable one saves the key as `lastSite`, an
        unknown key included. */
    method HandleOptionClick(siteKey: string)
      requires Valid()
      modifies this`currentSiteKey, this`loadAttempts, this`src, this`effects
      ensures Valid()
      ensures siteKey == "api" ==>
                currentSiteKey == Some("api") &&
                loadAttempts == old(loadAttempts) && src == old(src) &&
                effects == old(effects) +
                  [ViewShown(if apiKey != "" then ChatContainer else ApiKeySetup), LastSiteSaved(Some("api"))]
      ensures siteKey != "api" && !Known(sites, siteKey) ==>
                currentSiteKey == old(currentSiteKey) &&
                loadAttempts == old(loadAttempts) && src == old(src) &&
                effects == old(effects) + [LastSiteSaved(Some(siteKey))]
      ensures siteKey != "api" && Known(sites, siteKey) && !Lookup(sites, siteKey).value.embeddable ==>
                currentSiteKey == Some(siteKey) &&
                loadAttempts == old(loadAttempts) && src == old(src) &&
                effects == old(effects) +
                  [ViewShown(WebContainer), NonEmbeddableShown(siteKey, ShownReason(Lookup(sites, siteKey).value))]
      ensures siteKey != "api" && Known(sites, siteKey) && Lookup(sites, siteKey).value.embeddable ==>
                var c := Lookup(sites, siteKey).value;
                c.url.Some? && currentSiteKey == Some(siteKey) &&
                loadAttempts == old(loadAttempts)[siteKey := 0] && src == c.url.value &&
                effects == old(effects) + [ViewShown(WebContainer)] +
                  (if old(src) != c.url.value then [FrameNavigated(c.url.value)] else []) +
                  [LastSiteSaved(Some(siteKey))]
    {
      if siteKey == "api" {
        if apiKey != "" {
          ShowView(ChatContainer, Some("api"));
        } else {
          ShowView(ApiKeySetup, Some("api"));
        }
      } else if Known(sites, siteKey) {
        var config := Lookup(sites, siteKey).value;
        assert config == sites[IndexOf(sites, siteKey).value] && config.url.Some?;
        if !config.embeddable {
          ShowNonEmbeddableMessage(siteKey);
          return;
        }
        ShowView(WebContainer, Some(siteKey));
        ResetRestartsFromFirstFallback(sites, loadAttempts, siteKey);
        loadAttempts := loadAttempts[siteKey := 0];
        if src != config.url.value {
          SetFrameSrc(config.url.value);
        }
        assert effects == old(effects) + [ViewShown(WebContainer)] +
          (if old(src) != config.url.value then [FrameNavigated(config.url.value)] else []);
      }
      effects := effects + [LastSiteSaved(Some(siteKey))];
    }

    /** `showWelcomeScreen()`: no current site, and null saved as
        `lastSite`. */
    method ShowWelcomeScreen()
      requires Valid()
      modifies this`currentSiteKey, this`effects
      ensures Valid()
      ensures currentSiteKey == None
      ensures effects == old(effects) + [ViewShown(WelcomeScreen), LastSiteSaved(None)]
    {
      ShowView(WelcomeScreen, None);
      effects := effects + [LastSiteSaved(None)];
    }
  }
}
