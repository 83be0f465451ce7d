/** The pure URL tests of sidepanel.js: which site a URL belongs to
    (`findSiteKeyByUrl`), the blocked-page and auth-redirect pattern tests
    (`isBlockedPage`, `isAuthRedirect`) and which site a CSP violation
    report names (the test inside `handleCSPViolation`). */
module Classifier {
  import opened Wrappers
  import opened Strings
  import opened Registry

  /** The text after the first "://" of `u`, or `None` when there is none. */
  function AfterScheme(u: string): (r: Option<string>)
    ensures r.Some? ==> |r.value| + 3 <= |u| && r.value == u[|u| - |r.value|..]
    decreases |u|
  {
    if |u| < 3 then None
    else if u[..3] == "://" then Some(u[3..])
    else AfterScheme(u[1..])
  }

  /** An occurrence at `i >= 1` in `u` is one at `i - 1` in `u[1..]`. */
  lemma OccursAtShift(u: string, p: string, i: int)
    requires 1 <= i && |u| >= 1
    ensures OccursAt(u, p, i) <==> OccursAt(u[1..], p, i - 1)
  {
    if i + |p| <= |u| {
      assert u[1..][i - 1..i - 1 + |p|] == u[1 + (i - 1)..1 + (i - 1) + |p|];
    }
  }

  /** AfterScheme cuts at the first occurrence of "://", and finds nothing
      exactly when "://" does not occur. */
  lemma {:induction false} AfterSchemeCutsAtFirstSeparator(u: string)
    ensures var r := AfterScheme(u);
            (r.Some? ==> OccursAt(u, "://", |u| - |r.value| - 3) &&
                         forall i :: 0 <= i < |u| - |r.value| - 3 ==> !OccursAt(u, "://", i)) &&
            (r.None? <==> forall i :: !OccursAt(u, "://", i))
    decreases |u|
  {
    if |u| < 3 {
      assert AfterScheme(u).None?;
    } else if u[..3] == "://" {
      assert AfterScheme(u) == Some(u[3..]);
      assert OccursAt(u, "://", 0);
    } else {
      var t := u[1..];
      assert AfterScheme(u) == AfterScheme(t);
      AfterSchemeCutsAtFirstSeparator(t);
      assert !OccursAt(u, "://", 0);
      var r := AfterScheme(t);
      if r.Some? {
        var k := |t| - |r.value| - 3;
        OccursAtShift(u, "://", k + 1);
        forall i | 1 <= i < k + 1
          ensures !OccursAt(u, "://", i)
        {
          OccursAtShift(u, "://", i);
        }
      } else {
        forall i
          ensures !OccursAt(u, "://", i)
        {
          if i >= 1 {
            OccursAtShift(u, "://", i);
          }
        }
      }
    }
  }

  predicate EndsHost(c: char) {
    c == '/' || c == '?' || c == '#' || c == ':'
  }

  /** The longest prefix of `s` holding no character that ends a host. */
  function HostPrefix(s: string): (h: string)
    ensures |h| <= |s| && h == s[..|h|]
    ensures forall i :: 0 <= i < |h| ==> !EndsHost(h[i])
    ensures |h| < |s| ==> EndsHost(s[|h|])
  {
    if s == [] || EndsHost(s[0]) then [] else [s[0]] + HostPrefix(s[1..])
  }

  /** `new URL(u).hostname.toLowerCase()` for the plain absolute URLs of the
      table: the lower-cased text after "://" up to the first '/', '?', '#'
      or ':'. `None` stands for the constructor throwing (no "://", or an
      empty host). */
  function Hostname(u: string): (r: Option<string>)
    ensures r.Some? ==> r.value != "" && IsLowerCase(r.value)
  {
    match AfterScheme(u)
    case None => None
    case Some(rest) =>
      var h := HostPrefix(rest);
      if h == "" then None else Some(ToLower(h))
  }

  /** One configured URL matches the lower-cased candidate `lu`: its hostname
      occurs in `lu`, or, when the configured URL does not parse, the whole
      lower-cased configured URL occurs in `lu`. */
  function UrlMatches(configUrl: string, lu: string): (r: bool)
    ensures Hostname(configUrl).Some? ==>
              (r <==> exists i :: OccursAt(lu, Hostname(configUrl).value, i))
  {
    match Hostname(configUrl)
    case Some(h) => Contains(lu, h)
    case None => Contains(lu, ToLower(configUrl))
  }

  /** A configured URL that does not parse matches exactly the candidates
      containing its lower-cased text. */
  lemma UrlMatchesUnparsed(configUrl: string, lu: string)
    requires Hostname(configUrl).None?
    ensures UrlMatches(configUrl, lu) <==> exists i :: OccursAt(lu, ToLower(configUrl), i)
  {
    var lc := ToLower(configUrl);
    assert UrlMatches(configUrl, lu) == Contains(lu, lc);
    if Contains(lu, lc) {
      var i :| OccursAt(lu, lc, i);
      assert OccursAt(lu, ToLower(configUrl), i);
    } else {
      forall i
        ensures !OccursAt(lu, ToLower(configUrl), i)
      {
        assert !OccursAt(lu, lc, i);
      }
    }
  }

  /** Some URL of `urls` matches `lu` (the `for ... of` over `fallbackUrls`
      returns at the first one, so only existence matters). */
  function AnyUrlMatches(urls: seq<string>, lu: string): (r: bool)
    ensures r <==> exists i :: 0 <= i < |urls| && UrlMatches(urls[i], lu)
  {
    if urls == [] then false
    else UrlMatches(urls[0], lu) || AnyUrlMatches(urls[1..], lu)
  }

  /** An entry matches `lu` through its primary URL, when that is present
      and non-empty (`if (config.url)`), or through one of its fallbacks. */
  function SiteMatches(c: SiteConfig, lu: string): (r: bool)
    ensures r <==>
              (c.url.Some? && c.url.value != "" && UrlMatches(c.url.value, lu)) ||
              (c.fallbackUrls.Some? &&
                exists i :: 0 <= i < |c.fallbackUrls.value| && UrlMatches(c.fallbackUrls.value[i], lu))
  {
    (c.url.Some? && c.url.value != "" && UrlMatches(c.url.value, lu)) ||
    (c.fallbackUrls.Some? && AnyUrlMatches(c.fallbackUrls.value, lu))
  }

  /** Position of the first entry, in table order, that matches `lu`. */
  function FirstMatch(sites: seq<SiteConfig>, lu: string): (r: Option<nat>)
    ensures r.Some? ==> r.value < |sites| && SiteMatches(sites[r.value], lu)
    ensures r.Some? ==> forall j :: 0 <= j < r.value ==> !SiteMatches(sites[j], lu)
    ensures r.None? <==> forall j :: 0 <= j < |sites| ==> !SiteMatches(sites[j], lu)
  {
    if sites == [] then None
    else if SiteMatches(sites[0], lu) then Some(0)
    else match FirstMatch(sites[1..], lu)
      case None => None
      case Some(i) => Some(i + 1)
  }

  /** `findSiteKeyByUrl(url)`: null for an empty URL; otherwise the key of
      the first entry, in table order, one of whose hostnames occurs in the
      lower-cased URL, and null when no entry's does. */
  function FindSiteKeyByUrl(sites: seq<SiteConfig>, url: string): (r: Option<string>)
    ensures url == "" ==> r.None?
    ensures r.None? && url != "" ==>
              forall j :: 0 <= j < |sites| ==> !SiteMatches(sites[j], ToLower(url))
    ensures r.Some? ==>
              exists i :: 0 <= i < |sites| && sites[i].key == r.value &&
                SiteMatches(sites[i], ToLower(url)) &&
                forall j :: 0 <= j < i ==> !SiteMatches(sites[j], ToLower(url))
  {
    if url == "" then None
    else match FirstMatch(sites, ToLower(url))
      case None => None
      case Some(i) => Some(sites[i].key)
  }

  /** The lookup ignores letter case: a URL and its lower-cased form name the
      same site. */
  lemma FindSiteKeyIgnoresCase(sites: seq<SiteConfig>, url: string)
    ensures FindSiteKeyByUrl(sites, url) == FindSiteKeyByUrl(sites, ToLower(url))
  {
    ToLowerIdempotent(url);
  }

  /** `api` has neither a URL nor fallbacks, so no URL is ever mapped to it. */
  lemma FindSiteKeyNeverApi(sites: seq<SiteConfig>, url: string)
    requires SameShape(sites, InitialSiteConfigs())
    ensures FindSiteKeyByUrl(sites, url) != Some("api")
  {
    InitialTableFacts();
  }

  /** The markers of a browser error or empty page (`isBlockedPage`). */
  function BlockedPatterns(): seq<string> {
    [ "chrome-error://",
      "chrome://network-error/",
      "about:blank",
      "data:text/html,chromewebdata",
      "chrome-extension://invalid" ]
  }

  /** The markers of an identity-provider page (`isAuthRedirect`). */
  function AuthPatterns(): seq<string> {
    [ "consent.google.com",
      "accounts.google.com",
      "auth0.openai.com",
      "login.microsoftonline.com",
      "login.live.com",
      "/auth/",
      "/login/",
      "/signin/" ]
  }

  /** `patterns.some(p => url.includes(p))`. */
  function ContainsAny(url: string, patterns: seq<string>): (r: bool)
    ensures r <==> exists i :: 0 <= i < |patterns| && Contains(url, patterns[i])
  {
    if patterns == [] then false
    else Contains(url, patterns[0]) || ContainsAny(url, patterns[1..])
  }

  /** `isBlockedPage(url)`: the URL contains one of the five error-page
      markers, compared case-sensitively. */
  function IsBlockedPage(url: string): (r: bool)
    ensures r <==> exists i :: 0 <= i < |BlockedPatterns()| && Contains(url, BlockedPatterns()[i])
  {
    ContainsAny(url, BlockedPatterns())
  }

  /** `isAuthRedirect(url)`: the URL contains one of the eight
      identity-provider markers, compared case-sensitively. */
  function IsAuthRedirect(url: string): (r: bool)
    ensures r <==> exists i :: 0 <= i < |AuthPatterns()| && Contains(url, AuthPatterns()[i])
  {
    ContainsAny(url, AuthPatterns())
  }

  /** A violation report as the `securitypolicyviolation` event carries it;
      an absent field is the empty string. */
  datatype CspReport = CspReport(
    violatedDirective: string,
    blockedURI: string,
    documentURI: string,
    sourceFile: string)

  /** The reason recorded for every embedding violation, whichever directive
      was violated. */
  const CspReason: string := "CSP frame-ancestors policy"

  /** The directive restricts embedding. */
  function IsFrameDirective(d: string): (r: bool)
    ensures r <==> (exists i :: OccursAt(d, "frame-ancestors", i)) ||
                   (exists i :: OccursAt(d, "frame-src", i))
  {
    Contains(d, "frame-ancestors") || Contains(d, "frame-src")
  }

  /** `blockedURI || documentURI || sourceFile`: the first non-empty one. */
  function BlockedUrl(e: CspReport): (u: string)
    ensures u == "" <==> e.blockedURI == "" && e.documentURI == "" && e.sourceFile == ""
    ensures u in [e.blockedURI, e.documentURI, e.sourceFile]
    ensures e.blockedURI != "" ==> u == e.blockedURI
    ensures e.blockedURI == "" && e.documentURI != "" ==> u == e.documentURI
  {
    if e.blockedURI != "" then e.blockedURI
    else if e.documentURI != "" then e.documentURI
    else e.sourceFile
  }

  /** The site `handleCSPViolation` marks: the site of the report's first
      non-empty URL, and only for a frame-embedding directive. */
  function CspTarget(sites: seq<SiteConfig>, e: CspReport): (r: Option<string>)
    ensures !IsFrameDirective(e.violatedDirective) || BlockedUrl(e) == "" ==> r.None?
    ensures r.None? && IsFrameDirective(e.violatedDirective) && BlockedUrl(e) != "" ==>
              forall j :: 0 <= j < |sites| ==> !SiteMatches(sites[j], ToLower(BlockedUrl(e)))
    ensures r.Some? ==>
              exists i :: 0 <= i < |sites| && sites[i].key == r.value &&
                SiteMatches(sites[i], ToLower(BlockedUrl(e))) &&
                forall j :: 0 <= j < i ==> !SiteMatches(sites[j], ToLower(BlockedUrl(e)))
  {
    if IsFrameDirective(e.violatedDirective) then FindSiteKeyByUrl(sites, BlockedUrl(e)) else None
  }

  /** On a table of the shipped shape, a violation report never marks `api`. */
  lemma CspTargetNeverApi(sites: seq<SiteConfig>, e: CspReport)
    requires SameShape(sites, InitialSiteConfigs())
    ensures CspTarget(sites, e) != Some("api")
  {
    FindSiteKeyNeverApi(sites, BlockedUrl(e));
  }
}
