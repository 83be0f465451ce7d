/** The site table `siteConfigs` of sidepanel.js: one entry per chat service,
    kept in declaration order, with an optional primary URL, an optional list
    of fallback URLs and the mutable `embeddable`/`reason` pair. */
module Registry {
  import opened Wrappers

  /** One entry of `siteConfigs`. A field the JavaScript object leaves out is
      `None`. `embeddable` is only ever tested with `=== false`, so the entry
      that leaves it undefined (`api`) carries `true`. The display name is
      used only for rendering and is not kept. */
  datatype SiteConfig = SiteConfig(
    key: string,
    url: Option<string>,
    fallbackUrls: Option<seq<string>>,
    embeddable: bool,
    reason: Option<string>)

  /** The table as the constructor builds it. */
  function InitialSiteConfigs(): seq<SiteConfig> {
    [ SiteConfig("api", None, None, true, None),
      SiteConfig("gemini", Some("https://gemini.google.com/"),
        Some(["https://gemini.google.com/app", "https://bard.google.com/"]), true, None),
      SiteConfig("chatgpt", Some("https://chatgpt.com/"),
        Some(["https://chat.openai.com/", "https://platform.openai.com/"]), true, None),
      SiteConfig("perplexity", Some("https://www.pplx.ai"),
        Some(["https://perplexity.ai/"]), true, Some("Strict CSP policy")),
      SiteConfig("copilot", Some("https://copilot.microsoft.com/chats"),
        Some(["https://copilot.microsoft.com/", "https://www.bing.com/chat"]), true, None),
      SiteConfig("claude", Some("https://claude.ai/new"),
        Some(["https://claude.ai/", "https://claude.ai/chats"]), true, None),
      SiteConfig("grok", Some("https://grok.com/"),
        Some(["https://x.com/", "https://accounts.x.ai"]), true, None),
      SiteConfig("meta", Some("https://meta.ai/"),
        Some(["https://ai.meta.com/", "https://www.facebook.com/"]), true, None) ]
  }

  /** Position of the entry named `key`: the first one, which is the only one
      in a table with distinct keys. */
  function IndexOf(sites: seq<SiteConfig>, key: string): (r: Option<nat>)
    ensures r.Some? ==> r.value < |sites| && sites[r.value].key == key
  {
    if sites == [] then None
    else if sites[0].key == key then Some(0)
    else match IndexOf(sites[1..], key)
      case None => None
      case Some(i) => Some(i + 1)
  }

  /** IndexOf finds the first entry with the key, and finds none exactly
      when no entry has it. */
  lemma {:induction false} IndexOfFirst(sites: seq<SiteConfig>, key: string)
    ensures var r := IndexOf(sites, key);
            (r.Some? ==> forall j :: 0 <= j < r.value ==> sites[j].key != key) &&
            (r.None? <==> forall j :: 0 <= j < |sites| ==> sites[j].key != key)
  {
    if sites != [] && sites[0].key != key {
      IndexOfFirst(sites[1..], key);
      assert forall j :: 1 <= j < |sites| ==> sites[j] == sites[1..][j - 1];
    }
  }

  /** `this.siteConfigs[key]` is defined. */
  predicate Known(sites: seq<SiteConfig>, key: string) {
    IndexOf(sites, key).Some?
  }

  /** A key is known exactly when some entry of the table carries it. */
  lemma KnownIffSomeEntry(sites: seq<SiteConfig>, key: string)
    ensures Known(sites, key) <==> exists i :: 0 <= i < |sites| && sites[i].key == key
  {
    IndexOfFirst(sites, key);
  }

  /** `this.siteConfigs[key]`, or `None` when the key names no entry. */
  function Lookup(sites: seq<SiteConfig>, key: string): (r: Option<SiteConfig>)
    ensures r.Some? <==> Known(sites, key)
    ensures r.Some? ==> r.value in sites && r.value.key == key
  {
    match IndexOf(sites, key)
    case None => None
    case Some(i) => Some(sites[i])
  }

  /** Number of fallback URLs an entry declares (none for `api`). */
  function FallbackCount(c: SiteConfig): nat {
    if c.fallbackUrls.Some? then |c.fallbackUrls.value| else 0
  }

  /** The largest value the attempt counter of `key` may take. */
  function AttemptBound(sites: seq<SiteConfig>, key: string): nat {
    match Lookup(sites, key)
    case None => 0
    case Some(c) => FallbackCount(c)
  }

  /** Two tables that differ at most in the mutable `embeddable`/`reason` fields. */
  predicate SameShape(a: seq<SiteConfig>, b: seq<SiteConfig>) {
    && |a| == |b|
    && forall i :: 0 <= i < |a| ==>
         a[i].key == b[i].key && a[i].url == b[i].url && a[i].fallbackUrls == b[i].fallbackUrls
  }

  /** What the controller relies on about its table: `api` is an entry,
      and every other entry has a primary URL. */
  predicate WellFormed(sites: seq<SiteConfig>) {
    && Known(sites, "api")
    && forall i :: 0 <= i < |sites| && sites[i].key != "api" ==> sites[i].url.Some?
  }

  /** Facts about the shipped table: its keys are distinct, `api` comes first
      and is the only entry without a URL or fallbacks, and every other entry
      has at least one fallback. */
  lemma InitialTableFacts()
    ensures |InitialSiteConfigs()| == 8
    ensures InitialSiteConfigs()[0].key == "api"
    ensures forall i, j :: 0 <= i < j < |InitialSiteConfigs()| ==>
              InitialSiteConfigs()[i].key != InitialSiteConfigs()[j].key
    ensures forall i :: 0 <= i < |InitialSiteConfigs()| ==>
              var c := InitialSiteConfigs()[i];
              (c.key == "api" <==> c.url.None?) && (c.url.None? <==> c.fallbackUrls.None?) &&
              (c.fallbackUrls.Some? ==> |c.fallbackUrls.value| > 0)
    ensures WellFormed(InitialSiteConfigs())
  {
  }

  /** Entries are found by key alone, so tables of the same shape agree on
      where each key is, on which keys are known and on the attempt bounds. */
  lemma SameShapeLookup(a: seq<SiteConfig>, b: seq<SiteConfig>, key: string)
    requires SameShape(a, b)
    ensures IndexOf(a, key) == IndexOf(b, key)
    ensures Known(a, key) == Known(b, key)
    ensures AttemptBound(a, key) == AttemptBound(b, key)
  {
    IndexOfFirst(a, key);
    IndexOfFirst(b, key);
  }

  /** Well-formedness depends only on the shape of a table. */
  lemma SameShapeWellFormed(a: seq<SiteConfig>, b: seq<SiteConfig>)
    requires SameShape(a, b) && WellFormed(b)
    ensures WellFormed(a)
  {
    SameShapeLookup(a, b, "api");
  }

  /** `markSiteAsNonEmbeddable`'s update of the table: the entry of a known
      key becomes non-embeddable with the given reason; every other entry, and
      the whole table when the key is unknown, is left as it was. */
  function MarkNonEmbeddable(sites: seq<SiteConfig>, key: string, reason: string): (r: seq<SiteConfig>)
    ensures SameShape(r, sites)
    ensures !Known(sites, key) ==> r == sites
    ensures Known(sites, key) ==>
              var i := IndexOf(sites, key).value;
              !r[i].embeddable && r[i].reason == Some(reason) &&
              forall j :: 0 <= j < |sites| && j != i ==> r[j] == sites[j]
  {
    match IndexOf(sites, key)
    case None => sites
    case Some(i) => sites[i := sites[i].(embeddable := false, reason := Some(reason))]
  }

  /** Marking never makes an entry embeddable again. */
  lemma MarkKeepsNonEmbeddable(sites: seq<SiteConfig>, key: string, reason: string, i: nat)
    requires i < |sites| && !sites[i].embeddable
    ensures i < |MarkNonEmbeddable(sites, key, reason)|
    ensures !MarkNonEmbeddable(sites, key, reason)[i].embeddable
  {
  }

  /** Marking the same key twice is marking it once with the later reason:
      the flag stays false and the last reason wins. */
  lemma MarkTwiceLastReasonWins(sites: seq<SiteConfig>, key: string, r1: string, r2: string)
    ensures MarkNonEmbeddable(MarkNonEmbeddable(sites, key, r1), key, r2)
         == MarkNonEmbeddable(sites, key, r2)
  {
    var once := MarkNonEmbeddable(sites, key, r1);
    SameShapeLookup(once, sites, key);
  }
}
