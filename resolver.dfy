/** The fallback policy of `tryFallbackUrl` stated on values: what one step
    decides for a site given its attempt counter, what a run of steps loads,
    and the bound every counter keeps. */
module Resolver {
  import opened Wrappers
  import opened Registry

  /** `this.loadAttempts[key] || 0`: a key never set reads as 0. */
  function AttemptsOf(attempts: map<string, nat>, key: string): nat {
    if key in attempts then attempts[key] else 0
  }

  /** The counters behave as a store defaulting to 0: a key never set reads
      as 0, and setting one key changes what only that key reads. */
  lemma AttemptsOfDefaultsToZero(attempts: map<string, nat>, key: string, k: string, v: nat)
    ensures key !in attempts ==> AttemptsOf(attempts, key) == 0
    ensures AttemptsOf(attempts[k := v], key) == if key == k then v else AttemptsOf(attempts, key)
  {
  }

  /** Every counter belongs to a site of the table and never exceeds the
      number of fallbacks that site declares. */
  predicate AttemptsBounded(sites: seq<SiteConfig>, attempts: map<string, nat>) {
    forall k :: k in attempts ==> Known(sites, k) && attempts[k] <= AttemptBound(sites, k)
  }

  /** What one `tryFallbackUrl` does: nothing (`Ignore`), load a fallback and
      store the new counter (`Load`), or show the load-error view
      (`Exhausted`). */
  datatype Decision = Ignore | Load(url: string, attempts: nat) | Exhausted

  /** The decision for the entry `c` (`None` for an unknown key) when its
      counter is `attempts`: an entry without fallbacks is ignored; below the
      bound the next fallback in declared order is loaded and the counter
      advances by one; at or past the bound the step gives up. */
  function DecideFallback(c: Option<SiteConfig>, attempts: nat): (d: Decision)
    ensures d.Ignore? <==> c.None? || c.value.fallbackUrls.None?
    ensures d.Load? ==>
              c.Some? && c.value.fallbackUrls.Some? &&
              attempts < |c.value.fallbackUrls.value| &&
              d.url == c.value.fallbackUrls.value[attempts] &&
              d.attempts == attempts + 1 && d.attempts <= FallbackCount(c.value)
    ensures d.Exhausted? <==>
              c.Some? && c.value.fallbackUrls.Some? && attempts >= |c.value.fallbackUrls.value|
  {
    if c.None? || c.value.fallbackUrls.None? then Ignore
    else if attempts < |c.value.fallbackUrls.value| then
      Load(c.value.fallbackUrls.value[attempts], attempts + 1)
    else Exhausted
  }

  /** A step keeps every counter within its bound. */
  lemma DecideKeepsBounded(sites: seq<SiteConfig>, attempts: map<string, nat>, key: string)
    requires AttemptsBounded(sites, attempts)
    requires DecideFallback(Lookup(sites, key), AttemptsOf(attempts, key)).Load?
    ensures AttemptsBounded(sites,
              attempts[key := DecideFallback(Lookup(sites, key), AttemptsOf(attempts, key)).attempts])
  {
  }

  /** Resetting the counter of a known site keeps every counter within its
      bound, and the next step after it retries from the first fallback. */
  lemma ResetRestartsFromFirstFallback(sites: seq<SiteConfig>, attempts: map<string, nat>, key: string)
    requires AttemptsBounded(sites, attempts) && Known(sites, key)
    ensures AttemptsBounded(sites, attempts[key := 0])
    ensures var c := Lookup(sites, key).value;
            c.fallbackUrls.Some? && |c.fallbackUrls.value| > 0 ==>
              DecideFallback(Some(c), AttemptsOf(attempts[key := 0], key)) == Load(c.fallbackUrls.value[0], 1)
  {
  }

  /** Counters stay within bounds when the table changes only in its
      mutable fields. */
  lemma SameShapeKeepsBounded(a: seq<SiteConfig>, b: seq<SiteConfig>, attempts: map<string, nat>)
    requires SameShape(a, b) && AttemptsBounded(b, attempts)
    ensures AttemptsBounded(a, attempts)
  {
    forall k | k in attempts
      ensures Known(a, k) && attempts[k] <= AttemptBound(a, k)
    {
      SameShapeLookup(a, b, k);
    }
  }

  function Min(a: nat, b: nat): nat {
    if a <= b then a else b
  }

  /** `n` consecutive steps for the entry `c`, starting from counter `a`: the
      URLs loaded, in order, and the final counter. */
  function Run(c: SiteConfig, a: nat, n: nat): (seq<string>, nat)
    decreases n
  {
    if n == 0 then ([], a)
    else match DecideFallback(Some(c), a)
      case Load(u, next) =>
        var (rest, final) := Run(c, next, n - 1);
        ([u] + rest, final)
      case _ => Run(c, a, n - 1)
  }

  /** Fallbacks are loaded strictly in declared order, one per step, until
      they run out; once the counter reaches the bound no further URL is
      loaded and the counter stays there. */
  lemma {:induction false} RunLoadsInDeclaredOrder(c: SiteConfig, a: nat, n: nat)
    requires c.fallbackUrls.Some? && a <= |c.fallbackUrls.value|
    ensures var fbs := c.fallbackUrls.value;
            Run(c, a, n) == (fbs[a..Min(a + n, |fbs|)], Min(a + n, |fbs|))
    decreases n
  {
    var fbs := c.fallbackUrls.value;
    if n == 0 {
      assert Min(a, |fbs|) == a;
      assert fbs[a..a] == [];
    } else {
      if a < |fbs| {
        assert DecideFallback(Some(c), a) == Load(fbs[a], a + 1);
        RunLoadsInDeclaredOrder(c, a + 1, n - 1);
        var rest := Run(c, a + 1, n - 1);
        assert Run(c, a, n) == ([fbs[a]] + rest.0, rest.1);
        assert fbs[a..Min(a + n, |fbs|)] == [fbs[a]] + fbs[a + 1..Min(a + 1 + (n - 1), |fbs|)];
      } else {
        assert DecideFallback(Some(c), a) == Exhausted;
        RunLoadsInDeclaredOrder(c, a, n - 1);
        assert Run(c, a, n) == Run(c, a, n - 1);
      }
    }
  }

  /** After activation (counter 0), `n` steps with `n` at most the number of
      fallbacks load exactly the first `n` fallbacks, so the frame ends on
      the `n`-th; any further step loads nothing. */
  lemma ActivationThenErrors(c: SiteConfig, n: nat, m: nat)
    requires c.fallbackUrls.Some? && n <= |c.fallbackUrls.value|
    ensures Run(c, 0, n) == (c.fallbackUrls.value[..n], n)
    ensures n > 0 ==> Run(c, 0, n).0[n - 1] == c.fallbackUrls.value[n - 1]
    ensures Run(c, |c.fallbackUrls.value|, m) == ([], |c.fallbackUrls.value|)
  {
    RunLoadsInDeclaredOrder(c, 0, n);
    RunLoadsInDeclaredOrder(c, |c.fallbackUrls.value|, m);
  }
}
