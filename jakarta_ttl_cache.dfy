/**
 * `TtlCache` of bootique-mvc-jakarta: compiled templates cached per template URL, each entry
 * recompiled when its time to live has passed. A stale read always waits for the entry's lock, and
 * the maker runs only if nobody refreshed the entry while the caller waited; its result is stored
 * without a null check.
 *
 * The model is sequential: the lock is not modelled, and the expiry a caller captured before
 * waiting is an argument of `RefreshLocked`, so a refresh by another caller in between is
 * expressed by calling it with an older capture.
 */
module JakartaTtlCache {
  import opened Wrappers
  import opened RenderCache

  /**
   * The locked block of `updateIfNeeded`, for an entry in state `s` and an expiry `captured` read
   * before waiting: the maker runs only if the entry was not refreshed since; its result, null
   * included, is stored and the entry expires `ttl` after `now`. A throwing maker changes nothing.
   */
  function RefreshStep<V>(s: EntryState<V>, captured: int, made: Made<V>, now: int, ttl: int): (step: Step<V>)
    ensures step.compiled <==> captured >= s.expiresOn
    ensures !step.compiled ==> step.state == s && step.reply == Value(s.value)
    ensures step.compiled && made.Returned? ==>
      step.state == EntryState(now + ttl, made.result) && step.reply == Value(made.result)
    ensures made.Threw? ==> step.state == s
    ensures step.compiled && made.Threw? ==> step.reply == Raised
  {
    if captured >= s.expiresOn then
      match made
      case Returned(v) => Step(EntryState(now + ttl, v), Value(v), true)
      case Threw => Step(s, Raised, true)
    else Step(s, Value(s.value), false)
  }

  /**
   * `updateIfNeeded` for an entry in state `s` at time `now`: a fresh entry answers with its value
   * and nothing changes; a stale one always goes through the locked refresh, with the expiry just
   * read as the capture.
   */
  function GetStep<V>(s: EntryState<V>, made: Made<V>, now: int, ttl: int): (step: Step<V>)
    ensures s.expiresOn >= now ==> step == Step(s, Value(s.value), false)
    ensures s.expiresOn < now ==> step == RefreshStep(s, s.expiresOn, made, now, ttl)
  {
    if s.expiresOn < now then RefreshStep(s, s.expiresOn, made, now, ttl)
    else Step(s, Value(s.value), false)
  }

  class CacheEntry<V> {
    /** The time to live of the enclosing cache. */
    const ttlMs: int
    var expiresOn: int
    var value: Option<V>

    function State(): EntryState<V>
      reads this
    {
      EntryState(expiresOn, value)
    }

    /** A new entry is created expired. */
    constructor (ttlMs: int, now: int)
      ensures this.ttlMs == ttlMs && State() == Created(now)
    {
      this.ttlMs := ttlMs;
      this.expiresOn := now - 1;
      this.value := None;
    }

    /** `updateIfNeeded(template, renderedTemplateMaker)`. */
    method UpdateIfNeeded<T>(template: T, make: T -> Made<V>, now: int) returns (r: Reply<V>)
      modifies this
      ensures var step := GetStep(old(State()), make(template), now, ttlMs);
        State() == step.state && r == step.reply
    {
      var e := expiresOn;
      if e < now {
        r := RefreshLocked(e, template, make, now);
      } else {
        r := Value(value);
      }
    }

    /** The block `updateIfNeeded` runs holding the lock, with the expiry `e` it read before locking. */
    method RefreshLocked<T>(e: int, template: T, make: T -> Made<V>, now: int) returns (r: Reply<V>)
      modifies this
      ensures var step := RefreshStep(old(State()), e, make(template), now, ttlMs);
        State() == step.state && r == step.reply
    {
      if e >= expiresOn {
        var made := make(template);
        if made.Threw? {
          return Raised;
        }
        value := made.result;
        expiresOn := now + ttlMs;
      }
      r := Value(value);
    }
  }

  class TtlCache<V> {
    const ttlMs: int

    /** Entries by the external form of the template's URL. */
    var cache: map<string, CacheEntry<V>>

    /** Every entry belongs to this cache alone: its own object, with the cache's time to live. */
    ghost predicate Valid()
      reads this
    {
      (forall k | k in cache :: cache[k].ttlMs == ttlMs) &&
      (forall k1, k2 | k1 in cache && k2 in cache && k1 != k2 :: cache[k1] != cache[k2])
    }

    constructor (ttlMs: int)
      ensures this.ttlMs == ttlMs && cache == map[] && Valid()
    {
      this.ttlMs := ttlMs;
      this.cache := map[];
    }

    /**
     * `get(template, renderedTemplateMaker)` for a template whose URL has the external form `key`:
     * the entry for the key, created expired if there is none, answers as `updateIfNeeded` does.
     * Only that entry changes; no entry is ever replaced or removed.
     */
    method Get<T>(key: string, template: T, make: T -> Made<V>, now: int) returns (r: Reply<V>)
      requires Valid()
      modifies this, cache.Values
      ensures Valid()
      ensures key in cache && cache == old(cache)[key := cache[key]]
      ensures key in old(cache) ==> cache[key] == old(cache)[key]
      ensures forall k | k in old(cache) && k != key :: cache[k].State() == old(cache[k].State())
      ensures var before := if key in old(cache) then old(cache[key].State()) else Created(now);
        var step := GetStep(before, make(template), now, ttlMs);
        r == step.reply && cache[key].State() == step.state
    {
      var entry := EntryFor(key, now);
      r := entry.UpdateIfNeeded(template, make, now);
      forall k | k in old(cache) && k != key ensures cache[k].State() == old(cache[k].State()) {
        assert cache[k] != entry;
      }
    }

    /**
     * `cache.computeIfAbsent(key, k -> new CacheEntry<>(ttlMs))`: the entry for the key, created
     * expired and stored when there is none.
     */
    method EntryFor(key: string, now: int) returns (entry: CacheEntry<V>)
      requires Valid()
      modifies this
      ensures Valid() && cache == old(cache)[key := entry] && entry.ttlMs == ttlMs
      ensures key in old(cache) ==> entry == old(cache)[key]
      ensures key !in old(cache) ==> fresh(entry) && entry.State() == Created(now)
    {
      if key in cache {
        entry := cache[key];
        assert cache == cache[key := entry];
      } else {
        entry := new CacheEntry(ttlMs, now);
        cache := cache[key := entry];
      }
    }
  }

  // -----------------------------------------------------------------------------------------------
  // Properties of single calls
  // -----------------------------------------------------------------------------------------------

  /** A new entry is stale at the time it is created, so the first `get` runs the maker. */
  lemma FirstGetCompiles<V>(made: Made<V>, now: int, ttl: int)
    ensures GetStep(Created(now), made, now, ttl).compiled
  {
  }

  /** There is no stale-return path: a stale read either gets the maker's result or its exception. */
  lemma StaleReadNeverReturnsStaleValue<V>(s: EntryState<V>, made: Made<V>, now: int, ttl: int)
    requires s.expiresOn < now
    ensures var step := GetStep(s, made, now, ttl);
      step.compiled && step.reply == (if made.Threw? then Raised else Value(made.result))
  {
  }

  /** A null result is stored like any other, and the entry counts as fresh for another `ttl`. */
  lemma NullResultIsStored<V>(s: EntryState<V>, now: int, ttl: int, later: int)
    requires s.expiresOn < now && now <= later <= now + ttl
    ensures var step := GetStep(s, Returned(None), now, ttl);
      step.state.value.None? && step.reply == Value(None) &&
      GetStep(step.state, Threw, later, ttl) == Step(step.state, Value(None), false)
  {
  }

  /** A throwing maker leaves the entry stale, so every later `get` runs the maker again. */
  lemma ThrowingMakerIsRetried<V>(s: EntryState<V>, now: int, ttl: int, made: Made<V>, later: int)
    requires s.expiresOn < now <= later
    ensures var step := GetStep(s, Threw, now, ttl);
      step.state == s && step.reply == Raised && GetStep(step.state, made, later, ttl).compiled
  {
  }

  /**
   * With a 300 ms time to live: a template rendered at `t0` and edited afterwards still renders
   * the first version at any `t1` within the time to live, and the edited one 301 ms after that.
   */
  lemma EditSeenOnlyAfterTtl<V>(v1: V, v2: V, t0: int, t1: int, t2: int)
    requires t0 <= t1 <= t0 + 300 && t2 >= t1 + 301
    ensures var first := GetStep(Created(t0), Returned(Some(v1)), t0, 300);
      var second := GetStep(first.state, Returned(Some(v2)), t1, 300);
      var third := GetStep(second.state, Returned(Some(v2)), t2, 300);
      first.reply == Value(Some(v1)) && second.reply == Value(Some(v1)) && !second.compiled &&
      third.reply == Value(Some(v2))
  {
  }

  // -----------------------------------------------------------------------------------------------
  // How often the maker runs over a sequence of calls on one entry
  // -----------------------------------------------------------------------------------------------

  /** The state of an entry after a sequence of `get` calls, and how many of them ran the maker. */
  function Run<V>(s: EntryState<V>, calls: seq<Call<V>>, ttl: int): (r: (EntryState<V>, nat))
    ensures r.1 <= |calls|
    decreases |calls|
  {
    if calls == [] then (s, 0)
    else
      var step := GetStep(s, calls[0].made, calls[0].now, ttl);
      var rest := Run(step.state, calls[1..], ttl);
      (rest.0, rest.1 + (if step.compiled then 1 else 0))
  }

  /** One call whose maker does not throw: a run stores an expiry `ttl` after the call, which is past the old one. */
  lemma StepExpiry<V>(s: EntryState<V>, c: Call<V>, ttl: int)
    requires c.made.Returned?
    ensures var step := GetStep(s, c.made, c.now, ttl);
      if step.compiled then s.expiresOn < c.now && step.state.expiresOn == c.now + ttl
      else step.state.expiresOn == s.expiresOn
  {
  }

  /**
   * Every run of a maker that does not throw pushes the expiry at least `ttl + 1` past the previous
   * one, and the last such run sets it to at most `ttl` after the latest call.
   */
  lemma {:induction false} RunExpiry<V>(s: EntryState<V>, calls: seq<Call<V>>, ttl: int, t: int)
    requires NeverThrows(calls) && NotAfter(calls, t)
    ensures var (f, n) := Run(s, calls, ttl);
      f.expiresOn >= s.expiresOn + n * (ttl + 1) &&
      (n == 0 ==> f.expiresOn == s.expiresOn) &&
      (n > 0 ==> f.expiresOn <= t + ttl)
    decreases |calls|
  {
    if calls != [] {
      var step := GetStep(s, calls[0].made, calls[0].now, ttl);
      StepExpiry(s, calls[0], ttl);
      assert NeverThrows(calls[1..]) && NotAfter(calls[1..], t);
      RunExpiry(step.state, calls[1..], ttl, t);
      var (f, m) := Run(step.state, calls[1..], ttl);
      if step.compiled {
        assert Run(s, calls, ttl) == (f, m + 1);
        ExpiryAfterRun(s.expiresOn, step.state.expiresOn, f.expiresOn, m, ttl);
      } else {
        assert Run(s, calls, ttl) == (f, m);
      }
    }
  }

  /**
   * For a maker that never throws: at most one maker run per `ttl + 1` milliseconds; `n` runs need
   * `n * (ttl + 1)` ms after the starting expiry. A maker that throws stores nothing and may run on
   * every call.
   */
  lemma MakerRunsAtMostOncePerTtl<V>(s: EntryState<V>, calls: seq<Call<V>>, ttl: int, t: int)
    requires NeverThrows(calls) && NotAfter(calls, t)
    ensures var n := Run(s, calls, ttl).1;
      n > 0 ==> n * (ttl + 1) <= t + ttl - s.expiresOn
  {
    RunExpiry(s, calls, ttl, t);
  }

  /**
   * With calls at most `gap` apart and the first one at most `gap` after the starting expiry, the
   * maker runs at least once per `ttl + gap` milliseconds up to the last call.
   */
  lemma {:induction false} MakerRunsAtLeastOncePerTtlAndGap<V>(s: EntryState<V>, calls: seq<Call<V>>, ttl: int, gap: int)
    requires ttl >= 0 && |calls| >= 1 && Spaced(calls, gap) && NeverThrows(calls)
    requires calls[0].now <= s.expiresOn + gap
    ensures calls[|calls| - 1].now - s.expiresOn <= Run(s, calls, ttl).1 * (ttl + gap)
    decreases |calls|
  {
    var step := GetStep(s, calls[0].made, calls[0].now, ttl);
    var (f, m) := Run(step.state, calls[1..], ttl);
    if |calls| > 1 {
      assert Spaced(calls[1..], gap) && NeverThrows(calls[1..]);
      assert calls[1].now <= calls[0].now + gap;
      MakerRunsAtLeastOncePerTtlAndGap(step.state, calls[1..], ttl, gap);
      if step.compiled {
        assert (m + 1) * (ttl + gap) == m * (ttl + gap) + (ttl + gap);
      }
    }
  }

  /**
   * 300 calls on one key, 1 to 2 ms apart, on a cache with a 20 ms time to live and an entry
   * created by the first call: the maker runs more than 5 and fewer than 50 times.
   */
  lemma ConcurrentAccessBounds<V>(calls: seq<Call<V>>)
    requires |calls| == 300 && Spaced(calls, 2) && NeverThrows(calls)
    ensures var n := Run(Created(calls[0].now), calls, 20).1; 5 < n < 50
  {
    var s := Created<V>(calls[0].now);
    var last := calls[299].now;
    SpacedSpanAtLeast(calls, 2);
    SpacedSpanAtMost(calls, 2);
    MakerRunsAtMostOncePerTtl(s, calls, 20, last);
    MakerRunsAtLeastOncePerTtlAndGap(s, calls, 20, 2);
  }
}
