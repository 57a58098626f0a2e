/**
 * `TtlCache` of bootique-mvc: compiled templates cached per template URL, each entry recompiled
 * when its time to live has passed. The first load of an entry waits for the entry's lock; once a
 * value exists, a stale read only tries the lock and, when another caller holds it, returns the
 * stale value. The maker runs only if nobody refreshed the entry in between, and a null result is
 * refused.
 *
 * The model is sequential: whether `tryLock` succeeds is an argument (`lockFree`), a blocking
 * `lock` always succeeds, and the expiry a caller captured before locking is an argument of the
 * lower-level methods, so a refresh by another caller in between is expressed by an older capture.
 */
module MvcTtlCache {
  import opened Wrappers
  import opened RenderCache

  /**
   * `updateNoLocks`, for an entry in state `s` and an expiry `expiredOn` read before locking: the
   * maker runs only if the entry still has that expiry; a non-null result is stored and the entry
   * expires `ttl` after `now`; a null result or a throwing maker raises and changes nothing.
   */
  function NoLocksStep<V>(s: EntryState<V>, expiredOn: int, made: Made<V>, now: int, ttl: int): (step: Step<V>)
    ensures step.compiled <==> expiredOn == s.expiresOn
    ensures !step.compiled ==> step.state == s && step.reply == Value(s.value)
    ensures step.compiled && made.Returned? && made.result.Some? ==>
      step.state == EntryState(now + ttl, made.result) && step.reply == Value(made.result)
    ensures !(made.Returned? && made.result.Some?) ==> step.state == s
    ensures step.compiled && !(made.Returned? && made.result.Some?) ==> step.reply == Raised
  {
    if expiredOn == s.expiresOn then
      match made
      case Returned(Some(v)) => Step(EntryState(now + ttl, Some(v)), Value(Some(v)), true)
      case _ => Step(s, Raised, true)
    else Step(s, Value(s.value), false)
  }

  /** `updateIfCanLock`: the stale value when the lock is taken, `updateNoLocks` otherwise. */
  function IfCanLockStep<V>(s: EntryState<V>, expiredOn: int, made: Made<V>, now: int, ttl: int, lockFree: bool)
    : (step: Step<V>)
    ensures !lockFree ==> step == Step(s, Value(s.value), false)
    ensures lockFree ==> step == NoLocksStep(s, expiredOn, made, now, ttl)
  {
    if !lockFree then Step(s, Value(s.value), false)
    else NoLocksStep(s, expiredOn, made, now, ttl)
  }

  /**
   * `updateIfNeeded` for an entry in state `s` at time `now`: a fresh entry answers with its value;
   * a stale one with a value tries the lock, a stale one without a value waits for it, in both
   * cases with the expiry just read as the capture.
   */
  function GetStep<V>(s: EntryState<V>, made: Made<V>, now: int, ttl: int, lockFree: bool): (step: Step<V>)
    ensures s.expiresOn >= now ==> step == Step(s, Value(s.value), false)
    ensures s.expiresOn < now && s.value.Some? ==> step == IfCanLockStep(s, s.expiresOn, made, now, ttl, lockFree)
    ensures s.expiresOn < now && s.value.None? ==> step == NoLocksStep(s, s.expiresOn, made, now, ttl)
  {
    if s.expiresOn >= now then Step(s, Value(s.value), false)
    else if s.value.Some? then IfCanLockStep(s, s.expiresOn, made, now, ttl, lockFree)
    else NoLocksStep(s, s.expiresOn, made, now, ttl)
  }

  class CacheEntry<V> {
    /** The time to live of the enclosing cache. */
    const ttlMs: int
    var expiresOn: int
    var value: Option<V>

    function State(): EntryState<V>
      reads this
    {
      EntryState(expiresOn, value)
    }

    /** A new entry is created expired. */
    constructor (ttlMs: int, now: int)
      ensures this.ttlMs == ttlMs && State() == Created(now)
    {
      this.ttlMs := ttlMs;
      this.expiresOn := now - 1;
      this.value := None;
    }

    /** `updateIfNeeded(t, tMaker)`. */
    method UpdateIfNeeded<T>(t: T, make: T -> Made<V>, now: int, lockFree: bool) returns (r: Reply<V>)
      modifies this
      ensures var step := GetStep(old(State()), make(t), now, ttlMs, lockFree);
        State() == step.state && r == step.reply
    {
      var expiredOn := expiresOn;
      if expiredOn >= now {
        r := Value(value);
      } else if value.Some? {
        r := UpdateIfCanLock(expiredOn, t, make, now, lockFree);
      } else {
        r := Update(expiredOn, t, make, now);
      }
    }

    /** `update(expiredOn, t, tMaker)`: waits for the lock, then `updateNoLocks`. */
    method Update<T>(expiredOn: int, t: T, make: T -> Made<V>, now: int) returns (r: Reply<V>)
      modifies this
      ensures var step := NoLocksStep(old(State()), expiredOn, make(t), now, ttlMs);
        State() == step.state && r == step.reply
    {
      r := UpdateNoLocks(expiredOn, t, make, now);
    }

    /** `updateIfCanLock(expiredOn, t, tMaker)`: gives up and returns the current value when the lock is taken. */
    method UpdateIfCanLock<T>(expiredOn: int, t: T, make: T -> Made<V>, now: int, lockFree: bool) returns (r: Reply<V>)
      modifies this
      ensures var step := IfCanLockStep(old(State()), expiredOn, make(t), now, ttlMs, lockFree);
        State() == step.state && r == step.reply
    {
      if !lockFree {
        return Value(value);
      }
      r := UpdateNoLocks(expiredOn, t, make, now);
    }

    /** `updateNoLocks(expiredOn, t, tMaker)`. */
    method UpdateNoLocks<T>(expiredOn: int, t: T, make: T -> Made<V>, now: int) returns (r: Reply<V>)
      modifies this
      ensures var step := NoLocksStep(old(State()), expiredOn, make(t), now, ttlMs);
        State() == step.state && r == step.reply
    {
      if expiredOn == expiresOn {
        var made := make(t);
        if !(made.Returned? && made.result.Some?) {
          return Raised;
        }
        value := made.result;
        expiresOn := now + ttlMs;
      }
      r := Value(value);
    }
  }

  class TtlCache<V> {
    const ttlMs: int

    /** Entries by the external form of the template's URL. */
    var cache: map<string, CacheEntry<V>>

    /** Every entry belongs to this cache alone: its own object, with the cache's time to live. */
    ghost predicate Valid()
      reads this
    {
      (forall k | k in cache :: cache[k].ttlMs == ttlMs) &&
      (forall k1, k2 | k1 in cache && k2 in cache && k1 != k2 :: cache[k1] != cache[k2])
    }

    constructor (ttlMs: int)
      ensures this.ttlMs == ttlMs && cache == map[] && Valid()
    {
      this.ttlMs := ttlMs;
      this.cache := map[];
    }

    /**
     * `get(template, renderedTemplateMaker)` for a template whose URL has the external form `key`:
     * the entry for the key, created expired if there is none, answers as `updateIfNeeded` does.
     * Only that entry changes; no entry is ever replaced or removed.
     */
    method Get<T>(key: string, template: T, make: T -> Made<V>, now: int, lockFree: bool) returns (r: Reply<V>)
      requires Valid()
      modifies this, cache.Values
      ensures Valid()
      ensures key in cache && cache == old(cache)[key := cache[key]]
      ensures key in old(cache) ==> cache[key] == old(cache)[key]
      ensures forall k | k in old(cache) && k != key :: cache[k].State() == old(cache[k].State())
      ensures var before := if key in old(cache) then old(cache[key].State()) else Created(now);
        var step := GetStep(before, make(template), now, ttlMs, lockFree);
        r == step.reply && cache[key].State() == step.state
    {
      var entry := EntryFor(key, now);
      r := entry.UpdateIfNeeded(template, make, now, lockFree);
      forall k | k in old(cache) && k != key ensures cache[k].State() == old(cache[k].State()) {
        assert cache[k] != entry;
      }
    }

    /**
     * `cache.computeIfAbsent(key, k -> new CacheEntry<>(ttlMs))`: the entry for the key, created
     * expired and stored when there is none.
     */
    method EntryFor(key: string, now: int) returns (entry: CacheEntry<V>)
      requires Valid()
      modifies this
      ensures Valid() && cache == old(cache)[key := entry] && entry.ttlMs == ttlMs
      ensures key in old(cache) ==> entry == old(cache)[key]
      ensures key !in old(cache) ==> fresh(entry) && entry.State() == Created(now)
    {
      if key in cache {
        entry := cache[key];
        assert cache == cache[key := entry];
      } else {
        entry := new CacheEntry(ttlMs, now);
        cache := cache[key := entry];
      }
    }
  }

  // -----------------------------------------------------------------------------------------------
  // Properties of single calls
  // -----------------------------------------------------------------------------------------------

  /** The first load of a new entry runs the maker, whether or not the lock is free. */
  lemma FirstGetCompiles<V>(made: Made<V>, now: int, ttl: int, lockFree: bool)
    ensures GetStep(Created(now), made, now, ttl, lockFree).compiled
  {
  }

  /** A stale entry with a value whose lock is taken answers with the stale value at once. */
  lemma BusyLockReturnsStaleValue<V>(s: EntryState<V>, made: Made<V>, now: int, ttl: int)
    requires s.expiresOn < now && s.value.Some?
    ensures GetStep(s, made, now, ttl, false) == Step(s, Value(s.value), false)
  {
  }

  /** Once an entry has a value it never loses it, whatever the maker does. */
  lemma ValueIsNeverLost<V>(s: EntryState<V>, made: Made<V>, now: int, ttl: int, lockFree: bool)
    requires s.value.Some?
    ensures var step := GetStep(s, made, now, ttl, lockFree);
      step.state.value.Some? && (step.reply.Value? ==> step.reply.value.Some?)
  {
  }

  /**
   * A null result or a throwing maker raises and leaves the entry stale, so a later `get` runs the
   * maker again unless it finds the lock taken.
   */
  lemma FailedMakerIsRetried<V>(s: EntryState<V>, bad: Made<V>, now: int, ttl: int, made: Made<V>, later: int)
    requires s.expiresOn < now <= later
    requires !(bad.Returned? && bad.result.Some?)
    ensures var step := GetStep(s, bad, now, ttl, true);
      step.state == s && step.reply == Raised && GetStep(step.state, made, later, ttl, true).compiled
  {
  }

  // -----------------------------------------------------------------------------------------------
  // How often the maker runs over a sequence of calls on one entry
  // -----------------------------------------------------------------------------------------------

  /** The state of an entry after a sequence of `get` calls, and how many of them ran the maker. */
  function Run<V>(s: EntryState<V>, calls: seq<Call<V>>, ttl: int): (r: (EntryState<V>, nat))
    ensures r.1 <= |calls|
    decreases |calls|
  {
    if calls == [] then (s, 0)
    else
      var step := GetStep(s, calls[0].made, calls[0].now, ttl, calls[0].lockFree);
      var rest := Run(step.state, calls[1..], ttl);
      (rest.0, rest.1 + (if step.compiled then 1 else 0))
  }

  /** One call whose maker returns a value: a run stores an expiry `ttl` after the call, which is past the old one. */
  lemma StepExpiry<V>(s: EntryState<V>, c: Call<V>, ttl: int)
    requires c.made.Returned? && c.made.result.Some?
    ensures var step := GetStep(s, c.made, c.now, ttl, c.lockFree);
      if step.compiled then s.expiresOn < c.now && step.state.expiresOn == c.now + ttl
      else step.state.expiresOn == s.expiresOn
  {
  }

  /**
   * Every run of a maker that returns a value pushes the expiry at least `ttl + 1` past the
   * previous one, and the last run sets it to at most `ttl` after the latest call.
   */
  lemma {:induction false} RunExpiry<V>(s: EntryState<V>, calls: seq<Call<V>>, ttl: int, t: int)
    requires AlwaysReturnsValue(calls) && NotAfter(calls, t)
    ensures var (f, n) := Run(s, calls, ttl);
      f.expiresOn >= s.expiresOn + n * (ttl + 1) &&
      (n == 0 ==> f.expiresOn == s.expiresOn) &&
      (n > 0 ==> f.expiresOn <= t + ttl)
    decreases |calls|
  {
    if calls != [] {
      var step := GetStep(s, calls[0].made, calls[0].now, ttl, calls[0].lockFree);
      StepExpiry(s, calls[0], ttl);
      assert AlwaysReturnsValue(calls[1..]) && NotAfter(calls[1..], t);
      RunExpiry(step.state, calls[1..], ttl, t);
      var (f, m) := Run(step.state, calls[1..], ttl);
      if step.compiled {
        assert Run(s, calls, ttl) == (f, m + 1);
        ExpiryAfterRun(s.expiresOn, step.state.expiresOn, f.expiresOn, m, ttl);
      } else {
        assert Run(s, calls, ttl) == (f, m);
      }
    }
  }

  /**
   * For a maker that always returns a non-null value: at most one maker run per `ttl + 1`
   * milliseconds, whatever `tryLock` does; `n` runs need `n * (ttl + 1)` ms after the starting
   * expiry. A maker that returns null stores no expiry and may run on every call.
   */
  lemma MakerRunsAtMostOncePerTtl<V>(s: EntryState<V>, calls: seq<Call<V>>, ttl: int, t: int)
    requires AlwaysReturnsValue(calls) && NotAfter(calls, t)
    ensures var n := Run(s, calls, ttl).1;
      n > 0 ==> n * (ttl + 1) <= t + ttl - s.expiresOn
  {
    RunExpiry(s, calls, ttl, t);
  }
}
