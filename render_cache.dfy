/**
 * Vocabulary shared by the caches of compiled templates (`RenderableTemplateCache` and its
 * implementations): what a maker call produced, the state of one cache entry, what a `get` hands
 * back, and sequences of calls on one entry over time.
 *
 * Time is an explicit argument (milliseconds, as `System.currentTimeMillis` gives them). The maker
 * (`renderedTemplateMaker`) is a function from the template to what it produced, so each call can
 * pass a different one: a maker that reads an edited template file is a different function.
 */
module RenderCache {
  import opened Wrappers

  /** What one call of the maker did: returned a value (`None` for Java's null) or threw. */
  datatype Made<V> = Returned(result: Option<V>) | Threw

  /** The two fields of a cache entry: when it expires and the compiled value (`None` for null). */
  datatype EntryState<V> = EntryState(expiresOn: int, value: Option<V>)

  /** What `get` hands back to its caller: a value (possibly null) or an exception. */
  datatype Reply<V> = Value(value: Option<V>) | Raised

  /** One call on an entry: the entry's next state, the reply, and whether the maker ran. */
  datatype Step<V> = Step(state: EntryState<V>, reply: Reply<V>, compiled: bool)

  /** A new entry, created at `now` already expired and without a value. */
  function Created<V>(now: int): (s: EntryState<V>)
    ensures s.expiresOn < now && s.value.None?
  {
    EntryState(now - 1, None)
  }

  /** One `get` on the same entry: the time it happens, what its maker does, and for the older cache whether `tryLock` succeeds. */
  datatype Call<V> = Call(now: int, made: Made<V>, lockFree: bool)

  /** Calls at strictly increasing times, each at most `gap` after the one before. */
  predicate Spaced<V>(calls: seq<Call<V>>, gap: int) {
    forall i :: 0 < i < |calls| ==> calls[i - 1].now < calls[i].now <= calls[i - 1].now + gap
  }

  /** No call of the maker throws. */
  predicate NeverThrows<V>(calls: seq<Call<V>>) {
    forall i :: 0 <= i < |calls| ==> calls[i].made.Returned?
  }

  /** Every call of the maker returns a non-null value. */
  predicate AlwaysReturnsValue<V>(calls: seq<Call<V>>) {
    forall i :: 0 <= i < |calls| ==> calls[i].made.Returned? && calls[i].made.result.Some?
  }

  /** All calls happen no later than `t`. */
  predicate NotAfter<V>(calls: seq<Call<V>>, t: int) {
    forall i :: 0 <= i < |calls| ==> calls[i].now <= t
  }

  /** Calls at least 1 ms apart span at least one millisecond per call after the first. */
  lemma {:induction false} SpacedSpanAtLeast<V>(calls: seq<Call<V>>, gap: int)
    requires |calls| >= 1 && Spaced(calls, gap)
    ensures calls[|calls| - 1].now - calls[0].now >= |calls| - 1
  {
    if |calls| > 1 {
      var init := calls[..|calls| - 1];
      assert Spaced(init, gap);
      SpacedSpanAtLeast(init, gap);
    }
  }

  /** Calls at most `gap` apart span at most `gap` per call after the first, and none comes later than the last. */
  lemma {:induction false} SpacedSpanAtMost<V>(calls: seq<Call<V>>, gap: int)
    requires |calls| >= 1 && Spaced(calls, gap)
    ensures calls[|calls| - 1].now - calls[0].now <= (|calls| - 1) * gap
    ensures NotAfter(calls, calls[|calls| - 1].now)
  {
    if |calls| > 1 {
      var init := calls[..|calls| - 1];
      assert Spaced(init, gap);
      SpacedSpanAtMost(init, gap);
      assert (|calls| - 1) * gap == (|init| - 1) * gap + gap;
    }
  }

  /** Arithmetic of one maker run: an expiry pushed `ttl + 1` past the old one, then `m` more runs. */
  lemma ExpiryAfterRun(before: int, stored: int, last: int, m: nat, ttl: int)
    requires stored >= before + ttl + 1 && last >= stored + m * (ttl + 1)
    ensures last >= before + (m + 1) * (ttl + 1)
  {
    assert (m + 1) * (ttl + 1) == m * (ttl + 1) + (ttl + 1);
  }
}
