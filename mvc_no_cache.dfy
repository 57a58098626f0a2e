/**
 * `NoCache` of bootique-mvc, the cache used when no time to live is configured: it holds no state
 * and runs the maker on every call, so an edited template is picked up by the very next render.
 */
module MvcNoCache {
  import opened Wrappers
  import opened RenderCache
  import MvcTtlCache

  /** `get(template, renderedTemplateMaker)`: exactly what the maker produces for the template. */
  function Get<T, V>(template: T, make: T -> Made<V>): (r: Reply<V>)
    ensures r.Raised? <==> make(template).Threw?
    ensures r.Value? ==> r.value == make(template).result
  {
    match make(template)
    case Returned(v) => Value(v)
    case Threw => Raised
  }

  /**
   * A `TtlCache` entry that is stale, whose lock is free and whose maker returns a value answers a
   * `get` exactly as `NoCache` does; with a negative time to live it is still stale afterwards.
   */
  lemma StaleTtlEntryAnswersLikeNoCache<T, V>(
    s: EntryState<V>, template: T, make: T -> Made<V>, now: int, ttl: int, later: int)
    requires s.expiresOn < now <= later && ttl < 0
    requires make(template).Returned? && make(template).result.Some?
    ensures var step := MvcTtlCache.GetStep(s, make(template), now, ttl, true);
      step.compiled && step.reply == Get(template, make) && step.state.expiresOn < later
  {
  }

  /**
   * With a negative time to live, free locks, makers that return values and calls in time order
   * starting on a stale entry, the `TtlCache` runs the maker on every call, as `NoCache` does.
   */
  lemma {:induction false} NegativeTtlCompilesEveryCall<V>(s: EntryState<V>, calls: seq<Call<V>>, ttl: int)
    requires ttl < 0 && AlwaysReturnsValue(calls)
    requires forall i :: 0 <= i < |calls| ==> calls[i].lockFree
    requires forall i :: 0 < i < |calls| ==> calls[i - 1].now <= calls[i].now
    requires |calls| > 0 ==> s.expiresOn < calls[0].now
    ensures MvcTtlCache.Run(s, calls, ttl).1 == |calls|
    decreases |calls|
  {
    if calls != [] {
      var step := MvcTtlCache.GetStep(s, calls[0].made, calls[0].now, ttl, true);
      assert step.compiled && step.state.expiresOn < calls[0].now;
      assert AlwaysReturnsValue(calls[1..]);
      NegativeTtlCompilesEveryCall(step.state, calls[1..], ttl);
    }
  }
}
