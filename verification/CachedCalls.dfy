/** Tool calls by server, tool and arguments: what the cache key and the cache promise together. */
module CachedCalls {
  import opened Options
  import opened CacheKey
  import opened ToolCache

  /** A call; the tool's annotations say whether it is read-only and idempotent. */
  datatype Request = Request(
    serverId: int, toolName: int, args: seq<Prop>, ttlSeconds: Option<int>, isFinancial: bool, bypassCache: bool,
    isReadOnly: bool, isIdempotent: bool)

  function CallFor(r: Request): ProxyCall<Key> {
    ProxyCall(BuildCacheKey(r.serverId, r.toolName, r.args), r.ttlSeconds, r.isFinancial, r.bypassCache)
  }

  /** Every call asked for in the run is the call of a request, given at the same position. */
  ghost predicate Requested<V>(events: seq<Timed<Key, V>>, requests: seq<Request>) {
    |requests| == |events| && forall i | 0 <= i < |events| && events[i].event.Ask? ::
        events[i].event.call == CallFor(requests[i])
  }

  /** The same tool of the same server with the same arguments, up to the order of properties. */
  predicate SameCall(r: Request, q: Request) {
    r.serverId == q.serverId && r.toolName == q.toolName && Canon(Obj(r.args)) == Canon(Obj(q.args))
  }

  /** `f` fetched for request j what answer `a` repeats, within its time to live. */
  ghost predicate FetchedFor<V>(events: seq<Timed<Key, V>>, requests: seq<Request>, a: Answer<Key, V>, f: Fetch<Key, V>,
          j: int) {
    && f in Run(events).fetches && AskedAt(events, f.call, j) && j < |requests|
    && f.value == a.value && f.at <= a.at <= f.at + requests[j].ttlSeconds.GetOr(0) * 1000
  }

  /**
   For every interleaved run and every request with no object below its top-level arguments: an answer from the
   cache was fetched for the same server, tool and arguments, at most that request's time to live earlier.
   */
  lemma ShallowAnswersAreTheirOwn<V>(events: seq<Timed<Key, V>>, requests: seq<Request>, i: nat, a: Answer<Key, V>)
    returns (f: Fetch<Key, V>, j: int)
    requires ClockNeverBack(events) && Requested(events, requests)
    requires a in Run(events).answers && a.fromCache && AskedAt(events, a.call, i) && Shallow(requests[i].args)
    ensures FetchedFor(events, requests, a, f, j) && SameCall(requests[j], requests[i])
    ensures !requests[i].isFinancial && !requests[j].isFinancial
  {
    CachedAnswersAreFetched(events);
    f :| f in Run(events).fetches && !f.call.isFinancial && f.call.key == a.call.key && f.value == a.value
      && f.at <= a.at <= f.at + f.call.ttlSeconds.GetOr(0) * 1000;
    j := FetchesWereAsked(events, f);
    var r, q := requests[i], requests[j];
    ShallowKeysAreTheirOwn(r.serverId, r.toolName, r.args, q.args);
  }

  // ----- what the cache decision was meant to be -----

  /** The decision allows caching of read-only and idempotent tools of servers that are not financial. */
  predicate DecisionAllows(r: Request) { r.isReadOnly && r.isIdempotent && !r.isFinancial }

  /** A call, its answer, and the same call again, all at one time. */
  function AskTwice<V>(c: ProxyCall<Key>, value: V, now: int): seq<Timed<Key, V>> {
    [Timed(Ask(1, c), now), Timed(Arrive(1, Some(value)), now), Timed(Ask(2, c), now)]
  }

  /** The second call is answered from the cache. */
  ghost predicate RepeatsAnswer<V>(c: ProxyCall<Key>, value: V, now: int) {
    Answer(c, value, now, true) in Run(AskTwice(c, value, now)).answers
  }

  lemma RepeatsIffCacheable<V>(c: ProxyCall<Key>, value: V, now: int)
    ensures RepeatsAnswer(c, value, now) <==> IsCacheable(c)
  {
    var events := AskTwice(c, value, now);
    assert events[..2][..1] == events[..1] && events[..1][..0] == [];
    var asked := AskStep(Proxy([], 0, 0, map[], [], []), 1, c, now);
    assert Run(events[..1]) == asked;
    assert Run(events[..2]) == ArriveStep(asked, 1, Some(value), now);
    assert Run(events) == AskStep(Run(events[..2]), 2, c, now);
  }

  /**
   The code does not look at the tool: a repeated call is answered from the cache although the decision forbids it
   exactly when its server has a time to live and is not financial, the call does not bypass the cache, and the tool
   is not both read-only and idempotent.
   */
  lemma CachedAgainstDecisionIff<V>(r: Request, value: V, now: int)
    ensures RepeatsAnswer(CallFor(r), value, now) && !DecisionAllows(r) <==>
              !r.bypassCache && r.ttlSeconds.GetOr(0) > 0 && !r.isFinancial && !(r.isReadOnly && r.isIdempotent)
  {
    RepeatsIffCacheable(CallFor(r), value, now);
  }
}
