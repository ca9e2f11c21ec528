/**
 The gateway's TTL cache of child results, and the proxy call that reads and fills it.  A call and the
 arrival of its fetch are separate steps, so other calls come in between.  Keys and results are
 parameters; times are milliseconds.
 */
module ToolCache {
  import opened Options
  import opened InsertionMap

  const MAX_ENTRIES := 1000

  datatype Entry<V> = Entry(value: V, expiresAt: int)

  datatype Lookup<K, V> = Lookup(store: seq<Pair<K, Entry<V>>>, found: Option<V>)

  /** `get`: an expired entry is deleted and not answered. */
  function Find<K(==), V>(store: seq<Pair<K, Entry<V>>>, key: K, now: int): Lookup<K, V> {
    var entry := Get(store, key);
    if entry.None? then Lookup(store, None)
    else if now > entry.value.expiresAt then Lookup(Delete(store, key), None)
    else Lookup(store, Some(entry.value.value))
  }

  /** `set`: a full store drops its oldest key first, even when `key` itself is present. */
  function Fill<K(==), V>(store: seq<Pair<K, Entry<V>>>, key: K, value: V, ttlSeconds: int,
          now: int): seq<Pair<K, Entry<V>>> {
    var room := if |store| >= MAX_ENTRIES then store[1..] else store;
    Set(room, key, Entry(value, now + ttlSeconds * 1000))
  }

  /** The decision-relevant parts of a proxy call; `key` is its cache key. */
  datatype ProxyCall<K> = ProxyCall(key: K, ttlSeconds: Option<int>, isFinancial: bool, bypassCache: bool)

  predicate IsCacheable<K>(c: ProxyCall<K>) {
    !c.bypassCache && c.ttlSeconds.Some? && c.ttlSeconds.value > 0 && !c.isFinancial
  }

  // ----- steps -----

  /** A fetch that returned and was put in the cache. */
  datatype Fetch<K, V> = Fetch(call: ProxyCall<K>, value: V, at: int)

  datatype Answer<K, V> = Answer(call: ProxyCall<K>, value: V, at: int, fromCache: bool)

  datatype Proxy<K, V> = Proxy(
    store: seq<Pair<K, Entry<V>>>, hits: nat, misses: nat,
    pending: map<int, ProxyCall<K>>, fetches: seq<Fetch<K, V>>, answers: seq<Answer<K, V>>)

  datatype Event<K, V> =
    | Ask(rid: int, call: ProxyCall<K>)
    | Arrive(rid: int, result: Option<V>)  // None: the fetch threw
    | Clear

  /** `proxyToolCall` up to the fetch. */
  function AskStep<K(==), V>(s: Proxy<K, V>, rid: int, c: ProxyCall<K>, now: int): Proxy<K, V> {
    if rid in s.pending then s
    else if !IsCacheable(c) then s.(pending := s.pending[rid := c])
    else
      var l := Find(s.store, c.key, now);
      if l.found.Some? then
        s.(store := l.store, hits := s.hits + 1, answers := s.answers + [Answer(c, l.found.value, now, true)])
      else
        s.(store := l.store, misses := s.misses + 1, pending := s.pending[rid := c])
  }

  /** `proxyToolCall` from the end of the fetch: a failed fetch is neither cached nor answered. */
  function ArriveStep<K(==), V>(s: Proxy<K, V>, rid: int, result: Option<V>, now: int): Proxy<K, V> {
    if rid !in s.pending then s else
    var c := s.pending[rid];
    var rest := s.(pending := s.pending - {rid});
    if result.None? then rest
    else
      var answered := rest.(answers := rest.answers + [Answer(c, result.value, now, false)]);
      if !IsCacheable(c) then answered
      else
        answered.(store := Fill(s.store, c.key, result.value, c.ttlSeconds.value, now),
                  fetches := s.fetches + [Fetch(c, result.value, now)])
  }

  datatype Timed<K, V> = Timed(event: Event<K, V>, now: int)

  function Step<K(==), V>(s: Proxy<K, V>, e: Timed<K, V>): Proxy<K, V> {
    match e.event
    case Ask(rid, c) => AskStep(s, rid, c, e.now)
    case Arrive(rid, result) => ArriveStep(s, rid, result, e.now)
    case Clear => s.(store := [])
  }

  function Run<K(==), V>(events: seq<Timed<K, V>>): Proxy<K, V> {
    if events == [] then Proxy([], 0, 0, map[], [], [])
    else Step(Run(events[..|events| - 1]), events[|events| - 1])
  }

  predicate ClockNeverBack<K, V>(events: seq<Timed<K, V>>) {
    forall i, j :: 0 <= i < j < |events| ==> events[i].now <= events[j].now
  }

  // ----- what every run keeps -----

  /** The entry was put there by this fetch. */
  predicate PutBy<K(==), V(==)>(f: Fetch<K, V>, key: K, entry: Entry<V>) {
    IsCacheable(f.call) && f.call.key == key && f.value == entry.value
    && entry.expiresAt == f.at + f.call.ttlSeconds.value * 1000
  }

  ghost predicate Backed<K, V>(fetches: seq<Fetch<K, V>>, key: K, entry: Entry<V>) {
    exists f :: f in fetches && PutBy(f, key, entry)
  }

  ghost predicate StoreOk<K(!new), V>(store: seq<Pair<K, Entry<V>>>, fetches: seq<Fetch<K, V>>) {
    && Distinct(store) && |store| <= MAX_ENTRIES
    && (forall k :: Has(store, k) ==> Backed(fetches, k, Get(store, k).value))
  }

  /** A cached answer repeats what a fetch returned, under the same key, at most its ttl earlier. */
  ghost predicate AnswerOk<K, V>(a: Answer<K, V>, fetches: seq<Fetch<K, V>>) {
    a.fromCache ==>
      && IsCacheable(a.call)
      && exists f :: f in fetches && IsCacheable(f.call) && f.call.key == a.call.key && f.value == a.value
           && f.at <= a.at <= f.at + f.call.ttlSeconds.value * 1000
  }

  lemma FindKeepsStore<K(!new), V>(store: seq<Pair<K, Entry<V>>>, fetches: seq<Fetch<K, V>>, key: K, now: int)
    requires StoreOk(store, fetches)
    ensures StoreOk(Find(store, key, now).store, fetches)
  {
    var t := Find(store, key, now).store;
    if t != store {
      DeleteKeepsDistinct(store, key);
      DeleteRemoves(store, key, key);
      forall k | Has(t, k)
        ensures Backed(fetches, k, Get(t, k).value)
      {
        DeleteRemoves(store, key, k);
      }
    }
  }

  lemma KeysSize<K, V>(m: seq<Pair<K, V>>, k: K, v: V)
    ensures |Set(m, k, v)| == if Has(m, k) then |m| else |m| + 1
  {
    KeysOfSet(m, k, v);
  }

  lemma FillKeepsStore<K(!new), V>(store: seq<Pair<K, Entry<V>>>, fetches: seq<Fetch<K, V>>, f: Fetch<K, V>)
    requires StoreOk(store, fetches) && IsCacheable(f.call)
    ensures StoreOk(Fill(store, f.call.key, f.value, f.call.ttlSeconds.value, f.at), fetches + [f])
  {
    var room := if |store| >= MAX_ENTRIES then store[1..] else store;
    var t := Fill(store, f.call.key, f.value, f.call.ttlSeconds.value, f.at);
    var entry := Entry(f.value, f.at + f.call.ttlSeconds.value * 1000);
    SetKeepsDistinct(room, f.call.key, entry);
    KeysSize(room, f.call.key, entry);
    forall k | Has(t, k)
      ensures Backed(fetches + [f], k, Get(t, k).value)
    {
      GetOfSet(room, f.call.key, entry, k);
      if k == f.call.key {
        assert f in fetches + [f] && PutBy(f, k, entry);
      } else {
        assert Get(store, k) == Get(room, k);
        var g :| g in fetches && PutBy(g, k, Get(store, k).value);
        assert g in fetches + [f];
      }
    }
  }

  ghost predicate HistoryOk<K, V>(s: Proxy<K, V>, now: int) {
    && (forall f :: f in s.fetches ==> f.at <= now)
    && (forall a :: a in s.answers ==> AnswerOk(a, s.fetches))
  }

  /** More fetches never spoil an answer. */
  lemma AnswerStaysOk<K, V>(a: Answer<K, V>, fetches: seq<Fetch<K, V>>, f: Fetch<K, V>)
    requires AnswerOk(a, fetches)
    ensures AnswerOk(a, fetches + [f])
  {
    if a.fromCache {
      var g :| g in fetches && IsCacheable(g.call) && g.call.key == a.call.key && g.value == a.value
        && g.at <= a.at <= g.at + g.call.ttlSeconds.value * 1000;
      assert g in fetches + [f];
    }
  }

  lemma AskKeeps<K(!new), V>(s: Proxy<K, V>, rid: int, c: ProxyCall<K>, now: int)
    requires StoreOk(s.store, s.fetches) && HistoryOk(s, now)
    ensures var t := AskStep(s, rid, c, now); StoreOk(t.store, t.fetches) && HistoryOk(t, now)
  {
    var t := AskStep(s, rid, c, now);
    FindKeepsStore(s.store, s.fetches, c.key, now);
    if t.answers != s.answers {
      assert Has(s.store, c.key);
      var f :| f in s.fetches && PutBy(f, c.key, Get(s.store, c.key).value);
      assert AnswerOk(t.answers[|s.answers|], t.fetches);
    }
  }

  lemma ArriveKeeps<K(!new), V>(s: Proxy<K, V>, rid: int, result: Option<V>, now: int)
    requires StoreOk(s.store, s.fetches) && HistoryOk(s, now)
    ensures var t := ArriveStep(s, rid, result, now); StoreOk(t.store, t.fetches) && HistoryOk(t, now)
  {
    var t := ArriveStep(s, rid, result, now);
    if rid in s.pending && result.Some? && IsCacheable(s.pending[rid]) {
      var f := Fetch(s.pending[rid], result.value, now);
      FillKeepsStore(s.store, s.fetches, f);
      forall a | a in t.answers
        ensures AnswerOk(a, t.fetches)
      {
        if a in s.answers { AnswerStaysOk(a, s.fetches, f); }
      }
    }
  }

  lemma {:induction false} RunKeeps<K(!new), V>(events: seq<Timed<K, V>>)
    requires ClockNeverBack(events)
    ensures var s := Run(events);
            StoreOk(s.store, s.fetches) && (events == [] ==> s.answers == [] && s.fetches == [])
            && (events != [] ==> HistoryOk(s, events[|events| - 1].now))
    decreases |events|
  {
    if events != [] {
      var init, e := events[..|events| - 1], events[|events| - 1];
      RunKeeps(init);
      match e.event
      case Ask(rid, c) => AskKeeps(Run(init), rid, c, e.now);
      case Arrive(rid, result) => ArriveKeeps(Run(init), rid, result, e.now);
      case Clear =>
    }
  }

  /**
   The promise of the cache over every run: a cached answer was returned by a real fetch under the same
   key at most that fetch's ttl earlier, neither side was a financial server or a bypass, and the store
   never holds more than its bound.
   */
  lemma CachedAnswersAreFetched<K(!new), V>(events: seq<Timed<K, V>>)
    requires ClockNeverBack(events)
    ensures |Run(events).store| <= 1000
    ensures forall a :: a in Run(events).answers && a.fromCache ==>
              && !a.call.isFinancial && !a.call.bypassCache
              && exists f ::
                  f in Run(events).fetches && !f.call.isFinancial && f.call.key == a.call.key && f.value == a.value
                   && f.at <= a.at <= f.at + f.call.ttlSeconds.GetOr(0) * 1000
  {
    RunKeeps(events);
    var s := Run(events);
    forall a | a in s.answers && a.fromCache
      ensures !a.call.isFinancial && !a.call.bypassCache
      ensures exists f :: f in s.fetches && !f.call.isFinancial && f.call.key == a.call.key && f.value == a.value
                && f.at <= a.at <= f.at + f.call.ttlSeconds.GetOr(0) * 1000
    {
      assert AnswerOk(a, s.fetches);
      var f :| f in s.fetches && IsCacheable(f.call) && f.call.key == a.call.key && f.value == a.value
        && f.at <= a.at <= f.at + f.call.ttlSeconds.value * 1000;
      assert !f.call.isFinancial;
    }
  }

  // ----- the counters -----

  function CachedAnswers<K, V>(answers: seq<Answer<K, V>>): nat {
    if answers == [] then 0
    else CachedAnswers(answers[..|answers| - 1]) + if answers[|answers| - 1].fromCache then 1 else 0
  }

  /** How many cacheable calls were asked for. */
  function CacheableAsks<K(==), V>(events: seq<Timed<K, V>>): nat {
    if events == [] then 0
    else
      var init, e := events[..|events| - 1], events[|events| - 1].event;
      CacheableAsks(init) + if e.Ask? && e.rid !in Run(init).pending && IsCacheable(e.call) then 1 else 0
  }

  lemma CachedAnswersNext<K, V>(answers: seq<Answer<K, V>>, a: Answer<K, V>)
    ensures CachedAnswers(answers + [a]) == CachedAnswers(answers) + if a.fromCache then 1 else 0
  {
    assert (answers + [a])[..|answers|] == answers;
  }

  lemma AskCounts<K, V>(s: Proxy<K, V>, rid: int, c: ProxyCall<K>, now: int)
    requires s.hits == CachedAnswers(s.answers)
    ensures var t := AskStep(s, rid, c, now);
            && t.hits == CachedAnswers(t.answers)
            && t.hits + t.misses == s.hits + s.misses + if rid !in s.pending && IsCacheable(c) then 1 else 0
  {
    var t := AskStep(s, rid, c, now);
    if t.answers != s.answers { CachedAnswersNext(s.answers, t.answers[|s.answers|]); }
  }

  lemma ArriveCounts<K, V>(s: Proxy<K, V>, rid: int, result: Option<V>, now: int)
    requires s.hits == CachedAnswers(s.answers)
    ensures var t := ArriveStep(s, rid, result, now);
            t.hits == s.hits == CachedAnswers(t.answers) && t.misses == s.misses
  {
    var t := ArriveStep(s, rid, result, now);
    if t.answers != s.answers { CachedAnswersNext(s.answers, t.answers[|s.answers|]); }
  }

  /** In every run the hits are the answers from the cache, and hits and misses the cacheable calls. */
  lemma {:induction false} CountersAgree<K(!new), V>(events: seq<Timed<K, V>>)
    ensures var s := Run(events);
            s.hits == CachedAnswers(s.answers) && s.hits + s.misses == CacheableAsks(events)
  {
    if events != [] {
      var init, e := events[..|events| - 1], events[|events| - 1];
      CountersAgree(init);
      match e.event
      case Ask(rid, c) => AskCounts(Run(init), rid, c, e.now);
      case Arrive(rid, result) => ArriveCounts(Run(init), rid, result, e.now);
      case Clear =>
    }
  }

  // ----- every call is settled -----

  /** How many calls were taken up. */
  function Asks<K(==), V>(events: seq<Timed<K, V>>): nat {
    if events == [] then 0
    else
      var init, e := events[..|events| - 1], events[|events| - 1].event;
      Asks(init) + if e.Ask? && e.rid !in Run(init).pending then 1 else 0
  }

  /** How many fetches threw. */
  function Failures<K(==), V>(events: seq<Timed<K, V>>): nat {
    if events == [] then 0
    else
      var init, e := events[..|events| - 1], events[|events| - 1].event;
      Failures(init) + if e.Arrive? && e.rid in Run(init).pending && e.result.None? then 1 else 0
  }

  /** In every run each call taken up is answered, failed, or still being fetched. */
  lemma {:induction false} CallsAreSettled<K(!new), V>(events: seq<Timed<K, V>>)
    ensures var s := Run(events); |s.answers| + Failures(events) + |s.pending| == Asks(events)
  {
    if events != [] {
      var init, e := events[..|events| - 1], events[|events| - 1];
      CallsAreSettled(init);
      match e.event
      case Ask(rid, c) => AskSettles(Run(init), rid, c, e.now);
      case Arrive(rid, result) => ArriveSettles(Run(init), rid, result, e.now);
      case Clear =>
    }
  }

  lemma AskSettles<K, V>(s: Proxy<K, V>, rid: int, c: ProxyCall<K>, now: int)
    ensures var t := AskStep(s, rid, c, now);
            |t.answers| + |t.pending| == |s.answers| + |s.pending| + if rid !in s.pending then 1 else 0
  {}

  lemma ArriveSettles<K, V>(s: Proxy<K, V>, rid: int, result: Option<V>, now: int)
    ensures var t := ArriveStep(s, rid, result, now);
            |t.answers| + |t.pending| ==
              |s.answers| + |s.pending| - if rid in s.pending && result.None? then 1 else 0
  {}

  /** A fetch that returns answers the call that was taken up under its id, with what it returned. */
  lemma FetchAnswers<K, V>(s: Proxy<K, V>, rid: int, c: ProxyCall<K>, now: int, value: V, later: int)
    requires rid !in s.pending && (IsCacheable(c) ==> Find(s.store, c.key, now).found.None?)
    ensures var t := ArriveStep(AskStep(s, rid, c, now), rid, Some(value), later);
            t.answers == s.answers + [Answer(c, value, later, false)] && t.pending == s.pending
  {}

  /** Event i asked for the call. */
  ghost predicate AskedAt<K, V>(events: seq<Timed<K, V>>, c: ProxyCall<K>, i: int) {
    0 <= i < |events| && events[i].event.Ask? && events[i].event.call == c
  }

  lemma {:induction false} PendingWasAsked<K, V>(events: seq<Timed<K, V>>, rid: int) returns (i: int)
    requires rid in Run(events).pending
    ensures AskedAt(events, Run(events).pending[rid], i)
    decreases |events|
  {
    var init, last := events[..|events| - 1], events[|events| - 1];
    if rid in Run(init).pending {
      i := PendingWasAsked(init, rid);
    } else {
      i := |events| - 1;
    }
  }

  /** Every fetch of a run was made for a call that was asked for. */
  lemma {:induction false} FetchesWereAsked<K, V>(events: seq<Timed<K, V>>, f: Fetch<K, V>) returns (i: int)
    requires f in Run(events).fetches
    ensures AskedAt(events, f.call, i)
    decreases |events|
  {
    var init, last := events[..|events| - 1], events[|events| - 1];
    if f in Run(init).fetches {
      i := FetchesWereAsked(init, f);
    } else {
      i := PendingWasAsked(init, last.event.rid);
    }
  }

  /** A filled key is found until it expires, and expired keys are not. */
  lemma FilledIsFound<K, V>(store: seq<Pair<K, Entry<V>>>, key: K, value: V, ttlSeconds: int, at: int, now: int)
    ensures Find(Fill(store, key, value, ttlSeconds, at), key, now).found
         == if now <= at + ttlSeconds * 1000 then Some(value) else None
  {
    var room := if |store| >= MAX_ENTRIES then store[1..] else store;
    GetOfSet(room, key, Entry(value, at + ttlSeconds * 1000), key);
  }

  /** Filling takes an answer away from at most one other key: the oldest, and only when full. */
  lemma FillEvictsOldestOnly<K, V>(store: seq<Pair<K, Entry<V>>>, key: K, value: V, ttlSeconds: int, at: int, other: K)
    requires Distinct(store) && other != key
    ensures Get(Fill(store, key, value, ttlSeconds, at), other)
         == if |store| >= 1000 && store[0].key == other then None else Get(store, other)
  {
    var room := if |store| >= MAX_ENTRIES then store[1..] else store;
    GetOfSet(room, key, Entry(value, at + ttlSeconds * 1000), other);
  }

  // ----- the cache and the proxy as the gateway keeps them -----

  class Cache<K(==), V> {
    var store: seq<Pair<K, Entry<V>>>
    var hitCount: nat
    var missCount: nat

    constructor ()
      ensures store == [] && hitCount == missCount == 0
    {
      store, hitCount, missCount := [], 0, 0;
    }

    method GetCached(key: K, now: int) returns (found: Option<V>)
      modifies this`store
      ensures Lookup(store, found) == Find(old(store), key, now)
    {
      var entry := Get(store, key);
      if entry.None? {
        return None;
      }
      if now > entry.value.expiresAt {
        store := Delete(store, key);
        return None;
      }
      return Some(entry.value.value);
    }

    method SetCached(key: K, value: V, ttlSeconds: int, now: int)
      modifies this`store
      ensures store == Fill(old(store), key, value, ttlSeconds, now)
    {
      if |store| >= MAX_ENTRIES {
        store := store[1..];
      }
      store := Set(store, key, Entry(value, now + ttlSeconds * 1000));
    }

    /** Up to the fetch; None means the child has to be asked. */
    method BeginCall(c: ProxyCall<K>, now: int) returns (answer: Option<V>)
      modifies this
      ensures var s := Proxy(old(store), old(hitCount), old(missCount), map[], [], []);
              var t := AskStep(s, 0, c, now);
              && store == t.store && hitCount == t.hits && missCount == t.misses
              && (answer.Some? <==> t.pending == map[])
              && (answer.Some? ==> t.answers == [Answer(c, answer.value, now, true)])
    {
      if c.bypassCache || c.ttlSeconds.None? || c.ttlSeconds.value <= 0 || c.isFinancial {
        assert 0 in map[0 := c];
        return None;
      }
      answer := GetCached(c.key, now);
      if answer.Some? {
        hitCount := hitCount + 1;
      } else {
        missCount := missCount + 1;
        assert 0 in map[0 := c];
      }
    }

    /** From the end of a fetch that returned `value`. */
    method EndCall(c: ProxyCall<K>, value: V, now: int)
      modifies this`store
      ensures store == ArriveStep(Proxy(old(store), 0, 0, map[0 := c], [], []), 0, Some(value), now).store
    {
      if !c.bypassCache && c.ttlSeconds.Some? && c.ttlSeconds.value > 0 && !c.isFinancial {
        SetCached(c.key, value, c.ttlSeconds.value, now);
      }
    }
  }
}
