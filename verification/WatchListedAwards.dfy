/**
 The award watch list: its handler, the per-instance memory, and the state token that carries the list
 between instances.  A token is the list it was signed for.  Names, queries and notice keys are only
 compared, so integers stand for them.
 */
module WatchListedAwards {
  import opened Options
  import opened InsertionMap
  import opened Lists
  import opened NamedLists

  datatype Watch = Watch(query: int, code: Option<int>, createdAt: int, lastCheckedAt: Option<int>, seenKeys: seq<int>)

  type Entry = Named<Watch>

  type Memory = Index<Watch>

  /** `mergeEntries`: the token's entries, then the instance's own. */
  function Merge(token: seq<Entry>, memory: seq<Entry>): seq<Entry> { Deduped(token + memory) }

  /** `upsert`. */
  function Upserted(entries: seq<Entry>, next: Entry): seq<Entry> { Values(Set(SetAll([], entries), next.name, next)) }

  method MergeEntries(token: seq<Entry>, memory: seq<Entry>) returns (entries: seq<Entry>)
    ensures entries == Merge(token, memory) && UniqueNames(entries)
    ensures forall name :: FindEntry(entries, name) ==
                             if LastNamed(memory, name).Some? then LastNamed(memory, name) else LastNamed(token, name)
  {
    entries := Dedupe(token + memory);
    MergePrefersMemory(token, memory, 0);
    forall name
      ensures FindEntry(entries, name) == if LastNamed(memory, name).Some? then LastNamed(memory, name)
          else LastNamed(token, name)
    {
      MergePrefersMemory(token, memory, name);
    }
  }

  method Upsert(entries: seq<Entry>, next: Entry) returns (r: seq<Entry>)
    ensures r == Upserted(entries, next) && UniqueNames(r)
    ensures forall name :: FindEntry(r, name) == if name == next.name then Some(next) else LastNamed(entries, name)
  {
    r := Dedupe(entries + [next]);
    assert (entries + [next])[..|entries|] == entries;
    UpsertStores(entries, next, next.name);
    forall name
      ensures FindEntry(r, name) == if name == next.name then Some(next) else LastNamed(entries, name)
    {
      UpsertStores(entries, next, name);
    }
  }

  /** `upsert` stores the new entry, keeps the last of every other name, and never repeats a name. */
  lemma UpsertStores(entries: seq<Entry>, next: Entry, name: int)
    ensures UniqueNames(Upserted(entries, next))
    ensures FindEntry(Upserted(entries, next), name) == if name == next.name then Some(next)
        else LastNamed(entries, name)
  {
    assert (entries + [next])[..|entries|] == entries;
    DedupedFinds(entries + [next], name);
  }

  /** `mergeEntries` prefers the instance's memory to the token, name by name. */
  lemma MergePrefersMemory(token: seq<Entry>, memory: seq<Entry>, name: int)
    ensures UniqueNames(Merge(token, memory))
    ensures FindEntry(Merge(token, memory), name)
         == if LastNamed(memory, name).Some? then LastNamed(memory, name) else LastNamed(token, name)
  {
    DedupedFinds(token + memory, name);
    LastNamedOfConcat(token, memory, name);
  }

  // ----- the handler -----

  datatype Action =
    | Save(name: int, query: int, code: Option<int>, at: int)
    | Check(name: int, at: int, result: Option<seq<int>>)  // keys of the bids found; None: the search threw
    | List

  /** What a call answers: nothing new to report, the new keys of a check, or an error. */
  datatype Reply = Listed(token: seq<Entry>) | Checked(newKeys: seq<int>, token: seq<Entry>) | Failed

  datatype Outcome = Outcome(memory: Memory, reply: Reply)

  function CheckedEntry(target: Entry, at: int, keys: seq<int>): Entry {
    target.(rest := target.rest.(lastCheckedAt := Some(at), seenKeys := Dedup(target.rest.seenKeys + keys)))
  }

  function Handle(memory: Memory, token: seq<Entry>, a: Action): Outcome {
    var entries := Merge(token, Values(memory));
    match a
    case Save(name, query, code, at) =>
      var saved := Named(name, Watch(query, code, at, None, []));
      Outcome(Set(memory, name, saved), Listed(Upserted(entries, saved)))
    case List => Outcome(memory, Listed(entries))
    case Check(name, at, result) =>
      var target := FindEntry(entries, name);
      if target.None? || result.None? then Outcome(memory, Failed)
      else
        var updated := CheckedEntry(target.value, at, result.value);
        Outcome(Set(memory, name, updated),
                Checked(Without(result.value, target.value.rest.seenKeys), Upserted(entries, updated)))
  }

  class WatchTool {
    var memory: Memory

    constructor ()
      ensures memory == []
    {
      memory := [];
    }

    method Call(token: seq<Entry>, a: Action) returns (reply: Reply)
      modifies this
      ensures Outcome(memory, reply) == Handle(old(memory), token, a)
    {
      var entries := MergeEntries(token, Values(memory));
      match a
      case Save(name, query, code, at) =>
        var saved := Named(name, Watch(query, code, at, None, []));
        memory := Set(memory, name, saved);
        var watchlist := Upsert(entries, saved);
        reply := Listed(watchlist);
      case List =>
        reply := Listed(entries);
      case Check(name, at, result) =>
        var target := FindEntry(entries, name);
        if target.None? || result.None? {
          return Failed;
        }
        var newKeys := Without(result.value, target.value.rest.seenKeys);
        var updated := target.value.(rest := target.value.rest.(lastCheckedAt := Some(at),
            seenKeys := Dedup(target.value.rest.seenKeys + result.value)));
        memory := Set(memory, updated.name, updated);
        FoundHasName(entries, name);
        var watchlist := Upsert(entries, updated);
        reply := Checked(newKeys, watchlist);
    }
  }

  // ----- chains of calls, each given the token of the one before -----

  /** A call made on the same instance as the last, or on a fresh one. */
  datatype Event = Event(onFreshInstance: bool, action: Action)

  datatype Session = Session(memory: Memory, token: seq<Entry>)

  function Begin(s: Session, e: Event): Memory { if e.onFreshInstance then [] else s.memory }

  function Next(s: Session, e: Event): Session {
    var o := Handle(Begin(s, e), s.token, e.action);
    Session(o.memory, if o.reply.Failed? then s.token else o.reply.token)
  }

  function Run(s: Session, events: seq<Event>): Session {
    if events == [] then s else Next(Run(s, events[..|events| - 1]), events[|events| - 1])
  }

  predicate NeverSaves(events: seq<Event>, name: int) {
    forall i :: 0 <= i < |events| && events[i].action.Save? ==> events[i].action.name != name
  }

  predicate ChecksName(e: Event, name: int) {
    e.action.Check? && e.action.name == name && e.action.result.Some?
  }

  /** The keys that checks of `name` have been given so far, after those seen at the start. */
  function SeenBy(start: seq<int>, events: seq<Event>, name: int): seq<int> {
    if events == [] then start
    else
      var before := SeenBy(start, events[..|events| - 1], name);
      var e := events[|events| - 1];
      if ChecksName(e, name) then before + e.action.result.value else before
  }

  /** The token knows the watch with this seen set, and the instance's memory does not disagree. */
  ghost predicate Knows(s: Session, name: int, seen: seq<int>) {
    && ByName(s.memory) && UniqueNames(s.token)
    && FindEntry(s.token, name).Some?
    && SameMembers(FindEntry(s.token, name).value.rest.seenKeys, seen)
    && (Has(s.memory, name) ==> Get(s.memory, name) == FindEntry(s.token, name))
  }

  /** What the handler finds under a name, in terms of memory and token. */
  lemma HandlerFinds(memory: Memory, token: seq<Entry>, name: int)
    requires ByName(memory) && UniqueNames(token)
    ensures FindEntry(Merge(token, Values(memory)), name) == if Has(memory, name) then Get(memory, name)
        else FindEntry(token, name)
  {
    MergePrefersMemory(token, Values(memory), name);
    ValuesAreUnique(memory);
    LastIsFound(Values(memory), name);
    LastIsFound(token, name);
    FindIsGet(memory, name);
  }

  /** How a call that stores `e` leaves the lookup of any name. */
  lemma StoringKeeps(memory: Memory, token: seq<Entry>, e: Entry, name: int)
    requires ByName(memory) && UniqueNames(token)
    ensures var entries := Merge(token, Values(memory));
            var m, t := Set(memory, e.name, e), Upserted(entries, e);
            && ByName(m) && UniqueNames(t)
            && Get(m, name) == (if name == e.name then Some(e) else Get(memory, name))
            && FindEntry(t, name) == (if name == e.name then Some(e)
                 else if Has(memory, name) then Get(memory, name) else FindEntry(token, name))
  {
    var entries := Merge(token, Values(memory));
    SetByName(memory, e);
    SetKeepsDistinct(memory, e.name, e);
    GetOfSet(memory, e.name, e, name);
    UpsertStores(entries, e, name);
    MergePrefersMemory(token, Values(memory), name);
    LastIsFound(entries, name);
    HandlerFinds(memory, token, name);
  }

  /** Storing an entry of another name leaves what is known; storing one of this name sets it. */
  lemma StoringKnows(memory: Memory, token: seq<Entry>, e: Entry, name: int, before: seq<int>, after: seq<int>)
    requires Knows(Session(memory, token), name, before)
    requires if e.name == name then SameMembers(e.rest.seenKeys, after) else before == after
    ensures Knows(Session(Set(memory, e.name, e), Upserted(Merge(token, Values(memory)), e)), name, after)
  {
    StoringKeeps(memory, token, e, name);
  }

  lemma BeginKnows(s: Session, e: Event, name: int, seen: seq<int>)
    requires Knows(s, name, seen)
    ensures Knows(Session(Begin(s, e), s.token), name, seen)
    ensures FindEntry(Merge(s.token, Values(Begin(s, e))), name) == FindEntry(s.token, name)
  {
    HandlerFinds(Begin(s, e), s.token, name);
  }

  lemma CheckKnows(memory: Memory, token: seq<Entry>, target: Entry, at: int, keys: seq<int>, name: int, seen: seq<int>)
    requires Knows(Session(memory, token), name, seen)
    requires target.name == name ==> FindEntry(token, name) == Some(target)
    ensures var e := CheckedEntry(target, at, keys);
            Knows(Session(Set(memory, e.name, e), Upserted(Merge(token, Values(memory)), e)), name,
                  if target.name == name then seen + keys else seen)
  {
    if target.name == name {
      DedupKeepsMembers(target.rest.seenKeys, seen, keys);
    }
    StoringKnows(memory, token, CheckedEntry(target, at, keys), name, seen, if target.name == name then seen + keys
        else seen);
  }

  lemma NextKnows(s: Session, e: Event, name: int, seen: seq<int>)
    requires Knows(s, name, seen) && (e.action.Save? ==> e.action.name != name)
    ensures Knows(Next(s, e), name, if ChecksName(e, name) then seen + e.action.result.value else seen)
  {
    var memory := Begin(s, e);
    var entries := Merge(s.token, Values(memory));
    BeginKnows(s, e, name, seen);
    match e.action
    case Save(other, query, code, at) =>
      StoringKnows(memory, s.token, Named(other, Watch(query, code, at, None, [])), name, seen, seen);
    case List => MergePrefersMemory(s.token, Values(memory), name);
    case Check(other, at, result) =>
      var target := FindEntry(entries, other);
      FoundHasName(entries, other);
      if target.Some? && result.Some? {
        CheckKnows(memory, s.token, target.value, at, result.value, name, seen);
      }
  }

  lemma {:induction false} RunKnows(s: Session, events: seq<Event>, name: int, seen: seq<int>)
    requires Knows(s, name, seen) && NeverSaves(events, name)
    ensures Knows(Run(s, events), name, SeenBy(seen, events, name))
  {
    if events != [] {
      var init := events[..|events| - 1];
      RunKnows(s, init, name, seen);
      NextKnows(Run(s, init), events[|events| - 1], name, SeenBy(seen, init, name));
    }
  }

  /**
   Along any chain of calls without a save of the name, whether instances change or not, a check reports
   exactly the keys its search returned that no earlier check of the watch was given.
   */
  lemma ChecksReportTheNew(s: Session, events: seq<Event>, e: Event, name: int, seen: seq<int>)
    requires Knows(s, name, seen) && NeverSaves(events, name) && ChecksName(e, name)
    ensures var t := Run(s, events);
            var reply := Handle(Begin(t, e), t.token, e.action).reply;
            reply.Checked? && reply.newKeys == Without(e.action.result.value, SeenBy(seen, events, name))
  {
    RunKnows(s, events, name, seen);
    var t := Run(s, events);
    BeginKnows(t, e, name, SeenBy(seen, events, name));
    WithoutSameMembers(e.action.result.value, FindEntry(t.token, name).value.rest.seenKeys, SeenBy(seen, events, name));
  }

  /** Some check of `name` among the first i was given this key. */
  ghost predicate GivenBefore(events: seq<Event>, i: nat, name: int, key: int)
    requires i <= |events|
  {
    exists j :: 0 <= j < i && ChecksName(events[j], name) && key in events[j].action.result.value
  }

  lemma {:induction false} SeenByMembers(events: seq<Event>, i: nat, name: int, key: int)
    requires i <= |events|
    ensures key in SeenBy([], events[..i], name) <==> GivenBefore(events, i, name, key)
  {
    if i > 0 {
      SeenByMembers(events, i - 1, name, key);
      assert events[..i][..i - 1] == events[..i - 1];
      var before := SeenBy([], events[..i - 1], name);
      assert GivenBefore(events, i, name, key) <==>
          GivenBefore(events, i - 1, name, key) ||
              (ChecksName(events[i - 1], name) && key in events[i - 1].action.result.value);
    }
  }

  lemma SavingKnows(s: Session, save: Event)
    requires ByName(s.memory) && UniqueNames(s.token) && save.action.Save?
    ensures Knows(Next(s, save), save.action.name, [])
  {
    var saved := Named(save.action.name, Watch(save.action.query, save.action.code, save.action.at, None, []));
    StoringKeeps(Begin(s, save), s.token, saved, save.action.name);
  }

  /** The new keys a call reports. */
  function Report(s: Session, e: Event): seq<int> {
    var reply := Handle(Begin(s, e), s.token, e.action).reply;
    if reply.Checked? then reply.newKeys else []
  }

  /** After a save, a key is reported by one check only: the first one whose search returned it. */
  lemma EachKeyIsReportedOnce(s: Session, save: Event, events: seq<Event>, i: nat, key: int)
    requires ByName(s.memory) && UniqueNames(s.token) && save.action.Save?
    requires NeverSaves(events, save.action.name) && i < |events| && ChecksName(events[i], save.action.name)
    ensures key in Report(Run(Next(s, save), events[..i]), events[i]) <==>
              key in events[i].action.result.value && !GivenBefore(events, i, save.action.name, key)
  {
    var name := save.action.name;
    SavingKnows(s, save);
    ChecksReportTheNew(Next(s, save), events[..i], events[i], name, []);
    WithoutMembers(events[i].action.result.value, SeenBy([], events[..i], name), key);
    SeenByMembers(events, i, name, key);
  }

  // ----- going back to an older instance -----

  /**
   An instance that already knows the watch trusts its own memory over a newer token.  A check there
   reports against the token's seen set, for every search result, exactly when the instance does not know
   the watch or has seen the same keys.
   */
  lemma TokenIsHonouredIff(memory: Memory, token: seq<Entry>, name: int, at: int)
    requires ByName(memory) && UniqueNames(token) && FindEntry(token, name).Some?
    ensures (forall keys: seq<int> ::
        CheckReport(memory, token, name, at, keys) == Without(keys, FindEntry(token, name).value.rest.seenKeys))
            <==> (Has(memory, name) ==>
                SameMembers(Get(memory, name).value.rest.seenKeys, FindEntry(token, name).value.rest.seenKeys))
  {
    HandlerFinds(memory, token, name);
    var fromToken := FindEntry(token, name).value.rest.seenKeys;
    if Has(memory, name) {
      var own := Get(memory, name).value.rest.seenKeys;
      if SameMembers(own, fromToken) {
        forall keys: seq<int>
          ensures Without(keys, own) == Without(keys, fromToken)
        {
          WithoutSameMembers(keys, own, fromToken);
        }
      } else {
        var k := DifferentMembersDiffer(own, fromToken);
        assert CheckReport(memory, token, name, at, [k]) == Without([k], own);
      }
    }
  }

  /** An instance that saw nothing of a watch reports a key again although the token it is given has seen it. */
  lemma NewerTokenIsIgnored(name: int, key: int, at: int)
    ensures var stale := Named(name, Watch(1, None, 0, None, []));
            var newer := Named(name, Watch(1, None, 0, Some(1), [key]));
            CheckReport([Pair(name, stale)], [newer], name, at, [key]) == [key] && key in newer.rest.seenKeys
  {
    var stale := Named(name, Watch(1, None, 0, None, []));
    var newer := Named(name, Watch(1, None, 0, Some(1), [key]));
    var memory: Memory := [Pair(name, stale)];
    assert memory[1..] == [];
    KnownReport(memory, [newer], name, at, [key]);
    UnseenStays(key, stale.rest.seenKeys);
  }

  lemma KnownReport(memory: Memory, token: seq<Entry>, name: int, at: int, keys: seq<int>)
    requires ByName(memory) && UniqueNames(token) && Has(memory, name)
    ensures CheckReport(memory, token, name, at, keys) == Without(keys, Get(memory, name).value.rest.seenKeys)
  {
    HandlerFinds(memory, token, name);
  }

  function CheckReport(memory: Memory, token: seq<Entry>, name: int, at: int, keys: seq<int>): seq<int> {
    var reply := Handle(memory, token, Check(name, at, Some(keys))).reply;
    if reply.Checked? then reply.newKeys else []
  }
}
