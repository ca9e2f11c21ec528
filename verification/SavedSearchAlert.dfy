/**
 Saved searches: the handlers, the per-instance memory and the state token.  `upsertSavedSearch` is meant
 to store the entry it is given; it puts that entry first and then lets the old one overwrite it.
 */
module SavedSearchAlert {
  import opened Options
  import opened InsertionMap
  import opened NamedLists

  /** Search criteria are stored and compared whole; an integer stands for them.  Times are ISO instants. */
  datatype Search = Search(criteria: int, createdAt: int, lastCheckedAt: Option<int>)

  type Entry = Named<Search>

  function Upserted(entries: seq<Entry>, next: Entry): seq<Entry> { Deduped([next] + entries) }

  method UpsertSavedSearch(entries: seq<Entry>, next: Entry) returns (r: seq<Entry>)
    ensures r == Upserted(entries, next) && UniqueNames(r)
    ensures forall name :: FindEntry(r, name) == if LastNamed(entries, name).Some? then LastNamed(entries, name)
                             else if name == next.name then Some(next) else None
  {
    r := Dedupe([next] + entries);
    UpsertKeepsTheOld(entries, next, next.name);
    forall name
      ensures FindEntry(r, name) == if LastNamed(entries, name).Some? then LastNamed(entries, name)
                else if name == next.name then Some(next) else None
    {
      UpsertKeepsTheOld(entries, next, name);
    }
  }

  /** What the upsert really does: an entry already listed under a name stays; names stay unique. */
  lemma UpsertKeepsTheOld(entries: seq<Entry>, next: Entry, name: int)
    ensures UniqueNames(Upserted(entries, next))
    ensures FindEntry(Upserted(entries, next), name)
         == if LastNamed(entries, name).Some? then LastNamed(entries, name) else if name == next.name then Some(next)
             else None
  {
    DedupedFinds([next] + entries, name);
    LastNamedOfConcat([next], entries, name);
    assert [next][..0] == [];
  }

  /** It stores the entry it is given exactly when the name is new or already has these contents. */
  lemma UpsertStoresIff(entries: seq<Entry>, next: Entry)
    ensures FindEntry(Upserted(entries, next), next.name) == Some(next)
       <==> LastNamed(entries, next.name) == None || LastNamed(entries, next.name) == Some(next)
  {
    UpsertKeepsTheOld(entries, next, next.name);
  }

  /** A saved search that is updated keeps its old criteria in the list. */
  lemma UpdateIsLost()
    ensures var before, after := Named(1, Search(10, 0, None)), Named(1, Search(20, 5, None));
            Upserted([before], after) == [before] && before != after
  {
    var before, after := Named(1, Search(10, 0, None)), Named(1, Search(20, 5, None));
    var entries := [after, before];
    assert [after] + [before] == entries;
    assert entries[..1] == [after] && entries[..1][..0] == [];
    assert SetAll([], [after]) == [Pair(1, after)];
    assert SetAll([], entries) == Set([Pair(1, after)], 1, before) == [Pair(1, before)];
  }

  // ----- the handlers -----

  datatype Action = Save(name: int, criteria: int, at: int) | Check(name: int, at: int, searchReturns: bool)

  datatype Reply = Saved(token: seq<Entry>) | Checked(previousCheck: Option<int>, criteria: int,
          token: seq<Entry>) | Failed

  datatype Outcome = Outcome(memory: Index<Search>, reply: Reply)

  /** `token` is the entry list of the state token, empty when none was given. */
  function Handle(memory: Index<Search>, token: seq<Entry>, a: Action): Outcome {
    match a
    case Save(name, criteria, at) =>
      var saved := Named(name, Search(criteria, at, None));
      Outcome(Set(memory, name, saved), Saved(Upserted(token, saved)))
    case Check(name, at, searchReturns) =>
      var inToken := FindEntry(token, name);
      var found := if inToken.Some? then inToken else Get(memory, name);
      if found.None? || !searchReturns then Outcome(memory, Failed)
      else
        var updated := found.value.(rest := found.value.rest.(lastCheckedAt := Some(at)));
        Outcome(Set(memory, name, updated),
                Checked(found.value.rest.lastCheckedAt, found.value.rest.criteria, Upserted(token, updated)))
  }

  class SavedSearchTool {
    var savedSearches: Index<Search>

    constructor ()
      ensures savedSearches == []
    {
      savedSearches := [];
    }

    method Call(token: seq<Entry>, a: Action) returns (reply: Reply)
      modifies this
      ensures Outcome(savedSearches, reply) == Handle(old(savedSearches), token, a)
    {
      match a
      case Save(name, criteria, at) =>
        var saved := Named(name, Search(criteria, at, None));
        savedSearches := Set(savedSearches, name, saved);
        var merged := UpsertSavedSearch(token, saved);
        reply := Saved(merged);
      case Check(name, at, searchReturns) =>
        var saved := FindEntry(token, name);
        if saved.None? {
          saved := Get(savedSearches, name);
        }
        if saved.None? {
          return Failed;
        }
        if !searchReturns {
          return Failed;
        }
        var updated := saved.value.(rest := saved.value.rest.(lastCheckedAt := Some(at)));
        savedSearches := Set(savedSearches, name, updated);
        var merged := UpsertSavedSearch(token, updated);
        reply := Checked(saved.value.rest.lastCheckedAt, saved.value.rest.criteria, merged);
    }
  }

  /** `list_saved_searches`: the tokens' entries, or the memory when they hold none. */
  method ListSearches(tokens: seq<Entry>, memory: Index<Search>) returns (r: seq<Entry>)
    ensures UniqueNames(r)
    ensures forall name :: FindEntry(r, name) == LastNamed(if |tokens| > 0 then tokens else Values(memory), name)
  {
    var entries := if |tokens| > 0 then tokens else Values(memory);
    r := Dedupe(entries);
    forall name
      ensures FindEntry(r, name) == LastNamed(entries, name)
    {
      DedupedFinds(entries, name);
    }
    DedupedFinds(entries, 0);
  }

  // ----- chains of calls, each given the token of the one before -----

  datatype Session = Session(memory: Index<Search>, token: seq<Entry>)

  function Next(s: Session, a: Action): Session {
    var o := Handle(s.memory, s.token, a);
    Session(o.memory, if o.reply.Failed? then s.token else o.reply.token)
  }

  function Run(s: Session, actions: seq<Action>): Session {
    if actions == [] then s else Next(Run(s, actions[..|actions| - 1]), actions[|actions| - 1])
  }

  /** Once a name is in the token, no save and no check ever changes its entry there ... */
  lemma {:induction false} TokenEntryIsFrozen(s: Session, actions: seq<Action>, name: int)
    requires UniqueNames(s.token) && FindEntry(s.token, name).Some?
    ensures UniqueNames(Run(s, actions).token) && FindEntry(Run(s, actions).token, name) == FindEntry(s.token, name)
  {
    if actions != [] {
      var t := Run(s, actions[..|actions| - 1]);
      TokenEntryIsFrozen(s, actions[..|actions| - 1], name);
      LastIsFound(t.token, name);
      match actions[|actions| - 1]
      case Save(other, criteria, at) =>
        UpsertKeepsTheOld(t.token, Named(other, Search(criteria, at, None)), name);
      case Check(other, at, searchReturns) =>
        var o := Handle(t.memory, t.token, actions[|actions| - 1]);
        if !o.reply.Failed? {
          var inToken := FindEntry(t.token, other);
          var found := if inToken.Some? then inToken.value else Get(t.memory, other).value;
          UpsertKeepsTheOld(t.token, found.(rest := found.rest.(lastCheckedAt := Some(at))), name);
        }
    }
  }

  /** ... so with tokens every check of the name repeats the first one's previous check and criteria. */
  lemma TokenChecksNeverAdvance(s: Session, actions: seq<Action>, name: int, at: int)
    requires UniqueNames(s.token) && FindEntry(s.token, name).Some?
    ensures var t := Run(s, actions);
            var reply := Handle(t.memory, t.token, Check(name, at, true)).reply;
            var first := FindEntry(s.token, name).value.rest;
            reply.Checked? && reply.previousCheck == first.lastCheckedAt && reply.criteria == first.criteria
  {
    TokenEntryIsFrozen(s, actions, name);
  }

  // ----- chains without tokens -----

  predicate SavesName(a: Action, name: int) { a.Save? && a.name == name }

  predicate ChecksName(a: Action, name: int) { a.Check? && a.name == name && a.searchReturns }

  /** The memory after a chain of calls that pass no token. */
  function MemoryAfter(memory: Index<Search>, actions: seq<Action>): Index<Search> {
    if actions == [] then memory
    else Handle(MemoryAfter(memory, actions[..|actions| - 1]), [], actions[|actions| - 1]).memory
  }

  /** The first n actions save the name, the last time at i. */
  ghost predicate LastSavedAt(actions: seq<Action>, n: nat, name: int, i: int) {
    && 0 <= i < n <= |actions| && SavesName(actions[i], name)
    && forall k :: i < k < n ==> !SavesName(actions[k], name)
  }

  /** After the action at i the first n actions check the name, the last time at j. */
  ghost predicate LastCheckedAfter(actions: seq<Action>, n: nat, name: int, i: int, j: int) {
    && 0 <= i < j < n <= |actions| && ChecksName(actions[j], name)
    && forall k :: j < k < n ==> !ChecksName(actions[k], name)
  }

  /** The time of the last check after i, if there is one. */
  ghost predicate IsPrevious(actions: seq<Action>, n: nat, name: int, i: int, previous: Option<int>) {
    if exists j :: LastCheckedAfter(actions, n, name, i, j)
    then exists j :: LastCheckedAfter(actions, n, name, i, j) && previous == Some(actions[j].at)
    else previous == None
  }

  /** What a call without a token leaves under a name. */
  lemma CallLeaves(memory: Index<Search>, a: Action, name: int)
    ensures var after := Handle(memory, [], a).memory;
            if SavesName(a, name) then Get(after, name) == Some(Named(name, Search(a.criteria, a.at, None)))
            else if ChecksName(a, name) && Has(memory, name) then
              Get(after, name) == Some(Get(memory, name).value.(
                rest := Get(memory, name).value.rest.(lastCheckedAt := Some(a.at))))
            else Get(after, name) == Get(memory, name)
  {
    match a
    case Save(other, criteria, at) => GetOfSet(memory, other, Named(other, Search(criteria, at, None)), name);
    case Check(other, at, searchReturns) =>
      if Has(memory, other) {
        var e := Get(memory, other).value;
        GetOfSet(memory, other, e.(rest := e.rest.(lastCheckedAt := Some(at))), name);
      }
  }

  lemma {:induction false} UnsavedIsUnknown(memory: Index<Search>, actions: seq<Action>, n: nat, name: int)
    requires n <= |actions| && !Has(memory, name) && forall k :: 0 <= k < n ==> !SavesName(actions[k], name)
    ensures !Has(MemoryAfter(memory, actions[..n]), name)
  {
    if n > 0 {
      UnsavedIsUnknown(memory, actions, n - 1, name);
      assert actions[..n][..n - 1] == actions[..n - 1];
      CallLeaves(MemoryAfter(memory, actions[..n - 1]), actions[n - 1], name);
    }
  }

  /** What the memory has under a name last saved at i: what was saved, and when it was last checked since. */
  ghost predicate Remembers(memory: Index<Search>, actions: seq<Action>, n: nat, name: int, i: nat)
    requires LastSavedAt(actions, n, name, i)
  {
    && Has(memory, name)
    && var e := Get(memory, name).value;
       && e.name == name && e.rest.criteria == actions[i].criteria && e.rest.createdAt == actions[i].at
       && IsPrevious(actions, n, name, i, e.rest.lastCheckedAt)
  }

  lemma PreviousStays(actions: seq<Action>, n: nat, m: nat, name: int, i: nat, previous: Option<int>)
    requires i < n < |actions| && m == n + 1 && IsPrevious(actions, n, name, i, previous)
    requires !ChecksName(actions[n], name)
    ensures IsPrevious(actions, m, name, i, previous)
  {
    if exists j :: LastCheckedAfter(actions, n, name, i, j) {
      var j :| LastCheckedAfter(actions, n, name, i, j) && previous == Some(actions[j].at);
      assert LastCheckedAfter(actions, m, name, i, j);
    } else {
      forall j
        ensures !LastCheckedAfter(actions, m, name, i, j)
      {
        assert !LastCheckedAfter(actions, n, name, i, j);
      }
    }
  }

  lemma PreviousAdvances(actions: seq<Action>, n: nat, name: int, i: nat)
    requires i < n < |actions| && ChecksName(actions[n], name)
    ensures IsPrevious(actions, n + 1, name, i, Some(actions[n].at))
  {
    assert LastCheckedAfter(actions, n + 1, name, i, n);
  }

  lemma {:induction false} SavedIsRemembered(memory: Index<Search>, actions: seq<Action>, n: nat, name: int, i: nat)
    requires LastSavedAt(actions, n, name, i)
    ensures Remembers(MemoryAfter(memory, actions[..n]), actions, n, name, i)
    decreases n
  {
    var before, a := MemoryAfter(memory, actions[..n - 1]), actions[n - 1];
    assert actions[..n][..n - 1] == actions[..n - 1];
    CallLeaves(before, a, name);
    if i < n - 1 {
      SavedIsRemembered(memory, actions, n - 1, name, i);
      if ChecksName(a, name) {
        PreviousAdvances(actions, n - 1, name, i);
      } else {
        PreviousStays(actions, n - 1, n, name, i, Get(before, name).value.rest.lastCheckedAt);
      }
    } else {
      assert forall j :: !LastCheckedAfter(actions, n, name, i, j);
    }
  }

  /**
   Along any chain without tokens: a check of a saved name reports the criteria of its last save and the time of the
   last check since, none if there is none; other names make no difference.
   */
  lemma ChecksFollowTheSave(memory: Index<Search>, actions: seq<Action>, name: int, at: int, i: nat)
    requires LastSavedAt(actions, |actions|, name, i)
    ensures var reply := Handle(MemoryAfter(memory, actions), [], Check(name, at, true)).reply;
            && reply.Checked? && reply.criteria == actions[i].criteria
            && IsPrevious(actions, |actions|, name, i, reply.previousCheck)
  {
    SavedIsRemembered(memory, actions, |actions|, name, i);
    assert actions[..|actions|] == actions;
  }

  /** A check of a name that was never saved fails, and so does one whose search fails. */
  lemma UnsavedIsNotFound(memory: Index<Search>, actions: seq<Action>, name: int, at: int)
    requires !Has(memory, name) && forall k :: 0 <= k < |actions| ==> !SavesName(actions[k], name)
    ensures Handle(MemoryAfter(memory, actions), [], Check(name, at, true)).reply == Failed
    ensures forall m: Index<Search>, token: seq<Entry>, other ::
              Handle(m, token, Check(other, at, false)) == Outcome(m, Failed)
  {
    UnsavedIsUnknown(memory, actions, |actions|, name);
    assert actions[..|actions|] == actions;
  }

  // ----- what enters a token -----

  /** A call that succeeds puts the search it saved or checked into a token that lacks the name, and nothing else. */
  lemma TokenTakesNewNames(memory: Index<Search>, token: seq<Entry>, a: Action, other: int)
    requires UniqueNames(token) && FindEntry(token, a.name) == None
    requires a.Check? && Has(memory, a.name) ==> Get(memory, a.name).value.name == a.name
    ensures var reply := Handle(memory, token, a).reply;
            !reply.Failed? ==>
              && UniqueNames(reply.token)
              && FindEntry(reply.token, other) == (if other != a.name then FindEntry(token, other)
                   else if a.Save? then Some(Named(a.name, Search(a.criteria, a.at, None)))
                   else Some(Get(memory, a.name).value.(
                          rest := Get(memory, a.name).value.rest.(lastCheckedAt := Some(a.at)))))
  {
    var reply := Handle(memory, token, a).reply;
    LastIsFound(token, other);
    match a
    case Save(name, criteria, at) =>
      UpsertKeepsTheOld(token, Named(name, Search(criteria, at, None)), other);
    case Check(name, at, searchReturns) =>
      if !reply.Failed? {
        var e := Get(memory, name).value;
        UpsertKeepsTheOld(token, e.(rest := e.rest.(lastCheckedAt := Some(at))), other);
      }
  }

  /** Without tokens a check does advance: the next one starts where it ended. */
  lemma MemoryChecksAdvance(memory: Index<Search>, name: int, at: int, later: int)
    requires Has(memory, name)
    ensures var first := Handle(memory, [], Check(name, at, true));
            var second := Handle(first.memory, [], Check(name, later, true));
            first.reply.Checked? && second.reply.Checked?
            && first.reply.previousCheck == Get(memory, name).value.rest.lastCheckedAt &&
                second.reply.previousCheck == Some(at)
  {
    var e := Get(memory, name).value;
    GetOfSet(memory, name, e.(rest := e.rest.(lastCheckedAt := Some(at))), name);
  }
}
