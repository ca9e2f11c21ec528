/**
 Checks and saves of one watch on one instance, with the search between reading the watch and storing it.  Each check
 is two steps, so others may write in between; then notices are reported twice and saves are lost.
 */
module OverlappingChecks {
  import opened Options
  import opened InsertionMap
  import opened Lists
  import opened NamedLists
  import opened WatchListedAwards

  /** The two halves of a check, up to the search and from its end, and a save, which is one step. */
  datatype Half = Read(rid: int, token: seq<Entry>) | Store(rid: int, at: int) | Save(at: int)

  /** What comes from outside at a half: the keys the search of a storing check returned, or the watch that is saved. */
  datatype Input = Input(keys: seq<int>, query: int, code: Option<int>)

  /** `reading` has the entry each check under way has read. */
  datatype Instance = Instance(memory: Memory, reading: map<int, Entry>)

  function Target(memory: Memory, token: seq<Entry>, name: int): Option<Entry> {
    FindEntry(Merge(token, Values(memory)), name)
  }

  function SavedWatch(x: Input, at: int): Watch { Watch(x.query, x.code, at, None, []) }

  function HalfStep(s: Instance, name: int, h: Half, x: Input): Instance {
    match h
    case Read(rid, token) =>
      var target := Target(s.memory, token, name);
      if rid in s.reading || target.None? then s else s.(reading := s.reading[rid := target.value])
    case Store(rid, at) =>
      if rid !in s.reading then s
      else
        var updated := CheckedEntry(s.reading[rid], at, x.keys);
        Instance(Set(s.memory, updated.name, updated), s.reading - {rid})
    case Save(at) => s.(memory := Set(s.memory, name, Named(name, SavedWatch(x, at))))
  }

  /** The keys a storing check reports as new. */
  function Reported(s: Instance, rid: int, keys: seq<int>): seq<int>
    requires rid in s.reading
  {
    Without(keys, s.reading[rid].rest.seenKeys)
  }

  function Run(s: Instance, name: int, halves: seq<Half>, inputs: seq<Input>): Instance
    requires |inputs| == |halves|
  {
    if halves == [] then s
    else
      var n := |halves| - 1;
      HalfStep(Run(s, name, halves[..n], inputs[..n]), name, halves[n], inputs[n])
  }

  /** The two halves of a check, with nothing in between, are the check of the handler; a save is its save. */
  lemma HalvesAreCheck(memory: Memory, token: seq<Entry>, name: int, at: int, x: Input, rid: int)
    requires Target(memory, token, name).Some?
    ensures var read := HalfStep(Instance(memory, map[]), name, Read(rid, token), x);
            var o := Handle(memory, token, Action.Check(name, at, Some(x.keys)));
            && rid in read.reading && o.reply.Checked?
            && o.reply.newKeys == Reported(read, rid, x.keys)
            && o.memory == HalfStep(read, name, Store(rid, at), x).memory
    ensures HalfStep(Instance(memory, map[]), name, Half.Save(at), x).memory ==
              Handle(memory, token, Action.Save(name, x.query, x.code, at)).memory
  {
    FoundHasName(Merge(token, Values(memory)), name);
  }

  // ----- overlap, which the order of halves alone decides -----

  /** How many writes there were, how many when each check under way read, and whether the instance has the watch. */
  datatype Progress = Progress(writes: nat, reading: map<int, nat>, known: bool)

  function Advance(p: Progress, name: int, h: Half): Progress {
    match h
    case Read(rid, token) =>
      if rid in p.reading || !(p.known || LastNamed(token, name).Some?) then p
      else p.(reading := p.reading[rid := p.writes])
    case Store(rid, at) => if rid !in p.reading then p else Progress(p.writes + 1, p.reading - {rid}, true)
    case Save(at) => Progress(p.writes + 1, p.reading, true)
  }

  function Track(known: bool, name: int, halves: seq<Half>): Progress {
    if halves == [] then Progress(0, map[], known)
    else Advance(Track(known, name, halves[..|halves| - 1]), name, halves[|halves| - 1])
  }

  /** Half i stores a check that has read. */
  predicate StoresAt(known: bool, name: int, halves: seq<Half>, i: int) {
    0 <= i < |halves| && halves[i].Store? && halves[i].rid in Track(known, name, halves[..i]).reading
  }

  /** The watch was written since the check that stores at i read it. */
  predicate OverlapsAt(known: bool, name: int, halves: seq<Half>, i: int) {
    && StoresAt(known, name, halves, i)
    && var p := Track(known, name, halves[..i]);
       p.reading[halves[i].rid] != p.writes
  }

  ghost predicate Sequential(known: bool, name: int, halves: seq<Half>) {
    forall i :: 0 <= i < |halves| ==> !OverlapsAt(known, name, halves, i)
  }

  // ----- what a check should report -----

  /** The watch as it should be: the last save, with all keys that checks were given since. */
  function Due(start: Watch, known: bool, name: int, halves: seq<Half>, inputs: seq<Input>): Watch
    requires |inputs| == |halves|
  {
    if halves == [] then start
    else
      var n := |halves| - 1;
      var before := Due(start, known, name, halves[..n], inputs[..n]);
      DueStep(before, halves[n], StoresAt(known, name, halves, n), inputs[n])
  }

  function DueStep(due: Watch, h: Half, stores: bool, x: Input): Watch {
    if h.Save? then SavedWatch(x, h.at) else if stores then due.(seenKeys := due.seenKeys + x.keys) else due
  }

  predicate SameSave(w: Watch, due: Watch) {
    w.query == due.query && w.code == due.code && w.createdAt == due.createdAt
  }

  /** The check that stores at i works for the watch saved last, and reports exactly the keys that no check since
      was given. */
  ghost predicate ExactAt(s: Instance, start: Watch, name: int, halves: seq<Half>, inputs: seq<Input>, i: int)
    requires |inputs| == |halves| && StoresAt(Has(s.memory, name), name, halves, i)
  {
    var t := Run(s, name, halves[..i], inputs[..i]);
    var due := Due(start, Has(s.memory, name), name, halves[..i], inputs[..i]);
    && halves[i].rid in t.reading
    && SameSave(t.reading[halves[i].rid].rest, due)
    && Reported(t, halves[i].rid, inputs[i].keys) == Without(inputs[i].keys, due.seenKeys)
  }

  ghost predicate Exact(s: Instance, start: Watch, name: int, halves: seq<Half>, inputs: seq<Input>)
    requires |inputs| == |halves|
  {
    forall i :: StoresAt(Has(s.memory, name), name, halves, i) ==> ExactAt(s, start, name, halves, inputs, i)
  }

  /** Whoever knows the watch knows it as `start`: the instance, or else the tokens that have it. */
  ghost predicate StartsWith(s: Instance, start: Watch, name: int, halves: seq<Half>) {
    && ByName(s.memory) && s.reading == map[]
    && if Has(s.memory, name) then Get(s.memory, name) == Some(Named(name, start))
       else forall i :: 0 <= i < |halves| && halves[i].Read? && LastNamed(halves[i].token, name).Some? ==>
                LastNamed(halves[i].token, name) == Some(Named(name, start))
  }

  // ----- steps in terms of the watch -----

  /** The watch of the name, on an instance that has it. */
  function Own(memory: Memory, name: int): Watch
    requires Has(memory, name)
  {
    Get(memory, name).value.rest
  }

  ghost predicate Tidy(s: Instance, name: int) {
    && ByName(s.memory) && (Has(s.memory, name) ==> Get(s.memory, name).value.name == name)
    && forall rid :: rid in s.reading ==> s.reading[rid].name == name
  }

  /** A check reads the instance's own watch, or else the token's. */
  lemma TargetIs(memory: Memory, token: seq<Entry>, name: int)
    requires ByName(memory)
    ensures Target(memory, token, name) == if Has(memory, name) then Get(memory, name) else LastNamed(token, name)
    ensures Target(memory, token, name).Some? ==> Target(memory, token, name).value.name == name
  {
    MergePrefersMemory(token, Values(memory), name);
    ValuesAreUnique(memory);
    LastIsFound(Values(memory), name);
    FindIsGet(memory, name);
    FoundHasName(Merge(token, Values(memory)), name);
  }

  lemma StoredIsOwn(memory: Memory, e: Entry)
    requires ByName(memory)
    ensures ByName(Set(memory, e.name, e)) && Get(Set(memory, e.name, e), e.name) == Some(e)
  {
    SetByName(memory, e);
    SetKeepsDistinct(memory, e.name, e);
    GetOfSet(memory, e.name, e, e.name);
  }

  /** A read leaves the memory and takes the watch as the instance, or else the token, has it. */
  lemma ReadTakes(s: Instance, name: int, h: Half, x: Input)
    requires Tidy(s, name) && h.Read?
    ensures var t := HalfStep(s, name, h, x);
            && Tidy(t, name) && t.memory == s.memory
            && (if h.rid in s.reading || !(Has(s.memory, name) || LastNamed(h.token, name).Some?) then t == s
                else t.reading == s.reading[h.rid :=
                       Named(name, if Has(s.memory, name) then Own(s.memory, name)
                                   else LastNamed(h.token, name).value.rest)])
  {
    TargetIs(s.memory, h.token, name);
  }

  /** A store writes the watch that was read, with the keys returned. */
  lemma StoreWrites(s: Instance, name: int, h: Half, x: Input)
    requires Tidy(s, name) && h.Store? && h.rid in s.reading
    ensures var t := HalfStep(s, name, h, x);
            var w := s.reading[h.rid].rest;
            && Tidy(t, name) && t.reading == s.reading - {h.rid} && Has(t.memory, name)
            && SameSave(Own(t.memory, name), w) && Own(t.memory, name).seenKeys == Dedup(w.seenKeys + x.keys)
  {
    StoredIsOwn(s.memory, CheckedEntry(s.reading[h.rid], h.at, x.keys));
  }

  lemma SaveWrites(s: Instance, name: int, h: Half, x: Input)
    requires Tidy(s, name) && h.Save?
    ensures var t := HalfStep(s, name, h, x);
            Tidy(t, name) && t.reading == s.reading && Get(t.memory, name) == Some(Named(name, SavedWatch(x, h.at)))
  {
    StoredIsOwn(s.memory, Named(name, SavedWatch(x, h.at)));
  }

  // ----- without overlap every report is exact -----

  ghost predicate Agrees(w: Watch, due: Watch) { SameSave(w, due) && SameMembers(w.seenKeys, due.seenKeys) }

  /** The order of halves says which checks are under way and whether the instance has the watch. */
  ghost predicate Follows(t: Instance, name: int, p: Progress) {
    && Tidy(t, name) && t.reading.Keys == p.reading.Keys && (p.known <==> Has(t.memory, name))
    && forall rid :: rid in p.reading ==> p.reading[rid] <= p.writes
  }

  /** The instance's watch is the one due, and so is that of every check that read since the last write. */
  ghost predicate UpToDate(t: Instance, name: int, p: Progress, start: Watch, due: Watch) {
    && Follows(t, name, p)
    && (if p.known then Agrees(Own(t.memory, name), due) else due == start)
    && forall rid :: rid in p.reading && p.reading[rid] == p.writes ==> Agrees(t.reading[rid].rest, due)
  }

  /** A token an instance without the watch is given has it as `start`, or not at all. */
  ghost predicate TokenIs(h: Half, name: int, start: Watch) {
    h.Read? && LastNamed(h.token, name).Some? ==> LastNamed(h.token, name) == Some(Named(name, start))
  }

  lemma StepFollows(t: Instance, name: int, p: Progress, h: Half, x: Input)
    requires Follows(t, name, p)
    ensures Follows(HalfStep(t, name, h, x), name, Advance(p, name, h))
  {
    match h
    case Read(rid, token) => ReadTakes(t, name, h, x);
    case Store(rid, at) => if rid in t.reading { StoreWrites(t, name, h, x); }
    case Save(at) => SaveWrites(t, name, h, x);
  }

  lemma UpToDateStep(t: Instance, name: int, p: Progress, start: Watch, due: Watch, h: Half, x: Input)
    requires UpToDate(t, name, p, start, due) && (p.known || TokenIs(h, name, start))
    requires h.Store? && h.rid in p.reading ==> p.reading[h.rid] == p.writes
    ensures UpToDate(HalfStep(t, name, h, x), name, Advance(p, name, h), start,
                     DueStep(due, h, h.Store? && h.rid in p.reading, x))
  {
    StepFollows(t, name, p, h, x);
    match h
    case Read(rid, token) => ReadTakes(t, name, h, x);
    case Store(rid, at) =>
      if rid in p.reading {
        StoreWrites(t, name, h, x);
        DedupKeepsMembers(t.reading[rid].rest.seenKeys, due.seenKeys, x.keys);
      }
    case Save(at) => SaveWrites(t, name, h, x);
  }

  lemma PrefixHalves(known: bool, name: int, halves: seq<Half>, n: nat, i: int)
    requires n <= |halves| && i < n
    ensures StoresAt(known, name, halves[..n], i) <==> StoresAt(known, name, halves, i)
    ensures OverlapsAt(known, name, halves[..n], i) <==> OverlapsAt(known, name, halves, i)
  {
    if 0 <= i { assert halves[..n][..i] == halves[..i]; }
  }

  lemma PrefixIsSequential(known: bool, name: int, halves: seq<Half>, n: nat)
    requires Sequential(known, name, halves) && n <= |halves|
    ensures Sequential(known, name, halves[..n])
  {
    forall i | 0 <= i < n
      ensures !OverlapsAt(known, name, halves[..n], i)
    {
      PrefixHalves(known, name, halves, n, i);
    }
  }

  lemma {:induction false} SequentialIsUpToDate(s: Instance, start: Watch, name: int, halves: seq<Half>,
          inputs: seq<Input>)
    requires |inputs| == |halves| && StartsWith(s, start, name, halves)
    requires Sequential(Has(s.memory, name), name, halves)
    ensures var known := Has(s.memory, name);
            UpToDate(Run(s, name, halves, inputs), name, Track(known, name, halves), start,
                Due(start, known, name, halves, inputs))
  {
    var known := Has(s.memory, name);
    if halves != [] {
      var n := |halves| - 1;
      PrefixIsSequential(known, name, halves, n);
      SequentialIsUpToDate(s, start, name, halves[..n], inputs[..n]);
      assert !OverlapsAt(known, name, halves, n);
      if !known { assert TokenIs(halves[n], name, start); } else { StaysKnown(name, halves[..n]); }
      UpToDateStep(Run(s, name, halves[..n], inputs[..n]), name, Track(known, name, halves[..n]), start,
          Due(start, known, name, halves[..n], inputs[..n]), halves[n], inputs[n]);
    }
  }

  lemma {:induction false} StaysKnown(name: int, halves: seq<Half>)
    ensures Track(true, name, halves).known
  {
    if halves != [] { StaysKnown(name, halves[..|halves| - 1]); }
  }

  lemma SequentialIsExact(s: Instance, start: Watch, name: int, halves: seq<Half>, inputs: seq<Input>)
    requires |inputs| == |halves| && StartsWith(s, start, name, halves)
    requires Sequential(Has(s.memory, name), name, halves)
    ensures Exact(s, start, name, halves, inputs)
  {
    var known := Has(s.memory, name);
    forall i | StoresAt(known, name, halves, i)
      ensures ExactAt(s, start, name, halves, inputs, i)
    {
      PrefixIsSequential(known, name, halves, i);
      SequentialIsUpToDate(s, start, name, halves[..i], inputs[..i]);
      assert !OverlapsAt(known, name, halves, i);
      var t := Run(s, name, halves[..i], inputs[..i]);
      var due := Due(start, known, name, halves[..i], inputs[..i]);
      WithoutSameMembers(inputs[i].keys, t.reading[halves[i].rid].rest.seenKeys, due.seenKeys);
    }
  }

  // ----- with overlap some are not -----

  /** After the first c writes, every search returns the key and every save is of the query. */
  function Late(known: bool, name: int, halves: seq<Half>, start: Watch, c: nat, key: int): (inputs: seq<Input>)
    ensures |inputs| == |halves|
  {
    if halves == [] then []
    else
      var n := |halves| - 1;
      Late(known, name, halves[..n], start, c, key)
      + [LateInput(Track(known, name, halves[..n]).writes < c, start, key)]
  }

  function LateInput(early: bool, start: Watch, key: int): Input {
    if early then Input([], start.query, None) else Input([key], start.query + 1, None)
  }

  lemma {:induction false} LatePrefix(known: bool, name: int, halves: seq<Half>, start: Watch, c: nat, key: int, i: nat)
    requires i < |halves|
    ensures Late(known, name, halves, start, c, key)[..i] == Late(known, name, halves[..i], start, c, key)
    ensures Late(known, name, halves, start, c, key)[i] ==
              LateInput(Track(known, name, halves[..i]).writes < c, start, key)
  {
    var n := |halves| - 1;
    var late := Late(known, name, halves, start, c, key);
    if i < n {
      LatePrefix(known, name, halves[..n], start, c, key, i);
      assert halves[..n][..i] == halves[..i];
      assert late[..i] == Late(known, name, halves[..n], start, c, key)[..i];
    } else {
      assert late[..i] == Late(known, name, halves[..n], start, c, key);
    }
  }

  /** The watch has neither the late key nor the late query. */
  predicate Early(w: Watch, start: Watch, key: int) { key !in w.seenKeys && w.query == start.query }

  /** A watch read before the late writes is early, and the one due after them is not. */
  ghost predicate KeyIsLate(t: Instance, name: int, p: Progress, start: Watch, due: Watch, c: nat, key: int) {
    && Follows(t, name, p)
    && (p.known && p.writes <= c ==> Early(Own(t.memory, name), start, key))
    && (p.writes > c ==> !Early(due, start, key))
    && forall rid :: rid in p.reading && p.reading[rid] <= c ==> Early(t.reading[rid].rest, start, key)
  }

  lemma LateStep(t: Instance, name: int, p: Progress, start: Watch, due: Watch, c: nat, key: int, h: Half, x: Input)
    requires KeyIsLate(t, name, p, start, due, c, key) && (p.known || TokenIs(h, name, start))
    requires x == LateInput(p.writes < c, start, key) && key !in start.seenKeys
    ensures KeyIsLate(HalfStep(t, name, h, x), name, Advance(p, name, h), start,
                      DueStep(due, h, h.Store? && h.rid in p.reading, x), c, key)
  {
    StepFollows(t, name, p, h, x);
    match h
    case Read(rid, token) => ReadTakes(t, name, h, x);
    case Store(rid, at) =>
      if rid in p.reading {
        StoreWrites(t, name, h, x);
        AddAllMembers([], t.reading[rid].rest.seenKeys + x.keys, key);
      }
    case Save(at) => SaveWrites(t, name, h, x);
  }

  lemma {:induction false} LateKeeps(s: Instance, start: Watch, name: int, halves: seq<Half>, c: nat, key: int)
    requires StartsWith(s, start, name, halves) && key !in start.seenKeys
    ensures var known := Has(s.memory, name);
            var inputs := Late(known, name, halves, start, c, key);
            KeyIsLate(Run(s, name, halves, inputs), name, Track(known, name, halves), start,
                Due(start, known, name, halves, inputs), c, key)
  {
    var known := Has(s.memory, name);
    if halves != [] {
      var n := |halves| - 1;
      var inputs := Late(known, name, halves, start, c, key);
      LatePrefix(known, name, halves, start, c, key, n);
      LateKeeps(s, start, name, halves[..n], c, key);
      if !known { assert TokenIs(halves[n], name, start); } else { StaysKnown(name, halves[..n]); }
      LateStep(Run(s, name, halves[..n], inputs[..n]), name, Track(known, name, halves[..n]), start,
          Due(start, known, name, halves[..n], inputs[..n]), c, key, halves[n], inputs[n]);
    }
  }

  lemma {:induction false} UnseenKey(seen: seq<int>) returns (key: int)
    ensures forall i :: 0 <= i < |seen| ==> seen[i] < key
  {
    if seen == [] {
      key := 0;
    } else {
      var k := UnseenKey(seen[1..]);
      key := if seen[0] < k then k else seen[0] + 1;
      assert forall i :: 1 <= i < |seen| ==> seen[i] == seen[1..][i - 1];
    }
  }

  lemma {:induction false} SaveDecidesQuery(start: Watch, known: bool, name: int, halves: seq<Half>, inputs: seq<Input>)
    requires |inputs| == |halves| && forall j :: 0 <= j < |halves| ==> !halves[j].Save?
    ensures Due(start, known, name, halves, inputs).query == start.query
  {
    if halves != [] { SaveDecidesQuery(start, known, name, halves[..|halves| - 1], inputs[..|halves| - 1]); }
  }

  /** Where a check overlaps there are inputs for which it reports a key that an earlier check was given, unless a save
      came in between; then it works for the watch that was replaced. */
  lemma OverlapReportsTwice(s: Instance, start: Watch, name: int, halves: seq<Half>, i: int)
    returns (inputs: seq<Input>, key: int)
    requires StartsWith(s, start, name, halves) && OverlapsAt(Has(s.memory, name), name, halves, i)
    ensures |inputs| == |halves| && inputs[i].keys == [key]
    ensures var t := Run(s, name, halves[..i], inputs[..i]);
            var due := Due(start, Has(s.memory, name), name, halves[..i], inputs[..i]);
            && halves[i].rid in t.reading && Reported(t, halves[i].rid, [key]) == [key]
            && (key in due.seenKeys || t.reading[halves[i].rid].rest.query != due.query)
            && ((forall j :: 0 <= j < i ==> !halves[j].Save?) ==> key in due.seenKeys)
  {
    var known := Has(s.memory, name);
    var c := Track(known, name, halves[..i]).reading[halves[i].rid];
    key := UnseenKey(start.seenKeys);
    inputs := Late(known, name, halves, start, c, key);
    LatePrefix(known, name, halves, start, c, key, i);
    LateKeeps(s, start, name, halves[..i], c, key);
    var t := Run(s, name, halves[..i], inputs[..i]);
    UnseenStays(key, t.reading[halves[i].rid].rest.seenKeys);
    if forall j :: 0 <= j < i ==> !halves[j].Save? {
      SaveDecidesQuery(start, known, name, halves[..i], inputs[..i]);
    }
  }

  /**
   For any order of halves, whether the instance knows the watch or only the tokens do: whatever the searches return
   and the saves save, each check works for the last save and reports exactly the keys no check since was given, if
   and only if nobody writes the watch between a check's read and store.
   */
  lemma ChecksAreExactIffSequential(s: Instance, start: Watch, name: int, halves: seq<Half>)
    requires StartsWith(s, start, name, halves)
    ensures (forall inputs: seq<Input> | |inputs| == |halves| :: Exact(s, start, name, halves, inputs)) <==>
        Sequential(Has(s.memory, name), name, halves)
  {
    if Sequential(Has(s.memory, name), name, halves) {
      forall inputs: seq<Input> | |inputs| == |halves|
        ensures Exact(s, start, name, halves, inputs)
      {
        SequentialIsExact(s, start, name, halves, inputs);
      }
    } else {
      var i :| 0 <= i < |halves| && OverlapsAt(Has(s.memory, name), name, halves, i);
      var inputs, key := OverlapReportsTwice(s, start, name, halves, i);
      WithoutMembers([key], Due(start, Has(s.memory, name), name, halves[..i], inputs[..i]).seenKeys, key);
      assert !ExactAt(s, start, name, halves, inputs, i);
    }
  }

  // ----- which saves stand -----

  /** No save of the name in halves j + 1 .. n - 1. */
  ghost predicate NoSaveAfter(halves: seq<Half>, j: nat, n: int) {
    forall i :: j < i < n && i < |halves| ==> !halves[i].Save?
  }

  ghost predicate Saved(memory: Memory, name: int, x: Input) {
    Has(memory, name) && Own(memory, name).query == x.query && Own(memory, name).code == x.code
  }

  /** The watch saved at half j stays the instance's, up to the next save. */
  ghost predicate SaveStands(s: Instance, name: int, halves: seq<Half>, inputs: seq<Input>, j: nat)
    requires |inputs| == |halves| && j < |halves|
  {
    forall n :: j < n <= |halves| && NoSaveAfter(halves, j, n) ==>
      Saved(Run(s, name, halves[..n], inputs[..n]).memory, name, inputs[j])
  }

  /** A check that read before the save at j stores at i, after it and before the next. */
  predicate OverwritesAt(known: bool, name: int, halves: seq<Half>, j: nat, i: int) {
    && j < i && StoresAt(known, name, halves, i)
    && Track(known, name, halves[..i]).reading[halves[i].rid] <= Track(known, name, halves[..j]).writes
  }

  ghost predicate NotOverwritten(known: bool, name: int, halves: seq<Half>, j: nat) {
    forall i :: j < i < |halves| && NoSaveAfter(halves, j, i) ==> !OverwritesAt(known, name, halves, j, i)
  }

  /** The instance has the saved watch, and so has every check that read after the save. */
  ghost predicate Holds(t: Instance, name: int, p: Progress, c: nat, x: Input) {
    && Follows(t, name, p) && Saved(t.memory, name, x)
    && forall rid :: rid in p.reading && p.reading[rid] > c ==>
        t.reading[rid].rest.query == x.query && t.reading[rid].rest.code == x.code
  }

  lemma HoldsStep(t: Instance, name: int, p: Progress, c: nat, x: Input, h: Half, y: Input)
    requires Holds(t, name, p, c, x) && p.writes > c && !h.Save?
    requires h.Store? && h.rid in p.reading ==> p.reading[h.rid] > c
    ensures Holds(HalfStep(t, name, h, y), name, Advance(p, name, h), c, x)
  {
    StepFollows(t, name, p, h, y);
    match h
    case Read(rid, token) => ReadTakes(t, name, h, y);
    case Store(rid, at) => if rid in p.reading { StoreWrites(t, name, h, y); }
  }

  lemma {:induction false} RunFollows(s: Instance, name: int, halves: seq<Half>, inputs: seq<Input>)
    requires |inputs| == |halves| && Tidy(s, name) && s.reading == map[]
    ensures Follows(Run(s, name, halves, inputs), name, Track(Has(s.memory, name), name, halves))
  {
    if halves != [] {
      var n := |halves| - 1;
      RunFollows(s, name, halves[..n], inputs[..n]);
      StepFollows(Run(s, name, halves[..n], inputs[..n]), name, Track(Has(s.memory, name), name, halves[..n]),
          halves[n], inputs[n]);
    }
  }

  lemma {:induction false} SaveHolds(s: Instance, name: int, halves: seq<Half>, inputs: seq<Input>, j: nat, n: nat)
    requires |inputs| == |halves| && Tidy(s, name) && s.reading == map[]
    requires j < n <= |halves| && halves[j].Save? && NoSaveAfter(halves, j, n)
    requires NotOverwritten(Has(s.memory, name), name, halves, j)
    ensures var known := Has(s.memory, name);
            var p := Track(known, name, halves[..n]);
            var c := Track(known, name, halves[..j]).writes;
            p.writes > c && Holds(Run(s, name, halves[..n], inputs[..n]), name, p, c, inputs[j])
    decreases n
  {
    var known := Has(s.memory, name);
    var m := n - 1;
    var t, p := Run(s, name, halves[..m], inputs[..m]), Track(known, name, halves[..m]);
    assert halves[..n][..m] == halves[..m] && inputs[..n][..m] == inputs[..m];
    if m == j {
      RunFollows(s, name, halves[..m], inputs[..m]);
      SaveWrites(t, name, halves[m], inputs[m]);
      StepFollows(t, name, p, halves[m], inputs[m]);
    } else {
      SaveHolds(s, name, halves, inputs, j, m);
      assert !OverwritesAt(known, name, halves, j, m);
      HoldsStep(t, name, p, Track(known, name, halves[..j]).writes, inputs[j], halves[m], inputs[m]);
    }
  }

  lemma RunOfNext(s: Instance, name: int, halves: seq<Half>, inputs: seq<Input>, i: nat)
    requires |inputs| == |halves| && i < |halves|
    ensures Run(s, name, halves[..i + 1], inputs[..i + 1]) ==
              HalfStep(Run(s, name, halves[..i], inputs[..i]), name, halves[i], inputs[i])
  {
    assert halves[..i + 1][..i] == halves[..i] && inputs[..i + 1][..i] == inputs[..i];
  }

  /** A check that read before the late writes stores the early watch. */
  lemma EarlyIsStored(s: Instance, start: Watch, name: int, halves: seq<Half>, c: nat, key: int, i: nat)
    requires StartsWith(s, start, name, halves) && key !in start.seenKeys && i < |halves|
    requires StoresAt(Has(s.memory, name), name, halves, i)
    requires Track(Has(s.memory, name), name, halves[..i]).reading[halves[i].rid] <= c
    ensures var inputs := Late(Has(s.memory, name), name, halves, start, c, key);
            var memory := Run(s, name, halves[..i + 1], inputs[..i + 1]).memory;
            Has(memory, name) && Own(memory, name).query == start.query
  {
    var known := Has(s.memory, name);
    var inputs := Late(known, name, halves, start, c, key);
    LatePrefix(known, name, halves, start, c, key, i);
    LateKeeps(s, start, name, halves[..i], c, key);
    StoreWrites(Run(s, name, halves[..i], inputs[..i]), name, halves[i], inputs[i]);
    RunOfNext(s, name, halves, inputs, i);
  }

  /** Otherwise there are inputs for which the instance goes back to a watch from before the save. */
  lemma OverwrittenSave(s: Instance, start: Watch, name: int, halves: seq<Half>, j: nat, i: int)
    returns (inputs: seq<Input>)
    requires StartsWith(s, start, name, halves) && j < i < |halves| && halves[j].Save? && NoSaveAfter(halves, j, i)
    requires OverwritesAt(Has(s.memory, name), name, halves, j, i)
    ensures |inputs| == |halves| && !SaveStands(s, name, halves, inputs, j)
  {
    var known := Has(s.memory, name);
    var c := Track(known, name, halves[..j]).writes;
    var key := UnseenKey(start.seenKeys);
    inputs := Late(known, name, halves, start, c, key);
    LatePrefix(known, name, halves, start, c, key, j);
    EarlyIsStored(s, start, name, halves, c, key, i);
    assert !Saved(Run(s, name, halves[..i + 1], inputs[..i + 1]).memory, name, inputs[j]);
    assert NoSaveAfter(halves, j, i + 1);
  }

  /** A save stands up to the next one, whatever is saved and returned, exactly when no check that read before it
      stores in between. */
  lemma SaveStandsIff(s: Instance, start: Watch, name: int, halves: seq<Half>, j: nat)
    requires StartsWith(s, start, name, halves) && j < |halves| && halves[j].Save?
    ensures (forall inputs: seq<Input> | |inputs| == |halves| :: SaveStands(s, name, halves, inputs, j)) <==>
        NotOverwritten(Has(s.memory, name), name, halves, j)
  {
    if NotOverwritten(Has(s.memory, name), name, halves, j) {
      forall inputs: seq<Input>, n | |inputs| == |halves| && j < n <= |halves| && NoSaveAfter(halves, j, n)
        ensures Saved(Run(s, name, halves[..n], inputs[..n]).memory, name, inputs[j])
      {
        SaveHolds(s, name, halves, inputs, j, n);
      }
    } else {
      var i :| j < i < |halves| && NoSaveAfter(halves, j, i) && OverwritesAt(Has(s.memory, name), name, halves, j, i);
      var inputs := OverwrittenSave(s, start, name, halves, j, i);
    }
  }

  // ----- an overlap -----

  /** Two checks that both read before either stores overlap, so there are results of which a key is reported twice. */
  lemma TwoChecksOverlap(memory: Memory, start: Watch, name: int) returns (inputs: seq<Input>)
    requires ByName(memory) && Get(memory, name) == Some(Named(name, start))
    ensures var halves := [Read(1, []), Read(2, []), Store(1, 0), Store(2, 0)];
            && OverlapsAt(true, name, halves, 3)
            && |inputs| == 4 && !Exact(Instance(memory, map[]), start, name, halves, inputs)
  {
    var halves := [Read(1, []), Read(2, []), Store(1, 0), Store(2, 0)];
    FourHalves(name, halves);
    var s := Instance(memory, map[]);
    var key: int;
    inputs, key := OverlapReportsTwice(s, start, name, halves, 3);
    WithoutMembers([key], Due(start, true, name, halves[..3], inputs[..3]).seenKeys, key);
    assert !ExactAt(s, start, name, halves, inputs, 3);
  }

  lemma FourHalves(name: int, halves: seq<Half>)
    requires halves == [Read(1, []), Read(2, []), Store(1, 0), Store(2, 0)]
    ensures OverlapsAt(true, name, halves, 3)
  {
    assert halves[..3][..2] == halves[..2] && halves[..2][..1] == halves[..1] && halves[..1][..0] == [];
    assert Track(true, name, halves[..1]) == Progress(0, map[1 := 0], true);
    assert Track(true, name, halves[..2]) == Progress(0, map[1 := 0, 2 := 0], true);
    assert Track(true, name, halves[..3]) == Progress(1, map[2 := 0], true);
  }

  /** A save between a check's read and its store is lost. */
  lemma SaveDuringCheckIsLost(memory: Memory, start: Watch, name: int) returns (inputs: seq<Input>)
    requires ByName(memory) && Get(memory, name) == Some(Named(name, start))
    ensures var halves := [Read(1, []), Half.Save(0), Store(1, 0)];
            |inputs| == 3 && !SaveStands(Instance(memory, map[]), name, halves, inputs, 1)
  {
    var halves := [Read(1, []), Half.Save(0), Store(1, 0)];
    assert halves[..2][..1] == halves[..1] && halves[..1][..0] == [];
    assert Track(true, name, halves[..1]) == Progress(0, map[1 := 0], true);
    assert Track(true, name, halves[..2]) == Progress(1, map[1 := 0], true);
    inputs := OverwrittenSave(Instance(memory, map[]), start, name, halves, 1, 2);
  }
}
