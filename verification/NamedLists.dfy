/** Lists of named entries, and the map by name that deduplicates them. */
module NamedLists {
  import opened Options
  import opened InsertionMap

  /** An entry: its name, which is only compared, and the rest of its fields. */
  datatype Named<T> = Named(name: int, rest: T)

  type Index<T> = seq<Pair<int, Named<T>>>

  /** `for (const entry of entries) byName.set(entry.name, entry)`. */
  function SetAll<T>(m: Index<T>, entries: seq<Named<T>>): Index<T> {
    if entries == [] then m
    else Set(SetAll(m, entries[..|entries| - 1]), entries[|entries| - 1].name, entries[|entries| - 1])
  }

  /** The last entry of each name, at the place of the first: `[...byName.values()]`. */
  function Deduped<T>(entries: seq<Named<T>>): seq<Named<T>> { Values(SetAll([], entries)) }

  method Dedupe<T>(entries: seq<Named<T>>) returns (r: seq<Named<T>>)
    ensures r == Deduped(entries)
  {
    var byName: Index<T> := [];
    for i := 0 to |entries|
      invariant byName == SetAll([], entries[..i])
    {
      byName := Set(byName, entries[i].name, entries[i]);
      assert entries[..i + 1][..i] == entries[..i];
    }
    assert entries[..|entries|] == entries;
    r := Values(byName);
  }

  /** `entries.find((entry) => entry.name === name)`. */
  function FindEntry<T>(entries: seq<Named<T>>, name: int): Option<Named<T>> {
    if entries == [] then None
    else if entries[0].name == name then Some(entries[0])
    else FindEntry(entries[1..], name)
  }

  function LastNamed<T>(entries: seq<Named<T>>, name: int): Option<Named<T>> {
    if entries == [] then None
    else if entries[|entries| - 1].name == name then Some(entries[|entries| - 1])
    else LastNamed(entries[..|entries| - 1], name)
  }

  // ----- lists and maps by name -----

  /** Every entry is stored under its own name, once. */
  predicate ByName<T>(m: Index<T>) { Distinct(m) && Keyed(m) }

  predicate Keyed<T>(m: Index<T>) { m == [] || (m[0].key == m[0].value.name && Keyed(m[1..])) }

  lemma {:induction false} FindIsGet<T>(m: Index<T>, name: int)
    requires Keyed(m)
    ensures FindEntry(Values(m), name) == Get(m, name)
  {
    if m != [] {
      assert Values(m)[1..] == Values(m[1..]);
      FindIsGet(m[1..], name);
    }
  }

  lemma {:induction false} SetByName<T>(m: Index<T>, e: Named<T>)
    requires Keyed(m)
    ensures Keyed(Set(m, e.name, e))
  {
    if m != [] && m[0].key != e.name {
      SetByName(m[1..], e);
      assert Set(m, e.name, e)[1..] == Set(m[1..], e.name, e);
    }
  }

  lemma {:induction false} KeyedAt<T>(m: Index<T>, i: nat)
    requires Keyed(m) && i < |m|
    ensures m[i].key == m[i].value.name
  {
    if i > 0 { KeyedAt(m[1..], i - 1); }
  }

  lemma {:induction false} SetAllByName<T>(m: Index<T>, entries: seq<Named<T>>, name: int)
    requires ByName(m)
    ensures ByName(SetAll(m, entries))
    ensures Get(SetAll(m, entries), name) == if LastNamed(entries, name).Some? then LastNamed(entries, name)
        else Get(m, name)
  {
    if entries != [] {
      var init, last := entries[..|entries| - 1], entries[|entries| - 1];
      SetAllByName(m, init, name);
      SetByName(SetAll(m, init), last);
      SetKeepsDistinct(SetAll(m, init), last.name, last);
      GetOfSet(SetAll(m, init), last.name, last, name);
    }
  }

  lemma {:induction false} LastNamedOfConcat<T>(a: seq<Named<T>>, b: seq<Named<T>>, name: int)
    ensures LastNamed(a + b, name) == if LastNamed(b, name).Some? then LastNamed(b, name) else LastNamed(a, name)
  {
    if b == [] {
      assert a + b == a;
    } else {
      assert (a + b)[..|a + b| - 1] == a + b[..|b| - 1];
      LastNamedOfConcat(a, b[..|b| - 1], name);
    }
  }

  /** No two entries of the list have one name. */
  ghost predicate UniqueNames<T>(entries: seq<Named<T>>) {
    forall i, j :: 0 <= i < j < |entries| ==> entries[i].name != entries[j].name
  }

  lemma {:induction false} ValuesAreUnique<T>(m: Index<T>)
    requires ByName(m)
    ensures UniqueNames(Values(m))
  {
    forall i, j | 0 <= i < j < |m|
      ensures Values(m)[i].name != Values(m)[j].name
    {
      KeyOfMember(m, i);
      KeyOfMember(m, j);
      KeyedAt(m, i);
      KeyedAt(m, j);
      DistinctKeys(m, i, j);
    }
  }

  lemma {:induction false} DistinctKeys<T>(m: Index<T>, i: nat, j: nat)
    requires Distinct(m) && i < j < |m|
    ensures m[i].key != m[j].key
  {
    if i == 0 {
      KeyOfMember(m[1..], j - 1);
    } else {
      DistinctKeys(m[1..], i - 1, j - 1);
    }
  }

  lemma {:induction false} LastIsFound<T>(entries: seq<Named<T>>, name: int)
    requires UniqueNames(entries)
    ensures LastNamed(entries, name) == FindEntry(entries, name)
  {
    if |entries| > 0 {
      var init := entries[..|entries| - 1];
      LastIsFound(init, name);
      FindOfInit(entries, name);
    }
  }

  lemma {:induction false} FindOfInit<T>(entries: seq<Named<T>>, name: int)
    requires UniqueNames(entries) && entries != []
    ensures FindEntry(entries, name) ==
              if entries[|entries| - 1].name == name then Some(entries[|entries| - 1])
                  else FindEntry(entries[..|entries| - 1], name)
  {
    if |entries| > 1 {
      assert entries[1..][..|entries| - 2] == entries[..|entries| - 1][1..];
      FindOfInit(entries[1..], name);
    }
  }

  /** What deduplication finds under a name. */
  lemma DedupedFinds<T>(entries: seq<Named<T>>, name: int)
    ensures UniqueNames(Deduped(entries))
    ensures FindEntry(Deduped(entries), name) == LastNamed(entries, name)
  {
    var m := SetAll([], entries);
    SetAllByName([], entries, name);
    ValuesAreUnique(m);
    FindIsGet(m, name);
  }

  lemma {:induction false} FoundHasName<T>(entries: seq<Named<T>>, name: int)
    ensures FindEntry(entries, name).Some? ==> FindEntry(entries, name).value.name == name
  {
    if entries != [] { FoundHasName(entries[1..], name); }
  }
}
