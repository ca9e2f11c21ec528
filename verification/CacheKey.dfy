/**
 The cache key of a proxied call.  `JSON.stringify(args, Object.keys(args).sort())` uses its second
 argument as the list of property names to keep at EVERY depth, in that order.  A JSON text is
 represented by the tree it spells out, and a property name by an integer with the order names sort in.
 */
module CacheKey {
  import opened Lists

  type Name = int

  datatype Json =
    | Null
    | Bool(b: bool)
    | Num(n: int)
    | Str(s: int)
    | Arr(items: seq<Json>)
    | Obj(props: seq<Prop>)

  datatype Prop = Prop(name: Name, value: Json)

  // ----- property names -----

  predicate HasName(props: seq<Prop>, n: Name) { exists i :: 0 <= i < |props| && props[i].name == n }

  ghost predicate DistinctNames(props: seq<Prop>) {
    forall i, j :: 0 <= i < j < |props| ==> props[i].name != props[j].name
  }

  function IndexOf(props: seq<Prop>, n: Name): (i: nat)
    requires HasName(props, n)
    ensures i < |props| && props[i].name == n
  {
    if props[0].name == n then 0
    else
      assert HasName(props[1..], n) by {
        var i :| 0 <= i < |props| && props[i].name == n;
        assert props[1..][i - 1].name == n;
      }
      1 + IndexOf(props[1..], n)
  }

  function Insert(n: Name, names: seq<Name>): seq<Name> {
    if names == [] then [n]
    else if n == names[0] then names
    else if n < names[0] then [n] + names
    else [names[0]] + Insert(n, names[1..])
  }

  /** `Object.keys(args).sort()`. */
  function SortedNames(props: seq<Prop>): seq<Name> {
    if props == [] then [] else Insert(props[0].name, SortedNames(props[1..]))
  }

  /** The names of `names` that `props` has, in the order of `names`. */
  function Chosen(props: seq<Prop>, names: seq<Name>): (r: seq<Name>)
    ensures forall i :: 0 <= i < |r| ==> HasName(props, r[i])
  {
    if names == [] then []
    else
      var rest := Chosen(props, names[1..]);
      if HasName(props, names[0]) then [names[0]] + rest else rest
  }

  ghost predicate Ascending(names: seq<Name>) { forall i, j :: 0 <= i < j < |names| ==> names[i] < names[j] }

  lemma {:induction false} InsertAscends(n: Name, names: seq<Name>)
    requires Ascending(names)
    ensures Ascending(Insert(n, names)) && (forall m :: m in Insert(n, names) <==> m == n || m in names)
  {
    if names != [] && n > names[0] {
      InsertAscends(n, names[1..]);
      var r := Insert(n, names[1..]);
      forall i | 0 <= i < |r|
        ensures names[0] < r[i]
      {
        assert r[i] in r;
      }
    }
  }

  lemma {:induction false} SortedNamesAscend(props: seq<Prop>)
    ensures Ascending(SortedNames(props)) && (forall n :: n in SortedNames(props) <==> HasName(props, n))
  {
    if props != [] {
      SortedNamesAscend(props[1..]);
      InsertAscends(props[0].name, SortedNames(props[1..]));
      forall n
        ensures HasName(props, n) <==> n == props[0].name || HasName(props[1..], n)
      {
        if HasName(props, n) && n != props[0].name {
          var i :| 0 <= i < |props| && props[i].name == n;
          assert props[1..][i - 1].name == n;
        }
        if HasName(props[1..], n) {
          var i :| 0 <= i < |props[1..]| && props[1..][i].name == n;
          assert props[i + 1].name == n;
        }
      }
    }
  }

  lemma {:induction false} ChosenAscends(props: seq<Prop>, names: seq<Name>)
    requires Ascending(names)
    ensures Ascending(Chosen(props, names)) &&
        (forall n :: n in Chosen(props, names) <==> n in names && HasName(props, n))
  {
    if names != [] {
      ChosenAscends(props, names[1..]);
      assert forall n :: n in names <==> n == names[0] || n in names[1..];
      var r := Chosen(props, names[1..]);
      forall i | 0 <= i < |r|
        ensures names[0] < r[i]
      {
        assert r[i] in names[1..];
      }
    }
  }

  /** Two ascending lists with the same members are the same list. */
  lemma {:induction false} AscendingIsUnique(a: seq<Name>, b: seq<Name>)
    requires Ascending(a) && Ascending(b) && (forall n :: n in a <==> n in b)
    ensures a == b
  {
    HeadIsMember(a);
    HeadIsMember(b);
    if a != [] && b != [] {
      forall n
        ensures n in a[1..] <==> n in b[1..]
      {
        assert n in a <==> n == a[0] || n in a[1..];
        assert n in b <==> n == b[0] || n in b[1..];
        if n in a[1..] { var i :| 0 <= i < |a[1..]| && a[1..][i] == n; assert a[i + 1] == n; }
        if n in b[1..] { var i :| 0 <= i < |b[1..]| && b[1..][i] == n; assert b[i + 1] == n; }
      }
      AscendingIsUnique(a[1..], b[1..]);
    }
  }

  // ----- what is hashed, and what should be told apart -----

  /** What `JSON.stringify(v, names)` spells out. */
  function Kept(v: Json, names: seq<Name>): Json {
    match v
    case Arr(items) => Arr(seq(|items|, i requires 0 <= i < |items| => Kept(items[i], names)))
    case Obj(props) =>
      var chosen := Chosen(props, names);
      Obj(seq(|chosen|, i requires 0 <= i < |chosen| =>
          Prop(chosen[i], Kept(props[IndexOf(props, chosen[i])].value, names))))
    case _ => v
  }

  /** The value up to the order of its properties: every object's properties sorted by name. */
  function Canon(v: Json): Json {
    match v
    case Arr(items) => Arr(seq(|items|, i requires 0 <= i < |items| => Canon(items[i])))
    case Obj(props) =>
      var names := SortedNames(props);
      assert forall i :: 0 <= i < |names| ==> HasName(props, names[i]) by {
        SortedNamesAscend(props);
        assert forall i :: 0 <= i < |names| ==> names[i] in names;
      }
      Obj(seq(|names|, i requires 0 <= i < |names| => Prop(names[i], Canon(props[IndexOf(props, names[i])].value))))
    case _ => v
  }

  /** Every property name anywhere in `v` is in `names`. */
  ghost predicate Covered(v: Json, names: seq<Name>) {
    match v
    case Arr(items) => forall i :: 0 <= i < |items| ==> Covered(items[i], names)
    case Obj(props) => forall i :: 0 <= i < |props| ==> props[i].name in names && Covered(props[i].value, names)
    case _ => true
  }

  /** No object in `v` has two properties of one name. */
  ghost predicate WellFormed(v: Json) {
    match v
    case Arr(items) => forall i :: 0 <= i < |items| ==> WellFormed(items[i])
    case Obj(props) => DistinctNames(props) && forall i :: 0 <= i < |props| ==> WellFormed(props[i].value)
    case _ => true
  }

  /** When the names cover an object, the ones it has among them are just its names, sorted. */
  lemma ChosenIsSorted(props: seq<Prop>, names: seq<Name>)
    requires Ascending(names) && forall i :: 0 <= i < |props| ==> props[i].name in names
    ensures Chosen(props, names) == SortedNames(props)
  {
    ChosenAscends(props, names);
    SortedNamesAscend(props);
    AscendingIsUnique(Chosen(props, names), SortedNames(props));
  }

  lemma {:induction false} CoveredIsKept(v: Json, names: seq<Name>)
    requires Ascending(names) && Covered(v, names)
    ensures Kept(v, names) == Canon(v)
  {
    match v
    case Arr(items) =>
      forall i | 0 <= i < |items| ensures Kept(items[i], names) == Canon(items[i]) { CoveredIsKept(items[i], names); }
    case Obj(props) =>
      ChosenIsSorted(props, names);
      forall i | 0 <= i < |props|
        ensures Kept(props[i].value, names) == Canon(props[i].value)
      {
        CoveredIsKept(props[i].value, names);
      }
    case _ =>
  }

  /** Conversely, a value of which nothing is lost is covered. */
  lemma {:induction false} KeptIsCovered(v: Json, names: seq<Name>)
    requires Ascending(names) && WellFormed(v) && Kept(v, names) == Canon(v)
    ensures Covered(v, names)
  {
    match v
    case Arr(items) =>
      forall i | 0 <= i < |items|
        ensures Covered(items[i], names)
      {
        assert Kept(v, names).items[i] == Canon(v).items[i];
        KeptIsCovered(items[i], names);
      }
    case Obj(props) =>
      var chosen, sorted := Chosen(props, names), SortedNames(props);
      ChosenAscends(props, names);
      SortedNamesAscend(props);
      assert |chosen| == |Kept(v, names).props| == |Canon(v).props| == |sorted|;
      forall i | 0 <= i < |props|
        ensures props[i].name in names && Covered(props[i].value, names)
      {
        assert HasName(props, props[i].name);
        var j :| 0 <= j < |sorted| && sorted[j] == props[i].name;
        assert Kept(v, names).props[j] == Canon(v).props[j];
        assert chosen[j] == sorted[j] && chosen[j] in chosen;
        assert IndexOf(props, chosen[j]) == i;
        KeptIsCovered(props[i].value, names);
      }
    case _ =>
  }

  /** The names of what is kept are the chosen ones, each at its place. */
  lemma KeptNames(props: seq<Prop>, names: seq<Name>)
    requires Ascending(names)
    ensures var kept := Kept(Obj(props), names).props;
            var chosen := Chosen(props, names);
            && |kept| == |chosen|
            && (forall i :: 0 <= i < |kept| ==> kept[i].name == chosen[i] && chosen[i] in names)
            && Ascending(chosen)
  {
    ChosenAscends(props, names);
    var chosen := Chosen(props, names);
    assert forall i :: 0 <= i < |chosen| ==> chosen[i] in chosen;
  }

  lemma ChosenOfKept(kept: seq<Prop>, chosen: seq<Name>, names: seq<Name>)
    requires Ascending(names) && Ascending(chosen) && |kept| == |chosen|
    requires forall i :: 0 <= i < |kept| ==> kept[i].name == chosen[i] && chosen[i] in names
    ensures Chosen(kept, names) == chosen
    ensures forall i :: 0 <= i < |chosen| ==> HasName(kept, chosen[i]) && IndexOf(kept, chosen[i]) == i
  {
    ChosenAscends(kept, names);
    forall n
      ensures HasName(kept, n) <==> n in chosen
    {
      if n in chosen { var i :| 0 <= i < |chosen| && chosen[i] == n; assert kept[i].name == n; }
      if HasName(kept, n) { var i :| 0 <= i < |kept| && kept[i].name == n; assert chosen[i] == n; }
    }
    forall n
      ensures n in Chosen(kept, names) <==> n in chosen
    {
      if n in chosen { var i :| 0 <= i < |chosen| && chosen[i] == n; assert n in names; }
    }
    AscendingIsUnique(Chosen(kept, names), chosen);
    forall i | 0 <= i < |chosen|
      ensures HasName(kept, chosen[i]) && IndexOf(kept, chosen[i]) == i
    {
      assert kept[i].name == chosen[i];
    }
  }

  /** What is kept is covered, and keeping it again changes nothing. */
  lemma {:induction false} KeptIsStable(v: Json, names: seq<Name>)
    requires Ascending(names)
    ensures Covered(Kept(v, names), names) && Kept(Kept(v, names), names) == Kept(v, names)
  {
    match v
    case Arr(items) =>
      forall i | 0 <= i < |items|
        ensures Covered(Kept(items[i], names), names) && Kept(Kept(items[i], names), names) == Kept(items[i], names)
      {
        KeptIsStable(items[i], names);
      }
    case Obj(props) =>
      var kept, chosen := Kept(v, names).props, Chosen(props, names);
      KeptNames(props, names);
      ChosenOfKept(kept, chosen, names);
      forall i | 0 <= i < |kept|
        ensures Covered(kept[i].value, names) && Kept(kept[i].value, names) == kept[i].value
      {
        KeptIsStable(props[IndexOf(props, chosen[i])].value, names);
      }
      var again := Kept(Obj(kept), names).props;
      assert |again| == |kept|;
      forall i | 0 <= i < |kept|
        ensures again[i] == kept[i]
      {
        assert again[i] == Prop(chosen[i], Kept(kept[i].value, names));
      }
    case _ =>
  }

  // ----- keys -----

  /** `buildCacheKey`, with the hash of a text taken to be the text. */
  datatype Key = Key(serverId: int, toolName: int, hashed: Json)

  function BuildCacheKey(serverId: int, toolName: int, args: seq<Prop>): Key {
    Key(serverId, toolName, Kept(Obj(args), SortedNames(args)))
  }

  /** The same properties in another order: one key. */
  lemma KeysIgnoreArgumentOrder(serverId: int, toolName: int, a: seq<Prop>, b: seq<Prop>)
    requires DistinctNames(a) && DistinctNames(b) && multiset(a) == multiset(b)
    ensures BuildCacheKey(serverId, toolName, a) == BuildCacheKey(serverId, toolName, b)
  {
    forall p: Prop
      ensures p in a <==> p in b
    {
      assert p in multiset(a) <==> p in multiset(b);
    }
    SortedNamesAscend(a);
    SortedNamesAscend(b);
    forall n
      ensures HasName(a, n) <==> HasName(b, n)
      ensures HasName(a, n) && HasName(b, n) ==> a[IndexOf(a, n)] == b[IndexOf(b, n)]
    {
      if HasName(a, n) { assert a[IndexOf(a, n)] in b; }
      if HasName(b, n) { assert b[IndexOf(b, n)] in a; }
    }
    AscendingIsUnique(SortedNames(a), SortedNames(b));
    var names := SortedNames(a);
    ChosenAscends(a, names);
    ChosenAscends(b, names);
    AscendingIsUnique(Chosen(a, names), Chosen(b, names));
    var chosen := Chosen(a, names);
    forall i | 0 <= i < |chosen|
      ensures a[IndexOf(a, chosen[i])] == b[IndexOf(b, chosen[i])]
    {
      assert HasName(a, chosen[i]) && HasName(b, chosen[i]);
    }
    assert Kept(Obj(a), names).props == Kept(Obj(b), names).props;
  }

  /** Arguments whose nested objects use no name that is absent at top level. */
  ghost predicate NothingLost(args: seq<Prop>) { Covered(Obj(args), SortedNames(args)) }

  // ----- which arguments share a key -----

  /** The positions of the properties whose name is one of `names`. */
  function Positions(props: seq<Prop>, names: seq<Name>): (ps: seq<nat>)
    ensures forall k :: 0 <= k < |ps| ==> ps[k] < |props| && props[ps[k]].name in names
  {
    if props == [] then []
    else
      var n := |props| - 1;
      var before := Positions(props[..n], names);
      if props[n].name in names then before + [n] else before
  }

  /** The value without the properties, at any depth, whose name is not one of `names`; the others stay in place. */
  function Stripped(v: Json, names: seq<Name>): Json {
    match v
    case Arr(items) => Arr(seq(|items|, i requires 0 <= i < |items| => Stripped(items[i], names)))
    case Obj(props) =>
      var ps := Positions(props, names);
      Obj(seq(|ps|, k requires 0 <= k < |ps| => Prop(props[ps[k]].name, Stripped(props[ps[k]].value, names))))
    case _ => v
  }

  /** Every property with one of the names has its place. */
  lemma {:induction false} PositionsAreAll(props: seq<Prop>, names: seq<Name>)
    ensures forall i :: 0 <= i < |props| && props[i].name in names ==> i in Positions(props, names)
  {
    if props != [] {
      var n := |props| - 1;
      var before := Positions(props[..n], names);
      PositionsAreAll(props[..n], names);
      forall i | 0 <= i < |props| && props[i].name in names
        ensures i in Positions(props, names)
      {
        if i < n { assert props[..n][i] == props[i] && i in before; }
      }
    }
  }

  lemma {:induction false} AllPositions(props: seq<Prop>, names: seq<Name>)
    requires forall i :: 0 <= i < |props| ==> props[i].name in names
    ensures |Positions(props, names)| == |props| && forall i :: 0 <= i < |props| ==> Positions(props, names)[i] == i
  {
    if props != [] { AllPositions(props[..|props| - 1], names); }
  }

  lemma {:induction false} CoveredIsNotStripped(v: Json, names: seq<Name>)
    requires Covered(v, names)
    ensures Stripped(v, names) == v
  {
    match v
    case Arr(items) =>
      forall i | 0 <= i < |items|
        ensures Stripped(items[i], names) == items[i]
      {
        CoveredIsNotStripped(items[i], names);
      }
    case Obj(props) =>
      AllPositions(props, names);
      forall i | 0 <= i < |props|
        ensures Stripped(props[i].value, names) == props[i].value
      {
        CoveredIsNotStripped(props[i].value, names);
      }
      assert Stripped(v, names).props == props;
    case _ =>
  }

  lemma LeftHasName(props: seq<Prop>, names: seq<Name>, n: Name)
    requires n in names && HasName(props, n)
    ensures HasName(Stripped(Obj(props), names).props, n)
  {
    PositionsAreAll(props, names);
    var ps, left := Positions(props, names), Stripped(Obj(props), names).props;
    var i := IndexOf(props, n);
    assert props[i].name == n;
    var k :| 0 <= k < |ps| && ps[k] == i;
    assert left[k] == Prop(props[i].name, Stripped(props[i].value, names));
    assert left[k].name == n;
  }

  /** What is left under a name is what stood under it. */
  lemma LeftIsStripped(props: seq<Prop>, names: seq<Name>, n: Name)
    requires DistinctNames(props) && HasName(Stripped(Obj(props), names).props, n)
    ensures n in names && HasName(props, n)
    ensures var left := Stripped(Obj(props), names).props;
            left[IndexOf(left, n)].value == Stripped(props[IndexOf(props, n)].value, names)
  {
    var ps, left := Positions(props, names), Stripped(Obj(props), names).props;
    var k := IndexOf(left, n);
    assert left[k] == Prop(props[ps[k]].name, Stripped(props[ps[k]].value, names));
    assert props[ps[k]].name == n;
    assert IndexOf(props, n) == ps[k];
  }

  /** The names that are left are the chosen ones. */
  lemma StrippedNames(props: seq<Prop>, names: seq<Name>)
    requires Ascending(names) && DistinctNames(props)
    ensures SortedNames(Stripped(Obj(props), names).props) == Chosen(props, names)
  {
    var left := Stripped(Obj(props), names).props;
    ChosenAscends(props, names);
    SortedNamesAscend(left);
    forall n
      ensures n in SortedNames(left) <==> n in Chosen(props, names)
    {
      if n in names && HasName(props, n) { LeftHasName(props, names, n); }
      if HasName(left, n) { LeftIsStripped(props, names, n); }
    }
    AscendingIsUnique(SortedNames(left), Chosen(props, names));
  }

  /** What the key hashes are the arguments without those properties, sorted. */
  lemma {:induction false} KeptIsStripped(v: Json, names: seq<Name>)
    requires Ascending(names) && WellFormed(v)
    ensures Kept(v, names) == Canon(Stripped(v, names))
  {
    match v
    case Arr(items) =>
      forall i | 0 <= i < |items|
        ensures Kept(items[i], names) == Canon(Stripped(items[i], names))
      {
        KeptIsStripped(items[i], names);
      }
    case Obj(props) =>
      StrippedNames(props, names);
      var left, chosen := Stripped(v, names).props, Chosen(props, names);
      forall i | 0 <= i < |chosen|
        ensures Kept(v, names).props[i] == Canon(Obj(left)).props[i]
      {
        SortedNamesAscend(left);
        assert chosen[i] in SortedNames(left);
        LeftIsStripped(props, names, chosen[i]);
        KeptIsStripped(props[IndexOf(props, chosen[i])].value, names);
      }
      assert Kept(v, names).props == Canon(Obj(left)).props;
    case _ =>
  }

  /** The arguments without the nested properties whose name is not a top-level one. */
  function Sent(args: seq<Prop>): Json { Stripped(Obj(args), SortedNames(args)) }

  /** Any two calls share a key exactly when server, tool and arguments are the same, up to property order and to the
      nested properties that are dropped; where nothing is lost none is. */
  lemma KeysSeparateArguments(s: int, t: int, a: seq<Prop>, s': int, t': int, b: seq<Prop>)
    requires WellFormed(Obj(a)) && WellFormed(Obj(b))
    ensures BuildCacheKey(s, t, a) == BuildCacheKey(s', t', b) <==>
              s == s' && t == t' && Canon(Sent(a)) == Canon(Sent(b))
    ensures NothingLost(a) ==> Sent(a) == Obj(a)
    ensures var key := BuildCacheKey(s, t, a); key.serverId == s && key.toolName == t && key.hashed == Canon(Sent(a))
  {
    SortedNamesAscend(a);
    SortedNamesAscend(b);
    KeptIsStripped(Obj(a), SortedNames(a));
    KeptIsStripped(Obj(b), SortedNames(b));
    if NothingLost(a) { CoveredIsNotStripped(Obj(a), SortedNames(a)); }
  }

  /** `other` shares the key of `args` and is not the same arguments. */
  ghost predicate Collides(s: int, t: int, args: seq<Prop>, other: seq<Prop>) {
    BuildCacheKey(s, t, other) == BuildCacheKey(s, t, args) && Canon(Obj(other)) != Canon(Obj(args))
  }

  /** The key hashes the whole arguments if and only if nothing is lost; otherwise arguments of which nothing is
      lost share the key. */
  lemma UncoveredArgumentsCollide(s: int, t: int, args: seq<Prop>)
    requires WellFormed(Obj(args))
    ensures NothingLost(args) <==> BuildCacheKey(s, t, args).hashed == Canon(Obj(args))
    ensures !NothingLost(args) ==> exists other :: NothingLost(other) && Collides(s, t, args, other)
  {
    var names := SortedNames(args);
    SortedNamesAscend(args);
    if NothingLost(args) {
      CoveredIsKept(Obj(args), names);
    } else {
      if Kept(Obj(args), names) == Canon(Obj(args)) {
        KeptIsCovered(Obj(args), names);
      }
      var other := Kept(Obj(args), names).props;
      KeptIsStable(Obj(args), names);
      CoveredIsKept(Obj(other), names);
      SameTopNames(args, other);
      assert NothingLost(other) && Collides(s, t, args, other);
    }
  }

  lemma SameTopNames(args: seq<Prop>, other: seq<Prop>)
    requires Obj(other) == Kept(Obj(args), SortedNames(args))
    ensures SortedNames(other) == SortedNames(args)
  {
    var names := SortedNames(args);
    SortedNamesAscend(args);
    SortedNamesAscend(other);
    ChosenAscends(args, names);
    var chosen := Chosen(args, names);
    forall n
      ensures n in SortedNames(other) <==> n in names
    {
      if n in names { var i :| 0 <= i < |chosen| && chosen[i] == n; assert other[i].name == n; }
      if HasName(other, n) {
        var i :| 0 <= i < |other| && other[i].name == n;
        assert chosen[i] == n && chosen[i] in chosen;
      }
    }
    AscendingIsUnique(SortedNames(other), names);
  }

  // ----- which arguments have a key of their own -----

  /** A value with no object anywhere in it. */
  ghost predicate HoldsNoObject(v: Json) {
    match v
    case Arr(items) => forall i :: 0 <= i < |items| ==> HoldsNoObject(items[i])
    case Obj(props) => false
    case _ => true
  }

  /** Arguments with no object below the top level; lists of leaves are allowed. */
  ghost predicate Shallow(args: seq<Prop>) { forall i :: 0 <= i < |args| ==> HoldsNoObject(args[i].value) }

  /** Nothing is dropped from a value that holds no object, and no value that holds one spells out the same. */
  lemma {:induction false} NoObjectIsKept(v: Json, names: seq<Name>)
    ensures HoldsNoObject(v) <==> HoldsNoObject(Kept(v, names))
    ensures HoldsNoObject(v) ==> Kept(v, names) == v == Canon(v)
  {
    match v
    case Arr(items) =>
      var kept := Kept(v, names).items;
      forall i | 0 <= i < |items|
        ensures HoldsNoObject(items[i]) <==> HoldsNoObject(kept[i])
        ensures HoldsNoObject(items[i]) ==> kept[i] == items[i] == Canon(items[i])
      {
        NoObjectIsKept(items[i], names);
      }
      if HoldsNoObject(Kept(v, names)) {
        assert forall i :: 0 <= i < |items| ==> HoldsNoObject(kept[i]);
      }
      if HoldsNoObject(v) {
        assert kept == items && Canon(v).items == items;
      }
    case _ =>
  }

  lemma TopNamesAreChosen(args: seq<Prop>)
    ensures Chosen(args, SortedNames(args)) == SortedNames(args)
    ensures forall i :: 0 <= i < |SortedNames(args)| ==> HasName(args, SortedNames(args)[i])
  {
    var names := SortedNames(args);
    SortedNamesAscend(args);
    assert forall i :: 0 <= i < |args| ==> HasName(args, args[i].name);
    ChosenIsSorted(args, names);
    assert forall i :: 0 <= i < |names| ==> names[i] in names;
  }

  /** The properties of a key are the top-level ones, sorted. */
  lemma KeyNames(args: seq<Prop>)
    ensures var names, kept := SortedNames(args), Kept(Obj(args), SortedNames(args)).props;
            && |kept| == |names|
            && forall i | 0 <= i < |names| :: HasName(args, names[i])
                 && kept[i] == Prop(names[i], Kept(args[IndexOf(args, names[i])].value, names))
  {
    TopNamesAreChosen(args);
  }

  lemma CanonNames(args: seq<Prop>)
    ensures var names, canon := SortedNames(args), Canon(Obj(args)).props;
            && |canon| == |names|
            && forall i | 0 <= i < |names| :: HasName(args, names[i])
                 && canon[i] == Prop(names[i], Canon(args[IndexOf(args, names[i])].value))
  {
    KeyNames(args);
  }

  /** No other arguments share the key of shallow ones. */
  lemma ShallowKeysAreTheirOwn(s: int, t: int, args: seq<Prop>, other: seq<Prop>)
    requires Shallow(args) && BuildCacheKey(s, t, other) == BuildCacheKey(s, t, args)
    ensures Canon(Obj(other)) == Canon(Obj(args))
  {
    KeyNames(args);
    KeyNames(other);
    CanonNames(args);
    CanonNames(other);
    var names, kept := SortedNames(args), Kept(Obj(args), SortedNames(args)).props;
    forall i | 0 <= i < |names|
      ensures SortedNames(other)[i] == names[i]
    {
      assert kept[i].name == names[i];
    }
    assert SortedNames(other) == names;
    forall i | 0 <= i < |names|
      ensures Canon(Obj(other)).props[i] == Canon(Obj(args)).props[i]
    {
      assert kept[i].name == names[i];
      NoObjectIsKept(args[IndexOf(args, names[i])].value, names);
      NoObjectIsKept(other[IndexOf(other, names[i])].value, names);
    }
  }

  lemma {:induction false} UnusedName(names: seq<Name>, props: seq<Prop>) returns (n: Name)
    ensures (forall i :: 0 <= i < |names| ==> names[i] < n) && (forall i :: 0 <= i < |props| ==> props[i].name < n)
  {
    if names != [] {
      var m := UnusedName(names[1..], props);
      n := if names[0] < m then m else names[0] + 1;
      assert forall i :: 1 <= i < |names| ==> names[i] == names[1..][i - 1];
    } else if props != [] {
      var m := UnusedName(names, props[1..]);
      n := if props[0].name < m then m else props[0].name + 1;
      assert forall i :: 1 <= i < |props| ==> props[i] == props[1..][i - 1];
    } else {
      n := 0;
    }
  }

  lemma {:induction false} IndexOfPrefix(props: seq<Prop>, p: Prop, n: Name)
    requires HasName(props, n)
    ensures HasName(props + [p], n) && IndexOf(props + [p], n) == IndexOf(props, n)
  {
    var i := IndexOf(props, n);
    assert (props + [p])[i].name == n;
    if props[0].name != n {
      assert (props + [p])[1..] == props[1..] + [p];
      assert props[1..][i - 1].name == n;
      IndexOfPrefix(props[1..], p, n);
    }
  }

  lemma HasNameOfPrefix(props: seq<Prop>, p: Prop, n: Name)
    ensures HasName(props + [p], n) <==> HasName(props, n) || p.name == n
  {
    var all := props + [p];
    if HasName(props, n) { assert all[IndexOf(props, n)].name == n; }
    if p.name == n { assert all[|props|].name == n; }
    if HasName(all, n) {
      var i := IndexOf(all, n);
      assert i < |props| ==> props[i].name == n;
    }
  }

  lemma {:induction false} ChosenOfPrefix(props: seq<Prop>, p: Prop, names: seq<Name>)
    requires p.name !in names
    ensures Chosen(props + [p], names) == Chosen(props, names)
  {
    if names != [] {
      assert names[0] in names;
      HasNameOfPrefix(props, p, names[0]);
      ChosenOfPrefix(props, p, names[1..]);
    }
  }

  /** An object with one more property, of an unused name, spells out the same under `names`. */
  lemma AddedPropertyIsDropped(props: seq<Prop>, p: Prop, names: seq<Name>)
    requires p.name !in names && !HasName(props, p.name)
    ensures Kept(Obj(props + [p]), names) == Kept(Obj(props), names)
    ensures Canon(Obj(props + [p])) != Canon(Obj(props))
  {
    var all := props + [p];
    ChosenOfPrefix(props, p, names);
    var chosen := Chosen(props, names);
    forall i | 0 <= i < |chosen|
      ensures HasName(all, chosen[i]) && all[IndexOf(all, chosen[i])] == props[IndexOf(props, chosen[i])]
    {
      IndexOfPrefix(props, p, chosen[i]);
    }
    assert Kept(Obj(all), names).props == Kept(Obj(props), names).props;
    CanonNames(all);
    CanonNames(props);
    SortedNamesAscend(all);
    SortedNamesAscend(props);
    HasNameOfPrefix(props, p, p.name);
    var j :| 0 <= j < |SortedNames(all)| && SortedNames(all)[j] == p.name;
  }

  /** A value that holds an object can be changed in a way its spelling does not show. */
  lemma {:induction false} ObjectsCanBeSpoilt(v: Json, names: seq<Name>) returns (w: Json)
    requires WellFormed(v) && !HoldsNoObject(v)
    ensures WellFormed(w) && Kept(w, names) == Kept(v, names) && Canon(w) != Canon(v)
  {
    match v
    case Arr(items) =>
      var i :| 0 <= i < |items| && !HoldsNoObject(items[i]);
      var x := ObjectsCanBeSpoilt(items[i], names);
      w := Arr(items[i := x]);
      assert Kept(w, names).items == Kept(v, names).items;
      assert Canon(w).items[i] == Canon(x) && Canon(v).items[i] == Canon(items[i]);
    case Obj(props) =>
      var n := UnusedName(names, props);
      w := Obj(props + [Prop(n, Null)]);
      AddedPropertyIsDropped(props, Prop(n, Null), names);
  }

  lemma {:induction false} IndexOfReplaced(args: seq<Prop>, i: nat, p: Prop, n: Name)
    requires i < |args| && p.name == args[i].name
    ensures HasName(args[i := p], n) <==> HasName(args, n)
    ensures HasName(args, n) ==> HasName(args[i := p], n) && IndexOf(args[i := p], n) == IndexOf(args, n)
  {
    var other := args[i := p];
    assert forall k :: 0 <= k < |args| ==> other[k].name == args[k].name;
    if HasName(args, n) { assert other[IndexOf(args, n)].name == n; }
    if HasName(other, n) { assert args[IndexOf(other, n)].name == n; }
    if HasName(args, n) && args[0].name != n {
      var k := IndexOf(args, n);
      assert args[1..][k - 1].name == n;
      if i == 0 {
        assert other[1..] == args[1..];
      } else {
        assert other[1..] == args[1..][i - 1 := p];
        IndexOfReplaced(args[1..], i - 1, p, n);
      }
    }
  }

  /** A replaced argument keeps the names and their places. */
  lemma ReplacedKeepsNames(args: seq<Prop>, i: nat, p: Prop)
    requires i < |args| && p.name == args[i].name
    ensures SortedNames(args[i := p]) == SortedNames(args)
    ensures forall n :: HasName(args, n) ==> HasName(args[i := p], n) && IndexOf(args[i := p], n) == IndexOf(args, n)
  {
    var other := args[i := p];
    SortedNamesAscend(args);
    SortedNamesAscend(other);
    forall n
      ensures HasName(other, n) <==> HasName(args, n)
      ensures HasName(args, n) ==> HasName(other, n) && IndexOf(other, n) == IndexOf(args, n)
    {
      IndexOfReplaced(args, i, p, n);
    }
    AscendingIsUnique(SortedNames(other), SortedNames(args));
  }

  /** Replacing one argument by a value that spells out the same gives colliding arguments. */
  lemma ReplacedArgumentCollides(s: int, t: int, args: seq<Prop>, i: nat, w: Json)
    requires i < |args| && DistinctNames(args)
    requires Kept(w, SortedNames(args)) == Kept(args[i].value, SortedNames(args)) && Canon(w) != Canon(args[i].value)
    ensures Collides(s, t, args, args[i := Prop(args[i].name, w)])
  {
    var p := Prop(args[i].name, w);
    var other, names := args[i := p], SortedNames(args);
    ReplacedKeepsNames(args, i, p);
    KeyNames(args);
    KeyNames(other);
    assert Kept(Obj(other), names).props == Kept(Obj(args), names).props;
    ReplacedArgumentDiffers(args, i, w);
  }

  lemma ReplacedArgumentDiffers(args: seq<Prop>, i: nat, w: Json)
    requires i < |args| && DistinctNames(args) && Canon(w) != Canon(args[i].value)
    ensures Canon(Obj(args[i := Prop(args[i].name, w)])) != Canon(Obj(args))
  {
    var p := Prop(args[i].name, w);
    var other, names := args[i := p], SortedNames(args);
    ReplacedKeepsNames(args, i, p);
    CanonNames(args);
    CanonNames(other);
    SortedNamesAscend(args);
    assert HasName(args, p.name);
    var j :| 0 <= j < |names| && names[j] == p.name;
    assert IndexOf(args, p.name) == i;
    var changed, before := Canon(Obj(other)).props, Canon(Obj(args)).props;
    assert changed[j].value == Canon(w) && before[j].value == Canon(args[i].value);
  }

  /**
   Exactly the shallow arguments have a key of their own: no other well-formed arguments share it if and only if
   there is no object below the top level.
   */
  lemma KeyIsOwnIffShallow(s: int, t: int, args: seq<Prop>)
    requires WellFormed(Obj(args))
    ensures (forall other :: WellFormed(Obj(other)) ==> !Collides(s, t, args, other)) <==> Shallow(args)
  {
    if Shallow(args) {
      forall other | WellFormed(Obj(other))
        ensures !Collides(s, t, args, other)
      {
        if BuildCacheKey(s, t, other) == BuildCacheKey(s, t, args) { ShallowKeysAreTheirOwn(s, t, args, other); }
      }
    } else {
      var i :| 0 <= i < |args| && !HoldsNoObject(args[i].value);
      var w := ObjectsCanBeSpoilt(args[i].value, SortedNames(args));
      ReplacedArgumentCollides(s, t, args, i, w);
      assert WellFormed(Obj(args[i := Prop(args[i].name, w)]));
    }
  }

  /** Shallow arguments lose nothing. */
  lemma ShallowArgumentsLoseNothing(args: seq<Prop>)
    requires Shallow(args)
    ensures NothingLost(args)
  {
    SortedNamesAscend(args);
    forall i | 0 <= i < |args|
      ensures args[i].name in SortedNames(args) && Covered(args[i].value, SortedNames(args))
    {
      assert HasName(args, args[i].name);
      NoObjectIsCovered(args[i].value, SortedNames(args));
    }
  }

  lemma {:induction false} NoObjectIsCovered(v: Json, names: seq<Name>)
    requires HoldsNoObject(v)
    ensures Covered(v, names)
  {
    match v
    case Arr(items) =>
      forall i | 0 <= i < |items| ensures Covered(items[i], names) { NoObjectIsCovered(items[i], names); }
    case _ =>
  }

  /** Flat arguments are shallow. */
  lemma FlatArgumentsLoseNothing(args: seq<Prop>)
    requires forall i :: 0 <= i < |args| ==> !args[i].value.Obj? && !args[i].value.Arr?
    ensures NothingLost(args)
  {
    ShallowArgumentsLoseNothing(args);
  }

  /** `{x: {}}` loses nothing, yet `{x: {y: ...}}` has its key. */
  lemma EmptyObjectCollides(s: int, t: int, x: Name, inner: Prop)
    requires inner.name != x && WellFormed(inner.value)
    ensures var args, other := [Prop(x, Obj([]))], [Prop(x, Obj([inner]))];
            NothingLost(args) && WellFormed(Obj(args)) && WellFormed(Obj(other)) && Collides(s, t, args, other)
  {
    var args := [Prop(x, Obj([]))];
    assert SortedNames(args) == [x] by { assert args[1..] == []; }
    AddedPropertyIsDropped([], inner, SortedNames(args));
    assert [] + [inner] == [inner];
    ReplacedArgumentCollides(s, t, args, 0, Obj([inner]));
    assert args[0 := Prop(x, Obj([inner]))] == [Prop(x, Obj([inner]))];
  }

  /** So `{x: {}}` may be answered with what was fetched for `{x: {y: 0}}`. */
  lemma EmptyObjectWitness(s: int, t: int)
    ensures Collides(s, t, [Prop(1, Obj([]))], [Prop(1, Obj([Prop(2, Num(0))]))]) && NothingLost([Prop(1, Obj([]))])
  {
    EmptyObjectCollides(s, t, 1, Prop(2, Num(0)));
  }

  // ----- the key as text -----

  /** `${serverId}:${toolName}:${hash}`. */
  function KeyText(serverId: string, toolName: string, hash: string): string { serverId + ":" + toolName + ":" + hash }

  /** Texts of keys differ when their parts do, for server ids without a colon and hashes of one length. */
  lemma KeyTextsSeparate(s: string, t: string, h: string, s': string, t': string, h': string)
    requires ':' !in s && ':' !in s' && |h| == |h'|
    ensures KeyText(s, t, h) == KeyText(s', t', h') <==> s == s' && t == t' && h == h'
  {
    if KeyText(s, t, h) == KeyText(s', t', h') {
      var x, y := t + ":" + h, t' + ":" + h';
      assert KeyText(s, t, h) == s + ":" + x && KeyText(s', t', h') == s' + ":" + y;
      SplitAtFirst(':', s, x, s', y);
      assert |t| == |t'|;
      assert x[..|t|] == t && y[..|t'|] == t';
      assert x[|t| + 1..] == h && y[|t'| + 1..] == h';
    }
  }
}
