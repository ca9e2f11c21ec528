/** `Array.prototype.sort` with a comparator: stable, so its result is settled by the order alone.  The
    comparator is given as "may stand before". */
module StableSort {
  import opened Lists

  ghost predicate TotalPreorder<T(!new)>(le: (T, T) -> bool) {
    && (forall a, b :: le(a, b) || le(b, a))
    && (forall a, b, c :: le(a, b) && le(b, c) ==> le(a, c))
  }

  ghost predicate SortedBy<T>(le: (T, T) -> bool, s: seq<T>) {
    forall i, j :: 0 <= i < j < |s| ==> le(s[i], s[j])
  }

  /** `x` before everything it may stand before. */
  function Insert<T>(le: (T, T) -> bool, x: T, s: seq<T>): (r: seq<T>)
    ensures |r| == |s| + 1
  {
    if s == [] || le(x, s[0]) then [x] + s else [s[0]] + Insert(le, x, s[1..])
  }

  function Sort<T>(le: (T, T) -> bool, s: seq<T>): (r: seq<T>)
    ensures |r| == |s|
  {
    if s == [] then [] else Insert(le, s[0], Sort(le, s[1..]))
  }

  function Filter<T>(p: T -> bool, s: seq<T>): seq<T> {
    if s == [] then [] else if p(s[0]) then [s[0]] + Filter(p, s[1..]) else Filter(p, s[1..])
  }

  lemma {:induction false} FilterOfConcat<T>(p: T -> bool, s: seq<T>, x: T)
    ensures Filter(p, s + [x]) == if p(x) then Filter(p, s) + [x] else Filter(p, s)
  {
    if s == [] {
      assert s + [x] == [x];
      assert [x][1..] == [];
    } else {
      assert (s + [x])[1..] == s[1..] + [x];
      FilterOfConcat(p, s[1..], x);
    }
  }

  lemma {:induction false} InsertKeeps<T>(le: (T, T) -> bool, x: T, s: seq<T>)
    ensures multiset(Insert(le, x, s)) == multiset{x} + multiset(s)
  {
    if s != [] && !le(x, s[0]) {
      InsertKeeps(le, x, s[1..]);
      assert s == [s[0]] + s[1..];
    }
  }

  /** Sorting neither loses nor invents an element. */
  lemma {:induction false} SortKeeps<T>(le: (T, T) -> bool, s: seq<T>)
    ensures multiset(Sort(le, s)) == multiset(s)
  {
    if s != [] {
      SortKeeps(le, s[1..]);
      InsertKeeps(le, s[0], Sort(le, s[1..]));
      assert s == [s[0]] + s[1..];
    }
  }

  lemma SortMembers<T>(le: (T, T) -> bool, s: seq<T>, x: T)
    ensures x in Sort(le, s) <==> x in s
  {
    SortKeeps(le, s);
    assert x in multiset(Sort(le, s)) <==> x in multiset(s);
  }

  lemma {:induction false} InsertSorts<T(!new)>(le: (T, T) -> bool, x: T, s: seq<T>)
    requires TotalPreorder(le) && SortedBy(le, s)
    ensures SortedBy(le, Insert(le, x, s))
  {
    if s != [] && !le(x, s[0]) {
      var r := Insert(le, x, s[1..]);
      InsertSorts(le, x, s[1..]);
      InsertKeeps(le, x, s[1..]);
      forall j | 0 <= j < |r|
        ensures le(s[0], r[j])
      {
        assert r[j] in multiset(r);
        assert r[j] == x || r[j] in s[1..];
      }
    }
  }

  lemma {:induction false} SortSorts<T(!new)>(le: (T, T) -> bool, s: seq<T>)
    requires TotalPreorder(le)
    ensures SortedBy(le, Sort(le, s))
  {
    if s != [] {
      SortSorts(le, s[1..]);
      InsertSorts(le, s[0], Sort(le, s[1..]));
    }
  }

  lemma {:induction false} InsertIsStable<T(!new)>(le: (T, T) -> bool, x: T, s: seq<T>, p: T -> bool)
    requires forall a, b :: p(a) && p(b) ==> le(a, b)
    ensures Filter(p, Insert(le, x, s)) == if p(x) then [x] + Filter(p, s) else Filter(p, s)
  {
    if s == [] || le(x, s[0]) {
      assert ([x] + s)[1..] == s;
    } else {
      InsertIsStable(le, x, s[1..], p);
      assert ([s[0]] + Insert(le, x, s[1..]))[1..] == Insert(le, x, s[1..]);
    }
  }

  /** Elements that may stand on either side of each other keep their order. */
  lemma {:induction false} SortIsStable<T(!new)>(le: (T, T) -> bool, s: seq<T>, p: T -> bool)
    requires forall a, b :: p(a) && p(b) ==> le(a, b)
    ensures Filter(p, Sort(le, s)) == Filter(p, s)
  {
    if s != [] {
      SortIsStable(le, s[1..], p);
      InsertIsStable(le, s[0], Sort(le, s[1..]), p);
    }
  }

  /** `right.weight - left.weight || tie(left, right)`. */
  function Descending<T>(weight: T -> int, tie: (T, T) -> bool): (T, T) -> bool {
    (left: T, right: T) => weight(left) > weight(right) || (weight(left) == weight(right) && tie(left, right))
  }

  lemma DescendingMeans<T>(weight: T -> int, tie: (T, T) -> bool, a: T, b: T)
    ensures Descending(weight, tie)(a, b) <==> weight(a) > weight(b) || (weight(a) == weight(b) && tie(a, b))
  {}

  lemma DescendingIsPreorder<T(!new)>(weight: T -> int, tie: (T, T) -> bool)
    requires TotalPreorder(tie)
    ensures TotalPreorder(Descending(weight, tie))
  {
    var le := Descending(weight, tie);
    forall a, b
      ensures le(a, b) || le(b, a)
    {
      assert tie(a, b) || tie(b, a);
    }
    forall a, b, c | le(a, b) && le(b, c)
      ensures le(a, c)
    {
      assert tie(a, b) && tie(b, c) ==> tie(a, c);
    }
  }

  /** Elements compared by a text of theirs. */
  function OrderedBy<T>(text: T -> string, le: (string, string) -> bool): (T, T) -> bool {
    (left: T, right: T) => le(text(left), text(right))
  }

  lemma OrderedByMeans<T>(text: T -> string, le: (string, string) -> bool, a: T, b: T)
    ensures OrderedBy(text, le)(a, b) <==> le(text(a), text(b))
  {}

  lemma OrderedByIsPreorder<T(!new)>(text: T -> string, le: (string, string) -> bool)
    requires TotalPreorder(le)
    ensures TotalPreorder(OrderedBy(text, le))
  {
    var ordered := OrderedBy(text, le);
    forall a, b
      ensures ordered(a, b) || ordered(b, a)
    {
      assert le(text(a), text(b)) || le(text(b), text(a));
    }
    forall a, b, c | ordered(a, b) && ordered(b, c)
      ensures ordered(a, c)
    {
      assert le(text(a), text(b)) && le(text(b), text(c)) ==> le(text(a), text(c));
    }
  }

  /** The first n of a sorted list and the others: together all elements, and none of the others may stand
      before one kept unless the two may stand either way. */
  lemma FirstAreBest<T(!new)>(le: (T, T) -> bool, s: seq<T>, n: nat) returns (omitted: seq<T>)
    requires TotalPreorder(le)
    ensures Sort(le, s) == Take(Sort(le, s), n) + omitted
    ensures |Take(Sort(le, s), n)| == if |s| <= n then |s| else n
    ensures multiset(Take(Sort(le, s), n)) + multiset(omitted) == multiset(s)
    ensures forall i, j :: 0 <= i < |Take(Sort(le, s), n)| && 0 <= j < |omitted| ==>
        le(Take(Sort(le, s), n)[i], omitted[j])
  {
    var sorted := Sort(le, s);
    SortKeeps(le, s);
    SortSorts(le, s);
    omitted := if |s| <= n then [] else sorted[n..];
    assert sorted == Take(sorted, n) + omitted;
    forall i, j | 0 <= i < |Take(sorted, n)| && 0 <= j < |omitted|
      ensures le(Take(sorted, n)[i], omitted[j])
    {
      assert omitted[j] == sorted[n + j] && Take(sorted, n)[i] == sorted[i];
    }
  }
}
