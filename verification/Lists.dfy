/** First occurrences, as `new Set(...)` keeps them, and truncation, as `slice(0, n)` does it. */
module Lists {

  function Add<T(==)>(acc: seq<T>, x: T): seq<T> { if x in acc then acc else acc + [x] }

  /** `acc` followed by the elements of `s` that are new, in order: iterating a `Set` that starts as `acc`. */
  function AddAll<T(==)>(acc: seq<T>, s: seq<T>): seq<T> {
    if s == [] then acc else Add(AddAll(acc, s[..|s| - 1]), s[|s| - 1])
  }

  /** `[...new Set(s)]`. */
  function Dedup<T(==)>(s: seq<T>): seq<T> { AddAll([], s) }

  /** `s.slice(0, n)`. */
  function Take<T>(s: seq<T>, n: nat): seq<T> { if |s| <= n then s else s[..n] }

  ghost predicate NoRepeats<T>(s: seq<T>) { forall i, j :: 0 <= i < j < |s| ==> s[i] != s[j] }

  lemma {:induction false} AddAllConcat<T>(acc: seq<T>, s: seq<T>, t: seq<T>)
    ensures AddAll(acc, s + t) == AddAll(AddAll(acc, s), t)
  {
    if t == [] {
      assert s + t == s;
    } else {
      assert (s + t)[..|s + t| - 1] == s + t[..|t| - 1];
      AddAllConcat(acc, s, t[..|t| - 1]);
    }
  }

  lemma {:induction false} AddAllMembers<T>(acc: seq<T>, s: seq<T>, x: T)
    ensures x in AddAll(acc, s) <==> x in acc || x in s
  {
    if s != [] {
      AddAllMembers(acc, s[..|s| - 1], x);
      assert s == s[..|s| - 1] + [s[|s| - 1]];
    }
  }

  lemma {:induction false} AddAllExtends<T>(acc: seq<T>, s: seq<T>)
    ensures acc <= AddAll(acc, s)
  {
    if s != [] { AddAllExtends(acc, s[..|s| - 1]); }
  }

  lemma {:induction false} AddAllNoRepeats<T>(acc: seq<T>, s: seq<T>)
    requires NoRepeats(acc)
    ensures NoRepeats(AddAll(acc, s))
  {
    if s != [] { AddAllNoRepeats(acc, s[..|s| - 1]); }
  }

  /** Removing repeats first changes nothing. */
  lemma {:induction false} AddAllOfDedup<T>(acc: seq<T>, s: seq<T>)
    ensures AddAll(acc, Dedup(s)) == AddAll(acc, s)
  {
    if s != [] {
      var init, x := s[..|s| - 1], s[|s| - 1];
      AddAllOfDedup(acc, init);
      AddAllMembers([], init, x);
      AddAllMembers(acc, init, x);
      if x !in init {
        assert (Dedup(init) + [x])[..|Dedup(init)|] == Dedup(init);
      }
    }
  }

  lemma {:induction false} NoRepeatsSize<T>(s: seq<T>)
    requires NoRepeats(s)
    ensures |set x | x in s| == |s|
  {
    if s != [] {
      var init, x := s[..|s| - 1], s[|s| - 1];
      NoRepeatsSize(init);
      assert (set y | y in s) == (set y | y in init) + {x};
    }
  }

  lemma {:induction false} SetIsNoLarger<T>(s: seq<T>)
    ensures |set x | x in s| <= |s|
  {
    if s != [] {
      var init, x := s[..|s| - 1], s[|s| - 1];
      SetIsNoLarger(init);
      assert (set y | y in s) == (set y | y in init) + {x};
    }
  }

  lemma SubsetIsNoLarger<T>(a: set<T>, b: set<T>)
    requires a <= b
    ensures |a| <= |b|
  {
    if a != b {
      assert b == a + (b - a);
    }
  }

  /** n different elements make a list that contains them at least n long. */
  lemma EnoughMembers<T>(few: seq<T>, many: seq<T>)
    requires NoRepeats(few) && forall x :: x in few ==> x in many
    ensures |many| >= |few|
  {
    NoRepeatsSize(few);
    SetIsNoLarger(many);
    SubsetIsNoLarger(set x | x in few, set x | x in many);
  }

  /** The first n of a list settle what adding it leaves among the first n. */
  lemma FirstNSettle<T>(acc: seq<T>, d: seq<T>, n: nat)
    requires NoRepeats(d) && |d| > n
    ensures Take(AddAll(acc, d[..n]), n) == Take(AddAll(acc, d), n)
  {
    var short := AddAll(acc, d[..n]);
    forall y | y in d[..n]
      ensures y in short
    {
      AddAllMembers(acc, d[..n], y);
    }
    EnoughMembers(d[..n], short);
    AddAllConcat(acc, d[..n], d[n..]);
    assert d[..n] + d[n..] == d;
    AddAllExtends(short, d[n..]);
  }

  /** Truncating the older list to n first loses nothing of the first n of the merge. */
  lemma TruncationLosesNothing<T>(newer: seq<T>, older: seq<T>, n: nat)
    ensures Take(Dedup(newer + Take(Dedup(older), n)), n) == Take(Dedup(newer + older), n)
  {
    var x, d := Dedup(newer), Dedup(older);
    AddAllNoRepeats([], older);
    calc {
      Take(Dedup(newer + Take(d, n)), n);
      { AddAllConcat([], newer, Take(d, n)); }
      Take(AddAll(x, Take(d, n)), n);
      { if |d| > n { FirstNSettle(x, d, n); } }
      Take(AddAll(x, d), n);
      { AddAllOfDedup(x, older); }
      Take(AddAll(x, older), n);
      { AddAllConcat([], newer, older); }
      Take(Dedup(newer + older), n);
    }
  }

  /** `s.filter((x) => !seen.includes(x))`. */
  function Without<T(==)>(s: seq<T>, seen: seq<T>): seq<T> {
    if s == [] then []
    else if s[0] in seen then Without(s[1..], seen)
    else [s[0]] + Without(s[1..], seen)
  }

  lemma {:induction false} WithoutMembers<T>(s: seq<T>, seen: seq<T>, x: T)
    ensures x in Without(s, seen) <==> x in s && x !in seen
  {
    if s != [] {
      WithoutMembers(s[1..], seen, x);
    }
  }

  lemma UnseenStays<T>(x: T, seen: seq<T>)
    requires x !in seen
    ensures Without([x], seen) == [x]
  {
    assert Without([x][1..], seen) == [];
  }

  ghost predicate SameMembers<T(!new)>(a: seq<T>, b: seq<T>) { forall x :: x in a <==> x in b }

  lemma DedupKeepsMembers<T(!new)>(a: seq<T>, b: seq<T>, more: seq<T>)
    requires SameMembers(a, b)
    ensures SameMembers(Dedup(a + more), b + more)
  {
    forall x
      ensures x in Dedup(a + more) <==> x in b + more
    {
      AddAllMembers([], a + more, x);
    }
  }

  /** Lists with different members exclude different elements. */
  lemma DifferentMembersDiffer<T(!new)>(a: seq<T>, b: seq<T>) returns (x: T)
    requires !SameMembers(a, b)
    ensures Without([x], a) != Without([x], b)
  {
    x :| !(x in a <==> x in b);
    WithoutMembers([x], a, x);
    WithoutMembers([x], b, x);
  }

  /** Only the members of the excluded list matter. */
  lemma {:induction false} WithoutSameMembers<T(!new)>(s: seq<T>, seen: seq<T>, other: seq<T>)
    requires SameMembers(seen, other)
    ensures Without(s, seen) == Without(s, other)
  {
    if s != [] {
      WithoutSameMembers(s[1..], seen, other);
    }
  }

  // ----- splitting at the first separator -----

  lemma HeadIsMember<T>(s: seq<T>)
    ensures s != [] ==> s[0] in s
  {}

  lemma HeadBefore<T>(c: T, a: seq<T>, x: seq<T>)
    ensures (a + [c] + x)[0] == if a == [] then c else a[0]
  {}

  /** What stands before the first separator, and what after it, can be told from the whole. */
  lemma {:induction false} SplitAtFirst<T>(c: T, a: seq<T>, x: seq<T>, b: seq<T>, y: seq<T>)
    requires c !in a && c !in b && a + [c] + x == b + [c] + y
    ensures a == b && x == y
  {
    HeadIsMember(a);
    HeadIsMember(b);
    HeadBefore(c, a, x);
    HeadBefore(c, b, y);
    if a == [] || b == [] {
      assert (a + [c] + x)[1..] == x && (b + [c] + y)[1..] == y;
    } else {
      assert (a + [c] + x)[1..] == a[1..] + [c] + x;
      assert (b + [c] + y)[1..] == b[1..] + [c] + y;
      SplitAtFirst(c, a[1..], x, b[1..], y);
    }
  }
}
