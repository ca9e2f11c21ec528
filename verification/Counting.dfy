/** Counting by value, sums over lists, and the latest of a list: what the summaries are made of. */
module Counting {
  import opened Options
  import opened InsertionMap
  import opened IsoDates
  import opened StableSort

  // ----- sums -----

  function Sum<T>(weight: T -> nat, s: seq<T>): nat {
    if s == [] then 0 else weight(s[0]) + Sum(weight, s[1..])
  }

  lemma {:induction false} SumOfInsert<T>(weight: T -> nat, le: (T, T) -> bool, x: T, s: seq<T>)
    ensures Sum(weight, Insert(le, x, s)) == weight(x) + Sum(weight, s)
  {
    if s != [] && !le(x, s[0]) {
      SumOfInsert(weight, le, x, s[1..]);
      assert ([s[0]] + Insert(le, x, s[1..]))[1..] == Insert(le, x, s[1..]);
    } else {
      assert ([x] + s)[1..] == s;
    }
  }

  /** Sorting keeps every sum. */
  lemma {:induction false} SumOfSort<T>(weight: T -> nat, le: (T, T) -> bool, s: seq<T>)
    ensures Sum(weight, Sort(le, s)) == Sum(weight, s)
  {
    if s != [] {
      SumOfSort(weight, le, s[1..]);
      SumOfInsert(weight, le, s[0], Sort(le, s[1..]));
    }
  }

  lemma {:induction false} SumOfLast<T>(weight: T -> nat, s: seq<T>)
    requires s != []
    ensures Sum(weight, s) == Sum(weight, s[..|s| - 1]) + weight(s[|s| - 1])
  {
    if |s| > 1 {
      SumOfLast(weight, s[1..]);
      assert s[1..][..|s| - 2] == s[..|s| - 1][1..];
    }
  }

  /** Setting a key changes a sum by what its value weighs more than the one it had. */
  lemma {:induction false} SumOfSet<K, V>(weight: V -> nat, m: seq<Pair<K, V>>, k: K, v: V)
    ensures Sum(weight, Values(Set(m, k, v))) ==
            Sum(weight, Values(m)) + weight(v) - if Has(m, k) then weight(Get(m, k).value) else 0
  {
    if m != [] && m[0].key != k {
      SumOfSet(weight, m[1..], k, v);
      assert Set(m, k, v)[1..] == Set(m[1..], k, v);
    } else if m != [] {
      assert Set(m, k, v)[1..] == m[1..];
    }
  }

  // ----- counting by value -----

  /** `counts[value] = (counts[value] ?? 0) + 1`. */
  function Count<K(==)>(counts: seq<Pair<K, nat>>, value: K): seq<Pair<K, nat>> {
    Set(counts, value, Get(counts, value).GetOr(0) + 1)
  }

  function Counts<K(==)>(values: seq<K>): seq<Pair<K, nat>> {
    if values == [] then [] else Count(Counts(values[..|values| - 1]), values[|values| - 1])
  }

  method CountBy<K(==)>(values: seq<K>) returns (counts: seq<Pair<K, nat>>)
    ensures counts == Counts(values)
  {
    counts := [];
    for i := 0 to |values|
      invariant counts == Counts(values[..i])
    {
      counts := Set(counts, values[i], Get(counts, values[i]).GetOr(0) + 1);
      assert values[..i + 1][..i] == values[..i];
    }
    assert values[..|values|] == values;
  }

  function Total<K>(counts: seq<Pair<K, nat>>): nat {
    if counts == [] then 0 else counts[0].value + Total(counts[1..])
  }

  function Occurrences<K(==)>(values: seq<K>, k: K): nat {
    if values == [] then 0 else Occurrences(values[..|values| - 1], k) + if values[|values| - 1] == k then 1 else 0
  }

  lemma {:induction false} TotalOfSet<K>(counts: seq<Pair<K, nat>>, k: K, v: nat)
    ensures Total(Set(counts, k, v)) == Total(counts) - Get(counts, k).GetOr(0) + v
  {
    if counts != [] && counts[0].key != k {
      TotalOfSet(counts[1..], k, v);
      assert Set(counts, k, v)[1..] == Set(counts[1..], k, v);
    } else if counts != [] {
      assert Set(counts, k, v)[1..] == counts[1..];
    }
  }

  /** For all lists: the counts sum to the length of the list, and each is the number of its value's occurrences. */
  lemma {:induction false} CountsAreOccurrences<K>(values: seq<K>, k: K)
    ensures Total(Counts(values)) == |values| && Get(Counts(values), k).GetOr(0) == Occurrences(values, k)
    ensures Has(Counts(values), k) <==> Occurrences(values, k) > 0
  {
    if values != [] {
      var init, last := values[..|values| - 1], values[|values| - 1];
      CountsAreOccurrences(init, k);
      CountsAreOccurrences(init, last);
      TotalOfSet(Counts(init), last, Get(Counts(init), last).GetOr(0) + 1);
      GetOfSet(Counts(init), last, Get(Counts(init), last).GetOr(0) + 1, k);
    }
  }

  /** Each value is counted once. */
  lemma {:induction false} CountsAreDistinct<K>(values: seq<K>)
    ensures Distinct(Counts(values))
  {
    if values != [] {
      var init, last := values[..|values| - 1], values[|values| - 1];
      CountsAreDistinct(init);
      SetKeepsDistinct(Counts(init), last, Get(Counts(init), last).GetOr(0) + 1);
    }
  }

  // ----- the latest of a list -----

  /** `reduce` that replaces the current element by a strictly later one. */
  function Latest<T>(date: T -> string, s: seq<T>): Option<T> {
    if s == [] then None
    else
      var current, x := Latest(date, s[..|s| - 1]), s[|s| - 1];
      if current.None? || !StrLe(date(x), date(current.value)) then Some(x) else current
  }

  /** Position i is the first with the greatest date. */
  ghost predicate FirstLatest<T>(date: T -> string, s: seq<T>, i: int) {
    && 0 <= i < |s|
    && (forall j :: 0 <= j < i ==> !StrLe(date(s[i]), date(s[j])))
    && (forall j :: i < j < |s| ==> StrLe(date(s[j]), date(s[i])))
  }

  lemma {:induction false} LatestIsFirstLatest<T>(date: T -> string, s: seq<T>) returns (i: int)
    requires s != []
    ensures FirstLatest(date, s, i) && Latest(date, s) == Some(s[i])
  {
    if |s| == 1 {
      i := 0;
    } else {
      var init, x := s[..|s| - 1], s[|s| - 1];
      i := LatestIsFirstLatest(date, init);
      if !StrLe(date(x), date(init[i])) {
        forall j | 0 <= j < |init|
          ensures !StrLe(date(x), date(s[j]))
        {
          assert s[j] == init[j];
          NotBefore(date(x), date(init[j]), date(init[i]), j, i);
        }
        i := |init|;
      }
    }
  }

  lemma NotBefore(x: string, y: string, top: string, j: int, i: int)
    requires !StrLe(x, top)
    requires j < i ==> !StrLe(top, y)
    requires j == i ==> y == top
    requires j > i ==> StrLe(y, top)
    ensures !StrLe(x, y)
  {
    StrLeIsTotal(top, y);
    if StrLe(x, y) { StrLeIsTransitive(x, y, top); }
  }
}
