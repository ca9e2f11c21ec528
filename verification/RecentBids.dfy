/**
 What `KkjClient` remembers of its searches.  The bounded lists are re-truncated after every search; they
 still agree with the whole history.  Keys and names are only compared, so integers stand for them.
 */
module RecentBids {
  import opened Options
  import opened Lists

  const LIMIT := 200

  // ----- the history -----

  datatype Bid = Bid(key: int, organizationName: Option<int>, content: int)

  function KeysOf(bids: seq<Bid>): seq<int> { seq(|bids|, i requires 0 <= i < |bids| => bids[i].key) }

  /** The organisation names present in a search; an empty name is None. */
  function NamesOf(bids: seq<Bid>): seq<int> {
    if bids == [] then []
    else if bids[0].organizationName.Some? then [bids[0].organizationName.value] + NamesOf(bids[1..])
    else NamesOf(bids[1..])
  }

  /** All keys ever returned, newest search first. */
  function AllKeys(history: seq<seq<Bid>>): seq<int> {
    if history == [] then [] else KeysOf(history[0]) + AllKeys(history[1..])
  }

  function AllNames(history: seq<seq<Bid>>): seq<int> {
    if history == [] then [] else NamesOf(history[0]) + AllNames(history[1..])
  }

  lemma {:induction false} NamesOfSearch(bids: seq<Bid>, name: int)
    ensures name in NamesOf(bids) <==> exists b :: 0 <= b < |bids| && bids[b].organizationName == Some(name)
  {
    if bids != [] {
      NamesOfSearch(bids[1..], name);
      if b :| 0 <= b < |bids[1..]| && bids[1..][b].organizationName == Some(name) {
        assert bids[b + 1].organizationName == Some(name);
      }
      if b :| 0 < b < |bids| && bids[b].organizationName == Some(name) {
        assert bids[1..][b - 1].organizationName == Some(name);
      }
    }
  }

  /** The bid is one of the history. */
  ghost predicate WasReturned(history: seq<seq<Bid>>, bid: Bid) {
    exists s :: 0 <= s < |history| && bid in history[s]
  }

  /** The names and keys of the history are those of all bids ever returned. */
  lemma {:induction false} NamesAreOfBids(history: seq<seq<Bid>>, name: int)
    ensures name in AllNames(history) <==> exists bid :: WasReturned(history, bid) && bid.organizationName == Some(name)
  {
    if history != [] {
      NamesAreOfBids(history[1..], name);
      NamesOfSearch(history[0], name);
      ReturnedFirstOrLater(history);
      if name in NamesOf(history[0]) {
        var b :| 0 <= b < |history[0]| && history[0][b].organizationName == Some(name);
        assert WasReturned(history, history[0][b]);
      }
    }
  }

  lemma ReturnedFirstOrLater(history: seq<seq<Bid>>)
    requires history != []
    ensures forall bid :: WasReturned(history, bid) <==> bid in history[0] || WasReturned(history[1..], bid)
  {
    forall bid
      ensures WasReturned(history, bid) <==> bid in history[0] || WasReturned(history[1..], bid)
    {
      if s :| 0 < s < |history| && bid in history[s] { assert bid in history[1..][s - 1]; }
      if s :| 0 <= s < |history[1..]| && bid in history[1..][s] { assert bid in history[s + 1]; }
    }
  }

  /** The last bid of one search with this key. */
  function LastWith(bids: seq<Bid>, key: int): Option<Bid> {
    if bids == [] then None
    else if bids[|bids| - 1].key == key then Some(bids[|bids| - 1])
    else LastWith(bids[..|bids| - 1], key)
  }

  /** The last bid with this key of the newest search that returned one. */
  function Newest(history: seq<seq<Bid>>, key: int): Option<Bid> {
    if history == [] then None
    else if LastWith(history[0], key).Some? then LastWith(history[0], key)
    else Newest(history[1..], key)
  }

  lemma {:induction false} LastWithIffKey(bids: seq<Bid>, key: int)
    ensures LastWith(bids, key).Some? <==> key in KeysOf(bids)
  {
    if bids != [] {
      var init := bids[..|bids| - 1];
      LastWithIffKey(init, key);
      assert KeysOf(bids) == KeysOf(init) + [bids[|bids| - 1].key];
    }
  }

  function Recorded(known: map<int, Bid>, bids: seq<Bid>): map<int, Bid> {
    if bids == [] then known
    else Recorded(known, bids[..|bids| - 1])[bids[|bids| - 1].key := bids[|bids| - 1]]
  }

  lemma {:induction false} RecordedIsLast(known: map<int, Bid>, bids: seq<Bid>, k: int)
    ensures k in Recorded(known, bids) <==> k in known || LastWith(bids, k).Some?
    ensures k in Recorded(known, bids) ==>
              Some(Recorded(known, bids)[k]) == if LastWith(bids, k).Some? then LastWith(bids, k) else Some(known[k])
  {
    if bids != [] { RecordedIsLast(known, bids[..|bids| - 1], k); }
  }

  /** After a search every key still on the list maps to its newest bid. */
  lemma RecordedIsNewest(known: map<int, Bid>, bids: seq<Bid>, older: seq<seq<Bid>>, olderKeys: seq<int>)
    requires forall k :: k in known <==> k in olderKeys
    requires forall k :: k in known ==> Newest(older, k) == Some(known[k])
    ensures forall k :: k in Take(Dedup(KeysOf(bids) + olderKeys), LIMIT) ==> k in Recorded(known, bids)
    ensures forall k :: k in Recorded(known, bids) ==> Newest([bids] + older, k) == Some(Recorded(known, bids)[k])
  {
    assert ([bids] + older)[1..] == older;
    forall k
      ensures k in Take(Dedup(KeysOf(bids) + olderKeys), LIMIT) ==> k in Recorded(known, bids)
      ensures k in Recorded(known, bids) ==> Newest([bids] + older, k) == Some(Recorded(known, bids)[k])
    {
      RecordedIsLast(known, bids, k);
      AddAllMembers([], KeysOf(bids) + olderKeys, k);
      LastWithIffKey(bids, k);
    }
  }

  // ----- the client's memory -----

  class KkjClient {
    var recentBidKeys: seq<int>
    var recentOrganizationNames: seq<int>
    var recentBids: map<int, Bid>
    ghost var history: seq<seq<Bid>>  // results of uncached searches, newest first

    /** The memory is the bounded view of the whole history. */
    ghost predicate Valid()
      reads this
    {
      && recentBidKeys == Take(Dedup(AllKeys(history)), 200)
      && recentOrganizationNames == Take(Dedup(AllNames(history)), 200)
      && (forall k :: k in recentBids <==> k in recentBidKeys)
      && (forall k :: k in recentBids ==> Newest(history, k) == Some(recentBids[k]))
    }

    constructor ()
      ensures Valid() && history == []
    {
      recentBidKeys, recentOrganizationNames, recentBids, history := [], [], map[], [];
    }

    /** The first loop: a later bid of the same key replaces an earlier one. */
    method RecordBids(bids: seq<Bid>)
      modifies this`recentBids
      ensures recentBids == Recorded(old(recentBids), bids)
    {
      for i := 0 to |bids|
        invariant recentBids == Recorded(old(recentBids), bids[..i])
      {
        recentBids := recentBids[bids[i].key := bids[i]];
        assert bids[..i + 1][..i] == bids[..i];
      }
      assert bids[..|bids|] == bids;
    }

    /** The last loop: bids whose key fell off the list are deleted. */
    method DropForgotten()
      modifies this`recentBids
      ensures recentBids == map k | k in old(recentBids) && k in recentBidKeys :: old(recentBids)[k]
    {
      var keys := recentBids.Keys;
      while exists key :: key in keys
        invariant keys <= old(recentBids).Keys
        invariant recentBids == map k | k in old(recentBids) && (k in keys || k in recentBidKeys) :: old(recentBids)[k]
        decreases keys
      {
        var key :| key in keys;
        if key !in recentBidKeys {
          recentBids := recentBids - {key};
        }
        keys := keys - {key};
      }
    }

    method RememberBidKeys(bids: seq<Bid>)
      requires Valid()
      modifies this
      ensures Valid() && history == [bids] + old(history)
    {
      RecordBids(bids);
      recentBidKeys := Take(Dedup(KeysOf(bids) + recentBidKeys), LIMIT);
      recentOrganizationNames := Take(Dedup(NamesOf(bids) + recentOrganizationNames), LIMIT);
      DropForgotten();
      TruncationLosesNothing(KeysOf(bids), AllKeys(history), LIMIT);
      TruncationLosesNothing(NamesOf(bids), AllNames(history), LIMIT);
      RecordedIsNewest(old(recentBids), bids, history, old(recentBidKeys));
      history := [bids] + history;
      assert history[1..] == old(history);
    }

    /** `getCachedBid`: the recent bids first, then the cached results in the order the cache lists them. */
    method GetCachedBid(key: int, cached: seq<seq<Bid>>) returns (bid: Option<Bid>)
      requires Valid()
      ensures key in recentBidKeys ==> bid == Newest(history, key)
      ensures key !in recentBidKeys && bid.None? ==> forall i :: 0 <= i < |cached| ==> key !in KeysOf(cached[i])
      ensures key !in recentBidKeys && bid.Some? ==>
          exists i, j :: FirstCachedAt(cached, key, i, j) && cached[i][j] == bid.value
    {
      if key in recentBids {
        return Some(recentBids[key]);
      }
      for i := 0 to |cached|
        invariant forall j :: 0 <= j < i ==> key !in KeysOf(cached[j])
      {
        for j := 0 to |cached[i]|
          invariant forall n :: 0 <= n < j ==> cached[i][n].key != key
        {
          if cached[i][j].key == key {
            assert FirstCachedAt(cached, key, i, j);
            return Some(cached[i][j]);
          }
        }
      }
      return None;
    }
  }

  /** The first bid with the key in the first cached result that holds one. */
  ghost predicate FirstCachedAt(cached: seq<seq<Bid>>, key: int, i: int, j: int) {
    && 0 <= i < |cached| && 0 <= j < |cached[i]| && cached[i][j].key == key
    && (forall n :: 0 <= n < j ==> cached[i][n].key != key)
    && (forall n :: 0 <= n < i ==> key !in KeysOf(cached[n]))
  }

  /** The memory as a function of the history: any run of searches leaves exactly this. */
  function Remembered(history: seq<seq<Bid>>): seq<int> {
    if history == [] then [] else Take(Dedup(KeysOf(history[0]) + Remembered(history[1..])), LIMIT)
  }

  /** Truncating after every search is the same as truncating the whole history once. */
  lemma {:induction false} StepwiseEqualsWhole(history: seq<seq<Bid>>)
    ensures Remembered(history) == Take(Dedup(AllKeys(history)), 200)
  {
    if history != [] {
      StepwiseEqualsWhole(history[1..]);
      TruncationLosesNothing(KeysOf(history[0]), AllKeys(history[1..]), LIMIT);
    }
  }

  /** A remembered key always has a newest bid, and remembered keys do not repeat. */
  lemma RememberedKeysAreBids(history: seq<seq<Bid>>, key: int)
    requires key in Remembered(history)
    ensures Newest(history, key).Some? && Newest(history, key).value.key == key && NoRepeats(Remembered(history)) &&
        |Remembered(history)| <= 200
  {
    StepwiseEqualsWhole(history);
    AddAllMembers([], AllKeys(history), key);
    AddAllNoRepeats([], AllKeys(history));
    NewestIffKey(history, key);
  }

  lemma {:induction false} NewestIffKey(history: seq<seq<Bid>>, key: int)
    ensures Newest(history, key).Some? <==> key in AllKeys(history)
    ensures Newest(history, key).Some? ==> Newest(history, key).value.key == key
  {
    if history != [] {
      LastWithIffKey(history[0], key);
      LastWithHasKey(history[0], key);
      NewestIffKey(history[1..], key);
    }
  }

  lemma {:induction false} LastWithHasKey(bids: seq<Bid>, key: int)
    ensures LastWith(bids, key).Some? ==> LastWith(bids, key).value.key == key
  {
    if bids != [] { LastWithHasKey(bids[..|bids| - 1], key); }
  }
}
