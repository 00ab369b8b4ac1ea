/** Tombstones of deliberately closed rooms: a bounded least-recently-used cache with a lifetime. */
module Tombstone {
  import opened Options
  import opened LruSpec
  import opened Lru

  datatype Reason = ClosedByPeer | PasswordLockout | Admin

  datatype Entry = Entry(closedAt: int, reason: Reason)

  predicate Expired(e: Entry, now: int, ttl: int) {
    now - e.closedAt > ttl
  }

  predicate Resident(s: seq<(string, Entry)>, id: string) {
    Lookup(s, id).Some?
  }

  /** Asking for an id refreshes it, or forgets it if its time is up. */
  function Ask(s: seq<(string, Entry)>, id: string, now: int, ttl: int): (seq<(string, Entry)>, Option<Entry>) {
    match Lookup(s, id)
    case None => (s, None)
    case Some(e) =>
      if Expired(e, now, ttl) then (Drop(Touch(s, id, e), id), None) else (Touch(s, id, e), Some(e))
  }

  function Live(s: seq<(string, Entry)>, now: int, ttl: int): seq<(string, Entry)> {
    if s == [] then []
    else (if Expired(s[0].1, now, ttl) then [] else [s[0]]) + Live(s[1..], now, ttl)
  }

  function Stale(s: seq<(string, Entry)>, now: int, ttl: int): seq<string> {
    if s == [] then []
    else (if Expired(s[0].1, now, ttl) then [s[0].0] else []) + Stale(s[1..], now, ttl)
  }

  function DropAll(s: seq<(string, Entry)>, keys: seq<string>): seq<(string, Entry)> {
    if keys == [] then s else Drop(DropAll(s, keys[..|keys| - 1]), keys[|keys| - 1])
  }

  // ---------------------------------------------------------------- what callers rely on

  /** An id that is not reported closed holds no tombstone afterwards, expired or not; asking never
      adds one. */
  lemma AskForgets(s: seq<(string, Entry)>, id: string, now: int, ttl: int)
    requires DistinctKeys(s)
    ensures var (t, e) := Ask(s, id, now, ttl);
            && DistinctKeys(t)
            && Resident(t, id) == e.Some?
            && (e.Some? <==> Resident(s, id) && !Expired(Lookup(s, id).value, now, ttl))
            && forall k :: k != id ==> Lookup(t, k) == Lookup(s, k)
  {
    hide Drop;
    var t := Ask(s, id, now, ttl).0;
    if Resident(s, id) {
      var v := Lookup(s, id).value;
      TouchLookup(s, id, v);
      DropLookup(Touch(s, id, v), id);
      DropDistinct(Touch(s, id, v), id);
    }
  }

  /** Burying an id leaves it resident, and adds no other. */
  lemma BuryMarks(s: seq<(string, Entry)>, id: string, e: Entry, capacity: nat)
    requires DistinctKeys(s) && capacity > 0 && |s| <= capacity
    ensures var t := Insert(s, id, e, capacity);
            && DistinctKeys(t) && |t| <= capacity
            && Lookup(t, id) == Some(e)
            && forall k :: Resident(t, k) ==> k == id || Resident(s, k)
  {
    hide Drop;
    var u := Touch(s, id, e);
    TouchLookup(s, id, e);
    DropDistinct(s, id);
    if |u| > capacity {
      forall k | Resident(u[..|u| - 1], k)
        ensures k == id || Resident(s, k)
      {
        PrefixLookup(u, |u| - 1, k);
        assert Lookup(u, k) == Lookup(s, k) || k == id;
      }
      assert u[..|u| - 1][0] == (id, e);
    }
  }

  /** Deleting the stale keys one by one is keeping the live entries. */
  lemma {:induction false} DropStale(s: seq<(string, Entry)>, now: int, ttl: int)
    requires DistinctKeys(s)
    ensures DropAll(s, Stale(s, now, ttl)) == Live(s, now, ttl)
  {
    if s != [] {
      var rest, keys := s[1..], Stale(s[1..], now, ttl);
      DropStale(rest, now, ttl);
      if Expired(s[0].1, now, ttl) {
        DropAllAppend(s, [s[0].0], keys);
        assert [s[0].0][..0] == [];
        assert DropAll(s, [s[0].0]) == Drop(s, s[0].0) == rest;
        assert [] + Live(rest, now, ttl) == Live(rest, now, ttl);
      } else {
        StaleInside(rest, now, ttl);
        DropAllBehind(s[0], rest, keys);
        assert [s[0]] + rest == s && [] + keys == keys;
      }
    }
  }

  lemma {:induction false} DropAllAppend(s: seq<(string, Entry)>, one: seq<string>, two: seq<string>)
    ensures DropAll(s, one + two) == DropAll(DropAll(s, one), two)
    decreases |two|
  {
    if two == [] {
      assert one + two == one;
    } else {
      assert (one + two)[..|one + two| - 1] == one + two[..|two| - 1];
      DropAllAppend(s, one, two[..|two| - 1]);
    }
  }

  lemma {:induction false} DropAllBehind(e: (string, Entry), rest: seq<(string, Entry)>, keys: seq<string>)
    requires e.0 !in keys
    ensures DropAll([e] + rest, keys) == [e] + DropAll(rest, keys)
    decreases |keys|
  {
    if keys != [] {
      DropAllBehind(e, rest, keys[..|keys| - 1]);
      assert ([e] + DropAll(rest, keys[..|keys| - 1]))[1..] == DropAll(rest, keys[..|keys| - 1]);
    }
  }

  lemma {:induction false} StaleInside(s: seq<(string, Entry)>, now: int, ttl: int)
    ensures forall k :: k in Stale(s, now, ttl) ==> exists i :: 0 <= i < |s| && s[i].0 == k
  {
    if s != [] {
      StaleInside(s[1..], now, ttl);
      forall k | k in Stale(s, now, ttl)
        ensures exists i :: 0 <= i < |s| && s[i].0 == k
      {
        if k in Stale(s[1..], now, ttl) {
          var i :| 0 <= i < |s[1..]| && s[1..][i].0 == k;
          assert s[i + 1].0 == k;
        } else {
          assert s[0].0 == k;
        }
      }
    }
  }

  lemma {:induction false} LiveDistinct(s: seq<(string, Entry)>, now: int, ttl: int)
    requires DistinctKeys(s)
    ensures DistinctKeys(Live(s, now, ttl)) && |Live(s, now, ttl)| <= |s|
    ensures forall i :: 0 <= i < |Live(s, now, ttl)| ==> Live(s, now, ttl)[i] in s
  {
    if s != [] {
      LiveDistinct(s[1..], now, ttl);
      var rest := Live(s[1..], now, ttl);
      assert forall i :: 0 <= i < |rest| ==> rest[i].0 != s[0].0;
    }
  }

  lemma {:induction false} LiveLookupOf(s: seq<(string, Entry)>, now: int, ttl: int, k: string)
    requires DistinctKeys(s)
    ensures Lookup(Live(s, now, ttl), k) ==
              if Lookup(s, k).Some? && !Expired(Lookup(s, k).value, now, ttl) then Lookup(s, k) else None
  {
    if s != [] {
      var rest := Live(s[1..], now, ttl);
      LiveLookupOf(s[1..], now, ttl, k);
      if Expired(s[0].1, now, ttl) {
        assert Live(s, now, ttl) == rest;
        if s[0].0 == k {
          LookupAbsent(s[1..], k);
        }
      } else {
        assert Live(s, now, ttl)[1..] == rest;
      }
    }
  }

  /** Sweeping forgets exactly the expired ids. */
  lemma LiveLookup(s: seq<(string, Entry)>, now: int, ttl: int)
    requires DistinctKeys(s)
    ensures DistinctKeys(Live(s, now, ttl)) && |Live(s, now, ttl)| <= |s|
    ensures forall i :: 0 <= i < |Live(s, now, ttl)| ==> Live(s, now, ttl)[i] in s
    ensures forall k :: Lookup(Live(s, now, ttl), k) ==
              if Lookup(s, k).Some? && !Expired(Lookup(s, k).value, now, ttl) then Lookup(s, k) else None
  {
    hide Live, Lookup;
    LiveDistinct(s, now, ttl);
    forall k
      ensures Lookup(Live(s, now, ttl), k) ==
                if Lookup(s, k).Some? && !Expired(Lookup(s, k).value, now, ttl) then Lookup(s, k) else None
    {
      LiveLookupOf(s, now, ttl, k);
    }
  }

  // ---------------------------------------------------------------- the store

  class Store {
    const c: Cache<Entry>
    const ttl: int

    ghost predicate Valid()
      reads this, c, c.Repr
    {
      c.Valid()
    }

    constructor (capacity: nat, ttl: int)
      requires capacity > 0
      ensures Valid() && fresh(c.Repr) && this.ttl == ttl && c.capacity == capacity && c.entries == []
    {
      var cache := new Cache<Entry>(capacity);
      c, this.ttl := cache, ttl;
    }

    method Add(id: string, reason: Reason, now: int)
      requires Valid()
      modifies c.Repr
      ensures Valid() && fresh(c.Repr - old(c.Repr))
      ensures c.entries == Insert(old(c.entries), id, Entry(now, reason), c.capacity)
    {
      var _ := c.Put(id, Entry(now, reason));
    }

    method Find(id: string, now: int) returns (found: Option<Entry>)
      requires Valid()
      modifies c.Repr
      ensures Valid() && c.Repr == old(c.Repr)
      ensures (c.entries, found) == Ask(old(c.entries), id, now, ttl)
    {
      var e, ok := c.Get(id);
      if !ok {
        return None;
      }
      if now - e.closedAt > ttl {
        var _ := c.Delete(id);
        return None;
      }
      found := Some(e);
    }

    method Has(id: string, now: int) returns (has: bool)
      requires Valid()
      modifies c.Repr
      ensures Valid() && c.Repr == old(c.Repr)
      ensures c.entries == Ask(old(c.entries), id, now, ttl).0 && has == Ask(old(c.entries), id, now, ttl).1.Some?
    {
      var found := Find(id, now);
      has := found.Some?;
    }

    /** Collects the expired keys, then deletes them one by one. */
    method Sweep(now: int) returns (removed: nat)
      requires Valid()
      modifies c.Repr
      ensures Valid() && c.Repr == old(c.Repr)
      ensures c.entries == Live(old(c.entries), now, ttl)
      ensures removed == |Stale(old(c.entries), now, ttl)|
    {
      hide Drop, Live, Stale, Cache.Within;
      ghost var was := c.entries;
      var toDelete := CollectStale(now);
      removed := 0;
      while removed < |toDelete|
        invariant removed <= |toDelete| && Valid() && c.Repr == old(c.Repr)
        invariant c.entries == DropAll(was, toDelete[..removed])
      {
        var _ := c.Delete(toDelete[removed]);
        removed := removed + 1;
        assert toDelete[..removed][..removed - 1] == toDelete[..removed - 1];
      }
      assert toDelete[..removed] == toDelete;
      DropStale(was, now, ttl);
    }

    method CollectStale(now: int) returns (toDelete: seq<string>)
      requires Valid()
      ensures DistinctKeys(c.entries) && toDelete == Stale(c.entries, now, ttl)
    {
      hide Stale;
      var seen := c.Range((k, e) => true);
      assert seen == c.entries;
      toDelete := StaleKeys(seen, now, ttl);
    }
  }

  method StaleKeys(seen: seq<(string, Entry)>, now: int, ttl: int) returns (keys: seq<string>)
    ensures keys == Stale(seen, now, ttl)
  {
    keys := [];
    for i := 0 to |seen|
      invariant keys + Stale(seen[i..], now, ttl) == Stale(seen, now, ttl)
    {
      ghost var before, rest := keys, Stale(seen[i + 1..], now, ttl);
      assert seen[i..][1..] == seen[i + 1..];
      if now - seen[i].1.closedAt > ttl {
        keys := keys + [seen[i].0];
        assert before + ([seen[i].0] + rest) == keys + rest;
      } else {
        assert [] + rest == rest;
      }
    }
  }
}
