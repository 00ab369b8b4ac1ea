/** What a least-recently-used cache is: a list of distinct keys with values, most recent first. */
module LruSpec {
  import opened Options
  import opened Sequences

  ghost predicate DistinctKeys<V>(s: seq<(string, V)>) {
    forall i, j :: 0 <= i < j < |s| ==> s[i].0 != s[j].0
  }

  function Lookup<V>(s: seq<(string, V)>, key: string): Option<V> {
    if s == [] then None else if s[0].0 == key then Some(s[0].1) else Lookup(s[1..], key)
  }

  function Drop<V>(s: seq<(string, V)>, key: string): (t: seq<(string, V)>)
    ensures |t| <= |s|
  {
    if s == [] then [] else if s[0].0 == key then s[1..] else [s[0]] + Drop(s[1..], key)
  }

  /** Key becomes the most recent, with value v. */
  function Touch<V>(s: seq<(string, V)>, key: string, v: V): seq<(string, V)> {
    [(key, v)] + Drop(s, key)
  }

  function Insert<V>(s: seq<(string, V)>, key: string, v: V, capacity: nat): seq<(string, V)> {
    var t := Touch(s, key, v);
    if |t| > capacity then t[..|t| - 1] else t
  }

  /** The mutation that plain reads apply. */
  function Keep<V>(v: V): V {
    v
  }

  function Access<V>(s: seq<(string, V)>, key: string, mutate: V -> V): seq<(string, V)> {
    match Lookup(s, key)
    case None => s
    case Some(v) => Touch(s, key, mutate(v))
  }

  lemma {:induction false} LookupAt<V>(s: seq<(string, V)>, i: nat)
    requires i < |s| && DistinctKeys(s)
    ensures Lookup(s, s[i].0) == Some(s[i].1)
    ensures Drop(s, s[i].0) == Without(s, i)
  {
    if i > 0 {
      assert s[0].0 != s[i].0;
      LookupAt(s[1..], i - 1);
      assert Without(s, i) == [s[0]] + Without(s[1..], i - 1);
    }
  }

  lemma {:induction false} LookupAbsent<V>(s: seq<(string, V)>, key: string)
    requires forall i :: 0 <= i < |s| ==> s[i].0 != key
    ensures Lookup(s, key) == None && Drop(s, key) == s
  {
    if s != [] {
      LookupAbsent(s[1..], key);
    }
  }

  lemma {:induction false} LookupFinds<V>(s: seq<(string, V)>, key: string) returns (i: nat)
    requires Lookup(s, key).Some?
    ensures i < |s| && s[i] == (key, Lookup(s, key).value)
  {
    if s[0].0 == key {
      i := 0;
    } else {
      i := LookupFinds(s[1..], key);
      i := i + 1;
    }
  }

  lemma {:induction false} AbsentEverywhere<V>(s: seq<(string, V)>, key: string)
    requires Lookup(s, key).None?
    ensures forall i :: 0 <= i < |s| ==> s[i].0 != key
  {
    if s != [] {
      AbsentEverywhere(s[1..], key);
    }
  }

  /** What dropping a key does: nothing, or closing the gap it leaves. */
  lemma DropCases<V>(s: seq<(string, V)>, key: string) returns (i: nat)
    requires DistinctKeys(s)
    ensures if Lookup(s, key).None? then i == |s| && Drop(s, key) == s
            else i < |s| && s[i] == (key, Lookup(s, key).value) && Drop(s, key) == Without(s, i)
    ensures forall j :: 0 <= j < |s| && j != i ==> s[j].0 != key
  {
    if Lookup(s, key).Some? {
      i := LookupFinds(s, key);
      LookupAt(s, i);
    } else {
      i := |s|;
      AbsentEverywhere(s, key);
      LookupAbsent(s, key);
    }
  }

  lemma DropDistinct<V>(s: seq<(string, V)>, key: string)
    requires DistinctKeys(s)
    ensures DistinctKeys(Drop(s, key))
    ensures forall i :: 0 <= i < |Drop(s, key)| ==> Drop(s, key)[i].0 != key && Drop(s, key)[i] in s
    ensures |Drop(s, key)| == if Lookup(s, key).None? then |s| else |s| - 1
  {
    hide Drop, Lookup;
    var i := DropCases(s, key);
    if Lookup(s, key).Some? {
      assert forall j :: 0 <= j < |s| - 1 ==> Drop(s, key)[j] == s[if j < i then j else j + 1];
    }
  }

  lemma {:induction false} DropLookup<V>(s: seq<(string, V)>, key: string)
    requires DistinctKeys(s)
    ensures Lookup(Drop(s, key), key) == None
    ensures forall k :: k != key ==> Lookup(Drop(s, key), k) == Lookup(s, k)
  {
    if s != [] {
      if s[0].0 == key {
        LookupAbsent(s[1..], key);
      } else {
        DropLookup(s[1..], key);
      }
    }
  }

  lemma TouchLookup<V>(s: seq<(string, V)>, key: string, v: V)
    requires DistinctKeys(s)
    ensures DistinctKeys(Touch(s, key, v))
    ensures Lookup(Touch(s, key, v), key) == Some(v)
    ensures forall k :: k != key ==> Lookup(Touch(s, key, v), k) == Lookup(s, k)
  {
    hide Drop;
    DropLookup(s, key);
    DropDistinct(s, key);
    assert Touch(s, key, v)[1..] == Drop(s, key);
  }

  lemma {:induction false} PrefixLookup<V>(s: seq<(string, V)>, n: nat, key: string)
    requires n <= |s|
    ensures Lookup(s[..n], key).Some? ==> Lookup(s[..n], key) == Lookup(s, key)
  {
    if n > 0 {
      assert s[..n][1..] == s[1..][..n - 1];
      PrefixLookup(s[1..], n - 1, key);
    }
  }

  // ---------------------------------------------------------------- whole histories

  datatype Op<!V> = Get(key: string) | GetMut(key: string, mutate: V -> V) | Put(key: string, val: V)
    | Delete(key: string) | Has(key: string)

  function Apply<V>(s: seq<(string, V)>, op: Op<V>, capacity: nat): seq<(string, V)> {
    match op
    case Get(k) => Access(s, k, Keep)
    case GetMut(k, f) => Access(s, k, f)
    case Put(k, v) => Insert(s, k, v, capacity)
    case Delete(k) => Drop(s, k)
    case Has(k) => s
  }

  function Replay<V>(ops: seq<Op<V>>, capacity: nat): seq<(string, V)> {
    if ops == [] then [] else Apply(Replay(ops[..|ops| - 1], capacity), ops[|ops| - 1], capacity)
  }

  /** The time, counted from 1, of the last operation that asked for or stored key; 0 if none did. */
  function LastAccess<V>(ops: seq<Op<V>>, key: string): nat {
    if ops == [] then 0
    else
      var op := ops[|ops| - 1];
      if op.key == key && (op.Get? || op.GetMut? || op.Put?) then |ops| else LastAccess(ops[..|ops| - 1], key)
  }

  ghost predicate ByRecency<V>(s: seq<(string, V)>, ops: seq<Op<V>>) {
    forall i, j :: 0 <= i < j < |s| ==> LastAccess(ops, s[i].0) > LastAccess(ops, s[j].0)
  }

  lemma {:induction false} LastAccessBound<V>(ops: seq<Op<V>>, key: string)
    ensures LastAccess(ops, key) <= |ops|
  {
    if ops != [] {
      LastAccessBound(ops[..|ops| - 1], key);
    }
  }

  ghost predicate Ordered<V>(s: seq<(string, V)>, ops: seq<Op<V>>, capacity: nat) {
    DistinctKeys(s) && ByRecency(s, ops) && |s| <= capacity
  }

  /** Every key of s has been accessed, and s lists them latest first. */
  ghost predicate Faithful<V>(s: seq<(string, V)>, ops: seq<Op<V>>, capacity: nat) {
    Ordered(s, ops, capacity) && forall i :: 0 <= i < |s| ==> LastAccess(ops, s[i].0) > 0
  }

  lemma DropFaithful<V>(s: seq<(string, V)>, ops: seq<Op<V>>, key: string, capacity: nat)
    requires Faithful(s, ops, capacity)
    ensures Faithful(Drop(s, key), ops, capacity)
    ensures forall i :: 0 <= i < |Drop(s, key)| ==> Drop(s, key)[i].0 != key
    ensures |Drop(s, key)| == if Lookup(s, key).None? then |s| else |s| - 1
  {
    hide Drop, Lookup, LastAccess;
    var i := DropCases(s, key);
    DropDistinct(s, key);
    if Lookup(s, key).Some? {
      assert forall j :: 0 <= j < |s| - 1 ==> Drop(s, key)[j] == s[if j < i then j else j + 1];
    }
  }

  /** An operation on key changes the last access of no other key, and an access makes key's the latest. */
  lemma StepKeepsOthers<V>(d: seq<(string, V)>, ops: seq<Op<V>>, capacity: nat)
    requires ops != [] && Faithful(d, ops[..|ops| - 1], capacity)
    requires var op := ops[|ops| - 1];
             op.Has? || op.Delete? || forall i :: 0 <= i < |d| ==> d[i].0 != op.key
    ensures Faithful(d, ops, capacity)
    ensures forall i :: 0 <= i < |d| ==> LastAccess(ops, d[i].0) < |ops|
  {
    forall i | 0 <= i < |d|
      ensures LastAccess(ops, d[i].0) == LastAccess(ops[..|ops| - 1], d[i].0) < |ops|
    {
      LastAccessBound(ops[..|ops| - 1], d[i].0);
    }
  }

  /** A key stored or found goes in front of everything touched before. */
  lemma FrontIsLatest<V>(s: seq<(string, V)>, ops: seq<Op<V>>, v: V, capacity: nat)
    requires ops != [] && Faithful(s, ops[..|ops| - 1], capacity)
    requires var op := ops[|ops| - 1]; op.Get? || op.GetMut? || op.Put?
    ensures var t := Touch(s, ops[|ops| - 1].key, v); Faithful(t, ops, |t|)
  {
    var key := ops[|ops| - 1].key;
    var d, t := Drop(s, key), Touch(s, key, v);
    DropFaithful(s, ops[..|ops| - 1], key, capacity);
    StepKeepsOthers(d, ops, capacity);
    assert LastAccess(ops, key) == |ops|;
    hide Drop, Lookup, LastAccess;
    assert t[0] == (key, v) && forall i :: 0 < i < |t| ==> t[i] == d[i - 1];
  }

  lemma AccessFaithful<V>(s: seq<(string, V)>, ops: seq<Op<V>>, f: V -> V, capacity: nat)
    requires ops != [] && Faithful(s, ops[..|ops| - 1], capacity)
    requires ops[|ops| - 1].Get? || ops[|ops| - 1].GetMut?
    ensures Faithful(Access(s, ops[|ops| - 1].key, f), ops, capacity)
  {
    var k := ops[|ops| - 1].key;
    if Lookup(s, k).Some? {
      FrontIsLatest(s, ops, f(Lookup(s, k).value), capacity);
      DropDistinct(s, k);
    } else {
      AbsentEverywhere(s, k);
      StepKeepsOthers(s, ops, capacity);
    }
  }

  /** The whole recency order is the order of last accesses in the history, at every point. */
  lemma {:induction false} RecencyIsLastAccess<V>(ops: seq<Op<V>>, capacity: nat)
    requires capacity > 0
    ensures Faithful(Replay(ops, capacity), ops, capacity)
  {
    hide Faithful, Access, Drop, LastAccess;
    if ops == [] {
      EmptyFaithful<V>(capacity);
    } else {
      var before, op := ops[..|ops| - 1], ops[|ops| - 1];
      var s := Replay(before, capacity);
      RecencyIsLastAccess(before, capacity);
      match op {
        case Put(k, v) =>
          FrontIsLatest(s, ops, v, capacity);
          InsertFaithful(s, ops, capacity);
        case Get(_) =>
          AccessFaithful(s, ops, Keep, capacity);
        case GetMut(_, f) =>
          AccessFaithful(s, ops, f, capacity);
        case Delete(k) =>
          DropFaithful(s, before, k, capacity);
          StepKeepsOthers(Drop(s, k), ops, capacity);
        case Has(_) =>
          StepKeepsOthers(s, ops, capacity);
      }
    }
  }

  lemma EmptyFaithful<V>(capacity: nat)
    ensures Faithful<V>([], [], capacity)
  {
  }

  lemma InsertFaithful<V>(s: seq<(string, V)>, ops: seq<Op<V>>, capacity: nat)
    requires ops != [] && ops[|ops| - 1].Put? && Faithful(s, ops[..|ops| - 1], capacity)
    requires var t := Touch(s, ops[|ops| - 1].key, ops[|ops| - 1].val); Faithful(t, ops, |t|)
    ensures Faithful(Insert(s, ops[|ops| - 1].key, ops[|ops| - 1].val, capacity), ops, capacity)
  {
  }

  /** Storing a new key in a full cache evicts one key, the one whose last access is oldest of all,
      and leaves every other entry as it was. */
  lemma EvictsOldest<V>(ops: seq<Op<V>>, key: string, v: V, capacity: nat)
    requires capacity > 0
    requires var s := Replay(ops, capacity); |s| == capacity && Lookup(s, key).None?
    ensures var s := Replay(ops, capacity);
            var victim := s[|s| - 1];
            && Insert(s, key, v, capacity) == [(key, v)] + s[..|s| - 1]
            && forall e :: e in s && e != victim ==> LastAccess(ops, victim.0) < LastAccess(ops, e.0)
  {
    hide Replay, LastAccess, Lookup, Drop;
    var s := Replay(ops, capacity);
    RecencyIsLastAccess(ops, capacity);
    AbsentEverywhere(s, key);
    LookupAbsent(s, key);
    assert ([(key, v)] + s)[..|s|] == [(key, v)] + s[..|s| - 1];
  }
}

/** The cache itself: a map into a doubly linked ring, changed in place by every operation. */
module Lru {
  import opened Options
  import opened Sequences
  import opened LruSpec
  import opened LruRing

  /** The map holds exactly the elements of the ring, each under its own key. */
  ghost predicate Indexes<V(0)>(items: map<string, Element<V>>, nodes: seq<Element<V>>) {
    && (forall n :: n in nodes ==> n.key in items && items[n.key] == n)
    && (forall k :: k in items ==> items[k] in nodes && items[k].key == k)
  }

  /** The entries are what the elements hold, position by position. */
  ghost predicate Mirrors<V(0)>(entries: seq<(string, V)>, nodes: seq<Element<V>>)
    reads nodes`val
  {
    |entries| == |nodes| && forall i :: 0 <= i < |nodes| ==> entries[i] == (nodes[i].key, nodes[i].val)
  }

  ghost predicate Owns<V(0)>(repr: set<object>, nodes: seq<Element<V>>) {
    forall n :: n in nodes ==> n in repr
  }

  lemma MirrorsWithout<V(0)>(entries: seq<(string, V)>, nodes: seq<Element<V>>, k: nat)
    requires Mirrors(entries, nodes) && k < |nodes|
    ensures Mirrors(Without(entries, k), Without(nodes, k))
  {
  }

  lemma MirrorsFront<V(0)>(entries: seq<(string, V)>, nodes: seq<Element<V>>, el: Element<V>)
    requires Mirrors(entries, nodes)
    ensures Mirrors([(el.key, el.val)] + entries, [el] + nodes)
  {
  }

  lemma IndexesWithout<V(0)>(items: map<string, Element<V>>, nodes: seq<Element<V>>, k: nat)
    requires Indexes(items, nodes) && Distinct(nodes) && k < |nodes|
    ensures Indexes(items - {nodes[k].key}, Without(nodes, k))
    ensures Indexes(items, [nodes[k]] + Without(nodes, k))
  {
    WithoutOne(nodes, k);
    hide Without;
    forall n | n in Without(nodes, k)
      ensures n.key != nodes[k].key
    {
      assert items[n.key] == n && items[nodes[k].key] == nodes[k];
    }
  }

  lemma IndexesFront<V(0)>(items: map<string, Element<V>>, nodes: seq<Element<V>>, el: Element<V>)
    requires Indexes(items, nodes) && el.key !in items
    ensures Indexes(items[el.key := el], [el] + nodes)
  {
  }

  ghost predicate NoKey<V>(entries: seq<(string, V)>, key: string) {
    forall i :: 0 <= i < |entries| ==> entries[i].0 != key
  }

  lemma DistinctWithout<V>(entries: seq<(string, V)>, k: nat)
    requires DistinctKeys(entries) && k < |entries|
    ensures DistinctKeys(Without(entries, k)) && NoKey(Without(entries, k), entries[k].0)
  {
  }

  lemma DistinctFront<V>(entries: seq<(string, V)>, key: string, v: V)
    requires DistinctKeys(entries) && NoKey(entries, key)
    ensures DistinctKeys([(key, v)] + entries)
  {
  }

  class Cache<V(0)> {
    const capacity: nat
    const ll: Ring<V>
    var items: map<string, Element<V>>
    /** What the cache holds, most recent first. */
    ghost var entries: seq<(string, V)>
    ghost var Repr: set<object>

    /** Sound, with room for at most extra more entries than the capacity. */
    ghost predicate Within(extra: nat)
      reads this, Repr
    {
      && {this, ll, ll.root} <= Repr
      && Owns(Repr, ll.nodes)
      && capacity > 0
      && ll.Valid()
      && ll.len <= capacity + extra
      && Indexes(items, ll.nodes)
      && Mirrors(entries, ll.nodes)
      && DistinctKeys(entries)
    }

    ghost predicate Valid()
      reads this, Repr
      ensures Valid() ==> this in Repr && DistinctKeys(entries) && 0 < capacity && |entries| <= capacity
    {
      Within(0)
    }

    constructor (capacity: nat)
      requires capacity > 0
      ensures Valid() && fresh(Repr) && this.capacity == capacity && entries == []
    {
      var ring := new Ring<V>();
      this.capacity, ll, items, entries := capacity, ring, map[], [];
      Repr := {this, ring, ring.root};
    }

    /** Where key's element sits, and what the recency list says about it. */
    lemma Resident(key: string) returns (k: nat)
      requires Valid() && key in items
      ensures k < |ll.nodes| && ll.nodes[k] == items[key]
      ensures Lookup(entries, key) == Some(items[key].val)
      ensures Drop(entries, key) == Without(entries, k)
    {
      k :| 0 <= k < |ll.nodes| && ll.nodes[k] == items[key];
      LookupAt(entries, k);
    }

    lemma KeyAbsent(key: string)
      requires Valid() && key !in items
      ensures NoKey(entries, key)
    {
      forall i | 0 <= i < |entries|
        ensures entries[i].0 != key
      {
        assert ll.nodes[i] in ll.nodes;
      }
    }

    lemma Absent(key: string)
      requires Valid() && key !in items
      ensures Lookup(entries, key) == None && Drop(entries, key) == entries
    {
      KeyAbsent(key);
      LookupAbsent(entries, key);
    }

    method Get(key: string) returns (val: V, ok: bool)
      requires Valid()
      modifies Repr
      ensures Valid() && Repr == old(Repr)
      ensures entries == Access(old(entries), key, Keep)
      ensures ok == Lookup(old(entries), key).Some? && (ok ==> Lookup(old(entries), key) == Some(val))
    {
      if key !in items {
        Absent(key);
        val, ok := *, false;
        return;
      }
      var el := items[key];
      ghost var k := Resident(key);
      Promote(el, k);
      val, ok := el.val, true;
    }

    method GetMut(key: string, mutate: V -> V) returns (val: V, ok: bool)
      requires Valid()
      modifies Repr
      ensures Valid() && Repr == old(Repr)
      ensures entries == Access(old(entries), key, mutate)
      ensures ok == Lookup(old(entries), key).Some?
      ensures ok ==> val == mutate(Lookup(old(entries), key).value)
    {
      hide Ring.Linked, Ring.Valid, Drop, Without, Distinct, DistinctKeys, Mirrors;
      if key !in items {
        Absent(key);
        val, ok := *, false;
        return;
      }
      var el := items[key];
      ghost var k := Resident(key);
      Promote(el, k);
      Store(el, mutate(el.val));
      val, ok := el.val, true;
    }

    /** Moves key's element to the front. */
    method Promote(el: Element<V>, ghost k: nat)
      requires Valid() && k < |ll.nodes| && ll.nodes[k] == el && Drop(entries, el.key) == Without(entries, k)
      modifies Repr
      ensures Valid() && Repr == old(Repr) && items == old(items)
      ensures ll.nodes != [] && el == ll.nodes[0] && el.val == old(el.val)
      ensures entries == Touch(old(entries), el.key, el.val)
    {
      hide Ring.Linked, Drop, Indexes, Without, Distinct, DistinctKeys;
      PromotePlan(el, k);
      ghost var now := Touch(entries, el.key, el.val);
      ll.MoveToFront(el, k);
      entries := now;
      assert Mirrors(entries, ll.nodes);
    }

    lemma PromotePlan(el: Element<V>, k: nat)
      requires Valid() && k < |ll.nodes| && ll.nodes[k] == el && Drop(entries, el.key) == Without(entries, k)
      ensures var now, nodes := Touch(entries, el.key, el.val), [el] + Without(ll.nodes, k);
              && Mirrors(now, nodes) && Indexes(items, nodes) && DistinctKeys(now)
              && |nodes| == |ll.nodes| && Owns(Repr, nodes)
    {
      assert entries[k] == (el.key, el.val);
      MirrorsWithout(entries, ll.nodes, k);
      MirrorsFront(Without(entries, k), Without(ll.nodes, k), el);
      IndexesWithout(items, ll.nodes, k);
      DistinctWithout(entries, k);
      DistinctFront(Without(entries, k), el.key, el.val);
      WithoutOne(ll.nodes, k);
    }

    /** Overwrites the value of the front element. */
    method Store(el: Element<V>, val: V)
      requires Valid() && ll.nodes != [] && ll.nodes[0] == el
      modifies this`entries, el`val
      ensures Valid() && el.val == val
      ensures entries == [(el.key, val)] + old(entries)[1..]
    {
      assert entries[0] == (el.key, el.val);
      hide Ring.Linked, Ring.Valid, Indexes, Distinct;
      el.val := val;
      entries := [(el.key, val)] + entries[1..];
    }

    /** Stores val under key; on overflow the least recently used entry leaves and is returned. */
    method Put(key: string, val: V) returns (evicted: Option<(string, V)>)
      requires Valid()
      modifies Repr
      ensures Valid() && fresh(Repr - old(Repr))
      ensures entries == Insert(old(entries), key, val, capacity)
      ensures evicted == if |Touch(old(entries), key, val)| > capacity
                         then Some(Touch(old(entries), key, val)[capacity]) else None
    {
      evicted := None;
      if key in items {
        var el := items[key];
        Overwrite(el, val);
        return;
      }
      Absent(key);
      AddNew(key, val);
      if ll.len > capacity {
        evicted := EvictBack();
      }
    }

    method Overwrite(el: Element<V>, val: V)
      requires Valid() && el.key in items && items[el.key] == el
      modifies Repr
      ensures Valid() && Repr == old(Repr)
      ensures entries == Touch(old(entries), el.key, val) && |entries| == |old(entries)|
    {
      hide Ring.Linked, Ring.Valid, Drop, Lookup, Indexes, Without, Distinct, DistinctKeys, Mirrors;
      ghost var k := Resident(el.key);
      DropDistinct(entries, el.key);
      Promote(el, k);
      Store(el, val);
    }

    method AddNew(key: string, val: V)
      requires Valid() && key !in items
      modifies Repr
      ensures Within(1) && fresh(Repr - old(Repr)) && ll.len == |entries|
      ensures entries == [(key, val)] + old(entries)
    {
      var el := new Element(key, val);
      assert el !in ll.nodes && el != ll.root;
      AddFront(el);
    }

    method AddFront(el: Element<V>)
      requires Valid() && el.key !in items && el !in ll.nodes && el != ll.root
      modifies Repr, el`prev, el`next
      ensures Within(1) && Repr == old(Repr) + {el}
      ensures entries == [(el.key, el.val)] + old(entries)
    {
      hide Ring.Linked, Indexes, Distinct, DistinctKeys;
      AddPlan(el);
      ghost var now := [(el.key, el.val)] + entries;
      Repr := Repr + {el};
      ll.PushFront(el);
      items := items[el.key := el];
      entries := now;
      assert Mirrors(entries, ll.nodes);
    }

    lemma AddPlan(el: Element<V>)
      requires Valid() && el.key !in items
      ensures var now, nodes := [(el.key, el.val)] + entries, [el] + ll.nodes;
              && Mirrors(now, nodes) && Indexes(items[el.key := el], nodes) && DistinctKeys(now)
              && Owns(Repr + {el}, nodes)
    {
      KeyAbsent(el.key);
      DistinctFront(entries, el.key, el.val);
      MirrorsFront(entries, ll.nodes, el);
      IndexesFront(items, ll.nodes, el);
    }

    method EvictBack() returns (evicted: Option<(string, V)>)
      requires Within(1) && ll.nodes != []
      modifies Repr
      ensures Within(1) && ll.len == |entries| && Repr == old(Repr)
      ensures evicted == Some(old(entries)[|old(entries)| - 1]) && entries == old(entries)[..|old(entries)| - 1]
    {
      var oldest := ll.root.prev;
      evicted := Some((oldest.key, oldest.val));
      ghost var last := |ll.nodes| - 1;
      assert oldest == ll.nodes[last];
      Detach(oldest, last);
      assert entries == old(entries)[..last];
    }

    /** Unlinks the element at position k and forgets its key. */
    method Detach(el: Element<V>, ghost k: nat)
      requires Within(1) && k < |ll.nodes| && ll.nodes[k] == el
      modifies Repr
      ensures Within(1) && ll.len == old(ll.len) - 1 && Repr == old(Repr)
      ensures entries == Without(old(entries), k)
    {
      hide Ring.Linked, Indexes, Without, Distinct, DistinctKeys;
      DetachPlan(k);
      ghost var now := Without(entries, k);
      ll.Remove(el, k);
      items := items - {el.key};
      entries := now;
      assert Mirrors(entries, ll.nodes);
    }

    lemma DetachPlan(k: nat)
      requires Within(1) && k < |ll.nodes|
      ensures var now, nodes := Without(entries, k), Without(ll.nodes, k);
              && Mirrors(now, nodes) && Indexes(items - {ll.nodes[k].key}, nodes) && DistinctKeys(now)
              && |nodes| == |ll.nodes| - 1 && Owns(Repr, nodes)
    {
      MirrorsWithout(entries, ll.nodes, k);
      IndexesWithout(items, ll.nodes, k);
      DistinctWithout(entries, k);
      WithoutOne(ll.nodes, k);
    }

    method Delete(key: string) returns (removed: bool)
      requires Valid()
      modifies Repr
      ensures Valid() && Repr == old(Repr)
      ensures entries == Drop(old(entries), key)
      ensures removed == Lookup(old(entries), key).Some?
    {
      if key !in items {
        Absent(key);
        return false;
      }
      var el := items[key];
      ghost var k := Resident(key);
      Detach(el, k);
      removed := true;
    }

    method Has(key: string) returns (ok: bool)
      requires Valid()
      ensures ok == Lookup(entries, key).Some?
    {
      ok := key in items;
      if ok {
        ghost var k := Resident(key);
      } else {
        Absent(key);
      }
    }

    method Len() returns (n: nat)
      requires Valid()
      ensures n == |entries|
    {
      n := ll.len;
    }

    /** Visits entries from most to least recent until visit says stop. */
    method Range(visit: (string, V) -> bool) returns (visited: seq<(string, V)>)
      requires Valid()
      ensures visited <= entries
      ensures forall i :: 0 <= i < |visited| - 1 ==> visit(visited[i].0, visited[i].1)
      ensures |visited| < |entries| ==> visited != [] && !visit(visited[|visited| - 1].0, visited[|visited| - 1].1)
    {
      visited := [];
      var el := ll.root.next;
      while el != ll.root
        invariant |visited| <= |ll.nodes| && visited == entries[..|visited|]
        invariant el == if |visited| < |ll.nodes| then ll.nodes[|visited|] else ll.root
        invariant forall i :: 0 <= i < |visited| ==> visit(visited[i].0, visited[i].1)
        decreases |ll.nodes| - |visited|
      {
        visited := visited + [(el.key, el.val)];
        if !visit(el.key, el.val) {
          return;
        }
        el := el.next;
      }
    }
  }
}
