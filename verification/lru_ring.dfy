/** Sequences without repetition, and taking one position out of them. */
module Sequences {

  ghost predicate Distinct<T>(s: seq<T>) {
    forall i, j :: 0 <= i < j < |s| ==> s[i] != s[j]
  }

  function Without<T>(s: seq<T>, k: nat): seq<T>
    requires k < |s|
  {
    s[..k] + s[k + 1..]
  }

  lemma WithoutOne<T>(s: seq<T>, k: nat)
    requires k < |s| && Distinct(s)
    ensures Distinct(Without(s, k)) && s[k] !in Without(s, k)
    ensures |Without(s, k)| == |s| - 1
    ensures forall i :: 0 <= i < k ==> Without(s, k)[i] == s[i]
    ensures forall i :: k <= i < |s| - 1 ==> Without(s, k)[i] == s[i + 1]
    ensures forall x :: x in Without(s, k) <==> x in s && x != s[k]
  {
    forall x | x in s && x != s[k]
      ensures x in Without(s, k)
    {
      var i :| 0 <= i < |s| && s[i] == x;
      assert Without(s, k)[if i < k then i else i - 1] == x;
    }
  }
}

/** The doubly linked ring behind the cache: a sentinel whose successor is the front element and
    whose predecessor is the back one, as Go's container/list lays it out. */
module LruRing {
  import opened Sequences

  class Element<V(0)> {
    const key: string
    var val: V
    var prev: Element?<V>
    var next: Element?<V>

    constructor (key: string, val: V)
      ensures this.key == key && this.val == val
    {
      this.key, this.val := key, val;
      prev, next := null, null;
    }

    constructor Sentinel()
    {
      key, val := "", *;
      prev, next := null, null;
    }
  }

  class Ring<V(0)> {
    const root: Element<V>
    var len: nat
    /** The elements from front to back. */
    ghost var nodes: seq<Element<V>>

    ghost predicate Linked()
      reads this, root`prev, root`next, nodes`prev, nodes`next
    {
      && root.next == (if nodes == [] then root else nodes[0])
      && root.prev == (if nodes == [] then root else nodes[|nodes| - 1])
      && (forall i {:trigger nodes[i].next} :: 0 <= i < |nodes| ==>
            nodes[i].next == if i + 1 < |nodes| then nodes[i + 1] else root)
      && (forall i {:trigger nodes[i].prev} :: 0 <= i < |nodes| ==>
            nodes[i].prev == if i > 0 then nodes[i - 1] else root)
    }

    ghost predicate Valid()
      reads this, root`prev, root`next, nodes`prev, nodes`next
    {
      && len == |nodes|
      && root !in nodes
      && Distinct(nodes)
      && Linked()
    }

    constructor ()
      ensures Valid() && nodes == [] && fresh(root)
    {
      var sentinel := new Element<V>.Sentinel();
      root, len, nodes := sentinel, 0, [];
      new;
      root.prev, root.next := root, root;
    }

    method PushFront(e: Element<V>)
      requires Valid() && e !in nodes && e != root
      modifies this, root`prev, root`next, nodes`prev, nodes`next, e`prev, e`next
      ensures Valid() && nodes == [e] + old(nodes)
    {
      e.prev := root;
      e.next := root.next;
      e.prev.next := e;
      e.next.prev := e;
      len := len + 1;
      nodes := [e] + nodes;
    }

    method Remove(e: Element<V>, ghost k: nat)
      requires Valid() && k < |nodes| && nodes[k] == e
      modifies this, root`prev, root`next, nodes`prev, nodes`next
      ensures Valid() && nodes == Without(old(nodes), k)
    {
      hide Without;
      ghost var was, now := nodes, Without(nodes, k);
      WithoutOne(was, k);
      assert e.prev == if k > 0 then was[k - 1] else root;
      assert e.next == if k + 1 < |was| then was[k + 1] else root;
      e.prev.next := e.next;
      e.next.prev := e.prev;
      e.prev, e.next := null, null;
      assert forall i {:trigger was[i].next} :: 0 <= i < |was| && i != k && i + 1 != k ==>
          was[i].next == if i + 1 < |was| then was[i + 1] else root;
      assert forall i {:trigger was[i].prev} :: 0 <= i < |was| && i != k && i != k + 1 ==>
          was[i].prev == if i > 0 then was[i - 1] else root;
      len := len - 1;
      nodes := now;
    }

    method MoveToFront(e: Element<V>, ghost k: nat)
      requires Valid() && k < |nodes| && nodes[k] == e
      modifies this, root`prev, root`next, nodes`prev, nodes`next
      ensures Valid() && nodes == [e] + Without(old(nodes), k)
    {
      if root.next == e {
        assert k == 0;
        return;
      }
      WithoutOne(nodes, k);
      Remove(e, k);
      PushFront(e);
    }
  }
}
