// Doubly linked lists that run through their elements.
module IntrusiveList {

  function Without<T>(s: seq<T>, i: nat): (r: seq<T>)
    requires i < |s|
    ensures |r| == |s| - 1 && forall k | 0 <= k < |r| :: r[k] == s[if k < i then k else k + 1]
  {
    s[..i] + s[i + 1..]
  }

  function WithAt<T>(s: seq<T>, i: nat, x: T): (r: seq<T>)
    requires i <= |s|
    ensures |r| == |s| + 1 && forall k | 0 <= k < |r| :: r[k] == if k < i then s[k] else if k == i then x else s[k - 1]
  {
    s[..i] + [x] + s[i..]
  }

  // An element of a list and of the ideal cache array.
  class Entry {
    var next: Entry?
    var prev: Entry?
    var owner: InList?
    var lineAddr: nat
    const lineId: nat

    constructor (id: nat)
      ensures lineId == id && lineAddr == 0 && Free()
    {
      next, prev, owner, lineAddr, lineId := null, null, null, 0, id;
    }

    predicate Free()
      reads this
    {
      next == null && prev == null && owner == null
    }
  }

  class InList {
    var head: Entry?
    var tail: Entry?
    var elems: nat
    ghost var nodes: seq<Entry>

    ghost predicate Linked(i: nat)
      requires i < |nodes|
      reads this, nodes`next, nodes`prev, nodes`owner
    {
      && nodes[i].owner == this
      && nodes[i].prev == (if i == 0 then null else nodes[i - 1])
      && nodes[i].next == (if i == |nodes| - 1 then null else nodes[i + 1])
    }

    // The list is nodes: linked both ways, owned, with the right ends, without repetition.
    ghost predicate Valid()
      reads this, nodes`next, nodes`prev, nodes`owner
    {
      && elems == |nodes|
      && head == (if nodes == [] then null else nodes[0])
      && tail == (if nodes == [] then null else nodes[|nodes| - 1])
      && (forall i: nat | i < |nodes| :: Linked(i))
      && (forall i, j | 0 <= i < j < |nodes| :: nodes[i] != nodes[j])
    }

    constructor ()
      ensures Valid() && nodes == []
    {
      head, tail, elems, nodes := null, null, 0, [];
    }

    // Only elements of the list are owned by it.
    lemma Outside(e: Entry)
      requires Valid() && e.owner != this
      ensures e !in nodes
    {
      forall i: nat | i < |nodes| ensures nodes[i] != e { assert Linked(i); }
    }

    predicate Empty()
      reads this
    {
      head == null
    }

    method PushFront(e: Entry)
      requires Valid() && e.Free()
      modifies this, e`next, e`prev, e`owner, nodes`prev
      ensures Valid() && nodes == [e] + old(nodes)
    {
      Outside(e);
      if !Empty() { assert Linked(0); }
      if Empty() {
        tail := e;
      } else {
        e.next := head;
        head.prev := e;
      }
      head := e;
      e.owner := this;
      elems := elems + 1;
      nodes := [e] + nodes;
      forall k: nat | k < |nodes| ensures Linked(k) {
        if k > 0 { assert old(Linked(k - 1)); }
      }
    }

    method PushBack(e: Entry)
      requires Valid() && e.Free()
      modifies this, e`next, e`prev, e`owner, nodes`next
      ensures Valid() && nodes == old(nodes) + [e]
    {
      Outside(e);
      if !Empty() { assert Linked(|nodes| - 1); }
      if Empty() {
        head := e;
      } else {
        tail.next := e;
        e.prev := tail;
      }
      tail := e;
      e.owner := this;
      elems := elems + 1;
      nodes := nodes + [e];
      forall k: nat | k < |nodes| ensures Linked(k) {
        if k < |nodes| - 1 { assert old(Linked(k)); }
      }
    }

    // Takes element i out of the list.
    method Remove(e: Entry, ghost i: nat)
      requires Valid() && i < |nodes| && nodes[i] == e
      modifies this, nodes`next, nodes`prev, e`owner
      ensures Valid() && nodes == Without(old(nodes), i) && e.Free()
    {
      hide Without;
      assert Linked(i);
      if i > 0 { assert Linked(i - 1); }
      if i + 1 < |nodes| { assert Linked(i + 1); }
      if e == head { head := e.next; }
      if e == tail { tail := e.prev; }
      if e.next != null { e.next.prev := e.prev; }
      if e.prev != null { e.prev.next := e.next; }
      e.next := null;
      e.prev := null;
      e.owner := null;
      elems := elems - 1;
      ghost var before := nodes;
      nodes := Without(before, i);
      forall k: nat | k < |nodes| ensures Linked(k) {
        var j := if k < i then k else k + 1;
        assert old(Linked(j));
        assert nodes[k] == before[j] && before[j] != e;
      }
    }

    method PopFront() returns (e: Entry?)
      requires Valid()
      modifies this, nodes`next, nodes`prev, nodes`owner
      ensures Valid()
      ensures if old(nodes) == [] then e == null && nodes == [] else e == old(nodes)[0] && nodes == old(nodes)[1..]
      ensures e != null ==> e.Free()
    {
      e := head;
      if e == null { return; }
      assert Linked(0);
      if 1 < |nodes| { assert Linked(1); }
      head := e.next;
      if e.next != null { e.next.prev := null; }
      e.next := null;
      e.owner := null;
      if head == null { tail := null; }
      elems := elems - 1;
      nodes := nodes[1..];
      forall k: nat | k < |nodes| ensures Linked(k) {
        assert old(Linked(k + 1));
      }
    }

    method PopBack() returns (e: Entry?)
      requires Valid()
      modifies this, nodes`next, nodes`prev, nodes`owner
      ensures Valid()
      ensures if old(nodes) == [] then e == null && nodes == []
              else e == old(nodes)[|old(nodes)| - 1] && nodes == old(nodes)[..|old(nodes)| - 1]
      ensures e != null ==> e.Free()
    {
      e := tail;
      if e == null { return; }
      assert Linked(|nodes| - 1);
      if 1 < |nodes| { assert Linked(|nodes| - 2); }
      tail := e.prev;
      if e.prev != null { e.prev.next := null; }
      e.prev := null;
      e.owner := null;
      if tail == null { head := null; }
      elems := elems - 1;
      nodes := nodes[..|nodes| - 1];
      forall k: nat | k < |nodes| ensures Linked(k) {
        assert old(Linked(k));
      }
    }

    // The links of element j after e has been put behind element i.
    ghost predicate SplicedAt(before: seq<Entry>, i: nat, e: Entry, j: nat)
      requires j < |before|
      reads before`next, before`prev, before`owner
    {
      && before[j].owner == this
      && before[j].prev == (if j == 0 then null else if j == i + 1 then e else before[j - 1])
      && before[j].next == (if j == i then e else if j == |before| - 1 then null else before[j + 1])
    }

    lemma SplicedLinked(before: seq<Entry>, i: nat, e: Entry, k: nat)
      requires i < |before| && nodes == WithAt(before, i + 1, e) && k < |nodes|
      requires forall j: nat | j < |before| :: SplicedAt(before, i, e, j)
      requires e.owner == this && e.prev == before[i]
      requires e.next == if i == |before| - 1 then null else before[i + 1]
      ensures Linked(k)
    {
      if k <= i {
        assert SplicedAt(before, i, e, k);
      } else if k > i + 1 {
        assert SplicedAt(before, i, e, k - 1);
      }
    }

    lemma SplicedValid(before: seq<Entry>, i: nat, e: Entry)
      requires i < |before| && nodes == WithAt(before, i + 1, e) && e !in before
      requires forall j: nat | j < |before| :: SplicedAt(before, i, e, j)
      requires e.owner == this && e.prev == before[i]
      requires e.next == if i == |before| - 1 then null else before[i + 1]
      requires forall j, k | 0 <= j < k < |before| :: before[j] != before[k]
      requires elems == |before| + 1 && head == before[0]
      requires tail == if i == |before| - 1 then e else before[|before| - 1]
      ensures Valid()
    {
      hide Linked, SplicedAt;
      forall k: nat | k < |nodes| ensures Linked(k) { SplicedLinked(before, i, e, k); }
      forall j, k | 0 <= j < k < |nodes| ensures nodes[j] != nodes[k] {
        if j != i + 1 && k != i + 1 {
          assert before[if j <= i then j else j - 1] != before[if k <= i then k else k - 1];
        }
      }
    }

    // Puts e behind element i.
    method InsertAfter(prev: Entry, e: Entry, ghost i: nat)
      requires Valid() && e.Free() && i < |nodes| && nodes[i] == prev
      modifies this, e`next, e`prev, e`owner, nodes`next, nodes`prev
      ensures Valid() && nodes == WithAt(old(nodes), i + 1, e)
    {
      hide WithAt;
      Outside(e);
      assert Linked(i);
      if i + 1 < |nodes| { assert Linked(i + 1); }
      if prev.next != null {
        prev.next.prev := e;
        e.next := prev.next;
      }
      prev.next := e;
      e.prev := prev;
      e.owner := this;
      if prev == tail { tail := e; }
      elems := elems + 1;
      ghost var before := nodes;
      nodes := WithAt(before, i + 1, e);
      forall j: nat | j < |before| ensures SplicedAt(before, i, e, j) {
        assert old(Linked(j));
        assert before[j] in before;
      }
      SplicedValid(before, i, e);
    }
  }
}
