// The fully associative cache array with least-recently-used replacement.
module IdealLru {
  import opened Options
  import opened IntrusiveList
  import opened LruOrder

  function Ids(nodes: seq<Entry>): (r: seq<nat>)
    ensures |r| == |nodes| && forall i | 0 <= i < |r| :: r[i] == nodes[i].lineId
  {
    if nodes == [] then [] else Ids(nodes[..|nodes| - 1]) + [nodes[|nodes| - 1].lineId]
  }

  ghost function AddrsOf(es: seq<Entry>): (r: seq<nat>)
    reads es`lineAddr
    ensures |r| == |es| && forall i | 0 <= i < |r| :: r[i] == es[i].lineAddr
  {
    if es == [] then [] else AddrsOf(es[..|es| - 1]) + [es[|es| - 1].lineAddr]
  }

  // The lines 0 to n - 1, the last one first.
  function Descending(n: nat): (r: seq<nat>)
    ensures |r| == n && forall i | 0 <= i < n :: r[i] == n - 1 - i
  {
    if n == 0 then [] else [n - 1] + Descending(n - 1)
  }

  lemma MovedIds(nodes: seq<Entry>, i: nat)
    requires i < |nodes|
    ensures Ids(MovedToFront(nodes, i)) == MovedToFront(Ids(nodes), i)
  {
    hide Ids, MovedToFront;
    assert forall k | 0 <= k < |nodes| :: Ids(MovedToFront(nodes, i))[k] == MovedToFront(Ids(nodes), i)[k];
  }

  function Ascending(n: nat): (r: seq<nat>) {
    if n == 0 then [] else Ascending(n - 1) + [n - 1]
  }

  lemma {:induction false} DescendingOk(n: nat)
    ensures ByLastTouch(Descending(n), Ascending(n))
  {
    if n > 0 {
      DescendingOk(n - 1);
      PushOk(Descending(n - 1), Ascending(n - 1), n - 1);
    }
  }

  // Every line is pushed to the front once.
  method BuildList(numLines: nat) returns (list: InList, es: seq<Entry>)
    ensures fresh(list) && fresh(list.nodes) && fresh(es)
    ensures list.Valid() && |es| == |list.nodes| == numLines
    ensures forall k | 0 <= k < numLines :: list.nodes[k].lineId == numLines - 1 - k
    ensures forall k | 0 <= k < numLines :: es[k].lineId == k && es[k].lineAddr == 0 && es[k] in list.nodes
    ensures forall e | e in list.nodes :: e in es
  {
    list := new InList();
    es := [];
    for i := 0 to numLines
      invariant fresh(list) && fresh(list.nodes) && fresh(es) && |es| == i && |list.nodes| == i && list.Valid()
      invariant forall k | 0 <= k < i :: es[k] == list.nodes[i - 1 - k]
      invariant forall k | 0 <= k < i :: es[k].lineId == k && es[k].lineAddr == 0
    {
      var e := new Entry(i);
      list.PushFront(e);
      es := es + [e];
    }
    forall k | 0 <= k < numLines ensures list.nodes[k].lineId == numLines - 1 - k && list.nodes[k] in es {
      assert list.nodes[k] == es[numLines - 1 - k];
    }
    forall k | 0 <= k < numLines ensures es[k] in list.nodes { assert es[k] == list.nodes[numLines - 1 - k]; }
  }

  // The list consists of the entries, and entry i is line i.
  ghost predicate Holds(entries: seq<Entry>, nodes: seq<Entry>) {
    && (forall i | 0 <= i < |entries| :: entries[i].lineId == i && entries[i] in nodes)
    && (forall e | e in nodes :: e in entries)
    && |nodes| == |entries|
  }

  lemma HoldsMoved(entries: seq<Entry>, nodes: seq<Entry>, i: nat)
    requires Holds(entries, nodes) && i < |nodes|
    ensures Holds(entries, MovedToFront(nodes, i))
  {
    var after := MovedToFront(nodes, i);
    forall e | e in nodes ensures e in after {
      var k :| 0 <= k < |nodes| && nodes[k] == e;
      assert e == after[if k == i then 0 else if k < i then k + 1 else k];
    }
  }

  lemma Position(entries: seq<Entry>, nodes: seq<Entry>, id: nat) returns (i: nat)
    requires Holds(entries, nodes) && id < |entries|
    ensures i < |nodes| && nodes[i] == entries[id] && Ids(nodes)[i] == id
  {
    i :| 0 <= i < |nodes| && nodes[i] == entries[id];
  }

  // The two list operations of a touch.
  method MoveToFront(list: InList, e: Entry, ghost i: nat, ghost entries: seq<Entry>)
    requires list.Valid() && i < |list.nodes| && list.nodes[i] == e
    modifies list, list.nodes`next, list.nodes`prev, list.nodes`owner
    ensures list.Valid() && list.nodes == MovedToFront(old(list.nodes), i)
    ensures AddrsOf(entries) == old(AddrsOf(entries))
  {
    hide AddrsOf;
    list.Remove(e, i);
    list.PushFront(e);
  }

  method SetAddr(list: InList, entries: seq<Entry>, id: nat, a: nat)
    requires id < |entries| && list.Valid() && Holds(entries, list.nodes)
    modifies entries[id..id + 1]`lineAddr
    ensures AddrsOf(entries) == old(AddrsOf(entries))[id := a] && list.Valid()
  {
    hide InList.Linked, Ids;
    entries[id].lineAddr := a;
  }

  method Reindexed(index: map<nat, nat>, entries: seq<Entry>, a: nat, id: nat) returns (r: map<nat, nat>)
    requires id < |entries|
    ensures r == Replaced(index, AddrsOf(entries), a, id)
  {
    r := (index - {entries[id].lineAddr})[a := id];
  }

  // The index leads to lines only.
  ghost predicate Ranged(index: map<nat, nat>, n: nat) {
    forall a | a in index :: index[a] < n
  }

  lemma RangedReplaced(index: map<nat, nat>, addrs: seq<nat>, a: nat, id: nat)
    requires Ranged(index, |addrs|) && id < |addrs|
    ensures Ranged(Replaced(index, addrs, a, id), |addrs|)
  {
  }

  lemma AddrAt(entries: seq<Entry>, id: nat)
    requires id < |entries|
    ensures |AddrsOf(entries)| == |entries| && AddrsOf(entries)[id] == entries[id].lineAddr
  {
    hide AddrsOf;
  }

  // What BuildList has built.
  lemma BuiltHolds(nodes: seq<Entry>, es: seq<Entry>)
    requires |es| == |nodes|
    requires forall k | 0 <= k < |es| :: es[k].lineId == k && es[k] in nodes
    requires forall e | e in nodes :: e in es
    ensures Holds(es, nodes)
  {
  }

  lemma BuiltOrder(nodes: seq<Entry>)
    requires forall k | 0 <= k < |nodes| :: nodes[k].lineId == |nodes| - 1 - k
    ensures Ids(nodes) == Descending(|nodes|)
  {
    hide Ids, Descending;
  }

  lemma BuiltIndex(es: seq<Entry>)
    requires forall k | 0 <= k < |es| :: es[k].lineAddr == 0
    ensures Inverse(map[], AddrsOf(es), {}) && Ranged(map[], |es|)
  {
    hide AddrsOf;
  }

  class IdealLRUArray {
    const entries: seq<Entry>
    const lruList: InList
    var lineMap: map<nat, nat>
    ghost var touches: seq<nat>
    ghost var used: set<nat>

    // The lines in list order.
    ghost function Order(): seq<nat>
      reads lruList
    {
      Ids(lruList.nodes)
    }

    ghost function Addrs(): seq<nat>
      reads entries`lineAddr
    {
      AddrsOf(entries)
    }

    // The list is well-formed and holds every line once, in the order of last touches.
    ghost predicate Listed()
      reads this, lruList, lruList.nodes`next, lruList.nodes`prev, lruList.nodes`owner
    {
      && Holds(entries, lruList.nodes)
      && lruList.Valid()
      && ByLastTouch(Order(), touches)
      && Ranged(lineMap, |entries|)
    }

    // The index is the inverse of the addresses in use, too.
    ghost predicate Valid()
      reads this, lruList, lruList.nodes`next, lruList.nodes`prev, lruList.nodes`owner, entries`lineAddr
    {
      Listed() && Inverse(lineMap, Addrs(), used)
    }

    constructor (numLines: nat)
      ensures Valid() && |entries| == numLines && lineMap == map[] && used == {}
      ensures fresh(lruList) && fresh(lruList.nodes) && fresh(entries)
    {
      hide *;
      var list, es := BuildList(numLines);
      entries, lruList, lineMap, touches, used := es, list, map[], Ascending(numLines), {};
      new;
      DescendingOk(numLines);
      BuiltHolds(list.nodes, es);
      BuiltOrder(list.nodes);
      BuiltIndex(es);
      Whole();
      Indexed();
    }

    lemma Parts()
      requires Listed()
      ensures Holds(entries, lruList.nodes) && lruList.Valid()
      ensures ByLastTouch(Ids(lruList.nodes), touches) && Ranged(lineMap, |entries|)
      ensures Order() == Ids(lruList.nodes) && Addrs() == AddrsOf(entries)
    {
    }

    lemma Whole()
      requires Holds(entries, lruList.nodes) && lruList.Valid()
      requires ByLastTouch(Ids(lruList.nodes), touches) && Ranged(lineMap, |entries|)
      ensures Listed() && Order() == Ids(lruList.nodes) && Addrs() == AddrsOf(entries)
    {
    }

    lemma Indexed()
      ensures Valid() <==> Listed() && Inverse(lineMap, Addrs(), used)
      ensures |Addrs()| == |entries|
    {
    }

    // Line id goes to the front of the list.
    method Touch(id: nat) returns (ghost i: nat)
      requires Listed() && id < |entries|
      modifies this`touches, lruList, lruList.nodes`next, lruList.nodes`prev, lruList.nodes`owner
      ensures Listed() && touches == old(touches) + [id] && Addrs() == old(Addrs())
      ensures i < |old(Order())| && old(Order())[i] == id && Order() == MovedToFront(old(Order()), i)
    {
      hide *;
      Parts();
      i := Position(entries, lruList.nodes, id);
      ghost var nodes := lruList.nodes;
      TouchOk(Ids(nodes), touches, i);
      HoldsMoved(entries, nodes, i);
      MovedIds(nodes, i);
      touches := touches + [id];
      MoveToFront(lruList, entries[id], i, entries);
      Whole();
    }

    // The index is complete and right.
    lemma IndexRight(a: nat)
      requires Valid()
      ensures a in lineMap ==> lineMap[a] in used && lineMap[a] < |Addrs()| && Addrs()[lineMap[a]] == a
      ensures a !in lineMap ==> forall id | id in used :: id < |Addrs()| && Addrs()[id] != a
    {
      IndexFinds(lineMap, Addrs(), used, a);
    }

    lemma InRange(a: nat)
      requires Listed() && a in lineMap
      ensures lineMap[a] < |entries|
    {
    }

    // Looks an address up; on a hit the line may be touched. The line found is the one that holds the address.
    method Lookup(a: nat, updateReplacement: bool) returns (r: Option<nat>)
      requires Listed()
      modifies this`touches, lruList, lruList.nodes`next, lruList.nodes`prev, lruList.nodes`owner
      ensures Listed() && Addrs() == old(Addrs()) && |Addrs()| == |entries| && (old(Valid()) ==> Valid())
      ensures r == if a in lineMap then Some(lineMap[a]) else None
      ensures old(Valid()) && r.Some? ==> r.value in used && r.value < |Addrs()| && Addrs()[r.value] == a
      ensures old(Valid()) && r.None? ==> forall id | id in used :: id < |Addrs()| && Addrs()[id] != a
      ensures touches == old(touches) + (if r.Some? && updateReplacement then [r.value] else [])
    {
      hide *;
      Indexed();
      if Valid() { IndexRight(a); }
      if a !in lineMap { return None; }
      var id := lineMap[a];
      InRange(a);
      if updateReplacement { ghost var i := Touch(id); }
      Indexed();
      r := Some(id);
    }

    // The line to replace is the one whose last touch is the longest ago.
    method Preinsert() returns (wbLineAddr: nat, id: nat)
      requires Listed() && |entries| > 0
      ensures id < |entries| && wbLineAddr == entries[id].lineAddr
      ensures forall x: nat | x < |entries| && x != id :: LastTouch(touches, id) < LastTouch(touches, x)
    {
      var e := lruList.tail;
      wbLineAddr, id := e.lineAddr, e.lineId;
      ghost var order := Order();
      assert e == lruList.nodes[|lruList.nodes| - 1] && e in entries;
      forall x: nat | x < |entries| && x != id ensures LastTouch(touches, id) < LastTouch(touches, x) {
        var k :| 0 <= k < |lruList.nodes| && lruList.nodes[k] == entries[x];
        assert order[k] == x;
        LastIsLeastRecent(order, touches, x);
      }
    }

    // Puts address a in a line; it is in no other line, as the program asserts. The index stays right exactly
    // under the condition of ReplacedIff.
    method Postinsert(a: nat, id: nat)
      requires Listed() && id < |entries| && (a !in lineMap || a == entries[id].lineAddr)
      modifies this, lruList, lruList.nodes`next, lruList.nodes`prev, lruList.nodes`owner, entries`lineAddr
      ensures Listed() && touches == old(touches) + [id] && used == old(used) + {id}
      ensures lineMap == Replaced(old(lineMap), old(Addrs()), a, id) && Addrs() == old(Addrs())[id := a]
      ensures old(Valid()) ==> (Valid() <==> old(id in used || 0 !in lineMap))
    {
      hide *;
      UpdateMapping(a, id);
      ghost var i := Touch(id);
      Indexed();
    }

    // The address of line id and the index.
    method UpdateMapping(a: nat, id: nat)
      requires Listed() && id < |entries| && (a !in lineMap || a == entries[id].lineAddr)
      modifies this`lineMap, this`used, entries[id..id + 1]`lineAddr
      ensures Listed() && used == old(used) + {id}
      ensures lineMap == Replaced(old(lineMap), old(Addrs()), a, id) && Addrs() == old(Addrs())[id := a]
      ensures old(Valid()) ==> (Inverse(lineMap, Addrs(), used) <==> old(id in used || 0 !in lineMap))
    {
      hide *;
      Parts();
      Indexed();
      AddrAt(entries, id);
      RangedReplaced(lineMap, AddrsOf(entries), a, id);
      if Inverse(lineMap, AddrsOf(entries), used) { ReplacedIff(lineMap, AddrsOf(entries), used, a, id); }
      lineMap := Reindexed(lineMap, entries, a, id);
      used := used + {id};
      SetAddr(lruList, entries, id, a);
      Whole();
    }
  }
}
