// What an ideal cache array means: its lines in the order of their last touch, and an index that
// is the inverse of the line addresses.
module LruOrder {

  // ----- The order of last touches -----

  // When line x was last touched; touches are numbered from 0.
  function LastTouch(touches: seq<nat>, x: nat): (t: int)
    ensures -1 <= t < |touches|
    ensures t >= 0 ==> touches[t] == x
    ensures forall k | t < k < |touches| :: touches[k] != x
  {
    if touches == [] then -1
    else if touches[|touches| - 1] == x then |touches| - 1
    else LastTouch(touches[..|touches| - 1], x)
  }

  // The most recently touched line first.
  ghost predicate ByLastTouch(order: seq<nat>, touches: seq<nat>) {
    forall i, j | 0 <= i < j < |order| :: LastTouch(touches, order[i]) > LastTouch(touches, order[j])
  }

  function MovedToFront<T>(order: seq<T>, i: nat): (r: seq<T>)
    requires i < |order|
    ensures |r| == |order|
    ensures forall k | 0 <= k < |r| :: r[k] == order[if k == 0 then i else if k <= i then k - 1 else k]
  {
    [order[i]] + order[..i] + order[i + 1..]
  }

  lemma TouchAppended(touches: seq<nat>, x: nat, y: nat)
    ensures LastTouch(touches + [x], y) == if y == x then |touches| else LastTouch(touches, y)
  {
    assert (touches + [x])[..|touches|] == touches;
  }

  // Moving a line to the front when it is touched keeps the order.
  lemma TouchOk(order: seq<nat>, touches: seq<nat>, i: nat)
    requires ByLastTouch(order, touches) && i < |order|
    ensures ByLastTouch(MovedToFront(order, i), touches + [order[i]])
  {
    var r, h := MovedToFront(order, i), touches + [order[i]];
    forall k, l | 0 <= k < l < |r| ensures LastTouch(h, r[k]) > LastTouch(h, r[l]) {
      var a, b := if k == 0 then i else if k <= i then k - 1 else k, if l <= i then l - 1 else l;
      assert r[k] == order[a] && r[l] == order[b] && b != i;
      TouchAppended(touches, order[i], order[a]);
      TouchAppended(touches, order[i], order[b]);
      assert b < i ==> LastTouch(touches, order[b]) > LastTouch(touches, order[i]);
    }
  }

  // A new line at the front.
  lemma PushOk(order: seq<nat>, touches: seq<nat>, x: nat)
    requires ByLastTouch(order, touches) && x !in order
    ensures ByLastTouch([x] + order, touches + [x])
  {
    var r := [x] + order;
    forall k, l | 0 <= k < l < |r| ensures LastTouch(touches + [x], r[k]) > LastTouch(touches + [x], r[l]) {
      assert r[l] == order[l - 1] && r[l] in order;
      TouchAppended(touches, x, r[k]);
      TouchAppended(touches, x, r[l]);
    }
  }

  // The last line is the one whose last touch is the longest ago.
  lemma LastIsLeastRecent(order: seq<nat>, touches: seq<nat>, x: nat)
    requires ByLastTouch(order, touches) && x in order
    ensures LastTouch(touches, order[|order| - 1]) <= LastTouch(touches, x)
    ensures LastTouch(touches, order[|order| - 1]) == LastTouch(touches, x) <==> x == order[|order| - 1]
  {
    var i :| 0 <= i < |order| && order[i] == x;
  }

  // ----- The index of addresses -----

  // The index holds exactly the addresses of the lines that are in use.
  ghost predicate Inverse(index: map<nat, nat>, addrs: seq<nat>, used: set<nat>) {
    && (forall id | id in used :: id < |addrs| && addrs[id] in index && index[addrs[id]] == id)
    && (forall a | a in index :: index[a] in used && index[a] < |addrs| && addrs[index[a]] == a)
    && (forall id: nat | id < |addrs| && id !in used :: addrs[id] == 0)
  }

  // The index after address a has been put in line id.
  function Replaced(index: map<nat, nat>, addrs: seq<nat>, a: nat, id: nat): map<nat, nat>
    requires id < |addrs|
  {
    (index - {addrs[id]})[a := id]
  }

  // An insertion keeps the index right exactly if the line is in use or address 0 is not indexed:
  // a line that has never been used has address 0, and inserting into it takes that address out of
  // the index. The address itself must not be in another line.
  lemma ReplacedIff(index: map<nat, nat>, addrs: seq<nat>, used: set<nat>, a: nat, id: nat)
    requires Inverse(index, addrs, used) && id < |addrs| && (a !in index || a == addrs[id])
    ensures Inverse(Replaced(index, addrs, a, id), addrs[id := a], used + {id}) <==> id in used || 0 !in index
  {
    var after, was := Replaced(index, addrs, a, id), addrs[id := a];
    if id !in used && 0 in index {
      var k := index[0];
      assert k in used + {id} && k != id && was[k] == 0 && (0 in after ==> after[0] == id);
    } else {
      forall k | k in used + {id} ensures was[k] in after && after[was[k]] == k {
        if k != id { assert addrs[k] in index && index[addrs[k]] == k; }
      }
    }
  }

  // Address 0 is lost when another address is put in a fresh line.
  lemma ZeroIsLost()
    ensures var addrs: seq<nat> := [0, 0];
            var first := Replaced(map[], addrs, 0, 0);
            0 in first && 0 !in Replaced(first, addrs[0 := 0], 5, 1)
  {
  }

  // Looking an address up finds the line that holds it.
  lemma IndexFinds(index: map<nat, nat>, addrs: seq<nat>, used: set<nat>, a: nat)
    requires Inverse(index, addrs, used)
    ensures a in index <==> exists id :: id in used && id < |addrs| && addrs[id] == a
    ensures a in index ==> forall id | id in used && addrs[id] == a :: id == index[a]
  {
    if a in index { assert index[a] in used; }
  }
}
