// The tables of a zcache as values: which line sits at which physical position, and which
// positions an address may occupy.
module ZTable {

  // Address 0 means "no line".
  type Address = nat

  datatype Geometry = Geometry(numSets: nat, ways: nat, hash: (nat, Address) -> nat) {
    function NumLines(): nat {
      ways * numSets
    }

    // The position of address a in way w.
    function Slot(w: nat, a: Address): nat
      requires numSets > 0
    {
      w * numSets + hash(w, a) % numSets
    }

    ghost predicate Ok() {
      numSets > 0 && ways > 1
    }

    // pos is one of the positions of address a.
    ghost predicate OwnSlot(pos: nat, a: Address)
      requires numSets > 0
    {
      exists w :: 0 <= w < ways && pos == Slot(w, a)
    }
  }

  // Two rows of a table of rows of length n do not overlap.
  lemma RowsApart(w: nat, v: nat, n: nat, r: nat)
    requires w < v && r < n
    ensures w * n + r < v * n
  {
    assert (v - w - 1) * n >= 0;
    assert v * n == w * n + n + (v - w - 1) * n;
  }

  lemma SlotInRange(g: Geometry, w: nat, a: Address)
    requires g.Ok() && w < g.ways
    ensures g.Slot(w, a) < g.NumLines()
  {
    RowsApart(w, g.ways, g.numSets, g.hash(w, a) % g.numSets);
  }

  lemma SlotsDiffer(g: Geometry, w: nat, v: nat, a: Address, b: Address)
    requires g.Ok() && w < v
    ensures g.Slot(w, a) < g.Slot(v, b)
  {
    RowsApart(w, v, g.numSets, g.hash(w, a) % g.numSets);
  }

  // `home` is the inverse of `lookup`: positions and line ids are in bijection.
  ghost predicate Bijective(lookup: seq<nat>, home: seq<nat>) {
    && |lookup| == |home|
    && (forall p | 0 <= p < |lookup| :: lookup[p] < |lookup| && home[lookup[p]] == p)
    && (forall l | 0 <= l < |home| :: home[l] < |home| && lookup[home[l]] == l)
  }

  // Every line other than `hole` holding an address sits at a position of that address.
  ghost predicate Placed(g: Geometry, tags: seq<Address>, home: seq<nat>, hole: int)
    requires g.Ok() && |tags| == |home|
  {
    forall l | 0 <= l < |tags| && l != hole && tags[l] != 0 :: g.OwnSlot(home[l], tags[l])
  }

  ghost predicate NoDuplicates(tags: seq<Address>) {
    forall i, j | 0 <= i < j < |tags| && tags[i] != 0 :: tags[i] != tags[j]
  }

  ghost predicate TableOk(g: Geometry, tags: seq<Address>, lookup: seq<nat>, home: seq<nat>) {
    && g.Ok()
    && |tags| == |lookup| == g.NumLines()
    && Bijective(lookup, home)
    && Placed(g, tags, home, -1)
    && NoDuplicates(tags)
  }

  // ----- Abstraction: a finite map from addresses to line ids -----

  ghost function Contents(tags: seq<Address>): map<Address, nat> {
    map a | a in tags && a != 0 :: IndexOf(tags, a)
  }

  ghost function IndexOf(tags: seq<Address>, a: Address): (i: nat)
    requires a in tags
    ensures i < |tags| && tags[i] == a
  {
    var i :| 0 <= i < |tags| && tags[i] == a;
    i
  }

  lemma IndexUnique(tags: seq<Address>, i: nat)
    requires NoDuplicates(tags) && i < |tags| && tags[i] != 0
    ensures tags[i] in Contents(tags) && Contents(tags)[tags[i]] == i
  {
    assert tags[i] in tags;
    var j := IndexOf(tags, tags[i]);
    if j < i { assert false; }
  }

  // Writing an absent address into line l drops the address that was there and adds the new one.
  lemma ContentsUpdate(tags: seq<Address>, l: nat, a: Address)
    requires NoDuplicates(tags) && l < |tags| && a != 0 && a !in tags
    ensures NoDuplicates(tags[l := a])
    ensures Contents(tags[l := a]) == (Contents(tags) - {tags[l]})[a := l]
  {
    var after := tags[l := a];
    forall i, j | 0 <= i < j < |after| && after[i] != 0 ensures after[i] != after[j] {
      if i == l { assert tags[j] in tags; } else if j == l { assert tags[i] in tags; }
    }
    var lhs, rhs := Contents(after), (Contents(tags) - {tags[l]})[a := l];
    forall b: Address ensures (b in lhs <==> b in rhs) && (b in lhs ==> lhs[b] == rhs[b]) {
      KeyUpdate(tags, l, a, b);
    }
    assert lhs == rhs;
  }

  lemma KeyUpdate(tags: seq<Address>, l: nat, a: Address, b: Address)
    requires l < |tags| && NoDuplicates(tags) && NoDuplicates(tags[l := a]) && a != 0 && a !in tags
    ensures var lhs, rhs := Contents(tags[l := a]), (Contents(tags) - {tags[l]})[a := l];
            (b in lhs <==> b in rhs) && (b in lhs ==> lhs[b] == rhs[b])
  {
    var after := tags[l := a];
    assert after[l] == a;
    if b in tags && b != 0 {
      var i := IndexOf(tags, b);
      IndexUnique(tags, i);
      if i != l {
        assert after[i] == b;
        assert b in after;
        IndexUnique(after, i);
      }
    }
    if b in after && b != 0 {
      var i := IndexOf(after, b);
      IndexUnique(after, i);
      if i != l {
        IndexUnique(tags, i);
        if tags[l] == b { IndexUnique(tags, l); }
      }
    }
  }

  // ----- Relocation -----

  // swap[0] holds the victim, the last position belongs to the incoming address, and every line
  // in between can move one step towards the victim.
  ghost predicate SwapOk(g: Geometry, tags: seq<Address>, lookup: seq<nat>, swap: seq<nat>, a: Address, victim: nat)
    requires g.Ok()
  {
    && |swap| > 0
    && (forall i | 0 <= i < |swap| :: swap[i] < |lookup| && lookup[swap[i]] < |tags|)
    && (forall i, j | 0 <= i < j < |swap| :: swap[i] != swap[j])
    && lookup[swap[0]] == victim
    && g.OwnSlot(swap[|swap| - 1], a)
    && (forall i | 0 <= i < |swap| - 1 :: g.OwnSlot(swap[i], tags[lookup[swap[i + 1]]]))
  }

  // The table after the chain of relocations.
  ghost function Relocated(lookup: seq<nat>, swap: seq<nat>, victim: nat): (r: seq<nat>)
    requires |swap| > 0 && forall i | 0 <= i < |swap| :: swap[i] < |lookup|
    ensures |r| == |lookup|
    decreases |swap|
  {
    if |swap| == 1 then lookup[swap[0] := victim]
    else Relocated(lookup[swap[0] := lookup[swap[1]]], swap[1..], victim)
  }

  // Exchanging the lines at two positions keeps the bijection.
  lemma Exchange(lookup: seq<nat>, home: seq<nat>, p: nat, q: nat)
    requires Bijective(lookup, home) && p < |lookup| && q < |lookup|
    ensures Bijective(lookup[p := lookup[q]][q := lookup[p]], home[lookup[q] := p][lookup[p] := q])
  {
  }

  // The relocations are a rotation: with the victim put back at swap[0], positions and lines are
  // still in bijection, and every line but the victim ends at a position of its own address.
  lemma {:induction false} RelocatedOk(g: Geometry, tags: seq<Address>, lookup: seq<nat>, home: seq<nat>,
                                       swap: seq<nat>, a: Address, victim: nat)
    returns (home': seq<nat>)
    requires g.Ok() && |tags| == |lookup| && |swap| > 0 && swap[0] < |lookup| && victim < |tags|
    requires SwapOk(g, tags, lookup[swap[0] := victim], swap, a, victim)
    requires Bijective(lookup[swap[0] := victim], home) && Placed(g, tags, home, victim)
    ensures Bijective(Relocated(lookup, swap, victim), home')
    ensures Placed(g, tags, home', victim)
    ensures home'[victim] == swap[|swap| - 1]
    decreases |swap|
  {
    if |swap| == 1 {
      home' := home;
    } else {
      var p, q := swap[0], swap[1];
      assert swap[1..][0] == q && swap[1..][|swap| - 2] == swap[|swap| - 1];
      NextInTable(g, tags, lookup, swap, a, victim);
      NextChain(g, tags, lookup, swap, a, victim);
      NextBijective(lookup, home, p, q, victim);
      NextPlaced(g, tags, lookup, home, swap, a, victim);
      hide SwapOk, Bijective, Placed;
      home' := RelocatedOk(g, tags, lookup[p := lookup[q]], home[lookup[q] := p][victim := q], swap[1..], a, victim);
    }
  }

  lemma NextInTable(g: Geometry, tags: seq<Address>, lookup: seq<nat>, swap: seq<nat>, a: Address, victim: nat)
    requires g.Ok() && |tags| == |lookup| && |swap| > 1 && swap[0] < |lookup|
    requires SwapOk(g, tags, lookup[swap[0] := victim], swap, a, victim)
    ensures swap[1] < |lookup| && swap[1] != swap[0] && lookup[swap[1]] < |tags|
  {
    hide Geometry.OwnSlot;
  }

  // The line at q has moved to p, its own position; q is the hole now.
  lemma NextBijective(lookup: seq<nat>, home: seq<nat>, p: nat, q: nat, victim: nat)
    requires p < |lookup| && q < |lookup| && p != q && Bijective(lookup[p := victim], home)
    ensures victim < |home| && lookup[q] < |home|
    ensures Bijective(lookup[p := lookup[q]][q := victim], home[lookup[q] := p][victim := q])
  {
    var virtual := lookup[p := victim];
    assert virtual[p] == victim && virtual[q] == lookup[q];
    Exchange(virtual, home, p, q);
    hide Bijective;
    assert lookup[p := lookup[q]][q := victim] == virtual[p := virtual[q]][q := virtual[p]];
  }

  lemma NextPlaced(g: Geometry, tags: seq<Address>, lookup: seq<nat>, home: seq<nat>, swap: seq<nat>, a: Address,
                   victim: nat)
    requires g.Ok() && |tags| == |lookup| == |home| && |swap| > 1 && swap[0] < |lookup| && victim < |tags|
    requires SwapOk(g, tags, lookup[swap[0] := victim], swap, a, victim) && Placed(g, tags, home, victim)
    requires swap[1] < |lookup| && swap[1] != swap[0] && lookup[swap[1]] < |tags|
    ensures Placed(g, tags, home[lookup[swap[1]] := swap[0]][victim := swap[1]], victim)
  {
    assert g.OwnSlot(swap[0], tags[lookup[swap[0] := victim][swap[1]]]);
    hide Geometry.OwnSlot, SwapOk;
  }

  lemma NextChain(g: Geometry, tags: seq<Address>, lookup: seq<nat>, swap: seq<nat>, a: Address, victim: nat)
    requires g.Ok() && |tags| == |lookup| && |swap| > 1 && swap[0] < |lookup| && victim < |tags|
    requires swap[1] < |lookup| && swap[1] != swap[0]
    requires SwapOk(g, tags, lookup[swap[0] := victim], swap, a, victim)
    ensures SwapOk(g, tags, lookup[swap[0] := lookup[swap[1]]][swap[1] := victim], swap[1..], a, victim)
  {
    hide Geometry.OwnSlot;
    var before, after := lookup[swap[0] := victim], lookup[swap[0] := lookup[swap[1]]][swap[1] := victim];
    var rest := swap[1..];
    forall i | 0 <= i < |rest|
      ensures rest[i] == swap[i + 1] && after[rest[i]] == if i == 0 then victim else before[rest[i]]
    {
    }
    forall i | 0 <= i < |rest| - 1 ensures g.OwnSlot(rest[i], tags[after[rest[i + 1]]]) {
      assert rest[i] == swap[i + 1] && rest[i + 1] == swap[i + 2];
    }
  }

  // Inserting `a` through a good swap chain gives a good table again.
  lemma InsertOk(g: Geometry, tags: seq<Address>, lookup: seq<nat>, home: seq<nat>,
                 swap: seq<nat>, a: Address, victim: nat) returns (home': seq<nat>)
    requires TableOk(g, tags, lookup, home) && victim < |tags|
    requires SwapOk(g, tags, lookup, swap, a, victim) && a != 0 && a !in tags
    ensures TableOk(g, tags[victim := a], Relocated(lookup, swap, victim), home')
  {
    assert lookup[swap[0] := victim] == lookup;
    home' := RelocatedOk(g, tags, lookup, home, swap, a, victim);
    ContentsUpdate(tags, victim, a);
  }
}
