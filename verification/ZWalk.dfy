// The breadth-first replacement walk, as a property of the list of candidates it has built.
module ZWalk {
  import opened ZTable

  datatype WalkInfo = WalkInfo(pos: nat, lineId: nat, parentIdx: int)

  // Candidate k: where it is, which line is there, and which candidate it was reached from.
  ghost predicate CandOk(g: Geometry, tags: seq<Address>, lookup: seq<nat>, a: Address, cs: seq<WalkInfo>, k: nat)
    requires g.Ok() && k < |cs|
  {
    && cs[k].pos < |lookup| && cs[k].lineId == lookup[cs[k].pos] && cs[k].lineId < |tags|
    && (if k < g.ways then
          cs[k].parentIdx == -1 && cs[k].pos == g.Slot(k, a)
        else
          && 0 <= cs[k].parentIdx && g.ways + cs[k].parentIdx <= k
          && cs[k].lineId != cs[cs[k].parentIdx].lineId
          && cs[cs[k].parentIdx].lineId < |tags|
          && g.OwnSlot(cs[k].pos, tags[cs[cs[k].parentIdx].lineId]))
  }

  // Every other position of the line of candidate f has become a candidate with parent f.
  ghost predicate Expanded(g: Geometry, tags: seq<Address>, lookup: seq<nat>, cs: seq<WalkInfo>, f: nat, num: nat)
    requires g.Ok() && num <= |cs| && f < num
  {
    cs[f].lineId < |tags| &&
    forall p | 0 <= p < |lookup| && g.OwnSlot(p, tags[cs[f].lineId]) && lookup[p] != cs[f].lineId ::
      exists k :: g.ways <= k < num && cs[k].parentIdx == f && cs[k].pos == p
  }

  // The walk so far: num candidates, of which the first fringe have been expanded.
  ghost predicate WalkOk(g: Geometry, tags: seq<Address>, lookup: seq<nat>, a: Address, cs: seq<WalkInfo>,
                         fringe: nat, num: nat)
  {
    && g.Ok() && |tags| == |lookup|
    && g.ways + fringe <= num <= |cs|
    && (forall k | 0 <= k < num :: CandOk(g, tags, lookup, a, cs, k))
    && (forall k | g.ways <= k < num :: cs[k].parentIdx < fringe)
    && (forall j, k | g.ways <= j < k < num :: cs[j].parentIdx <= cs[k].parentIdx)
    && (forall f | 0 <= f < fringe :: Expanded(g, tags, lookup, cs, f, num))
  }

  // No earlier candidate is the same line.
  ghost predicate First(cs: seq<WalkInfo>, k: nat)
    requires k < |cs|
  {
    forall j | 0 <= j < k :: cs[j].lineId != cs[k].lineId
  }

  // Of the first num candidates, pick is the first one whose line has the least score.
  ghost predicate IsBest(cs: seq<WalkInfo>, num: nat, score: nat -> nat, pick: nat) {
    && pick < num <= |cs|
    && forall j | 0 <= j < num ::
         score(cs[pick].lineId) <= score(cs[j].lineId) && (j < pick ==> score(cs[pick].lineId) < score(cs[j].lineId))
  }

  // The parent of a first occurrence is a first occurrence, even when the walk loops.
  lemma ParentIsFirst(g: Geometry, tags: seq<Address>, lookup: seq<nat>, a: Address, cs: seq<WalkInfo>,
                      fringe: nat, num: nat, k: nat)
    requires WalkOk(g, tags, lookup, a, cs, fringe, num) && g.ways <= k < num && First(cs, k)
    ensures 0 <= cs[k].parentIdx < k && First(cs, cs[k].parentIdx)
  {
    assert CandOk(g, tags, lookup, a, cs, k);
    var f := cs[k].parentIdx;
    forall i | 0 <= i < num ensures cs[i].pos < |lookup| && cs[i].lineId == lookup[cs[i].pos] {
      assert CandOk(g, tags, lookup, a, cs, i);
    }
    forall j: nat | j < f ensures cs[j].lineId != cs[f].lineId {
      if cs[j].lineId == cs[f].lineId {
        assert Expanded(g, tags, lookup, cs, j, num);
        var i :| g.ways <= i < num && cs[i].parentIdx == j && cs[i].pos == cs[k].pos;
      }
    }
  }

  // The positions from candidate k up to its seed.
  ghost function Chain(cs: seq<WalkInfo>, k: int): seq<nat>
    requires k < |cs|
    requires forall i | 0 <= i < |cs| :: cs[i].parentIdx < i
    decreases if k < 0 then 0 else k + 1
  {
    if k < 0 then [] else [cs[k].pos] + Chain(cs, cs[k].parentIdx)
  }

  // The chain from a first occurrence is a good relocation chain and short enough for the
  // swap array.
  lemma {:induction false} ChainOk(g: Geometry, tags: seq<Address>, lookup: seq<nat>, a: Address,
                                   cs: seq<WalkInfo>, fringe: nat, num: nat, k: nat)
    requires WalkOk(g, tags, lookup, a, cs, fringe, num) && k < num == |cs| && First(cs, k)
    ensures forall i | 0 <= i < |cs| :: cs[i].parentIdx < i
    ensures SwapOk(g, tags, lookup, Chain(cs, k), a, cs[k].lineId)
    ensures (|Chain(cs, k)| - 1) * g.ways <= k
    ensures FromUpTo(cs, Chain(cs, k), k)
    decreases k
  {
    forall i | 0 <= i < |cs| ensures cs[i].parentIdx < i {
      assert CandOk(g, tags, lookup, a, cs, i);
    }
    assert CandOk(g, tags, lookup, a, cs, k);
    var c := Chain(cs, k);
    assert c[0] == cs[k].pos;
    if k < g.ways {
      assert c == [cs[k].pos];
      assert g.OwnSlot(cs[k].pos, a);
    } else {
      ParentIsFirst(g, tags, lookup, a, cs, fringe, num, k);
      var f := cs[k].parentIdx;
      ChainOk(g, tags, lookup, a, cs, fringe, num, f);
      ChainStep(g, tags, lookup, a, cs, k);
    }
  }

  lemma ChainStep(g: Geometry, tags: seq<Address>, lookup: seq<nat>, a: Address, cs: seq<WalkInfo>, k: nat)
    requires g.Ok() && |tags| == |lookup| && g.ways <= k < |cs| && First(cs, k)
    requires forall i | 0 <= i < |cs| :: CandOk(g, tags, lookup, a, cs, i)
    requires forall i | 0 <= i < |cs| :: cs[i].parentIdx < i
    requires var f := cs[k].parentIdx;
             && 0 <= f && SwapOk(g, tags, lookup, Chain(cs, f), a, cs[f].lineId)
             && (|Chain(cs, f)| - 1) * g.ways <= f
             && FromUpTo(cs, Chain(cs, f), f)
    ensures SwapOk(g, tags, lookup, Chain(cs, k), a, cs[k].lineId)
    ensures (|Chain(cs, k)| - 1) * g.ways <= k
    ensures FromUpTo(cs, Chain(cs, k), k)
  {
    hide SwapOk, FromUpTo, First, Geometry.OwnSlot, Geometry.Slot;
    var f := cs[k].parentIdx;
    var rest := Chain(cs, f);
    assert Chain(cs, k) == [cs[k].pos] + rest;
    hide Chain;
    NotInChain(g, tags, lookup, a, cs, rest, f, k);
    assert CandOk(g, tags, lookup, a, cs, k);
    assert CandOk(g, tags, lookup, a, cs, f);
    OneMore(|rest|, g.ways, f, k);
    SwapExtended(g, tags, lookup, rest, a, cs[f].lineId, cs[k].pos);
    ExtendedUpTo(cs, rest, f, k);
  }

  lemma OneMore(n: nat, ways: nat, f: nat, k: nat)
    requires (n - 1) * ways <= f && ways + f <= k
    ensures n * ways <= k
  {
    assert n * ways == (n - 1) * ways + ways;
  }

  // The positions are those of candidates up to k.
  ghost predicate FromUpTo(cs: seq<WalkInfo>, chain: seq<nat>, k: nat)
    requires k < |cs|
  {
    forall i | 0 <= i < |chain| :: exists j :: 0 <= j <= k && cs[j].pos == chain[i]
  }

  lemma NotInChain(g: Geometry, tags: seq<Address>, lookup: seq<nat>, a: Address, cs: seq<WalkInfo>,
                   rest: seq<nat>, f: nat, k: nat)
    requires g.Ok() && f < k < |cs| && First(cs, k) && FromUpTo(cs, rest, f)
    requires forall i | 0 <= i < |cs| :: CandOk(g, tags, lookup, a, cs, i)
    ensures forall i | 0 <= i < |rest| :: rest[i] != cs[k].pos
  {
    forall i | 0 <= i < |rest| ensures rest[i] != cs[k].pos {
      var j :| 0 <= j <= f && cs[j].pos == rest[i];
      assert CandOk(g, tags, lookup, a, cs, j) && CandOk(g, tags, lookup, a, cs, k);
    }
  }

  lemma ExtendedUpTo(cs: seq<WalkInfo>, rest: seq<nat>, f: nat, k: nat)
    requires f < k < |cs| && FromUpTo(cs, rest, f)
    ensures FromUpTo(cs, [cs[k].pos] + rest, k)
  {
    var c := [cs[k].pos] + rest;
    forall i | 0 <= i < |c| ensures exists j :: 0 <= j <= k && cs[j].pos == c[i] {
      if i == 0 { assert cs[k].pos == c[0]; } else {
        var j :| 0 <= j <= f && cs[j].pos == rest[i - 1];
        assert c[i] == rest[i - 1];
      }
    }
  }

  // One more position in front of a good relocation chain.
  lemma SwapExtended(g: Geometry, tags: seq<Address>, lookup: seq<nat>, swap: seq<nat>, a: Address, victim: nat, x: nat)
    requires g.Ok() && SwapOk(g, tags, lookup, swap, a, victim) && x < |lookup| && lookup[x] < |tags|
    requires victim < |tags| && g.OwnSlot(x, tags[victim]) && forall i | 0 <= i < |swap| :: swap[i] != x
    ensures SwapOk(g, tags, lookup, [x] + swap, a, lookup[x])
  {
    var c := [x] + swap;
    forall i | 0 <= i < |c| ensures c[i] < |lookup| && lookup[c[i]] < |tags| && (i > 0 ==> c[i] == swap[i - 1]) {}
  }

  // Only the candidates found so far matter.
  lemma WalkPrefix(g: Geometry, tags: seq<Address>, lookup: seq<nat>, a: Address, cs: seq<WalkInfo>,
                   fringe: nat, num: nat)
    requires WalkOk(g, tags, lookup, a, cs, fringe, num)
    ensures WalkOk(g, tags, lookup, a, cs[..num], fringe, num)
  {
    forall k | 0 <= k < num ensures CandOk(g, tags, lookup, a, cs[..num], k) {
      assert CandOk(g, tags, lookup, a, cs, k);
    }
    forall f | 0 <= f < fringe ensures Expanded(g, tags, lookup, cs[..num], f, num) {
      assert Expanded(g, tags, lookup, cs, f, num);
      forall p | 0 <= p < |lookup| && g.OwnSlot(p, tags[cs[f].lineId]) && lookup[p] != cs[f].lineId
        ensures exists k :: g.ways <= k < num && cs[..num][k].parentIdx == f && cs[..num][k].pos == p
      {
        var k :| g.ways <= k < num && cs[k].parentIdx == f && cs[k].pos == p;
        assert cs[..num][k].parentIdx == f;
      }
    }
  }

  // The seeds are a walk with nothing expanded.
  lemma SeedsOk(g: Geometry, tags: seq<Address>, lookup: seq<nat>, home: seq<nat>, a: Address, cs: seq<WalkInfo>)
    requires TableOk(g, tags, lookup, home) && g.ways <= |cs|
    requires forall k | 0 <= k < g.ways ::
               g.Slot(k, a) < |lookup| && cs[k] == WalkInfo(g.Slot(k, a), lookup[g.Slot(k, a)], -1)
    ensures WalkOk(g, tags, lookup, a, cs, 0, g.ways)
  {
  }

  // Candidates num..num1 have been added by expanding the next fringe candidate.
  lemma WalkExtend(g: Geometry, tags: seq<Address>, lookup: seq<nat>, a: Address, cs: seq<WalkInfo>,
                   next: seq<WalkInfo>, fringe: nat, num: nat, num1: nat)
    requires WalkOk(g, tags, lookup, a, cs, fringe, num) && |next| == |cs| && num < num1 <= |cs|
    requires forall k | 0 <= k < num :: next[k] == cs[k]
    requires forall k | num <= k < num1 :: next[k].parentIdx == fringe && CandOk(g, tags, lookup, a, next, k)
    requires Expanded(g, tags, lookup, next, fringe, num1)
    ensures WalkOk(g, tags, lookup, a, next, fringe + 1, num1)
  {
    forall k | 0 <= k < num ensures CandOk(g, tags, lookup, a, next, k) {
      assert CandOk(g, tags, lookup, a, cs, k);
    }
    forall f | 0 <= f < fringe ensures Expanded(g, tags, lookup, next, f, num1) {
      assert Expanded(g, tags, lookup, cs, f, num);
      forall p | 0 <= p < |lookup| && g.OwnSlot(p, tags[next[f].lineId]) && lookup[p] != next[f].lineId
        ensures exists k :: g.ways <= k < num1 && next[k].parentIdx == f && next[k].pos == p
      {
        var k :| g.ways <= k < num && cs[k].parentIdx == f && cs[k].pos == p;
        assert next[k].parentIdx == f;
      }
    }
  }

  // A line with an address is found at exactly one of the positions of its address.
  lemma OwnWay(g: Geometry, tags: seq<Address>, lookup: seq<nat>, home: seq<nat>, id: nat) returns (w: nat)
    requires TableOk(g, tags, lookup, home) && id < |tags| && tags[id] != 0
    ensures w < g.ways && home[id] == g.Slot(w, tags[id])
    ensures forall v | 0 <= v < g.ways ::
              && g.Slot(v, tags[id]) < |lookup| && lookup[g.Slot(v, tags[id])] < |tags|
              && (lookup[g.Slot(v, tags[id])] == id <==> v == w)
  {
    assert g.OwnSlot(home[id], tags[id]);
    w :| 0 <= w < g.ways && home[id] == g.Slot(w, tags[id]);
    forall v | 0 <= v < g.ways
      ensures g.Slot(v, tags[id]) < |lookup| && lookup[g.Slot(v, tags[id])] < |tags|
      ensures lookup[g.Slot(v, tags[id])] == id <==> v == w
    {
      SlotInRange(g, v, tags[id]);
      if v < w { SlotsDiffer(g, v, w, tags[id], tags[id]); }
      if w < v { SlotsDiffer(g, w, v, tags[id], tags[id]); }
    }
  }
}
