// The zcache array: lookup, the replacement walk, and insertion by relocation.
module ZCacheArray {
  import opened ZTable
  import opened ZWalk
  import opened Arithmetic

  class ZArray {
    const geo: Geometry
    const cands: nat
    const tags: array<Address>        // line id -> address
    const lookupArray: array<nat>     // position -> line id
    const swapArray: array<nat>       // the relocation chain that the last walk chose
    var swapArrayLen: nat
    ghost var home: seq<nat>          // line id -> position

    ghost predicate Shape()
      reads this
    {
      && geo.Ok() && cands >= geo.ways
      && tags.Length == lookupArray.Length == geo.NumLines()
      && swapArray.Length == cands / geo.ways + 2
      && lookupArray != swapArray && tags != swapArray && tags != lookupArray
    }

    ghost predicate Valid()
      reads this, tags, lookupArray
    {
      Shape() && TableOk(geo, tags[..], lookupArray[..], home)
    }

    // The cache as a finite map from addresses to line ids.
    ghost function Map(): map<Address, nat>
      reads this, tags
    {
      Contents(tags[..])
    }

    // The chain chosen by Preinsert is still good for inserting a in place of victim.
    ghost predicate Prepared(a: Address, victim: nat)
      reads this, tags, lookupArray, swapArray
    {
      && Shape() && swapArrayLen <= swapArray.Length && victim < tags.Length
      && SwapOk(geo, tags[..], lookupArray[..], swapArray[..swapArrayLen], a, victim)
    }

    constructor (g: Geometry, candidates: nat)
      requires g.Ok() && candidates >= g.ways
      ensures Valid() && geo == g && cands == candidates && Map() == map[]
      ensures fresh(tags) && fresh(lookupArray) && fresh(swapArray)
    {
      geo := g;
      cands := candidates;
      var n := g.NumLines();
      tags := new Address[n](_ => 0);
      lookupArray := new nat[n](i => i);  // a linear mapping, scrambled by later relocations
      swapArray := new nat[candidates / g.ways + 2];
      swapArrayLen := 0;
      home := seq(n, i => i);
      new;
      assert tags[..] == seq(n, _ => 0);
    }

    method Lookup(a: Address) returns (lineId: int)
      requires Valid() && a != 0
      ensures if a in Map() then lineId == Map()[a] && tags[lineId] == a
              else lineId == -1 && a !in tags[..]
    {
      ghost var t, l := tags[..], lookupArray[..];
      var w := 0;
      while w < geo.ways
        invariant 0 <= w <= geo.ways
        invariant forall v | 0 <= v < w ::
                    geo.Slot(v, a) < |l| && l[geo.Slot(v, a)] < |t| && t[l[geo.Slot(v, a)]] != a
      {
        SlotInRange(geo, w, a);
        var id := lookupArray[geo.Slot(w, a)];
        assert l[geo.Slot(w, a)] == id;
        if tags[id] == a {
          IndexUnique(t, id);
          return id;
        }
        w := w + 1;
      }
      NotFound(geo, t, l, home, a);
      lineId := -1;
    }

    // The first candidates: the positions of the incoming address itself.
    method Seeds(a: Address, c: array<WalkInfo>) returns (allValid: bool)
      requires Valid() && c.Length >= geo.ways
      modifies c
      ensures WalkOk(geo, tags[..], lookupArray[..], a, c[..], 0, geo.ways)
      ensures allValid <==> AllValid(tags[..], c[..], geo.ways)
    {
      ghost var t, l := tags[..], lookupArray[..];
      allValid := true;
      var w := 0;
      while w < geo.ways
        invariant 0 <= w <= geo.ways
        invariant forall k | 0 <= k < w ::
                    geo.Slot(k, a) < |l| && c[k] == WalkInfo(geo.Slot(k, a), l[geo.Slot(k, a)], -1)
        invariant allValid <==> forall k | 0 <= k < w :: t[l[geo.Slot(k, a)]] != 0
      {
        SlotInRange(geo, w, a);
        var pos := geo.Slot(w, a);
        var lineId := lookupArray[pos];
        assert l[pos] == lineId;
        c[w] := WalkInfo(pos, lineId, -1);
        allValid := allValid && tags[lineId] != 0;
        w := w + 1;
      }
      SeedsOk(geo, t, l, home, a, c[..]);
    }

    // Writes the positions of the address of line `id` as candidates from num on, skipping the one
    // position where the line itself sits.
    method FanOut(c: array<WalkInfo>, fringe: nat, num: nat, id: nat, ghost own: nat)
      returns (num1: nat, allValid: bool)
      requires geo.Ok() && id < tags.Length && own < geo.ways && num + geo.ways <= c.Length
      requires forall v | 0 <= v < geo.ways ::
                 && geo.Slot(v, tags[id]) < lookupArray.Length
                 && lookupArray[geo.Slot(v, tags[id])] < tags.Length
                 && (lookupArray[geo.Slot(v, tags[id])] == id <==> v == own)
      modifies c
      ensures num1 == num + geo.ways - 1
      ensures c[..num] == old(c[..num])
      ensures Fan(geo, lookupArray[..], c[..], fringe, num, own, tags[id])
      ensures allValid <==> forall v | 0 <= v < geo.ways :: tags[lookupArray[geo.Slot(v, tags[id])]] != 0
    {
      var addr := tags[id];
      ghost var before := c[..num];
      num1, allValid := num, true;
      var w := 0;
      while w < geo.ways
        invariant 0 <= w <= geo.ways
        invariant num1 == num + w - (if own < w then 1 else 0)
        invariant c[..num] == before
        invariant forall v | 0 <= v < w && v != own ::
                    c[num + v - (if own < v then 1 else 0)]
                      == WalkInfo(geo.Slot(v, addr), lookupArray[geo.Slot(v, addr)], fringe)
        invariant allValid <==> forall v | 0 <= v < w :: tags[lookupArray[geo.Slot(v, addr)]] != 0
      {
        var pos := geo.Slot(w, addr);
        var lineId := lookupArray[pos];
        c[num1] := WalkInfo(pos, lineId, fringe);
        allValid := allValid && tags[lineId] != 0;
        num1 := num1 + (if lineId != id then 1 else 0);
        w := w + 1;
      }
    }

    // Adds the other positions of the line of candidate `fringe`: exactly ways - 1 candidates.
    method Expand(a: Address, c: array<WalkInfo>, fringe: nat, num: nat) returns (num1: nat, allValid: bool)
      requires Valid() && WalkOk(geo, tags[..], lookupArray[..], a, c[..], fringe, num)
      requires num + geo.ways <= c.Length
      requires c[fringe].lineId < tags.Length && tags[c[fringe].lineId] != 0
      modifies c
      ensures WalkOk(geo, tags[..], lookupArray[..], a, c[..], fringe + 1, num1)
      ensures num1 == num + geo.ways - 1
      ensures allValid && old(AllValid(tags[..], c[..], num)) <==> AllValid(tags[..], c[..], num1)
    {
      ghost var t, l, before := tags[..], lookupArray[..], c[..];
      var id := c[fringe].lineId;
      ghost var own := OwnWay(geo, t, l, home, id);
      num1, allValid := FanOut(c, fringe, num, id, own);
      ExpandDone(geo, t, l, home, a, before, c[..], fringe, num, own, allValid);
    }

    // The breadth-first walk. It stops at the candidate limit or at the first empty line.
    method Walk(a: Address, c: array<WalkInfo>) returns (num: nat, ghost fringe: nat)
      requires Valid() && c.Length == cands + geo.ways
      modifies c
      ensures WalkOk(geo, tags[..], lookupArray[..], a, c[..], fringe, num)
      ensures num == geo.ways + fringe * (geo.ways - 1) && num < cands + geo.ways
      ensures num >= cands || !AllValid(tags[..], c[..], num)
    {
      var allValid := Seeds(a, c);
      num, fringe := geo.ways, 0;
      var fringeStart := 0;
      while num < cands && allValid
        invariant num < cands + geo.ways && fringeStart == fringe
        invariant num == geo.ways + fringe * (geo.ways - 1)
        invariant WalkOk(geo, tags[..], lookupArray[..], a, c[..], fringe, num)
        invariant allValid <==> AllValid(tags[..], c[..], num)
        decreases cands + geo.ways - num
      {
        assert c[fringe] == c[..][fringe];
        num, allValid := Expand(a, c, fringeStart, num);
        fringeStart, fringe := fringeStart + 1, fringe + 1;
      }
    }

    method FirstOccurrence(c: array<WalkInfo>, victim: nat, ghost pick: nat) returns (minIdx: nat)
      requires pick < c.Length && c[pick].lineId == victim
      ensures minIdx <= pick && c[minIdx].lineId == victim && First(c[..], minIdx)
    {
      minIdx := 0;
      while c[minIdx].lineId != victim
        invariant 0 <= minIdx <= pick
        invariant forall j | 0 <= j < minIdx :: c[j].lineId != victim
        decreases pick - minIdx
      {
        minIdx := minIdx + 1;
      }
    }

    // The line that the replacement policy ranks lowest, the first one if there are several.
    method RankCands(c: array<WalkInfo>, num: nat, score: nat -> nat) returns (best: nat)
      requires 0 < num <= c.Length
      ensures exists pick: nat :: pick < num && best == c[pick].lineId && IsBest(c[..], num, score, pick)
    {
      ghost var pick := 0;
      best := c[0].lineId;
      var bestScore := score(best);
      var i := 1;
      while i < num
        invariant 1 <= i <= num && pick < i && best == c[pick].lineId && bestScore == score(best)
        invariant IsBest(c[..], i, score, pick)
      {
        var s := score(c[i].lineId);
        if s < bestScore {
          best, pick, bestScore := c[i].lineId, i, s;
        }
        i := i + 1;
      }
    }

    // Chooses a victim for the incoming address a among the candidates of the walk, as the policy ranks them, and
    // records in swapArray the chain of positions that leads to it.
    method Preinsert(a: Address, score: nat -> nat)
      returns (victim: nat, wbLineAddr: Address, ghost walk: seq<WalkInfo>, ghost fringe: nat, ghost pick: nat)
      requires Valid()
      modifies swapArray, this`swapArrayLen
      ensures Valid() && Prepared(a, victim) && wbLineAddr == tags[victim]
      ensures 0 < swapArrayLen <= cands / geo.ways + 1
      ensures WalkOk(geo, tags[..], lookupArray[..], a, walk, fringe, |walk|)
      ensures |walk| >= cands || !AllValid(tags[..], walk, |walk|)
      ensures pick < |walk| && victim == walk[pick].lineId
      ensures IsBest(walk, if |walk| > cands then cands else |walk|, score, pick)
    {
      hide WalkOk, CandOk, SwapOk, TableOk, IsBest, First, AllValid;
      ghost var t, l := tags[..], lookupArray[..];
      var c := new WalkInfo[cands + geo.ways](_ => WalkInfo(0, 0, -1));
      var num;
      num, fringe := Walk(a, c);
      walk := c[..num];
      WalkDone(geo, t, l, a, c[..], fringe, num);
      num := if num > cands then cands else num;
      victim := RankCands(c, num, score);
      pick :| pick < num && victim == c[pick].lineId && IsBest(c[..], num, score, pick);
      var minIdx := FirstOccurrence(c, victim, pick);
      PickedDone(c[..], walk, num, score, pick, minIdx);
      ChainChosen(geo, t, l, a, walk, fringe, minIdx, cands);
      FillSwapArray(c, walk, minIdx);
      wbLineAddr := tags[victim];
    }

    // Walks from candidate k back to its seed.
    method FillSwapArray(c: array<WalkInfo>, ghost cs: seq<WalkInfo>, k: nat)
      requires k < |cs| <= c.Length && cs == c[..|cs|]
      requires forall i | 0 <= i < |cs| :: -1 <= cs[i].parentIdx < i
      requires |Chain(cs, k)| <= swapArray.Length
      modifies swapArray, this`swapArrayLen
      ensures swapArrayLen == |Chain(cs, k)| && swapArray[..swapArrayLen] == Chain(cs, k)
    {
      var idx: int := k;
      var swapIdx := 0;
      while idx >= 0
        invariant -1 <= idx <= k && swapIdx <= swapArray.Length
        invariant swapArray[..swapIdx] + Chain(cs, idx) == Chain(cs, k)
        decreases idx
      {
        assert |swapArray[..swapIdx] + Chain(cs, idx)| == swapIdx + |Chain(cs, idx)|;
        assert cs[idx] == c[idx];
        swapArray[swapIdx] := c[idx].pos;
        swapIdx := swapIdx + 1;
        idx := c[idx].parentIdx;
      }
      swapArrayLen := swapIdx;
    }

    // Moves the lines along the chain; the victim's line goes to the last position.
    method Relocate(victim: nat)
      requires lookupArray != swapArray && 0 < swapArrayLen <= swapArray.Length
      requires forall i | 0 <= i < swapArrayLen :: swapArray[i] < lookupArray.Length
      modifies lookupArray
      ensures lookupArray[..] == Relocated(old(lookupArray[..]), swapArray[..swapArrayLen], victim)
    {
      ghost var l, sw := lookupArray[..], swapArray[..swapArrayLen];
      var i := 0;
      while i < swapArrayLen - 1
        invariant 0 <= i < swapArrayLen
        invariant Relocated(lookupArray[..], sw[i..], victim) == Relocated(l, sw, victim)
      {
        ghost var now := lookupArray[..];
        assert sw[i..][0] == swapArray[i] && sw[i..][1] == swapArray[i + 1] && sw[i..][1..] == sw[i + 1..];
        lookupArray[swapArray[i]] := lookupArray[swapArray[i + 1]];
        assert lookupArray[..] == now[swapArray[i] := now[swapArray[i + 1]]];
        i := i + 1;
      }
      assert sw[i..] == [swapArray[swapArrayLen - 1]];
      lookupArray[swapArray[swapArrayLen - 1]] := victim;
    }

    // Moves the lines along the chain and writes the new address into the victim's line.
    method Postinsert(a: Address, victim: nat)
      requires Valid() && Prepared(a, victim) && a != 0 && a !in Map()
      modifies this`home, tags, lookupArray
      ensures Valid()
      ensures tags[..] == old(tags[..])[victim := a]
      ensures Map() == (old(Map()) - {old(tags[victim])})[a := victim]
    {
      ghost var t, l, sw := tags[..], lookupArray[..], swapArray[..swapArrayLen];
      assert a !in t by { assert a in t ==> a in Contents(t); }
      ghost var h := InsertOk(geo, t, l, home, sw, a, victim);
      ContentsUpdate(t, victim, a);
      assert forall i | 0 <= i < swapArrayLen :: sw[i] == swapArray[i];
      Relocate(victim);
      tags[victim] := a;
      assert tags[..] == t[victim := a];
      home := h;
    }
  }

  // Every candidate so far holds an address.
  ghost predicate AllValid(t: seq<Address>, c: seq<WalkInfo>, num: nat) {
    num <= |c| && forall k | 0 <= k < num :: c[k].lineId < |t| && t[c[k].lineId] != 0
  }

  // After expanding candidate `fringe`, whose line sits at way `own` of its address, the
  // candidates from num on are the other ways in order.
  ghost predicate Fan(g: Geometry, l: seq<nat>, c: seq<WalkInfo>, fringe: nat, num: nat, own: nat, addr: Address)
    requires g.Ok()
  {
    && own < g.ways && num + g.ways - 1 <= |c|
    && (forall v | 0 <= v < g.ways :: g.Slot(v, addr) < |l|)
    && (forall v | 0 <= v < g.ways && v != own ::
          c[num + v - (if own < v then 1 else 0)] == WalkInfo(g.Slot(v, addr), l[g.Slot(v, addr)], fringe))
  }

  function FanWay(k: nat, num: nat, own: nat): nat
    requires num <= k
  {
    if k - num < own then k - num else k - num + 1
  }

  lemma ExpandedOk(g: Geometry, t: seq<Address>, l: seq<nat>, home: seq<nat>, a: Address, before: seq<WalkInfo>,
                   c: seq<WalkInfo>, fringe: nat, num: nat, own: nat)
    requires TableOk(g, t, l, home) && WalkOk(g, t, l, a, before, fringe, num) && |c| == |before|
    requires forall k | 0 <= k < num :: c[k] == before[k]
    requires c[fringe].lineId < |t|
    requires Fan(g, l, c, fringe, num, own, t[c[fringe].lineId])
    requires forall v | 0 <= v < g.ways ::
               l[g.Slot(v, t[c[fringe].lineId])] == c[fringe].lineId <==> v == own
    ensures WalkOk(g, t, l, a, c, fringe + 1, num + g.ways - 1)
  {
    var id := c[fringe].lineId;
    var num1 := num + g.ways - 1;
    forall k | num <= k < num1 ensures c[k].parentIdx == fringe && CandOk(g, t, l, a, c, k) {
      var v := FanWay(k, num, own);
      assert c[k] == WalkInfo(g.Slot(v, t[id]), l[g.Slot(v, t[id])], fringe);
      assert g.OwnSlot(c[k].pos, t[id]);
    }
    forall p | 0 <= p < |l| && g.OwnSlot(p, t[id]) && l[p] != id
      ensures exists k :: g.ways <= k < num1 && c[k].parentIdx == fringe && c[k].pos == p
    {
      var v :| 0 <= v < g.ways && p == g.Slot(v, t[id]);
      assert c[num + v - (if own < v then 1 else 0)].pos == p;
    }
    assert Expanded(g, t, l, c, fringe, num1);
    WalkExtend(g, t, l, a, before, c, fringe, num, num1);
  }

  lemma ExpandedValid(g: Geometry, t: seq<Address>, l: seq<nat>, before: seq<WalkInfo>, c: seq<WalkInfo>,
                      fringe: nat, num: nat, own: nat, addr: Address)
    requires g.Ok() && Fan(g, l, c, fringe, num, own, addr) && num <= |before|
    requires forall k | 0 <= k < num :: c[k] == before[k]
    requires forall v | 0 <= v < g.ways :: l[g.Slot(v, addr)] < |t|
    requires t[l[g.Slot(own, addr)]] != 0
    ensures AllValid(t, before, num) && (forall v | 0 <= v < g.ways :: t[l[g.Slot(v, addr)]] != 0)
       <==> AllValid(t, c, num + g.ways - 1)
  {
    if AllValid(t, c, num + g.ways - 1) {
      forall v | 0 <= v < g.ways ensures t[l[g.Slot(v, addr)]] != 0 {
        if v != own {
          assert c[num + v - (if own < v then 1 else 0)].lineId == l[g.Slot(v, addr)];
        }
      }
    } else {
      FanConverse(g, t, l, c, fringe, num, own, addr);
    }
  }

  lemma FanConverse(g: Geometry, t: seq<Address>, l: seq<nat>, c: seq<WalkInfo>,
                    fringe: nat, num: nat, own: nat, addr: Address)
    requires g.Ok() && Fan(g, l, c, fringe, num, own, addr)
    ensures forall k | num <= k < num + g.ways - 1 ::
              FanWay(k, num, own) < g.ways && c[k].lineId == l[g.Slot(FanWay(k, num, own), addr)]
  {
    forall k | num <= k < num + g.ways - 1
      ensures FanWay(k, num, own) < g.ways && c[k].lineId == l[g.Slot(FanWay(k, num, own), addr)]
    {
      var v := FanWay(k, num, own);
      assert c[k] == WalkInfo(g.Slot(v, addr), l[g.Slot(v, addr)], fringe);
    }
  }

  lemma CandParents(g: Geometry, t: seq<Address>, l: seq<nat>, a: Address, cs: seq<WalkInfo>, fringe: nat)
    requires WalkOk(g, t, l, a, cs, fringe, |cs|)
    ensures forall i | 0 <= i < |cs| :: -1 <= cs[i].parentIdx < i
  {
    forall i | 0 <= i < |cs| ensures -1 <= cs[i].parentIdx < i {
      assert CandOk(g, t, l, a, cs, i);
    }
  }

  lemma ExpandDone(g: Geometry, t: seq<Address>, l: seq<nat>, home: seq<nat>, a: Address, before: seq<WalkInfo>,
                   c: seq<WalkInfo>, fringe: nat, num: nat, own: nat, allValid: bool)
    requires TableOk(g, t, l, home) && WalkOk(g, t, l, a, before, fringe, num) && |c| == |before|
    requires c[..num] == before[..num] && before[fringe].lineId < |t| && t[before[fringe].lineId] != 0
    requires Fan(g, l, c, fringe, num, own, t[before[fringe].lineId])
    requires forall v | 0 <= v < g.ways ::
               && l[g.Slot(v, t[before[fringe].lineId])] < |t|
               && (l[g.Slot(v, t[before[fringe].lineId])] == before[fringe].lineId <==> v == own)
    requires allValid <==> forall v | 0 <= v < g.ways :: t[l[g.Slot(v, t[before[fringe].lineId])]] != 0
    ensures WalkOk(g, t, l, a, c, fringe + 1, num + g.ways - 1)
    ensures allValid && AllValid(t, before, num) <==> AllValid(t, c, num + g.ways - 1)
  {
    forall k | 0 <= k < num ensures c[k] == before[k] {
      assert c[..num][k] == before[..num][k];
    }
    ExpandedOk(g, t, l, home, a, before, c, fringe, num, own);
    ExpandedValid(g, t, l, before, c, fringe, num, own, t[before[fringe].lineId]);
  }

  // An address that is at none of its positions is not in the cache.
  lemma NotFound(g: Geometry, t: seq<Address>, l: seq<nat>, home: seq<nat>, a: Address)
    requires TableOk(g, t, l, home) && a != 0
    requires forall v | 0 <= v < g.ways ::
               g.Slot(v, a) < |l| && l[g.Slot(v, a)] < |t| && t[l[g.Slot(v, a)]] != a
    ensures a !in t && a !in Contents(t)
  {
    if a in t {
      var w := OwnWay(g, t, l, home, IndexOf(t, a));
    }
  }

  // The swap array is long enough for every chain.
  lemma ChainFits(len: nat, ways: nat, k: nat, cands: nat)
    requires ways > 1 && k < cands && len > 0 && (len - 1) * ways <= k
    ensures len <= cands / ways + 1
  {
    var q := cands / ways;
    assert cands == q * ways + cands % ways;
    assert (q + 1) * ways == q * ways + ways;
    MulLess(len - 1, q + 1, ways);
  }

  // The candidates found, without the room behind them.
  lemma WalkDone(g: Geometry, t: seq<Address>, l: seq<nat>, a: Address, c: seq<WalkInfo>, fringe: nat, num: nat)
    requires WalkOk(g, t, l, a, c, fringe, num)
    ensures num <= |c| && WalkOk(g, t, l, a, c[..num], fringe, num)
    ensures AllValid(t, c, num) <==> AllValid(t, c[..num], num)
  {
    WalkPrefix(g, t, l, a, c, fringe, num);
    hide WalkOk;
  }

  lemma PickedDone(c: seq<WalkInfo>, walk: seq<WalkInfo>, num: nat, score: nat -> nat, pick: nat, k: nat)
    requires num <= |walk| <= |c| && walk == c[..|walk|] && IsBest(c, num, score, pick)
    requires pick < num && k <= pick && First(c, k)
    ensures IsBest(walk, num, score, pick) && First(walk, k)
  {
  }

  // The chain from the first occurrence of the line picked is good, and fits the swap array.
  lemma ChainChosen(g: Geometry, t: seq<Address>, l: seq<nat>, a: Address, cs: seq<WalkInfo>, fringe: nat, k: nat,
                    cands: nat)
    requires WalkOk(g, t, l, a, cs, fringe, |cs|) && k < |cs| && k < cands && First(cs, k)
    ensures forall i | 0 <= i < |cs| :: -1 <= cs[i].parentIdx < i
    ensures g.ways > 1 && 0 < |Chain(cs, k)| <= cands / g.ways + 1
    ensures cs[k].lineId < |t| && SwapOk(g, t, l, Chain(cs, k), a, cs[k].lineId)
  {
    CandParents(g, t, l, a, cs, fringe);
    assert CandOk(g, t, l, a, cs, k);
    hide CandOk, Expanded, SwapOk;
    ChainOk(g, t, l, a, cs, fringe, |cs|, k);
    ChainFits(|Chain(cs, k)|, g.ways, k, cands);
  }
}
