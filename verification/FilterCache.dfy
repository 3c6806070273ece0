// The filter cache as the program has it: the filter entries are an array that loads, stores,
// invalidations and context switches assign.
module FilterCacheObject {
  import opened Options
  import opened CoherenceControllers
  import opened FilterState

  // Looks through the ways of a set.
  method LookupWay(set_: seq<Slot>, a: nat) returns (r: Option<nat>)
    ensures r == Lookup(set_, a)
  {
    var i := 0;
    while i < |set_| && set_[i].addr != a
      invariant i <= |set_| && Lookup(set_, a) == LookupFrom(set_, a, i)
    {
      i := i + 1;
    }
    r := if i < |set_| then Some(i) else None;
  }

  // The candidate with the least score; the first one wins a tie.
  method RankCands(set_: seq<Slot>) returns (best: nat)
    requires |set_| > 0
    ensures best == Victim(set_)
    ensures best < |set_| && forall w | 0 <= w < |set_| :: Score(set_[best]) <= Score(set_[w])
    ensures forall w | 0 <= w < best :: Score(set_[best]) < Score(set_[w])
  {
    best := 0;
    var i := 1;
    while i < |set_|
      invariant best < i <= |set_| && Victim(set_) == RankFrom(set_, i, best)
      invariant forall w | 0 <= w < i :: Score(set_[best]) <= Score(set_[w])
      invariant forall w | 0 <= w < best :: Score(set_[best]) < Score(set_[w])
    {
      if Score(set_[i]) < Score(set_[best]) { best := i; }
      i := i + 1;
    }
  }

  class FilterCache {
    var sets: array<seq<Slot>>
    var filterArray: array<FilterEntry>
    var clock: nat
    var pending: Pending
    var fGETSHit: nat
    var fGETXHit: nat

    ghost function Cache(): L1
      reads this, sets
    {
      L1(sets[..], clock, pending)
    }

    ghost function Value(): Filtered
      reads this, sets, filterArray
    {
      Filtered(Cache(), filterArray[..])
    }

    ghost predicate Valid()
      reads this, sets, filterArray
    {
      filterArray.Length == sets.Length && Sized(Cache())
    }

    constructor (numSets: nat, ways: nat)
      requires numSets > 0 && ways > 0
      ensures Valid() && fresh(sets) && fresh(filterArray)
      ensures Cache() == L1(seq(numSets, _ => seq(ways, _ => Slot(0, I, 0))), 1, Nothing)
      ensures filterArray[..] == seq(numSets, _ => CLEARED)
      ensures fGETSHit == 0 && fGETXHit == 0
    {
      var empty := seq(ways, _ => Slot(0, I, 0));
      sets := new seq<Slot>[numSets](_ => empty);
      filterArray := new FilterEntry[numSets](_ => CLEARED);
      clock, pending, fGETSHit, fGETXHit := 1, Nothing, 0, 0;
    }

    // A load or store of line a: served by the filter, or begun in the cache.
    method Access(a: nat, load: bool) returns (fast: bool)
      requires Valid() && pending == Nothing
      modifies this, sets, filterArray
      ensures sets == old(sets) && filterArray == old(filterArray)
      ensures Valid() && Value() == AccessFiltered(old(Value()), a, load)
      ensures fast == FastHit(old(Value()), a, load)
      ensures fGETSHit + fGETXHit == old(fGETSHit + fGETXHit) + (if fast then 1 else 0)
    {
      var idx := a % sets.Length;
      fast := (if load then filterArray[idx].rd else filterArray[idx].wr) == a;
      if fast && load {
        fGETSHit := fGETSHit + 1;
      } else if fast {
        fGETXHit := fGETXHit + 1;
      } else {
        BeginAccess(a, load);
        if pending == Nothing { filterArray[idx] := FilterEntry(a, if load then -1 else a); }
      }
    }

    method BeginAccess(a: nat, load: bool)
      requires Valid() && pending == Nothing
      modifies this`clock, this`pending, sets
      ensures Valid() && Cache() == Begin(old(Cache()), a, load)
    {
      var x := a % sets.Length;
      var r := LookupWay(sets[x], a);
      match r
      case None =>
        var victim := RankCands(sets[x]);
        pending := Evicting(a, load, victim);
      case Some(w) =>
        var s := sets[x][w];
        if BottomHit(s.st, Type(load)) {
          s := s.(st := BottomHitState(s.st, Type(load)));
        } else {
          pending := Fetching(a, load, w);
        }
        sets[x] := sets[x][w := s.(stamp := clock)];
        clock := clock + 1;
    }

    // The victim has been written back.
    method FinishEviction()
      requires Valid() && pending.Evicting?
      modifies this`clock, this`pending, sets
      ensures Valid() && Value() == ApplyFiltered(old(Value()), Evicted)
    {
      var x, w := pending.addr % sets.Length, pending.way;
      sets[x] := sets[x][w := Slot(pending.addr, I, clock)];
      clock := clock + 1;
      pending := Fetching(pending.addr, pending.load, w);
    }

    // The line has arrived with state g; only now does the filter take it.
    method FinishFetch(g: State)
      requires Valid() && pending.Fetching? && BottomGrantAsserts(g, Type(pending.load))
      modifies this`pending, sets, filterArray
      ensures Valid() && Value() == ApplyFiltered(old(Value()), Fetched(g))
    {
      var x, w := pending.addr % sets.Length, pending.way;
      sets[x] := sets[x][w := sets[x][w].(st := g)];
      filterArray[x] := FilterEntry(pending.addr, if pending.load then -1 else pending.addr);
      pending := Nothing;
    }

    method Invalidate(a: nat, kind: InvType)
      requires Valid() && Enabled(Cache(), Inval(a, kind))
      modifies sets, filterArray
      ensures Valid() && Value() == ApplyFiltered(old(Value()), Inval(a, kind))
    {
      var idx := a % sets.Length;
      if filterArray[idx].rd == a { filterArray[idx] := DROPPED; }
      var r := LookupWay(sets[idx], a);
      var s := sets[idx][r.value];
      sets[idx] := sets[idx][r.value := s.(st := BottomInvalState(s.st, kind))];
    }

    method SwitchContext()
      requires Valid()
      modifies filterArray
      ensures Valid() && Value() == ApplyFiltered(old(Value()), ContextSwitch)
    {
      for i := 0 to filterArray.Length
        invariant forall k | 0 <= k < i :: filterArray[k] == CLEARED
      {
        filterArray[i] := CLEARED;
      }
    }
  }
}
