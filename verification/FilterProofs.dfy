// The filter is transparent: with and without it, the cache goes through the same coherence states,
// hits, misses and victims.
module FilterProofs {
  import opened CoherenceControllers
  import opened FilterState

  // ----- Invariants of the cache -----

  ghost predicate SetOk(set_: seq<Slot>, clock: nat) {
    && (forall w | 0 <= w < |set_| :: set_[w].stamp < clock)
    && (forall w | 0 <= w < |set_| && set_[w].st != I :: set_[w].stamp >= 1 && set_[w].addr > 0)
    && (forall v, w | 0 <= v < w < |set_| && set_[v].addr == set_[w].addr :: set_[v].addr == 0)
  }

  // Way w is the most recently used one of its set.
  ghost predicate Newest(set_: seq<Slot>, w: nat) {
    w < |set_| && set_[w].stamp >= 1 && forall v | 0 <= v < |set_| && v != w :: set_[v].stamp < set_[w].stamp
  }

  ghost predicate PendingOk(l: L1)
    requires Sized(l)
  {
    match l.pending
    case Nothing => true
    case Evicting(a, _, _) => a > 0 && Lookup(l.sets[SetOf(l, a)], a).None?
    case Fetching(a, _, w) => a > 0 && l.sets[SetOf(l, a)][w].addr == a && Newest(l.sets[SetOf(l, a)], w)
  }

  ghost predicate CacheOk(l: L1) {
    Sized(l) && l.clock >= 1 && (forall x | 0 <= x < |l.sets| :: SetOk(l.sets[x], l.clock)) && PendingOk(l)
  }

  // ----- The filter tells the truth -----

  // A line in the filter is in the cache, valid, and the most recently used of its set; if stores
  // may hit it, it is modified.
  ghost predicate EntryOk(set_: seq<Slot>, e: FilterEntry) {
    && (e.rd > 0 ==> exists w :: Truth(set_, e, w))
    && (e.wr > 0 ==> e.wr == e.rd)
  }

  ghost predicate Truth(set_: seq<Slot>, e: FilterEntry, w: int) {
    w >= 0 && Newest(set_, w) && set_[w].addr == e.rd && set_[w].st != I && (e.wr > 0 ==> set_[w].st == M)
  }

  // While an access is in progress, the entry of its set is about to be replaced.
  ghost predicate FilterOk(f: Filtered) {
    && |f.filter| == |f.l1.sets| && Sized(f.l1)
    && forall x | 0 <= x < |f.filter| && (f.l1.pending == Nothing || x != SetOf(f.l1, f.l1.pending.addr)) ::
         EntryOk(f.l1.sets[x], f.filter[x])
  }

  // ----- Same but for the exact time stamps -----

  ghost predicate SameSet(s: seq<Slot>, t: seq<Slot>) {
    && |s| == |t|
    && (forall w | 0 <= w < |s| :: s[w].addr == t[w].addr && s[w].st == t[w].st)
    && (forall v, w | 0 <= v < |s| && 0 <= w < |s| :: s[v].stamp < s[w].stamp <==> t[v].stamp < t[w].stamp)
  }

  ghost predicate Same(p: L1, l: L1) {
    |p.sets| == |l.sets| && p.pending == l.pending && forall x | 0 <= x < |p.sets| :: SameSet(p.sets[x], l.sets[x])
  }

  ghost predicate OneWay(l: L1) {
    forall x | 0 <= x < |l.sets| :: |l.sets[x]| == 1
  }

  // ----- One set -----

  lemma {:induction false} SameLookup(s: seq<Slot>, t: seq<Slot>, a: nat, i: nat)
    requires SameSet(s, t) && i <= |s|
    ensures LookupFrom(s, a, i) == LookupFrom(t, a, i)
    decreases |s| - i
  {
    if i < |s| { SameLookup(s, t, a, i + 1); }
  }

  // Before the clock has reached 2^32, nothing is truncated.
  lemma FullScore(s: seq<Slot>, c: nat, w: nat)
    requires SetOk(s, c) && w < |s| && c <= WRAP
    ensures Score(s[w]) == if s[w].st != I then s[w].stamp else 0
  {
  }

  // Victims depend only on the order of the time stamps, and with a single way not even on that.
  lemma {:induction false} SameRank(s: seq<Slot>, t: seq<Slot>, c: nat, d: nat, i: nat, best: nat)
    requires SameSet(s, t) && SetOk(s, c) && SetOk(t, d) && best < i <= |s|
    requires |s| == 1 || (c <= WRAP && d <= WRAP)
    ensures RankFrom(s, i, best) == RankFrom(t, i, best)
    decreases |s| - i
  {
    if i < |s| {
      FullScore(s, c, i);
      FullScore(s, c, best);
      FullScore(t, d, i);
      FullScore(t, d, best);
      hide Score;
      SameRank(s, t, c, d, i + 1, if Score(s[i]) < Score(s[best]) then i else best);
    }
  }

  // Touching a way on both sides keeps the order, and makes the way the newest.
  lemma TouchBoth(s: seq<Slot>, t: seq<Slot>, w: nat, c: nat, d: nat, sl: Slot, tl: Slot)
    requires SameSet(s, t) && SetOk(s, c) && SetOk(t, d) && w < |s|
    requires sl.stamp == c && tl.stamp == d && sl.addr == tl.addr && sl.st == tl.st
    ensures SameSet(s[w := sl], t[w := tl])
  {
  }

  // Touching the newest way on one side only keeps the order, too.
  lemma TouchNewest(s: seq<Slot>, t: seq<Slot>, w: nat, c: nat)
    requires SameSet(s, t) && SetOk(s, c) && w < |s| && Newest(t, w)
    ensures SameSet(s[w := s[w].(stamp := c)], t)
  {
  }

  lemma TouchedOk(s: seq<Slot>, w: nat, c: nat, sl: Slot)
    requires SetOk(s, c) && w < |s| && c >= 1 && sl.stamp == c && sl.addr > 0
    requires forall v | 0 <= v < |s| && v != w :: s[v].addr != sl.addr
    ensures SetOk(s[w := sl], c + 1) && Newest(s[w := sl], w)
  {
  }

  lemma StateSame(s: seq<Slot>, t: seq<Slot>, w: nat, st: State)
    requires SameSet(s, t) && w < |s|
    ensures SameSet(s[w := s[w].(st := st)], t[w := t[w].(st := st)])
  {
  }

  lemma StateOk(s: seq<Slot>, w: nat, c: nat, st: State)
    requires SetOk(s, c) && w < |s| && (s[w].st != I || st == I || (s[w].stamp >= 1 && s[w].addr > 0))
    ensures SetOk(s[w := s[w].(st := st)], c)
  {
  }

  lemma Grows(s: seq<Slot>, c: nat)
    requires SetOk(s, c)
    ensures SetOk(s, c + 1)
  {
  }

  // ----- Each operation keeps the cache well-formed -----

  lemma BeginOk(l: L1, a: nat, load: bool)
    requires CacheOk(l) && l.pending == Nothing && a > 0
    ensures CacheOk(Begin(l, a, load))
    ensures var x, l1 := SetOf(l, a), Begin(l, a, load);
            l1.pending == Nothing ==> exists w :: Truth(l1.sets[x], EntryFor(a, load), w)
  {
    hide SetOk;
    var x := SetOf(l, a);
    forall y | 0 <= y < |l.sets| ensures SetOk(l.sets[y], l.clock + 1) { Grows(l.sets[y], l.clock); }
    match Lookup(l.sets[x], a)
    case None =>
    case Some(w) =>
      OtherAddrs(l.sets[x], l.clock, w);
      var l1 := Begin(l, a, load);
      TouchedOk(l.sets[x], w, l.clock, l1.sets[x][w]);
      if l1.pending == Nothing { assert Truth(l1.sets[x], EntryFor(a, load), w); }
  }

  lemma OtherAddrs(s: seq<Slot>, c: nat, w: nat)
    requires SetOk(s, c) && w < |s| && s[w].addr > 0
    ensures forall v | 0 <= v < |s| && v != w :: s[v].addr != s[w].addr
  {
    forall v | 0 <= v < |s| && v != w ensures s[v].addr != s[w].addr {
      if v < w { assert s[v].addr != s[w].addr; } else { assert s[w].addr != s[v].addr; }
    }
  }

  lemma EndEvictionOk(l: L1)
    requires CacheOk(l) && l.pending.Evicting?
    ensures CacheOk(EndEviction(l))
  {
    hide SetOk;
    var p := l.pending;
    var x := SetOf(l, p.addr);
    forall y | 0 <= y < |l.sets| ensures SetOk(l.sets[y], l.clock + 1) { Grows(l.sets[y], l.clock); }
    TouchedOk(l.sets[x], p.way, l.clock, Slot(p.addr, I, l.clock));
  }

  lemma EndFetchOk(l: L1, g: State)
    requires CacheOk(l) && l.pending.Fetching?
    ensures CacheOk(EndFetch(l, g)) && Newest(EndFetch(l, g).sets[SetOf(l, l.pending.addr)], l.pending.way)
  {
    StateOk(l.sets[SetOf(l, l.pending.addr)], l.pending.way, l.clock, g);
    hide SetOk;
  }

  lemma InvalidatedOk(l: L1, a: nat, kind: InvType)
    requires CacheOk(l) && Enabled(l, Inval(a, kind))
    ensures CacheOk(Invalidated(l, a, kind))
  {
    var x := SetOf(l, a);
    var w := Lookup(l.sets[x], a).value;
    StateOk(l.sets[x], w, l.clock, BottomInvalState(l.sets[x][w].st, kind));
    hide SetOk;
    SameAddrs(l.sets[x], w, BottomInvalState(l.sets[x][w].st, kind));
  }

  // A change of state changes neither lookups nor the order of use.
  lemma SameAddrs(s: seq<Slot>, w: nat, st: State)
    requires w < |s|
    ensures forall a: nat :: Lookup(s, a).None? ==> Lookup(s[w := s[w].(st := st)], a).None?
    ensures forall v :: Newest(s, v) ==> Newest(s[w := s[w].(st := st)], v)
  {
    var t := s[w := s[w].(st := st)];
    forall a: nat | Lookup(s, a).None? ensures Lookup(t, a).None? {
      forall k | 0 <= k < |t| ensures t[k].addr != a { assert s[k].addr != a; }
    }
  }

  lemma StepCacheOk(l: L1, step: Step)
    requires CacheOk(l) && Enabled(l, step)
    ensures CacheOk(Apply(l, step))
  {
    hide CacheOk, Begin, EndEviction, EndFetch, Invalidated;
    match step
    case Core(a, load) => BeginOk(l, a, load);
    case Evicted => EndEvictionOk(l);
    case Fetched(g) => EndFetchOk(l, g);
    case Inval(a, kind) => InvalidatedOk(l, a, kind);
    case ContextSwitch =>
  }

  // ----- Each operation does the same on both sides -----

  lemma BeginSame(p: L1, l: L1, a: nat, load: bool)
    requires Same(p, l) && CacheOk(p) && CacheOk(l) && l.pending == Nothing && a > 0
    requires OneWay(l) || (p.clock <= WRAP && l.clock <= WRAP)
    ensures Outcomes(p, a, load) == Outcomes(l, a, load) && Same(Begin(p, a, load), Begin(l, a, load))
  {
    var x := SetOf(l, a);
    var s, t := p.sets[x], l.sets[x];
    SameLookup(s, t, a, 0);
    match Lookup(t, a)
    case None => SameRank(s, t, p.clock, l.clock, 1, 0);
    case Some(w) =>
      TouchBoth(s, t, w, p.clock, l.clock, Begin(p, a, load).sets[x][w], Begin(l, a, load).sets[x][w]);
      hide SetOk, SameSet;
  }

  lemma EndEvictionSame(p: L1, l: L1)
    requires Same(p, l) && CacheOk(p) && CacheOk(l) && l.pending.Evicting?
    ensures Same(EndEviction(p), EndEviction(l))
  {
    var x, w, a := SetOf(l, l.pending.addr), l.pending.way, l.pending.addr;
    TouchBoth(p.sets[x], l.sets[x], w, p.clock, l.clock, Slot(a, I, p.clock), Slot(a, I, l.clock));
    hide SetOk, SameSet;
  }

  lemma EndFetchSame(p: L1, l: L1, g: State)
    requires Same(p, l) && CacheOk(p) && CacheOk(l) && l.pending.Fetching?
    ensures Same(EndFetch(p, g), EndFetch(l, g))
  {
    var x := SetOf(l, l.pending.addr);
    StateSame(p.sets[x], l.sets[x], l.pending.way, g);
    hide SetOk, SameSet;
  }

  lemma InvalidatedSame(p: L1, l: L1, a: nat, kind: InvType)
    requires Same(p, l) && CacheOk(p) && CacheOk(l) && Enabled(l, Inval(a, kind))
    ensures Enabled(p, Inval(a, kind)) && Same(Invalidated(p, a, kind), Invalidated(l, a, kind))
  {
    var x := SetOf(l, a);
    SameLookup(p.sets[x], l.sets[x], a, 0);
    var w := Lookup(l.sets[x], a).value;
    StateSame(p.sets[x], l.sets[x], w, BottomInvalState(l.sets[x][w].st, kind));
    hide SetOk;
  }

  // ----- A hit in the filter -----

  // A hit in the filter is a hit in the cache on the most recently used line of the set, which is
  // modified if the access is a store.
  lemma FastHitIsHit(f: Filtered, a: nat, load: bool)
    requires CacheOk(f.l1) && FilterOk(f) && f.l1.pending == Nothing && a > 0 && FastHit(f, a, load)
    ensures var set_ := f.l1.sets[SetOf(f.l1, a)];
            var r := Lookup(set_, a);
            r.Some? && Newest(set_, r.value) && set_[r.value].st != I && (!load ==> set_[r.value].st == M)
  {
    var x := SetOf(f.l1, a);
    var set_ := f.l1.sets[x];
    assert EntryOk(set_, f.filter[x]);
    var w: int :| Truth(set_, f.filter[x], w);
    OtherAddrs(set_, f.l1.clock, w);
  }

  // The cache without the filter does nothing on such an access that could be noticed.
  lemma FastHitSame(p: L1, f: Filtered, a: nat, load: bool)
    requires Same(p, f.l1) && CacheOk(p) && CacheOk(f.l1) && FilterOk(f) && f.l1.pending == Nothing
    requires a > 0 && FastHit(f, a, load)
    ensures Outcomes(p, a, load) == Hit && Same(Begin(p, a, load), f.l1)
  {
    FastHitIsHit(f, a, load);
    var x := SetOf(p, a);
    SameLookup(p.sets[x], f.l1.sets[x], a, 0);
    var w := Lookup(p.sets[x], a).value;
    TouchNewest(p.sets[x], f.l1.sets[x], w, p.clock);
    hide SetOk, SameSet, FilterOk, Newest;
    SameSlot(p.sets[x], f.l1.sets[x], w);
    assert Begin(p, a, load).sets == p.sets[x := p.sets[x][w := p.sets[x][w].(stamp := p.clock)]];
  }

  lemma SameSlot(s: seq<Slot>, t: seq<Slot>, w: nat)
    requires SameSet(s, t) && w < |s|
    ensures s[w].addr == t[w].addr && s[w].st == t[w].st
  {
  }

  // ----- The filter stays truthful -----

  lemma CoreFilterOk(f: Filtered, a: nat, load: bool)
    requires CacheOk(f.l1) && FilterOk(f) && f.l1.pending == Nothing && a > 0
    ensures FilterOk(ApplyFiltered(f, Core(a, load)))
  {
    BeginOk(f.l1, a, load);
    var f1, x := ApplyFiltered(f, Core(a, load)), SetOf(f.l1, a);
    forall y | 0 <= y < |f1.filter| && y != x ensures EntryOk(f1.l1.sets[y], f1.filter[y]) {
      assert EntryOk(f.l1.sets[y], f.filter[y]);
      assert f1.l1.sets[y] == f.l1.sets[y];
    }
    hide EntryOk, SetOk, Truth, PendingOk;
    if !FastHit(f, a, load) && f1.l1.pending == Nothing {
      PublishedOk(f1.l1.sets[x], a, load);
    }
  }

  lemma PublishedOk(set_: seq<Slot>, a: nat, load: bool)
    requires a > 0 && exists w :: Truth(set_, EntryFor(a, load), w)
    ensures EntryOk(set_, EntryFor(a, load))
  {
  }

  lemma FetchedFilterOk(f: Filtered, g: State)
    requires CacheOk(f.l1) && FilterOk(f) && Enabled(f.l1, Fetched(g))
    ensures FilterOk(ApplyFiltered(f, Fetched(g)))
  {
    EndFetchOk(f.l1, g);
    var p := f.l1.pending;
    var f1, x := ApplyFiltered(f, Fetched(g)), SetOf(f.l1, p.addr);
    forall y | 0 <= y < |f1.filter| && y != x ensures EntryOk(f1.l1.sets[y], f1.filter[y]) {
      assert EntryOk(f.l1.sets[y], f.filter[y]);
    }
    assert Truth(f1.l1.sets[x], EntryFor(p.addr, p.load), p.way);
    PublishedOk(f1.l1.sets[x], p.addr, p.load);
    hide EntryOk, SetOk, Truth;
  }

  lemma InvalEntryOk(s: seq<Slot>, a: nat, w: nat, st: State, e: FilterEntry)
    requires EntryOk(s, e) && w < |s| && s[w].addr == a && e.rd != a
    ensures EntryOk(s[w := s[w].(st := st)], e)
  {
    if e.rd > 0 {
      var v :| Truth(s, e, v);
      assert Truth(s[w := s[w].(st := st)], e, v);
    }
  }

  lemma InvalFilterOk(f: Filtered, a: nat, kind: InvType)
    requires CacheOk(f.l1) && FilterOk(f) && Enabled(f.l1, Inval(a, kind))
    ensures FilterOk(ApplyFiltered(f, Inval(a, kind)))
  {
    var x := SetOf(f.l1, a);
    var w := Lookup(f.l1.sets[x], a).value;
    var f1 := ApplyFiltered(f, Inval(a, kind));
    forall y | 0 <= y < |f1.filter| && (f.l1.pending == Nothing || y != SetOf(f.l1, f.l1.pending.addr))
      ensures EntryOk(f1.l1.sets[y], f1.filter[y])
    {
      assert EntryOk(f.l1.sets[y], f.filter[y]);
      if y == x && f.filter[x].rd != a {
        InvalEntryOk(f.l1.sets[x], a, w, BottomInvalState(f.l1.sets[x][w].st, kind), f.filter[x]);
      }
    }
    hide EntryOk, SetOk, PendingOk;
  }

  lemma EvictedFilterOk(f: Filtered)
    requires CacheOk(f.l1) && FilterOk(f) && f.l1.pending.Evicting?
    ensures FilterOk(ApplyFiltered(f, Evicted))
  {
    var f1 := ApplyFiltered(f, Evicted);
    forall y | 0 <= y < |f1.filter| && y != SetOf(f.l1, f.l1.pending.addr)
      ensures EntryOk(f1.l1.sets[y], f1.filter[y])
    {
      assert EntryOk(f.l1.sets[y], f.filter[y]);
    }
    hide EntryOk, SetOk;
  }

  lemma StepFilterOk(f: Filtered, step: Step)
    requires CacheOk(f.l1) && FilterOk(f) && Enabled(f.l1, step)
    ensures FilterOk(ApplyFiltered(f, step)) && CacheOk(ApplyFiltered(f, step).l1)
  {
    StepCacheOk(f.l1, step);
    match step
    case Core(a, load) => CoreFilterOk(f, a, load); hide CacheOk, FilterOk, Begin;
    case Evicted => EvictedFilterOk(f); hide CacheOk, FilterOk, EndEviction;
    case Fetched(g) => FetchedFilterOk(f, g); hide CacheOk, FilterOk, EndFetch;
    case Inval(a, kind) => InvalFilterOk(f, a, kind); hide CacheOk, FilterOk, Invalidated;
    case ContextSwitch =>
  }
}
