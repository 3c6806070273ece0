// A first-level cache with least-recently-used replacement, with and without a filter in front of
// it that remembers one line of each set.
module FilterState {
  import opened Options
  import opened CoherenceControllers

  // One way of a set. A stamp of 0 means never touched; invalid lines keep their address.
  datatype Slot = Slot(addr: nat, st: State, stamp: nat)

  // What the access in progress waits for: the write-back of its victim, or its line.
  datatype Pending = Nothing | Evicting(addr: nat, load: bool, way: nat) | Fetching(addr: nat, load: bool, way: nat)

  datatype L1 = L1(sets: seq<seq<Slot>>, clock: nat, pending: Pending)

  function Type(load: bool): AccessType {
    if load then GETS else GETX
  }

  function SetOf(l: L1, a: nat): nat
    requires |l.sets| > 0
  {
    a % |l.sets|
  }

  // The first way, from i on, that has the address.
  function LookupFrom(set_: seq<Slot>, a: nat, i: nat): (r: Option<nat>)
    requires i <= |set_|
    ensures r.Some? ==> i <= r.value < |set_| && set_[r.value].addr == a
    ensures r.Some? ==> forall k | i <= k < r.value :: set_[k].addr != a
    ensures r.None? ==> forall k | i <= k < |set_| :: set_[k].addr != a
    decreases |set_| - i
  {
    if i == |set_| then None else if set_[i].addr == a then Some(i) else LookupFrom(set_, a, i + 1)
  }

  function Lookup(set_: seq<Slot>, a: nat): (r: Option<nat>)
    ensures r.Some? ==> r.value < |set_| && set_[r.value].addr == a
    ensures r.None? <==> forall k | 0 <= k < |set_| :: set_[k].addr != a
  {
    LookupFrom(set_, a, 0)
  }

  // Scores are truncated to 32 bits.
  const WRAP: nat := 0x1_0000_0000

  function Score(s: Slot): nat {
    if s.st != I then s.stamp % WRAP else 0
  }

  // The replacement candidate: the first of the ways with the least score.
  function RankFrom(set_: seq<Slot>, i: nat, best: nat): (w: nat)
    requires i <= |set_| && best < |set_|
    ensures w < |set_|
    decreases |set_| - i
  {
    if i == |set_| then best else RankFrom(set_, i + 1, if Score(set_[i]) < Score(set_[best]) then i else best)
  }

  function Victim(set_: seq<Slot>): (w: nat)
    requires |set_| > 0
    ensures w < |set_|
  {
    RankFrom(set_, 1, 0)
  }

  function WithSlot(l: L1, x: nat, w: nat, s: Slot): L1
    requires x < |l.sets| && w < |l.sets[x]|
  {
    l.(sets := l.sets[x := l.sets[x][w := s]])
  }

  predicate Sized(l: L1) {
    |l.sets| > 0 && (forall x | 0 <= x < |l.sets| :: |l.sets[x]| > 0)
    && (l.pending != Nothing ==> l.pending.way < |l.sets[SetOf(l, l.pending.addr)]|)
  }

  // ----- Accesses to the cache itself -----

  // An access looks its line up and marks it as used. It ends here if the line's state suffices.
  function Begin(l: L1, a: nat, load: bool): L1
    requires Sized(l)
  {
    var x := SetOf(l, a);
    match Lookup(l.sets[x], a)
    case None => l.(pending := Evicting(a, load, Victim(l.sets[x])))
    case Some(w) =>
      var s := l.sets[x][w];
      if BottomHit(s.st, Type(load)) then
        WithSlot(l, x, w, Slot(a, BottomHitState(s.st, Type(load)), l.clock)).(clock := l.clock + 1)
      else WithSlot(l, x, w, s.(stamp := l.clock)).(clock := l.clock + 1, pending := Fetching(a, load, w))
  }

  // The victim has been written back; the new line takes its place.
  function EndEviction(l: L1): L1
    requires Sized(l) && l.pending.Evicting?
  {
    var p := l.pending;
    WithSlot(l, SetOf(l, p.addr), p.way, Slot(p.addr, I, l.clock)).(
      clock := l.clock + 1, pending := Fetching(p.addr, p.load, p.way))
  }

  // The next level has granted state g.
  function EndFetch(l: L1, g: State): L1
    requires Sized(l) && l.pending.Fetching?
  {
    var p := l.pending;
    var x := SetOf(l, p.addr);
    WithSlot(l, x, p.way, l.sets[x][p.way].(st := g)).(pending := Nothing)
  }

  function Invalidated(l: L1, a: nat, kind: InvType): L1
    requires Sized(l) && Lookup(l.sets[SetOf(l, a)], a).Some?
  {
    var x := SetOf(l, a);
    var w := Lookup(l.sets[x], a).value;
    var s := l.sets[x][w];
    WithSlot(l, x, w, s.(st := BottomInvalState(s.st, kind)))
  }

  datatype Outcome = Hit | Upgrade | Miss(victim: nat)

  function Outcomes(l: L1, a: nat, load: bool): Outcome
    requires Sized(l)
  {
    var x := SetOf(l, a);
    match Lookup(l.sets[x], a)
    case None => Miss(Victim(l.sets[x]))
    case Some(w) => if BottomHit(l.sets[x][w].st, Type(load)) then Hit else Upgrade
  }

  // ----- The filter -----

  // The lines of a set that loads and stores hit without going through the cache. Cleared
  // entries are 0, invalidated ones -1.
  datatype FilterEntry = FilterEntry(rd: int, wr: int)

  const CLEARED := FilterEntry(0, 0)
  const DROPPED := FilterEntry(-1, -1)

  datatype Filtered = Filtered(l1: L1, filter: seq<FilterEntry>)

  predicate FastHit(f: Filtered, a: nat, load: bool)
    requires |f.l1.sets| > 0 && |f.filter| == |f.l1.sets|
  {
    var e := f.filter[SetOf(f.l1, a)];
    if load then e.rd == a else e.wr == a
  }

  function EntryFor(a: nat, load: bool): FilterEntry {
    FilterEntry(a, if load then -1 else a)
  }

  function Publish(f: Filtered, a: nat, load: bool): Filtered
    requires |f.l1.sets| > 0 && |f.filter| == |f.l1.sets|
  {
    f.(filter := f.filter[SetOf(f.l1, a) := EntryFor(a, load)])
  }

  // A load or store of line a through the filter, line 0 included.
  function AccessFiltered(f: Filtered, a: nat, load: bool): Filtered
    requires |f.filter| == |f.l1.sets| && Sized(f.l1)
  {
    if FastHit(f, a, load) then f
    else
      var l := Begin(f.l1, a, load);
      if l.pending == Nothing then Publish(f.(l1 := l), a, load) else f.(l1 := l)
  }

  // ----- Steps, taken alike by the cache with the filter and by the cache without it -----

  datatype Step = Core(a: nat, load: bool) | Evicted | Fetched(g: State) | Inval(a: nat, kind: InvType) | ContextSwitch

  // One core; invalidations come in at any time, also while an access is in progress.
  predicate Enabled(l: L1, step: Step) {
    Sized(l) &&
    match step
    case Core(a, load) => l.pending == Nothing && a > 0
    case Evicted => l.pending.Evicting?
    case Fetched(g) => l.pending.Fetching? && BottomGrantAsserts(g, Type(l.pending.load))
    case Inval(a, kind) =>
      var r := Lookup(l.sets[SetOf(l, a)], a);
      a > 0 && r.Some? && BottomInvalAsserts(l.sets[SetOf(l, a)][r.value].st, kind)
    case ContextSwitch => true
  }

  function Apply(l: L1, step: Step): L1
    requires Enabled(l, step)
  {
    match step
    case Core(a, load) => Begin(l, a, load)
    case Evicted => EndEviction(l)
    case Fetched(g) => EndFetch(l, g)
    case Inval(a, kind) => Invalidated(l, a, kind)
    case ContextSwitch => l
  }

  function ApplyFiltered(f: Filtered, step: Step): Filtered
    requires |f.filter| == |f.l1.sets| && Enabled(f.l1, step)
  {
    match step
    case Core(a, load) => AccessFiltered(f, a, load)
    case Evicted => f.(l1 := EndEviction(f.l1))
    case Fetched(g) => Publish(f.(l1 := EndFetch(f.l1, g)), f.l1.pending.addr, f.l1.pending.load)
    case Inval(a, kind) =>
      var x := SetOf(f.l1, a);
      Filtered(Invalidated(f.l1, a, kind), if f.filter[x].rd == a then f.filter[x := DROPPED] else f.filter)
    case ContextSwitch => f.(filter := seq(|f.filter|, _ => CLEARED))
  }

  // What the core sees of an access.
  function FilteredOutcome(f: Filtered, a: nat, load: bool): Outcome
    requires Sized(f.l1) && |f.filter| == |f.l1.sets|
  {
    if FastHit(f, a, load) then Hit else Outcomes(f.l1, a, load)
  }
}
