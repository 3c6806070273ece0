// The filter cannot be noticed, over any run of accesses, invalidations and context switches.
module FilterTheorems {
  import opened CoherenceControllers
  import opened FilterState
  import opened FilterProofs

  function Start(sets: nat, ways: nat): L1 {
    L1(seq(sets, _ => seq(ways, _ => Slot(0, I, 0))), 1, Nothing)
  }

  function StartFiltered(sets: nat, ways: nat): Filtered {
    Filtered(Start(sets, ways), seq(sets, _ => CLEARED))
  }

  lemma StartOk(sets: nat, ways: nat)
    requires sets > 0 && ways > 0
    ensures CacheOk(Start(sets, ways)) && FilterOk(StartFiltered(sets, ways))
    ensures Same(Start(sets, ways), Start(sets, ways))
  {
  }

  lemma EnabledSame(p: L1, l: L1, step: Step)
    requires Same(p, l) && CacheOk(p) && CacheOk(l)
    ensures Enabled(p, step) <==> Enabled(l, step)
  {
    if step.Inval? {
      var x := SetOf(l, step.a);
      SameLookup(p.sets[x], l.sets[x], step.a, 0);
      hide SetOk;
      if Lookup(l.sets[x], step.a).Some? { SameSlot(p.sets[x], l.sets[x], Lookup(l.sets[x], step.a).value); }
    }
  }

  lemma StepSame(p: L1, f: Filtered, step: Step)
    requires Same(p, f.l1) && CacheOk(p) && CacheOk(f.l1) && FilterOk(f) && Enabled(p, step) && Enabled(f.l1, step)
    requires step.Core? ==> OneWay(f.l1) || (p.clock <= WRAP && f.l1.clock <= WRAP)
    ensures Same(Apply(p, step), ApplyFiltered(f, step).l1)
    ensures step.Core? ==> FilteredOutcome(f, step.a, step.load) == Outcomes(p, step.a, step.load)
  {
    hide Same, CacheOk, SameSet, EntryOk, Begin, EndEviction, EndFetch, Invalidated;
    match step
    case Core(a, load) =>
      if FastHit(f, a, load) { FastHitSame(p, f, a, load); } else { BeginSame(p, f.l1, a, load); }
    case Evicted => EndEvictionSame(p, f.l1);
    case Fetched(g) => EndFetchSame(p, f.l1, g);
    case Inval(a, kind) => InvalidatedSame(p, f.l1, a, kind);
    case ContextSwitch =>
  }

  // ----- Runs -----

  ghost predicate Possible(l: L1, steps: seq<Step>)
    decreases |steps|
  {
    steps == [] || (Enabled(l, steps[0]) && Possible(Apply(l, steps[0]), steps[1..]))
  }

  ghost predicate PossibleFiltered(f: Filtered, steps: seq<Step>)
    decreases |steps|
  {
    |f.filter| == |f.l1.sets|
    && (steps == [] || (Enabled(f.l1, steps[0]) && PossibleFiltered(ApplyFiltered(f, steps[0]), steps[1..])))
  }

  // The outcomes of the core's accesses, and the cache at the end.
  ghost function Run(l: L1, steps: seq<Step>): (seq<Outcome>, L1)
    requires Possible(l, steps)
    decreases |steps|
  {
    if steps == [] then ([], l)
    else
      var (outs, end) := Run(Apply(l, steps[0]), steps[1..]);
      ((if steps[0].Core? then [Outcomes(l, steps[0].a, steps[0].load)] else []) + outs, end)
  }

  ghost function RunFiltered(f: Filtered, steps: seq<Step>): (seq<Outcome>, Filtered)
    requires PossibleFiltered(f, steps)
    decreases |steps|
  {
    if steps == [] then ([], f)
    else
      var (outs, end) := RunFiltered(ApplyFiltered(f, steps[0]), steps[1..]);
      ((if steps[0].Core? then [FilteredOutcome(f, steps[0].a, steps[0].load)] else []) + outs, end)
  }

  // The filter stays truthful in runs of any length.
  lemma {:induction false} RunFilterOk(f: Filtered, steps: seq<Step>)
    requires CacheOk(f.l1) && FilterOk(f) && PossibleFiltered(f, steps)
    ensures FilterOk(RunFiltered(f, steps).1) && CacheOk(RunFiltered(f, steps).1.l1)
    decreases |steps|
  {
    hide CacheOk, FilterOk, Enabled, ApplyFiltered, FilteredOutcome;
    if steps != [] {
      StepFilterOk(f, steps[0]);
      RunFilterOk(ApplyFiltered(f, steps[0]), steps[1..]);
    }
  }

  // ----- How long the clocks stay below 2^32 -----

  ghost predicate Unused(l: L1) {
    && l.clock == 1 && l.pending == Nothing
    && forall x, w | 0 <= x < |l.sets| && 0 <= w < |l.sets[x]| :: l.sets[x][w].addr == 0
  }

  // In k more steps no clock passes 2^32 before the last access. The first access of a run takes three steps and
  // advances the clock by one.
  ghost predicate Bounded(l: L1, k: nat) {
    if l.pending == Nothing then l.clock + k <= WRAP + 1 || (Unused(l) && k <= WRAP + 2) else l.clock + k <= WRAP + 2
  }

  // Either way, victims do not depend on how old the lines are.
  ghost predicate Fits(l: L1, k: nat) {
    OneWay(l) || Bounded(l, k)
  }

  lemma BoundedStep(l: L1, step: Step, k: nat)
    requires Enabled(l, step) && Bounded(l, k + 1)
    ensures Bounded(Apply(l, step), k)
  {
  }

  lemma SameSizes(l: L1, step: Step)
    requires Enabled(l, step)
    ensures OneWay(l) ==> OneWay(Apply(l, step))
  {
  }

  lemma FitsStep(p: L1, f: Filtered, step: Step, k: nat)
    requires |f.filter| == |f.l1.sets| && Enabled(p, step) && Enabled(f.l1, step) && Fits(p, k + 1) && Fits(f.l1, k + 1)
    ensures Fits(Apply(p, step), k) && Fits(ApplyFiltered(f, step).l1, k)
  {
    hide Bounded, Apply, Enabled, OneWay, FastHit, Publish;
    StepKinds(f, step);
    FitsPlain(p, step, k);
    FitsPlain(f.l1, step, k);
    if ApplyFiltered(f, step).l1 == f.l1 { BoundedLess(f.l1, k); }
  }

  lemma FitsPlain(l: L1, step: Step, k: nat)
    requires Enabled(l, step) && Fits(l, k + 1)
    ensures Fits(Apply(l, step), k)
  {
    hide Bounded, Apply, Enabled, OneWay;
    if OneWay(l) { SameSizes(l, step); } else { BoundedStep(l, step, k); }
  }

  lemma BoundedLess(l: L1, k: nat)
    ensures Bounded(l, k + 1) ==> Bounded(l, k)
  {
  }

  // What lies behind the filter does not change, or as it would without the filter.
  lemma StepKinds(f: Filtered, step: Step)
    requires |f.filter| == |f.l1.sets| && Enabled(f.l1, step)
    ensures ApplyFiltered(f, step).l1 == f.l1 || ApplyFiltered(f, step).l1 == Apply(f.l1, step)
  {
    hide Begin, EndEviction, EndFetch, Invalidated;
  }

  lemma FitsNow(p: L1, l: L1, k: nat)
    requires Fits(p, k) && Fits(l, k) && k > 0 && p.pending == l.pending == Nothing
    ensures OneWay(l) || OneWay(p) || (p.clock <= WRAP && l.clock <= WRAP)
  {
    hide OneWay;
  }

  lemma SameOneWay(p: L1, l: L1)
    requires Same(p, l)
    ensures OneWay(p) <==> OneWay(l)
  {
    assert forall x | 0 <= x < |p.sets| :: SameSet(p.sets[x], l.sets[x]);
  }

  lemma {:induction false} RunSame(p: L1, f: Filtered, steps: seq<Step>)
    requires Same(p, f.l1) && CacheOk(p) && CacheOk(f.l1) && FilterOk(f)
    requires Fits(p, |steps|) && Fits(f.l1, |steps|)
    ensures Possible(p, steps) <==> PossibleFiltered(f, steps)
    ensures Possible(p, steps) ==> Run(p, steps).0 == RunFiltered(f, steps).0
                                   && Same(Run(p, steps).1, RunFiltered(f, steps).1.l1)
    decreases |steps|
  {
    hide Same, CacheOk, FilterOk, Enabled, Apply, ApplyFiltered, Outcomes, FilteredOutcome, Fits;
    SizesOk(f);
    if steps != [] {
      EnabledSame(p, f.l1, steps[0]);
      if Enabled(p, steps[0]) {
        EarlyEnough(p, f.l1, steps[0], |steps|);
        StepSame(p, f, steps[0]);
        FitsStep(p, f, steps[0], |steps| - 1);
        StepCacheOk(p, steps[0]);
        StepFilterOk(f, steps[0]);
        RunSame(Apply(p, steps[0]), ApplyFiltered(f, steps[0]), steps[1..]);
      }
    }
  }

  lemma EarlyEnough(p: L1, l: L1, step: Step, k: nat)
    requires Same(p, l) && Enabled(l, step) && Fits(p, k) && Fits(l, k) && k > 0
    ensures step.Core? ==> OneWay(l) || (p.clock <= WRAP && l.clock <= WRAP)
  {
    hide Fits, OneWay, SameSet;
    if step.Core? {
      SameOneWay(p, l);
      FitsNow(p, l, k);
    }
  }

  lemma SizesOk(f: Filtered)
    requires FilterOk(f)
    ensures |f.filter| == |f.l1.sets|
  {
  }

  // ----- Exactly when the filter cannot be noticed -----

  // The cache with the filter can do exactly what the cache without it can do; every access hits,
  // misses or upgrades alike and evicts the same way; and at the end all addresses and coherence
  // states are the same.
  ghost predicate TransparentRun(sets: nat, ways: nat, steps: seq<Step>) {
    && (Possible(Start(sets, ways), steps) <==> PossibleFiltered(StartFiltered(sets, ways), steps))
    && (Possible(Start(sets, ways), steps) ==>
          var (outs, l) := Run(Start(sets, ways), steps);
          var (fouts, f) := RunFiltered(StartFiltered(sets, ways), steps);
          outs == fouts && SameContents(l, f.l1))
  }

  ghost predicate SameContents(l: L1, m: L1) {
    && l.pending == m.pending && |l.sets| == |m.sets|
    && forall x | 0 <= x < |l.sets| ::
         |l.sets[x]| == |m.sets[x]|
         && forall w | 0 <= w < |l.sets[x]| ::
              l.sets[x][w].addr == m.sets[x][w].addr && l.sets[x][w].st == m.sets[x][w].st
  }

  lemma SameIsSame(l: L1, m: L1)
    requires Same(l, m)
    ensures SameContents(l, m)
  {
  }

  lemma StartFits(sets: nat, ways: nat, k: nat)
    requires ways == 1 || k < WRAP + 3
    ensures Fits(Start(sets, ways), k)
  {
    var l := Start(sets, ways);
    assert ways == 1 ==> OneWay(l);
    assert Unused(l);
  }

  // With a single way in each set in every run, with more ways in every run of less than 2^32 + 3 steps.
  lemma Transparent(sets: nat, ways: nat, steps: seq<Step>)
    requires sets > 0 && ways > 0 && (ways == 1 || |steps| < WRAP + 3)
    ensures TransparentRun(sets, ways, steps)
  {
    hide Same, Run, RunFiltered, Possible, PossibleFiltered, Start, CacheOk, FilterOk, SameContents, Fits;
    StartOk(sets, ways);
    StartFits(sets, ways, |steps|);
    RunSame(Start(sets, ways), StartFiltered(sets, ways), steps);
    if Possible(Start(sets, ways), steps) {
      SameIsSame(Run(Start(sets, ways), steps).1, RunFiltered(StartFiltered(sets, ways), steps).1.l1);
    }
  }

  // ----- A run of 2^32 + 3 steps in which it can -----

  function Stores(a: nat, m: nat): seq<Step> {
    if m == 0 then [] else [Core(a, false)] + Stores(a, m - 1)
  }

  lemma {:induction false} StoresCount(a: nat, m: nat)
    ensures |Stores(a, m)| == m
  {
    if m > 0 { StoresCount(a, m - 1); }
  }

  // A line that only its set's first way holds, modified; the other ways are empty.
  ghost predicate OneLine(l: L1, a: nat) {
    && Sized(l) && l.pending == Nothing && a > 0 && a % |l.sets| == 0 && |l.sets[0]| > 1
    && l.sets[0][0] == Slot(a, M, l.sets[0][0].stamp)
    && forall w | 1 <= w < |l.sets[0]| :: l.sets[0][w] == Slot(0, I, 0)
  }

  ghost predicate Remembers(f: Filtered, a: nat) {
    OneLine(f.l1, a) && |f.filter| == |f.l1.sets| && f.filter[0] == FilterEntry(a, a)
  }

  lemma StoreAgain(l: L1, a: nat)
    requires OneLine(l, a)
    ensures Enabled(l, Core(a, false)) && Outcomes(l, a, false) == Hit
    ensures var l1 := Apply(l, Core(a, false));
            OneLine(l1, a) && |l1.sets| == |l.sets| && l1.sets[0][0].stamp == l.clock && l1.clock == l.clock + 1
  {
    assert Lookup(l.sets[0], a).value == 0;
  }

  lemma FastAgain(f: Filtered, a: nat)
    requires Remembers(f, a)
    ensures Enabled(f.l1, Core(a, false)) && FilteredOutcome(f, a, false) == Hit
    ensures ApplyFiltered(f, Core(a, false)) == f
  {
  }

  // A time stamp with no bits left in 32 makes the line in use the victim.
  lemma {:induction false} VictimFirst(s: seq<Slot>, i: nat)
    requires 1 <= i <= |s| && Score(s[0]) == 0
    ensures RankFrom(s, i, 0) == 0
    decreases |s| - i
  {
    hide Score;
    if i < |s| { VictimFirst(s, i + 1); }
  }

  lemma {:induction false} VictimSecond(s: seq<Slot>, i: nat)
    requires 2 <= i <= |s| && Score(s[1]) == 0
    ensures RankFrom(s, i, 1) == 1
    decreases |s| - i
  {
    hide Score;
    if i < |s| { VictimSecond(s, i + 1); }
  }

  lemma NextMisses(l: L1, a: nat, b: nat)
    requires OneLine(l, a) && b > 0 && b % |l.sets| == 0 && b != a
    ensures Enabled(l, Core(b, true))
    ensures l.sets[0][0].stamp == WRAP ==> Outcomes(l, b, true) == Miss(0)
    ensures l.sets[0][0].stamp == 1 ==> Outcomes(l, b, true) == Miss(1)
  {
    var s := l.sets[0];
    assert Lookup(s, b).None?;
    if s[0].stamp == WRAP { VictimFirst(s, 1); }
    if s[0].stamp == 1 { VictimSecond(s, 2); }
  }

  lemma {:induction false} StoresDiffer(p: L1, f: Filtered, a: nat, b: nat, m: nat)
    requires OneLine(p, a) && Remembers(f, a) && |p.sets| == |f.l1.sets| && b > 0 && b % |p.sets| == 0 && b != a
    requires p.sets[0][0].stamp + m == WRAP && p.clock == p.sets[0][0].stamp + 1 && f.l1.sets[0][0].stamp == 1
    ensures Differ(p, f, Stores(a, m) + [Core(b, true)])
    decreases m
  {
    var steps := Stores(a, m) + [Core(b, true)];
    if m == 0 {
      assert steps == [Core(b, true)];
      LastDiffers(p, f, a, b);
    } else {
      StoreAgain(p, a);
      FastAgain(f, a);
      hide OneLine, Enabled, Apply, ApplyFiltered, Outcomes, FilteredOutcome, Differ;
      StoresDiffer(Apply(p, Core(a, false)), f, a, b, m - 1);
      Before(p, f, Core(a, false), Stores(a, m - 1) + [Core(b, true)]);
      assert steps == [Core(a, false)] + (Stores(a, m - 1) + [Core(b, true)]);
    }
  }

  // A step alike on both sides, in front of runs that differ.
  lemma Before(p: L1, f: Filtered, step: Step, rest: seq<Step>)
    requires Enabled(p, step) && Enabled(f.l1, step) && |f.filter| == |f.l1.sets|
    requires step.Core? ==> Outcomes(p, step.a, step.load) == FilteredOutcome(f, step.a, step.load)
    requires Differ(Apply(p, step), ApplyFiltered(f, step), rest)
    ensures Differ(p, f, [step] + rest)
  {
    assert step.Core? ==> Sized(p) && Sized(f.l1);
    hide Enabled, Apply, ApplyFiltered, Outcomes, FilteredOutcome, Sized;
    var steps := [step] + rest;
    assert steps[1..] == rest;
    var h := if step.Core? then [Outcomes(p, step.a, step.load)] else [];
    var x, y := Run(Apply(p, step), rest).0, RunFiltered(ApplyFiltered(f, step), rest).0;
    assert (h + x)[|h|..] == x && (h + y)[|h|..] == y;
  }

  // Both sides can go these steps, but what the core sees is not the same.
  ghost predicate Differ(p: L1, f: Filtered, steps: seq<Step>) {
    Possible(p, steps) && PossibleFiltered(f, steps) && Run(p, steps).0 != RunFiltered(f, steps).0
  }

  lemma LastDiffers(p: L1, f: Filtered, a: nat, b: nat)
    requires OneLine(p, a) && Remembers(f, a) && |p.sets| == |f.l1.sets| && b > 0 && b % |p.sets| == 0 && b != a
    requires p.sets[0][0].stamp == WRAP && f.l1.sets[0][0].stamp == 1
    ensures Differ(p, f, [Core(b, true)])
  {
    NextMisses(p, a, b);
    NextMisses(f.l1, a, b);
    var steps := [Core(b, true)];
    assert steps[1..] == [];
    FilteredSizes(f, Core(b, true));
    hide Apply, ApplyFiltered, Outcomes, OneLine;
    assert Possible(p, steps) && PossibleFiltered(f, steps);
    assert Run(p, steps).0 == [Miss(0)];
    assert RunFiltered(f, steps).0 == [Miss(1)];
  }

  lemma FilteredSizes(f: Filtered, step: Step)
    requires |f.filter| == |f.l1.sets| && Enabled(f.l1, step)
    ensures var f1 := ApplyFiltered(f, step); |f1.filter| == |f1.l1.sets|
  {
  }

  // An access that has been completed, at once or after an eviction and a fetch with invalidations in
  // between, leaves its line in the cache, most recently used, with the permission it needs.
  lemma AccessServed(l: L1, step: Step)
    requires CacheOk(l) && Enabled(l, step) && (step.Core? || step.Fetched?) && Apply(l, step).pending == Nothing
    ensures var (a, load) := if step.Core? then (step.a, step.load) else (l.pending.addr, l.pending.load);
            var set_ := Apply(l, step).sets[SetOf(l, a)];
            var r := Lookup(set_, a);
            r.Some? && Newest(set_, r.value) && set_[r.value].st != I && (!load ==> set_[r.value].st == M)
  {
    StepCacheOk(l, step);
    if step.Core? {
      BeginOk(l, step.a, step.load);
      var w: int :| Truth(Apply(l, step).sets[SetOf(l, step.a)], EntryFor(step.a, step.load), w);
      OtherAddrs(Apply(l, step).sets[SetOf(l, step.a)], Apply(l, step).clock, w);
    } else {
      EndFetchOk(l, step.g);
      OtherAddrs(Apply(l, step).sets[SetOf(l, l.pending.addr)], Apply(l, step).clock, l.pending.way);
    }
  }

  // Whenever the filter reports a hit in a reachable state, the cache would report one as well,
  // exactly if the line is not line 0: cleared entries are 0, and so are taken for that line.
  lemma FastHitTrueIff(sets: nat, ways: nat, steps: seq<Step>, a: nat, load: bool)
    requires sets > 0 && ways > 0 && PossibleFiltered(StartFiltered(sets, ways), steps)
    requires var f := RunFiltered(StartFiltered(sets, ways), steps).1;
             |f.filter| == |f.l1.sets| && Sized(f.l1) && f.l1.pending == Nothing && FastHit(f, a, load)
    ensures var f := RunFiltered(StartFiltered(sets, ways), steps).1;
            Outcomes(f.l1, a, load) == Hit <==> a > 0
  {
    StartOk(sets, ways);
    RunFilterOk(StartFiltered(sets, ways), steps);
    var f := RunFiltered(StartFiltered(sets, ways), steps).1;
    if a > 0 {
      FastHitIsHit(f, a, load);
    } else {
      var set_ := f.l1.sets[SetOf(f.l1, a)];
      assert SetOk(set_, f.l1.clock);
      var r := Lookup(set_, a);
      if r.Some? { assert set_[r.value].st == I; }
    }
  }

  // ----- The whole run -----

  // A store to a line of the first set misses; 2^32 - 1 more hit; then another line of the set is loaded.
  function Overrun(sets: nat): seq<Step> {
    [Core(sets, false), Evicted, Fetched(M)] + (Stores(sets, WRAP - 1) + [Core(2 * sets, true)])
  }

  lemma LineNumbers(sets: nat)
    requires sets > 0
    ensures sets % sets == 0 && (2 * sets) % sets == 0
  {
  }

  // The first three steps.
  lemma FirstStore(sets: nat, ways: nat)
    requires sets > 0 && ways > 1
    ensures var l := Start(sets, ways);
            && Enabled(l, Core(sets, false)) && Enabled(Apply(l, Core(sets, false)), Evicted)
            && Enabled(Apply(Apply(l, Core(sets, false)), Evicted), Fetched(M))
            && (var l3 := Apply(Apply(Apply(l, Core(sets, false)), Evicted), Fetched(M));
                OneLine(l3, sets) && l3.sets[0][0].stamp == 1 && l3.clock == 2 && |l3.sets| == sets)
  {
    LineNumbers(sets);
    var l := Start(sets, ways);
    assert Lookup(l.sets[0], sets).None?;
    VictimFirst(l.sets[0], 1);
  }

  // When a time stamp has reached 2^32 the victims can differ: the cache without the filter, which has marked the
  // line at every store, gives up that line, the cache with the filter an empty way.
  lemma ClockWraps(sets: nat, ways: nat)
    requires sets > 0 && ways > 1
    ensures |Overrun(sets)| == WRAP + 3 && Differ(Start(sets, ways), StartFiltered(sets, ways), Overrun(sets))
  {
    hide Differ, Enabled, OneLine, Apply, ApplyFiltered, Outcomes, FilteredOutcome;
    StoresCount(sets, WRAP - 1);
    LineNumbers(sets);
    FirstStore(sets, ways);
    FirstFiltered(sets, ways);
    var l, f := Start(sets, ways), StartFiltered(sets, ways);
    var l1, f1 := Apply(l, Core(sets, false)), ApplyFiltered(f, Core(sets, false));
    var l2, f2 := Apply(l1, Evicted), ApplyFiltered(f1, Evicted);
    var rest := Stores(sets, WRAP - 1) + [Core(2 * sets, true)];
    StoresDiffer(Apply(l2, Fetched(M)), ApplyFiltered(f2, Fetched(M)), sets, 2 * sets, WRAP - 1);
    Before(l2, f2, Fetched(M), rest);
    Before(l1, f1, Evicted, [Fetched(M)] + rest);
    Before(l, f, Core(sets, false), [Evicted] + ([Fetched(M)] + rest));
    assert Overrun(sets) == [Core(sets, false)] + ([Evicted] + ([Fetched(M)] + rest));
  }

  lemma FirstFiltered(sets: nat, ways: nat)
    requires sets > 0 && ways > 1
    ensures var f, l := StartFiltered(sets, ways), Start(sets, ways);
            && |f.filter| == |f.l1.sets| == sets && Enabled(f.l1, Core(sets, false))
            && FilteredOutcome(f, sets, false) == Outcomes(l, sets, false)
            && (var f1 := ApplyFiltered(f, Core(sets, false));
                && f1.l1 == Apply(l, Core(sets, false)) && |f1.filter| == |f1.l1.sets| && Enabled(f1.l1, Evicted)
                && (var f2 := ApplyFiltered(f1, Evicted);
                    && f2.l1 == Apply(f1.l1, Evicted) && |f2.filter| == |f2.l1.sets| && Enabled(f2.l1, Fetched(M))
                    && (var f3 := ApplyFiltered(f2, Fetched(M));
                        f3.l1 == Apply(f2.l1, Fetched(M)) && Remembers(f3, sets))))
  {
    LineNumbers(sets);
    FirstStore(sets, ways);
    assert Lookup(Start(sets, ways).sets[0], sets).None?;
  }

  // All runs of up to n steps are transparent exactly if there is one way in each set or n is less than 2^32 + 3.
  lemma TransparentIff(sets: nat, ways: nat, n: nat)
    requires sets > 0 && ways > 0
    ensures (forall steps: seq<Step> | |steps| <= n :: TransparentRun(sets, ways, steps)) <==> ways == 1 || n < WRAP + 3
  {
    hide Run, RunFiltered, Possible, PossibleFiltered, Start, StartFiltered, Overrun, SameContents;
    if ways == 1 || n < WRAP + 3 {
      forall steps: seq<Step> | |steps| <= n ensures TransparentRun(sets, ways, steps) {
        Transparent(sets, ways, steps);
      }
    } else {
      ClockWraps(sets, ways);
      assert !TransparentRun(sets, ways, Overrun(sets));
    }
  }

  // Line 0 does hit in an empty cache.
  lemma LineZeroHits()
    ensures FastHit(StartFiltered(1, 1), 0, true) && Outcomes(Start(1, 1), 0, true) != Hit
  {
  }
}
