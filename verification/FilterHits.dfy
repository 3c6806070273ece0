// The filter is of use: a line that has been accessed is hit without the cache until something in its set intervenes.
module FilterHits {
  import opened FilterState
  import opened FilterProofs
  import opened FilterTheorems

  // Loads of line a hit in the filter, and no access to another line of its set is in progress.
  ghost predicate Remembered(f: Filtered, a: nat) {
    && |f.l1.sets| > 0 && |f.filter| == |f.l1.sets| && f.filter[SetOf(f.l1, a)].rd == a
    && (f.l1.pending == Nothing || f.l1.pending.addr == a || SetOf(f.l1, f.l1.pending.addr) != SetOf(f.l1, a))
  }

  // A completed access leaves its line in the filter: the next load of it is a hit there, and the next store as well if
  // this was a store.
  lemma AccessRemembered(f: Filtered, step: Step)
    requires CacheOk(f.l1) && FilterOk(f) && Enabled(f.l1, step) && (step.Core? || step.Fetched?)
    requires ApplyFiltered(f, step).l1.pending == Nothing
    ensures var (a, load) := if step.Core? then (step.a, step.load) else (f.l1.pending.addr, f.l1.pending.load);
            var f1 := ApplyFiltered(f, step);
            && Remembered(f1, a) && FastHit(f1, a, true)
            && (!load ==> FastHit(f1, a, false))
  {
    if step.Core? {
      var x := SetOf(f.l1, step.a);
      assert EntryOk(f.l1.sets[x], f.filter[x]);
      hide CacheOk, FilterOk, EntryOk;
    } else {
      hide CacheOk, FilterOk;
    }
  }

  // A step that lets line a stay in the filter: no context switch, no invalidation of the line, and no access to
  // another line of its set.
  predicate Spares(l: L1, step: Step, a: nat)
    requires |l.sets| > 0
  {
    match step
    case Core(b, _) => b == a || SetOf(l, b) != SetOf(l, a)
    case Inval(b, _) => b != a
    case ContextSwitch => false
    case _ => true
  }

  lemma StepSpares(f: Filtered, step: Step, a: nat)
    requires a > 0 && Remembered(f, a) && Enabled(f.l1, step) && Spares(f.l1, step, a)
    ensures Remembered(ApplyFiltered(f, step), a) && |ApplyFiltered(f, step).l1.sets| == |f.l1.sets|
  {
  }

  lemma {:induction false} StaysRemembered(f: Filtered, steps: seq<Step>, a: nat)
    requires a > 0 && Remembered(f, a) && PossibleFiltered(f, steps)
    requires forall i | 0 <= i < |steps| :: Spares(f.l1, steps[i], a)
    ensures Remembered(RunFiltered(f, steps).1, a) && FastHit(RunFiltered(f, steps).1, a, true)
    decreases |steps|
  {
    hide Enabled, ApplyFiltered, FilteredOutcome;
    if steps != [] {
      var f1 := ApplyFiltered(f, steps[0]);
      StepSpares(f, steps[0], a);
      forall i | 0 <= i < |steps[1..]| ensures Spares(f1.l1, steps[1..][i], a) {
        assert Spares(f.l1, steps[i + 1], a);
      }
      StaysRemembered(f1, steps[1..], a);
    }
  }

  // After an access to line a in any run, loads of it hit in the filter for as long as every step spares it.
  lemma HitsUntilDisturbed(sets: nat, ways: nat, before: seq<Step>, step: Step, steps: seq<Step>)
    requires sets > 0 && ways > 0 && PossibleFiltered(StartFiltered(sets, ways), before)
    requires var f := RunFiltered(StartFiltered(sets, ways), before).1;
             && |f.filter| == |f.l1.sets| && Enabled(f.l1, step) && (step.Core? || step.Fetched?)
             && var f1 := ApplyFiltered(f, step);
                && f1.l1.pending == Nothing && PossibleFiltered(f1, steps)
                && var a := if step.Core? then step.a else f.l1.pending.addr;
                   |f1.l1.sets| > 0 && forall i | 0 <= i < |steps| :: Spares(f1.l1, steps[i], a)
    ensures var f := RunFiltered(StartFiltered(sets, ways), before).1;
            var f2 := RunFiltered(ApplyFiltered(f, step), steps).1;
            var a := if step.Core? then step.a else f.l1.pending.addr;
            |f2.l1.sets| > 0 && |f2.filter| == |f2.l1.sets| && FastHit(f2, a, true)
  {
    var f := RunFiltered(StartFiltered(sets, ways), before).1;
    StartOk(sets, ways);
    RunFilterOk(StartFiltered(sets, ways), before);
    hide RunFiltered, PossibleFiltered;
    AccessRemembered(f, step);
    assert f.l1.pending.Fetching? ==> f.l1.pending.addr > 0;
    StaysRemembered(ApplyFiltered(f, step), steps, if step.Core? then step.a else f.l1.pending.addr);
  }
}
