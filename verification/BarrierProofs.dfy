// Every step of every barrier operation keeps the invariants.
module BarrierProofs {
  import opened Arithmetic
  import opened BarrierState

  // ----- Counting threads by state -----

  // Thread t goes from one state to another; every other thread keeps its state.
  ghost predicate Moves(b: Barrier, c: Barrier, t: nat) {
    && t < |b.threads| == |c.threads|
    && (forall u | 0 <= u < |b.threads| && u != t :: c.threads[u].state == b.threads[u].state)
  }

  lemma MoveIn(b: Barrier, c: Barrier, t: nat, s: State)
    requires Moves(b, c, t)
    ensures In(c, s) == if c.threads[t].state == s then In(b, s) + {t} else In(b, s) - {t}
    ensures t in In(b, s) <==> b.threads[t].state == s
  {
  }

  lemma MoveCounts(b: Barrier, c: Barrier, t: nat, s: State)
    requires Moves(b, c, t)
    ensures |In(c, s)| == |In(b, s)| - (if b.threads[t].state == s then 1 else 0)
                                     + (if c.threads[t].state == s then 1 else 0)
  {
    hide In;
    MoveIn(b, c, t, s);
    if b.threads[t].state != s && c.threads[t].state != s { assert In(b, s) - {t} == In(b, s); }
    if b.threads[t].state == s && c.threads[t].state == s { assert In(b, s) + {t} == In(b, s); }
  }

  // ----- Waking -----

  lemma WakeCounts(b: Barrier)
    requires Ok(b) && b.running < b.parallelThreads && b.cur < |b.run|
    ensures CountsOk(WakeStep(b)) && In(WakeStep(b), LEFT) == In(b, LEFT)
    ensures In(WakeStep(b), WAITING) == In(b, WAITING) - {b.run[b.cur]}
  {
    hide In;
    var t, c := b.run[b.cur], WakeStep(b);
    MoveCounts(b, c, t, RUNNING);
    MoveCounts(b, c, t, LEFT);
    MoveIn(b, c, t, LEFT);
    MoveIn(b, c, t, WAITING);
  }

  lemma WakeRun(b: Barrier)
    requires Ok(b) && b.running < b.parallelThreads && b.cur < |b.run|
    ensures RunListOk(WakeStep(b))
  {
    hide In, PlacedOk, TurnsOk;
  }

  lemma WakePlaced(b: Barrier)
    requires Ok(b) && b.running < b.parallelThreads && b.cur < |b.run|
    ensures PlacedOk(WakeStep(b))
  {
    hide In, TurnsOk, CountsOk;
  }

  lemma WakeTurns(b: Barrier)
    requires Ok(b) && b.running < b.parallelThreads && b.cur < |b.run|
    ensures TurnsOk(WakeStep(b))
  {
    hide In;
  }

  lemma WakeStepOk(b: Barrier)
    requires Ok(b) && b.running < b.parallelThreads && b.cur < |b.run|
    ensures Ok(WakeStep(b)) && In(WakeStep(b), LEFT) == In(b, LEFT)
    ensures In(WakeStep(b), WAITING) == In(b, WAITING) - {b.run[b.cur]}
  {
    WakeCounts(b);
    WakeRun(b);
    WakePlaced(b);
    WakeTurns(b);
  }

  lemma {:induction false} CheckRunListOk(b: Barrier)
    requires Ok(b)
    ensures var r := CheckRunList(b);
            && Ok(r) && r.callbacks == b.callbacks && r.run == b.run && r.parallelThreads == b.parallelThreads
            && r.running >= b.running && r.cur >= b.cur && r.phase == b.phase
            && (r.running == r.parallelThreads || r.cur == |r.run|)
            && In(r, LEFT) == In(b, LEFT) && In(r, WAITING) <= In(b, WAITING)
            && r.steady == b.steady
    decreases |b.run| - b.cur
  {
    if b.running < b.parallelThreads && b.cur < |b.run| {
      WakeStepOk(b);
      CheckRunListOk(WakeStep(b));
    }
  }

  // A waiting thread has its futex word set, so that the wake-up succeeds.
  ghost predicate WaitersArmed(b: Barrier) {
    forall u | 0 <= u < |b.threads| :: b.threads[u].state == WAITING ==> b.threads[u].futexWord == 1
  }

  // One iteration of the scan, and its end.
  lemma ScanUnfold(b: Barrier)
    requires Ok(b)
    ensures Scannable(b) && WaitersArmed(b)
    ensures if b.running < b.parallelThreads && b.cur < |b.run|
            then Ok(WakeStep(b)) && CheckRunList(b) == CheckRunList(WakeStep(b)) && |WakeStep(b).run| == |b.run|
            else CheckRunList(b) == b
  {
    hide PlacedOk, In;
    if b.running < b.parallelThreads && b.cur < |b.run| { WakeStepOk(b); }
  }

  // One iteration of the pass over the list, and its end.
  lemma CompactUnfold(b: Barrier, idx: nat)
    requires Scannable(b) && idx <= |b.run|
    ensures idx == |b.run| ==> Compact(b, idx) == b
    ensures idx < |b.run| ==>
              Compact(b, idx) == if b.threads[b.run[idx]].state == LEFT then Compact(CompactStep(b, idx), idx)
                                 else Compact(b, idx + 1)
    ensures idx < |b.run| && b.threads[b.run[idx]].state == LEFT ==> Scannable(CompactStep(b, idx))
  {
  }

  // A step of the scan does not touch the threads behind it.
  lemma WakeOthers(b: Barrier, i: nat)
    requires Ok(b) && b.cur < |b.run| && b.cur < i < |b.run|
    ensures b.run[i] < |b.threads| && b.run[b.cur] < |b.threads| == |b.turns|
    ensures WakeStep(b).threads[b.run[i]] == b.threads[b.run[i]] && |WakeStep(b).threads| == |b.threads|
    ensures WakeStep(b).run == b.run && WakeStep(b).cur == b.cur + 1
  {
    hide PlacedOk, In, CountsOk;
  }

  lemma WakeFirst(b: Barrier)
    requires b.cur < |b.run| && b.run[b.cur] < |b.threads| == |b.turns| && b.threads[b.run[b.cur]].state == WAITING
    ensures WakeStep(b).running == b.running + 1
  {
  }

  // If the thread at the scan position waits, the scan leaves somebody running.
  lemma ScanWakesFirst(b: Barrier)
    requires Ok(b) && b.cur < |b.run| && b.run[b.cur] < |b.threads| && b.threads[b.run[b.cur]].state == WAITING
    ensures Scannable(b) && CheckRunList(b).running > 0
  {
    assert b.parallelThreads > 0 && |b.turns| == |b.threads|;
    hide Ok, CheckRunList, Scannable, WakeStep;
    ScanUnfold(b);
    if b.running < b.parallelThreads {
      WakeFirst(b);
      CheckRunListOk(WakeStep(b));
    }
  }

  // If somebody at or after the scan position waits, the scan leaves somebody running.
  lemma {:induction false} ScanWakes(b: Barrier, i: nat)
    requires Ok(b) && b.cur <= i < |b.run| && b.run[i] < |b.threads| && b.threads[b.run[i]].state == WAITING
    ensures Scannable(b) && CheckRunList(b).running > 0
    decreases |b.run| - b.cur
  {
    if i == b.cur {
      ScanWakesFirst(b);
    } else {
      WakeOthers(b, i);
      assert b.parallelThreads > 0;
      hide *;
      ScanUnfold(b);
      if b.running < b.parallelThreads { ScanWakes(WakeStep(b), i); }
    }
  }

  // ----- The end of a phase -----

  // Nobody runs and the list has been rewound.
  ghost predicate Rewinding(b: Barrier) {
    RunListOk(b) && PlacedOk(b) && TurnsOk(b) && b.cur == 0 && b.running == 0 && In(b, RUNNING) == {}
  }

  lemma RewindingScans(b: Barrier)
    requires Rewinding(b)
    ensures Scannable(b)
  {
    hide In, PlacedOk;
  }

  lemma CompactSets(b: Barrier, idx: nat)
    requires Rewinding(b) && idx < |b.run| && b.threads[b.run[idx]].state == LEFT
    ensures var c := CompactStep(b, idx);
            && In(c, RUNNING) == {} && In(c, WAITING) == In(b, WAITING)
            && In(c, LEFT) == In(b, LEFT) - {b.run[idx]} && b.run[idx] in In(b, LEFT)
  {
    var t, c := b.run[idx], CompactStep(b, idx);
    hide In, RunListOk, PlacedOk;
    MoveIn(b, c, t, RUNNING);
    MoveIn(b, c, t, WAITING);
    MoveIn(b, c, t, LEFT);
  }

  lemma CompactRun(b: Barrier, idx: nat)
    requires Rewinding(b) && idx < |b.run| && b.threads[b.run[idx]].state == LEFT
    ensures RunListOk(CompactStep(b, idx))
  {
    hide In, PlacedOk;
    var c := CompactStep(b, idx);
    forall u | 0 <= u < |c.threads| ensures c.threads[u].state != OFFLINE <==> u in c.run {
      if u in b.run && u != b.run[idx] {
        var i :| 0 <= i < |b.run| && b.run[i] == u;
        assert if i == |b.run| - 1 then c.run[idx] == u else c.run[i] == u;
      }
    }
  }

  lemma CompactPlaced(b: Barrier, idx: nat)
    requires Rewinding(b) && idx < |b.run| && b.threads[b.run[idx]].state == LEFT
    ensures PlacedOk(CompactStep(b, idx))
  {
    var c := CompactStep(b, idx);
    hide RunListOk, PlacedOk, TurnsOk, In, CompactStep;
    forall u | u in c.placed
      ensures u < |c.threads| && c.threads[u].lastIdx < |c.run| && c.run[c.threads[u].lastIdx] == u
    {
      CompactPointer(b, idx, u);
    }
    forall u | 0 <= u < |c.threads| && c.threads[u].state in {LEFT, RUNNING} ensures u in c.placed {
      CompactActive(b, idx, u);
    }
    assert PlacedOk(c) by { PlacedFolds(c); }
  }

  lemma PlacedFolds(b: Barrier)
    requires forall u | u in b.placed ::
               u < |b.threads| && b.threads[u].lastIdx < |b.run| && b.run[b.threads[u].lastIdx] == u
    requires forall u | 0 <= u < |b.threads| && b.threads[u].state in {LEFT, RUNNING} :: u in b.placed
    ensures PlacedOk(b)
  {
  }

  lemma CompactPointer(b: Barrier, idx: nat, u: nat)
    requires Rewinding(b) && idx < |b.run| && b.threads[b.run[idx]].state == LEFT && u in CompactStep(b, idx).placed
    ensures var c := CompactStep(b, idx);
            u < |c.threads| && c.threads[u].lastIdx < |c.run| && c.run[c.threads[u].lastIdx] == u
  {
    hide In, TurnsOk;
    RewindingScans(b);
    var c, last := CompactStep(b, idx), b.run[|b.run| - 1];
    assert u != b.run[idx];
    if u == last {
      assert c.threads[u].lastIdx == idx && idx < |c.run|;
    } else {
      assert u in b.placed && c.threads[u] == b.threads[u];
    }
  }

  lemma CompactActive(b: Barrier, idx: nat, u: nat)
    requires Rewinding(b) && idx < |b.run| && b.threads[b.run[idx]].state == LEFT
    requires u < |b.threads| && CompactStep(b, idx).threads[u].state in {LEFT, RUNNING}
    ensures u in CompactStep(b, idx).placed
  {
    hide In, TurnsOk;
    RewindingScans(b);
    assert u != b.run[idx] && CompactStep(b, idx).threads[u].state == b.threads[u].state;
  }

  lemma CompactTurns(b: Barrier, idx: nat)
    requires Rewinding(b) && idx < |b.run| && b.threads[b.run[idx]].state == LEFT
    ensures TurnsOk(CompactStep(b, idx))
  {
    hide In, PlacedOk;
  }

  // Barrier r is b without the threads that left: nobody else changes state, and nothing but the list and the threads.
  ghost predicate OnlyLeaversGone(b: Barrier, r: Barrier) {
    && Rewinding(r) && In(r, LEFT) == {} && In(r, WAITING) == In(b, WAITING)
    && |b.run| - |r.run| == |In(b, LEFT)|
    && r == b.(threads := r.threads, run := r.run, placed := r.placed)
  }

  // The cleanup pass removes exactly the threads that left, and nobody else changes state.
  lemma {:induction false} CompactOk(b: Barrier, idx: nat)
    requires Rewinding(b) && idx <= |b.run|
    requires forall i | 0 <= i < idx :: b.threads[b.run[i]].state != LEFT
    ensures OnlyLeaversGone(b, Compact(b, idx))
    decreases |b.run| - idx
  {
    RewindingScans(b);
    hide Rewinding, Scannable, In, Compact, CompactStep, OnlyLeaversGone;
    CompactUnfold(b, idx);
    if idx == |b.run| {
      NobodyLeft(b);
    } else if b.threads[b.run[idx]].state == LEFT {
      CompactStepOk(b, idx);
      CompactOk(CompactStep(b, idx), idx);
      GoneStep(b, idx, Compact(b, idx));
    } else {
      CompactOk(b, idx + 1);
    }
  }

  lemma GoneStep(b: Barrier, idx: nat, r: Barrier)
    requires Rewinding(b) && idx < |b.run| && b.threads[b.run[idx]].state == LEFT
    requires forall i | 0 <= i < idx :: b.threads[b.run[i]].state != LEFT
    requires Scannable(b) && OnlyLeaversGone(CompactStep(b, idx), r)
    ensures OnlyLeaversGone(b, r)
  {
    hide Rewinding, Scannable, In, CompactStep;
    CompactStepOk(b, idx);
  }

  lemma NobodyLeft(b: Barrier)
    requires Rewinding(b) && forall i | 0 <= i < |b.run| :: b.threads[b.run[i]].state != LEFT
    ensures OnlyLeaversGone(b, b)
  {
    hide PlacedOk, TurnsOk;
  }

  // One step of the pass: thread run[idx] goes offline, and the rest of the list is as it was.
  lemma CompactStepOk(b: Barrier, idx: nat)
    requires Rewinding(b) && idx < |b.run| && b.threads[b.run[idx]].state == LEFT
    requires forall i | 0 <= i < idx :: b.threads[b.run[i]].state != LEFT
    ensures Scannable(b)
    ensures var c := CompactStep(b, idx);
            && Rewinding(c) && |c.run| == |b.run| - 1 && idx <= |c.run|
            && (forall i | 0 <= i < idx :: c.threads[c.run[i]].state != LEFT)
            && In(c, WAITING) == In(b, WAITING) && |In(c, LEFT)| == |In(b, LEFT)| - 1
            && c == b.(threads := c.threads, run := c.run, placed := c.placed)
  {
    CompactSets(b, idx);
    CompactRun(b, idx);
    CompactPlaced(b, idx);
    CompactTurns(b, idx);
    CompactKeeps(b, idx);
    RewindingScans(b);
    hide In, RunListOk, PlacedOk, TurnsOk;
  }

  lemma CompactKeeps(b: Barrier, idx: nat)
    requires Rewinding(b) && idx < |b.run| && b.threads[b.run[idx]].state == LEFT
    requires forall i | 0 <= i < idx :: b.threads[b.run[i]].state != LEFT
    ensures var c := CompactStep(b, idx);
            && Scannable(c) && idx <= |c.run| == |b.run| - 1
            && forall i | 0 <= i < idx :: c.threads[c.run[i]].state != LEFT
  {
    hide In, PlacedOk;
  }

  // Exchanging two entries of a list without duplicates.
  lemma Exchanged(run: seq<nat>, i: nat, j: nat)
    requires i < |run| && j < |run| && forall k, l | 0 <= k < l < |run| :: run[k] != run[l]
    ensures var r := run[i := run[j]][j := run[i]];
            && (forall k, l | 0 <= k < l < |r| :: r[k] != r[l])
            && (forall u: nat :: u in r <==> u in run)
  {
    var r := run[i := run[j]][j := run[i]];
    forall u: nat | u in run ensures u in r {
      var k :| 0 <= k < |run| && run[k] == u;
      assert r[if k == i then j else if k == j then i else k] == u;
    }
  }

  // The run list may be reordered, as long as it keeps its members and nobody changes state.
  lemma SameMembers(b: Barrier, c: Barrier)
    requires RunListOk(b) && |c.threads| == |b.threads| && |c.run| == |b.run|
    requires forall u | 0 <= u < |b.threads| :: c.threads[u].state == b.threads[u].state
    requires forall k, l | 0 <= k < l < |c.run| :: c.run[k] != c.run[l]
    requires forall u: nat :: u in c.run <==> u in b.run
    ensures RunListOk(c)
  {
    forall i | 0 <= i < |c.run| ensures c.run[i] < |c.threads| {
      assert c.run[i] in b.run;
    }
  }

  lemma SwapRun(b: Barrier, i: nat, j: nat)
    requires Rewinding(b) && i < |b.run| && j < |b.run|
    ensures RunListOk(SwapStep(b, i, j))
  {
    hide In, PlacedOk, TurnsOk;
    RewindingScans(b);
    Exchanged(b.run, i, j);
    SameMembers(b, SwapStep(b, i, j));
  }

  lemma SwapRest(b: Barrier, i: nat, j: nat)
    requires Rewinding(b) && i < |b.run| && j < |b.run|
    ensures PlacedOk(SwapStep(b, i, j)) && TurnsOk(SwapStep(b, i, j))
    ensures forall s :: In(SwapStep(b, i, j), s) == In(b, s)
  {
    SwapPlaced(b, i, j);
    SwapTurns(b, i, j);
    var c := SwapStep(b, i, j);
    assert forall u | 0 <= u < |c.threads| :: c.threads[u].state == b.threads[u].state;
  }

  lemma SwapPlaced(b: Barrier, i: nat, j: nat)
    requires Rewinding(b) && i < |b.run| && j < |b.run|
    ensures PlacedOk(SwapStep(b, i, j))
  {
    hide In, TurnsOk;
    RewindingScans(b);
    var c := SwapStep(b, i, j);
    forall t | t in c.placed
      ensures t < |c.threads| && c.threads[t].lastIdx < |c.run| && c.run[c.threads[t].lastIdx] == t
    {
      if t != b.run[i] && t != b.run[j] {
        assert t in b.placed;
        assert c.threads[t] == b.threads[t];
      }
    }
  }

  lemma SwapTurns(b: Barrier, i: nat, j: nat)
    requires Rewinding(b) && i < |b.run| && j < |b.run|
    ensures TurnsOk(SwapStep(b, i, j))
  {
    hide In, PlacedOk;
  }

  lemma SwapOk(b: Barrier, i: nat, j: nat)
    requires Rewinding(b) && i < |b.run| && j < |b.run|
    ensures Rewinding(SwapStep(b, i, j)) && Scannable(SwapStep(b, i, j))
    ensures forall s :: In(SwapStep(b, i, j), s) == In(b, s)
  {
    SwapRun(b, i, j);
    SwapRest(b, i, j);
  }

  lemma {:induction false} ShuffleOk(b: Barrier, n: nat, js: seq<nat>)
    requires Rewinding(b) && n <= |b.run| && Draws(js, |b.threads|)
    ensures var r := Shuffle(b, n, js);
            && Rewinding(r) && (forall s :: In(r, s) == In(b, s))
            && r == b.(threads := r.threads, run := r.run, placed := r.placed)
            && |r.run| == |b.run|
    decreases n
  {
    if n > 1 {
      SwapOk(b, n - 1, js[n - 1]);
      hide In, RunListOk, PlacedOk, TurnsOk;
      ShuffleOk(SwapStep(b, n - 1, js[n - 1]), n - 1, js);
    }
  }

  ghost function Members(run: seq<nat>): set<nat> {
    set x | x in run
  }

  lemma {:induction false} RunCard(run: seq<nat>)
    requires forall i, j | 0 <= i < j < |run| :: run[i] != run[j]
    ensures |Members(run)| == |run|
  {
    if run == [] {
      assert Members(run) == {};
    } else {
      var n := |run| - 1;
      RunCard(run[..n]);
      var init := Members(run[..n]);
      assert run[n] !in init;
      assert Members(run) == init + {run[n]};
    }
  }

  // If nobody runs and nobody waits, everybody on the list has left.
  lemma AllLeft(b: Barrier)
    requires Ok(b) && b.running == 0 && In(b, WAITING) == {}
    ensures b.left == |b.run|
  {
    RunCard(b.run);
    assert In(b, RUNNING) == {};
    forall t ensures t in In(b, LEFT) <==> t in b.run {
      if t in b.run {
        assert t !in In(b, RUNNING) && t !in In(b, WAITING);
      }
    }
    assert In(b, LEFT) == Members(b.run);
  }

  // At the end of a phase somebody waits: not everyone has left and nobody runs.
  lemma SomebodyWaits(b: Barrier)
    requires Ok(b) && PhaseOver(b)
    ensures In(b, WAITING) != {} && In(b, RUNNING) == {}
  {
    if In(b, WAITING) == {} { AllLeft(b); }
  }

  // Whoever was waiting when the phase started and has not left has had exactly one turn in it.
  lemma OneTurnEach(b: Barrier)
    requires Ok(b) && PhaseOver(b)
    ensures forall t | t in b.steady :: b.turns[t] == 1
  {
    forall t | t in b.steady ensures b.turns[t] == 1 {
      assert t in b.run;
    }
  }

  lemma RewoundOk(b: Barrier)
    requires Ok(b) && PhaseOver(b)
    ensures Rewinding(Rewound(b)) && Scannable(Rewound(b)) && forall s :: In(Rewound(b), s) == In(b, s)
  {
    SomebodyWaits(b);
    var c := Rewound(b);
    assert forall s :: In(c, s) == In(b, s);
    forall u | 0 <= u < |b.threads| ensures b.threads[u].state != RUNNING {
      assert u !in In(b, RUNNING);
    }
    forall u | u in c.steady ensures u < |b.threads| && b.threads[u].state == WAITING {
      assert u in In(b, WAITING);
    }
  }

  lemma CleanedOk(b: Barrier)
    requires Ok(b) && PhaseOver(b)
    ensures var c := Cleaned(b);
            && Rewinding(c) && Scannable(c) && In(c, WAITING) == In(b, WAITING) == c.steady
            && c.left == |In(c, LEFT)| && c.callbacks == b.callbacks + 1
            && c.parallelThreads == b.parallelThreads && c.turns == seq(|b.threads|, _ => 0)
            && |b.run| - |c.run| == b.left - c.left
  {
    RewoundOk(b);
    hide RunListOk, PlacedOk, TurnsOk;
    var w := Rewound(b);
    if b.phase % 32 == 0 {
      CompactOk(w, 0);
      ZeroLeft(Compact(w, 0));
    }
  }

  lemma ZeroLeft(b: Barrier)
    requires Rewinding(b)
    ensures Rewinding(b.(left := 0)) && Scannable(b.(left := 0)) && forall s :: In(b.(left := 0), s) == In(b, s)
  {
    assert forall s :: In(b.(left := 0), s) == In(b, s);
  }

  lemma RewindingOk(b: Barrier)
    requires Rewinding(b) && b.left == |In(b, LEFT)| && 0 < b.parallelThreads
    ensures Ok(b)
  {
  }

  // What the end-of-phase check does, in one statement.
  lemma EndPhaseOk(b: Barrier, js: seq<nat>)
    requires Ok(b) && Draws(js, |b.threads|)
    ensures Scannable(b)
    ensures var r := CheckEndPhase(b, js);
            && Ok(r) && In(r, WAITING) == In(b, WAITING)
            && (!PhaseOver(b) ==> r == b)
            && (PhaseOver(b) ==>
                  && r.cur == 0 && r.callbacks == b.callbacks + 1 && r.steady == In(r, WAITING) != {}
                  && r.running == 0 && In(r, RUNNING) == {})
  {
    if PhaseOver(b) {
      SomebodyWaits(b);
      CleanedOk(b);
      var c := Cleaned(b);
      if b.parallelThreads < |c.run| {
        ShuffleOk(c, |c.run|, js);
        RewindingOk(Shuffle(c, |c.run|, js));
      } else {
        RewindingOk(c);
      }
    }
  }

  lemma PhaseEndFacts(b: Barrier)
    requires Ok(b) && PhaseOver(b)
    ensures In(b, WAITING) != {} && In(b, RUNNING) == {}
    ensures forall t | t in b.steady :: t < |b.turns| && b.turns[t] == 1
    ensures Rewinding(Rewound(b)) && Scannable(Rewound(b)) && b.left == |In(Rewound(b), LEFT)|
    ensures Rewinding(Cleaned(b))
  {
    SomebodyWaits(b);
    OneTurnEach(b);
    RewoundOk(b);
    CleanedOk(b);
  }

  // ----- tryWakeNext -----

  lemma TryWakeNextOk(b: Barrier, js: seq<nat>)
    requires Ok(b) && Draws(js, |b.threads|)
    ensures Ok(TryWakeNext(b, js)) && Settled(TryWakeNext(b, js))
    ensures TryWakeNext(b, js).callbacks == b.callbacks + (if PhaseOver(CheckRunList(b)) then 1 else 0)
  {
    var c := CheckRunList(b);
    CheckRunListOk(b);
    EndPhaseOk(c, js);
    var e := CheckEndPhase(c, js);
    CheckRunListOk(e);
    if PhaseOver(c) {
      var t :| t in In(e, WAITING);
      WaiterListed(e, t);
      var i :| 0 <= i < |e.run| && e.run[i] == t;
      ScanWakes(e, i);
    } else {
      NobodyStuck(c);
    }
  }

  lemma WaiterListed(b: Barrier, t: nat)
    requires Ok(b) && t in In(b, WAITING)
    ensures t in b.run
  {
  }

  // Where no phase ended, nobody waits without somebody running.
  lemma NobodyStuck(c: Barrier)
    requires Ok(c) && !PhaseOver(c) && (c.running == c.parallelThreads || c.cur == |c.run|)
    ensures Settled(c) && Settled(CheckRunList(c))
  {
    if c.running == 0 && In(c, WAITING) != {} {
      var t :| t in In(c, WAITING);
      LeftAndWaiting(c, t);
    }
  }

  // A waiting thread is on the list and has not left, so not everybody has.
  lemma LeftAndWaiting(b: Barrier, t: nat)
    requires Ok(b) && t in In(b, WAITING)
    ensures b.left < |b.run|
  {
    RunCard(b.run);
    var all := Members(b.run);
    WaiterListed(b, t);
    assert t in all;
    assert In(b, LEFT) <= all - {t};
    SubsetCard(In(b, LEFT), all - {t});
  }

  // ----- join -----

  ghost function UpTo(n: nat): (r: set<nat>)
    ensures |r| == n && forall u: nat :: u in r <==> u < n
  {
    if n == 0 then {} else UpTo(n - 1) + {n - 1}
  }

  lemma RoomOnList(b: Barrier, t: nat)
    requires Ok(b) && t < |b.threads| && t !in b.run
    ensures |b.run| < |b.threads|
  {
    RunCard(b.run);
    var all := UpTo(|b.threads|);
    assert Members(b.run) <= all - {t};
    SubsetCard(Members(b.run), all - {t});
  }

  ghost predicate JoinReady(b: Barrier, t: nat) {
    Ok(b) && Settled(b) && CanJoin(b, t)
  }

  lemma JoinFacts(b: Barrier, t: nat)
    requires JoinReady(b, t)
    ensures JoinShape(b, t)
  {
    if b.threads[t].state == OFFLINE { RoomOnList(b, t); }
  }

  // The parts of Ok that do not count threads.
  ghost predicate Listed(b: Barrier) {
    RunListOk(b) && PlacedOk(b) && TurnsOk(b)
  }

  ghost predicate Rejoins(b: Barrier, t: nat) {
    Listed(b) && t < |b.threads| && b.threads[t].state == LEFT && b.cur > b.threads[t].lastIdx
  }

  lemma RescheduleRun(b: Barrier, t: nat)
    requires Rejoins(b, t)
    ensures b.threads[t].lastIdx < |b.run| && RunListOk(Reschedule(b, t))
  {
    RejoinPlace(b, t);
    hide TurnsOk, PlacedOk;
    Exchanged(b.run, b.threads[t].lastIdx, b.cur - 1);
    SameMembers(b, Reschedule(b, t));
  }

  lemma RejoinPlace(b: Barrier, t: nat)
    requires Rejoins(b, t)
    ensures b.threads[t].lastIdx < |b.run| && b.run[b.threads[t].lastIdx] == t && 0 < b.cur <= |b.run|
  {
    hide RunListOk;
  }

  lemma ReschedulePlaced(b: Barrier, t: nat)
    requires Rejoins(b, t)
    ensures PlacedOk(Reschedule(b, t))
  {
    var c := Reschedule(b, t);
    hide TurnsOk;
    forall u | u in c.placed
      ensures u < |c.threads| && c.threads[u].lastIdx < |c.run| && c.run[c.threads[u].lastIdx] == u
    {
      if u != t && u != b.run[b.cur - 1] {
        assert u in b.placed;
        assert c.threads[u] == b.threads[u];
      }
    }
  }

  lemma RescheduleTurns(b: Barrier, t: nat)
    requires Rejoins(b, t)
    ensures TurnsOk(Reschedule(b, t))
  {
  }

  // The thread goes from LEFT to WAITING where it stands, which the scan has yet to reach.
  lemma WaitAgain(b: Barrier, t: nat, i: nat)
    requires Listed(b) && t < |b.threads| && b.threads[t].state == LEFT && b.cur <= i < |b.run| && b.run[i] == t
    ensures t < |b.turns|
    ensures Listed(b.SetThread(t, b.threads[t].(state := WAITING, futexWord := 1)).(
                     steady := b.steady + {t}, turns := b.turns[t := 0]))
  {
    var c := b.SetThread(t, b.threads[t].(state := WAITING, futexWord := 1)).(
               steady := b.steady + {t}, turns := b.turns[t := 0]);
    assert RunListOk(c) && PlacedOk(c);
    WaitAgainTurns(b, t, i);
  }

  lemma WaitAgainTurns(b: Barrier, t: nat, i: nat)
    requires RunListOk(b) && TurnsOk(b) && t < |b.threads| && b.threads[t].state == LEFT
    requires b.cur <= i < |b.run| && b.run[i] == t
    ensures TurnsOk(b.SetThread(t, b.threads[t].(state := WAITING, futexWord := 1)).(
                      steady := b.steady + {t}, turns := b.turns[t := 0]))
  {
    assert forall j | 0 <= j < |b.run| && b.run[j] == t :: j == i;
  }

  lemma AppendWaiting(b: Barrier, t: nat)
    requires JoinReady(b, t) && b.threads[t].state == OFFLINE
    ensures JoinShape(b, t) && Listed(Joining(b, t))
  {
    RoomOnList(b, t);
    hide In, CountsOk;
    AppendRun(b, t);
    AppendTurns(b, t);
  }

  lemma AppendRun(b: Barrier, t: nat)
    requires Listed(b) && t < |b.threads| && b.threads[t].state == OFFLINE && |b.run| < |b.threads|
    ensures JoinShape(b, t) && RunListOk(Joining(b, t)) && PlacedOk(Joining(b, t))
  {
    var c := Joining(b, t);
    assert c.run == b.run + [t];
    assert forall i | 0 <= i < |b.run| :: c.run[i] == b.run[i];
  }

  lemma AppendTurns(b: Barrier, t: nat)
    requires Listed(b) && t < |b.threads| && b.threads[t].state == OFFLINE && |b.run| < |b.threads|
    ensures JoinShape(b, t) && TurnsOk(Joining(b, t))
  {
    var c := Joining(b, t);
    assert c.run == b.run + [t];
    assert forall i | 0 <= i < |b.run| :: c.run[i] == b.run[i];
  }

  lemma RescheduleState(b: Barrier, t: nat)
    requires JoinShape(b, t) && b.threads[t].state == LEFT && b.cur > b.threads[t].lastIdx
    ensures var r := Reschedule(b, t);
            && |r.threads| == |b.threads| && r.threads[t].state == LEFT && r.left == b.left
            && r.cur == b.cur - 1 < |r.run| && r.run[r.cur] == t
  {
  }

  lemma RejoinListed(b: Barrier, t: nat)
    requires Rejoins(b, t) && JoinShape(b, t)
    ensures Listed(Joining(b, t))
  {
    hide RunListOk, PlacedOk, TurnsOk, Reschedule;
    RescheduleRun(b, t);
    ReschedulePlaced(b, t);
    RescheduleTurns(b, t);
    RescheduleState(b, t);
    var r := Reschedule(b, t);
    SameListed(r, b.left - 1);
    WaitAgain(r.(left := b.left - 1), t, b.cur - 1);
  }

  lemma ResumeListed(b: Barrier, t: nat)
    requires Listed(b) && JoinShape(b, t) && b.threads[t].state == LEFT && b.cur <= b.threads[t].lastIdx
    ensures Listed(Joining(b, t))
  {
    hide RunListOk, PlacedOk, TurnsOk;
    SameListed(b, b.left - 1);
    WaitAgain(b.(left := b.left - 1), t, b.threads[t].lastIdx);
  }

  lemma JoiningListed(b: Barrier, t: nat)
    requires JoinReady(b, t)
    ensures JoinShape(b, t) && Listed(Joining(b, t))
  {
    JoinFacts(b, t);
    assert Listed(b);
    hide Listed, Joining, Settled, Ok, In;
    if b.threads[t].state == OFFLINE {
      AppendWaiting(b, t);
    } else if b.cur > b.threads[t].lastIdx {
      RejoinListed(b, t);
    } else {
      ResumeListed(b, t);
    }
  }

  lemma SameListed(b: Barrier, left: int)
    requires Listed(b)
    ensures Listed(b.(left := left))
  {
  }

  lemma JoiningCounts(b: Barrier, t: nat)
    requires JoinReady(b, t)
    ensures JoinShape(b, t) && CountsOk(Joining(b, t))
  {
    JoinFacts(b, t);
    JoiningMoves(b, t);
    hide In, Joining, Listed, JoinShape, RunListOk, PlacedOk, TurnsOk;
    var c := Joining(b, t);
    MoveCounts(b, c, t, RUNNING);
    MoveCounts(b, c, t, LEFT);
  }

  lemma JoiningMoves(b: Barrier, t: nat)
    requires JoinShape(b, t)
    ensures var c := Joining(b, t);
            && Moves(b, c, t) && c.threads[t].state == WAITING
            && c.running == b.running && c.parallelThreads == b.parallelThreads
            && c.left == b.left - (if b.threads[t].state == LEFT then 1 else 0)
  {
  }

  lemma JoiningOk(b: Barrier, t: nat)
    requires JoinReady(b, t)
    ensures JoinShape(b, t) && Ok(Joining(b, t))
  {
    JoiningListed(b, t);
    JoiningCounts(b, t);
  }

  // A join never ends a phase, and the run list is scanned as far as it must be afterwards.
  lemma JoinOk(b: Barrier, t: nat, js: seq<nat>)
    requires JoinReady(b, t) && Draws(js, |b.threads|)
    ensures JoinShape(b, t) && Scannable(Joining(b, t))
    ensures var r := TryWakeNext(Joining(b, t), js);
            Ok(r) && Settled(r) && r.callbacks == b.callbacks
  {
    JoiningOk(b, t);
    var c := Joining(b, t);
    TryWakeNextOk(c, js);
    CheckRunListOk(c);
    JoinerNext(b, t);
    if c.running < c.parallelThreads { ScanWakes(c, c.cur); }
  }

  // Unless the parallelism limit is used up, the joining thread is the next to be scanned.
  lemma JoinerNext(b: Barrier, t: nat)
    requires JoinReady(b, t) && JoinShape(b, t)
    ensures var c := Joining(b, t);
            c.running < c.parallelThreads ==>
              c.cur < |c.run| && c.run[c.cur] == t && t < |c.threads| && c.threads[t].state == WAITING
    ensures Joining(b, t).callbacks == b.callbacks && Joining(b, t).running == b.running
  {
  }

  // ----- leave and sync -----

  lemma LeavingCounts(b: Barrier, t: nat)
    requires Ok(b) && CanLeave(b, t)
    ensures CountsOk(Leaving(b, t)) && In(Leaving(b, t), WAITING) <= In(b, WAITING)
    ensures b.threads[t].state == RUNNING ==> b.running > 0
  {
    var c := Leaving(b, t);
    MoveIn(b, c, t, RUNNING);
    MoveIn(b, c, t, WAITING);
    MoveCounts(b, c, t, RUNNING);
    MoveCounts(b, c, t, LEFT);
  }

  lemma LeavingRest(b: Barrier, t: nat)
    requires Ok(b) && CanLeave(b, t)
    ensures RunListOk(Leaving(b, t)) && PlacedOk(Leaving(b, t)) && TurnsOk(Leaving(b, t))
  {
    LeavingTurns(b, t);
    LeavingRun(b, t);
    hide In, CountsOk, TurnsOk, RunListOk;
  }

  lemma LeavingRun(b: Barrier, t: nat)
    requires Ok(b) && CanLeave(b, t)
    ensures RunListOk(Leaving(b, t))
  {
    hide In, CountsOk, TurnsOk, PlacedOk;
  }

  lemma LeavingTurns(b: Barrier, t: nat)
    requires Ok(b) && CanLeave(b, t)
    ensures TurnsOk(Leaving(b, t))
  {
    hide In, CountsOk, PlacedOk;
  }

  // A running thread's leave may end the phase; a waiting thread's leave wakes nobody.
  lemma LeaveOk(b: Barrier, t: nat, js: seq<nat>)
    requires Ok(b) && Settled(b) && CanLeave(b, t) && Draws(js, |b.threads|)
    ensures Ok(Leaving(b, t)) && Scannable(Leaving(b, t))
    ensures b.threads[t].state == WAITING ==> Settled(Leaving(b, t))
    ensures var r := TryWakeNext(Leaving(b, t), js);
            Ok(r) && Settled(r)
  {
    LeavingCounts(b, t);
    LeavingRest(b, t);
    TryWakeNextOk(Leaving(b, t), js);
  }

  lemma SyncingCounts(b: Barrier, t: nat)
    requires Ok(b) && CanSync(b, t)
    ensures CountsOk(Syncing(b, t)) && b.running > 0
  {
    var c := Syncing(b, t);
    MoveIn(b, c, t, RUNNING);
    MoveCounts(b, c, t, RUNNING);
    MoveCounts(b, c, t, LEFT);
  }

  lemma SyncingRest(b: Barrier, t: nat)
    requires Ok(b) && CanSync(b, t)
    ensures RunListOk(Syncing(b, t)) && PlacedOk(Syncing(b, t)) && TurnsOk(Syncing(b, t))
  {
    SyncingRun(b, t);
    SyncingTurns(b, t);
    hide In, CountsOk, RunListOk, TurnsOk;
  }

  lemma SyncingRun(b: Barrier, t: nat)
    requires Ok(b) && CanSync(b, t)
    ensures RunListOk(Syncing(b, t))
  {
    hide In, CountsOk, TurnsOk, PlacedOk;
  }

  lemma SyncingTurns(b: Barrier, t: nat)
    requires Ok(b) && CanSync(b, t)
    ensures TurnsOk(Syncing(b, t))
  {
    hide In, CountsOk, PlacedOk;
  }

  lemma SyncOk(b: Barrier, t: nat, js: seq<nat>)
    requires Ok(b) && Settled(b) && CanSync(b, t) && Draws(js, |b.threads|)
    ensures Ok(Syncing(b, t)) && Scannable(Syncing(b, t))
    ensures var r := TryWakeNext(Syncing(b, t), js);
            Ok(r) && Settled(r)
  {
    SyncingCounts(b, t);
    SyncingRest(b, t);
    TryWakeNextOk(Syncing(b, t), js);
  }

  // ----- The three operations as a whole -----

  ghost function Joined(b: Barrier, t: nat, js: seq<nat>): (r: Barrier)
    requires JoinReady(b, t) && Draws(js, |b.threads|)
    ensures Ok(r) && Settled(r) && r.callbacks == b.callbacks
  {
    JoinOk(b, t, js);
    TryWakeNext(Joining(b, t), js)
  }

  ghost function Synced(b: Barrier, t: nat, js: seq<nat>): (r: Barrier)
    requires Ok(b) && Settled(b) && CanSync(b, t) && Draws(js, |b.threads|)
    ensures Ok(r) && Settled(r)
  {
    SyncOk(b, t, js);
    TryWakeNext(Syncing(b, t), js)
  }

  ghost function Departed(b: Barrier, t: nat, js: seq<nat>): (r: Barrier)
    requires Ok(b) && Settled(b) && CanLeave(b, t) && Draws(js, |b.threads|)
    ensures Ok(r) && Settled(r)
  {
    LeaveOk(b, t, js);
    if b.threads[t].state == RUNNING then TryWakeNext(Leaving(b, t), js) else Leaving(b, t)
  }
}
