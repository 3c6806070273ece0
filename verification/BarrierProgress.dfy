// How long a phase of the barrier lasts: no longer than until everyone in it has had a turn.
module BarrierProgress {
  import opened Arithmetic
  import opened BarrierState
  import opened BarrierProofs
  import opened BarrierRuns

  // The threads that take their turn in this phase or are still to be woken for it.
  ghost function Turns(b: Barrier): set<nat> {
    set t | 0 <= t < |b.threads| && InTurn(b, t)
  }

  ghost predicate InTurn(b: Barrier, t: nat)
    requires t < |b.threads|
  {
    b.threads[t].state == RUNNING || (b.threads[t].state == WAITING && Ahead(b, t))
  }

  // The scan has not come to t yet.
  ghost predicate Ahead(b: Barrier, t: nat) {
    exists i :: b.cur <= i < |b.run| && b.run[i] == t
  }

  // The threads that have joined and not left.
  ghost function Present(b: Barrier): set<nat> {
    set t | 0 <= t < |b.threads| && b.threads[t].state in {RUNNING, WAITING}
  }

  // ----- The scan -----

  lemma WakeKeepsTurn(b: Barrier, t: nat)
    requires Ok(b) && b.running < b.parallelThreads && b.cur < |b.run| && t < |b.threads|
    ensures var c := WakeStep(b);
            && |c.threads| == |b.threads| && (InTurn(c, t) <==> InTurn(b, t))
            && (c.threads[t].state in {RUNNING, WAITING} <==> b.threads[t].state in {RUNNING, WAITING})
  {
    hide In, CountsOk, PlacedOk;
    var c := WakeStep(b);
    if t != b.run[b.cur] {
      if Ahead(b, t) {
        var i :| b.cur <= i < |b.run| && b.run[i] == t;
        assert c.run[i] == t;
      }
      if Ahead(c, t) {
        var i :| c.cur <= i < |c.run| && c.run[i] == t;
        assert b.run[i] == t;
      }
    } else {
      assert Ahead(b, t);
    }
  }

  lemma WakeKeeps(b: Barrier)
    requires Ok(b) && b.running < b.parallelThreads && b.cur < |b.run|
    ensures Turns(WakeStep(b)) == Turns(b) && Present(WakeStep(b)) == Present(b)
  {
    hide InTurn;
    var c := WakeStep(b);
    hide Ok, WakeStep;
    forall t: nat | t < |b.threads|
      ensures |c.threads| == |b.threads| && (InTurn(c, t) <==> InTurn(b, t))
      ensures c.threads[t].state in {RUNNING, WAITING} <==> b.threads[t].state in {RUNNING, WAITING}
    {
      WakeKeepsTurn(b, t);
    }
    assert |c.threads| == |b.threads| by { WakeKeepsTurn(b, b.run[b.cur]); }
  }

  // The scan gives nobody a second turn and takes nobody's away.
  lemma {:induction false} ScanKeeps(b: Barrier)
    requires Ok(b)
    ensures Scannable(b) && Turns(CheckRunList(b)) == Turns(b) && Present(CheckRunList(b)) == Present(b)
    decreases |b.run| - b.cur
  {
    hide Ok, Turns, Present, WakeStep, CheckRunList, Scannable;
    ScanUnfold(b);
    if b.running < b.parallelThreads && b.cur < |b.run| {
      WakeKeeps(b);
      Advances(b);
      ScanKeeps(WakeStep(b));
    }
  }

  lemma Advances(b: Barrier)
    requires Ok(b) && b.cur < |b.run|
    ensures b.run[b.cur] < |b.threads| == |b.turns|
    ensures |WakeStep(b).run| - WakeStep(b).cur < |b.run| - b.cur
  {
    hide In, CountsOk, PlacedOk;
  }

  // ----- One operation -----

  // A running thread is behind the scan.
  lemma RunningIsBehind(b: Barrier, t: nat)
    requires Ok(b) && t < |b.threads| && b.threads[t].state == RUNNING
    ensures !Ahead(b, t)
  {
    hide In, CountsOk, PlacedOk, RunListOk;
  }

  lemma SyncTakesTurn(b: Barrier, t: nat)
    requires Ok(b) && CanSync(b, t)
    ensures Turns(Syncing(b, t)) == Turns(b) - {t} && t in Turns(b) && Present(Syncing(b, t)) == Present(b)
  {
    RunningIsBehind(b, t);
    hide Ok;
    SameAhead(b, Syncing(b, t));
    hide Ahead;
  }

  lemma SameAhead(b: Barrier, c: Barrier)
    requires c.run == b.run && c.cur == b.cur
    ensures forall t :: Ahead(c, t) <==> Ahead(b, t)
  {
  }

  lemma LeaveTakesTurn(b: Barrier, t: nat)
    requires CanLeave(b, t)
    ensures Turns(Leaving(b, t)) == Turns(b) - {t} && (b.threads[t].state == RUNNING ==> t in Turns(b))
    ensures Present(Leaving(b, t)) == Present(b) - {t} && t in Present(b)
  {
    SameAhead(b, Leaving(b, t));
    hide Ahead;
  }

  lemma SameTurns(b: Barrier, c: Barrier, t: nat)
    requires t < |b.threads| == |c.threads| && InTurn(c, t)
    requires forall u: nat | u < |b.threads| && u != t :: InTurn(c, u) <==> InTurn(b, u)
    ensures Turns(c) == Turns(b) + {t}
  {
    hide InTurn;
  }

  lemma SamePresent(b: Barrier, c: Barrier, t: nat)
    requires t < |b.threads| == |c.threads| && c.threads[t].state == WAITING
    requires forall u | 0 <= u < |b.threads| && u != t :: c.threads[u].state == b.threads[u].state
    ensures Present(c) == Present(b) + {t}
  {
  }

  // Where the joining thread stands, the scan has yet to come.
  lemma JoinerAhead(b: Barrier, t: nat)
    requires Ok(b) && JoinShape(b, t)
    ensures Ahead(Joining(b, t), t)
  {
    hide In, CountsOk, TurnsOk;
    var c, last := Joining(b, t), b.threads[t].lastIdx;
    assert c.run[if b.threads[t].state == OFFLINE then |b.run| else if b.cur > last then c.cur else last] == t;
  }

  // The others stay on their side of the scan.
  lemma JoiningAhead(b: Barrier, t: nat, u: nat)
    requires Ok(b) && JoinShape(b, t) && u < |b.threads| && u != t
    ensures Ahead(Joining(b, t), u) <==> Ahead(b, u)
  {
    hide In, CountsOk, TurnsOk;
    var c := Joining(b, t);
    var last := b.threads[t].lastIdx;
    if b.threads[t].state == OFFLINE {
      if Ahead(b, u) {
        var i :| b.cur <= i < |b.run| && b.run[i] == u;
        assert c.run[i] == u;
      }
    } else if b.cur > last {
      if Ahead(b, u) {
        var i :| b.cur <= i < |b.run| && b.run[i] == u;
        assert c.run[i] == u;
      }
      if Ahead(c, u) {
        var i :| c.cur <= i < |c.run| && c.run[i] == u;
        assert i > c.cur && b.run[i] == u;
      }
    } else {
      SameAhead(b, c);
    }
  }

  lemma JoiningTakesTurn(b: Barrier, t: nat)
    requires JoinReady(b, t) && JoinShape(b, t)
    ensures Turns(Joining(b, t)) == Turns(b) + {t} && Present(Joining(b, t)) == Present(b) + {t}
  {
    var c := Joining(b, t);
    JoiningMoves(b, t);
    hide Ok, Settled, Joining, Ahead, Turns, Present;
    JoinerAhead(b, t);
    forall u: nat | u < |b.threads| && u != t ensures InTurn(c, u) <==> InTurn(b, u) {
      JoiningAhead(b, t, u);
    }
    SameTurns(b, c, t);
    SamePresent(b, c, t);
  }

  // A sync, or the leave of a running thread.
  ghost predicate TakesTurn(b: Barrier, op: Op) {
    op.SyncOp? || (op.LeaveOp? && op.t < |b.threads| && b.threads[op.t].state == RUNNING)
  }

  // Where no phase ends, only the scan follows.
  lemma WakingKeeps(b: Barrier, js: seq<nat>)
    requires Ok(b) && Draws(js, |b.threads|) && Scannable(b) && !PhaseOver(CheckRunList(b))
    ensures Turns(TryWakeNext(b, js)) == Turns(b) && Present(TryWakeNext(b, js)) == Present(b)
  {
    hide Ok, Turns, Present, CheckRunList, Scannable, PhaseOver;
    CheckRunListOk(b);
    ScanKeeps(b);
    ScanKeeps(CheckRunList(b));
  }

  lemma StepTakesTurn(b: Barrier, op: Op)
    requires Good(b) && CanDo(b, op) && !op.JoinOp? && !EndsPhase(b, op)
    ensures var c := Do(b, op);
            && |Turns(c)| + (if TakesTurn(b, op) then 1 else 0) <= |Turns(b)|
            && |Turns(c)| + |Present(c)| < |Turns(b)| + |Present(b)|
  {
    hide Ok, Settled, Turns, Present, CheckRunList, Scannable, PhaseOver, TryWakeNext;
    var t, js := op.t, op.draws;
    if op.SyncOp? {
      SyncOk(b, t, js);
      SyncTakesTurn(b, t);
      WakingKeeps(Syncing(b, t), js);
    } else {
      LeaveOk(b, t, js);
      LeaveTakesTurn(b, t);
      if b.threads[t].state == RUNNING { WakingKeeps(Leaving(b, t), js); }
      SubsetCard(Turns(b) - {t}, Turns(b));
    }
  }

  // A join, of a new thread or of one that had left, whether or not it has already run in this phase, and whether or
  // not the parallelism limit is used up: the thread gets a turn in this phase, and nobody loses or gains another.
  lemma JoinTakesTurn(b: Barrier, t: nat, js: seq<nat>)
    requires Good(b) && CanDo(b, JoinOp(t, js))
    ensures var c := Do(b, JoinOp(t, js));
            Turns(c) == Turns(b) + {t} && Present(c) == Present(b) + {t} && t in c.steady
  {
    JoinOk(b, t, js);
    JoiningOk(b, t);
    JoinerSteady(b, t, js);
    hide Ok, Settled, Turns, Present, CheckRunList, Scannable, PhaseOver, TryWakeNext, Joining, JoinShape;
    NoPhaseEnd(b, t, js);
    JoiningTakesTurn(b, t);
    WakingKeeps(Joining(b, t), js);
  }

  lemma NoPhaseEnd(b: Barrier, t: nat, js: seq<nat>)
    requires Good(b) && CanDo(b, JoinOp(t, js))
    ensures JoinShape(b, t) && Scannable(Joining(b, t)) && !PhaseOver(CheckRunList(Joining(b, t)))
  {
    JoinOk(b, t, js);
    CallbackOnPhaseEnd(b, JoinOp(t, js));
    hide Ok, Settled, CheckRunList, PhaseOver, TryWakeNext, Joining, JoinShape;
  }

  lemma JoinerSteady(b: Barrier, t: nat, js: seq<nat>)
    requires Good(b) && CanDo(b, JoinOp(t, js))
    ensures t in Do(b, JoinOp(t, js)).steady
  {
    JoinOk(b, t, js);
    JoiningOk(b, t);
    NoPhaseEnd(b, t, js);
    hide Ok, Settled, CheckRunList, PhaseOver, Scannable, JoinShape, Turns, Present;
    assert t in Joining(b, t).steady;
    TurnKept(Joining(b, t), js, t);
  }

  // ----- A phase -----

  // A run in which the phase does not end.
  ghost predicate Lasts(b: Barrier, ops: seq<Op>)
    requires Good(b)
    decreases |ops|
  {
    ops == [] || (CanDo(b, ops[0]) && !EndsPhase(b, ops[0]) && Lasts(Do(b, ops[0]), ops[1..]))
  }

  function Joins(ops: seq<Op>): nat {
    if ops == [] then 0 else (if ops[0].JoinOp? then 1 else 0) + Joins(ops[1..])
  }

  ghost function TurnsTaken(b: Barrier, ops: seq<Op>): nat
    requires Good(b) && Lasts(b, ops)
    decreases |ops|
  {
    if ops == [] then 0 else (if TakesTurn(b, ops[0]) then 1 else 0) + TurnsTaken(Do(b, ops[0]), ops[1..])
  }

  // A join adds one turn and one thread.
  lemma StepBound(b: Barrier, op: Op)
    requires Good(b) && CanDo(b, op) && !EndsPhase(b, op)
    ensures var c, j := Do(b, op), if op.JoinOp? then 1 else 0;
            && |Turns(c)| + (if TakesTurn(b, op) then 1 else 0) <= |Turns(b)| + j
            && |Turns(c)| + |Present(c)| + 1 <= |Turns(b)| + |Present(b)| + 3 * j
  {
    hide Good, CanDo, Do, EndsPhase, Turns, Present;
    if op.JoinOp? { JoinTakesTurn(b, op.t, op.draws); } else { StepTakesTurn(b, op); }
  }

  lemma {:induction false} RunTakesTurns(b: Barrier, ops: seq<Op>)
    requires Good(b) && Lasts(b, ops)
    ensures Possible(b, ops) && Good(RunOps(b, ops))
    ensures var c := RunOps(b, ops);
            && TurnsTaken(b, ops) + |Turns(c)| <= |Turns(b)| + Joins(ops)
            && |ops| + |Turns(c)| + |Present(c)| <= |Turns(b)| + |Present(b)| + 3 * Joins(ops)
    decreases |ops|
  {
    hide Good, CanDo, Do, EndsPhase, Turns, Present, TakesTurn;
    if ops != [] {
      StepBound(b, ops[0]);
      RunTakesTurns(Do(b, ops[0]), ops[1..]);
    }
  }

  // A phase ends after at most as many syncs and leaves of running threads as there are threads that are owed a turn
  // or take it, and joins in the meantime, unless everyone has left by then; and it takes only so many operations.
  lemma PhaseEnds(b: Barrier, ops: seq<Op>)
    requires Good(b) && Lasts(b, ops)
    ensures Possible(b, ops)
    ensures TurnsTaken(b, ops) <= |Turns(b)| + Joins(ops)
    ensures |ops| <= |Turns(b)| + |Present(b)| + 3 * Joins(ops)
    ensures TurnsTaken(b, ops) == |Turns(b)| + Joins(ops) ==> Present(RunOps(b, ops)) == {}
  {
    RunTakesTurns(b, ops);
    var c := RunOps(b, ops);
    hide RunOps, Possible, Lasts, TurnsTaken;
    if Turns(c) == {} { NobodyInTurn(c); }
  }

  // A thread that joins, and does not leave again, is woken exactly once from then to the end of the phase, whatever
  // the other threads do.
  lemma JoinerTurn(b: Barrier, t: nat, js: seq<nat>, ops: seq<Op>, last: Op)
    requires Good(b) && CanDo(b, JoinOp(t, js)) && WithinPhase(Do(b, JoinOp(t, js)), ops, t)
    ensures var c := Do(b, JoinOp(t, js));
            && Possible(c, ops) && Good(RunOps(c, ops))
            && (var r := RunOps(c, ops);
                CanDo(r, last) && EndsPhase(r, last) && last != LeaveOp(t, last.draws) ==>
                  t < |BeforeCheck(r, last).turns| && BeforeCheck(r, last).turns[t] == 1)
  {
    hide Good, CanDo, Do, EndsPhase, BeforeCheck, WithinPhase, Turns, Present;
    JoinTakesTurn(b, t, js);
    OneTurnPerPhase(Do(b, JoinOp(t, js)), ops, last, t);
  }

  // If nobody runs or is owed a turn, nobody is there.
  lemma NobodyInTurn(b: Barrier)
    requires Good(b) && Turns(b) == {}
    ensures Present(b) == {}
  {
    assert forall t: nat | t < |b.threads| :: t in Turns(b) <==> InTurn(b, t);
    assert In(b, RUNNING) == {};
    hide RunListOk, PlacedOk, TurnsOk, InTurn;
    assert Present(b) == In(b, RUNNING) + In(b, WAITING);
  }
}
