// Every run of the barrier: any number of threads, any order of joins, leaves and syncs.
module BarrierRuns {
  import opened BarrierState
  import opened BarrierProofs

  datatype Op = JoinOp(t: nat, draws: seq<nat>) | LeaveOp(t: nat, draws: seq<nat>) | SyncOp(t: nat, draws: seq<nat>)

  // The state between operations.
  ghost predicate Good(b: Barrier) {
    Ok(b) && Settled(b)
  }

  // What the callers see to.
  ghost predicate CanDo(b: Barrier, op: Op) {
    && Draws(op.draws, |b.threads|)
    && match op
       case JoinOp(t, _) => CanJoin(b, t)
       case LeaveOp(t, _) => CanLeave(b, t)
       case SyncOp(t, _) => CanSync(b, t)
  }

  ghost function Do(b: Barrier, op: Op): (r: Barrier)
    requires Good(b) && CanDo(b, op)
    ensures Good(r)
  {
    match op
    case JoinOp(t, js) => Joined(b, t, js)
    case LeaveOp(t, js) => Departed(b, t, js)
    case SyncOp(t, js) => Synced(b, t, js)
  }

  // The state in which the operation looks for the end of the phase.
  ghost function BeforeCheck(b: Barrier, op: Op): Barrier
    requires Good(b) && CanDo(b, op)
  {
    match op
    case JoinOp(t, js) => JoinOk(b, t, js); CheckRunList(Joining(b, t))
    case LeaveOp(t, js) =>
      LeaveOk(b, t, js);
      if b.threads[t].state == RUNNING then CheckRunList(Leaving(b, t)) else Leaving(b, t)
    case SyncOp(t, js) => SyncOk(b, t, js); CheckRunList(Syncing(b, t))
  }

  ghost function Fresh(parallel: nat, maxThreads: nat): (b: Barrier)
    requires parallel > 0
    ensures Good(b) && b.parallelThreads == parallel && |b.threads| == maxThreads
  {
    var b := Barrier(parallel, seq(maxThreads, _ => ThreadSync(OFFLINE, 0, 0)), [], 0, 0, 0, 0, 0, {}, {},
                     seq(maxThreads, _ => 0));
    assert In(b, RUNNING) == {} && In(b, LEFT) == {} && In(b, WAITING) == {};
    b
  }

  ghost predicate Possible(b: Barrier, ops: seq<Op>)
    requires Good(b)
    decreases |ops|
  {
    ops == [] || (CanDo(b, ops[0]) && Possible(Do(b, ops[0]), ops[1..]))
  }

  ghost function RunOps(b: Barrier, ops: seq<Op>): Barrier
    requires Good(b) && Possible(b, ops)
    decreases |ops|
  {
    if ops == [] then b else RunOps(Do(b, ops[0]), ops[1..])
  }

  // No operation changes the limit or the number of threads.
  lemma DoKeepsLimit(b: Barrier, op: Op)
    requires Good(b) && CanDo(b, op)
    ensures Do(b, op).parallelThreads == b.parallelThreads
  {
    hide RunListOk, PlacedOk, CountsOk, TurnsOk, In, Settled, CheckEndPhase, CheckRunList;
    match op
    case JoinOp(t, js) => JoiningOk(b, t); JoiningMoves(b, t); JoinOk(b, t, js); WakingKeepsLimit(Joining(b, t), js);
    case LeaveOp(t, js) => LeaveOk(b, t, js); WakingKeepsLimit(Leaving(b, t), js);
    case SyncOp(t, js) => SyncOk(b, t, js); WakingKeepsLimit(Syncing(b, t), js);
  }

  lemma WakingKeepsLimit(b: Barrier, js: seq<nat>)
    requires Ok(b) && Draws(js, |b.threads|)
    ensures Scannable(b) && TryWakeNext(b, js).parallelThreads == b.parallelThreads
  {
    hide RunListOk, PlacedOk, CountsOk, TurnsOk, In, CheckRunList, Cleaned, Shuffle;
    ScanUnfold(b);
    CheckRunListOk(b);
    var c := CheckRunList(b);
    EndPhaseOk(c, js);
    if PhaseOver(c) {
      CleanedOk(c);
      if c.parallelThreads < |Cleaned(c).run| { ShuffleOk(Cleaned(c), |Cleaned(c).run|, js); }
    }
    CheckRunListOk(CheckEndPhase(c, js));
  }

  lemma {:induction false} RunGood(b: Barrier, ops: seq<Op>)
    requires Good(b) && Possible(b, ops)
    ensures Good(RunOps(b, ops)) && RunOps(b, ops).parallelThreads == b.parallelThreads
    decreases |ops|
  {
    hide Good, CanDo, Do;
    if ops != [] {
      DoKeepsLimit(b, ops[0]);
      RunGood(Do(b, ops[0]), ops[1..]);
    }
  }

  // Over every run of legal calls: the parallelism limit is respected and used up or the list is fully scanned,
  // nobody waits while nobody runs, and list, back-pointers and counters agree with the threads.
  lemma EveryRunOk(parallel: nat, maxThreads: nat, ops: seq<Op>)
    requires parallel > 0 && Possible(Fresh(parallel, maxThreads), ops)
    ensures var r := RunOps(Fresh(parallel, maxThreads), ops);
            && Ok(r) && |In(r, RUNNING)| <= parallel && (|In(r, RUNNING)| == parallel || r.cur == |r.run|)
            && (In(r, WAITING) != {} ==> In(r, RUNNING) != {})
  {
    hide RunOps, Possible, RunListOk, PlacedOk, TurnsOk, In, Fresh;
    RunGood(Fresh(parallel, maxThreads), ops);
  }

  // Enough draws make any operation of a legal caller possible, so no run gets stuck in the
  // barrier itself.
  lemma SomeThreadCanGoOn(b: Barrier)
    requires Good(b) && In(b, WAITING) != {}
    ensures exists t, draws :: CanDo(b, SyncOp(t, draws))
  {
    var t :| t in In(b, RUNNING);
    var draws := seq(|b.threads|, _ => 0);
    assert CanDo(b, SyncOp(t, draws));
  }

  ghost predicate EndsPhase(b: Barrier, op: Op)
    requires Good(b) && CanDo(b, op)
  {
    PhaseOver(BeforeCheck(b, op)) && !(op.LeaveOp? && b.threads[op.t].state == WAITING)
  }

  // The callback is called once per ended phase, and by nothing else.
  lemma CallbackOnPhaseEnd(b: Barrier, op: Op)
    requires Good(b) && CanDo(b, op)
    ensures Do(b, op).callbacks == b.callbacks + (if EndsPhase(b, op) then 1 else 0)
    ensures op.JoinOp? ==> !EndsPhase(b, op)
  {
    match op
    case JoinOp(t, js) => JoinOk(b, t, js); JoiningOk(b, t); TryWakeNextOk(Joining(b, t), js); JoinerNext(b, t);
    case LeaveOp(t, js) =>
      LeaveOk(b, t, js);
      if b.threads[t].state == RUNNING { TryWakeNextOk(Leaving(b, t), js); }
    case SyncOp(t, js) => SyncOk(b, t, js); TryWakeNextOk(Syncing(b, t), js);
  }

  // A thread that was waiting when the phase started, and does not leave, stays owed its turn
  // until the phase ends; and when the phase ends it has been woken exactly once in it.
  lemma ExactlyOneTurn(b: Barrier, op: Op, t: nat)
    requires Good(b) && CanDo(b, op) && t in b.steady && op != LeaveOp(t, op.draws)
    ensures !EndsPhase(b, op) ==> t in Do(b, op).steady
    ensures EndsPhase(b, op) ==> t < |BeforeCheck(b, op).turns| && BeforeCheck(b, op).turns[t] == 1
    ensures EndsPhase(b, op) ==> In(BeforeCheck(b, op), RUNNING) == {} && In(BeforeCheck(b, op), WAITING) != {}
  {
    hide RunListOk, PlacedOk, CountsOk, TurnsOk, In, Settled, CheckEndPhase;
    match op
    case JoinOp(u, js) => JoiningOk(b, u); JoinOk(b, u, js); TurnKept(Joining(b, u), js, t);
    case LeaveOp(u, js) =>
      LeaveOk(b, u, js);
      if b.threads[u].state == RUNNING { TurnKept(Leaving(b, u), js, t); }
    case SyncOp(u, js) => SyncOk(b, u, js); TurnKept(Syncing(b, u), js, t);
  }

  // All operations of the run fall in one phase, and t does not leave.
  ghost predicate WithinPhase(b: Barrier, ops: seq<Op>, t: nat)
    requires Good(b)
    decreases |ops|
  {
    ops == [] || (CanDo(b, ops[0]) && ops[0] != LeaveOp(t, ops[0].draws) && !EndsPhase(b, ops[0])
                  && WithinPhase(Do(b, ops[0]), ops[1..], t))
  }

  // From the start of a phase to its end, whatever the threads do in between: a thread that was
  // waiting at the start and does not leave is woken exactly once.
  lemma {:induction false} OneTurnPerPhase(b: Barrier, ops: seq<Op>, last: Op, t: nat)
    requires Good(b) && t in b.steady && WithinPhase(b, ops, t)
    ensures Possible(b, ops) && Good(RunOps(b, ops))
    ensures var r := RunOps(b, ops);
            CanDo(r, last) && EndsPhase(r, last) && last != LeaveOp(t, last.draws) ==>
              t < |BeforeCheck(r, last).turns| && BeforeCheck(r, last).turns[t] == 1
    decreases |ops|
  {
    hide Good, CanDo, Do, EndsPhase, BeforeCheck;
    if ops == [] {
      if CanDo(b, last) && EndsPhase(b, last) && last != LeaveOp(t, last.draws) { ExactlyOneTurn(b, last, t); }
    } else {
      ExactlyOneTurn(b, ops[0], t);
      OneTurnPerPhase(Do(b, ops[0]), ops[1..], last, t);
    }
  }

  lemma TurnKept(b: Barrier, js: seq<nat>, t: nat)
    requires Ok(b) && Draws(js, |b.threads|) && t in b.steady
    ensures Scannable(b)
    ensures var c := CheckRunList(b);
            if PhaseOver(c)
            then t < |c.turns| && c.turns[t] == 1 && In(c, RUNNING) == {} && In(c, WAITING) != {}
            else t in TryWakeNext(b, js).steady
  {
    CheckRunListOk(b);
    var c := CheckRunList(b);
    EndPhaseOk(c, js);
    if PhaseOver(c) { PhaseEndFacts(c); } else { CheckRunListOk(CheckEndPhase(c, js)); }
  }

  // A new phase starts with nobody having had a turn, and owes one to everybody who waits.
  lemma NewPhaseOwes(b: Barrier, js: seq<nat>)
    requires Ok(b) && PhaseOver(b) && Draws(js, |b.threads|)
    ensures Scannable(b)
    ensures var r := CheckEndPhase(b, js);
            && r.steady == In(r, WAITING) == In(b, WAITING)
            && (forall t | t in r.steady :: t < |r.turns| && r.turns[t] == 0)
            && Members(r.run) == Members(b.run) - (if b.phase % 32 == 0 then In(b, LEFT) else {})
  {
    EndPhaseOk(b, js);
    NewPhaseTurns(b, js);
    NewPhaseMembers(b, js);
  }

  lemma NewPhaseTurns(b: Barrier, js: seq<nat>)
    requires Ok(b) && PhaseOver(b) && Draws(js, |b.threads|)
    ensures CheckEndPhase(b, js).turns == seq(|b.threads|, _ => 0)
  {
    CleanedOk(b);
    if b.parallelThreads < |Cleaned(b).run| { ShuffleOk(Cleaned(b), |Cleaned(b).run|, js); }
  }

  // The list keeps its members, except that every 32nd phase those that left go offline.
  lemma NewPhaseMembers(b: Barrier, js: seq<nat>)
    requires Ok(b) && PhaseOver(b) && Draws(js, |b.threads|)
    ensures Members(CheckEndPhase(b, js).run) == Members(b.run) - (if b.phase % 32 == 0 then In(b, LEFT) else {})
  {
    hide RunListOk, PlacedOk, CountsOk, TurnsOk, In, Rewound, Compact, Shuffle;
    RewoundOk(b);
    CleanedOk(b);
    EndPhaseOk(b, js);
    SomebodyWaits(b);
    var c, r := Cleaned(b), CheckEndPhase(b, js);
    MembersByState(b);
    MembersByState(r);
    if b.phase % 32 == 0 { CompactOk(Rewound(b), 0); ZeroLeft(Compact(Rewound(b), 0)); }
    if b.parallelThreads < |c.run| { ShuffleOk(c, |c.run|, js); }
    assert In(r, LEFT) == if b.phase % 32 == 0 then {} else In(b, LEFT);
  }

  lemma MembersByState(b: Barrier)
    requires Ok(b)
    ensures Members(b.run) == In(b, RUNNING) + In(b, WAITING) + In(b, LEFT)
    ensures In(b, WAITING) !! In(b, LEFT)
  {
    hide PlacedOk, CountsOk, TurnsOk;
    forall t ensures t in Members(b.run) <==> t in In(b, RUNNING) + In(b, WAITING) + In(b, LEFT) {
    }
  }
}
