// The barrier as a value: what each operation does to the thread table, the run list and the
// counters, and the invariants that every operation keeps.
module BarrierState {

  datatype State = OFFLINE | WAITING | RUNNING | LEFT

  datatype ThreadSync = ThreadSync(state: State, futexWord: nat, lastIdx: nat)

  // `run` is the used part of the run list. Three fields are bookkeeping for the proofs only:
  // `placed`, the threads whose lastIdx is known to be their position in the run list; `steady`,
  // the threads that were WAITING when the phase started or have joined in it, and have not left since;
  // and `turns`, how often each of them has been woken since.
  datatype Barrier = Barrier(
    parallelThreads: nat, threads: seq<ThreadSync>, run: seq<nat>, cur: nat,
    running: nat, left: int, phase: nat, callbacks: nat,
    placed: set<nat>, steady: set<nat>, turns: seq<nat>)
  {
    function SetThread(t: nat, x: ThreadSync): Barrier
      requires t < |threads|
    {
      this.(threads := threads[t := x])
    }
  }

  ghost function In(b: Barrier, s: State): set<nat> {
    set t | 0 <= t < |b.threads| && b.threads[t].state == s
  }

  // ----- Structure -----

  ghost predicate RunListOk(b: Barrier) {
    && |b.run| <= |b.threads|
    && (forall i | 0 <= i < |b.run| :: b.run[i] < |b.threads|)
    && (forall i, j | 0 <= i < j < |b.run| :: b.run[i] != b.run[j])
    && (forall t | 0 <= t < |b.threads| :: b.threads[t].state != OFFLINE <==> t in b.run)
  }

  ghost predicate PlacedOk(b: Barrier) {
    && (forall t | t in b.placed ::
          t < |b.threads| && b.threads[t].lastIdx < |b.run| && b.run[b.threads[t].lastIdx] == t)
    && (forall t | 0 <= t < |b.threads| && b.threads[t].state in {LEFT, RUNNING} :: t in b.placed)
  }

  ghost predicate CountsOk(b: Barrier) {
    && b.running == |In(b, RUNNING)| && b.left == |In(b, LEFT)|
    && 0 < b.parallelThreads && b.running <= b.parallelThreads
  }

  ghost predicate TurnsOk(b: Barrier) {
    && |b.turns| == |b.threads| && b.cur <= |b.run|
    && (forall i | b.cur <= i < |b.run| :: b.run[i] < |b.threads| && b.threads[b.run[i]].state != RUNNING)
    && (forall t | 0 <= t < |b.threads| :: b.threads[t].state == WAITING ==> b.threads[t].futexWord == 1)
    && (forall t | t in b.steady :: t < |b.threads| && b.threads[t].state in {WAITING, RUNNING})
    && (forall i | 0 <= i < |b.run| && b.run[i] in b.steady && b.run[i] < |b.turns| ::
          b.turns[b.run[i]] == (if i < b.cur then 1 else 0))
  }

  ghost predicate Ok(b: Barrier) {
    RunListOk(b) && PlacedOk(b) && CountsOk(b) && TurnsOk(b)
  }

  // What holds between operations: the parallelism limit is used up or the whole list has been
  // scanned, and nobody waits while nobody runs.
  ghost predicate Settled(b: Barrier) {
    && (b.running == b.parallelThreads || b.cur == |b.run|)
    && (In(b, WAITING) != {} ==> b.running > 0)
  }

  // ----- Waking -----

  ghost predicate Scannable(b: Barrier) {
    && |b.turns| == |b.threads| && |b.run| <= |b.threads|
    && forall i | 0 <= i < |b.run| :: b.run[i] < |b.threads|
  }

  // One iteration of checkRunList.
  function WakeStep(b: Barrier): (r: Barrier)
    requires b.cur < |b.run| && b.run[b.cur] < |b.threads| == |b.turns|
  {
    var t := b.run[b.cur];
    if b.threads[t].state == WAITING then
      b.SetThread(t, ThreadSync(RUNNING, 0, b.cur)).(
        cur := b.cur + 1, running := b.running + 1,
        placed := b.placed + {t}, turns := b.turns[t := b.turns[t] + 1])
    else
      b.(cur := b.cur + 1)
  }

  ghost function CheckRunList(b: Barrier): (r: Barrier)
    requires Scannable(b)
    ensures Scannable(r) && |r.threads| == |b.threads|
    decreases |b.run| - b.cur
  {
    if b.running < b.parallelThreads && b.cur < |b.run| then CheckRunList(WakeStep(b)) else b
  }

  // ----- End of a phase -----

  predicate PhaseOver(b: Barrier) {
    b.cur == |b.run| && b.running == 0 && b.left != |b.run|
  }

  // One iteration of the pass that takes LEFT threads off the list; idx is the loop variable.
  function CompactStep(b: Barrier, idx: nat): Barrier
    requires idx < |b.run| && Scannable(b) && b.threads[b.run[idx]].state == LEFT
  {
    var t, last := b.run[idx], b.run[|b.run| - 1];
    var b1 := b.SetThread(t, b.threads[t].(state := OFFLINE));
    b1.SetThread(last, b1.threads[last].(lastIdx := idx)).(
      run := b.run[idx := last][..|b.run| - 1], placed := (b.placed + {last}) - {t})
  }

  ghost function Compact(b: Barrier, idx: nat): (r: Barrier)
    requires idx <= |b.run| && Scannable(b)
    ensures Scannable(r) && |r.threads| == |b.threads|
    decreases |b.run| - idx
  {
    if idx == |b.run| then b
    else if b.threads[b.run[idx]].state == LEFT then Compact(CompactStep(b, idx), idx)
    else Compact(b, idx + 1)
  }

  // One exchange of the shuffle.
  function SwapStep(b: Barrier, i: nat, j: nat): Barrier
    requires Scannable(b) && i < |b.run| && j < |b.run|
  {
    var it, jt := b.run[i], b.run[j];
    var b1 := b.(run := b.run[i := jt][j := it], placed := b.placed + {it, jt});
    var b2 := b1.SetThread(it, b1.threads[it].(lastIdx := j));
    b2.SetThread(jt, b2.threads[jt].(lastIdx := i))
  }

  // js[i] is the random index drawn for position i, between 0 and i.
  ghost predicate Draws(js: seq<nat>, n: nat) {
    |js| >= n && forall i | 0 <= i < n :: js[i] <= i
  }

  ghost function Shuffle(b: Barrier, n: nat, js: seq<nat>): (r: Barrier)
    requires Scannable(b) && n <= |b.run| && Draws(js, |b.threads|)
    ensures Scannable(r) && |r.threads| == |b.threads|
    decreases n
  {
    if n <= 1 then b else Shuffle(SwapStep(b, n - 1, js[n - 1]), n - 1, js)
  }

  // The phase starts: everybody who waits now is owed one turn.
  ghost function NewPhase(b: Barrier): Barrier {
    b.(steady := In(b, WAITING), turns := seq(|b.threads|, _ => 0))
  }

  ghost function Rewound(b: Barrier): Barrier {
    NewPhase(b.(callbacks := b.callbacks + 1, cur := 0, phase := b.phase + 1))
  }

  ghost function Cleaned(b: Barrier): (r: Barrier)
    requires Scannable(b)
    ensures Scannable(r) && |r.threads| == |b.threads|
  {
    if b.phase % 32 == 0 then Compact(Rewound(b), 0).(left := 0) else Rewound(b)
  }

  ghost function CheckEndPhase(b: Barrier, js: seq<nat>): (r: Barrier)
    requires Scannable(b) && Draws(js, |b.threads|)
    ensures Scannable(r) && |r.threads| == |b.threads|
  {
    if !PhaseOver(b) then b
    else if b.parallelThreads < |Cleaned(b).run| then Shuffle(Cleaned(b), |Cleaned(b).run|, js)
    else Cleaned(b)
  }

  ghost function TryWakeNext(b: Barrier, js: seq<nat>): (r: Barrier)
    requires Scannable(b) && Draws(js, |b.threads|)
  {
    CheckRunList(CheckEndPhase(CheckRunList(b), js))
  }

  // ----- The operations up to their call of tryWakeNext -----

  // A thread that left and comes back in the phase it has already run in is put next in line.
  function Reschedule(b: Barrier, t: nat): Barrier
    requires t < |b.threads| && 0 < b.cur <= |b.run| && b.threads[t].lastIdx < |b.run|
    requires b.run[b.cur - 1] < |b.threads|
  {
    var cur, last := b.cur - 1, b.threads[t].lastIdx;
    var other := b.run[cur];
    var b1 := b.(cur := cur, run := b.run[last := other][cur := t], placed := b.placed + {other, t});
    var b2 := b1.SetThread(other, b1.threads[other].(lastIdx := last));
    b2.SetThread(t, b2.threads[t].(lastIdx := cur))
  }

  ghost predicate CanJoin(b: Barrier, t: nat) {
    t < |b.threads| && b.threads[t].state in {OFFLINE, LEFT}
  }

  // What joining relies on.
  ghost predicate JoinShape(b: Barrier, t: nat) {
    && CanJoin(b, t) && b.cur <= |b.run| <= |b.threads| == |b.turns|
    && (b.threads[t].state == OFFLINE ==> |b.run| < |b.threads|)
    && (b.threads[t].state == LEFT ==>
          && b.threads[t].lastIdx < |b.run| && b.run[b.threads[t].lastIdx] == t
          && (b.cur > 0 ==> b.run[b.cur - 1] < |b.threads|))
  }

  function Joining(b: Barrier, t: nat): Barrier
    requires JoinShape(b, t)
  {
    var b1 :=
      if b.threads[t].state == OFFLINE then b.(run := b.run + [t], placed := b.placed - {t})
      else if b.cur > b.threads[t].lastIdx then Reschedule(b, t).(left := b.left - 1)
      else b.(left := b.left - 1);
    b1.SetThread(t, b1.threads[t].(state := WAITING, futexWord := 1)).(
      steady := b1.steady + {t}, turns := b1.turns[t := 0])
  }

  // A waiting thread may leave only once it has been woken since it was appended: until then
  // its lastIdx is stale.
  ghost predicate CanLeave(b: Barrier, t: nat) {
    t < |b.threads| && (b.threads[t].state == RUNNING || (b.threads[t].state == WAITING && t in b.placed))
  }

  function Leaving(b: Barrier, t: nat): Barrier
    requires t < |b.threads|
  {
    b.SetThread(t, b.threads[t].(state := LEFT)).(
      left := b.left + 1, steady := b.steady - {t},
      running := if b.threads[t].state == RUNNING && b.running > 0 then b.running - 1 else b.running)
  }

  ghost predicate CanSync(b: Barrier, t: nat) {
    t < |b.threads| && b.threads[t].state == RUNNING
  }

  function Syncing(b: Barrier, t: nat): Barrier
    requires t < |b.threads|
  {
    b.SetThread(t, b.threads[t].(state := WAITING, futexWord := 1)).(
      running := if b.running > 0 then b.running - 1 else 0)
  }
}
