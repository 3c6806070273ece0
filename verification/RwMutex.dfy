// The read-write mutex with atomic downgrade: its atomic steps for any number of threads. The two
// mutexes it is built from, rb and wq, are plain locks; wq may be unlocked by another thread than
// the one that locked it.
module RwMutex {
  import opened Arithmetic

  // RdWaitRb .. RdExit: rdLock, waiting for rb, holding it before the increment, waiting for wq
  // as first reader, and about to release rb. RdLast: rdUnlock, the last reader about to unlock
  // wq. WrWaitRb .. WrExit: wrLock, waiting for rb, holding it and waiting for wq, about to
  // release rb. Dropping: downgrade, about to unlock wq because a reader waits for it.
  datatype Pc = Out | RdWaitRb | RdEnter | RdWaitWq | RdExit | Reading | RdLast
              | WrWaitRb | WrWaitWq | WrExit | Writing | Dropping

  datatype State = State(readers: nat, rb: bool, wq: bool, pcs: seq<Pc>)

  datatype Op = AskRead | AskWrite | LockRb | Increment | LockWq | ReleaseRb | Decrement | UnlockWq | Downgrade

  datatype Step = Step(t: nat, op: Op)

  function Start(n: nat): State {
    State(0, false, false, seq(n, _ => Out))
  }

  predicate HasRb(p: Pc) {
    p.RdEnter? || p.RdWaitWq? || p.RdExit? || p.WrWaitWq? || p.WrExit?
  }

  // Counted in readers.
  predicate Counted(p: Pc) {
    p.RdWaitWq? || p.RdExit? || p.Reading? || p.Dropping?
  }

  // Has wq for itself.
  predicate HasWq(p: Pc) {
    p.WrExit? || p.Writing? || p.Dropping? || p.RdLast?
  }

  // Belongs to the readers that share wq.
  predicate Shares(p: Pc) {
    p.RdExit? || p.Reading?
  }

  predicate Enabled(s: State, step: Step) {
    step.t < |s.pcs| &&
    var p := s.pcs[step.t];
    match step.op
    case AskRead => p.Out?
    case AskWrite => p.Out?
    case LockRb => (p.RdWaitRb? || p.WrWaitRb?) && !s.rb
    case Increment => p.RdEnter?
    case LockWq => (p.RdWaitWq? || p.WrWaitWq?) && !s.wq
    case ReleaseRb => p.RdExit? || p.WrExit?
    case Decrement => p.Reading?
    case UnlockWq => p.RdLast? || p.Writing? || p.Dropping?
    case Downgrade => p.Writing?
  }

  // The decrement does not wrap around, wq is locked when it is unlocked, and a writer that becomes
  // a reader finds at most one reader.
  predicate Asserts(s: State, step: Step) {
    match step.op
    case Decrement => s.readers >= 1
    case UnlockWq => s.wq
    case ReleaseRb => s.rb
    case Downgrade => s.readers == 0 || s.readers == 1
    case _ => true
  }

  function Apply(s: State, step: Step): State
    requires Enabled(s, step) && Asserts(s, step)
  {
    var t := step.t;
    var p := s.pcs[t];
    match step.op
    case AskRead => s.(pcs := s.pcs[t := RdWaitRb])
    case AskWrite => s.(pcs := s.pcs[t := WrWaitRb])
    case LockRb => s.(rb := true, pcs := s.pcs[t := if p.RdWaitRb? then RdEnter else WrWaitWq])
    case Increment => s.(readers := s.readers + 1, pcs := s.pcs[t := if s.readers == 0 then RdWaitWq else RdExit])
    case LockWq => s.(wq := true, pcs := s.pcs[t := if p.RdWaitWq? then RdExit else WrExit])
    case ReleaseRb => s.(rb := false, pcs := s.pcs[t := if p.RdExit? then Reading else Writing])
    case Decrement => s.(readers := s.readers - 1, pcs := s.pcs[t := if s.readers == 1 then RdLast else Out])
    case UnlockWq => s.(wq := false, pcs := s.pcs[t := if p.Dropping? then Reading else Out])
    case Downgrade => s.(readers := s.readers + 1, pcs := s.pcs[t := if s.readers == 0 then Reading else Dropping])
  }

  // ----- The invariant -----

  ghost function CountedSet(pcs: seq<Pc>): set<nat> {
    set t | 0 <= t < |pcs| && Counted(pcs[t])
  }

  ghost predicate AnyHasRb(pcs: seq<Pc>) { exists t :: 0 <= t < |pcs| && HasRb(pcs[t]) }
  ghost predicate AnyHasWq(pcs: seq<Pc>) { exists t :: 0 <= t < |pcs| && HasWq(pcs[t]) }
  ghost predicate AnyShares(pcs: seq<Pc>) { exists t :: 0 <= t < |pcs| && Shares(pcs[t]) }
  ghost predicate AnyWaitsWq(pcs: seq<Pc>) { exists t :: 0 <= t < |pcs| && pcs[t].RdWaitWq? }

  ghost predicate RbOk(s: State) {
    && (s.rb <==> AnyHasRb(s.pcs))
    && (forall t, u | 0 <= t < |s.pcs| && 0 <= u < |s.pcs| && HasRb(s.pcs[t]) && HasRb(s.pcs[u]) :: t == u)
  }

  ghost predicate CountOk(s: State) {
    s.readers == |CountedSet(s.pcs)|
  }

  // wq is with one thread or with the readers, never both. The readers are without wq only while
  // the first of them, which holds rb, still waits for it.
  ghost predicate WqOk(s: State) {
    && (forall t, u | 0 <= t < |s.pcs| && 0 <= u < |s.pcs| && HasWq(s.pcs[t]) && HasWq(s.pcs[u]) :: t == u)
    && (AnyHasWq(s.pcs) ==> s.wq && !AnyShares(s.pcs))
    && (s.wq ==> AnyHasWq(s.pcs) || AnyShares(s.pcs))
    && (AnyShares(s.pcs) ==> (s.wq <==> !AnyWaitsWq(s.pcs)))
    && (forall t | 0 <= t < |s.pcs| && s.pcs[t].Dropping? :: AnyWaitsWq(s.pcs))
  }

  ghost predicate Inv(s: State) {
    RbOk(s) && CountOk(s) && WqOk(s)
  }

  lemma StartInv(n: nat)
    ensures Inv(Start(n))
  {
    assert CountedSet(Start(n).pcs) == {};
  }

  // ----- Counting -----

  lemma CountedUpdate(pcs: seq<Pc>, t: nat, p: Pc)
    requires t < |pcs|
    ensures CountedSet(pcs[t := p]) == if Counted(p) then CountedSet(pcs) + {t} else CountedSet(pcs) - {t}
    ensures t in CountedSet(pcs) <==> Counted(pcs[t])
  {
    var d := pcs[t := p];
    forall x ensures x in CountedSet(d) <==> if x == t then Counted(p) else x in CountedSet(pcs) {
      if 0 <= x < |pcs| { assert d[x] == if x == t then p else pcs[x]; }
    }
  }

  lemma CountChange(pcs: seq<Pc>, t: nat, p: Pc)
    requires t < |pcs|
    ensures |CountedSet(pcs[t := p])|
            == |CountedSet(pcs)| + (if Counted(p) then 1 else 0) - (if Counted(pcs[t]) then 1 else 0)
  {
    hide Counted, CountedSet;
    CountedUpdate(pcs, t, p);
    var c := CountedSet(pcs);
    if t in c { assert c + {t} == c; } else { assert c - {t} == c; }
  }

  lemma OnlyCounted(pcs: seq<Pc>, t: nat)
    requires t < |pcs| && Counted(pcs[t]) && |CountedSet(pcs)| == 1
    ensures forall u | 0 <= u < |pcs| && Counted(pcs[u]) :: u == t
  {
    forall u | 0 <= u < |pcs| && Counted(pcs[u]) ensures u == t {
      assert u in CountedSet(pcs) && t in CountedSet(pcs);
      if u != t { SubsetCard({t, u}, CountedSet(pcs)); }
    }
  }

  lemma NoneCounted(pcs: seq<Pc>)
    requires |CountedSet(pcs)| == 0
    ensures forall u | 0 <= u < |pcs| :: !Counted(pcs[u])
  {
    forall u | 0 <= u < |pcs| ensures !Counted(pcs[u]) {
      assert u !in CountedSet(pcs);
    }
  }

  lemma SomeCounted(pcs: seq<Pc>, t: nat)
    requires t < |pcs| && Counted(pcs[t])
    ensures |CountedSet(pcs)| >= 1
    ensures |CountedSet(pcs)| > 1 ==> exists u :: 0 <= u < |pcs| && u != t && Counted(pcs[u])
  {
    assert t in CountedSet(pcs);
    var rest := CountedSet(pcs) - {t};
    if |CountedSet(pcs)| > 1 {
      assert |rest| > 0;
      var u :| u in rest;
    }
  }

  // ----- Steps -----

  // With a writer inside, nobody but a first reader waiting for wq has been counted.
  lemma CountedUnderWriter(s: State, t: nat, u: nat)
    requires RbOk(s) && WqOk(s) && t < |s.pcs| && s.pcs[t].Writing? && u < |s.pcs| && Counted(s.pcs[u])
    ensures s.pcs[u].RdWaitWq?
  {
    assert HasWq(s.pcs[t]);
    assert Shares(s.pcs[u]) ==> AnyShares(s.pcs);
    assert s.pcs[u].Dropping? ==> HasWq(s.pcs[u]);
  }

  lemma DowngradeAssert(s: State, t: nat)
    requires Inv(s) && t < |s.pcs| && s.pcs[t].Writing?
    ensures s.readers <= 1
    ensures s.readers == 1 ==> AnyWaitsWq(s.pcs)
    ensures s.readers == 0 ==> !AnyWaitsWq(s.pcs)
  {
    var c := CountedSet(s.pcs);
    if s.readers >= 1 {
      var u :| u in c;
      CountedUnderWriter(s, t, u);
      forall v | v in c ensures v == u {
        CountedUnderWriter(s, t, v);
        assert HasRb(s.pcs[u]) && HasRb(s.pcs[v]);
      }
      assert c == {u};
    } else {
      NoneCounted(s.pcs);
    }
  }

  lemma AssertsHold(s: State, step: Step)
    requires Inv(s) && Enabled(s, step)
    ensures Asserts(s, step)
  {
    var p := s.pcs[step.t];
    if p.Reading? { SomeCounted(s.pcs, step.t); }
    if p.Writing? { DowngradeAssert(s, step.t); }
    assert HasWq(p) ==> AnyHasWq(s.pcs);
    assert HasRb(p) ==> AnyHasRb(s.pcs);
  }

  lemma StepRb(s: State, step: Step)
    requires RbOk(s) && Enabled(s, step) && Asserts(s, step)
    ensures RbOk(Apply(s, step))
  {
    var s1, t := Apply(s, step), step.t;
    forall u | 0 <= u < |s.pcs| && u != t ensures s1.pcs[u] == s.pcs[u] {}
    if HasRb(s1.pcs[t]) { assert AnyHasRb(s1.pcs); }
    if HasRb(s.pcs[t]) { assert AnyHasRb(s.pcs); }
    if s.rb && s1.rb && !HasRb(s.pcs[t]) {
      var u :| 0 <= u < |s.pcs| && HasRb(s.pcs[u]);
      assert HasRb(s1.pcs[u]);
    }
  }

  lemma StepCount(s: State, step: Step)
    requires CountOk(s) && Enabled(s, step) && Asserts(s, step)
    ensures CountOk(Apply(s, step))
  {
    CountChange(s.pcs, step.t, Apply(s, step).pcs[step.t]);
  }

  // How the step of thread t changes who has wq, shares it, or waits for it as first reader.
  lemma Others(pcs: seq<Pc>, t: nat, p: Pc)
    requires t < |pcs|
    ensures HasWq(p) ==> AnyHasWq(pcs[t := p])
    ensures Shares(p) ==> AnyShares(pcs[t := p])
    ensures p.RdWaitWq? ==> AnyWaitsWq(pcs[t := p])
    ensures !HasWq(pcs[t]) && AnyHasWq(pcs) ==> AnyHasWq(pcs[t := p])
    ensures !Shares(pcs[t]) && AnyShares(pcs) ==> AnyShares(pcs[t := p])
    ensures !pcs[t].RdWaitWq? && AnyWaitsWq(pcs) ==> AnyWaitsWq(pcs[t := p])
    ensures !HasWq(p) && AnyHasWq(pcs[t := p]) ==> AnyHasWq(pcs)
    ensures !Shares(p) && AnyShares(pcs[t := p]) ==> AnyShares(pcs)
    ensures !p.RdWaitWq? && AnyWaitsWq(pcs[t := p]) ==> AnyWaitsWq(pcs)
    ensures HasWq(pcs[t]) ==> AnyHasWq(pcs)
    ensures Shares(pcs[t]) ==> AnyShares(pcs)
    ensures pcs[t].RdWaitWq? ==> AnyWaitsWq(pcs)
  {
    var q := pcs[t := p];
    assert q[t] == p;
    if AnyHasWq(pcs) && !HasWq(pcs[t]) { var u :| 0 <= u < |pcs| && HasWq(pcs[u]); assert HasWq(q[u]); }
    if AnyShares(pcs) && !Shares(pcs[t]) { var u :| 0 <= u < |pcs| && Shares(pcs[u]); assert Shares(q[u]); }
    if AnyWaitsWq(pcs) && !pcs[t].RdWaitWq? { var u :| 0 <= u < |pcs| && pcs[u].RdWaitWq?; assert q[u].RdWaitWq?; }
  }

  // A thread that has rb is the only one that can wait for wq.
  lemma RbAlone(s: State, t: nat)
    requires RbOk(s) && t < |s.pcs| && HasRb(s.pcs[t]) && !s.pcs[t].RdWaitWq?
    ensures !AnyWaitsWq(s.pcs)
  {
    if AnyWaitsWq(s.pcs) {
      var u :| 0 <= u < |s.pcs| && s.pcs[u].RdWaitWq?;
      assert HasRb(s.pcs[u]) && u != t;
    }
  }

  // The later readers find the first one inside.
  lemma LaterReader(s: State, t: nat)
    requires Inv(s) && t < |s.pcs| && s.pcs[t].RdEnter?
    ensures !AnyWaitsWq(s.pcs)
    ensures s.readers != 0 <==> AnyShares(s.pcs)
  {
    RbAlone(s, t);
    if s.readers != 0 {
      var u :| u in CountedSet(s.pcs);
      assert HasRb(s.pcs[u]) ==> u == t;
      assert !s.pcs[u].Dropping?;
    } else {
      NoneCounted(s.pcs);
    }
  }

  lemma LastReader(s: State, t: nat)
    requires Inv(s) && t < |s.pcs| && s.pcs[t].Reading?
    ensures AnyShares(s.pcs)
    ensures s.readers == 1 ==> !AnyWaitsWq(s.pcs) && forall u | 0 <= u < |s.pcs| && Shares(s.pcs[u]) :: u == t
    ensures s.readers > 1 ==> AnyWaitsWq(s.pcs) || exists u :: 0 <= u < |s.pcs| && u != t && Shares(s.pcs[u])
  {
    assert Shares(s.pcs[t]);
    if s.readers == 1 {
      OnlyCounted(s.pcs, t);
    } else {
      SomeCounted(s.pcs, t);
      var u :| 0 <= u < |s.pcs| && u != t && Counted(s.pcs[u]);
      assert !s.pcs[u].Dropping? by { assert s.pcs[u].Dropping? ==> HasWq(s.pcs[u]); }
    }
  }

  lemma StepWqRead(s: State, step: Step)
    requires Inv(s) && Enabled(s, step) && Asserts(s, step)
    requires step.op.Increment? || step.op.Decrement?
    ensures WqOk(Apply(s, step))
  {
    var t := step.t;
    var p := Apply(s, step).pcs[t];
    Others(s.pcs, t, p);
    if step.op.Increment? {
      LaterReader(s, t);
    } else {
      LastReader(s, t);
      if s.readers > 1 && !AnyWaitsWq(s.pcs) {
        var u :| 0 <= u < |s.pcs| && u != t && Shares(s.pcs[u]);
        assert Shares(s.pcs[t := p][u]);
      }
    }
    NoDropping(s);
    hide RbOk, CountOk, AnyHasWq, AnyShares, AnyWaitsWq;
  }

  // Nobody is dropping while readers share wq, or while nobody waits for it.
  lemma NoDropping(s: State)
    requires WqOk(s) && (AnyShares(s.pcs) || !AnyWaitsWq(s.pcs))
    ensures forall u | 0 <= u < |s.pcs| :: !s.pcs[u].Dropping?
  {
    forall u | 0 <= u < |s.pcs| ensures !s.pcs[u].Dropping? {
      assert s.pcs[u].Dropping? ==> HasWq(s.pcs[u]);
    }
  }

  lemma StepWqLock(s: State, step: Step)
    requires Inv(s) && Enabled(s, step) && Asserts(s, step) && step.op.LockWq?
    ensures WqOk(Apply(s, step))
  {
    var t := step.t;
    var p := Apply(s, step).pcs[t];
    Others(s.pcs, t, p);
    if s.pcs[t].WrWaitWq? {
      RbAlone(s, t);
    } else {
      StepRb(s, step);
      assert HasRb(p);
      RbAlone(Apply(s, step), t);
    }
    hide RbOk, CountOk, AnyShares, AnyWaitsWq;
  }

  lemma StepWqUnlock(s: State, step: Step)
    requires Inv(s) && Enabled(s, step) && Asserts(s, step) && step.op.UnlockWq?
    ensures WqOk(Apply(s, step))
  {
    var t := step.t;
    var p := Apply(s, step).pcs[t];
    Others(s.pcs, t, p);
    hide RbOk, CountOk, AnyShares, AnyWaitsWq;
  }

  lemma StepWqDowngrade(s: State, step: Step)
    requires Inv(s) && Enabled(s, step) && Asserts(s, step) && step.op.Downgrade?
    ensures WqOk(Apply(s, step))
  {
    var t := step.t;
    var p := Apply(s, step).pcs[t];
    DowngradeAssert(s, t);
    Others(s.pcs, t, p);
    hide RbOk, CountOk, AnyShares, AnyWaitsWq;
  }

  lemma StepWqOther(s: State, step: Step)
    requires Inv(s) && Enabled(s, step) && Asserts(s, step)
    requires step.op.AskRead? || step.op.AskWrite? || step.op.LockRb? || step.op.ReleaseRb?
    ensures WqOk(Apply(s, step))
  {
    var t := step.t;
    Others(s.pcs, t, Apply(s, step).pcs[t]);
    hide RbOk, CountOk, AnyShares, AnyWaitsWq, AnyHasWq;
  }

  lemma StepInv(s: State, step: Step)
    requires Inv(s) && Enabled(s, step)
    ensures Asserts(s, step) && Inv(Apply(s, step))
  {
    AssertsHold(s, step);
    StepRb(s, step);
    StepCount(s, step);
    hide RbOk, CountOk, WqOk, Apply, Enabled;
    match step.op
    case Increment => StepWqRead(s, step);
    case Decrement => StepWqRead(s, step);
    case LockWq => StepWqLock(s, step);
    case UnlockWq => StepWqUnlock(s, step);
    case Downgrade => StepWqDowngrade(s, step);
    case _ => StepWqOther(s, step);
  }

  // ----- Runs -----

  ghost predicate Possible(s: State, steps: seq<Step>)
    decreases |steps|
  {
    steps == [] || (Enabled(s, steps[0]) && (Asserts(s, steps[0]) ==> Possible(Apply(s, steps[0]), steps[1..])))
  }

  ghost predicate Completes(s: State, steps: seq<Step>)
    decreases |steps|
  {
    steps == [] || (Enabled(s, steps[0]) && Asserts(s, steps[0]) && Completes(Apply(s, steps[0]), steps[1..]))
  }

  ghost function Run(s: State, steps: seq<Step>): State
    requires Completes(s, steps)
    decreases |steps|
  {
    if steps == [] then s else Run(Apply(s, steps[0]), steps[1..])
  }

  lemma {:induction false} NeverStops(s: State, steps: seq<Step>)
    requires Inv(s) && Possible(s, steps)
    ensures Completes(s, steps)
    decreases |steps|
  {
    hide Inv, Apply, Enabled, Asserts;
    if steps != [] {
      StepInv(s, steps[0]);
      NeverStops(Apply(s, steps[0]), steps[1..]);
    }
  }

  lemma {:induction false} RunInv(s: State, steps: seq<Step>)
    requires Inv(s) && Completes(s, steps)
    ensures Inv(Run(s, steps))
    decreases |steps|
  {
    hide Inv, Apply, Enabled, Asserts;
    if steps != [] {
      StepInv(s, steps[0]);
      RunInv(Apply(s, steps[0]), steps[1..]);
    }
  }

  // In every run, oldReaders is 0 or 1 when a writer becomes a reader, the counter never wraps
  // around, and no mutex is unlocked that is not locked.
  lemma NoAssertFails(n: nat, steps: seq<Step>)
    requires Possible(Start(n), steps)
    ensures Completes(Start(n), steps)
  {
    StartInv(n);
    NeverStops(Start(n), steps);
  }

  predicate Inside(p: Pc) {
    p.Reading? || p.Dropping?
  }

  // A writer is alone: while a thread writes, no other thread writes, reads, or is on its way from
  // writing to reading.
  lemma WriterAlone(n: nat, steps: seq<Step>, t: nat, u: nat)
    requires Completes(Start(n), steps)
    requires var s := Run(Start(n), steps); t < |s.pcs| && u < |s.pcs| && t != u && s.pcs[t].Writing?
    ensures var s := Run(Start(n), steps); !s.pcs[u].Writing? && !Inside(s.pcs[u])
  {
    StartInv(n);
    RunInv(Start(n), steps);
    var s := Run(Start(n), steps);
    hide Run;
    assert HasWq(s.pcs[t]);
    assert Shares(s.pcs[u]) ==> AnyShares(s.pcs);
  }

  // ----- Downgrade -----

  // Thread t is writing, on its way to reading, or reading, all through the run from s.
  ghost predicate Keeps(s: State, t: nat, steps: seq<Step>)
    requires Completes(s, steps)
    decreases |steps|
  {
    && t < |s.pcs| && (s.pcs[t].Writing? || Inside(s.pcs[t]))
    && (steps == [] || Keeps(Apply(s, steps[0]), t, steps[1..]))
  }

  // Some other thread writes at some point of the run from s.
  ghost predicate OtherWriter(s: State, t: nat, steps: seq<Step>)
    requires Completes(s, steps)
    decreases |steps|
  {
    || (exists u :: 0 <= u < |s.pcs| && u != t && s.pcs[u].Writing?)
    || (steps != [] && OtherWriter(Apply(s, steps[0]), t, steps[1..]))
  }

  lemma NoOtherWriter(s: State, t: nat, u: nat)
    requires Inv(s) && t < |s.pcs| && (s.pcs[t].Writing? || Inside(s.pcs[t])) && u < |s.pcs| && u != t
    ensures !s.pcs[u].Writing?
  {
    assert HasWq(s.pcs[t]) || Shares(s.pcs[t]);
    assert Shares(s.pcs[t]) ==> AnyShares(s.pcs);
    assert HasWq(s.pcs[u]) ==> AnyHasWq(s.pcs);
  }

  // From the moment a thread writes until it stops reading after a downgrade, no other thread
  // gets to write, although wq may be free in between.
  lemma {:induction false} DowngradeAdmitsNoWriter(s: State, t: nat, steps: seq<Step>)
    requires Inv(s) && Completes(s, steps) && Keeps(s, t, steps)
    ensures !OtherWriter(s, t, steps)
    decreases |steps|
  {
    forall u | 0 <= u < |s.pcs| && u != t ensures !s.pcs[u].Writing? { NoOtherWriter(s, t, u); }
    if steps != [] {
      hide Inv;
      StepInv(s, steps[0]);
      DowngradeAdmitsNoWriter(Apply(s, steps[0]), t, steps[1..]);
    }
  }

  // A downgrade may indeed free wq for a while: a reader waits for it, thread 0 unlocks it, and
  // both end up reading.
  lemma DowngradeMayFreeWq()
    ensures exists steps :: Completes(Start(2), steps)
              && Run(Start(2), steps) == State(2, true, false, [Reading, RdWaitWq])
  {
    var last := [Step(0, Downgrade), Step(0, UnlockWq)];
    var middle := [Step(1, AskRead), Step(1, LockRb), Step(1, Increment)] + last;
    FreesWq(last);
    ReaderArrives(last);
    var first := [Step(0, AskWrite), Step(0, LockRb), Step(0, LockWq), Step(0, ReleaseRb)] + middle;
    WriterEnters(middle);
    assert Completes(Start(2), first);
  }

  lemma WriterEnters(rest: seq<Step>)
    requires Completes(State(0, false, true, [Writing, Out]), rest)
    ensures var steps := [Step(0, AskWrite), Step(0, LockRb), Step(0, LockWq), Step(0, ReleaseRb)] + rest;
            Completes(Start(2), steps) && Run(Start(2), steps) == Run(State(0, false, true, [Writing, Out]), rest)
  {
    var s0 := State(0, false, false, [Out, Out]);
    var s1 := State(0, false, false, [WrWaitRb, Out]);
    var s2 := State(0, true, false, [WrWaitWq, Out]);
    var s3 := State(0, true, true, [WrExit, Out]);
    Prepend(s3, Step(0, ReleaseRb), State(0, false, true, [Writing, Out]), rest);
    Prepend(s2, Step(0, LockWq), s3, [Step(0, ReleaseRb)] + rest);
    Prepend(s1, Step(0, LockRb), s2, [Step(0, LockWq)] + ([Step(0, ReleaseRb)] + rest));
    Prepend(s0, Step(0, AskWrite), s1, [Step(0, LockRb)] + ([Step(0, LockWq)] + ([Step(0, ReleaseRb)] + rest)));
    assert Start(2) == s0;
    assert [Step(0, AskWrite), Step(0, LockRb), Step(0, LockWq), Step(0, ReleaseRb)] + rest
        == [Step(0, AskWrite)] + ([Step(0, LockRb)] + ([Step(0, LockWq)] + ([Step(0, ReleaseRb)] + rest)));
  }

  lemma ReaderArrives(rest: seq<Step>)
    requires Completes(State(1, true, true, [Writing, RdWaitWq]), rest)
    ensures var steps := [Step(1, AskRead), Step(1, LockRb), Step(1, Increment)] + rest;
            var s := State(0, false, true, [Writing, Out]);
            Completes(s, steps) && Run(s, steps) == Run(State(1, true, true, [Writing, RdWaitWq]), rest)
  {
    var s4 := State(0, false, true, [Writing, Out]);
    var s5 := State(0, false, true, [Writing, RdWaitRb]);
    var s6 := State(0, true, true, [Writing, RdEnter]);
    Prepend(s6, Step(1, Increment), State(1, true, true, [Writing, RdWaitWq]), rest);
    Prepend(s5, Step(1, LockRb), s6, [Step(1, Increment)] + rest);
    Prepend(s4, Step(1, AskRead), s5, [Step(1, LockRb)] + ([Step(1, Increment)] + rest));
    assert [Step(1, AskRead), Step(1, LockRb), Step(1, Increment)] + rest
        == [Step(1, AskRead)] + ([Step(1, LockRb)] + ([Step(1, Increment)] + rest));
  }

  lemma FreesWq(last: seq<Step>)
    requires last == [Step(0, Downgrade), Step(0, UnlockWq)]
    ensures var s := State(1, true, true, [Writing, RdWaitWq]);
            Completes(s, last) && Run(s, last) == State(2, true, false, [Reading, RdWaitWq])
  {
    var s7 := State(1, true, true, [Writing, RdWaitWq]);
    var s8 := State(2, true, true, [Dropping, RdWaitWq]);
    Prepend(s8, Step(0, UnlockWq), State(2, true, false, [Reading, RdWaitWq]), []);
    Prepend(s7, Step(0, Downgrade), s8, [Step(0, UnlockWq)]);
    assert last == [Step(0, Downgrade)] + ([Step(0, UnlockWq)] + []);
  }

  lemma Prepend(s: State, step: Step, s1: State, rest: seq<Step>)
    requires Enabled(s, step) && Asserts(s, step) && Completes(s1, rest)
    requires var a := Apply(s, step); a.readers == s1.readers && a.rb == s1.rb && a.wq == s1.wq && a.pcs == s1.pcs
    ensures Completes(s, [step] + rest) && Run(s, [step] + rest) == Run(s1, rest)
  {
    assert ([step] + rest)[1..] == rest;
    assert Apply(s, step) == s1;
  }

  // ----- Progress -----

  predicate InCriticalSection(p: Pc) {
    p.Reading? || p.Writing?
  }

  predicate CanMove(s: State, t: nat) {
    t < |s.pcs| && !s.pcs[t].Out? && !InCriticalSection(s.pcs[t])
    && !((s.pcs[t].RdWaitRb? || s.pcs[t].WrWaitRb?) && s.rb)
    && !((s.pcs[t].RdWaitWq? || s.pcs[t].WrWaitWq?) && s.wq)
  }

  // While any thread wants in or out, some thread can go on, or some thread is reading or writing.
  lemma NoDeadlock(n: nat, steps: seq<Step>, t: nat)
    requires Completes(Start(n), steps)
    requires var s := Run(Start(n), steps); t < |s.pcs| && !s.pcs[t].Out?
    ensures var s := Run(Start(n), steps);
            exists u :: 0 <= u < |s.pcs| && (CanMove(s, u) || InCriticalSection(s.pcs[u]))
  {
    StartInv(n);
    RunInv(Start(n), steps);
    var s := Run(Start(n), steps);
    hide Run;
    if !CanMove(s, t) && !InCriticalSection(s.pcs[t]) {
      var r: nat := t;
      if s.pcs[t].RdWaitRb? || s.pcs[t].WrWaitRb? {
        r :| 0 <= r < |s.pcs| && HasRb(s.pcs[r]);
      }
      if !CanMove(s, r) {
        assert s.wq;
        var u :| 0 <= u < |s.pcs| && (HasWq(s.pcs[u]) || Shares(s.pcs[u]));
        assert CanMove(s, u) || InCriticalSection(s.pcs[u]);
      }
    }
  }

  // ----- Getting in -----

  ghost predicate OwnSteps(steps: seq<Step>, t: nat) {
    forall i | 0 <= i < |steps| :: steps[i].t == t
  }

  // Thread t gets to p by its own steps alone, and the other threads stay where they are.
  ghost predicate Leads(s: State, t: nat, steps: seq<Step>, p: Pc) {
    OwnSteps(steps, t) && Completes(s, steps) && t < |s.pcs| && Run(s, steps).pcs == s.pcs[t := p]
  }

  lemma OneStep(s: State, step: Step, s1: State, rest: seq<Step>, p: Pc)
    requires Enabled(s, step) && Asserts(s, step) && s1 == Apply(s, step) && Leads(s1, step.t, rest, p)
    ensures Leads(s, step.t, [step] + rest, p)
  {
    Prepend(s, step, s1, rest);
    assert s1.pcs[step.t := p] == s.pcs[step.t := p];
  }

  lemma NoSteps(s: State, t: nat)
    requires t < |s.pcs|
    ensures Leads(s, t, [], s.pcs[t])
  {
    assert s.pcs[t := s.pcs[t]] == s.pcs;
  }

  // While others read, or wq is free, a thread that wants to read comes in unless another thread has rb.
  lemma ReaderEnters(s: State, t: nat) returns (steps: seq<Step>)
    requires t < |s.pcs| && s.pcs[t].RdWaitRb? && !s.rb && (s.readers > 0 || !s.wq)
    ensures Leads(s, t, steps, Reading)
    ensures !Run(s, steps).rb && Run(s, steps).readers == s.readers + 1 && Run(s, steps).wq == (s.readers == 0 || s.wq)
  {
    var s1 := Apply(s, Step(t, LockRb));
    var s2 := Apply(s1, Step(t, Increment));
    var s3 := if s.readers > 0 then s2 else Apply(s2, Step(t, LockWq));
    var s4 := Apply(s3, Step(t, ReleaseRb));
    NoSteps(s4, t);
    OneStep(s3, Step(t, ReleaseRb), s4, [], Reading);
    steps := [Step(t, ReleaseRb)] + [];
    Prepend(s3, Step(t, ReleaseRb), s4, []);
    hide Leads;
    if s.readers == 0 {
      OneStep(s2, Step(t, LockWq), s3, steps, Reading);
      Prepend(s2, Step(t, LockWq), s3, steps);
      steps := [Step(t, LockWq)] + steps;
    }
    OneStep(s1, Step(t, Increment), s2, steps, Reading);
    Prepend(s1, Step(t, Increment), s2, steps);
    steps := [Step(t, Increment)] + steps;
    OneStep(s, Step(t, LockRb), s1, steps, Reading);
    Prepend(s, Step(t, LockRb), s1, steps);
    steps := [Step(t, LockRb)] + steps;
  }

  // Readers share: in every reachable state in which some thread reads and nobody has rb, a thread that wants to read
  // gets to read by its own steps alone, and those who read go on reading.
  lemma ReadersShare(n: nat, pre: seq<Step>, r: nat, t: nat) returns (steps: seq<Step>)
    requires Completes(Start(n), pre)
    requires var s := Run(Start(n), pre);
             r < |s.pcs| && s.pcs[r].Reading? && t < |s.pcs| && s.pcs[t].RdWaitRb? && !s.rb
    ensures Leads(Run(Start(n), pre), t, steps, Reading)
    ensures Run(Run(Start(n), pre), steps).pcs[r].Reading?
  {
    StartInv(n);
    RunInv(Start(n), pre);
    var s := Run(Start(n), pre);
    SomeCounted(s.pcs, r);
    steps := ReaderEnters(s, t);
  }

  // Nothing keeps a writer out while rb and wq are free.
  lemma WriterComesIn(s: State, t: nat) returns (steps: seq<Step>)
    requires t < |s.pcs| && s.pcs[t].WrWaitRb? && !s.rb && !s.wq
    ensures Leads(s, t, steps, Writing)
  {
    var s1 := Apply(s, Step(t, LockRb));
    var s2 := Apply(s1, Step(t, LockWq));
    var s3 := Apply(s2, Step(t, ReleaseRb));
    NoSteps(s3, t);
    OneStep(s2, Step(t, ReleaseRb), s3, [], Writing);
    OneStep(s1, Step(t, LockWq), s2, [Step(t, ReleaseRb)] + [], Writing);
    OneStep(s, Step(t, LockRb), s1, [Step(t, LockWq)] + ([Step(t, ReleaseRb)] + []), Writing);
    steps := [Step(t, LockRb)] + ([Step(t, LockWq)] + ([Step(t, ReleaseRb)] + []));
  }

  lemma {:induction false} Append(s: State, steps: seq<Step>, more: seq<Step>)
    requires Completes(s, steps) && Completes(Run(s, steps), more)
    ensures Completes(s, steps + more) && Run(s, steps + more) == Run(Run(s, steps), more)
    decreases |steps|
  {
    hide Enabled, Asserts, Apply;
    if steps == [] {
      assert steps + more == more;
    } else {
      Append(Apply(s, steps[0]), steps[1..], more);
      assert (steps + more)[1..] == steps[1..] + more;
    }
  }

  // The first k threads read, and the others are out.
  function Readers(k: nat, n: nat): seq<Pc>
    requires k <= n
  {
    seq(n, i => if i < k then Reading else Out)
  }

  lemma {:induction false} FirstReaders(n: nat, k: nat) returns (steps: seq<Step>)
    requires k <= n
    ensures Completes(Start(n), steps) && Run(Start(n), steps) == State(k, false, k > 0, Readers(k, n))
  {
    if k == 0 {
      steps := [];
      assert Start(n).pcs == Readers(0, n);
    } else {
      steps := FirstReaders(n, k - 1);
      var s := Run(Start(n), steps);
      var t := k - 1;
      var s1 := Apply(s, Step(t, AskRead));
      var more := ReaderEnters(s1, t);
      Prepend(s, Step(t, AskRead), s1, more);
      Append(Start(n), steps, [Step(t, AskRead)] + more);
      steps := steps + ([Step(t, AskRead)] + more);
      assert s1.pcs[t := Reading] == Readers(k, n);
    }
  }

  // Any number of threads can read at once.
  lemma AllReadAtOnce(n: nat) returns (steps: seq<Step>)
    ensures Completes(Start(n), steps)
    ensures var s := Run(Start(n), steps); |s.pcs| == n && s.readers == n && forall t | 0 <= t < n :: s.pcs[t].Reading?
  {
    steps := FirstReaders(n, n);
  }
}
