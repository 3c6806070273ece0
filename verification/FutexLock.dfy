// The three-valued futex lock, one atomic access to the lock word at a time, for any number of
// threads.
module FutexLock {

  // futex_lock tries five times before it blocks, futex_lock_nospin once; the timed trylock tries
  // once and gives up after its wait.
  datatype Kind = Spinning | NoSpin | Timed

  function Tries(k: Kind): nat {
    if k.Spinning? then 5 else 1
  }

  // Spin: about to try the compare-and-swap; Swap: about to exchange in 2 before waiting; Call:
  // about to enter the wait system call; Asleep: in it; Swap2: about to exchange in 2 after it.
  // Holds(fast): owns the lock, taken by the compare-and-swap or by an exchange. Store: in
  // unlock, after a decrement that did not give 0; Wake: after storing 0, before the wake call.
  datatype Pc = Away | Spin(left: nat, k: Kind) | Swap(k: Kind) | Call(k: Kind) | Asleep(k: Kind)
              | Swap2(k: Kind) | Holds(fast: bool) | Store | Wake

  // expired: some timed trylock has given up since the word was last 0. It is bookkeeping.
  datatype State = State(word: nat, pcs: seq<Pc>, expired: bool)

  // Each step is taken by thread t. Wakes is the return from the wait without a wake call, by a
  // timeout or spuriously; Hand passes the ownership to another thread, which may then unlock.
  datatype Step = Ask(t: nat, k: Kind) | Try(t: nat) | Exchange(t: nat) | Wait(t: nat) | Wakes(t: nat)
                | Release(t: nat) | Hand(t: nat, u: nat) | DoStore(t: nat) | DoWake(t: nat, u: nat)

  function Start(n: nat): State {
    State(0, seq(n, _ => Away), false)
  }

  predicate Owns(p: Pc) {
    p.Holds? || p.Store?
  }

  // Will exchange in 2 before anything else.
  predicate WillSwap(p: Pc) {
    p.Swap? || p.Swap2?
  }

  predicate Waits(p: Pc) {
    p.Spin? || p.Swap? || p.Call? || p.Asleep? || p.Swap2?
  }

  ghost predicate AnyWaits(s: State) {
    exists u :: 0 <= u < |s.pcs| && Waits(s.pcs[u])
  }

  ghost predicate AnyAsleep(s: State) {
    exists u :: 0 <= u < |s.pcs| && s.pcs[u].Asleep?
  }

  ghost predicate Enabled(s: State, step: Step) {
    step.t < |s.pcs| &&
    var p := s.pcs[step.t];
    match step
    case Ask(_, _) => p.Away?
    case Try(_) => p.Spin?
    case Exchange(_) => WillSwap(p)
    case Wait(_) => p.Call?
    case Wakes(_) => p.Asleep?
    case Release(_) => p.Holds?
    case Hand(_, u) => p.Holds? && u < |s.pcs| && s.pcs[u].Away?
    case DoStore(_) => p.Store?
    // the wake call wakes one sleeper, if there is one; u == t stands for nobody
    case DoWake(t, u) => p.Wake? && u < |s.pcs| && (if AnyAsleep(s) then s.pcs[u].Asleep? else u == t)
  }

  // The decrement must not wrap around.
  predicate NoWrap(s: State, step: Step) {
    step.Release? ==> s.word >= 1
  }

  function At(s: State, t: nat, word: nat, p: Pc): State
    requires t < |s.pcs|
  {
    s.(word := word, pcs := s.pcs[t := p], expired := s.expired && word != 0)
  }

  function Apply(s: State, step: Step): State
    requires Enabled(s, step) && NoWrap(s, step)
  {
    var t := step.t;
    var p := s.pcs[t];
    match step
    case Ask(_, k) => At(s, t, s.word, Spin(Tries(k), k))
    case Try(_) =>
      if s.word == 0 then At(s, t, 1, Holds(true))
      else At(s, t, s.word, if p.left > 1 then Spin(p.left - 1, p.k) else Swap(p.k))
    case Exchange(_) =>
      if s.word == 0 then At(s, t, 2, Holds(false))
      else if p.Swap? then At(s, t, 2, Call(p.k))
      else if p.k.Timed? then At(s, t, 2, Away).(expired := true)
      else At(s, t, 2, Spin(Tries(p.k), p.k))
    case Wait(_) => At(s, t, s.word, if s.word == 2 then Asleep(p.k) else Swap2(p.k))
    case Wakes(_) => At(s, t, s.word, Swap2(p.k))
    case Release(_) => At(s, t, s.word - 1, if s.word == 1 then Away else Store)
    case Hand(_, u) => s.(pcs := s.pcs[t := Away][u := p])
    case DoStore(_) => At(s, t, 0, Wake)
    case DoWake(_, u) => At(if u == t then s else At(s, u, s.word, Swap2(s.pcs[u].k)), t, s.word, Away)
  }

  // ----- The invariant -----

  ghost predicate Owned(s: State) {
    exists t :: 0 <= t < |s.pcs| && Owns(s.pcs[t])
  }

  // At most one thread owns the lock or is between the decrement and the store, and there is one
  // exactly if the word is not 0.
  ghost predicate Exclusive(s: State) {
    && s.word <= 2
    && (forall t, u | 0 <= t < |s.pcs| && 0 <= u < |s.pcs| && Owns(s.pcs[t]) && Owns(s.pcs[u]) :: t == u)
    && (Owned(s) <==> s.word != 0)
  }

  // Somebody sees to it that a sleeper is woken.
  predicate Rescues(p: Pc) {
    p.Store? || p.Wake? || WillSwap(p)
  }

  ghost predicate NoLostWakeUp(s: State) {
    AnyAsleep(s) ==> s.word == 2 || exists t :: 0 <= t < |s.pcs| && Rescues(s.pcs[t])
  }

  // A lock taken by compare-and-swap shows 2 only if somebody waits or has given up waiting.
  ghost predicate TwoMeansWaiter(s: State) {
    (exists t :: 0 <= t < |s.pcs| && s.pcs[t] == Holds(true)) && s.word == 2 && !s.expired ==> AnyWaits(s)
  }

  ghost predicate Inv(s: State) {
    Exclusive(s) && NoLostWakeUp(s) && TwoMeansWaiter(s)
  }

  lemma StartInv(n: nat)
    ensures Inv(Start(n))
  {
  }

  lemma DecrementSafe(s: State, step: Step)
    requires Inv(s) && Enabled(s, step)
    ensures NoWrap(s, step)
  {
    if step.Release? { assert Owns(s.pcs[step.t]) && Owned(s); }
  }

  lemma StepOwned(s: State, step: Step)
    requires Exclusive(s) && Enabled(s, step) && NoWrap(s, step) && Apply(s, step).word != 0
    ensures Owned(Apply(s, step))
  {
    var s1, t := Apply(s, step), step.t;
    if s.word != 0 {
      var u :| 0 <= u < |s.pcs| && Owns(s.pcs[u]);
      assert Owns(s1.pcs[if step.Hand? && u == t then step.u else u]);
    } else {
      assert Owns(s1.pcs[t]);
    }
  }

  // A thread that owns the lock after the step owned it before, unless the lock was free and it
  // has taken it, or it has been handed over.
  lemma OwnedBefore(s: State, step: Step, x: nat)
    requires Exclusive(s) && Enabled(s, step) && NoWrap(s, step) && x < |s.pcs| && Owns(Apply(s, step).pcs[x])
    ensures if s.word == 0 then x == step.t
            else Owns(s.pcs[if step.Hand? && x == step.u then step.t else x]) && !(step.Hand? && x == step.t)
    ensures Apply(s, step).word != 0
  {
    if s.word != 0 && Owns(s.pcs[x]) { assert Owned(s); }
  }

  lemma StepExclusive(s: State, step: Step)
    requires Exclusive(s) && Enabled(s, step) && NoWrap(s, step)
    ensures Exclusive(Apply(s, step))
  {
    var s1 := Apply(s, step);
    if s1.word != 0 { StepOwned(s, step); }
    assert s1.word <= 2;
    assert |s1.pcs| == |s.pcs|;
    hide Apply;
    forall x | 0 <= x < |s1.pcs| && Owns(s1.pcs[x])
      ensures s1.word != 0 && if s.word == 0 then x == step.t
              else Owns(s.pcs[if step.Hand? && x == step.u then step.t else x]) && !(step.Hand? && x == step.t)
    {
      OwnedBefore(s, step, x);
    }
  }

  lemma StepNoLostWakeUp(s: State, step: Step)
    requires Exclusive(s) && NoLostWakeUp(s) && Enabled(s, step) && NoWrap(s, step)
    ensures NoLostWakeUp(Apply(s, step))
  {
    var s1, t := Apply(s, step), step.t;
    if AnyAsleep(s1) && s1.word != 2 {
      var u :| 0 <= u < |s1.pcs| && s1.pcs[u].Asleep?;
      assert s.pcs[u].Asleep?;
      if Rescues(s1.pcs[t]) {
      } else if step.DoWake? {
        assert Rescues(s1.pcs[step.u]);
      } else {
        var r :| 0 <= r < |s.pcs| && Rescues(s.pcs[r]);
        assert r != t && Rescues(s1.pcs[r]);
      }
    }
  }

  lemma StepTwoMeansWaiter(s: State, step: Step)
    requires Exclusive(s) && TwoMeansWaiter(s) && Enabled(s, step) && NoWrap(s, step)
    ensures TwoMeansWaiter(Apply(s, step))
  {
    var s1, t := Apply(s, step), step.t;
    if s1.word == 2 && !s1.expired && exists u :: 0 <= u < |s1.pcs| && s1.pcs[u] == Holds(true) {
      var h :| 0 <= h < |s1.pcs| && s1.pcs[h] == Holds(true);
      if !Waits(s1.pcs[t]) {
        var g := if step.Hand? && h == step.u then t else h;
        assert s.pcs[g] == Holds(true) && Owns(s.pcs[g]);
        var u :| 0 <= u < |s.pcs| && Waits(s.pcs[u]);
        assert Waits(s1.pcs[u]);
      }
    }
  }

  lemma StepInv(s: State, step: Step)
    requires Inv(s) && Enabled(s, step)
    ensures NoWrap(s, step) && Inv(Apply(s, step))
  {
    DecrementSafe(s, step);
    StepExclusive(s, step);
    StepNoLostWakeUp(s, step);
    StepTwoMeansWaiter(s, step);
  }

  // ----- Runs -----

  ghost predicate Possible(s: State, steps: seq<Step>)
    decreases |steps|
  {
    steps == [] || (Enabled(s, steps[0]) && (NoWrap(s, steps[0]) ==> Possible(Apply(s, steps[0]), steps[1..])))
  }

  ghost predicate Completes(s: State, steps: seq<Step>)
    decreases |steps|
  {
    steps == [] || (Enabled(s, steps[0]) && NoWrap(s, steps[0]) && Completes(Apply(s, steps[0]), steps[1..]))
  }

  ghost function Run(s: State, steps: seq<Step>): State
    requires Completes(s, steps)
    decreases |steps|
  {
    if steps == [] then s else Run(Apply(s, steps[0]), steps[1..])
  }

  lemma {:induction false} NeverStops(s: State, steps: seq<Step>)
    requires Inv(s) && Possible(s, steps)
    ensures Completes(s, steps)
    decreases |steps|
  {
    hide Inv, Apply, Enabled;
    if steps != [] {
      StepInv(s, steps[0]);
      NeverStops(Apply(s, steps[0]), steps[1..]);
    }
  }

  lemma {:induction false} RunInv(s: State, steps: seq<Step>)
    requires Inv(s) && Completes(s, steps)
    ensures Inv(Run(s, steps))
    decreases |steps|
  {
    hide Inv, Apply, Enabled;
    if steps != [] {
      StepInv(s, steps[0]);
      RunInv(Apply(s, steps[0]), steps[1..]);
    }
  }

  // The decrement in unlock never wraps around.
  lemma NoAssertFails(n: nat, steps: seq<Step>)
    requires Possible(Start(n), steps)
    ensures Completes(Start(n), steps)
  {
    StartInv(n);
    NeverStops(Start(n), steps);
  }

  // Two threads never own the lock together.
  lemma MutualExclusion(n: nat, steps: seq<Step>, t: nat, u: nat)
    requires Completes(Start(n), steps)
    requires var s := Run(Start(n), steps); t < |s.pcs| && u < |s.pcs| && s.pcs[t].Holds? && s.pcs[u].Holds?
    ensures t == u
  {
    StartInv(n);
    RunInv(Start(n), steps);
  }

  // While a thread sleeps, the word is 2 and somebody owns the lock, or an unlocking thread has
  // yet to make its wake call, or an awake thread is about to exchange in 2. In particular, it is
  // never the case that all threads are asleep or away.
  lemma NobodySleepsForever(n: nat, steps: seq<Step>)
    requires Completes(Start(n), steps)
    ensures var s := Run(Start(n), steps);
            AnyAsleep(s) ==>
              || (s.word == 2 && exists t :: 0 <= t < |s.pcs| && s.pcs[t].Holds?)
              || (exists t :: 0 <= t < |s.pcs| && Rescues(s.pcs[t]))
  {
    StartInv(n);
    RunInv(Start(n), steps);
    var s := Run(Start(n), steps);
    if AnyAsleep(s) && s.word == 2 {
      var t :| 0 <= t < |s.pcs| && Owns(s.pcs[t]);
      assert s.pcs[t].Holds? || Rescues(s.pcs[t]);
    }
  }

  // ----- futex_haswaiters -----

  function HasWaiters(s: State): bool {
    s.word == 2
  }

  // A positive answer to an owner, who got the lock by compare-and-swap (fast) or by an exchange, is right.
  ghost predicate AnswerRight(n: nat, steps: seq<Step>, t: nat, fast: bool, expired: bool) {
    Completes(Start(n), steps) ==>
      var s := Run(Start(n), steps);
      t < |s.pcs| && s.pcs[t] == Holds(fast) && s.expired == expired && HasWaiters(s) ==> AnyWaits(s)
  }

  lemma FastOwnerRight(n: nat, steps: seq<Step>, t: nat)
    ensures AnswerRight(n, steps, t, true, false)
  {
    if Completes(Start(n), steps) {
      StartInv(n);
      RunInv(Start(n), steps);
    }
  }

  // Positive answers are right in all runs exactly for an owner that got the lock by compare-and-swap, while no
  // timed trylock has given up.
  lemma HasWaitersTrueIff(fast: bool, expired: bool)
    ensures (forall n: nat, steps: seq<Step>, t: nat :: AnswerRight(n, steps, t, fast, expired)) <==> fast && !expired
  {
    hide AnswerRight;
    if fast && !expired {
      forall n: nat, steps: seq<Step>, t: nat ensures AnswerRight(n, steps, t, fast, expired) {
        FastOwnerRight(n, steps, t);
      }
    } else if fast {
      WrongToFast();
    } else if expired {
      WrongAfterBoth();
    } else {
      WrongToSlow();
    }
  }

  // ----- Runs of two threads -----

  function Two(word: nat, p: Pc, q: Pc, expired: bool): State {
    State(word, [p, q], expired)
  }

  ghost predicate Leads(steps: seq<Step>, s: State) {
    Completes(Start(2), steps) && Run(Start(2), steps) == s
  }

  lemma {:induction false} Append(s: State, steps: seq<Step>, step: Step)
    requires Completes(s, steps) && Enabled(Run(s, steps), step) && NoWrap(Run(s, steps), step)
    ensures Completes(s, steps + [step]) && Run(s, steps + [step]) == Apply(Run(s, steps), step)
    decreases |steps|
  {
    hide Enabled, NoWrap, Apply;
    if steps == [] {
      assert steps + [step] == [step] && [step][1..] == [];
      assert Completes(Apply(s, step), []);
    } else {
      Append(Apply(s, steps[0]), steps[1..], step);
      assert (steps + [step])[1..] == steps[1..] + [step];
    }
  }

  lemma Then(steps: seq<Step>, s: State, step: Step, word: nat, p: Pc, q: Pc, expired: bool) returns (more: seq<Step>)
    requires Leads(steps, s) && Enabled(s, step) && NoWrap(s, step)
    requires var s1 := Apply(s, step);
             s1.word == word && |s1.pcs| == 2 && s1.pcs[0] == p && s1.pcs[1] == q && s1.expired == expired
    ensures Leads(more, Two(word, p, q, expired))
  {
    Append(Start(2), steps, step);
    more := steps + [step];
    assert Apply(s, step).pcs == [p, q];
  }

  // Thread 1 finds the lock taken, and is about to exchange in 2; thread 0 has the lock by compare-and-swap.
  lemma Contended(k: Kind) returns (steps: seq<Step>)
    requires !k.Spinning?
    ensures Leads(steps, Two(1, Holds(true), Swap(k), false))
  {
    hide Leads;
    assert Leads([], Two(0, Away, Away, false)) by { assert Start(2).pcs == [Away, Away]; NothingDone(); }
    steps := Then([], Two(0, Away, Away, false), Ask(0, NoSpin), 0, Spin(1, NoSpin), Away, false);
    steps := Then(steps, Two(0, Spin(1, NoSpin), Away, false), Try(0), 1, Holds(true), Away, false);
    steps := Then(steps, Two(1, Holds(true), Away, false), Ask(1, k), 1, Holds(true), Spin(1, k), false);
    steps := Then(steps, Two(1, Holds(true), Spin(1, k), false), Try(1), 1, Holds(true), Swap(k), false);
  }

  lemma NothingDone()
    ensures Leads([], Start(2))
  {
  }

  // The lock is released just before thread 1 exchanges in 2: nobody waits, yet the word is 2.
  lemma SlowOwner() returns (steps: seq<Step>)
    ensures Leads(steps, Two(2, Away, Holds(false), false))
  {
    hide Leads;
    steps := Contended(NoSpin);
    steps := Then(steps, Two(1, Holds(true), Swap(NoSpin), false), Release(0), 0, Away, Swap(NoSpin), false);
    steps := Then(steps, Two(0, Away, Swap(NoSpin), false), Exchange(1), 2, Away, Holds(false), false);
  }

  lemma WrongToSlow()
    ensures exists n: nat, steps: seq<Step>, t: nat :: !AnswerRight(n, steps, t, false, false)
  {
    var steps := SlowOwner();
    assert !AnswerRight(2, steps, 1, false, false);
  }

  // The timed trylock of thread 1 leaves a 2 behind when it gives up.
  lemma WrongToFast()
    ensures exists n: nat, steps: seq<Step>, t: nat :: !AnswerRight(n, steps, t, true, true)
  {
    var steps := Contended(Timed);
    hide Leads;
    steps := Then(steps, Two(1, Holds(true), Swap(Timed), false), Exchange(1), 2, Holds(true), Call(Timed), false);
    steps := Then(steps, Two(2, Holds(true), Call(Timed), false), Wait(1), 2, Holds(true), Asleep(Timed), false);
    steps := Then(steps, Two(2, Holds(true), Asleep(Timed), false), Wakes(1), 2, Holds(true), Swap2(Timed), false);
    steps := Then(steps, Two(2, Holds(true), Swap2(Timed), false), Exchange(1), 2, Holds(true), Away, true);
    FastIsWrong(steps);
  }

  lemma FastIsWrong(steps: seq<Step>)
    requires Leads(steps, Two(2, Holds(true), Away, true))
    ensures !AnswerRight(2, steps, 0, true, true)
  {
  }

  lemma WrongAfterBoth()
    ensures exists n: nat, steps: seq<Step>, t: nat :: !AnswerRight(n, steps, t, false, true)
  {
    var steps := SlowOwner();
    hide Leads;
    steps := Then(steps, Two(2, Away, Holds(false), false), Ask(0, Timed), 2, Spin(1, Timed), Holds(false), false);
    steps := Then(steps, Two(2, Spin(1, Timed), Holds(false), false), Try(0), 2, Swap(Timed), Holds(false), false);
    steps := Then(steps, Two(2, Swap(Timed), Holds(false), false), Exchange(0), 2, Call(Timed), Holds(false), false);
    steps := Then(steps, Two(2, Call(Timed), Holds(false), false), Wait(0), 2, Asleep(Timed), Holds(false), false);
    steps := Then(steps, Two(2, Asleep(Timed), Holds(false), false), Wakes(0), 2, Swap2(Timed), Holds(false), false);
    steps := Then(steps, Two(2, Swap2(Timed), Holds(false), false), Exchange(0), 2, Away, Holds(false), true);
    SlowIsWrong(steps);
  }

  lemma SlowIsWrong(steps: seq<Step>)
    requires Leads(steps, Two(2, Away, Holds(false), true))
    ensures !AnswerRight(2, steps, 1, false, true)
  {
  }

  // ----- A free lock -----

  ghost predicate OwnSteps(steps: seq<Step>, t: nat) {
    forall i | 0 <= i < |steps| :: steps[i].t == t
  }

  lemma Prepend(s: State, step: Step, rest: seq<Step>)
    requires Enabled(s, step) && NoWrap(s, step) && Completes(Apply(s, step), rest)
    ensures Completes(s, [step] + rest) && Run(s, [step] + rest) == Run(Apply(s, step), rest)
  {
    assert ([step] + rest)[1..] == rest;
  }

  // While the lock is free, every awake thread that wants it gets it by its own steps alone: by compare-and-swap if it
  // has not given up on that yet, by exchange otherwise.
  lemma FreeLockTaken(s: State, t: nat) returns (steps: seq<Step>)
    requires s.word == 0 && t < |s.pcs| && Waits(s.pcs[t]) && !s.pcs[t].Asleep?
    ensures OwnSteps(steps, t) && Completes(s, steps) && |steps| <= 2
    ensures var s1 := Run(s, steps);
            && s1.pcs == s.pcs[t := Holds(s.pcs[t].Spin?)] && s1.word == (if s.pcs[t].Spin? then 1 else 2)
  {
    if s.pcs[t].Spin? {
      Prepend(s, Try(t), []);
      steps := [Try(t)] + [];
    } else if s.pcs[t].Call? {
      var s1 := Apply(s, Wait(t));
      Prepend(s1, Exchange(t), []);
      Prepend(s, Wait(t), [Exchange(t)] + []);
      steps := [Wait(t)] + ([Exchange(t)] + []);
    } else {
      Prepend(s, Exchange(t), []);
      steps := [Exchange(t)] + [];
    }
  }

  // Without contention a thread locks and unlocks in two accesses to the word and makes no system call.
  lemma Uncontended(s: State, t: nat, k: Kind)
    requires s.word == 0 && t < |s.pcs| && s.pcs[t].Away?
    ensures var steps := [Ask(t, k), Try(t), Release(t)];
            Completes(s, steps) && Run(s, steps) == s.(expired := false)
  {
    var s1 := Apply(s, Ask(t, k));
    var s2 := Apply(s1, Try(t));
    Prepend(s2, Release(t), []);
    Prepend(s1, Try(t), [Release(t)] + []);
    Prepend(s, Ask(t, k), [Try(t)] + ([Release(t)] + []));
    assert [Ask(t, k), Try(t), Release(t)] == [Ask(t, k)] + ([Try(t)] + ([Release(t)] + []));
    assert Apply(s2, Release(t)).pcs == s.pcs;
  }
}
