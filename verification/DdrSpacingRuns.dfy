// Runs that put two activations of a rank closer than tRRD, for every configuration that allows it.
module DdrSpacingRuns {
  import opened Options
  import opened Arithmetic
  import opened DdrCycles
  import opened DdrQueue
  import opened DdrTiming
  import opened DdrState
  import opened DdrInvariant
  import opened DdrWake
  import opened DdrSystem
  import opened DdrRuns
  import opened DdrTheorems
  import opened DdrDrain
  import opened DdrSpacing
  import W = ActivationWindow

  // Nothing has happened to the bank of r, and r comes late enough that nothing delays its activation.
  predicate Cold(c: Config, s: Channel, r: Request) {
    && Shape(c, s) && r.bank < c.numBanks && WindowMin(c, s, r) == 0
    && !s.banks[r.bank].open && s.banks[r.bank].minPre == 0 && s.banks[r.bank].lastAct == 0
    && r.arrival >= c.t.tFAW && r.arrival >= c.t.tRP && r.arrival >= c.t.tRRD
  }

  lemma ColdAct(c: Config, s: Channel, r: Request)
    requires Cold(c, s, r)
    ensures !RowHit(s.banks[r.bank], r) && ActCycle(c.t, s.banks[r.bank], r, WindowMin(c, s, r)) == r.arrival
    ensures MinCmd(c, s, r) == r.arrival + c.t.tRCD
  {
  }

  // ----- A single waiting request -----

  ghost predicate Alone(c: Config, s: Channel, r: Request) {
    CtrlOk(c, s) && s.rdQueue == [r] && s.wrQueue == [] && s.overflow == [] && Cold(c, s, r)
  }

  // The log goes on with the activation of r.
  ghost predicate Activated(s: Channel, s1: Channel, r: Request) {
    s.log + [Act(r.bank, r.arrival, r.row)] <= s1.log
  }

  lemma ServedActivates(c: Config, s: Channel, w: bool, i: nat, cur: nat)
    requires CanServe(c, s, w, i, cur) && s.bus.minResp >= c.t.tCL && Cold(c, s, s.Queue(w)[i])
    ensures Activated(s, Serve(c, s, w, i, cur), s.Queue(w)[i])
  {
    var r := s.Queue(w)[i];
    ColdAct(c, s, r);
    hide ActCycle, CmdCycle, IssuedBank, IssuedBus, W.Added, FindMinCmdCycle;
    var s1 := Serve(c, s, w, i, cur);
    assert s1.log == s.log + [Act(r.bank, r.arrival, r.row)] + [s1.log[|s1.log| - 1]];
  }

  lemma PicksReads(c: Config, s: Channel)
    requires s.rdQueue != [] && s.wrQueue == []
    ensures !PicksWriteQueue(c, s)
  {
  }

  // With an empty overflow queue, a tick that serves nothing changes only the time of the next one.
  lemma QuietTick(c: Config, s: Channel, at: nat)
    requires CtrlOk(c, s) && s.overflow == []
    requires Scannable(c, s) && Ready(c, s, SysToMem(at, c.sysFreq, c.memFreq)).None?
    ensures Tick(c, s, at).0 == s.(nextSched := Tick(c, s, at).0.nextSched)
  {
    hide CtrlOk, TrySchedule, SideOk, FrFcfs, MatchingMemToSys, QueueIn, Ready;
    Facts(c, s, true);
    var cur := SysToMem(at, c.sysFreq, c.memFreq);
    hide SysToMem;
    ServeShrinks(c, s, cur);
  }

  lemma ColdSame(c: Config, s: Channel, x: Option<nat>, r: Request)
    requires Cold(c, s, r)
    ensures Cold(c, s.(nextSched := x), r)
  {
    assert Shape(c, s.(nextSched := x));
  }

  lemma AloneServed(c: Config, s: Channel, r: Request, at: nat)
    requires Alone(c, s, r) && Scannable(c, s) && Ready(c, s, SysToMem(at, c.sysFreq, c.memFreq)).Some?
    ensures Activated(s, Tick(c, s, at).0, r)
  {
    hide CtrlOk, Tick, Ready, PicksWriteQueue, Serve, Activated, SysToMem, Cold, RowHit, MinCmd;
    PicksReads(c, s);
    TickServes(c, s, at);
    var cur := SysToMem(at, c.sysFreq, c.memFreq);
    var i := Ready(c, s, cur).value;
    OnlyOne(c, s, r, i, cur);
    ServedActivates(c, s, false, i, cur);
    SameLog(s, Serve(c, s, false, i, cur), Tick(c, s, at).0, r);
  }

  lemma OnlyOne(c: Config, s: Channel, r: Request, i: nat, cur: nat)
    requires CanServe(c, s, false, i, cur) && s.rdQueue == [r]
    ensures s.Queue(false)[i] == r
  {
  }

  lemma SameLog(s: Channel, s1: Channel, s2: Channel, r: Request)
    requires Activated(s, s1, r) && s2.log == s1.log
    ensures Activated(s, s2, r)
  {
  }

  lemma AloneWaits(c: Config, s: Channel, r: Request, at: nat)
    requires Alone(c, s, r) && Scannable(c, s) && Ready(c, s, SysToMem(at, c.sysFreq, c.memFreq)).None?
    ensures var (s1, next) := Tick(c, s, at);
            && next != 0 && Alone(c, s1, r) && s1.log == s.log && s1.nextSched.Some?
            && s1.nextSched == Some(SysToMem(next, c.sysFreq, c.memFreq)) && Scannable(c, s1)
            && Distance(c, s1, s1.nextSched.value) < Distance(c, s, SysToMem(at, c.sysFreq, c.memFreq))
  {
    hide CtrlOk, Tick, Ready, SysToMem, Cold, Distance, Scannable;
    QuietTick(c, s, at);
    TickOk(c, s, at);
    TickCloser(c, s, at);
    ColdSame(c, s, Tick(c, s, at).0.nextSched, r);
  }

  // A tick activates the row of r, or changes nothing but the time of the next tick.
  lemma AloneTick(c: Config, s: Channel, r: Request, at: nat)
    requires Alone(c, s, r)
    ensures Scannable(c, s)
    ensures var cur := SysToMem(at, c.sysFreq, c.memFreq);
            var (s1, next) := Tick(c, s, at);
            || Activated(s, s1, r)
            || (next != 0 && Alone(c, s1, r) && s1.log == s.log
                && s1.nextSched == Some(SysToMem(next, c.sysFreq, c.memFreq))
                && Scannable(c, s1) && Distance(c, s1, s1.nextSched.value) < Distance(c, s, cur))
  {
    Facts(c, s, true);
    assert c.sysFreq > 0;
    hide CtrlOk, Tick, Ready, SysToMem, Cold, Distance, Scannable, Activated;
    if Ready(c, s, SysToMem(at, c.sysFreq, c.memFreq)).Some? {
      AloneServed(c, s, r, at);
    } else {
      AloneWaits(c, s, r, at);
    }
  }

  // What a tick does with an empty overflow queue is to serve.
  lemma TickServes(c: Config, s: Channel, at: nat)
    requires CtrlOk(c, s) && s.overflow == []
    requires Scannable(c, s) && Ready(c, s, SysToMem(at, c.sysFreq, c.memFreq)).Some?
    ensures var cur := SysToMem(at, c.sysFreq, c.memFreq);
            var w, i := PicksWriteQueue(c, s), Ready(c, s, cur).value;
            CanServe(c, s, w, i, cur) && s.bus.minResp >= c.t.tCL
            && Tick(c, s, at).0 == Serve(c, s, w, i, cur).(nextSched := Tick(c, s, at).0.nextSched)
  {
    hide CtrlOk, Scan, PicksWriteQueue, Serve, SideOk, FrFcfs, MatchingMemToSys, CanServe, QueueIn;
    Facts(c, s, true);
    var cur := SysToMem(at, c.sysFreq, c.memFreq);
    hide SysToMem;
    ReadyIsHead(c, s, cur);
    ServeSameOverflow(c, s, PicksWriteQueue(c, s), Ready(c, s, cur).value, cur);
  }

  lemma ServeSameOverflow(c: Config, s: Channel, w: bool, i: nat, cur: nat)
    requires CanServe(c, s, w, i, cur) && s.bus.minResp >= c.t.tCL
    ensures Serve(c, s, w, i, cur).overflow == s.overflow
  {
  }

  // ----- Steps of the system -----

  // One scheduling event, which is pending.
  ghost predicate OneEvent(s: System) {
    |s.events| == 1 && s.events[0].Queued?
  }

  lemma {:induction false} Prepend(c: Config, s: System, step: Step, rest: seq<Step>)
    requires SysOk(c, s) && Enabled(c, s, step) && SourceAsserts(c, s, step) && Completes(c, Apply(c, s, step), rest)
    ensures Completes(c, s, [step] + rest) && Run(c, s, [step] + rest) == Run(c, Apply(c, s, step), rest)
  {
    assert ([step] + rest)[1..] == rest;
    hide SysOk, Apply, Enabled, SourceAsserts;
  }

  lemma OneEventFires(c: Config, s: System)
    requires SysOk(c, s) && OneEvent(s)
    ensures Enabled(c, s, Fire(0)) && SourceAsserts(c, s, Fire(0)) && SysOk(c, Apply(c, s, Fire(0)))
    ensures Scannable(c, s.ch) && Apply(c, s, Fire(0)).ch == Tick(c, s.ch, s.events[0].at).0
    ensures var next := Tick(c, s.ch, s.events[0].at).1;
            next != 0 ==> OneEvent(Apply(c, s, Fire(0))) && Apply(c, s, Fire(0)).events[0].at == next
  {
    assert Enabled(c, s, Fire(0)) by { hide CtrlOk, SysToMem, FreeOk; }
    Facts(c, s.ch, true);
    hide CtrlOk, SysToMem, FreeOk, EventsOk, TickAsserts, Tick;
    StepOk(c, s, Fire(0));
  }

  // Some number of ticks activates the row of a request that waits alone.
  lemma {:induction false} AloneActivated(c: Config, s: System, r: Request) returns (steps: seq<Step>)
    requires SysOk(c, s) && OneEvent(s) && Alone(c, s.ch, r)
    ensures Completes(c, s, steps) && Activated(s.ch, Run(c, s, steps).ch, r)
    decreases SomeDistance(c, s.ch, s.events[0].at)
  {
    hide SysOk, Apply, SourceAsserts, Enabled, CtrlOk, Tick, Distance, Activated, Cold, SysToMem;
    OneEventFires(c, s);
    AloneTick(c, s.ch, r, s.events[0].at);
    var s1 := Apply(c, s, Fire(0));
    var rest := [];
    if !Activated(s.ch, s1.ch, r) {
      rest := AloneActivated(c, s1, r);
      SameLogActivated(s.ch, s1.ch, Run(c, s1, rest).ch, r);
    }
    steps := [Fire(0)] + rest;
    Prepend(c, s, Fire(0), rest);
  }

  lemma SameLogActivated(s: Channel, s1: Channel, s2: Channel, r: Request)
    requires s1.log == s.log && Activated(s1, s2, r)
    ensures Activated(s, s2, r)
  {
  }

  // ----- Two requests to different banks of one rank -----

  // No command has been issued yet.
  predicate Untouched(c: Config, s: Channel) {
    var s0 := Initial(c);
    Scannable(c, s) && s.banks == s0.banks && s.windows == s0.windows && s.bus == s0.bus && s.log == []
  }

  // Late enough for a first activation to be delayed by nothing.
  function Settle(c: Config): nat {
    c.t.tFAW + c.t.tRP + c.t.tRRD + c.t.tBL
  }

  lemma UntouchedCold(c: Config, s: Channel, q: Request)
    requires Untouched(c, s) && q.bank < c.numBanks && q.arrival >= Settle(c)
    ensures Cold(c, s, q)
  {
    assert c.rankOf(q.bank) < c.numRanks;
  }

  // The first request of a bank goes to the end of the read queue and to the front of its bank list.
  lemma QueueInFirst(c: Config, s: Channel, r: Request, m: nat)
    requires Scannable(c, s) && r.bank < c.numBanks && !r.write && s.rdLists[r.bank] == []
    ensures GoesFirst(c, s, r)
    ensures var s1, q := QueueIn(c, s, r, m), Stored(c, s, r, m);
            && s1.rdQueue == s.rdQueue + [q] && s1.wrQueue == s.wrQueue && s1.rdLists == s.rdLists[r.bank := [q]]
            && q.bank == r.bank && q.arrival == m
  {
    assert LastSameRow([], r.row) == -1;
    assert InsertAt([], 0, Stored(c, s, r, m)) == [Stored(c, s, r, m)];
  }

  // q is the first in the read queue and in its bank list, and nothing has been issued.
  ghost predicate First(c: Config, s: Channel, q: Request) {
    && CtrlOk(c, s) && Untouched(c, s) && q.bank < c.numBanks && q.arrival >= Settle(c)
    && s.wrQueue == [] && s.rdQueue != [] && s.rdQueue[0] == q && s.rdLists[q.bank] == [q]
  }

  lemma FirstReady(c: Config, s: Channel, q: Request, cur: nat)
    requires First(c, s, q) && cur == q.arrival + c.t.tRCD
    ensures Ready(c, s, cur) == Some(0) && CanServe(c, s, false, 0, cur)
    ensures TrySchedule(c, s, cur).0 == Serve(c, s, false, 0, cur)
  {
    UntouchedCold(c, s, q);
    ColdAct(c, s, q);
    PicksReads(c, s);
    hide CtrlOk, MinCmd, PicksWriteQueue, Serve, Cold;
  }

  lemma AddedFirst(x: nat)
    ensures W.Added([0, 0, 0, 0], x)[0] == 0
  {
    var w: seq<nat> := [0, 0, 0, 0];
    assert w[1] == 0 && w[1..] == [0, 0, 0];
  }

  // What serving the first request makes of the state, and leaves untouched.
  ghost predicate FirstGone(c: Config, s: Channel, q: Request, s1: Channel) {
    && s.rdQueue != [] && s1.rdQueue == s.rdQueue[1..] && s1.wrQueue == [] && s1.overflow == s.overflow
    && s1.log != [] && s1.log[0] == Act(q.bank, q.arrival, q.row)
    && |s1.banks| == |s1.rdLists| == |s.banks| == |s.rdLists| == c.numBanks && |s1.windows| == c.numRanks
    && (forall b | 0 <= b < c.numBanks && b != q.bank :: s1.banks[b] == s.banks[b] && s1.rdLists[b] == s.rdLists[b])
    && (forall k | 0 <= k < c.numRanks :: |s1.windows[k]| > 0 && s1.windows[k][0] == 0)
  }

  lemma FirstServed(c: Config, s: Channel, q: Request, cur: nat)
    requires First(c, s, q) && CanServe(c, s, false, 0, cur)
    ensures s.bus.minResp >= c.t.tCL && FirstGone(c, s, q, Serve(c, s, false, 0, cur))
  {
    hide CtrlOk, CmdCycle, IssuedBank, IssuedBus, W.Added, MinCmd;
    UntouchedCold(c, s, q);
    ColdAct(c, s, q);
    AddedFirst(q.arrival);
    hide ActCycle;
    assert Without(s.rdQueue, 0) == s.rdQueue[1..];
  }

  lemma ColdAfter(c: Config, s: Channel, s1: Channel, q: Request, q1: Request)
    requires First(c, s, q) && Shape(c, s1)
    requires q1.bank < c.numBanks && q1.bank != q.bank && q1.arrival >= Settle(c)
    requires s1.banks[q1.bank] == s.banks[q1.bank]
    requires forall k | 0 <= k < c.numRanks :: |s1.windows[k]| > 0 && s1.windows[k][0] == 0
    ensures Cold(c, s1, q1)
  {
    hide CtrlOk;
    assert c.rankOf(q1.bank) < c.numRanks;
  }

  lemma TickIs(c: Config, s: Channel, q: Request, at: nat)
    requires First(c, s, q) && SysToMem(at, c.sysFreq, c.memFreq) == q.arrival + c.t.tRCD
    ensures Scannable(c, s)
    ensures var cur := q.arrival + c.t.tRCD;
            var (s1, m) := TrySchedule(c, s, cur);
            CtrlOk(c, s1) && FirstGone(c, s, q, s1)
            && Tick(c, s, at).0 == Refill(c, s1, m, cur).0.(nextSched := Tick(c, s, at).0.nextSched)
  {
    hide CtrlOk, Ready, TrySchedule, Serve, CanServe, SysToMem, MatchingMemToSys, Refill, FirstGone, Untouched;
    var cur := q.arrival + c.t.tRCD;
    Facts(c, s, true);
    FirstReady(c, s, q, cur);
    FirstServed(c, s, q, cur);
    TryScheduleOk(c, s, cur);
  }

  lemma RefillsNothing(c: Config, s: Channel, m: Option<nat>, cur: nat)
    requires CtrlOk(c, s) && s.overflow == []
    ensures Refill(c, s, m, cur).0 == s
  {
    hide SidesOk, ChannelOk, HitsOk, OpenIsWanted, WindowsOk, QueueIn, MinCmd;
  }

  // The second request waits in the read queue: the first tick leaves it alone.
  lemma TickOfTwo(c: Config, s: Channel, q: Request, q1: Request, at: nat)
    requires First(c, s, q) && s.rdQueue == [q, q1] && s.overflow == []
    requires q1.bank < c.numBanks && q1.bank != q.bank && q1.arrival >= Settle(c)
    requires SysToMem(at, c.sysFreq, c.memFreq) == q.arrival + c.t.tRCD
    ensures var (s1, next) := Tick(c, s, at);
            next != 0 && Alone(c, s1, q1) && s1.log != [] && s1.log[0] == Act(q.bank, q.arrival, q.row)
  {
    hide CtrlOk, Tick, TrySchedule, SysToMem, Cold, Refill, Scannable, Untouched;
    var cur := q.arrival + c.t.tRCD;
    TickIs(c, s, q, at);
    var (s1, m) := TrySchedule(c, s, cur);
    assert s1.rdQueue == [q1];
    RefillsNothing(c, s1, m, cur);
    TickOk(c, s, at);
    var s2 := Tick(c, s, at).0;
    Facts(c, s2, true);
    WellShaped(c, s2);
    ColdAfter(c, s, s2, q, q1);
  }

  // The overflow request is queued in the cycle of the tick.
  lemma RefillsOne(c: Config, s: Channel, s1: Channel, q: Request, r1: Request, m: Option<nat>, cur: nat)
    returns (q1: Request)
    requires First(c, s, q) && s.rdQueue == [q] && s.overflow == [r1] && s.rdLists[r1.bank] == [] && !r1.write
    requires r1.bank < c.numBanks && r1.bank != q.bank
    requires CtrlOk(c, s1) && FirstGone(c, s, q, s1)
    ensures q1.bank == r1.bank && q1.arrival == cur
    ensures var s2 := Refill(c, s1, m, cur).0;
            && s2.rdQueue == [q1] && s2.wrQueue == [] && s2.overflow == [] && s2.log == s1.log
            && s2.banks == s1.banks && s2.windows == s1.windows
  {
    hide CtrlOk, QueueIn, GoesFirst, MinCmd, Stored, First;
    var s0 := s1.(overflow := []);
    OverflowOk(c, s1, []);
    Facts(c, s0, true);
    QueueInFirst(c, s0, r1, cur);
    QueueInRest(c, s0, r1, cur);
    q1 := Stored(c, s0, r1, cur);
    assert s1.overflow[1..] == [];
  }

  // The second request waits in the overflow queue: the first tick queues it.
  lemma TickOfOne(c: Config, s: Channel, q: Request, r1: Request, at: nat) returns (q1: Request)
    requires First(c, s, q) && s.rdQueue == [q] && s.overflow == [r1] && s.rdLists[r1.bank] == [] && !r1.write
    requires r1.bank < c.numBanks && r1.bank != q.bank
    requires SysToMem(at, c.sysFreq, c.memFreq) == q.arrival + c.t.tRCD
    ensures q1.bank == r1.bank && q1.arrival == q.arrival + c.t.tRCD
    ensures var (s1, next) := Tick(c, s, at);
            next != 0 && Alone(c, s1, q1) && s1.log != [] && s1.log[0] == Act(q.bank, q.arrival, q.row)
  {
    hide CtrlOk, Tick, TrySchedule, SysToMem, Cold, Refill, Scannable, Untouched;
    var cur := q.arrival + c.t.tRCD;
    TickIs(c, s, q, at);
    var (s1, m) := TrySchedule(c, s, cur);
    q1 := RefillsOne(c, s, s1, q, r1, m, cur);
    TickOk(c, s, at);
    var s2 := Tick(c, s, at).0;
    Facts(c, s2, true);
    WellShaped(c, s2);
    ColdAfter(c, s, s2, q, q1);
  }

  lemma WellShaped(c: Config, s: Channel)
    requires Scannable(c, s)
    ensures Shape(c, s)
  {
  }

  // ----- The run -----

  function ToBank(b: nat): Request {
    Request(0, 0, 0, b, false, 0, 0, true)
  }

  lemma UntouchedQueueIn(c: Config, s: Channel, r: Request, m: nat)
    requires Untouched(c, s) && r.bank < c.numBanks
    ensures Untouched(c, QueueIn(c, s, r, m))
  {
    hide QueueIn, Scannable;
    QueueInRest(c, s, r, m);
  }

  lemma InitialFacts(c: Config)
    requires c.Ok()
    ensures var s := Initial(c);
            CtrlOk(c, s) && Awake(s) && Untouched(c, s) && s.rdQueue == s.wrQueue == s.overflow == []
            && |s.rdLists| == c.numBanks && (forall b | 0 <= b < c.numBanks :: s.rdLists[b] == [])
            && s.nextSched == None && BusFree(c, s) == 1
  {
    InitialOk(c);
  }

  // The first request is queued and the wake-up set for its column command.
  lemma FirstArrives(c: Config, b: nat, at: nat)
    requires c.Ok() && b < c.numBanks && SysToMem(at, c.sysFreq, c.memFreq) >= Settle(c) + 1
    ensures var s, r, m := Initial(c), ToBank(b), SysToMem(at, c.sysFreq, c.memFreq);
            && Shape(c, s)
            && (var (s1, wake), q := Enqueue(c, s, r, at), Stored(c, s, r, m);
                && wake.Some? && First(c, s1, q) && s1.rdQueue == [q] && s1.overflow == []
                && q.bank == b && q.arrival == m
                && s1.nextSched == Some(m + c.t.tRCD) && s1.rdLists == s.rdLists[b := [q]])
  {
    hide CtrlOk, Awake, Initial, QueueIn, GoesFirst, MinCmd, MatchingMemToSys, SysToMem, Stored, Untouched, Cold;
    var s, r, m := Initial(c), ToBank(b), SysToMem(at, c.sysFreq, c.memFreq);
    InitialFacts(c);
    Facts(c, s, true);
    QueueInFirst(c, s, r, m);
    QueueInRest(c, s, r, m);
    UntouchedQueueIn(c, s, r, m);
    var q := Stored(c, s, r, m);
    UntouchedCold(c, s, q);
    ColdAct(c, s, q);
    EnqueueOk(c, s, r, at);
    SameUntouched(c, QueueIn(c, s, r, m), Some(m + c.t.tRCD));
  }

  lemma SameUntouched(c: Config, s: Channel, x: Option<nat>)
    requires Untouched(c, s)
    ensures Untouched(c, s.(nextSched := x))
  {
    assert Shape(c, s.(nextSched := x));
    assert forall w :: s.(nextSched := x).Queue(w) == s.Queue(w);
  }

  // The second request comes in the same cycle. With room for it, it is queued and needs no wake-up of its own.
  lemma SecondQueued(c: Config, s: Channel, q: Request, b: nat, at: nat)
    requires First(c, s, q) && s.rdQueue == [q] && s.overflow == [] && c.queueDepth > 1
    requires b < c.numBanks && b != q.bank && s.rdLists[b] == []
    requires q.arrival == SysToMem(at, c.sysFreq, c.memFreq) && s.nextSched == Some(q.arrival + c.t.tRCD)
    ensures var (s1, wake), q1 := Enqueue(c, s, ToBank(b), at), Stored(c, s, ToBank(b), q.arrival);
            && wake.None? && First(c, s1, q) && s1.rdQueue == [q, q1] && s1.overflow == []
            && q1.bank == b && q1.arrival == q.arrival && s1.nextSched == s.nextSched
  {
    var r, m := ToBank(b), q.arrival;
    hide CtrlOk, QueueIn, GoesFirst, MinCmd, MatchingMemToSys, SysToMem, Place, Cold;
    QueueInOk(c, s, r, m);
    QueueInFirst(c, s, r, m);
    QueueInRest(c, s, r, m);
    var q1 := Stored(c, s, r, m);
    UntouchedCold(c, s, q1);
    ColdAct(c, s, q1);
  }

  lemma SecondOverflows(c: Config, s: Channel, q: Request, b: nat, at: nat)
    requires First(c, s, q) && s.rdQueue == [q] && s.overflow == [] && c.queueDepth == 1 && b < c.numBanks
    ensures var (s1, wake) := Enqueue(c, s, ToBank(b), at);
            && wake.None? && First(c, s1, q) && s1 == s.(overflow := [ToBank(b)])
  {
    hide CtrlOk, QueueIn, GoesFirst, MinCmd, SysToMem, MatchingMemToSys;
    OverflowOk(c, s, [ToBank(b)]);
    assert s.overflow + [ToBank(b)] == [ToBank(b)];
    Facts(c, s.(overflow := [ToBank(b)]), true);
  }

  // ----- The whole run -----

  // The state after the two arrivals, in the system.
  lemma ArrivesWaking(c: Config, s: System, r: Request, at: nat)
    requires SysOk(c, s) && s.events == [] && s.free == [] && s.nextEvent == None && s.now <= at && r.bank < c.numBanks
    requires Shape(c, s.ch) && Enqueue(c, s.ch, r, at).1.Some?
    ensures Enabled(c, s, Arrive(r, at)) && SourceAsserts(c, s, Arrive(r, at)) && SysOk(c, Apply(c, s, Arrive(r, at)))
    ensures var s1 := Apply(c, s, Arrive(r, at));
            s1.ch == Enqueue(c, s.ch, r, at).0 && OneEvent(s1) && s1.now == at
  {
    hide CtrlOk, SysToMem, FreeOk, EventsOk, Enqueue;
    StepOk(c, s, Arrive(r, at));
  }

  lemma ArrivesQuietly(c: Config, s: System, r: Request, at: nat)
    requires SysOk(c, s) && OneEvent(s) && s.now == at && r.bank < c.numBanks
    requires Shape(c, s.ch) && Enqueue(c, s.ch, r, at).1.None?
    ensures Enabled(c, s, Arrive(r, at)) && SourceAsserts(c, s, Arrive(r, at)) && SysOk(c, Apply(c, s, Arrive(r, at)))
    ensures var s1 := Apply(c, s, Arrive(r, at));
            s1.ch == Enqueue(c, s.ch, r, at).0 && OneEvent(s1) && s1.now == at
  {
    assert Enabled(c, s, Arrive(r, at)) by { hide CtrlOk, FreeOk, Enqueue, SysToMem; }
    hide CtrlOk, SysToMem, FreeOk, EventsOk, Enqueue, Due;
    StepOk(c, s, Arrive(r, at));
  }

  // The event comes in the cycle that the controller expects.
  lemma EventAt(c: Config, s: System)
    requires SysOk(c, s) && OneEvent(s)
    ensures c.sysFreq > 0 && s.ch.nextSched == Some(SysToMem(s.events[0].at, c.sysFreq, c.memFreq))
  {
    hide CtrlOk, SysToMem, FreeOk, Awake;
    assert s.events[0].Queued?;
  }

  predicate ActAt(x: Command, b: nat, at: nat) {
    x.Act? && x.bank == b && x.at == at
  }

  // What remains when the second of two requests to one rank waits alone: the first has been activated at m.
  ghost predicate SecondLeft(c: Config, s: System, b0: nat, b1: nat, m: nat, q1: Request) {
    && SysOk(c, s) && OneEvent(s) && Alone(c, s.ch, q1) && s.ch.log != [] && ActAt(s.ch.log[0], b0, m)
    && q1.bank == b1 && q1.arrival == m + (if c.queueDepth == 1 then c.t.tRCD else 0)
  }

  lemma SecondActivated(c: Config, s: System, b0: nat, b1: nat, m: nat, q1: Request) returns (steps: seq<Step>)
    requires SecondLeft(c, s, b0, b1, m, q1) && c.rankOf(b0) == c.rankOf(b1)
    requires (if c.queueDepth == 1 then c.t.tRCD else 0) < c.t.tRRD
    ensures Completes(c, s, steps) && !RrdOk(c, Run(c, s, steps).ch.log)
  {
    hide SysOk, Alone, Run, Completes;
    steps := AloneActivated(c, s, q1);
    var l, n := Run(c, s, steps).ch.log, |s.ch.log|;
    assert ActAt(l[0], b0, m) && l[n] == Act(b1, q1.arrival, q1.row);
    assert !RrdOk(c, l);
  }

  // A system cycle by which memory has idled long enough.
  function ArrivalCycle(c: Config): nat {
    (Settle(c) + 1) * c.sysFreq
  }

  lemma ArrivalSettled(c: Config)
    requires c.Ok()
    ensures SysToMem(ArrivalCycle(c), c.sysFreq, c.memFreq) >= Settle(c) + 1
  {
    var k, f, m := Settle(c) + 1, c.sysFreq, c.memFreq;
    assert k * f * m == k * m * f;
    DivUnique(k * f * m, f, k * m);
    MulMono(k, 1, m);
  }

  // The state after the second arrival, q being the first request.
  ghost predicate BothThere(c: Config, s: System, b0: nat, b1: nat, m: nat, q: Request) {
    && SysOk(c, s) && OneEvent(s) && First(c, s.ch, q) && q.bank == b0 && q.arrival == m
    && s.ch.nextSched == Some(m + c.t.tRCD)
    && (if c.queueDepth == 1 then
          s.ch.rdQueue == [q] && s.ch.overflow == [ToBank(b1)] && s.ch.rdLists[b1] == []
        else
          |s.ch.rdQueue| == 2 && s.ch.overflow == [] && s.ch.rdQueue[1].bank == b1 && s.ch.rdQueue[1].arrival == m)
  }

  lemma FirstStep(c: Config, b0: nat, b1: nat)
    requires c.Ok() && b0 < c.numBanks && b1 < c.numBanks && b0 != b1
    ensures var s, a := Start(c), Arrive(ToBank(b0), ArrivalCycle(c));
            var m := SysToMem(ArrivalCycle(c), c.sysFreq, c.memFreq);
            && SysOk(c, s) && Enabled(c, s, a) && SourceAsserts(c, s, a)
            && (var s1 := Apply(c, s, a);
                SysOk(c, s1) && OneEvent(s1) && s1.now == ArrivalCycle(c) && m >= Settle(c)
                && |s1.ch.rdQueue| == 1 && First(c, s1.ch, s1.ch.rdQueue[0]) && s1.ch.overflow == []
                && s1.ch.rdQueue[0].bank == b0 && s1.ch.rdQueue[0].arrival == m
                && s1.ch.nextSched == Some(m + c.t.tRCD) && b1 < |s1.ch.rdLists| && s1.ch.rdLists[b1] == [])
  {
    hide SysOk, Enqueue, First, SysToMem, Apply, Enabled, SourceAsserts, Initial, CtrlOk, Awake, Untouched;
    ArrivalSettled(c);
    StartOk(c);
    InitialFacts(c);
    FirstArrives(c, b0, ArrivalCycle(c));
    ArrivesWaking(c, Start(c), ToBank(b0), ArrivalCycle(c));
  }

  lemma SecondStep(c: Config, s: System, b0: nat, b1: nat, m: nat, q: Request)
    requires SysOk(c, s) && OneEvent(s) && First(c, s.ch, q) && q.bank == b0 && q.arrival == m && b0 != b1
    requires s.ch.rdQueue == [q] && s.ch.overflow == [] && s.ch.nextSched == Some(m + c.t.tRCD)
    requires c.sysFreq > 0 && m == SysToMem(s.now, c.sysFreq, c.memFreq) && b1 < c.numBanks && s.ch.rdLists[b1] == []
    ensures var a := Arrive(ToBank(b1), s.now);
            Enabled(c, s, a) && SourceAsserts(c, s, a) && BothThere(c, Apply(c, s, a), b0, b1, m, q)
  {
    hide CtrlOk, EventsOk, FreeOk, Enqueue, SysToMem, Apply, Enabled, SourceAsserts, Awake, Untouched, Stored;
    Facts(c, s.ch, true);
    if c.queueDepth == 1 {
      SecondOverflows(c, s.ch, q, b1, s.now);
    } else {
      SecondQueued(c, s.ch, q, b1, s.now);
    }
    ArrivesQuietly(c, s, ToBank(b1), s.now);
  }

  lemma ThirdStep(c: Config, s: System, b0: nat, b1: nat, m: nat, q: Request) returns (q1: Request)
    requires BothThere(c, s, b0, b1, m, q) && b0 != b1 && b1 < c.numBanks
    ensures Enabled(c, s, Fire(0)) && SourceAsserts(c, s, Fire(0))
    ensures SecondLeft(c, Apply(c, s, Fire(0)), b0, b1, m, q1)
  {
    hide SysOk, SysToMem, Apply, Enabled, SourceAsserts, CtrlOk, Untouched, Alone, Tick;
    OneEventFires(c, s);
    EventAt(c, s);
    if c.queueDepth == 1 {
      q1 := TickOfOne(c, s.ch, q, ToBank(b1), s.events[0].at);
    } else {
      q1 := s.ch.rdQueue[1];
      TickOfTwo(c, s.ch, q, q1, s.events[0].at);
    }
  }

  // Two requests to different banks of one rank that come in the same cycle are activated in the same cycle or,
  // with room for one only, tRCD apart.
  lemma Collide(c: Config, b0: nat, b1: nat) returns (steps: seq<Step>)
    requires c.Ok() && b0 < c.numBanks && b1 < c.numBanks && b0 != b1 && c.rankOf(b0) == c.rankOf(b1)
    requires (if c.queueDepth == 1 then c.t.tRCD else 0) < c.t.tRRD
    ensures !RunKeepsRrd(c, steps)
  {
    hide SysOk, SysToMem, Apply, Enabled, SourceAsserts, First, Alone, RrdOk, Run, Completes, Start;
    var at := ArrivalCycle(c);
    FirstStep(c, b0, b1);
    var s1 := Apply(c, Start(c), Arrive(ToBank(b0), at));
    var q := s1.ch.rdQueue[0];
    SecondStep(c, s1, b0, b1, q.arrival, q);
    var s2 := Apply(c, s1, Arrive(ToBank(b1), at));
    var q1 := ThirdStep(c, s2, b0, b1, q.arrival, q);
    var s3 := Apply(c, s2, Fire(0));
    var rest := SecondActivated(c, s3, b0, b1, q.arrival, q1);
    Prepend(c, s2, Fire(0), rest);
    Prepend(c, s1, Arrive(ToBank(b1), at), [Fire(0)] + rest);
    Prepend(c, Start(c), Arrive(ToBank(b0), at), [Arrive(ToBank(b1), at)] + ([Fire(0)] + rest));
    steps := [Arrive(ToBank(b0), at)] + ([Arrive(ToBank(b1), at)] + ([Fire(0)] + rest));
  }

  // Activations of a rank are tRRD apart in every run exactly for these configurations: no two banks share a rank, or
  // the queues hold a single request and tRCD is long enough.
  lemma RrdKeptIff(c: Config)
    requires c.Ok()
    ensures (forall steps :: RunKeepsRrd(c, steps))
            <==> OneBankPerRank(c) || (c.queueDepth == 1 && c.t.tRRD <= c.t.tRCD)
  {
    hide RunKeepsRrd, SysOk;
    if OneBankPerRank(c) || (c.queueDepth == 1 && c.t.tRRD <= c.t.tRCD) {
      forall steps ensures RunKeepsRrd(c, steps) {
        if OneBankPerRank(c) { OneBankRun(c, steps); } else { OneAtATimeKeeps(c, steps); }
      }
    } else {
      var a, b :| 0 <= a < b < c.numBanks && c.rankOf(a) == c.rankOf(b);
      var steps := Collide(c, a, b);
      assert !RunKeepsRrd(c, steps);
    }
  }

  lemma OneBankRun(c: Config, steps: seq<Step>)
    requires c.Ok() && OneBankPerRank(c)
    ensures RunKeepsRrd(c, steps)
  {
    hide CtrlOk, RrdOk, EventsOk, FreeOk, Awake;
    if Completes(c, Start(c), steps) {
      Reached(c, steps);
      OneBankKeeps(c, Run(c, Start(c), steps).ch);
    }
  }
}
