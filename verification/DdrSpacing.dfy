// Activations of one rank and tRRD: the controller compares an activation only with the last one of
// its own bank, so this says exactly for which configurations the distance is kept.
module DdrSpacing {
  import opened Options
  import opened DdrCycles
  import opened DdrQueue
  import opened DdrTiming
  import opened DdrState
  import opened DdrInvariant
  import opened DdrWake
  import opened DdrSystem
  import opened DdrRuns
  import W = ActivationWindow

  // Any two activations of one rank are tRRD apart.
  ghost predicate RrdOk(c: Config, log: seq<Command>) {
    forall i, j | 0 <= i < j < |log| && log[i].Act? && log[j].Act? && c.rankOf(log[i].bank) == c.rankOf(log[j].bank) ::
      log[i].at + c.t.tRRD <= log[j].at || log[j].at + c.t.tRRD <= log[i].at
  }

  ghost predicate RunKeepsRrd(c: Config, steps: seq<Step>) {
    Completes(c, Start(c), steps) ==> RrdOk(c, Run(c, Start(c), steps).ch.log)
  }

  ghost predicate OneBankPerRank(c: Config) {
    forall a, b | 0 <= a < b < c.numBanks :: c.rankOf(a) != c.rankOf(b)
  }

  // ----- One bank per rank -----

  lemma OneBankKeeps(c: Config, s: Channel)
    requires OneBankPerRank(c) && CtrlOk(c, s)
    ensures RrdOk(c, s.log)
  {
    hide SidesOk, OpenIsWanted, HitsOk, WindowsOk;
    forall i, j | 0 <= i < j < |s.log| && s.log[i].Act? && s.log[j].Act?
                  && c.rankOf(s.log[i].bank) == c.rankOf(s.log[j].bank)
      ensures s.log[i].at + c.t.tRRD <= s.log[j].at
    {
      assert Remembered(c.t, s.banks, s.bus, s.log[i]) && Remembered(c.t, s.banks, s.bus, s.log[j]);
      assert Apart(c.t, s.log[i], s.log[j]);
    }
  }

  // ----- One request at a time -----

  // With room for one request, every activation is tRCD after the ones before it.
  ghost predicate Spaced(c: Config, rd: seq<Request>, wr: seq<Request>, log: seq<Command>, m: nat) {
    && |rd| + |wr| <= 1
    && (forall i | 0 <= i < |log| && log[i].Act? :: log[i].at + c.t.tRCD <= m)
    && (forall i, r | 0 <= i < |log| && log[i].Act? && (r in rd || r in wr) :: log[i].at + c.t.tRCD <= r.arrival)
    && (forall i, j | 0 <= i < j < |log| && log[i].Act? && log[j].Act? :: log[i].at + c.t.tRCD <= log[j].at)
  }

  ghost predicate SpacedIn(c: Config, s: Channel, m: nat) {
    Spaced(c, s.rdQueue, s.wrQueue, s.log, m)
  }

  lemma SpacedQueueIn(c: Config, s: Channel, r: Request, m: nat)
    requires Scannable(c, s) && r.bank < c.numBanks && SpacedIn(c, s, m) && s.rdQueue == [] && s.wrQueue == []
    ensures SpacedIn(c, QueueIn(c, s, r, m), m)
  {
    hide Place;
    QueueInRest(c, s, r, m);
  }

  lemma SpacedServe(c: Config, s: Channel, w: bool, i: nat, cur: nat)
    requires CanServe(c, s, w, i, cur) && SpacedIn(c, s, cur) && s.bus.minResp >= c.t.tCL
    ensures SpacedIn(c, Serve(c, s, w, i, cur), cur)
  {
    var s1, r := Serve(c, s, w, i, cur), s.Queue(w)[i];
    var b, wm := s.banks[r.bank], WindowMin(c, s, r);
    assert r in s.Queue(w) && |s.Queue(w)| == 1 && |s.Queue(!w)| == 0;
    assert s1.Queue(w) == [] && s1.Queue(!w) == [];
    if !RowHit(b, r) { assert r.arrival <= ActCycle(c.t, b, r, wm) && ActCycle(c.t, b, r, wm) + c.t.tRCD <= cur; }
    hide ActCycle, CmdCycle, FindMinCmdCycle, W.Added, IssuedBank, IssuedBus;
    IssuedSpaced(c, s.log, b, s.bus, r, wm, cur, Closes(c, s, w, i));
  }

  lemma IssuedSpaced(c: Config, log: seq<Command>, b: BankState, bus: Bus, r: Request, wm: nat, cur: nat, close: bool)
    requires bus.minResp >= c.t.tCL && Spaced(c, [r], [], log, cur)
    requires !RowHit(b, r) ==> r.arrival <= ActCycle(c.t, b, r, wm) && ActCycle(c.t, b, r, wm) + c.t.tRCD <= cur
    ensures Spaced(c, [], [], log + IssuedCommands(c.t, b, bus, r, wm, cur, close), cur)
  {
    hide ActCycle, CmdCycle, RowHit;
    assert r in [r];
  }

  lemma SpacedTrySchedule(c: Config, s: Channel, cur: nat)
    requires CtrlOk(c, s) && SpacedIn(c, s, cur)
    ensures SpacedIn(c, TrySchedule(c, s, cur).0, cur)
  {
    hide CtrlOk, Scan, PicksWriteQueue, Serve, SpacedIn, SideOk, FrFcfs;
    Facts(c, s, true);
    ReadyIsHead(c, s, cur);
    var w, i := PicksWriteQueue(c, s), Ready(c, s, cur);
    if i.Some? { SpacedServe(c, s, w, i.value, cur); }
  }

  lemma SpacedRefill(c: Config, s: Channel, least: Option<nat>, m: nat)
    requires CtrlOk(c, s) && SpacedIn(c, s, m) && c.queueDepth == 1
    ensures SpacedIn(c, Refill(c, s, least, m).0, m)
  {
    hide CtrlOk, QueueIn, MinCmd, Place, SideOk, FrFcfs, Spaced;
    Facts(c, s, true);
    if !s.Full(c.queueDepth) && s.overflow != [] {
      OverflowBank(c, s);
      var s0 := s.(overflow := s.overflow[1..]);
      OverflowOk(c, s, s.overflow[1..]);
      Facts(c, s0, true);
      SpacedQueueIn(c, s0, s.overflow[0], m);
    }
  }

  lemma SpacedTick(c: Config, s: Channel, at: nat)
    requires CtrlOk(c, s) && SpacedIn(c, s, SysToMem(at, c.sysFreq, c.memFreq)) && c.queueDepth == 1
    ensures Scannable(c, s)
    ensures SpacedIn(c, Tick(c, s, at).0, SysToMem(at, c.sysFreq, c.memFreq))
  {
    hide CtrlOk, TrySchedule, Refill, Spaced, SideOk, FrFcfs, MatchingMemToSys;
    Facts(c, s, true);
    var cur := SysToMem(at, c.sysFreq, c.memFreq);
    hide SysToMem;
    TryScheduleOk(c, s, cur);
    SpacedTrySchedule(c, s, cur);
    var (s1, m1) := TrySchedule(c, s, cur);
    Facts(c, s1, true);
    SpacedRefill(c, s1, m1, cur);
  }

  lemma SpacedEnqueue(c: Config, s: Channel, r: Request, at: nat)
    requires CtrlOk(c, s) && r.bank < c.numBanks && c.queueDepth == 1
    requires SpacedIn(c, s, SysToMem(at, c.sysFreq, c.memFreq))
    ensures SpacedIn(c, Enqueue(c, s, r, at).0, SysToMem(at, c.sysFreq, c.memFreq))
  {
    hide CtrlOk, QueueIn, MinCmd, GoesFirst, Spaced, SideOk, FrFcfs, MatchingMemToSys;
    Facts(c, s, true);
    var m := SysToMem(at, c.sysFreq, c.memFreq);
    hide SysToMem;
    if !s.Full(c.queueDepth) { SpacedQueueIn(c, s, r, m); }
  }

  lemma SpacedRefreshed(c: Config, rd: seq<Request>, wr: seq<Request>, log: seq<Command>, m: nat, done: nat)
    requires Spaced(c, rd, wr, log, m)
    ensures Spaced(c, rd, wr, log + [Ref(done)], m)
  {
  }

  lemma SpacedLater(c: Config, s: Channel, m: nat, n: nat)
    requires SpacedIn(c, s, m) && m <= n
    ensures SpacedIn(c, s, n)
  {
  }

  ghost predicate SpacedSys(c: Config, s: System) {
    c.sysFreq > 0 && SpacedIn(c, s.ch, SysToMem(s.now, c.sysFreq, c.memFreq))
  }

  lemma SpacedStep(c: Config, s: System, step: Step)
    requires SysOk(c, s) && SpacedSys(c, s) && c.queueDepth == 1 && Enabled(c, s, step) && SourceAsserts(c, s, step)
    ensures SpacedSys(c, Apply(c, s, step))
  {
    hide CtrlOk, Tick, Enqueue, SpacedIn, TickAsserts, EventsOk, FreeOk, RefreshDone;
    var at := match step case Arrive(_, at) => at case Fire(i) => s.events[i].at case DoRefresh(at) => at;
    SysToMemMonotone(s.now, at, c.sysFreq, c.memFreq);
    SpacedLater(c, s.ch, SysToMem(s.now, c.sysFreq, c.memFreq), SysToMem(at, c.sysFreq, c.memFreq));
    hide SysToMem;
    match step
    case Arrive(r, _) => SpacedEnqueue(c, s.ch, r, at);
    case Fire(i) => if s.events[i].Queued? { SpacedTick(c, s.ch, at); }
    case DoRefresh(_) => SpacedRefresh(c, s.ch, at);
  }

  lemma SpacedRefresh(c: Config, s: Channel, at: nat)
    requires c.sysFreq > 0 && RefreshDone(c.t, s.banks, SysToMem(at, c.sysFreq, c.memFreq)) >= c.t.tRP
    requires SpacedIn(c, s, SysToMem(at, c.sysFreq, c.memFreq))
    ensures SpacedIn(c, Refresh(c, s, at), SysToMem(at, c.sysFreq, c.memFreq))
  {
    hide Spaced, RefreshDone, SysToMem;
    var m := SysToMem(at, c.sysFreq, c.memFreq);
    SpacedRefreshed(c, s.rdQueue, s.wrQueue, s.log, m, RefreshDone(c.t, s.banks, m));
  }

  lemma {:induction false} SpacedRun(c: Config, s: System, steps: seq<Step>)
    requires SysOk(c, s) && SpacedSys(c, s) && c.queueDepth == 1 && Completes(c, s, steps)
    ensures SpacedSys(c, Run(c, s, steps))
    decreases |steps|
  {
    hide SysOk, Apply, SourceAsserts, Enabled, SpacedSys;
    if steps != [] {
      StepOk(c, s, steps[0]);
      SpacedStep(c, s, steps[0]);
      SpacedRun(c, Apply(c, s, steps[0]), steps[1..]);
    }
  }

  lemma OneAtATimeKeeps(c: Config, steps: seq<Step>)
    requires c.Ok() && c.queueDepth == 1 && c.t.tRRD <= c.t.tRCD
    ensures RunKeepsRrd(c, steps)
  {
    if Completes(c, Start(c), steps) {
      StartOk(c);
      SpacedRun(c, Start(c), steps);
    }
    hide Run, Completes;
  }
}
