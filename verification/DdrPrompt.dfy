// No command of the memory controller comes later than it must: a cycle earlier, it would violate a constraint with
// some command that has been issued, or its request would not have arrived.
module DdrPrompt {
  import opened Options
  import opened DdrCycles
  import opened DdrQueue
  import opened DdrTiming
  import opened DdrState
  import opened DdrInvariant
  import opened DdrWake
  import opened DdrSystem
  import opened DdrRuns
  import opened DdrTheorems
  import W = ActivationWindow

  // ----- Every bound in bank and bus state stems from a command -----

  // Command x is why bank b must not be precharged before cycle pre.
  predicate HoldsOpen(t: Timing, b: nat, pre: nat, x: Command) {
    match x
    case Act(c, i, _) => b == c && i + t.tRAS == pre
    case Col(c, i, w, _, _) => b == c && i + ToPre(t, w) == pre
    case Ref(d) => d == pre + t.tRP
  }

  ghost predicate PreOk(t: Timing, b: nat, pre: nat, log: seq<Command>) {
    pre == 0 || exists x :: x in log && HoldsOpen(t, b, pre, x)
  }

  ghost predicate ActOk(b: nat, k: BankState, log: seq<Command>) {
    (k.lastAct == 0 && !k.open) || exists row :: Act(b, k.lastAct, row) in log
  }

  predicate UsesBus(t: Timing, bus: Bus, x: Command) {
    x.Col? && x.at + t.tCL + t.tBL == bus.minResp && x.write == bus.lastWasWrite
  }

  ghost predicate BusOk(t: Timing, bus: Bus, log: seq<Command>) {
    (bus.minResp == t.tCL + t.tBL + 1 && !bus.lastWasWrite) || exists x :: x in log && UsesBus(t, bus, x)
  }

  ghost predicate Caused(t: Timing, banks: seq<BankState>, bus: Bus, log: seq<Command>) {
    && BusOk(t, bus, log)
    && forall b | 0 <= b < |banks| :: PreOk(t, b, banks[b].minPre, log) && ActOk(b, banks[b], log)
  }

  ghost predicate CausedIn(c: Config, s: Channel) {
    Caused(c.t, s.banks, s.bus, s.log)
  }

  // ----- Least cycles -----

  // Command y breaks a constraint with some command of the log.
  ghost predicate Breaks(t: Timing, log: seq<Command>, y: Command) {
    exists x :: x in log && !Apart(t, x, y)
  }

  lemma PreBreaks(t: Timing, b: nat, pre: nat, log: seq<Command>, at: nat, row: nat)
    requires PreOk(t, b, pre, log) && at < pre + t.tRP
    ensures at < t.tRP || Breaks(t, log, Act(b, at, row))
  {
    if pre != 0 {
      var x :| x in log && HoldsOpen(t, b, pre, x);
      assert !Apart(t, x, Act(b, at, row));
    }
  }

  // An activation earlier than the one issued breaks a constraint, or comes before its request (or before the precharge
  // that the request has caused is over), or follows the oldest activation in the window too soon.
  lemma ActLeast(t: Timing, banks: seq<BankState>, bus: Bus, log: seq<Command>, r: Request, wm: nat, at: nat)
    requires Caused(t, banks, bus, log) && r.bank < |banks| && at < ActCycle(t, banks[r.bank], r, wm)
    ensures || at < r.arrival + (if banks[r.bank].open then t.tRP else 0)
            || at < wm + t.tFAW || at < Max(t.tRP, t.tRRD)
            || Breaks(t, log, Act(r.bank, at, r.row))
  {
    var k := banks[r.bank];
    if at < k.minPre + t.tRP { PreBreaks(t, r.bank, k.minPre, log, at, r.row); }
    if k.lastAct != 0 && at < k.lastAct + t.tRRD {
      var row :| Act(r.bank, k.lastAct, row) in log;
      assert !Apart(t, Act(r.bank, k.lastAct, row), Act(r.bank, at, r.row));
    }
  }

  // A column command earlier than the one issued comes before the tick that issues it, or breaks a constraint, with
  // commands issued before or with the activation of its own row.
  lemma ColLeast(t: Timing, banks: seq<BankState>, bus: Bus, log: seq<Command>, r: Request, wm: nat, cur: nat,
                 at: nat, close: bool)
    requires Caused(t, banks, bus, log) && r.bank < |banks| && bus.minResp >= t.tCL
    requires at < CmdCycle(t, banks[r.bank], bus, r, wm, cur)
    ensures || at < cur || at < t.tBL + 1 || Breaks(t, log, Col(r.bank, at, r.write, r.row, close))
            || (!RowHit(banks[r.bank], r) && at < ActCycle(t, banks[r.bank], r, wm) + t.tRCD)
  {
    hide ActCycle;
    if x :| x in log && UsesBus(t, bus, x) {
      if at < bus.minResp - t.tCL || (bus.lastWasWrite && !r.write && at < bus.minResp + t.tWTR) {
        assert !Apart(t, x, Col(r.bank, at, r.write, r.row, close));
      }
    }
  }

  // ----- Issuing and refreshing -----

  lemma MorePre(t: Timing, b: nat, pre: nat, log: seq<Command>, more: seq<Command>)
    requires PreOk(t, b, pre, log)
    ensures PreOk(t, b, pre, log + more)
  {
    if pre != 0 {
      var x :| x in log && HoldsOpen(t, b, pre, x);
      assert x in log + more;
    }
  }

  lemma MoreAct(b: nat, k: BankState, log: seq<Command>, more: seq<Command>)
    requires ActOk(b, k, log)
    ensures ActOk(b, k, log + more)
  {
    if row :| Act(b, k.lastAct, row) in log { assert Act(b, k.lastAct, row) in log + more; }
  }

  // The bank a request is issued to.
  lemma IssuedCaused(t: Timing, k: BankState, bus: Bus, log: seq<Command>, r: Request, wm: nat, cur: nat,
                     closedPage: bool, keepOpen: bool)
    requires PreOk(t, r.bank, k.minPre, log) && ActOk(r.bank, k, log) && bus.minResp >= t.tCL
    ensures var k1 := IssuedBank(t, k, bus, r, wm, cur, closedPage, keepOpen);
            var after := log + IssuedCommands(t, k, bus, r, wm, cur, closedPage && !keepOpen);
            && PreOk(t, r.bank, k1.minPre, after) && ActOk(r.bank, k1, after)
            && BusOk(t, IssuedBus(t, k, bus, r, wm, cur), after)
  {
    var more := IssuedCommands(t, k, bus, r, wm, cur, closedPage && !keepOpen);
    var after, k1 := log + more, IssuedBank(t, k, bus, r, wm, cur, closedPage, keepOpen);
    var col := more[|more| - 1];
    assert PreCycle(k, r) + t.tRP <= ActCycle(t, k, r, wm);
    MorePre(t, r.bank, k.minPre, log, more);
    MoreAct(r.bank, k, log, more);
    hide ActCycle, CmdCycle, PreOk;
    assert col in after && UsesBus(t, IssuedBus(t, k, bus, r, wm, cur), col);
    if !RowHit(k, r) { assert more[0] in after; }
    IssuedPre(t, k, bus, log, r, wm, cur, closedPage, keepOpen);
  }

  lemma IssuedPre(t: Timing, k: BankState, bus: Bus, log: seq<Command>, r: Request, wm: nat, cur: nat,
                  closedPage: bool, keepOpen: bool)
    requires PreOk(t, r.bank, k.minPre, log) && ActOk(r.bank, k, log) && bus.minResp >= t.tCL
    ensures PreOk(t, r.bank, IssuedBank(t, k, bus, r, wm, cur, closedPage, keepOpen).minPre,
                  log + IssuedCommands(t, k, bus, r, wm, cur, closedPage && !keepOpen))
  {
    var more := IssuedCommands(t, k, bus, r, wm, cur, closedPage && !keepOpen);
    var after, k1 := log + more, IssuedBank(t, k, bus, r, wm, cur, closedPage, keepOpen);
    var col := more[|more| - 1];
    assert PreCycle(k, r) + t.tRP <= ActCycle(t, k, r, wm);
    MorePre(t, r.bank, k.minPre, log, more);
    hide ActCycle, CmdCycle;
    assert col in after;
    if k1.minPre == col.at + ToPre(t, r.write) {
      assert HoldsOpen(t, r.bank, k1.minPre, col);
    } else if k1.minPre == k1.lastAct + t.tRAS {
      if RowHit(k, r) {
        var row :| Act(r.bank, k.lastAct, row) in log;
        assert Act(r.bank, k.lastAct, row) in after && HoldsOpen(t, r.bank, k1.minPre, Act(r.bank, k.lastAct, row));
      } else {
        assert more[0] in after && HoldsOpen(t, r.bank, k1.minPre, more[0]);
      }
    }
  }

  lemma IssueCaused(t: Timing, banks: seq<BankState>, bus: Bus, log: seq<Command>, r: Request, wm: nat, cur: nat,
                    closedPage: bool, keepOpen: bool)
    requires Caused(t, banks, bus, log) && r.bank < |banks| && bus.minResp >= t.tCL
    ensures Caused(t, banks[r.bank := IssuedBank(t, banks[r.bank], bus, r, wm, cur, closedPage, keepOpen)],
                   IssuedBus(t, banks[r.bank], bus, r, wm, cur),
                   log + IssuedCommands(t, banks[r.bank], bus, r, wm, cur, closedPage && !keepOpen))
  {
    hide PreOk, ActOk, BusOk, IssuedBank, IssuedBus, IssuedCommands;
    var more := IssuedCommands(t, banks[r.bank], bus, r, wm, cur, closedPage && !keepOpen);
    IssuedCaused(t, banks[r.bank], bus, log, r, wm, cur, closedPage, keepOpen);
    forall b | 0 <= b < |banks| && b != r.bank
      ensures PreOk(t, b, banks[b].minPre, log + more) && ActOk(b, banks[b], log + more)
    {
      MorePre(t, b, banks[b].minPre, log, more);
      MoreAct(b, banks[b], log, more);
    }
  }

  lemma ServeCaused(c: Config, s: Channel, w: bool, i: nat, cur: nat)
    requires CanServe(c, s, w, i, cur) && CausedIn(c, s) && s.bus.minResp >= c.t.tCL
    ensures CausedIn(c, Serve(c, s, w, i, cur))
  {
    hide Caused, FindMinCmdCycle, W.Added, IssuedBank, IssuedBus, IssuedCommands;
    var r := s.Queue(w)[i];
    IssueCaused(c.t, s.banks, s.bus, s.log, r, WindowMin(c, s, r), cur, c.closedPage,
                KeepsOpen(s.Lists(w)[r.bank]));
  }

  lemma RefreshCaused(c: Config, s: Channel, at: nat)
    requires c.sysFreq > 0 && RefreshDone(c.t, s.banks, SysToMem(at, c.sysFreq, c.memFreq)) >= c.t.tRP && CausedIn(c, s)
    ensures CausedIn(c, Refresh(c, s, at))
  {
    var done := RefreshDone(c.t, s.banks, SysToMem(at, c.sysFreq, c.memFreq));
    var s1 := Refresh(c, s, at);
    hide RefreshDone, SysToMem;
    assert Ref(done) in s1.log;
    forall b | 0 <= b < |s1.banks| ensures PreOk(c.t, b, s1.banks[b].minPre, s1.log) && ActOk(b, s1.banks[b], s1.log) {
      assert HoldsOpen(c.t, b, s1.banks[b].minPre, Ref(done));
      MoreAct(b, s.banks[b], s.log, [Ref(done)]);
    }
    if x :| x in s.log && UsesBus(c.t, s.bus, x) { assert x in s1.log; }
  }

  // ----- The operations -----

  lemma TryScheduleCaused(c: Config, s: Channel, cur: nat)
    requires CtrlOk(c, s) && CausedIn(c, s)
    ensures CausedIn(c, TrySchedule(c, s, cur).0)
  {
    hide CtrlOk, Scan, PicksWriteQueue, Serve, CausedIn, SideOk, FrFcfs;
    Facts(c, s, true);
    ReadyIsHead(c, s, cur);
    var w, i := PicksWriteQueue(c, s), Ready(c, s, cur);
    if i.Some? { ServeCaused(c, s, w, i.value, cur); }
  }

  lemma RefillCaused(c: Config, s: Channel, least: Option<nat>, m: nat)
    requires CtrlOk(c, s) && CausedIn(c, s)
    ensures CausedIn(c, Refill(c, s, least, m).0)
  {
    hide CtrlOk, QueueIn, MinCmd, Place, SideOk, FrFcfs, Caused;
    Facts(c, s, true);
    if !s.Full(c.queueDepth) && s.overflow != [] {
      OverflowBank(c, s);
      var s0 := s.(overflow := s.overflow[1..]);
      OverflowOk(c, s, s.overflow[1..]);
      Facts(c, s0, true);
      QueueInRest(c, s0, s.overflow[0], m);
    }
  }

  lemma TickCaused(c: Config, s: Channel, at: nat)
    requires CtrlOk(c, s) && CausedIn(c, s)
    ensures Scannable(c, s) && CausedIn(c, Tick(c, s, at).0)
  {
    hide CtrlOk, TrySchedule, Refill, Caused, SideOk, FrFcfs, MatchingMemToSys;
    Facts(c, s, true);
    var cur := SysToMem(at, c.sysFreq, c.memFreq);
    hide SysToMem;
    TryScheduleOk(c, s, cur);
    TryScheduleCaused(c, s, cur);
    var (s1, m1) := TrySchedule(c, s, cur);
    Facts(c, s1, true);
    RefillCaused(c, s1, m1, cur);
  }

  lemma EnqueueCaused(c: Config, s: Channel, r: Request, at: nat)
    requires CtrlOk(c, s) && r.bank < c.numBanks && CausedIn(c, s)
    ensures CausedIn(c, Enqueue(c, s, r, at).0)
  {
    hide CtrlOk, QueueIn, MinCmd, GoesFirst, Caused, SideOk, FrFcfs, MatchingMemToSys;
    Facts(c, s, true);
    var m := SysToMem(at, c.sysFreq, c.memFreq);
    hide SysToMem;
    if !s.Full(c.queueDepth) { QueueInRest(c, s, r, m); }
  }

  lemma StepCaused(c: Config, s: System, step: Step)
    requires SysOk(c, s) && CausedIn(c, s.ch) && Enabled(c, s, step) && SourceAsserts(c, s, step)
    ensures CausedIn(c, Apply(c, s, step).ch)
  {
    hide CtrlOk, Tick, Enqueue, CausedIn, TickAsserts, EventsOk, FreeOk, RefreshDone, SysToMem;
    match step
    case Arrive(r, at) => EnqueueCaused(c, s.ch, r, at);
    case Fire(i) => if s.events[i].Queued? { TickCaused(c, s.ch, s.events[i].at); }
    case DoRefresh(at) => RefreshCaused(c, s.ch, at);
  }

  lemma {:induction false} RunCaused(c: Config, s: System, steps: seq<Step>)
    requires SysOk(c, s) && CausedIn(c, s.ch) && Completes(c, s, steps)
    ensures CausedIn(c, Run(c, s, steps).ch)
    decreases |steps|
  {
    hide SysOk, Apply, SourceAsserts, Enabled, CausedIn;
    if steps != [] {
      StepOk(c, s, steps[0]);
      StepCaused(c, s, steps[0]);
      RunCaused(c, Apply(c, s, steps[0]), steps[1..]);
    }
  }

  lemma StartCaused(c: Config)
    ensures CausedIn(c, Start(c).ch)
  {
  }

  // ----- Theorems -----

  // In every run: had the activation or the column command with which a request is served come in an earlier cycle, it
  // would have broken a constraint with a command already issued, or been earlier than the tick, the request, the
  // activation it needs, or the channel's first cycles allow.
  lemma ServedPromptly(c: Config, steps: seq<Step>, w: bool, i: nat, cur: nat, at: nat, close: bool)
    requires c.Ok() && Completes(c, Start(c), steps)
    requires CanServe(c, Run(c, Start(c), steps).ch, w, i, cur)
    ensures var s := Run(c, Start(c), steps).ch;
            var r := s.Queue(w)[i];
            var b, wm := s.banks[r.bank], WindowMin(c, s, r);
            && s.bus.minResp >= c.t.tCL
            && (at < ActCycle(c.t, b, r, wm) ==>
                  || at < r.arrival + (if b.open then c.t.tRP else 0)
                  || at < wm + c.t.tFAW || at < Max(c.t.tRP, c.t.tRRD)
                  || Breaks(c.t, s.log, Act(r.bank, at, r.row)))
            && (at < CmdCycle(c.t, b, s.bus, r, wm, cur) ==>
                  || at < cur || at < c.t.tBL + 1 || Breaks(c.t, s.log, Col(r.bank, at, r.write, r.row, close))
                  || (!RowHit(b, r) && at < ActCycle(c.t, b, r, wm) + c.t.tRCD))
  {
    hide CtrlOk, Caused, ActCycle, CmdCycle, Breaks, FindMinCmdCycle, EventsOk, FreeOk;
    StartOk(c);
    StartCaused(c);
    Reached(c, steps);
    RunCaused(c, Start(c), steps);
    var s := Run(c, Start(c), steps).ch;
    hide Run;
    Facts(c, s, w);
    var r := s.Queue(w)[i];
    if at < ActCycle(c.t, s.banks[r.bank], r, WindowMin(c, s, r)) {
      ActLeast(c.t, s.banks, s.bus, s.log, r, WindowMin(c, s, r), at);
    }
    if at < CmdCycle(c.t, s.banks[r.bank], s.bus, r, WindowMin(c, s, r), cur) {
      ColLeast(c.t, s.banks, s.bus, s.log, r, WindowMin(c, s, r), cur, at, close);
    }
  }

  lemma {:induction false} MaxPreFrom(banks: seq<BankState>, m: nat)
    ensures MaxPre(banks, m) == m
            || exists b :: 0 <= b < |banks| && MaxPre(banks, m) in {banks[b].minPre, banks[b].lastCmd}
  {
    if banks != [] { MaxPreFrom(banks[..|banks| - 1], m); }
  }

  // And had a refresh ended earlier, it would have been shorter than tRFC, or broken a constraint, or come before the
  // precharge that ends the refresh before it.
  lemma RefreshedPromptly(c: Config, steps: seq<Step>, m: nat, done: nat)
    requires c.Ok() && Completes(c, Start(c), steps) && m > 0
    requires done < RefreshDone(c.t, Run(c, Start(c), steps).ch.banks, m)
    ensures var s := Run(c, Start(c), steps).ch;
            || done < m + c.t.tRFC || Breaks(c.t, s.log, Ref(done))
            || exists d: nat :: Ref(d) in s.log && done + c.t.tRP < d + c.t.tRFC
  {
    hide CtrlOk, Caused, EventsOk, FreeOk;
    StartOk(c);
    StartCaused(c);
    Reached(c, steps);
    RunCaused(c, Start(c), steps);
    var s := Run(c, Start(c), steps).ch;
    hide Run;
    BankOrder(c, s);
    MaxPreFrom(s.banks, m);
    MaxPreBound(s.banks, m);
    if done >= m + c.t.tRFC {
      var b :| 0 <= b < |s.banks| && MaxPre(s.banks, m) in {s.banks[b].minPre, s.banks[b].lastCmd};
      assert s.banks[b].lastCmd <= s.banks[b].minPre <= MaxPre(s.banks, m);
      RefreshLeast(c.t, s.banks, s.bus, s.log, b, done);
    }
  }

  lemma BankOrder(c: Config, s: Channel)
    requires CtrlOk(c, s)
    ensures forall b | 0 <= b < |s.banks| :: s.banks[b].lastCmd <= s.banks[b].minPre
  {
  }

  lemma RefreshLeast(t: Timing, banks: seq<BankState>, bus: Bus, log: seq<Command>, b: nat, done: nat)
    requires Caused(t, banks, bus, log) && b < |banks| && banks[b].minPre > 0 && done < banks[b].minPre + t.tRFC
    ensures Breaks(t, log, Ref(done)) || exists d: nat :: Ref(d) in log && done + t.tRP < d + t.tRFC
  {
    assert PreOk(t, b, banks[b].minPre, log);
    var x :| x in log && HoldsOpen(t, b, banks[b].minPre, x);
    if !x.Ref? { assert !Apart(t, x, Ref(done)); }
  }
}
