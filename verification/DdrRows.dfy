// The rows that the commands of the memory controller go to: every request served gets one column command, to its
// own row, which the commands before it have left open.
module DdrRows {
  import opened Options
  import opened DdrCycles
  import opened DdrQueue
  import opened DdrTiming
  import opened DdrState
  import opened DdrInvariant
  import opened DdrWake
  import opened DdrSystem
  import opened DdrRuns
  import W = ActivationWindow

  // The row of bank b that is open after command x.
  function RowAfter(x: Command, b: nat, before: Option<nat>): Option<nat> {
    match x
    case Act(bank, _, row) => if bank == b then Some(row) else before
    case Col(bank, _, _, _, close) => if bank == b && close then None else before
    case Ref(_) => None
  }

  // The row of bank b that a sequence of commands leaves open, if any.
  function RowOf(log: seq<Command>, b: nat): Option<nat> {
    if log == [] then None else RowAfter(log[|log| - 1], b, RowOf(log[..|log| - 1], b))
  }

  // Every column command goes to the row that the commands before it have left open.
  ghost predicate RowsUsed(log: seq<Command>) {
    forall j | 0 <= j < |log| && log[j].Col? :: RowOf(log[..j], log[j].bank) == Some(log[j].row)
  }

  // A row is activated only when it is not open.
  ghost predicate ActsNeeded(log: seq<Command>) {
    forall j | 0 <= j < |log| && log[j].Act? :: RowOf(log[..j], log[j].bank) != Some(log[j].row)
  }

  // Bank, row and direction of a column command or of a request.
  datatype Transfer = Transfer(bank: nat, row: nat, write: bool)

  function Transfers(log: seq<Command>): seq<Transfer> {
    if log == [] then []
    else
      var ts, x := Transfers(log[..|log| - 1]), log[|log| - 1];
      if x.Col? then ts + [Transfer(x.bank, x.row, x.write)] else ts
  }

  function Asked(q: seq<Request>): seq<Transfer> {
    if q == [] then []
    else Asked(q[..|q| - 1]) + [Transfer(q[|q| - 1].bank, q[|q| - 1].row, q[|q| - 1].write)]
  }

  ghost predicate RowsOk(banks: seq<BankState>, log: seq<Command>, served: seq<Request>) {
    && RowsUsed(log) && ActsNeeded(log) && Transfers(log) == Asked(served)
    && forall b | 0 <= b < |banks| :: RowOf(log, b) == if banks[b].open then Some(banks[b].openRow) else None
  }

  ghost predicate RowsIn(s: Channel) {
    RowsOk(s.banks, s.log, s.served)
  }

  // ----- One command -----

  lemma Pushed(log: seq<Command>, x: Command)
    requires RowsUsed(log) && (x.Col? ==> RowOf(log, x.bank) == Some(x.row))
    requires ActsNeeded(log) && (x.Act? ==> RowOf(log, x.bank) != Some(x.row))
    ensures RowsUsed(log + [x]) && ActsNeeded(log + [x])
    ensures forall b :: RowOf(log + [x], b) == RowAfter(x, b, RowOf(log, b))
    ensures Transfers(log + [x])
            == Transfers(log) + (if x.Col? then [Transfer(x.bank, x.row, x.write)] else [])
  {
    var after := log + [x];
    assert after[..|log|] == log;
    forall j | 0 <= j < |after| && after[j].Col? ensures RowOf(after[..j], after[j].bank) == Some(after[j].row) {
      if j < |log| { assert after[..j] == log[..j]; }
    }
    forall j | 0 <= j < |after| && after[j].Act? ensures RowOf(after[..j], after[j].bank) != Some(after[j].row) {
      if j < |log| { assert after[..j] == log[..j]; }
    }
  }

  lemma AskedPushed(q: seq<Request>, r: Request)
    ensures Asked(q + [r]) == Asked(q) + [Transfer(r.bank, r.row, r.write)]
  {
    assert (q + [r])[..|q|] == q;
  }

  lemma IssuedOpen(t: Timing, b: BankState, bus: Bus, r: Request, wm: nat, cur: nat, closedPage: bool, keepOpen: bool)
    requires bus.minResp >= t.tCL
    ensures var b1 := IssuedBank(t, b, bus, r, wm, cur, closedPage, keepOpen);
            b1.openRow == r.row && (b1.open <==> !(closedPage && !keepOpen))
  {
  }

  lemma IssueRows(t: Timing, banks: seq<BankState>, bus: Bus, log: seq<Command>, served: seq<Request>, r: Request,
                  wm: nat, cur: nat, closedPage: bool, keepOpen: bool)
    requires RowsOk(banks, log, served) && r.bank < |banks| && bus.minResp >= t.tCL
    ensures RowsOk(banks[r.bank := IssuedBank(t, banks[r.bank], bus, r, wm, cur, closedPage, keepOpen)],
                   log + IssuedCommands(t, banks[r.bank], bus, r, wm, cur, closedPage && !keepOpen), served + [r])
  {
    hide ActCycle, CmdCycle, RowOf, RowsUsed, ActsNeeded, Transfers, Asked, IssuedBank;
    IssuedOpen(t, banks[r.bank], bus, r, wm, cur, closedPage, keepOpen);
    var close := closedPage && !keepOpen;
    var act := Act(r.bank, ActCycle(t, banks[r.bank], r, wm), r.row);
    var col := Col(r.bank, CmdCycle(t, banks[r.bank], bus, r, wm, cur), r.write, r.row, close);
    AskedPushed(served, r);
    if RowHit(banks[r.bank], r) {
      Pushed(log, col);
      assert log + IssuedCommands(t, banks[r.bank], bus, r, wm, cur, close) == log + [col];
    } else {
      Pushed(log, act);
      Pushed(log + [act], col);
      assert log + IssuedCommands(t, banks[r.bank], bus, r, wm, cur, close) == log + [act] + [col];
    }
  }

  lemma RefreshRows(c: Config, s: Channel, at: nat)
    requires c.sysFreq > 0 && RefreshDone(c.t, s.banks, SysToMem(at, c.sysFreq, c.memFreq)) >= c.t.tRP && RowsIn(s)
    ensures RowsIn(Refresh(c, s, at))
  {
    hide RowOf, RowsUsed, ActsNeeded, Transfers, RefreshDone, SysToMem;
    Pushed(s.log, Ref(RefreshDone(c.t, s.banks, SysToMem(at, c.sysFreq, c.memFreq))));
  }

  // ----- The operations -----

  lemma ServeRows(c: Config, s: Channel, w: bool, i: nat, cur: nat)
    requires CanServe(c, s, w, i, cur) && RowsIn(s) && s.bus.minResp >= c.t.tCL
    ensures RowsIn(Serve(c, s, w, i, cur))
  {
    hide RowsOk, FindMinCmdCycle, W.Added, IssuedBank, IssuedBus, IssuedCommands;
    var r := s.Queue(w)[i];
    IssueRows(c.t, s.banks, s.bus, s.log, s.served, r, WindowMin(c, s, r), cur, c.closedPage,
              KeepsOpen(s.Lists(w)[r.bank]));
  }

  lemma TryScheduleRows(c: Config, s: Channel, cur: nat)
    requires CtrlOk(c, s) && RowsIn(s)
    ensures RowsIn(TrySchedule(c, s, cur).0)
  {
    hide CtrlOk, Scan, PicksWriteQueue, Serve, RowsIn, SideOk, FrFcfs;
    Facts(c, s, true);
    ReadyIsHead(c, s, cur);
    var w, i := PicksWriteQueue(c, s), Ready(c, s, cur);
    if i.Some? { ServeRows(c, s, w, i.value, cur); }
  }

  lemma RefillRows(c: Config, s: Channel, least: Option<nat>, m: nat)
    requires CtrlOk(c, s) && RowsIn(s)
    ensures RowsIn(Refill(c, s, least, m).0)
  {
    hide CtrlOk, QueueIn, MinCmd, Place, SideOk, FrFcfs, RowsOk;
    Facts(c, s, true);
    if !s.Full(c.queueDepth) && s.overflow != [] {
      OverflowBank(c, s);
      var s0 := s.(overflow := s.overflow[1..]);
      OverflowOk(c, s, s.overflow[1..]);
      Facts(c, s0, true);
      QueueInRest(c, s0, s.overflow[0], m);
    }
  }

  lemma TickRows(c: Config, s: Channel, at: nat)
    requires CtrlOk(c, s) && RowsIn(s)
    ensures Scannable(c, s) && RowsIn(Tick(c, s, at).0)
  {
    hide CtrlOk, TrySchedule, Refill, RowsOk, SideOk, FrFcfs, MatchingMemToSys;
    Facts(c, s, true);
    var cur := SysToMem(at, c.sysFreq, c.memFreq);
    hide SysToMem;
    TryScheduleOk(c, s, cur);
    TryScheduleRows(c, s, cur);
    var (s1, m1) := TrySchedule(c, s, cur);
    Facts(c, s1, true);
    RefillRows(c, s1, m1, cur);
  }

  lemma EnqueueRows(c: Config, s: Channel, r: Request, at: nat)
    requires CtrlOk(c, s) && r.bank < c.numBanks && RowsIn(s)
    ensures RowsIn(Enqueue(c, s, r, at).0)
  {
    hide CtrlOk, QueueIn, MinCmd, GoesFirst, RowsOk, SideOk, FrFcfs, MatchingMemToSys;
    Facts(c, s, true);
    var m := SysToMem(at, c.sysFreq, c.memFreq);
    hide SysToMem;
    if !s.Full(c.queueDepth) { QueueInRest(c, s, r, m); }
  }

  lemma StepRows(c: Config, s: System, step: Step)
    requires SysOk(c, s) && RowsIn(s.ch) && Enabled(c, s, step) && SourceAsserts(c, s, step)
    ensures RowsIn(Apply(c, s, step).ch)
  {
    hide CtrlOk, Tick, Enqueue, RowsIn, TickAsserts, EventsOk, FreeOk, RefreshDone, SysToMem;
    match step
    case Arrive(r, at) => EnqueueRows(c, s.ch, r, at);
    case Fire(i) => if s.events[i].Queued? { TickRows(c, s.ch, s.events[i].at); }
    case DoRefresh(at) => RefreshRows(c, s.ch, at);
  }

  lemma {:induction false} RunRows(c: Config, s: System, steps: seq<Step>)
    requires SysOk(c, s) && RowsIn(s.ch) && Completes(c, s, steps)
    ensures RowsIn(Run(c, s, steps).ch)
    decreases |steps|
  {
    hide SysOk, Apply, SourceAsserts, Enabled, RowsIn;
    if steps != [] {
      StepOk(c, s, steps[0]);
      StepRows(c, s, steps[0]);
      RunRows(c, Apply(c, s, steps[0]), steps[1..]);
    }
  }

  // In every run, the column commands are those of the requests served, in order, and each goes to the row that the
  // last activation of its bank has opened, with no refresh and no closing precharge in between. A row that is open is
  // not activated again.
  lemma RowsKept(c: Config, steps: seq<Step>)
    requires c.Ok() && Completes(c, Start(c), steps)
    ensures var s := Run(c, Start(c), steps).ch;
            RowsUsed(s.log) && ActsNeeded(s.log) && Transfers(s.log) == Asked(s.served)
  {
    StartOk(c);
    RunRows(c, Start(c), steps);
  }

  // What it means that a row is open: an activation has opened it, and nothing has closed it since.
  lemma {:induction false} OpenedBy(log: seq<Command>, b: nat) returns (i: nat)
    requires RowOf(log, b).Some?
    ensures i < |log| && log[i].Act? && log[i].bank == b && log[i].row == RowOf(log, b).value
    ensures forall k | i < k < |log| ::
              !log[k].Ref? && (log[k].bank == b ==> log[k].Col? && !log[k].close)
    decreases |log|
  {
    var n := |log| - 1;
    if log[n].Act? && log[n].bank == b {
      i := n;
    } else {
      i := OpenedBy(log[..n], b);
    }
  }

  // With closed pages, serving a request leaves its row open exactly if the next request in the bank list wants that
  // row and the cap on row hits has not been reached; with open pages always.
  lemma LeftOpenIff(c: Config, s: Channel, w: bool, i: nat, cur: nat)
    requires CtrlOk(c, s) && CanServe(c, s, w, i, cur)
    ensures s.bus.minResp >= c.t.tCL
    ensures var r, s1 := s.Queue(w)[i], Serve(c, s, w, i, cur);
            var l := s.Lists(w)[r.bank];
            && s1.banks[r.bank].openRow == r.row
            && (s1.banks[r.bank].open <==>
                !c.closedPage || (|l| > 1 && l[1].row == r.row && r.rowHitSeq < c.rowHitLimit))
  {
    hide CtrlOk, FindMinCmdCycle, W.Added;
    Facts(c, s, w);
    var r := s.Queue(w)[i];
    var l := s.Lists(w)[r.bank];
    IssuedOpen(c.t, s.banks[r.bank], s.bus, r, WindowMin(c, s, r), cur, c.closedPage, KeepsOpen(l));
    KeepsOpenIff(l, c.rowHitLimit);
    hide FrFcfs, SideOk, Scannable, IssuedBank, IssuedBus, IssuedCommands, QueueOk;
  }

  lemma KeepsOpenIff(l: seq<Request>, limit: nat)
    requires QueueOk(l, limit) && l != []
    ensures KeepsOpen(l) <==> |l| > 1 && l[1].row == l[0].row && l[0].rowHitSeq < limit
  {
    if |l| > 1 && l[1].row == l[0].row {
      assert NextOfRow(l, 0, 1);
    }
  }
}
