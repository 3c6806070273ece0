// A run in which the controller leaves an activation window out of order: the activation of a write that has waited
// behind reads of another bank lies before those of the reads.
module DdrWindowRuns {
  import opened Options
  import opened DdrCycles
  import opened DdrQueue
  import opened DdrTiming
  import opened DdrState
  import opened DdrInvariant
  import opened DdrWake
  import opened DdrSystem
  import opened DdrRuns
  import opened DdrSpacingRuns
  import W = ActivationWindow

  // DDR3-1333-CL10 with deferred writes.
  function Ddr3(): Config {
    Config(Timing(4, 10, 10, 5, 10, 4, 24, 20, 5, 10, 74), 4, 16, true, false, 2000, 666, 10, 8, 1, b => 0)
  }

  // Read i, of row i of bank 0, and a write to bank 1; as they come, and as they are queued.
  function Read(i: nat): Request {
    Request(i, 0, i, 0, false, 0, 0, true)
  }

  function QueuedRead(i: nat): Request {
    Request(i, i, i, 0, false, 0, 1, true)
  }

  const WRITE := Request(4, 0, 0, 1, true, 0, 0, false)
  const QUEUED_WRITE := Request(4, 4, 0, 1, true, 0, 1, false)

  function Reads(i: nat, n: nat): (r: seq<Request>)
    requires i <= n
    ensures |r| == n - i && forall j | 0 <= j < n - i :: r[j] == QueuedRead(i + j)
    decreases n - i
  {
    if i == n then [] else [QueuedRead(i)] + Reads(i + 1, n)
  }

  // ----- The arrivals -----

  // The first k reads wait, and nothing has been issued.
  ghost predicate ReadsWait(s: Channel, k: nat) {
    && Scannable(Ddr3(), s) && Untouched(Ddr3(), s)
    && s.rdQueue == Reads(0, k) && s.wrQueue == [] && s.overflow == [] && s.stamps == k
    && s.rdLists[0] == Reads(0, k) && s.wrLists[1] == []
    && s.nextSched == if k == 0 then None else Some(30)
  }

  lemma ReadPlaced(k: nat)
    ensures Place(Reads(0, k), k, OpenRow(false, 0, 0), 4) == (k, 0)
    ensures InsertAt(Reads(0, k), k, QueuedRead(k)) == Reads(0, k + 1) == Reads(0, k) + [QueuedRead(k)]
  {
    var q := Reads(0, k);
    var m := LastSameRow(q, k);
    assert m == -1;
    assert Reads(0, k + 1) == q + [QueuedRead(k)];
  }

  lemma ReadQueued(s: Channel, k: nat)
    requires ReadsWait(s, k) && k < 4
    ensures GoesFirst(Ddr3(), s, Read(k)) <==> k == 0
    ensures Stored(Ddr3(), s, Read(k), 1) == QueuedRead(k)
    ensures var s1 := QueueIn(Ddr3(), s, Read(k), 1);
            && Untouched(Ddr3(), s1) && s1.rdQueue == Reads(0, k + 1) && s1.wrQueue == [] && s1.overflow == []
            && s1.stamps == k + 1 && s1.rdLists == s.rdLists[0 := Reads(0, k + 1)] && s1.wrLists == s.wrLists
            && s1.nextSched == s.nextSched
  {
    ReadPlaced(k);
    hide LastSameRow, InsertAt, Place, Reads;
    QueueInRest(Ddr3(), s, Read(k), 1);
  }

  lemma ReadArrives(s: Channel, k: nat)
    requires ReadsWait(s, k) && k < 4
    ensures Scannable(Ddr3(), s)
    ensures var (s1, wake) := Enqueue(Ddr3(), s, Read(k), 0);
            ReadsWait(s1, k + 1) && (wake.Some? <==> k == 0)
  {
    ReadQueued(s, k);
    if k == 0 { FirstMin(s); }
    hide QueueIn, GoesFirst, Stored, MatchingMemToSys, Reads, MinCmd;
    assert SysToMem(0, 2000, 666) == 1;
    hide SysToMem;
    SameUntouched(Ddr3(), QueueIn(Ddr3(), s, Read(k), 1), Some(30));
  }

  lemma FirstMin(s: Channel)
    requires ReadsWait(s, 0)
    ensures MinCmd(Ddr3(), s, QueuedRead(0)) == 30
  {
  }

  // ----- The reads, one after the other -----

  // When read i is activated.
  function ActOf(i: nat): nat {
    20 + 34 * i
  }

  // When its column command can issue.
  function ReadyAt(i: nat): nat {
    30 + 34 * i
  }

  // The window and bank 0 after the first i reads.
  function WindowOf(i: nat): seq<nat>
    requires i <= 4
  {
    [[0, 0, 0, 0], [0, 0, 0, 20], [0, 0, 20, 54], [0, 20, 54, 88], [20, 54, 88, 122]][i]
  }

  function BankOf(i: nat): BankState {
    if i == 0 then BankState(false, 0, 0, 0, 0, 0)
    else BankState(true, i - 1, 10 + 34 * i, 34 * i - 14, 34 * i - 4, 0)
  }

  // i reads have been served, and the write still waits.
  ghost predicate ReadsGone(s: Channel, i: nat) {
    && Scannable(Ddr3(), s) && i <= 4
    && s.rdQueue == Reads(i, 4) && s.wrQueue == [QUEUED_WRITE] && s.overflow == []
    && s.rdLists[0] == Reads(i, 4) && s.wrLists[1] == [QUEUED_WRITE]
    && s.banks[0] == BankOf(i) && s.banks[1] == BankOf(0)
    && s.bus == Bus(if i == 0 then 15 else 10 + 34 * i, false)
    && s.windows[0] == WindowOf(i)
  }

  lemma WriteArrives(s: Channel)
    requires ReadsWait(s, 4)
    ensures Scannable(Ddr3(), s)
    ensures var (s1, wake) := Enqueue(Ddr3(), s, WRITE, 0);
            ReadsGone(s1, 0) && wake.None? && s1.nextSched == Some(30)
  {
    WriteQueued(s);
    hide QueueIn, GoesFirst, Stored, MatchingMemToSys, Reads, MinCmd;
    assert SysToMem(0, 2000, 666) == 1;
    hide SysToMem;
  }

  lemma WriteQueued(s: Channel)
    requires ReadsWait(s, 4)
    ensures GoesFirst(Ddr3(), s, WRITE) && Stored(Ddr3(), s, WRITE, 1) == QUEUED_WRITE
    ensures MinCmd(Ddr3(), s, QUEUED_WRITE) == 30
    ensures ReadsGone(QueueIn(Ddr3(), s, WRITE, 1), 0) && QueueIn(Ddr3(), s, WRITE, 1).nextSched == s.nextSched
  {
    hide Reads;
    assert Place([], 0, OpenRow(false, 0, 0), 4) == (0, 0);
    assert InsertAt([], 0, QUEUED_WRITE) == [QUEUED_WRITE];
    hide InsertAt, Place;
    QueueInRest(Ddr3(), s, WRITE, 1);
  }

  lemma NextMin(s: Channel, i: nat)
    requires ReadsGone(s, i) && i < 4
    ensures MinCmd(Ddr3(), s, QueuedRead(i)) == ReadyAt(i)
    ensures !RowHit(s.banks[0], QueuedRead(i))
    ensures ActCycle(Ddr3().t, s.banks[0], QueuedRead(i), WindowMin(Ddr3(), s, QueuedRead(i))) == ActOf(i)
  {
    hide Reads;
  }

  // No read but the next one is at the head of the list.
  lemma {:induction false} NotHead(s: Channel, i: nat, cur: nat, j: nat, least: Option<nat>)
    requires ReadsGone(s, i) && i < 4 && 0 < j <= 4 - i
    ensures Scan(Ddr3(), s, false, cur, j, least) == (4 - i, least)
    decreases 4 - i - j
  {
    hide Reads, MinCmd;
    if j < 4 - i {
      assert s.rdQueue[j] == QueuedRead(i + j) && s.rdLists[0][0] == QueuedRead(i);
      NotHead(s, i, cur, j + 1, least);
    }
  }

  // The next cycle is the one in which the data bus is free, if anything waits.
  predicate ServedNext(res: (Channel, Option<nat>)) {
    res.0.wrQueue != [] && res.0.bus.minResp >= 10 ==> res.1 == Some(res.0.bus.minResp - 10)
  }

  lemma NextAfter(s: Channel, cur: nat)
    requires Scannable(Ddr3(), s) && Ready(Ddr3(), s, cur).Some?
    ensures ServedNext(TrySchedule(Ddr3(), s, cur))
  {
    hide Scan, Serve, PicksWriteQueue, IsHead;
  }

  lemma ReadReady(s: Channel, i: nat, cur: nat)
    requires ReadsGone(s, i) && i < 4 && cur + 10 >= s.bus.minResp
    ensures Ready(Ddr3(), s, cur) == if cur >= ReadyAt(i) then Some(0) else None
    ensures !PicksWriteQueue(Ddr3(), s)
    ensures cur < ReadyAt(i) ==> TrySchedule(Ddr3(), s, cur) == (s, Some(ReadyAt(i)))
    ensures cur >= ReadyAt(i) ==> CanServe(Ddr3(), s, false, 0, cur)
                                   && TrySchedule(Ddr3(), s, cur).0 == Serve(Ddr3(), s, false, 0, cur)
  {
    NextMin(s, i);
    hide Reads, MinCmd, Serve;
    assert s.rdQueue[0] == QueuedRead(i) && s.rdLists[0][0] == QueuedRead(i);
    if cur < ReadyAt(i) { NotHead(s, i, cur, 1, Some(ReadyAt(i))); }
  }

  lemma ReadIssued(s: Channel, i: nat)
    requires ReadsGone(s, i) && i < 4
    ensures var c, r, b := Ddr3(), QueuedRead(i), s.banks[0];
            var wm := WindowMin(c, s, r);
            && IssuedBank(c.t, b, s.bus, r, wm, ReadyAt(i), false, false) == BankOf(i + 1)
            && IssuedBank(c.t, b, s.bus, r, wm, ReadyAt(i), false, true) == BankOf(i + 1)
            && IssuedBus(c.t, b, s.bus, r, wm, ReadyAt(i)) == Bus(10 + 34 * (i + 1), false)
  {
    NextMin(s, i);
    hide Reads, ActCycle;
  }

  lemma Sizes(s: Channel)
    requires Scannable(Ddr3(), s)
    ensures |s.banks| == |s.rdLists| == |s.wrLists| == 8 && |s.windows| == 1 && |s.windows[0]| == 4
    ensures s.bus.minResp >= 10
  {
  }

  lemma ReadServed(s: Channel, i: nat)
    requires ReadsGone(s, i) && i < 4 && CanServe(Ddr3(), s, false, 0, ReadyAt(i))
    ensures var s1 := Serve(Ddr3(), s, false, 0, ReadyAt(i));
            Scannable(Ddr3(), s1) ==> ReadsGone(s1, i + 1)
  {
    hide Reads, W.Added, MinCmd, Scannable, ActCycle, IssuedBank, IssuedBus, IssuedCommands, RowHit, BankOf, WindowOf;
    Sizes(s);
    NextMin(s, i);
    ReadIssued(s, i);
    NextReads(i);
    WindowStep(i);
    assert s.rdQueue[0] == QueuedRead(i);
  }

  lemma NextReads(i: nat)
    requires i < 4
    ensures Reads(i, 4)[1..] == Reads(i + 1, 4) && Without(Reads(i, 4), 0) == Reads(i + 1, 4)
  {
  }

  lemma WindowStep(i: nat)
    requires i < 4
    ensures W.Added(WindowOf(i), ActOf(i)) == WindowOf(i + 1)
  {
    var w := WindowOf(i);
    assert w[1] <= ActOf(i) && w[3] <= ActOf(i);
    assert W.Insert(w[1..], ActOf(i)) == w[1..] + [ActOf(i)];
  }

  // ----- Ticks -----

  lemma TryServes(s: Channel, i: nat)
    requires CtrlOk(Ddr3(), s) && ReadsGone(s, i) && i < 4
    ensures Scannable(Ddr3(), s)
    ensures var (s1, m) := TrySchedule(Ddr3(), s, ReadyAt(i));
            CtrlOk(Ddr3(), s1) && ReadsGone(s1, i + 1) && m == Some(34 * (i + 1))
  {
    hide CtrlOk, TrySchedule, Ready, Serve, CanServe, ReadsGone, PicksWriteQueue;
    GoneFacts(s, i);
    ReadReady(s, i, ReadyAt(i));
    NextAfter(s, ReadyAt(i));
    ReadServed(s, i);
    TryScheduleOk(Ddr3(), s, ReadyAt(i));
    var s1 := TrySchedule(Ddr3(), s, ReadyAt(i)).0;
    Facts(Ddr3(), s1, true);
    GoneFacts(s1, i + 1);
  }

  lemma GoneFacts(s: Channel, i: nat)
    requires ReadsGone(s, i)
    ensures Scannable(Ddr3(), s) && i <= 4 && s.wrQueue != [] && s.overflow == []
    ensures s.bus.minResp == if i == 0 then 15 else 10 + 34 * i
  {
  }

  // With nothing in the overflow queue, a tick schedules and no more.
  lemma TickSchedules(s: Channel, at: nat, cur: nat)
    requires CtrlOk(Ddr3(), s) && cur == SysToMem(at, 2000, 666)
    ensures Scannable(Ddr3(), s)
    ensures var (s1, m) := TrySchedule(Ddr3(), s, cur);
            && (s1.overflow == [] ==> Tick(Ddr3(), s, at).0 == s1.(nextSched := m))
            && (Tick(Ddr3(), s, at).1 == 0 <==> Tick(Ddr3(), s, at).0.nextSched.None?)
  {
    hide CtrlOk, TrySchedule, SideOk, FrFcfs, MatchingMemToSys, QueueIn;
    Facts(Ddr3(), s, true);
    TickOk(Ddr3(), s, at);
    hide SysToMem;
  }

  lemma Renamed(s: Channel, i: nat, x: Option<nat>)
    requires ReadsGone(s, i)
    ensures ReadsGone(s.(nextSched := x), i) && s.overflow == []
  {
    assert forall w :: s.(nextSched := x).Queue(w) == s.Queue(w);
    hide Reads, BankOf, WindowOf;
  }

  // The next tick comes when the data bus is free, or when read i is ready, and in the end for the write.
  predicate NextDue(i: nat, next: Option<nat>) {
    if i < 4 then next == Some(ReadyAt(i)) || (i > 0 && next == Some(34 * i)) else next == Some(136)
  }

  lemma ReadTick(s: Channel, i: nat, at: nat)
    requires CtrlOk(Ddr3(), s) && ReadsGone(s, i) && i < 4
    requires NextDue(i, s.nextSched) && s.nextSched == Some(SysToMem(at, 2000, 666))
    ensures Scannable(Ddr3(), s)
    ensures var (s1, next) := Tick(Ddr3(), s, at);
            && next != 0 && s1.nextSched.Some?
            && if s.nextSched == Some(ReadyAt(i)) then ReadsGone(s1, i + 1) && s1.nextSched == Some(34 * (i + 1))
               else ReadsGone(s1, i) && s1.nextSched == Some(ReadyAt(i))
  {
    var cur := s.nextSched.value;
    if cur != ReadyAt(i) { ReadReady(s, i, cur); }
    hide CtrlOk, Tick, TrySchedule, ReadsGone, SysToMem, Ready, Serve, CanServe;
    TickSchedules(s, at, cur);
    if cur == ReadyAt(i) {
      TryServes(s, i);
      var (s1, m) := TrySchedule(Ddr3(), s, cur);
      Renamed(s1, i + 1, m);
    } else {
      Renamed(s, i, Some(ReadyAt(i)));
    }
  }

  // The write's activation comes tFAW after the oldest of the reads', and so before the others.
  lemma WriteServed(s: Channel)
    requires ReadsGone(s, 4)
    ensures TrySchedule(Ddr3(), s, 136).0.windows == [[122, 54, 88, 40]]
    ensures TrySchedule(Ddr3(), s, 136).0.overflow == []
  {
    assert Reads(4, 4) == [];
    var w: seq<nat> := [20, 54, 88, 122];
    assert w[1..3] == [54, 88];
    assert W.Added(w, 40) == [122, 54, 88, 40];
    hide Reads, W.Added, CmdCycle, IssuedCommands;
  }

  // ----- The run -----

  lemma {:induction false} DrainReads(s: System, i: nat) returns (steps: seq<Step>)
    requires SysOk(Ddr3(), s) && OneEvent(s) && ReadsGone(s.ch, i) && NextDue(i, s.ch.nextSched)
    ensures Completes(Ddr3(), s, steps) && Run(Ddr3(), s, steps).ch.windows == [[122, 54, 88, 40]]
    decreases 4 - i, if s.ch.nextSched == Some(ReadyAt(i)) then 0 else 1
  {
    hide Apply, SourceAsserts, Enabled, CtrlOk, Tick, SysToMem, ReadsGone, NextDue, EventsOk, FreeOk, TrySchedule;
    OneEventFires(Ddr3(), s);
    EventAt(Ddr3(), s);
    var at := s.events[0].at;
    var s1 := Apply(Ddr3(), s, Fire(0));
    var rest := [];
    if i < 4 {
      ReadTick(s.ch, i, at);
      DueAgain(i, s.ch.nextSched, s1.ch.nextSched);
      rest := DrainReads(s1, if s.ch.nextSched == Some(ReadyAt(i)) then i + 1 else i);
    } else {
      DueLast(i, s.ch.nextSched);
      TickSchedules(s.ch, at, 136);
      LastOne(s.ch, i);
      WriteServed(s.ch);
    }
    steps := [Fire(0)] + rest;
    Prepend(Ddr3(), s, Fire(0), rest);
  }

  lemma LastOne(s: Channel, i: nat)
    requires ReadsGone(s, i) && i >= 4
    ensures i == 4
  {
  }

  lemma DueLast(i: nat, next: Option<nat>)
    requires NextDue(i, next) && i >= 4
    ensures next == Some(136)
  {
  }

  lemma DueAgain(i: nat, next: Option<nat>, after: Option<nat>)
    requires NextDue(i, next) && i < 4
    ensures next == Some(ReadyAt(i)) && after == Some(34 * (i + 1)) ==> NextDue(i + 1, after)
    ensures after == Some(ReadyAt(i)) ==> NextDue(i, after)
  {
  }

  lemma {:induction false} ReadsArrive(s: System, k: nat) returns (steps: seq<Step>)
    requires SysOk(Ddr3(), s) && ReadsWait(s.ch, k) && k <= 4 && s.now == 0
    requires if k == 0 then s.events == [] && s.free == [] && s.nextEvent == None else OneEvent(s)
    ensures Completes(Ddr3(), s, steps) && Run(Ddr3(), s, steps).ch.windows == [[122, 54, 88, 40]]
    decreases 4 - k
  {
    hide SysOk, Apply, SourceAsserts, Enabled, CtrlOk, ReadsWait, Enqueue, ReadsGone;
    var r := if k < 4 then Read(k) else WRITE;
    WaitShape(s.ch, k);
    if k < 4 { ReadArrives(s.ch, k); } else { WriteArrives(s.ch); }
    if k == 0 { ArrivesWaking(Ddr3(), s, r, 0); } else { ArrivesQuietly(Ddr3(), s, r, 0); }
    var s1 := Apply(Ddr3(), s, Arrive(r, 0));
    var rest;
    if k < 4 { rest := ReadsArrive(s1, k + 1); } else { rest := DrainReads(s1, 0); }
    steps := [Arrive(r, 0)] + rest;
    Prepend(Ddr3(), s, Arrive(r, 0), rest);
  }

  lemma WaitShape(s: Channel, k: nat)
    requires ReadsWait(s, k)
    ensures Shape(Ddr3(), s)
  {
  }

  // Four reads of different rows of one bank and a write to another bank, all at once, leave the window out of order.
  lemma OutOfOrderRun() returns (steps: seq<Step>)
    ensures Ddr3().Ok() && Completes(Ddr3(), Start(Ddr3()), steps)
    ensures Run(Ddr3(), Start(Ddr3()), steps).ch.windows == [[122, 54, 88, 40]] && !W.Sorted([122, 54, 88, 40])
  {
    StartOk(Ddr3());
    InitialFacts(Ddr3());
    hide SysOk, CtrlOk, Completes, Run;
    steps := ReadsArrive(Start(Ddr3()), 0);
    var w: seq<nat> := [122, 54, 88, 40];
    assert w[0] > w[1];
  }
}
