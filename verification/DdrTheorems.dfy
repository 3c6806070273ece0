// What holds in every run of the memory controller: no request is lost or served twice, wake-ups
// are pending whenever they are needed, and the commands issued keep the timing constraints.
module DdrTheorems {
  import opened Options
  import opened DdrCycles
  import opened DdrQueue
  import opened DdrTiming
  import opened DdrState
  import opened DdrInvariant
  import opened DdrWake
  import opened DdrSystem
  import opened DdrRuns
  import W = ActivationWindow

  // ----- Conservation -----

  function Ids(q: seq<Request>): multiset<nat> {
    if q == [] then multiset{} else Ids(q[..|q| - 1]) + multiset{q[|q| - 1].id}
  }

  // Every request the controller knows of, once per place that holds it.
  function Accounted(s: Channel): multiset<nat> {
    Ids(s.rdQueue) + Ids(s.wrQueue) + Ids(s.overflow) + Ids(s.served)
  }

  lemma IdsPush(q: seq<Request>, r: Request)
    ensures Ids(q + [r]) == Ids(q) + multiset{r.id}
  {
    assert (q + [r])[..|q|] == q;
  }

  lemma {:induction false} IdsWithout(q: seq<Request>, i: nat)
    requires i < |q|
    ensures Ids(q) == Ids(Without(q, i)) + multiset{q[i].id}
    decreases |q|
  {
    var p := q[..|q| - 1];
    if i < |q| - 1 {
      IdsWithout(p, i);
      assert Without(q, i) == Without(p, i) + [q[|q| - 1]];
      IdsPush(Without(p, i), q[|q| - 1]);
    } else {
      assert Without(q, i) == p;
    }
  }

  lemma QueueInAccounts(c: Config, s: Channel, r: Request, memCycle: nat)
    requires Scannable(c, s) && r.bank < c.numBanks
    ensures Accounted(QueueIn(c, s, r, memCycle)) == Accounted(s) + multiset{r.id}
  {
    hide Place, Ids;
    var w := UsesWriteQueue(c, r);
    IdsPush(s.Queue(w), Stored(c, s, r, memCycle));
    QueueInRest(c, s, r, memCycle);
  }

  lemma SameAccounts(s: Channel, s1: Channel)
    requires s1.rdQueue == s.rdQueue && s1.wrQueue == s.wrQueue && s1.overflow == s.overflow && s1.served == s.served
    ensures Accounted(s1) == Accounted(s)
  {
  }

  lemma OverflowAccounts(s: Channel, r: Request)
    ensures Accounted(s.(overflow := s.overflow + [r])) == Accounted(s) + multiset{r.id}
  {
    hide Ids;
    IdsPush(s.overflow, r);
  }

  lemma EnqueueAccounts(c: Config, s: Channel, r: Request, sysCycle: nat)
    requires CtrlOk(c, s) && r.bank < c.numBanks
    ensures Accounted(Enqueue(c, s, r, sysCycle).0) == Accounted(s) + multiset{r.id}
  {
    hide CtrlOk, QueueIn, GoesFirst, MinCmd, Accounted, SideOk, FrFcfs, SysToMem, MatchingMemToSys;
    Facts(c, s, true);
    var s1 := Enqueue(c, s, r, sysCycle).0;
    if s.Full(c.queueDepth) {
      OverflowAccounts(s, r);
    } else {
      var s0 := QueueIn(c, s, r, SysToMem(sysCycle, c.sysFreq, c.memFreq));
      QueueInAccounts(c, s, r, SysToMem(sysCycle, c.sysFreq, c.memFreq));
      SameAccounts(s0, s1);
    }
  }

  lemma ServedAccounts(s: Channel, s1: Channel, w: bool, i: nat)
    requires Served(s, s1, w, i)
    ensures Accounted(s1) == Accounted(s)
  {
    hide Ids;
    IdsWithout(s.Queue(w), i);
    IdsPush(s.served, s.Queue(w)[i]);
    assert s1.Queue(w) == Without(s.Queue(w), i);
    assert s1.Queue(!w) == s.Queue(!w);
  }

  lemma TryScheduleAccounts(c: Config, s: Channel, cur: nat)
    requires CtrlOk(c, s)
    ensures Accounted(TrySchedule(c, s, cur).0) == Accounted(s)
  {
    hide CtrlOk, TrySchedule, Accounted, Served;
    TryScheduleOk(c, s, cur);
    Facts(c, s, true);
    var s1 := TrySchedule(c, s, cur).0;
    if s1 != s {
      var w, i :| Served(s, s1, w, i);
      ServedAccounts(s, s1, w, i);
    }
  }

  lemma DropAccounts(s: Channel)
    requires s.overflow != []
    ensures Accounted(s) == Accounted(s.(overflow := s.overflow[1..])) + multiset{s.overflow[0].id}
  {
    hide Ids;
    IdsWithout(s.overflow, 0);
    assert Without(s.overflow, 0) == s.overflow[1..];
  }

  lemma RefillAccounts(c: Config, s: Channel, least: Option<nat>, memCycle: nat)
    requires CtrlOk(c, s)
    ensures Accounted(Refill(c, s, least, memCycle).0) == Accounted(s)
  {
    Facts(c, s, true);
    hide CtrlOk, QueueIn, GoesFirst, MinCmd, Accounted, SideOk, Scannable, FrFcfs;
    if !s.Full(c.queueDepth) && s.overflow != [] {
      OverflowBank(c, s);
      DropAccounts(s);
      OverflowOk(c, s, s.overflow[1..]);
      Facts(c, s.(overflow := s.overflow[1..]), true);
      QueueInAccounts(c, s.(overflow := s.overflow[1..]), s.overflow[0], memCycle);
    }
  }

  lemma TickAccounts(c: Config, s: Channel, sysCycle: nat)
    requires CtrlOk(c, s)
    ensures Accounted(Tick(c, s, sysCycle).0) == Accounted(s)
  {
    hide CtrlOk, TrySchedule, Refill, SysToMem, Accounted, SideOk, FrFcfs, MatchingMemToSys;
    Facts(c, s, true);
    var memCycle := SysToMem(sysCycle, c.sysFreq, c.memFreq);
    TryScheduleOk(c, s, memCycle);
    TryScheduleAccounts(c, s, memCycle);
    var (s1, m1) := TrySchedule(c, s, memCycle);
    RefillAccounts(c, s1, m1, memCycle);
    var s2 := Refill(c, s1, m1, memCycle).0;
    SameAccounts(s2, Tick(c, s, sysCycle).0);
  }

  lemma StepAccounts(c: Config, s: System, step: Step)
    requires SysOk(c, s) && Enabled(c, s, step) && SourceAsserts(c, s, step)
    ensures Accounted(Apply(c, s, step).ch)
            == Accounted(s.ch) + (if step.Arrive? then multiset{step.r.id} else multiset{})
  {
    hide CtrlOk, Tick, Enqueue, SysToMem, TickAsserts, Accounted, EventsOk, FreeOk, Due;
    match step
    case Arrive(r, at) => EnqueueAccounts(c, s.ch, r, at);
    case Fire(i) => if s.events[i].Queued? { TickAccounts(c, s.ch, s.events[i].at); }
    case DoRefresh(at) => SameAccounts(s.ch, Refresh(c, s.ch, at));
  }

  lemma {:induction false} RunAccounts(c: Config, s: System, steps: seq<Step>)
    requires SysOk(c, s) && Completes(c, s, steps)
    ensures Accounted(Run(c, s, steps).ch) == Accounted(s.ch) + Arrived(steps)
    decreases |steps|
  {
    hide SysOk, Apply, SourceAsserts, Enabled, Accounted;
    if steps != [] {
      StepOk(c, s, steps[0]);
      StepAccounts(c, s, steps[0]);
      RunAccounts(c, Apply(c, s, steps[0]), steps[1..]);
    }
  }

  // ----- Theorems -----

  // No run can make an assertion of the controller fail.
  lemma NoAssertFails(c: Config, steps: seq<Step>)
    requires c.Ok() && Possible(c, Start(c), steps)
    ensures Completes(c, Start(c), steps)
  {
    StartOk(c);
    RunOk(c, Start(c), steps);
  }

  lemma Reached(c: Config, steps: seq<Step>)
    requires c.Ok() && Completes(c, Start(c), steps)
    ensures SysOk(c, Run(c, Start(c), steps))
  {
    StartOk(c);
    CompletesIsPossible(c, Start(c), steps);
    RunOk(c, Start(c), steps);
  }

  lemma {:induction false} CompletesIsPossible(c: Config, s: System, steps: seq<Step>)
    requires Completes(c, s, steps)
    ensures Possible(c, s, steps)
    decreases |steps|
  {
    hide Apply, SourceAsserts, Enabled;
    if steps != [] { CompletesIsPossible(c, Apply(c, s, steps[0]), steps[1..]); }
  }

  // Every request that has arrived is in exactly one of the read queue, the write queue, the
  // overflow queue and the requests served, however often its number has been used.
  lemma NothingLost(c: Config, steps: seq<Step>)
    requires c.Ok() && Completes(c, Start(c), steps)
    ensures Accounted(Run(c, Start(c), steps).ch) == Arrived(steps)
  {
    StartOk(c);
    RunAccounts(c, Start(c), steps);
  }

  // While a request waits in any queue, exactly one scheduling event is queued and not annulled,
  // and it will arrive in the memory cycle that the controller expects.
  lemma WakeUpPending(c: Config, steps: seq<Step>)
    requires c.Ok() && Completes(c, Start(c), steps)
    ensures var s := Run(c, Start(c), steps);
            s.ch.rdQueue != [] || s.ch.wrQueue != [] || s.ch.overflow != [] ==>
              exists i :: 0 <= i < |s.events| && s.events[i].Queued? && s.events[i].at >= s.now
                && s.ch.nextSched == Some(SysToMem(s.events[i].at, c.sysFreq, c.memFreq))
                && (forall j | 0 <= j < |s.events| && s.events[j].Queued? :: j == i)
  {
    Reached(c, steps);
    var s := Run(c, Start(c), steps);
    hide CtrlOk, SysToMem, Run;
    if s.nextEvent.Some? {
      var i := s.nextEvent.value;
      assert s.events[i].Queued?;
    }
  }

  // Bursts on the data bus do not overlap and all bank constraints hold between any two commands
  // issued in the run.
  lemma TimingKept(c: Config, steps: seq<Step>)
    requires c.Ok() && Completes(c, Start(c), steps)
    ensures LogOk(c.t, Run(c, Start(c), steps).ch.log)
  {
    Reached(c, steps);
  }

  // Never more than four activations of a rank within less than tFAW, though activations may be issued
  // in another order than that of their cycles.
  lemma FawKept(c: Config, steps: seq<Step>, k: nat)
    requires c.Ok() && Completes(c, Start(c), steps) && k < c.numRanks
    ensures W.NoBurst(ActsOf(c, Run(c, Start(c), steps).ch.log, k), 4, c.t.tFAW)
  {
    Reached(c, steps);
    var s := Run(c, Start(c), steps).ch;
    hide Run, ChannelOk, SidesOk, OpenIsWanted, EventsOk, FreeOk, W.NoBurst;
    W.CoveredHasNoBurst(s.windows[k], ActsOf(c, s.log, k), c.t.tFAW);
  }

  // Every bank list is in FR-FCFS order, and with closed pages a row is open only for the next
  // request of one of its lists.
  lemma ListsKept(c: Config, steps: seq<Step>, w: bool, b: nat)
    requires c.Ok() && Completes(c, Start(c), steps) && b < c.numBanks
    ensures var s := Run(c, Start(c), steps).ch;
            && |s.banks| == |s.Lists(w)| == c.numBanks
            && QueueOk(s.Lists(w)[b], c.rowHitLimit) && s.banks[b].curRowHits <= c.rowHitLimit
            && (forall r :: r in s.Lists(w)[b] <==> r in s.Queue(w) && r.bank == b)
            && (c.closedPage && s.banks[b].open ==> HeadHits(s, b, false) || HeadHits(s, b, true))
  {
    Reached(c, steps);
    var s := Run(c, Start(c), steps).ch;
    hide Run, ChannelOk, QueueOk, EventsOk, FreeOk, InOrder, OwnQueue;
    assert SideOk(c, w, s.Queue(w), s.Lists(w), s.stamps);
    if c.closedPage && s.banks[b].open { var v :| HeadHits(s, b, v); }
  }

  // ----- Waking up is useful -----

  lemma {:induction false} ScanLeast(c: Config, s: Channel, w: bool, cur: nat, i: nat, least: Option<nat>)
    requires Scannable(c, s) && i <= |s.Queue(w)|
    ensures var q, m := s.Queue(w), Scan(c, s, w, cur, i, least).1;
            m == least || exists k :: i <= k < |q| && IsHead(s, w, q[k]) && q[k].bank < c.numBanks
                            && m == Some(MinCmd(c, s, q[k]))
    decreases |s.Queue(w)| - i
  {
    hide FindMinCmdCycle, WindowMin;
    var q := s.Queue(w);
    if i < |q| {
      assert q[i] in q;
      if IsHead(s, w, q[i]) {
        var m := MinCmd(c, s, q[i]);
        if m > cur { ScanLeast(c, s, w, cur, i + 1, Least(least, m)); }
      } else {
        ScanLeast(c, s, w, cur, i + 1, least);
      }
    }
  }

  // A head that is ready is found, or one before it.
  lemma ReadyFound(c: Config, s: Channel, cur: nat, k: nat)
    requires CtrlOk(c, s) && cur + c.t.tCL >= s.bus.minResp
    requires var w := PicksWriteQueue(c, s);
             k < |s.Queue(w)| && IsHead(s, w, s.Queue(w)[k]) && s.Queue(w)[k].bank < c.numBanks
             && Shape(c, s) && MinCmd(c, s, s.Queue(w)[k]) <= cur
    ensures Ready(c, s, cur).Some?
  {
    hide CtrlOk, MinCmd, PicksWriteQueue, Scan, SideOk, FrFcfs;
    Facts(c, s, true);
    ScanFinds(c, s, PicksWriteQueue(c, s), cur, 0, None);
  }

  // If a tick serves nothing although the data bus is free, then the tick it asks for serves a
  // request, unless an arrival or a refresh comes in between.
  lemma IdleTickOnlyOnce(c: Config, s: Channel, cur: nat)
    requires CtrlOk(c, s) && (s.rdQueue != [] || s.wrQueue != [])
    requires cur + c.t.tCL >= s.bus.minResp && Ready(c, s, cur).None?
    ensures var m := TrySchedule(c, s, cur).1; m.Some? && m.value > cur && Ready(c, s, m.value).Some?
  {
    TryScheduleOk(c, s, cur);
    var w := PicksWriteQueue(c, s);
    var m := TrySchedule(c, s, cur).1;
    ScanLeast(c, s, w, cur, 0, None);
    hide CtrlOk, Scan, Ready, PicksWriteQueue;
    var k :| 0 <= k < |s.Queue(w)| && IsHead(s, w, s.Queue(w)[k]) && s.Queue(w)[k].bank < c.numBanks
             && m == Some(MinCmd(c, s, s.Queue(w)[k]));
    ReadyFound(c, s, m.value, k);
  }

  predicate AtMost(a: Option<nat>, m: nat) {
    a.Some? && a.value <= m
  }

  // A scan that finds nothing ready reports no later cycle than that of any head.
  lemma {:induction false} ScanBound(c: Config, s: Channel, w: bool, cur: nat, i: nat, least: Option<nat>, k: nat)
    requires Scannable(c, s) && i <= |s.Queue(w)| && Scan(c, s, w, cur, i, least).0 == |s.Queue(w)|
    ensures var q, m := s.Queue(w), Scan(c, s, w, cur, i, least).1;
            && (least.Some? ==> AtMost(m, least.value))
            && (i <= k < |q| && IsHead(s, w, q[k]) && q[k].bank < c.numBanks ==> AtMost(m, MinCmd(c, s, q[k])))
    decreases |s.Queue(w)| - i
  {
    hide FindMinCmdCycle, WindowMin;
    var q := s.Queue(w);
    if i < |q| {
      assert q[i] in q;
      if IsHead(s, w, q[i]) {
        ScanBound(c, s, w, cur, i + 1, Least(least, MinCmd(c, s, q[i])), k);
      } else {
        ScanBound(c, s, w, cur, i + 1, least, k);
      }
    }
  }

  // No tick comes late: in the cycles before the one it asks for, nothing could be served.
  lemma TickNotLate(c: Config, s: Channel, cur: nat, between: nat)
    requires CtrlOk(c, s) && cur < between
    ensures var (s1, m) := TrySchedule(c, s, cur);
            Scannable(c, s1) && (m.None? || between < m.value ==> Ready(c, s1, between).None?)
  {
    hide CtrlOk, Scan, Serve, PicksWriteQueue, MinCmd, SideOk, FrFcfs;
    Facts(c, s, true);
    hide Scannable;
    if (s.rdQueue != [] || s.wrQueue != []) && cur + c.t.tCL >= s.bus.minResp && Ready(c, s, cur).None? {
      var w := PicksWriteQueue(c, s);
      ScanFinds(c, s, w, cur, 0, None);
      ScanFinds(c, s, w, between, 0, None);
      var j := Scan(c, s, w, between, 0, None).0;
      if j < |s.Queue(w)| { ScanBound(c, s, w, cur, 0, None, j); }
    }
  }

  // An arriving request that becomes the first of its bank list does not wait for its tick either: there is one at the
  // latest in the first cycle in which its bank and the data bus are ready for it.
  lemma ArrivalNotLate(c: Config, s: Channel, r: Request, sysCycle: nat, cur: nat)
    requires CtrlOk(c, s) && Awake(s) && r.bank < c.numBanks && !s.Full(c.queueDepth) && GoesFirst(c, s, r)
    requires var m := SysToMem(sysCycle, c.sysFreq, c.memFreq);
             m <= cur && s.bus.minResp <= cur + c.t.tCL && MinCmd(c, s, Stored(c, s, r, m)) <= cur
    ensures Shape(c, s) && AtMost(Enqueue(c, s, r, sysCycle).0.nextSched, cur)
  {
    hide CtrlOk, QueueIn, GoesFirst, MinCmd, SysToMem, MatchingMemToSys, SideOk, FrFcfs;
    Facts(c, s, true);
    var m := SysToMem(sysCycle, c.sysFreq, c.memFreq);
    QueueInRest(c, s, r, m);
    hide Scannable;
  }

  // The same for a request that comes in from the overflow queue with a tick.
  lemma RefillNotLate(c: Config, s: Channel, least: Option<nat>, m: nat, cur: nat)
    requires CtrlOk(c, s) && !s.Full(c.queueDepth) && s.overflow != [] && m <= cur && s.bus.minResp <= cur + c.t.tCL
    requires var r := s.overflow[0];
             r.bank < c.numBanks && GoesFirst(c, s, r) && Shape(c, s) && MinCmd(c, s, Stored(c, s, r, m)) <= cur
    ensures forall r | r in s.overflow :: r.bank < c.numBanks
    ensures AtMost(Refill(c, s, least, m).1, cur)
  {
    hide QueueIn, GoesFirst, MinCmd, SideOk, FrFcfs, SidesOk, ChannelOk, WindowsOk;
  }
}
