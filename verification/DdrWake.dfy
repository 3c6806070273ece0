// Wake-ups of the memory controller: they are exact and never lost.
module DdrWake {
  import opened Options
  import opened Arithmetic
  import opened DdrCycles
  import opened DdrQueue
  import opened DdrTiming
  import opened DdrState
  import opened DdrInvariant
  import W = ActivationWindow

  lemma MatchingPositive(m: nat, sysFreq: nat, memFreq: nat)
    requires m >= 1 && 0 < memFreq && 2 * memFreq <= sysFreq
    ensures MatchingMemToSys(m, sysFreq, memFreq) >= 1
  {
    assert (2 * m - 1) * sysFreq == (2 * m - 2) * sysFreq + sysFreq;
    assert (2 * m - 2) * sysFreq >= 0;
    DivMonotone(2 * memFreq, (2 * m - 1) * sysFreq, memFreq);
    DivUnique(2 * memFreq, memFreq, 2);
  }

  // A wake-up for a memory cycle that has not passed arrives in that cycle; it is never queued
  // for system cycle 0, which tick uses to say that there is none.
  lemma WakeAtExact(c: Config, m: nat, sysCycle: nat)
    requires c.Ok() && m >= 1 && SysToMem(sysCycle, c.sysFreq, c.memFreq) <= m
    ensures var at := WakeAt(c, m, sysCycle);
            SysToMem(at, c.sysFreq, c.memFreq) == m && at >= sysCycle && at >= 1
  {
    WakeUpExact(m, sysCycle, c.sysFreq, c.memFreq);
    MatchingPositive(m, c.sysFreq, c.memFreq);
  }

  lemma SysToMemPositive(sysCycle: nat, sysFreq: nat, memFreq: nat)
    requires sysFreq > 0
    ensures SysToMem(sysCycle, sysFreq, memFreq) >= 1
  {
  }

  // The queue a request is put in is not empty afterwards, and if the request is not the first of
  // its bank list the queue was not empty before.
  lemma QueueInFills(c: Config, s: Channel, r: Request, memCycle: nat)
    requires CtrlOk(c, s) && r.bank < c.numBanks
    ensures var s1 := QueueIn(c, s, r, memCycle); s1.rdQueue != [] || s1.wrQueue != []
    ensures !GoesFirst(c, s, r) ==> s.rdQueue != [] || s.wrQueue != []
  {
    hide ChannelOk, OpenIsWanted, HitsOk, FrFcfs, InOrder;
    var w := UsesWriteQueue(c, r);
    assert SideOk(c, w, s.Queue(w), s.Lists(w), s.stamps);
    var l := s.Lists(w)[r.bank];
    if !GoesFirst(c, s, r) {
      assert l[0] in l;
    }
  }

  // ----- enqueue() -----

  lemma EnqueueOk(c: Config, s: Channel, r: Request, sysCycle: nat)
    requires CtrlOk(c, s) && Awake(s) && r.bank < c.numBanks
    ensures var (s1, wake) := Enqueue(c, s, r, sysCycle);
            && CtrlOk(c, s1) && Awake(s1) && s1.served == s.served
            && (wake.None? ==> s1.nextSched == s.nextSched)
            && (wake.Some? ==> s1.nextSched.Some? && wake.value >= sysCycle
                               && SysToMem(wake.value, c.sysFreq, c.memFreq) == s1.nextSched.value)
  {
    hide CtrlOk, QueueIn, GoesFirst, MinCmd, MatchingMemToSys, SysToMem, SideOk, FrFcfs;
    Facts(c, s, true);
    var memCycle := SysToMem(sysCycle, c.sysFreq, c.memFreq);
    if s.Full(c.queueDepth) {
      OverflowOk(c, s, s.overflow + [r]);
    } else {
      QueueInOk(c, s, r, memCycle);
      QueueInRest(c, s, r, memCycle);
      QueueInFills(c, s, r, memCycle);
      SysToMemPositive(sysCycle, c.sysFreq, c.memFreq);
      var s1 := Enqueue(c, s, r, sysCycle).0;
      if s1.nextSched.Some? {
        SchedOk(c, QueueIn(c, s, r, memCycle), s1.nextSched);
        if memCycle <= s1.nextSched.value { WakeAtExact(c, s1.nextSched.value, sysCycle); }
      }
    }
  }

  lemma OverflowOk(c: Config, s: Channel, o: seq<Request>)
    requires CtrlOk(c, s) && forall r | r in o :: r.bank < c.numBanks
    ensures CtrlOk(c, s.(overflow := o))
  {
    hide SideOk, ChannelOk, HitsOk, WindowsOk;
    var s1 := s.(overflow := o);
    forall w ensures SideOk(c, w, s1.Queue(w), s1.Lists(w), s1.stamps) {
      assert SideOk(c, w, s.Queue(w), s.Lists(w), s.stamps);
    }
    SameWanted(c, s, s1);
    assert forall w :: s1.Queue(w) == s.Queue(w);
  }

  lemma SchedOk(c: Config, s: Channel, m: Option<nat>)
    requires CtrlOk(c, s)
    ensures CtrlOk(c, s.(nextSched := m))
  {
    hide SideOk, ChannelOk, HitsOk, WindowsOk;
    var s1 := s.(nextSched := m);
    forall w ensures SideOk(c, w, s1.Queue(w), s1.Lists(w), s1.stamps) {
      assert SideOk(c, w, s.Queue(w), s.Lists(w), s.stamps);
    }
    SameWanted(c, s, s1);
    assert forall w :: s1.Queue(w) == s.Queue(w);
  }

  lemma SameWanted(c: Config, s: Channel, s1: Channel)
    requires OpenIsWanted(c, s) && s1.banks == s.banks && s1.rdLists == s.rdLists && s1.wrLists == s.wrLists
    ensures OpenIsWanted(c, s1)
  {
    if c.closedPage {
      forall b | 0 <= b < |s1.banks| && s1.banks[b].open ensures exists w :: HeadHits(s1, b, w) {
        var w :| HeadHits(s, b, w);
        assert HeadHits(s1, b, w);
      }
    }
  }

  // ----- tick() -----

  lemma OverflowBank(c: Config, s: Channel)
    requires Scannable(c, s) && s.overflow != []
    ensures s.overflow[0].bank < c.numBanks && forall r | r in s.overflow[1..] :: r.bank < c.numBanks
  {
    assert s.overflow[0] in s.overflow;
  }

  // The overflow queue is served in order; whatever comes in, there is a cycle to come back at.
  lemma RefillOk(c: Config, s: Channel, least: Option<nat>, memCycle: nat)
    requires CtrlOk(c, s) && (least.None? <==> s.rdQueue == [] && s.wrQueue == []) && Later(least, memCycle)
    ensures var (s1, m) := Refill(c, s, least, memCycle);
            && CtrlOk(c, s1) && s1.served == s.served
            && (m.None? <==> s1.rdQueue == [] && s1.wrQueue == [])
            && (m.None? ==> s1.overflow == [])
            && (m.Some? ==> m.value >= memCycle)
  {
    hide CtrlOk, QueueIn, MinCmd, Place, SideOk, FrFcfs;
    Facts(c, s, true);
    if !s.Full(c.queueDepth) && s.overflow != [] {
      var r, s0 := s.overflow[0], s.(overflow := s.overflow[1..]);
      OverflowBank(c, s);
      OverflowOk(c, s, s.overflow[1..]);
      Facts(c, s0, true);
      QueueInOk(c, s0, r, memCycle);
      QueueInRest(c, s0, r, memCycle);
      QueueInFills(c, s0, r, memCycle);
    }
  }

  // After a tick the next one is due in exactly the cycle that has been announced, and there is
  // one unless nothing waits.
  lemma TickOk(c: Config, s: Channel, sysCycle: nat)
    requires CtrlOk(c, s)
    ensures var (s1, next) := Tick(c, s, sysCycle);
            && CtrlOk(c, s1) && Awake(s1)
            && (next == 0 <==> s1.nextSched.None?)
            && (next != 0 ==> next >= sysCycle && SysToMem(next, c.sysFreq, c.memFreq) == s1.nextSched.value)
  {
    var memCycle := SysToMem(sysCycle, c.sysFreq, c.memFreq);
    SysToMemPositive(sysCycle, c.sysFreq, c.memFreq);
    Facts(c, s, true);
    TryScheduleOk(c, s, memCycle);
    var (s1, m1) := TrySchedule(c, s, memCycle);
    Facts(c, s1, true);
    RefillOk(c, s1, m1, memCycle);
    var (s2, m2) := Refill(c, s1, m1, memCycle);
    SchedOk(c, s2, m2);
    if m2.Some? { WakeAtExact(c, m2.value, sysCycle); }
    hide CtrlOk, TrySchedule, Refill, MatchingMemToSys, SysToMem;
  }

  // ----- refresh() -----

  // Only banks and log change.
  lemma RefreshRest(c: Config, s: Channel, sysCycle: nat)
    requires Scannable(c, s) && SidesOk(c, s)
    requires RefreshDone(c.t, s.banks, SysToMem(sysCycle, c.sysFreq, c.memFreq)) >= c.t.tRP
    ensures var s1 := Refresh(c, s, sysCycle);
            Scannable(c, s1) && SidesOk(c, s1) && OpenIsWanted(c, s1) && (HitsOk(c, s.banks) ==> HitsOk(c, s1.banks))
  {
    hide SideOk, RefreshDone;
    var s1 := Refresh(c, s, sysCycle);
    forall w ensures SideOk(c, w, s1.Queue(w), s1.Lists(w), s1.stamps) {
      assert SideOk(c, w, s.Queue(w), s.Lists(w), s.stamps);
    }
    assert forall w :: s1.Queue(w) == s.Queue(w);
  }

  lemma RefreshWindows(c: Config, windows: seq<seq<nat>>, log: seq<Command>, done: nat)
    requires WindowsOk(c, windows, log)
    ensures WindowsOk(c, windows, log + [Ref(done)])
  {
    hide W.Covers;
    forall k | 0 <= k < |windows| ensures W.Covers(windows[k], ActsOf(c, log + [Ref(done)], k), c.t.tFAW) {
      ActsPushed(c, log, Ref(done), k);
    }
  }

  lemma RefreshCtrlOk(c: Config, s: Channel, sysCycle: nat)
    requires CtrlOk(c, s)
    ensures RefreshDone(c.t, s.banks, SysToMem(sysCycle, c.sysFreq, c.memFreq)) >= c.t.tRP
    ensures CtrlOk(c, Refresh(c, s, sysCycle)) && (Awake(s) ==> Awake(Refresh(c, s, sysCycle)))
  {
    hide SidesOk, ChannelOk, RefreshDone, WindowsOk, OpenIsWanted, HitsOk, SysToMem;
    var memCycle := SysToMem(sysCycle, c.sysFreq, c.memFreq);
    RefreshOk(c.t, s.banks, s.bus, s.log, memCycle);
    RefreshRest(c, s, sysCycle);
    RefreshWindows(c, s.windows, s.log, RefreshDone(c.t, s.banks, memCycle));
  }
}
