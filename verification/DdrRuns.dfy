// Theorems about every run of the memory controller.
module DdrRuns {
  import opened Options
  import opened DdrCycles
  import opened DdrQueue
  import opened DdrTiming
  import opened DdrState
  import opened DdrInvariant
  import opened DdrWake
  import opened DdrSystem

  // At most one event is queued and not annulled; it is the one the controller remembers, and it
  // will happen in the memory cycle that the controller expects.
  ghost predicate EventsOk(c: Config, s: System) {
    && c.sysFreq > 0
    && (forall i | 0 <= i < |s.events| && s.events[i].Queued? :: s.nextEvent == Some(i))
    && (s.nextEvent.Some? <==> s.ch.nextSched.Some?)
    && (s.nextEvent.Some? ==> s.nextEvent.value < |s.events| && s.events[s.nextEvent.value].Queued?
                              && SysToMem(s.events[s.nextEvent.value].at, c.sysFreq, c.memFreq) == s.ch.nextSched.value)
    && (forall i | 0 <= i < |s.events| && !s.events[i].Idle? :: s.now <= s.events[i].at)
  }

  // The free list holds every idle event once.
  ghost predicate FreeOk(s: System) {
    && (forall k | 0 <= k < |s.free| :: s.free[k] < |s.events| && s.events[s.free[k]].Idle?)
    && (forall k, l | 0 <= k < l < |s.free| :: s.free[k] != s.free[l])
    && (forall i | 0 <= i < |s.events| && s.events[i].Idle? :: i in s.free)
  }

  ghost predicate SysOk(c: Config, s: System) {
    c.Ok() && CtrlOk(c, s.ch) && Awake(s.ch) && EventsOk(c, s) && FreeOk(s)
  }

  lemma StartOk(c: Config)
    requires c.Ok()
    ensures SysOk(c, Start(c))
  {
    InitialOk(c);
  }

  // ----- Assertions -----

  lemma ServeAssertsHold(c: Config, s: Channel, w: bool, i: nat, sysCycle: nat)
    requires CtrlOk(c, s) && CanServe(c, s, w, i, SysToMem(sysCycle, c.sysFreq, c.memFreq))
    ensures ServeAsserts(c, s, s.Queue(w)[i], SysToMem(sysCycle, c.sysFreq, c.memFreq), sysCycle)
  {
    var r, cur := s.Queue(w)[i], SysToMem(sysCycle, c.sysFreq, c.memFreq);
    var wm := WindowMin(c, s, r);
    CommandLater(c.t, s.banks, s.bus, s.log, r, wm, cur);
    NoEventForWrites(c, s, w, r);
    hide CtrlOk, SysToMem, MemToSys, FindMinCmdCycle;
    ResponseNotEarly(IssuedBus(c.t, s.banks[r.bank], s.bus, r, wm, cur).minResp, sysCycle, c.sysFreq, c.memFreq);
  }

  lemma NoEventForWrites(c: Config, s: Channel, w: bool, r: Request)
    requires CtrlOk(c, s) && r in s.Queue(w)
    ensures r.ev ==> !r.write
  {
    hide ChannelOk, OpenIsWanted, HitsOk, WindowsOk, Scannable;
    assert SideOk(c, w, s.Queue(w), s.Lists(w), s.stamps);
  }

  lemma TickAssertsHold(c: Config, s: Channel, sysCycle: nat)
    requires CtrlOk(c, s) && s.nextSched == Some(SysToMem(sysCycle, c.sysFreq, c.memFreq))
    ensures TickAsserts(c, s, sysCycle)
  {
    Facts(c, s, true);
    hide CtrlOk, TrySchedule, Ready, PicksWriteQueue, ServeAsserts, Scannable, MinCmd, SideOk, FrFcfs, SysToMem;
    TryScheduleOk(c, s, SysToMem(sysCycle, c.sysFreq, c.memFreq));
    if s.rdQueue != [] || s.wrQueue != [] { PickedNotEmpty(c, s); }
    ReadyAsserts(c, s, sysCycle);
  }

  lemma ReadyAsserts(c: Config, s: Channel, sysCycle: nat)
    requires CtrlOk(c, s)
    ensures var cur := SysToMem(sysCycle, c.sysFreq, c.memFreq);
            var w, i := PicksWriteQueue(c, s), Ready(c, s, cur);
            i.Some? ==> i.value < |s.Queue(w)| && s.Queue(w)[i.value].bank < c.numBanks
                        && ServeAsserts(c, s, s.Queue(w)[i.value], cur, sysCycle)
  {
    hide CtrlOk, Ready, PicksWriteQueue, ServeAsserts, MinCmd;
    Facts(c, s, true);
    var cur := SysToMem(sysCycle, c.sysFreq, c.memFreq);
    hide SysToMem;
    ReadyIsHead(c, s, cur);
    var w, i := PicksWriteQueue(c, s), Ready(c, s, cur);
    if i.Some? { ServeAssertsHold(c, s, w, i.value, sysCycle); }
  }

  lemma ReadyIsHead(c: Config, s: Channel, cur: nat)
    requires CtrlOk(c, s)
    ensures var w, i := PicksWriteQueue(c, s), Ready(c, s, cur); i.Some? ==> CanServe(c, s, w, i.value, cur)
  {
    Facts(c, s, true);
    hide CtrlOk, Scan, CanServe, PicksWriteQueue;
    ScanFinds(c, s, PicksWriteQueue(c, s), cur, 0, None);
  }

  // No assertion fails in a state that satisfies the invariant.
  lemma AssertsHold(c: Config, s: System, step: Step)
    requires SysOk(c, s) && Enabled(c, s, step)
    ensures SourceAsserts(c, s, step)
  {
    Facts(c, s.ch, true);
    match step
    case Arrive(r, at) =>
      hide CtrlOk, Enqueue;
    case Fire(i) =>
      if s.events[i].Queued? { TickAssertsHold(c, s.ch, s.events[i].at); }
      hide CtrlOk, TickAsserts, SysToMem;
    case DoRefresh(at) =>
      RefreshCtrlOk(c, s.ch, at);
      hide CtrlOk, RefreshDone, SysToMem;
  }

  // ----- Steps -----

  lemma ScheduleEvents(c: Config, s: System, ch: Channel, at: nat, now: nat)
    requires EventsOk(c, s) && FreeOk(s) && Due(s, now) && now <= at
    requires c.sysFreq > 0 && ch.nextSched.Some? && SysToMem(at, c.sysFreq, c.memFreq) == ch.nextSched.value
    ensures ScheduleAsserts(s.(ch := ch, now := now))
    ensures EventsOk(c, Schedule(s.(ch := ch, now := now), at)) && FreeOk(Schedule(s.(ch := ch, now := now), at))
  {
    hide SysToMem;
    var s1 := Schedule(s.(ch := ch, now := now), at);
    if s.free != [] {
      forall i | 0 <= i < |s1.events| && s1.events[i].Idle? ensures i in s1.free {
        assert i in s.free;
      }
    }
  }

  lemma RecycleEvents(c: Config, s: System, i: nat)
    requires i < |s.events| && s.nextEvent != Some(i) && i !in s.free && FreeOk(s)
    requires EventsOk(c, s) || EventsOk(c, s.(events := s.events[i := Idle]))
    ensures EventsOk(c, Recycle(s, i)) && FreeOk(Recycle(s, i))
  {
    hide SysToMem;
    var s1 := Recycle(s, i);
    assert s1.free[0] == i;
    forall k | 0 <= k < |s1.events| && s1.events[k].Idle? ensures k in s1.free {
      if k != i { assert k in s.free && s1.free[1..] == s.free; }
    }
  }

  lemma QuietEvents(c: Config, s: System, ch: Channel, now: nat)
    requires EventsOk(c, s) && FreeOk(s) && Due(s, now) && ch.nextSched == s.ch.nextSched
    ensures EventsOk(c, s.(ch := ch, now := now)) && FreeOk(s.(ch := ch, now := now))
  {
    hide SysToMem;
  }

  lemma RequeueEvents(c: Config, s: System, ch: Channel, i: nat, next: nat)
    requires EventsOk(c, s) && FreeOk(s) && i < |s.events| && s.events[i].Queued? && Due(s, s.events[i].at)
    requires next >= s.events[i].at && ch.nextSched == Some(SysToMem(next, c.sysFreq, c.memFreq))
    ensures var s1 := s.(ch := ch, now := s.events[i].at, events := s.events[i := Queued(next)]);
            EventsOk(c, s1) && FreeOk(s1)
  {
    hide SysToMem;
  }

  lemma RetireEvents(c: Config, s: System, ch: Channel, i: nat)
    requires EventsOk(c, s) && FreeOk(s) && i < |s.events| && s.events[i].Queued? && Due(s, s.events[i].at)
    requires i !in s.free && ch.nextSched.None?
    ensures var s1 := Recycle(s.(ch := ch, now := s.events[i].at, nextEvent := None), i);
            EventsOk(c, s1) && FreeOk(s1)
  {
    hide SysToMem;
    RecycleEvents(c, s.(ch := ch, now := s.events[i].at, nextEvent := None), i);
  }

  lemma ArriveOk(c: Config, s: System, r: Request, at: nat)
    requires SysOk(c, s) && Enabled(c, s, Arrive(r, at)) && SourceAsserts(c, s, Arrive(r, at))
    ensures SysOk(c, Apply(c, s, Arrive(r, at)))
  {
    EnqueueOk(c, s.ch, r, at);
    var (ch, wake) := Enqueue(c, s.ch, r, at);
    hide CtrlOk, Enqueue, SysToMem, EventsOk, FreeOk, Due, Schedule, Awake;
    EventsFacts(c, s);
    if wake.Some? {
      ScheduleEvents(c, s, ch, wake.value, at);
    } else {
      QuietEvents(c, s, ch, at);
    }
  }

  lemma EventsFacts(c: Config, s: System)
    requires EventsOk(c, s)
    ensures c.sysFreq > 0
  {
  }

  lemma FireOk(c: Config, s: System, i: nat)
    requires SysOk(c, s) && Enabled(c, s, Fire(i)) && SourceAsserts(c, s, Fire(i))
    ensures SysOk(c, Apply(c, s, Fire(i)))
  {
    var at := s.events[i].at;
    hide CtrlOk, Tick, SysToMem, TickAsserts, EventsOk, FreeOk, Due, Recycle, Awake;
    if s.events[i].Annulled? {
      QuietEvents(c, s, s.ch, at);
      RecycleEvents(c, s.(ch := s.ch, now := at), i);
      assert s.(ch := s.ch, now := at) == s.(now := at);
    } else {
      TickOk(c, s.ch, at);
      Facts(c, s.ch, true);
      var (ch, next) := Tick(c, s.ch, at);
      if next == 0 {
        RetireEvents(c, s, ch, i);
      } else {
        RequeueEvents(c, s, ch, i, next);
      }
    }
  }

  lemma RefreshStepOk(c: Config, s: System, at: nat)
    requires SysOk(c, s) && Enabled(c, s, DoRefresh(at)) && SourceAsserts(c, s, DoRefresh(at))
    ensures SysOk(c, Apply(c, s, DoRefresh(at)))
  {
    RefreshCtrlOk(c, s.ch, at);
    hide CtrlOk, SysToMem, RefreshDone;
  }

  lemma StepOk(c: Config, s: System, step: Step)
    requires SysOk(c, s) && Enabled(c, s, step)
    ensures SourceAsserts(c, s, step) && SysOk(c, Apply(c, s, step))
  {
    AssertsHold(c, s, step);
    hide SysOk, Apply, SourceAsserts, Enabled;
    match step
    case Arrive(r, at) => ArriveOk(c, s, r, at);
    case Fire(i) => FireOk(c, s, i);
    case DoRefresh(at) => RefreshStepOk(c, s, at);
  }

  // Whatever arrives and whenever refreshes happen, no assertion fails and the invariant holds.
  lemma {:induction false} RunOk(c: Config, s: System, steps: seq<Step>)
    requires SysOk(c, s) && Possible(c, s, steps)
    ensures Completes(c, s, steps) && SysOk(c, Run(c, s, steps))
    decreases |steps|
  {
    hide SysOk, Apply, SourceAsserts, Enabled;
    if steps != [] {
      StepOk(c, s, steps[0]);
      RunOk(c, Apply(c, s, steps[0]), steps[1..]);
    }
  }
}
