// The memory controller driven by events: arriving requests, refreshes, and its own scheduling
// events, which can be annulled and are recycled through a free list.
module DdrSystem {
  import opened Options
  import opened DdrCycles
  import opened DdrQueue
  import opened DdrTiming
  import opened DdrState

  datatype SchedEvent = Idle | Queued(at: nat) | Annulled(at: nat)

  // events[i] is the state of scheduling event i, free the free list, nextEvent the event that
  // the controller believes to be pending.
  datatype System = System(ch: Channel, events: seq<SchedEvent>, free: seq<nat>, nextEvent: Option<nat>, now: nat)

  datatype Step = Arrive(r: Request, at: nat) | Fire(i: nat) | DoRefresh(at: nat)

  function Start(c: Config): System {
    System(Initial(c), [], [], None, 0)
  }

  // Events happen in the order of their system cycles.
  predicate Due(s: System, at: nat) {
    s.now <= at && forall i | 0 <= i < |s.events| && !s.events[i].Idle? :: at <= s.events[i].at
  }

  predicate Enabled(c: Config, s: System, step: Step) {
    match step
    case Arrive(r, at) => r.bank < c.numBanks && Due(s, at)
    case Fire(i) => i < |s.events| && !s.events[i].Idle? && Due(s, s.events[i].at)
    case DoRefresh(at) => Due(s, at)
  }

  // ----- The assertions of the program -----

  // Annulling needs a queued event, queueing an idle one.
  predicate ScheduleAsserts(s: System) {
    && (s.nextEvent.Some? ==> s.nextEvent.value < |s.events| && s.events[s.nextEvent.value].Queued?)
    && (s.free != [] ==> s.free[0] < |s.events| && s.events[s.free[0]].Idle?)
  }

  // The command recorded is later than the last of its bank, the activation not before the oldest
  // in its window, and a response is for a read and does not come before the present cycle.
  predicate ServeAsserts(c: Config, s: Channel, r: Request, cur: nat, sysCycle: nat)
    requires Shape(c, s) && r.bank < c.numBanks
  {
    && (r.ev ==>
          && !r.write
          && MemToSys(IssuedBus(c.t, s.banks[r.bank], s.bus, r, WindowMin(c, s, r), cur).minResp, c.sysFreq, c.memFreq)
             + c.sysLatency >= sysCycle)
    && s.banks[r.bank].lastCmd < CmdCycle(c.t, s.banks[r.bank], s.bus, r, WindowMin(c, s, r), cur)
    && (!RowHit(s.banks[r.bank], r) ==> WindowMin(c, s, r) <= ActCycle(c.t, s.banks[r.bank], r, WindowMin(c, s, r)))
  }

  // The next cycle is not a past one, the picked queue is not empty, and serving meets its asserts.
  predicate TickAsserts(c: Config, s: Channel, sysCycle: nat)
    requires c.sysFreq > 0
  {
    var memCycle := SysToMem(sysCycle, c.sysFreq, c.memFreq);
    && s.nextSched == Some(memCycle) && Scannable(c, s)
    && (var m := TrySchedule(c, s, memCycle).1; m.None? || m.value >= memCycle)
    && (s.rdQueue != [] || s.wrQueue != [] ==> s.Queue(PicksWriteQueue(c, s)) != [])
    && (var w, i := PicksWriteQueue(c, s), Ready(c, s, memCycle);
        i.Some? ==> i.value < |s.Queue(w)| && s.Queue(w)[i.value].bank < c.numBanks
                    && ServeAsserts(c, s, s.Queue(w)[i.value], memCycle, sysCycle))
  }

  predicate SourceAsserts(c: Config, s: System, step: Step)
    requires Enabled(c, s, step)
  {
    match step
    case Arrive(r, at) => Shape(c, s.ch) && (Enqueue(c, s.ch, r, at).1.Some? ==> ScheduleAsserts(s))
    case Fire(i) =>
      && i !in s.free
      && c.sysFreq > 0
      && (s.events[i].Queued? ==> TickAsserts(c, s.ch, s.events[i].at))
      && (s.events[i].Annulled? ==> s.nextEvent != Some(i))
    case DoRefresh(at) =>
      && c.sysFreq > 0
      && RefreshDone(c.t, s.ch.banks, SysToMem(at, c.sysFreq, c.memFreq)) >= c.t.tRP
  }

  // ----- Steps -----

  // The pending event, if any, is annulled, and another is queued.
  function Schedule(s: System, at: nat): System
    requires ScheduleAsserts(s)
  {
    var es := if s.nextEvent.None? then s.events
              else s.events[s.nextEvent.value := Annulled(s.events[s.nextEvent.value].at)];
    if s.free != [] then
      s.(events := es[s.free[0] := Queued(at)], free := s.free[1..], nextEvent := Some(s.free[0]))
    else s.(events := es + [Queued(at)], nextEvent := Some(|es|))
  }

  function Recycle(s: System, i: nat): System
    requires i < |s.events|
  {
    s.(events := s.events[i := Idle], free := [i] + s.free)
  }

  function Apply(c: Config, s: System, step: Step): System
    requires Enabled(c, s, step) && SourceAsserts(c, s, step)
  {
    match step
    case Arrive(r, at) =>
      var (ch, wake) := Enqueue(c, s.ch, r, at);
      var s1 := s.(ch := ch, now := at);
      if wake.None? then s1 else Schedule(s1, wake.value)
    case Fire(i) =>
      var at := s.events[i].at;
      if s.events[i].Annulled? then Recycle(s.(now := at), i)
      else
        var (ch, next) := Tick(c, s.ch, at);
        var s1 := s.(ch := ch, now := at);
        if next != 0 then s1.(events := s.events[i := Queued(next)])
        else Recycle(s1.(nextEvent := None), i)
    case DoRefresh(at) => s.(ch := Refresh(c, s.ch, at), now := at)
  }

  // A run whose steps are enabled one after the other; it stops at an assertion that fails.
  ghost predicate Possible(c: Config, s: System, steps: seq<Step>)
    decreases |steps|
  {
    steps == [] || (Enabled(c, s, steps[0])
                    && (SourceAsserts(c, s, steps[0]) ==> Possible(c, Apply(c, s, steps[0]), steps[1..])))
  }

  // No assertion fails on the way.
  ghost predicate Completes(c: Config, s: System, steps: seq<Step>)
    decreases |steps|
  {
    steps == [] || (Enabled(c, s, steps[0]) && SourceAsserts(c, s, steps[0])
                    && Completes(c, Apply(c, s, steps[0]), steps[1..]))
  }

  ghost function Run(c: Config, s: System, steps: seq<Step>): System
    requires Completes(c, s, steps)
    decreases |steps|
  {
    if steps == [] then s else Run(c, Apply(c, s, steps[0]), steps[1..])
  }

  // The numbers of the requests that have arrived in a run.
  function Arrived(steps: seq<Step>): multiset<nat> {
    if steps == [] then multiset{}
    else (if steps[0].Arrive? then multiset{steps[0].r.id} else multiset{}) + Arrived(steps[1..])
  }
}
