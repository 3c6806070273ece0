// Which request the memory controller takes next: the overflow queue is first in, first out, and deferred writes
// overtake reads exactly while the write queue is too full.
module DdrPriority {
  import opened Options
  import opened DdrCycles
  import opened DdrQueue
  import opened DdrTiming
  import opened DdrState
  import opened DdrInvariant
  import opened DdrWake
  import opened DdrSystem
  import opened DdrRuns
  import opened DdrTheorems

  // ----- What the operations do to the queues -----

  // r has been put behind its queue; nothing else has moved.
  ghost predicate Behind(c: Config, s: Channel, s1: Channel, r: Request) {
    var w := UsesWriteQueue(c, r);
    && |s1.Queue(w)| == |s.Queue(w)| + 1 && s1.Queue(w)[..|s.Queue(w)|] == s.Queue(w)
    && s1.Queue(w)[|s.Queue(w)|].id == r.id
    && s1.Queue(!w) == s.Queue(!w) && s1.served == s.served && s1.bus == s.bus
  }

  lemma QueueInBehind(c: Config, s: Channel, r: Request, memCycle: nat)
    requires Scannable(c, s) && r.bank < c.numBanks
    ensures Behind(c, s, QueueIn(c, s, r, memCycle), r)
  {
    hide Place;
  }

  lemma EnqueueBehind(c: Config, s: Channel, r: Request, sysCycle: nat)
    requires CtrlOk(c, s) && r.bank < c.numBanks
    ensures var s1 := Enqueue(c, s, r, sysCycle).0;
            if s.Full(c.queueDepth)
            then s1 == s.(overflow := s.overflow + [r])
            else Behind(c, s, s1, r) && s1.overflow == s.overflow
  {
    hide CtrlOk, QueueIn, GoesFirst, MinCmd, SysToMem, MatchingMemToSys, SideOk, FrFcfs;
    Facts(c, s, true);
    var memCycle := SysToMem(sysCycle, c.sysFreq, c.memFreq);
    QueueInBehind(c, s, r, memCycle);
    QueueInRest(c, s, r, memCycle);
  }

  // A tick serves request i of the queue it picks, or none.
  ghost predicate Took(c: Config, s: Channel, s1: Channel, i: nat) {
    Served(s, s1, PicksWriteQueue(c, s), i) && s1.bus.lastWasWrite == s.Queue(PicksWriteQueue(c, s))[i].write
  }

  lemma TryScheduleTakes(c: Config, s: Channel, cur: nat)
    requires CtrlOk(c, s)
    ensures var s1 := TrySchedule(c, s, cur).0; CtrlOk(c, s1) && (s1 == s || exists i :: Took(c, s, s1, i))
  {
    hide CtrlOk, Ready, Scan, Serve, Served, PicksWriteQueue, CanServe, MinCmd;
    TryScheduleOk(c, s, cur);
    Facts(c, s, true);
    hide SideOk, FrFcfs, Scannable;
    ReadyIsHead(c, s, cur);
    var w, i := PicksWriteQueue(c, s), Ready(c, s, cur);
    if (s.rdQueue != [] || s.wrQueue != []) && cur + c.t.tCL >= s.bus.minResp && i.Some? {
      TookIt(c, s, w, i.value, cur);
    }
  }

  lemma TookIt(c: Config, s: Channel, w: bool, i: nat, cur: nat)
    requires CanServe(c, s, w, i, cur) && s.bus.minResp >= c.t.tCL && w == PicksWriteQueue(c, s)
    ensures Took(c, s, Serve(c, s, w, i, cur), i)
  {
    ServeTakes(c, s, w, i, cur);
    hide Serve, PicksWriteQueue;
  }

  lemma ServeTakes(c: Config, s: Channel, w: bool, i: nat, cur: nat)
    requires CanServe(c, s, w, i, cur) && s.bus.minResp >= c.t.tCL
    ensures Served(s, Serve(c, s, w, i, cur), w, i)
    ensures Serve(c, s, w, i, cur).bus.lastWasWrite == s.Queue(w)[i].write
  {
    ServeFacts(c, s, w, i, cur);
    hide FindMinCmdCycle, IssuedBank, IssuedCommands;
  }

  lemma RefillBehind(c: Config, s: Channel, least: Option<nat>, memCycle: nat)
    requires CtrlOk(c, s)
    ensures var s1 := Refill(c, s, least, memCycle).0;
            if s.Full(c.queueDepth) || s.overflow == [] then s1 == s
            else Behind(c, s, s1, s.overflow[0]) && s1.overflow == s.overflow[1..]
  {
    Facts(c, s, true);
    hide CtrlOk, QueueIn, GoesFirst, MinCmd, SideOk, Scannable, FrFcfs;
    if !s.Full(c.queueDepth) && s.overflow != [] {
      OverflowBank(c, s);
      OverflowOk(c, s, s.overflow[1..]);
      Facts(c, s.(overflow := s.overflow[1..]), true);
      QueueInBehind(c, s.(overflow := s.overflow[1..]), s.overflow[0], memCycle);
      QueueInRest(c, s.(overflow := s.overflow[1..]), s.overflow[0], memCycle);
    }
  }

  // A tick serves one request of the picked queue or none, and lets one request of the overflow queue in or none.
  ghost predicate Ticked(c: Config, s: Channel, mid: Channel, s1: Channel) {
    && (mid == s || exists i :: Took(c, s, mid, i))
    && s1.served == mid.served && s1.bus == mid.bus
    && if mid.Full(c.queueDepth) || mid.overflow == []
       then s1.rdQueue == mid.rdQueue && s1.wrQueue == mid.wrQueue && s1.overflow == mid.overflow
       else Behind(c, mid, s1, mid.overflow[0]) && s1.overflow == mid.overflow[1..]
  }

  lemma TickTicks(c: Config, s: Channel, sysCycle: nat)
    requires CtrlOk(c, s)
    ensures exists mid :: Ticked(c, s, mid, Tick(c, s, sysCycle).0)
  {
    hide CtrlOk, TrySchedule, Refill, SysToMem, SideOk, FrFcfs, MatchingMemToSys, Took;
    Facts(c, s, true);
    var memCycle := SysToMem(sysCycle, c.sysFreq, c.memFreq);
    TryScheduleTakes(c, s, memCycle);
    var (s1, m1) := TrySchedule(c, s, memCycle);
    RefillBehind(c, s1, m1, memCycle);
    assert Ticked(c, s, s1, Tick(c, s, sysCycle).0);
  }

  // What a step of the system does to the channel.
  ghost predicate Moved(c: Config, s: System, step: Step, t: Channel)
    requires Enabled(c, s, step)
  {
    match step
    case Arrive(r, _) =>
      if s.ch.Full(c.queueDepth) then t == s.ch.(overflow := s.ch.overflow + [r])
      else Behind(c, s.ch, t, r) && t.overflow == s.ch.overflow
    case Fire(i) => if s.events[i].Annulled? then t == s.ch else exists mid :: Ticked(c, s.ch, mid, t)
    case DoRefresh(_) =>
      && t.rdQueue == s.ch.rdQueue && t.wrQueue == s.ch.wrQueue && t.overflow == s.ch.overflow
      && t.served == s.ch.served && t.bus == s.ch.bus
  }

  lemma StepMoves(c: Config, s: System, step: Step)
    requires SysOk(c, s) && Enabled(c, s, step) && SourceAsserts(c, s, step)
    ensures Moved(c, s, step, Apply(c, s, step).ch)
  {
    hide CtrlOk, Tick, Enqueue, SysToMem, TickAsserts, EventsOk, FreeOk, Due, Ticked, Behind;
    match step
    case Arrive(r, at) => EnqueueBehind(c, s.ch, r, at);
    case Fire(i) => if s.events[i].Queued? { TickTicks(c, s.ch, s.events[i].at); }
    case DoRefresh(at) =>
  }

  // ----- What every step keeps -----

  predicate LastWasWrite(served: seq<Request>) {
    served != [] && served[|served| - 1].write
  }

  // No queue holds more than it has room for, and the controller knows whether it served a write last.
  predicate QueuesOk(c: Config, s: Channel) {
    |s.rdQueue| <= c.queueDepth && |s.wrQueue| <= c.queueDepth && (s.bus.lastWasWrite <==> LastWasWrite(s.served))
  }

  lemma BehindKeeps(c: Config, s: Channel, s1: Channel, r: Request)
    requires Behind(c, s, s1, r) && QueuesOk(c, s) && !s.Full(c.queueDepth)
    ensures QueuesOk(c, s1)
  {
    var w := UsesWriteQueue(c, r);
    assert |s1.Queue(true)| <= c.queueDepth && |s1.Queue(false)| <= c.queueDepth;
  }

  lemma TookKeeps(c: Config, s: Channel, s1: Channel, i: nat)
    requires Took(c, s, s1, i) && QueuesOk(c, s)
    ensures QueuesOk(c, s1)
  {
    assert |s1.Queue(true)| <= c.queueDepth && |s1.Queue(false)| <= c.queueDepth;
  }

  lemma MoveKeeps(c: Config, s: System, step: Step, t: Channel)
    requires Enabled(c, s, step) && Moved(c, s, step, t) && QueuesOk(c, s.ch)
    ensures QueuesOk(c, t)
  {
    hide Behind, Took, Due;
    match step
    case Arrive(r, _) => if !s.ch.Full(c.queueDepth) { BehindKeeps(c, s.ch, t, r); }
    case Fire(j) =>
      if !s.events[j].Annulled? {
        var mid :| Ticked(c, s.ch, mid, t);
        if mid != s.ch {
          var i :| Took(c, s.ch, mid, i);
          TookKeeps(c, s.ch, mid, i);
        }
        if !mid.Full(c.queueDepth) && mid.overflow != [] { BehindKeeps(c, mid, t, mid.overflow[0]); }
      }
    case DoRefresh(_) =>
  }

  lemma {:induction false} RunKeeps(c: Config, s: System, steps: seq<Step>)
    requires SysOk(c, s) && QueuesOk(c, s.ch) && Completes(c, s, steps)
    ensures QueuesOk(c, Run(c, s, steps).ch)
    decreases |steps|
  {
    hide SysOk, Apply, SourceAsserts, Enabled, Moved, QueuesOk;
    if steps != [] {
      StepOk(c, s, steps[0]);
      StepMoves(c, s, steps[0]);
      MoveKeeps(c, s, steps[0], Apply(c, s, steps[0]).ch);
      RunKeeps(c, Apply(c, s, steps[0]), steps[1..]);
    }
  }

  // ----- The overflow queue -----

  // The requests that arrive while the read or the write queue has no room, in order.
  ghost function Overflowed(c: Config, s: System, steps: seq<Step>): seq<Request>
    requires Completes(c, s, steps)
    decreases |steps|
  {
    if steps == [] then []
    else
      (if steps[0].Arrive? && (|s.ch.rdQueue| == c.queueDepth || |s.ch.wrQueue| == c.queueDepth) then [steps[0].r]
       else [])
      + Overflowed(c, Apply(c, s, steps[0]), steps[1..])
  }

  lemma MoveOverflow(c: Config, s: System, step: Step, t: Channel)
    requires Enabled(c, s, step) && Moved(c, s, step, t) && QueuesOk(c, s.ch)
    ensures step.Arrive? ==> t.overflow == s.ch.overflow
                             + (if |s.ch.rdQueue| == c.queueDepth || |s.ch.wrQueue| == c.queueDepth then [step.r]
                                else [])
    ensures !step.Arrive? ==> t.overflow == s.ch.overflow || (s.ch.overflow != [] && t.overflow == s.ch.overflow[1..])
  {
    hide Behind, Due;
  }

  // The rest of the list after one step.
  lemma OverflowStep(c: Config, s: System, steps: seq<Step>) returns (d: nat)
    requires SysOk(c, s) && QueuesOk(c, s.ch) && Completes(c, s, steps) && steps != []
    ensures var t := Apply(c, s, steps[0]);
            && SysOk(c, t) && QueuesOk(c, t.ch)
            && var all := s.ch.overflow + Overflowed(c, s, steps);
               d <= |all| && t.ch.overflow + Overflowed(c, t, steps[1..]) == all[d..]
  {
    hide SysOk, Apply, SourceAsserts, Enabled, Moved, QueuesOk, Run;
    var t := Apply(c, s, steps[0]);
    StepOk(c, s, steps[0]);
    StepMoves(c, s, steps[0]);
    MoveKeeps(c, s, steps[0], t.ch);
    MoveOverflow(c, s, steps[0], t.ch);
    var rest := Overflowed(c, t, steps[1..]);
    d := if t.ch.overflow == s.ch.overflow || steps[0].Arrive? then 0 else 1;
    if steps[0].Arrive? {
      assert t.ch.overflow + rest == s.ch.overflow + Overflowed(c, s, steps);
    } else {
      assert t.ch.overflow + rest == (s.ch.overflow + rest)[d..];
    }
  }

  lemma {:induction false} OverflowIsRest(c: Config, s: System, steps: seq<Step>) returns (k: nat)
    requires SysOk(c, s) && QueuesOk(c, s.ch) && Completes(c, s, steps)
    ensures k <= |s.ch.overflow + Overflowed(c, s, steps)|
    ensures Run(c, s, steps).ch.overflow == (s.ch.overflow + Overflowed(c, s, steps))[k..]
    decreases |steps|
  {
    hide SysOk, Apply, SourceAsserts, Enabled, QueuesOk, Overflowed;
    k := 0;
    if steps == [] {
      OverflowedNone(c, s);
    } else {
      var d := OverflowStep(c, s, steps);
      k := OverflowIsRest(c, Apply(c, s, steps[0]), steps[1..]);
      k := k + d;
    }
  }

  lemma OverflowedNone(c: Config, s: System)
    ensures Overflowed(c, s, []) == []
  {
  }

  lemma StartQueues(c: Config)
    ensures QueuesOk(c, Start(c).ch)
  {
  }

  // First in, first out: in every run the overflow queue holds the last of the requests that found no room, in the
  // order of their arrival; so those that have left it are the first ones.
  lemma OverflowFifo(c: Config, steps: seq<Step>)
    requires c.Ok() && Completes(c, Start(c), steps)
    ensures var all, o := Overflowed(c, Start(c), steps), Run(c, Start(c), steps).ch.overflow;
            |o| <= |all| && o == all[|all| - |o|..]
  {
    StartOk(c);
    StartQueues(c);
    var k := OverflowIsRest(c, Start(c), steps);
    assert Start(c).ch.overflow + Overflowed(c, Start(c), steps) == Overflowed(c, Start(c), steps);
  }

  // No queue is ever longer than its depth.
  lemma QueuesBounded(c: Config, steps: seq<Step>)
    requires c.Ok() && Completes(c, Start(c), steps)
    ensures var s := Run(c, Start(c), steps).ch; |s.rdQueue| <= c.queueDepth && |s.wrQueue| <= c.queueDepth
  {
    StartOk(c);
    StartQueues(c);
    RunKeeps(c, Start(c), steps);
  }

  // ----- Reads and deferred writes -----

  // Waiting writes go before waiting reads: more than three quarters of the write queue are taken, or more than one
  // quarter and the last request served was a write.
  predicate WritesFirst(c: Config, s: Channel) {
    |s.wrQueue| > 3 * c.queueDepth / 4
    || (LastWasWrite(s.served) && |s.wrQueue| > c.queueDepth / 4)
  }

  // The channel after a run, and after one more step.
  ghost predicate Reaches(c: Config, steps: seq<Step>, step: Step, s: System, t: System) {
    && c.Ok() && Completes(c, Start(c), steps) && s == Run(c, Start(c), steps)
    && Enabled(c, s, step) && SourceAsserts(c, s, step) && t == Apply(c, s, step)
  }

  // If a step of a run serves a request, it comes from the write queue exactly if no read waits or writes go first.
  lemma ServedFrom(c: Config, steps: seq<Step>, step: Step, s: System, t: System)
    requires Reaches(c, steps, step, s, t) && t.ch.served != s.ch.served
    ensures exists r :: && t.ch.served == s.ch.served + [r]
                        && r in s.ch.Queue(UsesWriteQueue(c, r))
                        && (UsesWriteQueue(c, r) <==> s.ch.rdQueue == [] || WritesFirst(c, s.ch))
  {
    StartOk(c);
    StartQueues(c);
    Reached(c, steps);
    RunKeeps(c, Start(c), steps);
    StepMoves(c, s, step);
    MoveServes(c, s, step, t.ch);
  }

  lemma MoveServes(c: Config, s: System, step: Step, t: Channel)
    requires SysOk(c, s) && QueuesOk(c, s.ch) && Enabled(c, s, step) && Moved(c, s, step, t)
    ensures t.served == s.ch.served
            || exists r :: && t.served == s.ch.served + [r] && r in s.ch.Queue(UsesWriteQueue(c, r))
                           && (UsesWriteQueue(c, r) <==> s.ch.rdQueue == [] || WritesFirst(c, s.ch))
  {
    hide CtrlOk, EventsOk, FreeOk, Due;
    if t.served != s.ch.served {
      var mid :| Ticked(c, s.ch, mid, t);
      var i :| Took(c, s.ch, mid, i);
      TookFrom(c, s.ch, mid, i);
    }
  }

  lemma TookFrom(c: Config, s: Channel, s1: Channel, i: nat)
    requires CtrlOk(c, s) && QueuesOk(c, s) && Took(c, s, s1, i)
    ensures exists r :: && s1.served == s.served + [r] && r in s.Queue(UsesWriteQueue(c, r))
                        && (UsesWriteQueue(c, r) <==> s.rdQueue == [] || WritesFirst(c, s))
  {
    var w := PicksWriteQueue(c, s);
    var r := s.Queue(w)[i];
    Facts(c, s, w);
    assert r in s.Queue(w);
    assert UsesWriteQueue(c, r) == w;
    hide CtrlOk, SideOk, Scannable, FrFcfs;
  }

  lemma BehindGrows(c: Config, s: Channel, s1: Channel, r: Request)
    requires Behind(c, s, s1, r)
    ensures |s1.wrQueue| >= |s.wrQueue| && s1.served == s.served
  {
    assert |s1.Queue(true)| >= |s.Queue(true)|;
  }

  // Only serving makes the write queue shorter.
  lemma MoveGrows(c: Config, s: System, step: Step, t: Channel)
    requires Enabled(c, s, step) && Moved(c, s, step, t) && t.served == s.ch.served
    ensures |t.wrQueue| >= |s.ch.wrQueue|
  {
    hide Behind, PicksWriteQueue, Due;
    match step
    case Arrive(r, _) => if !s.ch.Full(c.queueDepth) { BehindGrows(c, s.ch, t, r); }
    case Fire(j) =>
      if !s.events[j].Annulled? {
        var mid :| Ticked(c, s.ch, mid, t);
        if !mid.Full(c.queueDepth) && mid.overflow != [] { BehindGrows(c, mid, t, mid.overflow[0]); }
      }
    case DoRefresh(_) =>
  }

  // More than a quarter of the write queue is taken before every step of the run.
  ghost predicate AboveQuarter(c: Config, s: System, steps: seq<Step>)
    requires Completes(c, s, steps)
    decreases |steps|
  {
    steps == [] || (|s.ch.wrQueue| > c.queueDepth / 4 && AboveQuarter(c, Apply(c, s, steps[0]), steps[1..]))
  }

  lemma StepServesWrite(c: Config, s: System, step: Step)
    requires SysOk(c, s) && QueuesOk(c, s.ch) && Enabled(c, s, step) && SourceAsserts(c, s, step)
    requires WritesFirst(c, s.ch)
    ensures var t := Apply(c, s, step);
            (t.ch.served == s.ch.served && |t.ch.wrQueue| >= |s.ch.wrQueue|)
            || exists r :: t.ch.served == s.ch.served + [r] && r.write
  {
    hide SysOk, Apply, Moved, QueuesOk, WritesFirst;
    StepMoves(c, s, step);
    var t := Apply(c, s, step);
    MoveServes(c, s, step, t.ch);
    if t.ch.served == s.ch.served { MoveGrows(c, s, step, t.ch); }
  }

  lemma {:induction false} OnlyWrites(c: Config, s: System, steps: seq<Step>)
    requires SysOk(c, s) && QueuesOk(c, s.ch) && Completes(c, s, steps) && AboveQuarter(c, s, steps)
    requires steps != [] ==> WritesFirst(c, s.ch)
    ensures var served := Run(c, s, steps).ch.served;
            s.ch.served <= served && forall i | |s.ch.served| <= i < |served| :: served[i].write
    decreases |steps|
  {
    hide SysOk, Apply, SourceAsserts, Enabled, Moved, QueuesOk;
    if steps != [] {
      var t := Apply(c, s, steps[0]);
      StepOk(c, s, steps[0]);
      StepMoves(c, s, steps[0]);
      MoveKeeps(c, s, steps[0], t.ch);
      StepServesWrite(c, s, steps[0]);
      OnlyWrites(c, t, steps[1..]);
    }
  }

  // Once more than three quarters of the write queue are taken, nothing but writes is served until only a quarter is,
  // whatever arrives in between.
  lemma WritesDrain(c: Config, before: seq<Step>, steps: seq<Step>)
    requires c.Ok() && Completes(c, Start(c), before) && Completes(c, Run(c, Start(c), before), steps)
    requires var s := Run(c, Start(c), before); |s.ch.wrQueue| > 3 * c.queueDepth / 4 && AboveQuarter(c, s, steps)
    ensures var s := Run(c, Start(c), before);
            var served := Run(c, s, steps).ch.served;
            s.ch.served <= served && forall i | |s.ch.served| <= i < |served| :: served[i].write
  {
    hide SysOk, QueuesOk;
    StartOk(c);
    StartQueues(c);
    Reached(c, before);
    RunKeeps(c, Start(c), before);
    OnlyWrites(c, Run(c, Start(c), before), steps);
  }
}
