// With refreshes far enough apart, everything that has arrived is served in every run.
module DdrDrainRuns {
  import opened Options
  import opened Arithmetic
  import opened DdrCycles
  import opened DdrQueue
  import opened DdrTiming
  import opened DdrState
  import opened DdrInvariant
  import opened DdrWake
  import opened DdrSystem
  import opened DdrRuns
  import opened DdrTheorems
  import opened DdrDrain
  import opened DdrLag

  // ----- Refreshes -----

  // The time after a refresh in which, whatever is queued from the overflow queue meanwhile, a request is served.
  function Grace(c: Config): nat {
    PreAhead(c) + c.t.tRFC + Reach(c)
  }

  // As many ticks as may serve nothing.
  function MaxIdle(c: Config): nat {
    6 * c.queueDepth + 2
  }

  // When the next tick is due at the latest, after n ticks that have served nothing.
  function Patience(c: Config, n: nat): nat {
    Grace(c) + c.t.tRCD * n
  }

  function Rest(c: Config): nat {
    Patience(c, MaxIdle(c)) + 1
  }

  function MemCycle(c: Config, at: nat): nat
    requires c.sysFreq > 0
  {
    SysToMem(at, c.sysFreq, c.memFreq)
  }

  // Each refresh comes at least Rest after the one before.
  ghost predicate RefreshesApart(c: Config, steps: seq<Step>, last: Option<nat>)
    requires c.sysFreq > 0
    decreases |steps|
  {
    steps == [] || (NotTooSoon(c, steps[0], last) && RefreshesApart(c, steps[1..], LastAfter(c, steps[0], last)))
  }

  predicate NotTooSoon(c: Config, step: Step, last: Option<nat>)
    requires c.sysFreq > 0
  {
    step.DoRefresh? && last.Some? ==> MemCycle(c, step.at) >= last.value + Rest(c)
  }

  function LastAfter(c: Config, step: Step, last: Option<nat>): Option<nat>
    requires c.sysFreq > 0
  {
    if step.DoRefresh? then Some(MemCycle(c, step.at)) else last
  }

  ghost function LastRefresh(c: Config, steps: seq<Step>, last: Option<nat>): Option<nat>
    requires c.sysFreq > 0
    decreases |steps|
  {
    if steps == [] then last else LastRefresh(c, steps[1..], LastAfter(c, steps[0], last))
  }

  // ----- What holds in all runs with such refreshes -----

  function Horizon(c: Config, m: nat, last: Option<nat>): nat {
    (if last.Some? && last.value + c.t.tRFC > m then last.value + c.t.tRFC else m) + PreAhead(c)
  }

  // A tick is due only while something waits.
  predicate Needed(s: Channel) {
    s.nextSched.Some? ==> s.rdQueue != [] || s.wrQueue != []
  }

  ghost predicate LagSys(c: Config, s: System, last: Option<nat>) {
    && c.sysFreq > 0
    && (var m := MemCycle(c, s.now);
        && Lag(c, s.ch, Horizon(c, m, last), m) && NextLag(c, s.ch.nextSched, Horizon(c, m, last))
        && (last.Some? ==> last.value <= m))
    && Needed(s.ch)
  }

  lemma StartLag(c: Config)
    requires c.Ok()
    ensures LagSys(c, Start(c), None)
  {
    SysToMemPositive(0, c.sysFreq, c.memFreq);
    hide SysToMem;
  }

  lemma TickNeeded(c: Config, s: Channel, at: nat)
    requires CtrlOk(c, s) && c.sysFreq > 0
    ensures Scannable(c, s) && Needed(Tick(c, s, at).0)
  {
    hide CtrlOk, TrySchedule, Refill, SideOk, FrFcfs, MatchingMemToSys;
    Facts(c, s, true);
    var cur := MemCycle(c, at);
    TryScheduleOk(c, s, cur);
    var (s1, m1) := TrySchedule(c, s, cur);
    Facts(c, s1, true);
    RefillOk(c, s1, m1, cur);
    hide SysToMem;
  }

  lemma EnqueueNeeded(c: Config, s: Channel, r: Request, at: nat)
    requires CtrlOk(c, s) && r.bank < c.numBanks && Needed(s)
    ensures Needed(Enqueue(c, s, r, at).0)
  {
    hide CtrlOk, QueueIn, MinCmd, GoesFirst, Stored, SideOk, FrFcfs, MatchingMemToSys;
    Facts(c, s, true);
    QueueInFills(c, s, r, SysToMem(at, c.sysFreq, c.memFreq));
    hide SysToMem;
  }

  function TimeOf(s: System, step: Step): nat
    requires step.Fire? ==> step.i < |s.events| && !s.events[step.i].Idle?
  {
    match step case Arrive(_, at) => at case Fire(i) => s.events[i].at case DoRefresh(at) => at
  }

  // The state as time goes on.
  lemma LaterLag(c: Config, s: System, step: Step, last: Option<nat>)
    requires LagSys(c, s, last) && Enabled(c, s, step)
    ensures var m := MemCycle(c, TimeOf(s, step));
            && MemCycle(c, s.now) <= m && Lag(c, s.ch, Horizon(c, m, last), m)
            && NextLag(c, s.ch.nextSched, Horizon(c, m, last))
  {
    var m0, m := MemCycle(c, s.now), MemCycle(c, TimeOf(s, step));
    SysToMemMonotone(s.now, TimeOf(s, step), c.sysFreq, c.memFreq);
    LagLater(c, s.ch, Horizon(c, m0, last), m0, Horizon(c, m, last), m);
    hide Lag, SysToMem;
  }

  lemma StepLag(c: Config, s: System, step: Step, last: Option<nat>)
    requires SysOk(c, s) && LagSys(c, s, last) && Enabled(c, s, step) && SourceAsserts(c, s, step)
    requires NotTooSoon(c, step, last)
    ensures LagSys(c, Apply(c, s, step), LastAfter(c, step, last))
  {
    hide CtrlOk, Tick, Enqueue, TickAsserts, EventsOk, FreeOk, RefreshDone, Lag, NextLag, SysToMem, Due, Schedule,
      Recycle;
    LaterLag(c, s, step, last);
    SameChannel(c, s, step);
    var at := TimeOf(s, step);
    var h := Horizon(c, MemCycle(c, at), last);
    match step
    case Arrive(r, _) =>
      EnqueueLag(c, s.ch, r, at, h);
      EnqueueNeeded(c, s.ch, r, at);
    case Fire(i) =>
      if s.events[i].Queued? {
        TickLag(c, s.ch, at, h);
        TickNeeded(c, s.ch, at);
      }
    case DoRefresh(_) =>
      RefreshLag(c, s.ch, at, h);
      NextLater(c, s.ch.nextSched, h, h + c.t.tRFC);
  }

  lemma NextLater(c: Config, next: Option<nat>, h: nat, h1: nat)
    requires NextLag(c, next, h) && h <= h1
    ensures NextLag(c, next, h1)
  {
  }

  // What a step does to the channel and the time.
  lemma SameChannel(c: Config, s: System, step: Step)
    requires Enabled(c, s, step) && SourceAsserts(c, s, step) && c.sysFreq > 0
    ensures Apply(c, s, step).now == TimeOf(s, step)
    ensures match step
            case Arrive(r, at) => Shape(c, s.ch) && Apply(c, s, step).ch == Enqueue(c, s.ch, r, at).0
            case Fire(i) =>
              if s.events[i].Queued? then
                Scannable(c, s.ch) && Apply(c, s, step).ch == Tick(c, s.ch, s.events[i].at).0
                && s.ch.nextSched == Some(MemCycle(c, s.events[i].at))
              else Apply(c, s, step).ch == s.ch
            case DoRefresh(at) =>
              RefreshDone(c.t, s.ch.banks, MemCycle(c, at)) >= c.t.tRP && Apply(c, s, step).ch == Refresh(c, s.ch, at)
  {
    hide Tick, Enqueue, RefreshDone, SysToMem, Due, TrySchedule, PicksWriteQueue, Ready, ServeAsserts, Scannable;
  }

  // ----- After a refresh, until a request is served -----

  // All banks are closed, and nothing has been issued since memory cycle m.
  ghost predicate Frozen(c: Config, s: Channel, m: nat) {
    && (forall b | 0 <= b < |s.banks| ::
          !s.banks[b].open && s.banks[b].minPre + c.t.tRP <= m + PreAhead(c) + c.t.tRFC && s.banks[b].lastAct <= m)
    && WindowsLag(s.windows, m) && s.bus.minResp <= m + BusAhead(c)
  }

  lemma RefreshFreezes(c: Config, s: Channel, at: nat, h: nat)
    requires c.sysFreq > 0 && Lag(c, s, h, MemCycle(c, at)) && h == MemCycle(c, at) + PreAhead(c)
    requires RefreshDone(c.t, s.banks, MemCycle(c, at)) >= c.t.tRP
    ensures Frozen(c, Refresh(c, s, at), MemCycle(c, at))
  {
    hide SysToMem, RefreshDone;
    RefreshLag(c, s, at, h);
    forall b | 0 <= b < |s.banks| ensures s.banks[b].lastAct <= MemCycle(c, at) {
      assert BankLag(c, s.banks[b], h, MemCycle(c, at));
    }
  }

  function Bound(c: Config, m: nat, cur: nat): nat {
    Max(cur, m + Grace(c)) + c.t.tRCD
  }

  lemma FrozenMin(c: Config, s: Channel, r: Request, m: nat, cur: nat)
    requires Frozen(c, s, m) && Shape(c, s) && r.bank < c.numBanks && r.arrival <= cur
    ensures MinCmd(c, s, r) <= Bound(c, m, cur)
  {
    var k := c.rankOf(r.bank);
    assert s.windows[k][0] in s.windows[k];
    hide WindowsLag;
  }

  predicate NextBy(next: Option<nat>, u: nat) {
    next.Some? ==> next.value <= u
  }

  lemma FrozenScan(c: Config, s: Channel, w: bool, m: nat, cur: nat)
    requires CtrlOk(c, s) && Frozen(c, s, m) && Came(s.Queue(w), cur)
    ensures Scannable(c, s) && NextBy(Scan(c, s, w, cur, 0, None).1, Bound(c, m, cur))
  {
    hide CtrlOk, Scan, MinCmd, SideOk, FrFcfs, Frozen, Bound, IsHead;
    Facts(c, s, w);
    ScanLeast(c, s, w, cur, 0, None);
    var q, x := s.Queue(w), Scan(c, s, w, cur, 0, None).1;
    if x.Some? {
      var k :| 0 <= k < |q| && IsHead(s, w, q[k]) && q[k].bank < c.numBanks && x == Some(MinCmd(c, s, q[k]));
      assert q[k] in q;
      FrozenMin(c, s, q[k], m, cur);
    }
  }

  lemma FrozenBus(c: Config, s: Channel, m: nat, cur: nat)
    requires Frozen(c, s, m)
    ensures s.bus.minResp <= Bound(c, m, cur) && cur <= Bound(c, m, cur)
  {
  }

  // A scheduling attempt that serves nothing asks for a cycle not far away.
  lemma IdleSchedule(c: Config, s: Channel, m: nat, cur: nat)
    requires CtrlOk(c, s) && Frozen(c, s, m) && (forall w :: Came(s.Queue(w), cur)) && Scannable(c, s)
    requires Ready(c, s, cur).None?
    ensures TrySchedule(c, s, cur).0 == s && NextBy(TrySchedule(c, s, cur).1, Bound(c, m, cur))
  {
    hide CtrlOk, Scan, PicksWriteQueue, Serve, SideOk, FrFcfs, Frozen, Bound, Came;
    FrozenBus(c, s, m, cur);
    FrozenScan(c, s, PicksWriteQueue(c, s), m, cur);
  }

  lemma IdleRefill(c: Config, s: Channel, least: Option<nat>, m: nat, cur: nat)
    requires CtrlOk(c, s) && Frozen(c, s, m) && NextBy(least, Bound(c, m, cur))
    ensures var (s1, next) := Refill(c, s, least, cur); Frozen(c, s1, m) && NextBy(next, Bound(c, m, cur))
  {
    hide CtrlOk, QueueIn, MinCmd, Place, SideOk, FrFcfs, Bound, GoesFirst, WindowsLag;
    Facts(c, s, true);
    FrozenBus(c, s, m, cur);
    if !s.Full(c.queueDepth) && s.overflow != [] {
      OverflowBank(c, s);
      var s0 := s.(overflow := s.overflow[1..]);
      OverflowOk(c, s, s.overflow[1..]);
      Facts(c, s0, true);
      QueueInRest(c, s0, s.overflow[0], cur);
      FrozenMin(c, s, Stored(c, s, s.overflow[0], cur), m, cur);
    }
  }

  lemma IdleTick(c: Config, s: Channel, at: nat, m: nat)
    requires c.sysFreq > 0 && CtrlOk(c, s) && Frozen(c, s, m) && (forall w :: Came(s.Queue(w), MemCycle(c, at)))
    requires Scannable(c, s) && Ready(c, s, MemCycle(c, at)).None?
    ensures var s1 := Tick(c, s, at).0;
            Frozen(c, s1, m) && NextBy(s1.nextSched, Bound(c, m, MemCycle(c, at)))
  {
    hide CtrlOk, TrySchedule, Refill, Ready, SideOk, FrFcfs, MatchingMemToSys, SysToMem, Bound, Came;
    var cur := MemCycle(c, at);
    IdleSchedule(c, s, m, cur);
    IdleRefill(c, s, TrySchedule(c, s, cur).1, m, cur);
  }

  // ----- How much is left -----

  // Places in the queues.
  function Room(c: Config, s: Channel): nat {
    var n := |s.rdQueue| + |s.wrQueue|;
    if n < 2 * c.queueDepth then 2 * c.queueDepth - n else 0
  }

  // How far the next tick is from serving a request.
  ghost function NextDistance(c: Config, s: Channel): nat
    requires CtrlOk(c, s)
    ensures NextDistance(c, s) <= 2
  {
    if s.nextSched.None? then 0 else Distance(c, s, s.nextSched.value)
  }

  // At most so many ticks can serve nothing.
  ghost function IdleTicks(c: Config, s: Channel): nat
    requires CtrlOk(c, s)
    ensures IdleTicks(c, s) <= MaxIdle(c)
  {
    3 * Room(c, s) + NextDistance(c, s)
  }

  ghost function Score(c: Config, s: Channel): nat
    requires CtrlOk(c, s)
  {
    9 * Waiting(s) + 3 * |s.overflow| + NextDistance(c, s)
  }

  // A tick serves a request and leaves nothing more to do than that, or serves none.
  lemma TickSizes(c: Config, s: Channel, at: nat)
    requires CtrlOk(c, s) && c.sysFreq > 0
    ensures Scannable(c, s)
    ensures var s1 := Tick(c, s, at).0;
            && |s1.overflow| <= |s.overflow|
            && Waiting(s1) == Waiting(s) - (if Ready(c, s, MemCycle(c, at)).Some? then 1 else 0)
            && (Ready(c, s, MemCycle(c, at)).None? && |s1.overflow| < |s.overflow| ==> !s.Full(c.queueDepth))
  {
    hide CtrlOk, TrySchedule, Ready, QueueIn, SideOk, FrFcfs, MatchingMemToSys, MinCmd, GoesFirst;
    Facts(c, s, true);
    var cur := MemCycle(c, at);
    hide SysToMem;
    TryScheduleOk(c, s, cur);
    ServeShrinks(c, s, cur);
    var (s1, m1) := TrySchedule(c, s, cur);
    Facts(c, s1, true);
    RefillSizes(c, s1, m1, cur);
  }

  // The tick that is due, in a state in which something waits.
  ghost predicate TickDue(c: Config, s: Channel, at: nat) {
    && c.sysFreq > 0 && CtrlOk(c, s) && s.nextSched == Some(MemCycle(c, at)) && (s.rdQueue != [] || s.wrQueue != [])
  }

  lemma ServingScore(c: Config, s: Channel, at: nat)
    requires TickDue(c, s, at) && Scannable(c, s) && Ready(c, s, MemCycle(c, at)).Some?
    ensures CtrlOk(c, Tick(c, s, at).0) && Score(c, Tick(c, s, at).0) + 3 < Score(c, s)
  {
    hide CtrlOk, Tick, Ready, NextDistance, SysToMem;
    TickOk(c, s, at);
    TickSizes(c, s, at);
  }

  lemma IdleScore(c: Config, s: Channel, at: nat)
    requires TickDue(c, s, at) && Scannable(c, s) && Ready(c, s, MemCycle(c, at)).None?
    ensures var s1 := Tick(c, s, at).0;
            CtrlOk(c, s1) && Score(c, s1) < Score(c, s) && IdleTicks(c, s1) < IdleTicks(c, s)
  {
    hide CtrlOk, Tick, Ready, Distance, SysToMem, Scannable;
    TickOk(c, s, at);
    TickSizes(c, s, at);
    TickCloser(c, s, at);
    DepthPositive(c, s);
  }

  lemma DepthPositive(c: Config, s: Channel)
    requires Scannable(c, s)
    ensures c.queueDepth > 0
  {
  }

  // ----- The last part of a run -----

  // `idleSince` is the memory cycle of the last refresh, if no request has been served since.
  ghost predicate Deadline(c: Config, s: Channel, idleSince: nat)
    requires CtrlOk(c, s)
  {
    && Frozen(c, s, idleSince)
    && NextBy(s.nextSched, idleSince + Patience(c, MaxIdle(c) - IdleTicks(c, s)))
  }

  ghost predicate PostInv(c: Config, s: System, last: Option<nat>, idleSince: Option<nat>) {
    && SysOk(c, s) && LagSys(c, s, last)
    && (idleSince.Some? ==> last == idleSince && Deadline(c, s.ch, idleSince.value))
  }

  // What is left to do; it counts the refresh that may still come before the next request is served.
  ghost function Left(c: Config, s: Channel, idleSince: Option<nat>): nat
    requires CtrlOk(c, s)
  {
    Score(c, s) + (if idleSince.None? && Waiting(s) > 0 then 3 else 0)
  }

  // The bound moves on by no more than a tick serving nothing gains.
  lemma DeadlineKept(c: Config, s: Channel, at: nat, idleSince: nat)
    requires TickDue(c, s, at) && Scannable(c, s) && Ready(c, s, MemCycle(c, at)).None?
    requires Deadline(c, s, idleSince) && (forall w :: Came(s.Queue(w), MemCycle(c, at)))
    ensures CtrlOk(c, Tick(c, s, at).0) && Deadline(c, Tick(c, s, at).0, idleSince)
  {
    hide CtrlOk, Tick, Ready, Frozen, IdleTicks, SysToMem, Scannable, Grace, Came, MaxIdle;
    IdleScore(c, s, at);
    IdleTick(c, s, at, idleSince);
    var s1 := Tick(c, s, at).0;
    var k, k1 := MaxIdle(c) - IdleTicks(c, s), MaxIdle(c) - IdleTicks(c, s1);
    MulMono(c.t.tRCD, k + 1, k1);
    MulMono(c.t.tRCD, 0, k);
    assert c.t.tRCD * (k + 1) == c.t.tRCD * k + c.t.tRCD;
  }

  lemma QueuesCame(c: Config, s: System, step: Step, last: Option<nat>)
    requires LagSys(c, s, last) && Enabled(c, s, step)
    ensures forall w :: Came(s.ch.Queue(w), MemCycle(c, TimeOf(s, step)))
  {
    LaterLag(c, s, step, last);
    hide SysToMem, BanksLag, WindowsLag;
  }

  // A refresh that comes no sooner than Rest after the one before finds that a request has been served in between, if
  // one waits.
  lemma ServedSince(c: Config, s: System, at: nat, last: Option<nat>, idleSince: Option<nat>)
    requires PostInv(c, s, last, idleSince) && Enabled(c, s, DoRefresh(at)) && NotTooSoon(c, DoRefresh(at), last)
    requires Waiting(s.ch) > 0
    ensures idleSince.None?
  {
    hide CtrlOk, Frozen, IdleTicks, SysToMem, FreeOk, Lag, Horizon, NextLag;
    assert s.ch.nextSched.Some? && s.nextEvent.Some?;
    var i := s.nextEvent.value;
    assert at <= s.events[i].at;
    SysToMemMonotone(at, s.events[i].at, c.sysFreq, c.memFreq);
    if idleSince.Some? {
      MulMono(c.t.tRCD, MaxIdle(c) - IdleTicks(c, s.ch), MaxIdle(c));
      assert false;
    }
  }

  // A tick, or a refresh while something waits.
  predicate Counts(s: System, step: Step)
    requires step.Fire? ==> step.i < |s.events|
  {
    match step
    case Arrive(_, _) => false
    case Fire(i) => s.events[i].Queued?
    case DoRefresh(_) => Waiting(s.ch) > 0
  }

  ghost function NextIdle(c: Config, s: System, step: Step, idleSince: Option<nat>): Option<nat>
    requires SysOk(c, s) && Enabled(c, s, step) && SourceAsserts(c, s, step) && c.sysFreq > 0
  {
    match step
    case Arrive(_, _) => idleSince
    case Fire(i) =>
      SameChannel(c, s, step);
      if s.events[i].Queued? && Ready(c, s.ch, MemCycle(c, s.events[i].at)).Some? then None else idleSince
    case DoRefresh(at) => Some(MemCycle(c, at))
  }

  lemma TickPost(c: Config, s: System, i: nat, at: nat, last: Option<nat>, idleSince: Option<nat>)
    requires PostInv(c, s, last, idleSince) && Enabled(c, s, Fire(i)) && SourceAsserts(c, s, Fire(i))
    requires s.events[i] == Queued(at)
    ensures PostInv(c, Apply(c, s, Fire(i)), last, NextIdle(c, s, Fire(i), idleSince))
    ensures Left(c, Apply(c, s, Fire(i)).ch, NextIdle(c, s, Fire(i), idleSince)) < Left(c, s.ch, idleSince)
  {
    hide CtrlOk, Tick, Ready, Frozen, IdleTicks, Lag, NextLag, Horizon, Score, SysToMem, Scannable, EventsOk, FreeOk,
      Awake, Due, TickAsserts, Apply, Enabled, SourceAsserts, Deadline;
    StepOk(c, s, Fire(i));
    StepLag(c, s, Fire(i), last);
    SameChannel(c, s, Fire(i));
    if Ready(c, s.ch, MemCycle(c, at)).Some? {
      ServingScore(c, s.ch, at);
    } else {
      IdleScore(c, s.ch, at);
      TickSizes(c, s.ch, at);
      QueuesCame(c, s, Fire(i), last);
      if idleSince.Some? { DeadlineKept(c, s.ch, at, idleSince.value); }
    }
  }

  lemma AnnulledPost(c: Config, s: System, i: nat, last: Option<nat>, idleSince: Option<nat>)
    requires PostInv(c, s, last, idleSince) && Enabled(c, s, Fire(i)) && SourceAsserts(c, s, Fire(i))
    requires !s.events[i].Queued?
    ensures PostInv(c, Apply(c, s, Fire(i)), last, NextIdle(c, s, Fire(i), idleSince))
    ensures Apply(c, s, Fire(i)).ch == s.ch && NextIdle(c, s, Fire(i), idleSince) == idleSince
  {
    hide CtrlOk, Tick, Ready, Lag, NextLag, Horizon, SysToMem, EventsOk, FreeOk, Awake, Due, TickAsserts, Apply,
      Enabled, SourceAsserts, Deadline;
    StepOk(c, s, Fire(i));
    StepLag(c, s, Fire(i), last);
    SameChannel(c, s, Fire(i));
  }

  lemma RefreshPost(c: Config, s: System, at: nat, last: Option<nat>, idleSince: Option<nat>)
    requires PostInv(c, s, last, idleSince) && Enabled(c, s, DoRefresh(at)) && SourceAsserts(c, s, DoRefresh(at))
    requires NotTooSoon(c, DoRefresh(at), last)
    ensures PostInv(c, Apply(c, s, DoRefresh(at)), Some(MemCycle(c, at)), Some(MemCycle(c, at)))
    ensures var left := Left(c, Apply(c, s, DoRefresh(at)).ch, Some(MemCycle(c, at)));
            if Waiting(s.ch) > 0 then left < Left(c, s.ch, idleSince) else left == Left(c, s.ch, idleSince)
  {
    hide CtrlOk, Frozen, Lag, NextLag, Distance, SysToMem, EventsOk, FreeOk, Due, Apply, Enabled, SourceAsserts,
      RefreshDone, IdleTicks, Horizon;
    StepOk(c, s, DoRefresh(at));
    StepLag(c, s, DoRefresh(at), last);
    SameChannel(c, s, DoRefresh(at));
    LaterLag(c, s, DoRefresh(at), last);
    HorizonNow(c, MemCycle(c, at), last);
    RefreshFreezes(c, s.ch, at, MemCycle(c, at) + PreAhead(c));
    if Waiting(s.ch) > 0 { ServedSince(c, s, at, last, idleSince); }
    RefreshDue(c, s.ch, at);
  }

  lemma HorizonNow(c: Config, m: nat, last: Option<nat>)
    requires last.Some? ==> m >= last.value + Rest(c)
    ensures Horizon(c, m, last) == m + PreAhead(c)
  {
    hide MaxIdle;
    if last.Some? { MulMono(c.t.tRCD, 0, MaxIdle(c)); }
  }

  // The tick that is due at a refresh comes in time.
  lemma RefreshDue(c: Config, s: Channel, at: nat)
    requires c.sysFreq > 0 && RefreshDone(c.t, s.banks, MemCycle(c, at)) >= c.t.tRP && CtrlOk(c, Refresh(c, s, at))
    requires Frozen(c, Refresh(c, s, at), MemCycle(c, at))
    requires NextLag(c, s.nextSched, MemCycle(c, at) + PreAhead(c))
    ensures Deadline(c, Refresh(c, s, at), MemCycle(c, at))
  {
    hide CtrlOk, Frozen, SysToMem, RefreshDone, IdleTicks, MaxIdle;
    MulMono(c.t.tRCD, 0, MaxIdle(c) - IdleTicks(c, Refresh(c, s, at)));
  }

  lemma StepPost(c: Config, s: System, step: Step, last: Option<nat>, idleSince: Option<nat>)
    requires PostInv(c, s, last, idleSince) && Enabled(c, s, step) && SourceAsserts(c, s, step) && !step.Arrive?
    requires NotTooSoon(c, step, last)
    ensures var s1, since := Apply(c, s, step), NextIdle(c, s, step, idleSince);
            && PostInv(c, s1, LastAfter(c, step, last), since)
            && Left(c, s1.ch, since) + (if Counts(s, step) then 1 else 0) <= Left(c, s.ch, idleSince)
  {
    PostCtrl(c, s, last, idleSince);
    hide PostInv, Left, Apply, SysToMem, Due, TickAsserts, Ready;
    match step
    case Fire(i) =>
      if s.events[i].Queued? {
        TickPost(c, s, i, s.events[i].at, last, idleSince);
      } else {
        AnnulledPost(c, s, i, last, idleSince);
        SameLeft(c, s.ch, Apply(c, s, step).ch, idleSince);
      }
    case DoRefresh(at) => RefreshPost(c, s, at, last, idleSince);
  }

  lemma SameLeft(c: Config, s: Channel, s1: Channel, idleSince: Option<nat>)
    requires CtrlOk(c, s) && s1 == s
    ensures Left(c, s1, idleSince) == Left(c, s, idleSince)
  {
  }

  // ----- Runs -----

  predicate NoArrivals(steps: seq<Step>) {
    forall i | 0 <= i < |steps| :: !steps[i].Arrive?
  }

  ghost function Counted(c: Config, s: System, steps: seq<Step>): nat
    requires Completes(c, s, steps)
    decreases |steps|
  {
    if steps == [] then 0
    else (if Counts(s, steps[0]) then 1 else 0) + Counted(c, Apply(c, s, steps[0]), steps[1..])
  }

  lemma {:induction false} PreRun(c: Config, s: System, steps: seq<Step>, last: Option<nat>)
    requires SysOk(c, s) && LagSys(c, s, last) && Completes(c, s, steps) && RefreshesApart(c, steps, last)
    ensures SysOk(c, Run(c, s, steps)) && LagSys(c, Run(c, s, steps), LastRefresh(c, steps, last))
    decreases |steps|
  {
    hide SysOk, Apply, SourceAsserts, Enabled, NotTooSoon, Lag, NextLag, Horizon, SysToMem, Needed;
    if steps != [] {
      StepOk(c, s, steps[0]);
      StepLag(c, s, steps[0], last);
      PreRun(c, Apply(c, s, steps[0]), steps[1..], LastAfter(c, steps[0], last));
    }
  }

  lemma {:induction false} PostRun(c: Config, s: System, steps: seq<Step>, last: Option<nat>, idleSince: Option<nat>)
    returns (since: Option<nat>)
    requires c.sysFreq > 0 && PostInv(c, s, last, idleSince) && Completes(c, s, steps) && NoArrivals(steps)
    requires RefreshesApart(c, steps, last)
    ensures CtrlOk(c, Run(c, s, steps).ch)
    ensures Counted(c, s, steps) + Left(c, Run(c, s, steps).ch, since) <= Left(c, s.ch, idleSince)
    decreases |steps|
  {
    PostCtrl(c, s, last, idleSince);
    hide PostInv, SysOk, CtrlOk, Apply, SourceAsserts, Enabled, Counts, NotTooSoon, LastAfter, Left, NextIdle;
    if steps == [] {
      since := idleSince;
    } else {
      StepPost(c, s, steps[0], last, idleSince);
      since := PostRun(c, Apply(c, s, steps[0]), steps[1..], LastAfter(c, steps[0], last),
                       NextIdle(c, s, steps[0], idleSince));
    }
  }

  lemma PostCtrl(c: Config, s: System, last: Option<nat>, idleSince: Option<nat>)
    requires PostInv(c, s, last, idleSince)
    ensures SysOk(c, s) && CtrlOk(c, s.ch)
  {
  }

  // In every run with refreshes at least Rest apart: once requests stop arriving, every tick, and every refresh while
  // something waits, brings the controller nearer to having served everything; as long as something waits, a tick is
  // pending; and when nothing does, each request that has arrived has been served exactly once.
  lemma EverythingServedInRuns(c: Config, pre: seq<Step>, post: seq<Step>)
    requires c.Ok() && Completes(c, Start(c), pre) && Completes(c, Run(c, Start(c), pre), post) && NoArrivals(post)
    requires RefreshesApart(c, pre, None) && RefreshesApart(c, post, LastRefresh(c, pre, None))
    ensures var s, t := Run(c, Start(c), pre), Run(c, Run(c, Start(c), pre), post);
            && Counted(c, s, post) + 9 * Waiting(t.ch) <= 9 * Waiting(s.ch) + 3 * |s.ch.overflow| + 5
            && (Waiting(t.ch) > 0 ==> exists i :: 0 <= i < |t.events| && t.events[i].Queued?)
            && (Waiting(t.ch) == 0 ==> Ids(t.ch.served) == Arrived(pre))
  {
    hide Run, Completes, Counted, RefreshesApart, SysOk, CtrlOk, LagSys, Start, Left, LastRefresh, Possible, NoArrivals,
      Accounted;
    StartOk(c);
    StartLag(c);
    PreRun(c, Start(c), pre, None);
    var s, last := Run(c, Start(c), pre), LastRefresh(c, pre, None);
    var since := PostRun(c, s, post, last, None);
    var t := Run(c, s, post);
    PostCtrl(c, s, last, None);
    LeftBounds(c, s.ch, None);
    LeftBounds(c, t.ch, since);
    CompletesIsPossible(c, s, post);
    RunOk(c, s, post);
    if Waiting(t.ch) > 0 {
      TickPending(c, t);
    } else {
      AllAccounted(c, s, pre, post);
    }
  }

  lemma LeftBounds(c: Config, s: Channel, idleSince: Option<nat>)
    requires CtrlOk(c, s)
    ensures 9 * Waiting(s) <= Left(c, s, idleSince) <= 9 * Waiting(s) + 3 * |s.overflow| + 5
  {
    hide CtrlOk, NextDistance;
  }

  // What has been served when nothing waits.
  lemma AllAccounted(c: Config, s: System, pre: seq<Step>, post: seq<Step>)
    requires c.Ok() && Completes(c, Start(c), pre) && s == Run(c, Start(c), pre) && SysOk(c, s)
    requires Completes(c, s, post) && NoArrivals(post) && Waiting(Run(c, s, post).ch) == 0
    ensures Ids(Run(c, s, post).ch.served) == Arrived(pre)
  {
    hide Run, Completes, SysOk, Accounted, Start;
    NothingLost(c, pre);
    RunAccounts(c, s, post);
    NoneArrived(post);
    ServedAll(Run(c, s, post).ch);
  }

  lemma TickPending(c: Config, s: System)
    requires SysOk(c, s) && Waiting(s.ch) > 0
    ensures exists i :: 0 <= i < |s.events| && s.events[i].Queued?
  {
    hide CtrlOk, SysToMem, FreeOk;
    assert s.events[s.nextEvent.value].Queued?;
  }

  lemma {:induction false} NoneArrived(steps: seq<Step>)
    requires NoArrivals(steps)
    ensures Arrived(steps) == multiset{}
  {
    if steps != [] { NoneArrived(steps[1..]); }
  }

  // ----- The run that does it -----

  function Pending(events: seq<SchedEvent>): nat {
    if events == [] then 0
    else (if events[|events| - 1].Idle? then 0 else 1) + Pending(events[..|events| - 1])
  }

  lemma {:induction false} PendingLess(events: seq<SchedEvent>, i: nat)
    requires i < |events| && !events[i].Idle?
    ensures Pending(events[i := SchedEvent.Idle]) == Pending(events) - 1
    decreases |events|
  {
    var n := |events| - 1;
    if i < n {
      PendingLess(events[..n], i);
      assert events[i := SchedEvent.Idle][..n] == events[..n][i := SchedEvent.Idle];
    } else {
      assert events[i := SchedEvent.Idle][..n] == events[..n];
    }
  }

  // The event that comes next.
  lemma {:induction false} Earliest(events: seq<SchedEvent>, k: nat) returns (i: nat)
    requires k < |events| && !events[k].Idle?
    ensures i < |events| && !events[i].Idle?
    ensures forall j | 0 <= j < |events| && !events[j].Idle? :: events[i].at <= events[j].at
    decreases events[k].at
  {
    if j :| 0 <= j < |events| && !events[j].Idle? && events[j].at < events[k].at {
      i := Earliest(events, j);
    } else {
      i := k;
    }
  }

  lemma EarliestFires(c: Config, s: System) returns (i: nat)
    requires SysOk(c, s) && Waiting(s.ch) > 0
    ensures Enabled(c, s, Fire(i)) && SourceAsserts(c, s, Fire(i)) && SysOk(c, Apply(c, s, Fire(i)))
    ensures i < |s.events| && !s.events[i].Idle?
  {
    hide CtrlOk, SysToMem, FreeOk, TickAsserts, Tick, Apply, SourceAsserts;
    TickPending(c, s);
    var k :| 0 <= k < |s.events| && s.events[k].Queued?;
    i := Earliest(s.events, k);
    StepOk(c, s, Fire(i));
  }

  ghost predicate Going(c: Config, s: System) {
    SysOk(c, s) && Needed(s.ch)
  }

  lemma FireLess(c: Config, s: System, i: nat)
    requires Going(c, s) && Enabled(c, s, Fire(i)) && SourceAsserts(c, s, Fire(i)) && i < |s.events|
    ensures Going(c, Apply(c, s, Fire(i)))
    ensures var s1 := Apply(c, s, Fire(i));
            if s.events[i].Queued? then Score(c, s1.ch) < Score(c, s.ch)
            else s1.ch == s.ch && Pending(s1.events) < Pending(s.events)
  {
    hide CtrlOk, Tick, Ready, SysToMem, Scannable, EventsOk, FreeOk, Awake, Due, TickAsserts, Score, Pending;
    StepOk(c, s, Fire(i));
    assert c.sysFreq > 0;
    SameChannel(c, s, Fire(i));
    if s.events[i].Queued? {
      var at := s.events[i].at;
      TickNeeded(c, s.ch, at);
      if Ready(c, s.ch, MemCycle(c, at)).Some? { ServingScore(c, s.ch, at); } else { IdleScore(c, s.ch, at); }
    } else {
      PendingLess(s.events, i);
    }
  }

  lemma StepNeeded(c: Config, s: System, step: Step)
    requires Going(c, s) && Enabled(c, s, step) && SourceAsserts(c, s, step)
    ensures Going(c, Apply(c, s, step))
  {
    hide CtrlOk, Tick, Enqueue, SysToMem, EventsOk, FreeOk, Awake, Due, TickAsserts, RefreshDone;
    StepOk(c, s, step);
    assert c.sysFreq > 0;
    SameChannel(c, s, step);
    match step
    case Arrive(r, at) => EnqueueNeeded(c, s.ch, r, at);
    case Fire(i) => if s.events[i].Queued? { TickNeeded(c, s.ch, s.events[i].at); }
    case DoRefresh(_) =>
  }

  lemma {:induction false} RunNeeded(c: Config, s: System, steps: seq<Step>)
    requires Going(c, s) && Completes(c, s, steps)
    ensures Going(c, Run(c, s, steps))
    decreases |steps|
  {
    hide Going, Apply, SourceAsserts, Enabled;
    if steps != [] {
      StepNeeded(c, s, steps[0]);
      RunNeeded(c, Apply(c, s, steps[0]), steps[1..]);
    }
  }

  lemma {:induction false} DrainFrom(c: Config, s: System) returns (post: seq<Step>)
    requires Going(c, s) && SysOk(c, s) && CtrlOk(c, s.ch)
    ensures Completes(c, s, post) && Waiting(Run(c, s, post).ch) == 0 && forall i | 0 <= i < |post| :: post[i].Fire?
    decreases Score(c, s.ch), Pending(s.events)
  {
    post := [];
    if Waiting(s.ch) > 0 {
      var i := EarliestFires(c, s);
      FireLess(c, s, i);
      GoingCtrl(c, Apply(c, s, Fire(i)));
      hide SysOk, CtrlOk, Going, Apply, SourceAsserts, Enabled, Score, Pending;
      var rest := DrainFrom(c, Apply(c, s, Fire(i)));
      post := [Fire(i)] + rest;
      assert post[1..] == rest;
    }
  }

  lemma GoingCtrl(c: Config, s: System)
    requires Going(c, s)
    ensures SysOk(c, s) && CtrlOk(c, s.ch)
  {
  }

  // Whatever has happened, the controller's own events can serve everything that has arrived.
  lemma EveryRunCanEnd(c: Config, pre: seq<Step>) returns (post: seq<Step>)
    requires c.Ok() && Completes(c, Start(c), pre)
    ensures forall i | 0 <= i < |post| :: post[i].Fire?
    ensures Completes(c, Run(c, Start(c), pre), post)
    ensures var t := Run(c, Run(c, Start(c), pre), post).ch;
            Waiting(t) == 0 && Ids(t.served) == Arrived(pre)
  {
    StartOk(c);
    RunNeeded(c, Start(c), pre);
    var s := Run(c, Start(c), pre);
    GoingCtrl(c, s);
    hide Going, SysOk, CtrlOk, Run, Completes, Start;
    post := DrainFrom(c, s);
    AllAccounted(c, s, pre, post);
  }

  // For a technology of the program, with its default queue depth, Rest is much less than tREFI, which is 5200.
  lemma RestIsShort(c: Config)
    requires c.t == Timing(4, 10, 10, 5, 10, 4, 24, 20, 5, 10, 74) && c.queueDepth == 16
    ensures Rest(c) == 1168
  {
  }
}
