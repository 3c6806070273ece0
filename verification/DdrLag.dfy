// How far ahead of the present the memory controller plans, when refreshes are some distance apart.
module DdrLag {
  import opened Options
  import opened DdrCycles
  import opened DdrQueue
  import opened DdrTiming
  import opened DdrState
  import opened DdrInvariant
  import opened DdrWake
  import opened DdrRuns
  import opened DdrTheorems
  import W = ActivationWindow

  // From the present to the last command of a bank, the end of the last burst, and the earliest precharge.
  function CmdAhead(c: Config): nat {
    c.t.tCL + c.t.tWTR
  }

  function BusAhead(c: Config): nat {
    CmdAhead(c) + c.t.tCL + c.t.tBL
  }

  function PreAhead(c: Config): nat {
    BusAhead(c) + c.t.tWR + c.t.tRTP + c.t.tRAS
  }

  // From the earliest precharge of a bank to the earliest column command of a request.
  function Reach(c: Config): nat {
    c.t.tRP + c.t.tRRD + c.t.tFAW + c.t.tRCD + 1
  }

  // ----- The state of the banks and the bus, h being a bound on the precharges -----

  predicate BankLag(c: Config, b: BankState, h: nat, m: nat) {
    b.lastAct <= m && b.lastCmd <= m + CmdAhead(c) && b.minPre <= h
  }

  ghost predicate BanksLag(c: Config, banks: seq<BankState>, h: nat, m: nat) {
    forall b | 0 <= b < |banks| :: BankLag(c, banks[b], h, m)
  }

  ghost predicate WindowsLag(windows: seq<seq<nat>>, m: nat) {
    forall k, x | 0 <= k < |windows| && x in windows[k] :: x <= m
  }

  ghost predicate Came(q: seq<Request>, m: nat) {
    forall r | r in q :: r.arrival <= m
  }

  ghost predicate Lag(c: Config, s: Channel, h: nat, m: nat) {
    && m + PreAhead(c) <= h
    && BanksLag(c, s.banks, h, m) && WindowsLag(s.windows, m) && s.bus.minResp <= m + BusAhead(c)
    && (forall w :: Came(s.Queue(w), m))
  }

  ghost predicate NextLag(c: Config, next: Option<nat>, h: nat) {
    next.Some? ==> next.value <= h + Reach(c)
  }

  lemma LagLater(c: Config, s: Channel, h: nat, m: nat, h1: nat, m1: nat)
    requires Lag(c, s, h, m) && m <= m1 && h <= h1 && m1 + PreAhead(c) <= h1
    ensures Lag(c, s, h1, m1)
  {
  }

  // ----- Serving -----

  lemma IssueLag(c: Config, b: BankState, bus: Bus, r: Request, wm: nat, cur: nat, h: nat, keepOpen: bool)
    requires BankLag(c, b, h, cur) && cur + PreAhead(c) <= h && r.arrival <= cur
    requires FindMinCmdCycle(c.t, b, r, wm) <= cur && c.t.tCL <= bus.minResp <= cur + c.t.tCL
    ensures CmdCycle(c.t, b, bus, r, wm, cur) <= cur + CmdAhead(c)
    ensures BankLag(c, IssuedBank(c.t, b, bus, r, wm, cur, c.closedPage, keepOpen), h, cur)
    ensures IssuedBus(c.t, b, bus, r, wm, cur).minResp <= cur + BusAhead(c)
  {
  }

  lemma {:induction false} InsertMembers(s: seq<nat>, x: nat)
    ensures forall y | y in W.Insert(s, x) :: y in s || y == x
  {
    if s != [] && s[|s| - 1] > x { InsertMembers(s[..|s| - 1], x); }
  }

  lemma AddedMembers(w: seq<nat>, x: nat)
    requires |w| > 0
    ensures forall y | y in W.Added(w, x) :: y in w || y == x
  {
    InsertMembers(w[1..], x);
    hide W.Insert;
  }

  lemma WindowsAdded(windows: seq<seq<nat>>, k: nat, x: nat, m: nat)
    requires WindowsLag(windows, m) && k < |windows| && |windows[k]| > 0 && x <= m
    ensures WindowsLag(windows[k := W.Added(windows[k], x)], m)
  {
    AddedMembers(windows[k], x);
    hide W.Added;
  }

  lemma ServeLag(c: Config, s: Channel, w: bool, i: nat, cur: nat, h: nat)
    requires CanServe(c, s, w, i, cur) && Lag(c, s, h, cur) && s.bus.minResp >= c.t.tCL
    requires s.bus.minResp <= cur + c.t.tCL
    ensures Lag(c, Serve(c, s, w, i, cur), h, cur)
  {
    var s1, r := Serve(c, s, w, i, cur), s.Queue(w)[i];
    var b, k, wm := s.banks[r.bank], c.rankOf(r.bank), WindowMin(c, s, r);
    assert Came(s.Queue(w), cur) && Came(s.Queue(!w), cur);
    assert r in s.Queue(w);
    IssueLag(c, b, s.bus, r, wm, cur, h, KeepsOpen(s.Lists(w)[r.bank]));
    if !RowHit(b, r) {
      assert ActCycle(c.t, b, r, wm) <= cur;
      WindowsAdded(s.windows, k, ActCycle(c.t, b, r, wm), cur);
    }
    hide W.Added, ActCycle, IssuedBank, IssuedBus, IssuedCommands, WindowsLag, FindMinCmdCycle, BankLag, BusAhead,
      PreAhead;
    forall v ensures Came(s1.Queue(v), cur) {
      if v == w { assert forall x | x in Without(s.Queue(w), i) :: x in s.Queue(w); }
    }
  }

  // ----- The next cycle -----

  lemma MinCmdLag(c: Config, s: Channel, r: Request, h: nat, m: nat)
    requires Lag(c, s, h, m) && Shape(c, s) && r.bank < c.numBanks && r.arrival <= m
    ensures MinCmd(c, s, r) <= h + Reach(c)
  {
    var k := c.rankOf(r.bank);
    assert BankLag(c, s.banks[r.bank], h, m);
    assert s.windows[k][0] in s.windows[k];
    hide BanksLag, WindowsLag, Came;
  }

  // The least cycle that the scan reports is that of some request in the queue.
  lemma ScanLag(c: Config, s: Channel, w: bool, cur: nat, h: nat)
    requires CtrlOk(c, s) && Lag(c, s, h, cur)
    ensures Scannable(c, s) && NextLag(c, Scan(c, s, w, cur, 0, None).1, h)
  {
    hide CtrlOk, Scan, MinCmd, SideOk, FrFcfs, Lag, Reach, IsHead;
    Facts(c, s, w);
    ScanLeast(c, s, w, cur, 0, None);
    var q, m := s.Queue(w), Scan(c, s, w, cur, 0, None).1;
    if m.Some? {
      var k :| 0 <= k < |q| && IsHead(s, w, q[k]) && q[k].bank < c.numBanks && m == Some(MinCmd(c, s, q[k]));
      ArrivedBefore(c, s, w, k, h, cur);
      MinCmdLag(c, s, q[k], h, cur);
    }
  }

  lemma ArrivedBefore(c: Config, s: Channel, w: bool, k: nat, h: nat, m: nat)
    requires Lag(c, s, h, m) && k < |s.Queue(w)|
    ensures s.Queue(w)[k].arrival <= m
  {
    assert Came(s.Queue(w), m);
  }

  lemma LagBus(c: Config, s: Channel, h: nat, m: nat)
    requires Lag(c, s, h, m)
    ensures s.bus.minResp <= h && m <= h
  {
  }

  lemma TryScheduleLag(c: Config, s: Channel, cur: nat, h: nat)
    requires CtrlOk(c, s) && Lag(c, s, h, cur)
    ensures Scannable(c, s)
    ensures var (s1, m) := TrySchedule(c, s, cur);
            Lag(c, s1, h, cur) && NextLag(c, m, h)
  {
    hide CtrlOk, Scan, PicksWriteQueue, Serve, SideOk, FrFcfs, Lag, Reach;
    Facts(c, s, true);
    ReadyIsHead(c, s, cur);
    LagBus(c, s, h, cur);
    var w, i := PicksWriteQueue(c, s), Ready(c, s, cur);
    if i.Some? {
      ServeLag(c, s, w, i.value, cur, h);
      LagBus(c, Serve(c, s, w, i.value, cur), h, cur);
    } else {
      ScanLag(c, s, w, cur, h);
    }
  }

  // ----- Queueing -----

  lemma QueueInLag(c: Config, s: Channel, r: Request, h: nat, m: nat)
    requires Lag(c, s, h, m) && Scannable(c, s) && r.bank < c.numBanks
    ensures Lag(c, QueueIn(c, s, r, m), h, m)
  {
    hide Place, BanksLag, WindowsLag;
    QueueInRest(c, s, r, m);
    assert Came(s.Queue(true), m) && Came(s.Queue(false), m);
  }

  lemma OverflowLag(c: Config, s: Channel, o: seq<Request>, x: Option<nat>, h: nat, m: nat)
    requires Lag(c, s, h, m)
    ensures Lag(c, s.(overflow := o, nextSched := x), h, m)
  {
    assert Came(s.Queue(true), m) && Came(s.Queue(false), m);
  }

  lemma StoredLag(c: Config, s: Channel, r: Request, h: nat, m: nat)
    requires Lag(c, s, h, m) && Shape(c, s) && r.bank < c.numBanks
    ensures MinCmd(c, s, Stored(c, s, r, m)) <= h + Reach(c)
  {
    hide Place, Lag, MinCmd;
    MinCmdLag(c, s, Stored(c, s, r, m), h, m);
  }

  lemma RefillLag(c: Config, s: Channel, least: Option<nat>, m: nat, h: nat)
    requires CtrlOk(c, s) && Lag(c, s, h, m) && NextLag(c, least, h)
    ensures var (s1, next) := Refill(c, s, least, m); Lag(c, s1, h, m) && NextLag(c, next, h)
  {
    hide CtrlOk, QueueIn, MinCmd, Place, SideOk, FrFcfs, Lag, GoesFirst, Stored;
    Facts(c, s, true);
    LagBus(c, s, h, m);
    if !s.Full(c.queueDepth) && s.overflow != [] {
      OverflowBank(c, s);
      var s0 := s.(overflow := s.overflow[1..]);
      OverflowOk(c, s, s.overflow[1..]);
      Facts(c, s0, true);
      OverflowLag(c, s, s.overflow[1..], s.nextSched, h, m);
      QueueInLag(c, s0, s.overflow[0], h, m);
      StoredLag(c, s, s.overflow[0], h, m);
    }
  }

  lemma TickLag(c: Config, s: Channel, at: nat, h: nat)
    requires c.sysFreq > 0
    requires CtrlOk(c, s) && Lag(c, s, h, SysToMem(at, c.sysFreq, c.memFreq))
    ensures Scannable(c, s)
    ensures var s1 := Tick(c, s, at).0;
            Lag(c, s1, h, SysToMem(at, c.sysFreq, c.memFreq)) && NextLag(c, s1.nextSched, h)
  {
    hide CtrlOk, TrySchedule, Refill, SideOk, FrFcfs, MatchingMemToSys, Lag;
    Facts(c, s, true);
    var cur := SysToMem(at, c.sysFreq, c.memFreq);
    hide SysToMem;
    TryScheduleOk(c, s, cur);
    TryScheduleLag(c, s, cur, h);
    var (s1, m1) := TrySchedule(c, s, cur);
    Facts(c, s1, true);
    RefillLag(c, s1, m1, cur, h);
    var s2 := Refill(c, s1, m1, cur).0;
    var s3 := Tick(c, s, at).0;
    OverflowLag(c, s2, s2.overflow, s3.nextSched, h, cur);
    assert s2.(overflow := s2.overflow, nextSched := s3.nextSched) == s3;
  }

  lemma EnqueueLag(c: Config, s: Channel, r: Request, at: nat, h: nat)
    requires c.sysFreq > 0
    requires CtrlOk(c, s) && r.bank < c.numBanks && Lag(c, s, h, SysToMem(at, c.sysFreq, c.memFreq))
    requires NextLag(c, s.nextSched, h)
    ensures var s1 := Enqueue(c, s, r, at).0;
            Lag(c, s1, h, SysToMem(at, c.sysFreq, c.memFreq)) && NextLag(c, s1.nextSched, h)
  {
    hide CtrlOk, QueueIn, MinCmd, GoesFirst, Stored, SideOk, FrFcfs, MatchingMemToSys, Lag;
    Facts(c, s, true);
    var m := SysToMem(at, c.sysFreq, c.memFreq);
    hide SysToMem;
    LagBus(c, s, h, m);
    if s.Full(c.queueDepth) {
      OverflowLag(c, s, s.overflow + [r], s.nextSched, h, m);
      assert s.(overflow := s.overflow + [r], nextSched := s.nextSched) == s.(overflow := s.overflow + [r]);
    } else {
      var s0, s1 := QueueIn(c, s, r, m), Enqueue(c, s, r, at).0;
      QueueInLag(c, s, r, h, m);
      QueueInRest(c, s, r, m);
      StoredLag(c, s, r, h, m);
      OverflowLag(c, s0, s0.overflow, s1.nextSched, h, m);
      assert s0.(overflow := s0.overflow, nextSched := s1.nextSched) == s1;
    }
  }

  // ----- Refreshing -----

  lemma {:induction false} MaxPreAtMost(banks: seq<BankState>, m: nat, u: nat)
    requires m <= u && forall b | 0 <= b < |banks| :: banks[b].minPre <= u && banks[b].lastCmd <= u
    ensures MaxPre(banks, m) <= u
  {
    if banks != [] { MaxPreAtMost(banks[..|banks| - 1], m, u); }
  }

  lemma RefreshLag(c: Config, s: Channel, at: nat, h: nat)
    requires c.sysFreq > 0 && Lag(c, s, h, SysToMem(at, c.sysFreq, c.memFreq))
    requires RefreshDone(c.t, s.banks, SysToMem(at, c.sysFreq, c.memFreq)) >= c.t.tRP
    ensures RefreshDone(c.t, s.banks, SysToMem(at, c.sysFreq, c.memFreq)) <= h + c.t.tRFC
    ensures Lag(c, Refresh(c, s, at), h + c.t.tRFC, SysToMem(at, c.sysFreq, c.memFreq))
  {
    var m := SysToMem(at, c.sysFreq, c.memFreq);
    hide SysToMem;
    forall b | 0 <= b < |s.banks| ensures s.banks[b].minPre <= h && s.banks[b].lastCmd <= h {
      assert BankLag(c, s.banks[b], h, m);
    }
    MaxPreAtMost(s.banks, m, h);
    var s1 := Refresh(c, s, at);
    assert Came(s.Queue(true), m) && Came(s.Queue(false), m);
    hide WindowsLag, Came;
    forall b | 0 <= b < |s1.banks| ensures BankLag(c, s1.banks[b], h + c.t.tRFC, m) {
      assert BankLag(c, s.banks[b], h, m);
    }
  }
}
