// When no more requests arrive and no refresh comes in between, the controller's own ticks serve
// everything that waits.
module DdrDrain {
  import opened Options
  import opened DdrCycles
  import opened DdrQueue
  import opened DdrTiming
  import opened DdrState
  import opened DdrInvariant
  import opened DdrWake
  import opened DdrRuns
  import opened DdrTheorems

  function Waiting(s: Channel): nat {
    |s.rdQueue| + |s.wrQueue| + |s.overflow|
  }

  // How far the next tick is from serving: 0 if it will serve, 1 if no head will be ready, 2 if
  // the data bus will not be free.
  function Distance(c: Config, s: Channel, cur: nat): nat
    requires Scannable(c, s)
  {
    if cur + c.t.tCL < s.bus.minResp then 2 else if Ready(c, s, cur).None? then 1 else 0
  }

  // ----- What does not depend on the next wake-up -----

  lemma {:induction false} ScanSame(c: Config, s: Channel, x: Option<nat>, w: bool, cur: nat, i: nat,
                                    least: Option<nat>)
    requires Scannable(c, s) && Scannable(c, s.(nextSched := x)) && i <= |s.Queue(w)|
    ensures Scan(c, s.(nextSched := x), w, cur, i, least) == Scan(c, s, w, cur, i, least)
    decreases |s.Queue(w)| - i
  {
    hide FindMinCmdCycle;
    var q := s.Queue(w);
    if i < |q| {
      assert q[i] in q;
      if IsHead(s, w, q[i]) {
        var m := MinCmd(c, s, q[i]);
        if m > cur { ScanSame(c, s, x, w, cur, i + 1, Least(least, m)); }
      } else {
        ScanSame(c, s, x, w, cur, i + 1, least);
      }
    }
  }

  lemma DistanceSame(c: Config, s: Channel, x: Option<nat>, cur: nat)
    requires Scannable(c, s) && Scannable(c, s.(nextSched := x))
    ensures Distance(c, s.(nextSched := x), cur) == Distance(c, s, cur)
  {
    ScanSame(c, s, x, PicksWriteQueue(c, s), cur, 0, None);
    hide Scan;
  }

  // ----- One tick -----

  lemma ServeShrinks(c: Config, s: Channel, cur: nat)
    requires CtrlOk(c, s)
    ensures var s1 := TrySchedule(c, s, cur).0;
            && |s1.overflow| == |s.overflow|
            && (if Ready(c, s, cur).Some? then Waiting(s1) == Waiting(s) - 1 else s1 == s)
  {
    hide CtrlOk, Scan, PicksWriteQueue, Serve, SideOk, FrFcfs;
    Facts(c, s, true);
    ReadyIsHead(c, s, cur);
    var w, i := PicksWriteQueue(c, s), Ready(c, s, cur);
    if i.Some? {
      ServeFacts(c, s, w, i.value, cur);
      ServedSizes(s, Serve(c, s, w, i.value, cur), w, i.value);
    }
  }

  lemma ServedSizes(s: Channel, s1: Channel, w: bool, i: nat)
    requires Served(s, s1, w, i)
    ensures Waiting(s1) == Waiting(s) - 1 && |s1.overflow| == |s.overflow|
  {
    assert |s1.Queue(w)| == |s.Queue(w)| - 1 && s1.Queue(!w) == s.Queue(!w);
  }

  lemma RefillSizes(c: Config, s: Channel, least: Option<nat>, memCycle: nat)
    requires CtrlOk(c, s)
    ensures var (s1, m) := Refill(c, s, least, memCycle);
            Waiting(s1) == Waiting(s) && (|s1.overflow| < |s.overflow| || (s1 == s && m == least))
  {
    hide CtrlOk, QueueIn, MinCmd, Place, SideOk, FrFcfs;
    Facts(c, s, true);
    if !s.Full(c.queueDepth) && s.overflow != [] {
      OverflowBank(c, s);
      QueueInSizes(c, s.(overflow := s.overflow[1..]), s.overflow[0], memCycle);
    }
  }

  lemma QueueInSizes(c: Config, s: Channel, r: Request, memCycle: nat)
    requires Shape(c, s) && r.bank < c.numBanks
    ensures var s1 := QueueIn(c, s, r, memCycle);
            Waiting(s1) == Waiting(s) + 1 && s1.overflow == s.overflow
  {
    hide Place;
  }

  // A tick at which the bus is not free asks for one at which it is; one at which no head is
  // ready asks for one that serves.
  lemma CloserNext(c: Config, s: Channel, cur: nat)
    requires CtrlOk(c, s) && (s.rdQueue != [] || s.wrQueue != []) && Ready(c, s, cur).None?
    ensures var m := TrySchedule(c, s, cur).1;
            m.Some? && Scannable(c, s) && Distance(c, s, m.value) < Distance(c, s, cur)
  {
    hide CtrlOk, Scan, PicksWriteQueue, Scannable, SideOk, FrFcfs;
    Facts(c, s, true);
    if cur + c.t.tCL >= s.bus.minResp {
      IdleTickOnlyOnce(c, s, cur);
      ReadyNotFar(c, s, TrySchedule(c, s, cur).1.value);
    }
  }

  lemma ReadyNotFar(c: Config, s: Channel, cur: nat)
    requires Scannable(c, s) && Ready(c, s, cur).Some?
    ensures Distance(c, s, cur) == 0
  {
    hide Scan;
  }

  // Every tick comes closer: fewer requests wait, or fewer in the overflow queue, or the next tick
  // is closer to serving one.
  lemma TickCloser(c: Config, s: Channel, at: nat)
    requires CtrlOk(c, s) && (s.rdQueue != [] || s.wrQueue != [])
    ensures Scannable(c, s)
    ensures var cur := SysToMem(at, c.sysFreq, c.memFreq);
            var (s1, next) := Tick(c, s, at);
            || Waiting(s1) < Waiting(s)
            || (Waiting(s1) == Waiting(s) && |s1.overflow| < |s.overflow|)
            || (Waiting(s1) == Waiting(s) && |s1.overflow| == |s.overflow| && next != 0
                && s1 == s.(nextSched := s1.nextSched)
                && Scannable(c, s1) && s1.nextSched == Some(SysToMem(next, c.sysFreq, c.memFreq))
                && Distance(c, s1, s1.nextSched.value) < Distance(c, s, cur))
  {
    hide CtrlOk, TrySchedule, Refill, Ready, SideOk, FrFcfs, MatchingMemToSys, Distance;
    Facts(c, s, true);
    var cur := SysToMem(at, c.sysFreq, c.memFreq);
    hide SysToMem;
    TickOk(c, s, at);
    TryScheduleOk(c, s, cur);
    ServeShrinks(c, s, cur);
    var (s1, m1) := TrySchedule(c, s, cur);
    Facts(c, s1, true);
    RefillSizes(c, s1, m1, cur);
    var (s2, m2) := Refill(c, s1, m1, cur);
    var (s3, next) := Tick(c, s, at);
    assert s3 == s2.(nextSched := m2);
    if Ready(c, s, cur).None? && s2 == s1 {
      CloserNext(c, s, cur);
      Facts(c, s3, true);
      DistanceSame(c, s, m2, m1.value);
    }
  }

  // ----- All ticks -----

  lemma TickKeeps(c: Config, s: Channel, at: nat)
    requires CtrlOk(c, s)
    ensures Scannable(c, s) && CtrlOk(c, Tick(c, s, at).0)
  {
    hide Tick, SidesOk, ChannelOk, OpenIsWanted, HitsOk;
    TickOk(c, s, at);
  }

  // k ticks, each at the system cycle the one before it has asked for, the first one at `at`.
  ghost function AfterTicks(c: Config, s: Channel, at: nat, k: nat): Channel
    requires CtrlOk(c, s)
    decreases k
  {
    hide CtrlOk, Tick, Scannable;
    TickKeeps(c, s, at);
    if k == 0 then s
    else
      var (s1, next) := Tick(c, s, at);
      if next == 0 then s1 else AfterTicks(c, s1, next, k - 1)
  }

  // Some number of ticks serves every request, the overflow queue included.
  lemma {:induction false} EverythingServed(c: Config, s: Channel, at: nat) returns (k: nat)
    requires CtrlOk(c, s) && (s.rdQueue != [] || s.wrQueue != [])
    ensures var r := AfterTicks(c, s, at, k);
            Waiting(r) == 0 && Ids(r.served) == Accounted(s)
    decreases Waiting(s), |s.overflow|, SomeDistance(c, s, at)
  {
    hide CtrlOk, Tick, Scannable, SysToMem, Ids, Accounted;
    Facts(c, s, true);
    TickOk(c, s, at);
    TickCloser(c, s, at);
    TickAccounts(c, s, at);
    var (s1, next) := Tick(c, s, at);
    if s1.rdQueue == [] && s1.wrQueue == [] {
      k := 1;
      assert AfterTicks(c, s1, next, 0) == s1;
      ServedAll(s1);
    } else {
      var rest := EverythingServed(c, s1, next);
      k := rest + 1;
      Facts(c, s1, true);
    }
  }

  lemma ServedAll(s: Channel)
    requires Waiting(s) == 0
    ensures Ids(s.served) == Accounted(s)
  {
  }

  ghost function SomeDistance(c: Config, s: Channel, at: nat): nat
    requires CtrlOk(c, s)
  {
    Distance(c, s, SysToMem(at, c.sysFreq, c.memFreq))
  }
}
