// The memory controller as the program has it: banks, lists and windows updated in place.
module DdrMemory {
  import opened Options
  import opened DdrCycles
  import opened DdrQueue
  import opened DdrTiming
  import opened DdrState
  import opened DdrInvariant
  import W = ActivationWindow

  // Scannable is about nothing but sizes and bank numbers.
  lemma KeepsScannable(c: Config, s: Channel, o: seq<Request>, m: Option<nat>)
    requires Scannable(c, s) && forall r | r in o :: r in s.overflow || r.bank < c.numBanks
    ensures Scannable(c, s.(overflow := o, nextSched := m))
  {
    var s1 := s.(overflow := o, nextSched := m);
    assert forall w :: s1.Queue(w) == s.Queue(w);
  }

  class DDRMemory {
    const c: Config
    var banks: array<BankState>
    var rdReqs: array<seq<Request>>
    var wrReqs: array<seq<Request>>
    var windows: array<seq<nat>>
    var bus: Bus
    var rdQueue: seq<Request>
    var wrQueue: seq<Request>
    var overflowQueue: seq<Request>
    var nextSchedCycle: Option<nat>
    ghost var log: seq<Command>
    ghost var served: seq<Request>
    var stamps: nat

    ghost function Value(): Channel
      reads this, banks, rdReqs, wrReqs, windows
    {
      Channel(banks[..], rdReqs[..], wrReqs[..], bus, windows[..], rdQueue, wrQueue, overflowQueue,
              nextSchedCycle, log, served, stamps)
    }

    ghost predicate Valid()
      reads this, banks, rdReqs, wrReqs, windows
    {
      rdReqs != wrReqs && Scannable(c, Value())
    }

    constructor (config: Config)
      requires config.Ok()
      ensures c == config && Valid() && Value() == Initial(c)
      ensures fresh(banks) && fresh(rdReqs) && fresh(wrReqs) && fresh(windows)
    {
      c := config;
      banks := new BankState[config.numBanks](_ => BankState(false, 0, 0, 0, 0, 0));
      rdReqs := new seq<Request>[config.numBanks](_ => []);
      wrReqs := new seq<Request>[config.numBanks](_ => []);
      windows := new seq<nat>[config.numRanks](_ => [0, 0, 0, 0]);
      bus := Bus(config.t.tCL + config.t.tBL + 1, false);
      rdQueue, wrQueue, overflowQueue, nextSchedCycle, log, served, stamps := [], [], [], None, [], [], 0;
    }

    // Looks back through the list for a request to the same row.
    method FindPlace(q: seq<Request>, r: Request, bank: BankState) returns (pos: nat, hit: nat)
      ensures (pos, hit) == Place(q, r.row, Open(bank), c.rowHitLimit)
      ensures pos <= |q|
    {
      var m := |q| - 1;
      while m >= 0 && q[m].row != r.row
        invariant -1 <= m < |q| && forall i | m < i < |q| :: q[i].row != r.row
      {
        m := m - 1;
      }
      assert m == LastSameRow(q, r.row);
      if m >= 0 {
        if q[m].rowHitSeq < c.rowHitLimit {
          pos, hit := m + 1, q[m].rowHitSeq + 1;  // after the last access to the same row
        } else {
          pos, hit := |q|, 0;  // last, for some fairness
        }
      } else if bank.open && r.row == bank.openRow && bank.curRowHits < c.rowHitLimit && q == [] {
        pos, hit := 0, bank.curRowHits + 1;
      } else {
        pos, hit := |q|, 0;
      }
    }

    method Queue(r: Request, memCycle: nat) returns (first: bool, stored: Request)
      requires Valid() && r.bank < c.numBanks
      modifies this`rdQueue, this`wrQueue, this`stamps, rdReqs, wrReqs
      ensures Valid() && Value() == QueueIn(c, old(Value()), r, memCycle)
      ensures first == GoesFirst(c, old(Value()), r) && stored == Stored(c, old(Value()), r, memCycle)
    {
      var useWrQueue := c.deferredWrites && r.write;
      var reqs := if useWrQueue then wrReqs else rdReqs;
      var q := reqs[r.bank];
      var pos, hit := FindPlace(q, r, banks[r.bank]);
      stored := r.(arrival := memCycle, ev := r.ev && !r.write, stamp := stamps, rowHitSeq := hit);
      first := pos == 0;
      reqs[r.bank] := InsertAt(q, pos, stored);
      if useWrQueue { wrQueue := wrQueue + [stored]; } else { rdQueue := rdQueue + [stored]; }
      stamps := stamps + 1;
      hide Place;
      assert Value() == QueueIn(c, old(Value()), r, memCycle);
      QueueInRest(c, old(Value()), r, memCycle);
    }

    method FindMinCmd(r: Request) returns (m: nat)
      requires Valid() && r.bank < c.numBanks
      ensures m == MinCmd(c, Value(), r)
    {
      var bank := banks[r.bank];
      m := Max(r.arrival, bank.lastCmd + 1);
      if !(r.row == bank.openRow && bank.open) {
        var preCycle := if !bank.open then bank.minPre else Max(r.arrival, bank.minPre);
        var actCycle := Max(r.arrival, Max(preCycle + c.t.tRP, bank.lastAct + c.t.tRRD));
        actCycle := Max(actCycle, windows[c.rankOf(r.bank)][0] + c.t.tFAW);
        m := actCycle + c.t.tRCD;
      }
    }

    method Enqueue(r: Request, sysCycle: nat) returns (wake: Option<nat>)
      requires Valid() && r.bank < c.numBanks
      modifies this, rdReqs, wrReqs
      ensures rdReqs == old(rdReqs) && wrReqs == old(wrReqs) && banks == old(banks) && windows == old(windows)
      ensures Valid() && (Value(), wake) == DdrState.Enqueue(c, old(Value()), r, sysCycle)
    {
      hide QueueIn, GoesFirst, FindMinCmdCycle, SysToMem, MatchingMemToSys, Place;
      wake := None;
      var memCycle := SysToMem(sysCycle, c.sysFreq, c.memFreq);
      if |rdQueue| >= c.queueDepth || |wrQueue| >= c.queueDepth {
        KeepsScannable(c, Value(), overflowQueue + [r], nextSchedCycle);
        overflowQueue := overflowQueue + [r];
      } else {
        var first, stored := Queue(r, memCycle);
        hide Scannable;
        if first {
          var minSched := Max(memCycle, bus.minResp - c.t.tCL - c.t.tBL);
          if Later(nextSchedCycle, minSched) {
            var m := FindMinCmd(stored);
            minSched := Max(minSched, m);
          }
          if Later(nextSchedCycle, minSched) {
            wake := Some(Max(MatchingMemToSys(minSched, c.sysFreq, c.memFreq), sysCycle));
            KeepsScannable(c, Value(), overflowQueue, Some(minSched));
            nextSchedCycle := Some(minSched);
          }
        }
      }
    }

    // What issuing r does to its bank and to the data bus.
    method IssueCycles(b: BankState, r: Request, windowMin: nat, cur: nat, keepOpen: bool)
      returns (bank: BankState, newBus: Bus)
      requires bus.minResp >= c.t.tCL
      ensures bank == IssuedBank(c.t, b, bus, r, windowMin, cur, c.closedPage, keepOpen)
      ensures newBus == IssuedBus(c.t, b, bus, r, windowMin, cur)
    {
      hide Max;
      bank := b;
      var minCmd := Max(cur, bus.minResp - c.t.tCL);
      if bus.lastWasWrite && !r.write { minCmd := Max(minCmd, bus.minResp + c.t.tWTR); }
      if !(r.row == bank.openRow && bank.open) {
        var preCycle := if !bank.open then bank.minPre else Max(r.arrival, bank.minPre);
        var actCycle := Max(r.arrival, Max(preCycle + c.t.tRP, bank.lastAct + c.t.tRRD));
        actCycle := Max(actCycle, windowMin + c.t.tFAW);
        if bank.open { bank := bank.(minPre := preCycle + c.t.tRAS); }
        bank := bank.(open := true, openRow := r.row, lastAct := actCycle);
        minCmd := Max(minCmd, actCycle + c.t.tRCD);
      }
      var cmdCycle := Max(minCmd, bus.minResp - c.t.tCL);
      newBus := Bus(cmdCycle + c.t.tCL + c.t.tBL, r.write);
      if c.closedPage && !keepOpen { bank := bank.(open := false); }
      var recovery := if r.write then newBus.minResp + c.t.tWR else cmdCycle + c.t.tRTP;
      bank := bank.(minPre := Max(bank.minPre, Max(bank.lastAct + c.t.tRAS, recovery)),
                    lastCmd := cmdCycle, curRowHits := r.rowHitSeq);
    }

    // Request i of the chosen queue, the head of its bank list, is issued and leaves both.
    method Issue(isWriteQueue: bool, i: nat, cur: nat)
      requires Valid() && CanServe(c, Value(), isWriteQueue, i, cur)
      modifies this`bus, this`rdQueue, this`wrQueue, this`log, this`served, banks, rdReqs, wrReqs, windows
      ensures Valid() && Value() == Serve(c, old(Value()), isWriteQueue, i, cur)
    {
      ghost var v := Value();
      ServeShape(c, v, isWriteQueue, i, cur);
      var r := (if isWriteQueue then wrQueue else rdQueue)[i];
      var rank, l := c.rankOf(r.bank), if isWriteQueue then wrReqs[r.bank] else rdReqs[r.bank];
      Record(r, rank, cur, KeepsOpen(l));
      hide IssuedBank, IssuedBus, IssuedCommands, ActCycle, W.Added, CanServe, Scannable, RowHit;
      Dequeue(isWriteQueue, i);
      assert Value() == Serve(c, v, isWriteQueue, i, cur);
    }

    // Bank, bus and activation window after r has been issued.
    method Record(r: Request, rank: nat, cur: nat, keepOpen: bool)
      requires r.bank < banks.Length && rank < windows.Length && |windows[rank]| > 0 && bus.minResp >= c.t.tCL
      modifies this`bus, this`log, this`served, banks, windows
      ensures var v := old(Value());
              var b, wm := v.banks[r.bank], v.windows[rank][0];
              Value() == v.(banks := v.banks[r.bank := IssuedBank(c.t, b, v.bus, r, wm, cur, c.closedPage, keepOpen)],
                            bus := IssuedBus(c.t, b, v.bus, r, wm, cur),
                            windows := if RowHit(b, r) then v.windows
                                       else v.windows[rank := W.Added(v.windows[rank], ActCycle(c.t, b, r, wm))],
                            log := v.log + IssuedCommands(c.t, b, v.bus, r, wm, cur, c.closedPage && !keepOpen),
                            served := v.served + [r])
    {
      hide IssuedBank, IssuedBus, IssuedCommands, ActCycle, W.Added, RowHit;
      var b, wm := banks[r.bank], windows[rank][0];
      var bank, newBus := IssueCycles(b, r, wm, cur, keepOpen);
      log, served := log + IssuedCommands(c.t, b, bus, r, wm, cur, c.closedPage && !keepOpen), served + [r];
      if !RowHit(b, r) { windows[rank] := W.Added(windows[rank], ActCycle(c.t, b, r, wm)); }
      bus := newBus;
      banks[r.bank] := bank;
    }

    method Dequeue(isWriteQueue: bool, i: nat)
      requires rdReqs != wrReqs && i < |Value().Queue(isWriteQueue)|
      requires var b := Value().Queue(isWriteQueue)[i].bank;
               b < |Value().Lists(isWriteQueue)| && Value().Lists(isWriteQueue)[b] != []
      modifies this`rdQueue, this`wrQueue, rdReqs, wrReqs
      ensures var v, w := old(Value()), isWriteQueue;
              var b := v.Queue(w)[i].bank;
              Value() == v.WithQueue(w, Without(v.Queue(w), i)).WithList(w, b, v.Lists(w)[b][1..])
    {
      var b := (if isWriteQueue then wrQueue else rdQueue)[i].bank;
      var reqs := if isWriteQueue then wrReqs else rdReqs;
      if isWriteQueue { wrQueue := Without(wrQueue, i); } else { rdQueue := Without(rdQueue, i); }
      reqs[b] := reqs[b][1..];
    }

    // The first head in the queue that is ready, or the least cycle at which one will be.
    method ScanQueue(isWriteQueue: bool, cur: nat) returns (i: nat, m: Option<nat>)
      requires Valid()
      ensures (i, m) == Scan(c, Value(), isWriteQueue, cur, 0, None)
    {
      var queue := if isWriteQueue then wrQueue else rdQueue;
      var reqs := if isWriteQueue then wrReqs else rdReqs;
      assert queue == Value().Queue(isWriteQueue);
      i, m := 0, None;
      while i < |queue|
        invariant i <= |queue|
        invariant Scan(c, Value(), isWriteQueue, cur, 0, None) == Scan(c, Value(), isWriteQueue, cur, i, m)
      {
        var r := queue[i];
        assert r in queue;
        if reqs[r.bank] != [] && reqs[r.bank][0] == r {
          var minCmd := FindMinCmd(r);
          m := Least(m, minCmd);
          if minCmd <= cur { return; }
        }
        i := i + 1;
      }
    }

    method TrySchedule(cur: nat) returns (m: Option<nat>)
      requires Valid()
      modifies this`bus, this`rdQueue, this`wrQueue, this`log, this`served, banks, rdReqs, wrReqs, windows
      ensures Valid() && (Value(), m) == DdrState.TrySchedule(c, old(Value()), cur)
    {
      if rdQueue == [] && wrQueue == [] { return None; }
      if cur + c.t.tCL < bus.minResp { return Some(bus.minResp - c.t.tCL); }
      var prioWrites := |wrQueue| > 3 * c.queueDepth / 4 || (bus.lastWasWrite && |wrQueue| > c.queueDepth / 4);
      var isWriteQueue := rdQueue == [] || prioWrites;
      ghost var v := Value();
      var i;
      i, m := ScanQueue(isWriteQueue, cur);
      ScanFinds(c, v, isWriteQueue, cur, 0, None);
      hide Scan, Serve, MinCmd, Scannable;
      if i < |if isWriteQueue then wrQueue else rdQueue| {
        Issue(isWriteQueue, i, cur);
        m := if rdQueue == [] && wrQueue == [] then None else Some(bus.minResp - c.t.tCL);
      }
    }

    // Returns the system cycle of the next tick, 0 if there is none.
    method Tick(sysCycle: nat) returns (next: nat)
      requires Valid()
      modifies this, banks, rdReqs, wrReqs, windows
      ensures banks == old(banks) && rdReqs == old(rdReqs) && wrReqs == old(wrReqs) && windows == old(windows)
      ensures Valid() && (Value(), next) == DdrState.Tick(c, old(Value()), sysCycle)
    {
      var memCycle := SysToMem(sysCycle, c.sysFreq, c.memFreq);
      var minSched := TrySchedule(memCycle);
      minSched := TakeOverflow(minSched, memCycle);
      hide DdrState.TrySchedule, Refill, Scannable, SysToMem, MatchingMemToSys;
      KeepsScannable(c, Value(), overflowQueue, minSched);
      nextSchedCycle := minSched;
      match minSched
      case None => next := 0;
      case Some(m) =>
        next := if m >= 1 then Max(MatchingMemToSys(m, c.sysFreq, c.memFreq), sysCycle) else 0;
    }

    // One request from the overflow queue takes a free place.
    method TakeOverflow(least: Option<nat>, memCycle: nat) returns (m: Option<nat>)
      requires Valid()
      modifies this`rdQueue, this`wrQueue, this`overflowQueue, this`stamps, rdReqs, wrReqs
      ensures Valid() && (Value(), m) == Refill(c, old(Value()), least, memCycle)
    {
      m := least;
      if !(|rdQueue| >= c.queueDepth || |wrQueue| >= c.queueDepth) && overflowQueue != [] {
        var r := overflowQueue[0];
        assert r in overflowQueue;
        KeepsScannable(c, Value(), overflowQueue[1..], nextSchedCycle);
        overflowQueue := overflowQueue[1..];
        var first, stored := Queue(r, memCycle);
        hide QueueIn, Stored, Place, MinCmd, Scannable;
        if first {
          var minQueued := Max(memCycle, bus.minResp - c.t.tCL - c.t.tBL);
          if Later(m, minQueued) {
            var minCmd := FindMinCmd(stored);
            m := Some(Max(minQueued, minCmd));
          }
          if Later(m, minQueued) { m := Some(minQueued); }
        }
      }
    }

    method Refresh(sysCycle: nat)
      requires Valid() && c.t.tRFC >= c.t.tRP
      modifies this`log, banks
      ensures Valid() && RefreshDone(c.t, old(banks[..]), SysToMem(sysCycle, c.sysFreq, c.memFreq)) >= c.t.tRP
      ensures Value() == DdrState.Refresh(c, old(Value()), sysCycle)
    {
      var memCycle := SysToMem(sysCycle, c.sysFreq, c.memFreq);
      var minRefresh := memCycle;
      for b := 0 to banks.Length
        invariant minRefresh == MaxPre(banks[..b], memCycle) && log == old(log) && banks[..] == old(banks[..])
      {
        assert banks[..b + 1][..b] == banks[..b];
        minRefresh := Max(minRefresh, Max(banks[b].minPre, banks[b].lastCmd));
      }
      assert banks[..banks.Length] == banks[..] == old(banks[..]);
      assert minRefresh == MaxPre(old(banks[..]), memCycle);
      var done := minRefresh + c.t.tRFC;
      for b := 0 to banks.Length
        invariant log == old(log)
        invariant forall k | 0 <= k < b :: banks[k] == old(banks[k]).(minPre := done - c.t.tRP, open := false)
        invariant forall k | b <= k < banks.Length :: banks[k] == old(banks[k])
      {
        banks[b] := banks[b].(minPre := done - c.t.tRP, open := false);
      }
      log := log + [Ref(done)];
      assert banks[..] == Refreshed(c.t, old(banks[..]), done);
      assert Value().Queue(true) == old(Value()).Queue(true) && Value().Queue(false) == old(Value()).Queue(false);
    }
  }
}
