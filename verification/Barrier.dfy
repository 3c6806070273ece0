// The barrier object: a fixed table of threads, a run list edited in place, and counters.
// Every operation runs under the scheduler's lock, so each call is one atomic step; the part of
// join and sync after the lock is released only blocks the caller and changes nothing here.
module JoinLeaveBarrier {
  import opened BarrierState
  import opened BarrierProofs

  class BarrierObject {
    const parallelThreads: nat
    const threadList: array<ThreadSync>
    const runList: array<nat>
    var runListSize: nat
    var curThreadIdx: nat
    var runningThreads: nat
    var leftThreads: int
    var phaseCount: nat
    var callbacks: nat               // how often sched->callback() has been called
    ghost var placed: set<nat>
    ghost var steady: set<nat>
    ghost var turns: seq<nat>

    ghost predicate Shape()
      reads this
    {
      runListSize <= runList.Length && threadList.Length == runList.Length
    }

    ghost function Value(): Barrier
      requires Shape()
      reads this, threadList, runList
    {
      Barrier(parallelThreads, threadList[..], runList[..runListSize], curThreadIdx, runningThreads,
              leftThreads, phaseCount, callbacks, placed, steady, turns)
    }

    ghost predicate Valid()
      reads this, threadList, runList
    {
      Shape() && Ok(Value()) && Settled(Value())
    }

    constructor (parallel: nat, maxThreads: nat)
      requires parallel > 0
      ensures Valid() && parallelThreads == parallel && threadList.Length == maxThreads
      ensures fresh(threadList) && fresh(runList)
      ensures runListSize == callbacks == 0 && In(Value(), OFFLINE) == UpTo(maxThreads)
    {
      parallelThreads := parallel;
      threadList := new ThreadSync[maxThreads](_ => ThreadSync(OFFLINE, 0, 0));
      runList := new nat[maxThreads];
      runListSize, curThreadIdx, runningThreads, leftThreads, phaseCount, callbacks := 0, 0, 0, 0, 0, 0;
      placed, steady, turns := {}, {}, seq(maxThreads, _ => 0);
      new;
      assert forall s | s != OFFLINE :: In(Value(), s) == {};
    }

    // Called with the lock held; t becomes WAITING and may be woken at once.
    method Join(t: nat, draws: seq<nat>)
      requires Valid() && CanJoin(Value(), t) && Draws(draws, threadList.Length)
      modifies this, threadList, runList
      ensures Valid() && Value() == Joined(old(Value()), t, draws)
    {
      ghost var b := Value();
      hide RunListOk, PlacedOk, CountsOk, TurnsOk, In, Joining, CheckRunList, CheckEndPhase;
      JoinFacts(b, t);
      JoiningOk(b, t);
      JoinOk(b, t, draws);
      JoinSelf(t);
      WakeNext(draws);
    }

    method JoinSelf(t: nat)
      requires Shape() && JoinShape(Value(), t)
      modifies this, threadList, runList
      ensures Shape() && Value() == Joining(old(Value()), t)
    {
      if threadList[t].state == OFFLINE {
        Append(t);
      } else {
        leftThreads := leftThreads - 1;
        if curThreadIdx > threadList[t].lastIdx {
          RescheduleSelf(t);
        }
      }
      threadList[t] := threadList[t].(state := WAITING, futexWord := 1);
      steady, turns := steady + {t}, turns[t := 0];
    }

    method Append(t: nat)
      requires Shape() && runListSize < runList.Length
      modifies this`runListSize, this`placed, runList
      ensures Shape() && Value() == old(Value()).(run := old(Value()).run + [t], placed := old(placed) - {t})
    {
      ghost var run: seq<nat> := runList[..runListSize];
      runList[runListSize] := t;
      runListSize := runListSize + 1;
      placed := placed - {t};
      assert runList[..runListSize] == run + [t];
    }

    // Swaps our place on the run list with that of the thread scanned last.
    method RescheduleSelf(t: nat)
      requires Shape() && t < threadList.Length && threadList[t].lastIdx < curThreadIdx <= runListSize
      requires runList[curThreadIdx - 1] < threadList.Length && runList[threadList[t].lastIdx] == t
      modifies this`curThreadIdx, this`placed, runList, threadList
      ensures Shape() && Value() == Reschedule(old(Value()), t)
    {
      ghost var run: seq<nat> := runList[..runListSize];
      var lastIdx := threadList[t].lastIdx;
      curThreadIdx := curThreadIdx - 1;
      var otherTid := runList[curThreadIdx];
      runList[lastIdx] := otherTid;
      runList[curThreadIdx] := t;
      threadList[otherTid] := threadList[otherTid].(lastIdx := lastIdx);
      threadList[t] := threadList[t].(lastIdx := curThreadIdx);
      placed := placed + {otherTid, t};
      assert runList[..runListSize] == run[lastIdx := otherTid][curThreadIdx := t];
    }

    method Leave(t: nat, draws: seq<nat>)
      requires Valid() && CanLeave(Value(), t) && Draws(draws, threadList.Length)
      modifies this, threadList, runList
      ensures Valid() && Value() == Departed(old(Value()), t, draws)
    {
      ghost var b := Value();
      LeavingCounts(b, t);
      LeaveOk(b, t, draws);
      var wasRunning := threadList[t].state == RUNNING;
      LeaveSelf(t);
      if wasRunning {
        WakeNext(draws);
      }
    }

    method LeaveSelf(t: nat)
      requires Shape() && t < threadList.Length && (threadList[t].state == RUNNING ==> runningThreads > 0)
      modifies this, threadList
      ensures Shape() && Value() == Leaving(old(Value()), t)
    {
      if threadList[t].state == RUNNING {
        threadList[t] := threadList[t].(state := LEFT);
        leftThreads := leftThreads + 1;
        runningThreads := runningThreads - 1;
      } else {
        threadList[t] := threadList[t].(state := LEFT);
        leftThreads := leftThreads + 1;
      }
      steady := steady - {t};
    }

    method Sync(t: nat, draws: seq<nat>)
      requires Valid() && CanSync(Value(), t) && Draws(draws, threadList.Length)
      modifies this, threadList, runList
      ensures Valid() && Value() == Synced(old(Value()), t, draws)
    {
      ghost var b := Value();
      SyncingCounts(b, t);
      SyncOk(b, t, draws);
      threadList[t] := threadList[t].(state := WAITING, futexWord := 1);
      runningThreads := runningThreads - 1;
      assert Value() == Syncing(b, t);
      WakeNext(draws);
    }

    method WakeNext(draws: seq<nat>)
      requires Shape() && Ok(Value()) && Draws(draws, threadList.Length)
      modifies this, threadList, runList
      ensures Shape() && old(Scannable(Value()))
      ensures Value() == TryWakeNext(old(Value()), draws)
    {
      ghost var b := Value();
      CheckRunListOk(b);
      ScanRunList();
      ghost var c := Value();
      EndPhaseOk(c, draws);
      EndPhase(draws);
      ScanRunList();
    }

    method ScanRunList()
      requires Shape() && Ok(Value())
      modifies this, threadList
      ensures Shape() && old(Scannable(Value()))
      ensures Value() == CheckRunList(old(Value())) && runListSize == old(runListSize)
    {
      ghost var b := Value();
      hide Ok, CheckRunList, WakeStep, Scannable, WaitersArmed;
      ScanUnfold(b);
      while runningThreads < parallelThreads && curThreadIdx < runListSize
        invariant Shape() && runListSize == old(runListSize) && Ok(Value())
        invariant CheckRunList(Value()) == CheckRunList(b)
        decreases runListSize - curThreadIdx
      {
        ghost var v := Value();
        ScanUnfold(v);
        WakeOne();
        assert Value() == WakeStep(v);
      }
      ScanUnfold(Value());
    }

    // One step of the scan: wake the thread at the scan position if it waits.
    method WakeOne()
      requires Shape() && Scannable(Value()) && WaitersArmed(Value()) && curThreadIdx < runListSize
      modifies this`curThreadIdx, this`runningThreads, this`placed, this`turns, threadList
      ensures Shape() && Value() == WakeStep(old(Value()))
    {
      ghost var b := Value();
      var idx := curThreadIdx;
      curThreadIdx := curThreadIdx + 1;
      var wtid := runList[idx];
      assert wtid == b.run[b.cur];
      if threadList[wtid].state == WAITING {
        assert threadList[wtid].futexWord == 1;  // the compare-and-swap of the wake-up succeeds
        threadList[wtid] := ThreadSync(RUNNING, 0, idx);
        runningThreads := runningThreads + 1;
        placed := placed + {wtid};
        turns := turns[wtid := turns[wtid] + 1];
      }
    }

    method EndPhase(draws: seq<nat>)
      requires Shape() && Ok(Value()) && Draws(draws, threadList.Length)
      modifies this, threadList, runList
      ensures Shape() && old(Scannable(Value()))
      ensures Value() == CheckEndPhase(old(Value()), draws)
    {
      ghost var b := Value();
      if curThreadIdx == runListSize && runningThreads == 0 {
        if leftThreads == runListSize {
          return;
        }
        hide RunListOk, PlacedOk, CountsOk, TurnsOk, In, CheckEndPhase;
        PhaseEndFacts(b);
        StartPhase(draws);
      }
    }

    method StartPhase(draws: seq<nat>)
      requires Shape() && Scannable(Value()) && PhaseOver(Value()) && Draws(draws, threadList.Length)
      requires Rewinding(Rewound(Value())) && leftThreads == |In(Rewound(Value()), LEFT)|
      modifies this, threadList, runList
      ensures Shape() && Value() == CheckEndPhase(old(Value()), draws)
    {
      Rewind();
      if (phaseCount - 1) % 32 == 0 {
        CompactList();
      }
      if parallelThreads < runListSize {
        ShuffleList(draws);
      }
    }

    method Rewind()
      requires Shape()
      modifies this`callbacks, this`curThreadIdx, this`steady, this`turns, this`phaseCount
      ensures Shape() && Value() == Rewound(old(Value())) && phaseCount == old(phaseCount) + 1
    {
      steady, turns := In(Value(), WAITING), seq(threadList.Length, _ => 0);
      callbacks := callbacks + 1;
      curThreadIdx := 0;
      phaseCount := phaseCount + 1;
    }

    // Takes the threads that left off the list, filling each hole with the last entry.
    method CompactList()
      requires Shape() && Scannable(Value()) && Rewinding(Value()) && leftThreads == |In(Value(), LEFT)|
      modifies this`runListSize, this`leftThreads, this`placed, threadList, runList
      ensures Shape() && Value() == Compact(old(Value()), 0).(left := 0)
    {
      hide Rewinding, In, CompactStep, Compact, Ok, RunListOk, PlacedOk, CountsOk, TurnsOk;
      ghost var b := Value();
      CompactOk(b, 0);
      var idx := 0;
      while idx < runListSize
        invariant Shape() && idx <= runListSize && Scannable(Value())
        invariant Compact(Value(), idx) == Compact(b, 0)
        decreases runListSize - idx
      {
        ghost var v := Value();
        CompactUnfold(v, idx);
        var wtid := runList[idx];
        assert wtid == v.run[idx];
        if threadList[wtid].state == LEFT {
          CompactOne(idx);
          assert Value() == CompactStep(v, idx);
        } else {
          idx := idx + 1;
        }
      }
      CompactUnfold(Value(), idx);
      assert |b.run| - runListSize == leftThreads;
      leftThreads := 0;
    }

    method CompactOne(idx: nat)
      requires Shape() && Scannable(Value()) && idx < runListSize
      requires runList[idx] < threadList.Length && threadList[runList[idx]].state == LEFT
      modifies this`runListSize, this`placed, threadList, runList
      ensures Shape() && Value() == CompactStep(old(Value()), idx) && runListSize == old(runListSize) - 1
    {
      ghost var b := Value();
      var wtid := runList[idx];
      threadList[wtid] := threadList[wtid].(state := OFFLINE);
      var stid := runList[runListSize - 1];
      assert stid == b.run[|b.run| - 1];
      runList[idx] := stid;
      threadList[stid] := threadList[stid].(lastIdx := idx);
      runListSize := runListSize - 1;
      placed := (placed + {stid}) - {wtid};
      assert runList[..runListSize] == b.run[idx := stid][..|b.run| - 1];
    }

    // Fisher-Yates; draws[i] is the random index in 0..i drawn for position i.
    method ShuffleList(draws: seq<nat>)
      requires Shape() && Scannable(Value()) && Draws(draws, threadList.Length)
      modifies this`placed, threadList, runList
      ensures Shape() && Value() == Shuffle(old(Value()), |old(Value()).run|, draws)
    {
      ghost var b := Value();
      hide SwapStep;
      var i: nat := runListSize;
      while i > 1
        invariant Shape() && i <= runListSize && Scannable(Value())
        invariant Shuffle(Value(), i, draws) == Shuffle(b, |b.run|, draws)
      {
        i := i - 1;
        SwapEntries(i, draws[i]);
      }
    }

    method SwapEntries(i: nat, j: nat)
      requires Shape() && Scannable(Value()) && i < runListSize && j < runListSize
      modifies this`placed, threadList, runList
      ensures Shape() && Scannable(Value()) && Value() == SwapStep(old(Value()), i, j)
    {
      ghost var b := Value();
      var itid, jtid := runList[i], runList[j];
      assert itid == b.run[i] && jtid == b.run[j];
      runList[i] := jtid;
      runList[j] := itid;
      threadList[itid] := threadList[itid].(lastIdx := j);
      threadList[jtid] := threadList[jtid].(lastIdx := i);
      placed := placed + {itid, jtid};
      assert runList[..runListSize] == b.run[i := jtid][j := itid];
    }
  }
}
