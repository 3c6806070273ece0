// The data bus of a memory channel: finding a free slot among the logged intervals, and logging
// the interval taken.
module DataBus {

  datatype Interval = Interval(first: nat, last: nat)

  // tTrans: data length; tRTRS: turnaround time after each transfer; depth: length of the log;
  // powerDown: how long a rank idles before it powers down, 0 for never; tXP: the time to power up.
  datatype Params = Params(tTrans: nat, tRTRS: nat, depth: nat, powerDown: nat, tXP: nat) {
    predicate Ok() {
      tTrans > 0 && depth >= 1
    }

    // From the start of a transfer to its critical word.
    function TransCrit(): nat {
      tTrans / 4
    }

    function Slot(): nat {
      tTrans + tRTRS
    }
  }

  function End(p: Params, b: Interval): nat {
    b.last + p.tRTRS
  }

  // The log is in order, its intervals with their turnaround times are disjoint, and each is at
  // least as long as a slot.
  ghost predicate LogOk(p: Params, log: seq<Interval>) {
    && (forall i | 0 <= i < |log| :: log[i].first + p.Slot() <= End(p, log[i]))
    && (forall i, j | 0 <= i < j < |log| :: End(p, log[i]) <= log[j].first)
  }

  // What the search relies on: intervals may overlap, but starts and ends are both in order.
  ghost predicate Searchable(p: Params, log: seq<Interval>) {
    && (forall i | 0 <= i < |log| :: log[i].first + p.Slot() <= End(p, log[i]))
    && (forall i, j | 0 <= i < j < |log| :: log[i].first <= log[j].first && End(p, log[i]) <= End(p, log[j]))
  }

  // A slot that starts at t is in the way of interval b.
  predicate Overlaps(p: Params, t: nat, b: Interval) {
    t < End(p, b) && b.first < t + p.Slot()
  }

  ghost predicate Blocked(p: Params, log: seq<Interval>, t: nat) {
    exists k :: 0 <= k < |log| && Overlaps(p, t, log[k])
  }

  // ----- Finding a slot -----

  function FindFrom(p: Params, log: seq<Interval>, i: nat, t: nat): (start: nat)
    requires i <= |log|
    ensures start >= t
    decreases |log| - i
  {
    if i == |log| then t
    else
      var (busStart, busEnd, tEnd) := (log[i].first, End(p, log[i]), t + p.Slot());
      if (busStart < tEnd && tEnd <= busEnd) || (busStart <= t && t < busEnd) then FindFrom(p, log, i + 1, busEnd)
      else if busStart > tEnd then t
      else FindFrom(p, log, i + 1, t)
  }

  // The slot found starts no earlier than asked, is free, and is the first such slot.
  ghost predicate FirstFree(p: Params, log: seq<Interval>, t0: nat, t: nat) {
    && t0 <= t
    && !Blocked(p, log, t)
    && (forall u: nat | t0 <= u < t :: Blocked(p, log, u))
  }

  ghost predicate Searched(p: Params, log: seq<Interval>, i: nat, t0: nat, t: nat) {
    && i <= |log| && t0 <= t
    && (forall k | 0 <= k < i :: !Overlaps(p, t, log[k]))
    && (forall u: nat | t0 <= u < t :: Blocked(p, log, u))
  }

  lemma SkipInterval(p: Params, log: seq<Interval>, i: nat, t0: nat, t: nat)
    requires p.Ok() && Searchable(p, log) && Searched(p, log, i, t0, t) && i < |log| && Overlaps(p, t, log[i])
    ensures Searched(p, log, i + 1, t0, End(p, log[i]))
  {
    var e := End(p, log[i]);
    forall u: nat | t0 <= u < e ensures Blocked(p, log, u) {
      if u >= t { assert Overlaps(p, u, log[i]); }
    }
  }

  // No interval fits strictly inside a slot, so the two tests of the search find every overlap.
  lemma TestIsExact(p: Params, log: seq<Interval>, i: nat, t: nat)
    requires p.Ok() && Searchable(p, log) && i < |log|
    ensures var (busStart, busEnd, tEnd) := (log[i].first, End(p, log[i]), t + p.Slot());
            (busStart < tEnd && tEnd <= busEnd) || (busStart <= t && t < busEnd) <==> Overlaps(p, t, log[i])
  {
  }

  lemma StopEarly(p: Params, log: seq<Interval>, i: nat, t0: nat, t: nat)
    requires p.Ok() && Searchable(p, log) && Searched(p, log, i, t0, t) && i < |log| && log[i].first > t + p.Slot()
    ensures FirstFree(p, log, t0, t)
  {
    forall k | i <= k < |log| ensures !Overlaps(p, t, log[k]) {
      assert log[i].first <= log[k].first;
    }
  }

  lemma {:induction false} FindFromOk(p: Params, log: seq<Interval>, i: nat, t0: nat, t: nat)
    requires p.Ok() && Searchable(p, log) && Searched(p, log, i, t0, t)
    ensures FirstFree(p, log, t0, FindFrom(p, log, i, t))
    decreases |log| - i
  {
    if i < |log| {
      TestIsExact(p, log, i, t);
      if Overlaps(p, t, log[i]) {
        SkipInterval(p, log, i, t0, t);
        FindFromOk(p, log, i + 1, t0, End(p, log[i]));
      } else if log[i].first > t + p.Slot() {
        StopEarly(p, log, i, t0, t);
      } else {
        FindFromOk(p, log, i + 1, t0, t);
      }
    }
  }

  // ----- Logging an interval -----

  // Where a new interval belongs in the sorted log.
  function Inserted(log: seq<Interval>, b: Interval): (r: seq<Interval>)
    ensures |r| == |log| + 1
  {
    if log == [] then [b]
    else if Less(b, log[|log| - 1]) then Inserted(log[..|log| - 1], b) + [log[|log| - 1]]
    else log + [b]
  }

  predicate Less(a: Interval, b: Interval) {
    a.first < b.first || (a.first == b.first && a.last < b.last)
  }

  // The log without its oldest interval if it has become too long; the next one then stands for
  // everything before it.
  function Trimmed(p: Params, log: seq<Interval>): seq<Interval>
    requires p.Ok()
  {
    if |log| > p.depth then [log[1].(first := 0)] + log[2..] else log
  }

  function Updated(p: Params, log: seq<Interval>, b: Interval): seq<Interval>
    requires p.Ok()
  {
    Trimmed(p, Inserted(log, b))
  }

  lemma AppendOk(p: Params, log: seq<Interval>, b: Interval)
    requires LogOk(p, log) && b.first + p.Slot() <= End(p, b)
    requires forall i | 0 <= i < |log| :: End(p, log[i]) <= b.first
    ensures LogOk(p, log + [b])
  {
  }

  lemma {:induction false} InsertedMembers(log: seq<Interval>, b: Interval, x: Interval)
    ensures x in Inserted(log, b) <==> x in log || x == b
  {
    if log != [] {
      assert log == log[..|log| - 1] + [log[|log| - 1]];
      if Less(b, log[|log| - 1]) { InsertedMembers(log[..|log| - 1], b, x); }
    }
  }

  // A free slot goes between the intervals before and after it.
  lemma {:induction false} InsertedOk(p: Params, log: seq<Interval>, t: nat)
    requires p.Ok() && LogOk(p, log) && !Blocked(p, log, t)
    ensures LogOk(p, Inserted(log, Interval(t, t + p.tTrans)))
  {
    var b := Interval(t, t + p.tTrans);
    if log == [] {
    } else if Less(b, log[|log| - 1]) {
      var rest := log[..|log| - 1];
      assert !Blocked(p, rest, t) by { assert forall k | 0 <= k < |rest| :: rest[k] == log[k]; }
      InsertedOk(p, rest, t);
      assert !Overlaps(p, t, log[|log| - 1]);
      EndsBefore(p, rest, log[|log| - 1], b);
      AppendOk(p, Inserted(rest, b), log[|log| - 1]);
    } else {
      assert !Overlaps(p, t, log[|log| - 1]);
      AppendOk(p, log, b);
    }
  }

  lemma EndsBefore(p: Params, rest: seq<Interval>, last: Interval, b: Interval)
    requires p.Ok() && (forall i | 0 <= i < |rest| :: End(p, rest[i]) <= last.first)
    requires b.last == b.first + p.tTrans && !Overlaps(p, b.first, last) && Less(b, last)
    requires last.first + p.Slot() <= End(p, last)
    ensures forall x | x in Inserted(rest, b) :: End(p, x) <= last.first
  {
    forall x | x in Inserted(rest, b) ensures End(p, x) <= last.first {
      InsertedMembers(rest, b, x);
    }
  }

  lemma TrimmedOk(p: Params, log: seq<Interval>)
    requires p.Ok() && LogOk(p, log)
    ensures LogOk(p, Trimmed(p, log))
    ensures |log| <= p.depth + 1 ==> |Trimmed(p, log)| <= p.depth
  {
  }

  // ----- The interval that is logged -----

  // An access to a rank, whose command may issue `delay` after its arrival; `wait` is the latency from command to
  // data, `penalty` the time to power the rank up.
  datatype Access = Access(rank: nat, arrival: nat, delay: nat, wait: nat, penalty: nat)

  function SlotStart(p: Params, log: seq<Interval>, a: Access): (start: nat)
    ensures start >= a.arrival + a.delay + a.wait
  {
    FindFrom(p, log, 0, a.arrival + a.delay + a.wait)
  }

  // The program derives the logged interval from the latency it has computed.
  function LoggedInterval(p: Params, a: Access, start: nat): Interval
    requires a.arrival + a.wait <= start
  {
    var issueDelay := start - a.wait - a.arrival;
    var latency := issueDelay + (a.wait + p.TransCrit()) + a.penalty;
    var busEnd := a.arrival + latency + (p.tTrans - p.TransCrit());
    Interval(busEnd - p.tTrans, busEnd)
  }

  // It is the slot that was found exactly if there is no power-down penalty; a penalty shifts it.
  lemma LoggedIsFound(p: Params, a: Access, start: nat)
    requires a.arrival + a.wait <= start
    ensures LoggedInterval(p, a, start) == Interval(start, start + p.tTrans) <==> a.penalty == 0
    ensures LoggedInterval(p, a, start) == Interval(start + a.penalty, start + a.penalty + p.tTrans)
  {
  }

  function Taken(p: Params, log: seq<Interval>, a: Access): Interval {
    LoggedInterval(p, a, SlotStart(p, log, a))
  }

  // ----- Runs of accesses -----

  function After(p: Params, log: seq<Interval>, as_: seq<Access>): seq<Interval>
    requires p.Ok()
    decreases |as_|
  {
    if as_ == [] then log else After(p, Updated(p, log, Taken(p, log, as_[0])), as_[1..])
  }

  // Every interval is one slot long, except that the oldest may have been stretched back to 0.
  ghost predicate Uniform(p: Params, log: seq<Interval>) {
    && Searchable(p, log)
    && forall i | 0 <= i < |log| && (i > 0 || log[i].first > 0) :: End(p, log[i]) == log[i].first + p.Slot()
  }

  // A shifted slot goes in by its start, and its end fits in too: it lies behind a stretched interval.
  lemma {:induction false} InsertedUniform(p: Params, log: seq<Interval>, b: Interval)
    requires p.Ok() && Uniform(p, log) && b.last == b.first + p.tTrans
    requires log != [] && log[0].first == 0 ==> End(p, log[0]) <= End(p, b) && !Less(b, log[0])
    ensures Uniform(p, Inserted(log, b))
  {
    if log != [] && Less(b, log[|log| - 1]) {
      var rest := log[..|log| - 1];
      InsertedUniform(p, rest, b);
      var r := Inserted(rest, b);
      forall x | x in r ensures x.first <= log[|log| - 1].first && End(p, x) <= End(p, log[|log| - 1]) {
        InsertedMembers(rest, b, x);
      }
      hide Inserted, Less;
      UniformPushed(p, r, log[|log| - 1]);
    } else if log != [] {
      UniformPushed(p, log, b);
    }
  }

  lemma UniformPushed(p: Params, log: seq<Interval>, b: Interval)
    requires Uniform(p, log) && log != [] && End(p, b) == b.first + p.Slot()
    requires forall x | x in log :: x.first <= b.first && End(p, x) <= End(p, b)
    ensures Uniform(p, log + [b])
  {
  }

  lemma TrimmedUniform(p: Params, log: seq<Interval>)
    requires p.Ok() && Uniform(p, log) && |log| <= p.depth + 1
    ensures Uniform(p, Trimmed(p, log)) && |Trimmed(p, log)| <= p.depth
  {
  }

  lemma AccessOk(p: Params, log: seq<Interval>, a: Access)
    requires p.Ok() && Uniform(p, log) && |log| <= p.depth
    ensures var log1 := Updated(p, log, Taken(p, log, a));
            && FirstFree(p, log, a.arrival + a.delay + a.wait, SlotStart(p, log, a))
            && Uniform(p, log1) && |log1| <= p.depth
  {
    var t0 := a.arrival + a.delay + a.wait;
    var t, b := SlotStart(p, log, a), Taken(p, log, a);
    FindFromOk(p, log, 0, t0, t0);
    LoggedIsFound(p, a, t);
    if log != [] { assert !Overlaps(p, t, log[0]); }
    InsertedUniform(p, log, b);
    hide FindFrom, Inserted, Searchable, Trimmed, Blocked;
    TrimmedUniform(p, Inserted(log, b));
  }

  lemma {:induction false} EveryLogUniform(p: Params, log: seq<Interval>, as_: seq<Access>)
    requires p.Ok() && Uniform(p, log) && |log| <= p.depth
    ensures Uniform(p, After(p, log, as_)) && |After(p, log, as_)| <= p.depth
    decreases |as_|
  {
    hide Uniform, FindFrom, Inserted, Trimmed;
    if as_ != [] {
      AccessOk(p, log, as_[0]);
      EveryLogUniform(p, Updated(p, log, Taken(p, log, as_[0])), as_[1..]);
    }
  }

  // In every run, with any penalties and so with intervals that overlap, each access gets the first free slot at or
  // after the time it asks for.
  lemma EveryAccessFits(p: Params, as_: seq<Access>, a: Access)
    requires p.Ok()
    ensures var log := After(p, [], as_);
            FirstFree(p, log, a.arrival + a.delay + a.wait, SlotStart(p, log, a))
  {
    EveryLogUniform(p, [], as_);
    AccessOk(p, After(p, [], as_), a);
  }

  // ----- When the logged intervals stay apart -----

  ghost predicate Kept(p: Params, log: seq<Interval>) {
    Uniform(p, log) && LogOk(p, log) && |log| <= p.depth
  }

  // Without a penalty the slot itself is logged.
  lemma UnpenalizedKeeps(p: Params, log: seq<Interval>, a: Access)
    requires p.Ok() && Kept(p, log) && a.penalty == 0
    ensures Kept(p, Updated(p, log, Taken(p, log, a)))
  {
    var t := SlotStart(p, log, a);
    AccessOk(p, log, a);
    LoggedIsFound(p, a, t);
    hide FindFrom, Inserted, LogOk, Uniform, Trimmed, Blocked;
    InsertedOk(p, log, t);
    TrimmedOk(p, Inserted(log, Interval(t, t + p.tTrans)));
  }

  // A log of a single interval has nothing to overlap.
  lemma SingleKeeps(p: Params, log: seq<Interval>, a: Access)
    requires p.Ok() && Kept(p, log) && p.depth == 1
    ensures Kept(p, Updated(p, log, Taken(p, log, a)))
  {
    AccessOk(p, log, a);
    hide Inserted, Taken;
  }

  // An access that arrives after everything in the log goes behind all of it, penalty or not.
  lemma LatestKeeps(p: Params, log: seq<Interval>, a: Access)
    requires p.Ok() && Kept(p, log) && forall i | 0 <= i < |log| :: log[i].last < a.arrival
    ensures Kept(p, Updated(p, log, Taken(p, log, a)))
  {
    var t, b := SlotStart(p, log, a), Taken(p, log, a);
    AccessOk(p, log, a);
    LoggedIsFound(p, a, t);
    forall i | 0 <= i < |log| ensures End(p, log[i]) <= t && log[i].first < t {
      assert !Overlaps(p, t, log[i]);
    }
    AppendOk(p, log, b);
    assert Inserted(log, b) == log + [b];
    TrimmedOk(p, log + [b]);
    hide FindFrom, Inserted, LogOk, Uniform, Trimmed, Blocked, Taken;
  }

  // ----- The rule for penalties -----

  function Later(a: nat, b: nat): nat {
    if a >= b then a else b
  }

  // A rank that has been idle for longer than the power-down time has to be powered up; last[k] is the end of the
  // last transfer of rank k.
  function PowerUp(p: Params, last: seq<nat>, a: Access): nat
    requires a.rank < |last|
  {
    if p.powerDown != 0 && a.arrival > last[a.rank] + p.powerDown then p.tXP else 0
  }

  function LastAfter(p: Params, last: seq<nat>, log: seq<Interval>, a: Access): seq<nat>
    requires a.rank < |last|
  {
    last[a.rank := Later(last[a.rank], Taken(p, log, a).last)]
  }

  // Every access goes to one of the ranks and is charged the penalty of the rule.
  ghost predicate Charged(p: Params, last: seq<nat>, log: seq<Interval>, as_: seq<Access>)
    requires p.Ok()
    decreases |as_|
  {
    as_ == [] || (
      && as_[0].rank < |last| && as_[0].penalty == PowerUp(p, last, as_[0])
      && Charged(p, LastAfter(p, last, log, as_[0]), Updated(p, log, Taken(p, log, as_[0])), as_[1..]))
  }

  function Idle(ranks: nat): seq<nat> {
    seq(ranks, _ => 0)
  }

  // A run of a channel with so many ranks keeps the intervals apart.
  ghost predicate RunKeepsApart(p: Params, ranks: nat, as_: seq<Access>)
    requires p.Ok()
  {
    Charged(p, Idle(ranks), [], as_) ==> LogOk(p, After(p, [], as_))
  }

  // The last transfer of the only rank is the latest in the log.
  ghost predicate Behind(last: seq<nat>, log: seq<Interval>) {
    |last| == 1 && forall i | 0 <= i < |log| :: log[i].last <= last[0]
  }

  lemma BehindStep(p: Params, last: seq<nat>, log: seq<Interval>, a: Access)
    requires p.Ok() && Behind(last, log) && a.rank < |last|
    ensures Behind(LastAfter(p, last, log, a), Updated(p, log, Taken(p, log, a)))
  {
    var b := Taken(p, log, a);
    hide Taken;
    var r := Inserted(log, b);
    forall i | 0 <= i < |r| ensures r[i].last <= Later(last[0], b.last) {
      InsertedMembers(log, b, r[i]);
    }
    hide Inserted;
  }

  ghost predicate Harmless(p: Params, ranks: nat) {
    p.powerDown == 0 || p.tXP == 0 || p.depth == 1 || ranks == 1
  }

  lemma StepKeeps(p: Params, last: seq<nat>, log: seq<Interval>, a: Access)
    requires p.Ok() && Kept(p, log) && a.rank < |last| && a.penalty == PowerUp(p, last, a)
    requires Harmless(p, |last|) && (|last| == 1 ==> Behind(last, log))
    ensures Kept(p, Updated(p, log, Taken(p, log, a)))
  {
    hide Kept, Taken, Updated;
    if a.penalty == 0 {
      UnpenalizedKeeps(p, log, a);
    } else if p.depth == 1 {
      SingleKeeps(p, log, a);
    } else {
      LatestKeeps(p, log, a);
    }
  }

  lemma {:induction false} HarmlessKeeps(p: Params, last: seq<nat>, log: seq<Interval>, as_: seq<Access>)
    requires p.Ok() && Kept(p, log) && Charged(p, last, log, as_)
    requires Harmless(p, |last|) && (|last| == 1 ==> Behind(last, log))
    ensures LogOk(p, After(p, log, as_))
    decreases |as_|
  {
    if as_ != [] {
      StepKeeps(p, last, log, as_[0]);
      if |last| == 1 { BehindStep(p, last, log, as_[0]); }
      hide Kept, Taken, Updated, Behind, Harmless, PowerUp;
      HarmlessKeeps(p, LastAfter(p, last, log, as_[0]), Updated(p, log, Taken(p, log, as_[0])), as_[1..]);
    }
  }

  // Two ranks that have powered down are accessed in the same cycle. The slot of the second access fits in front of
  // the interval of the first, which has been shifted; what is logged for it does not.
  function Clash(p: Params): seq<Access>
    requires p.Ok()
  {
    var at := p.powerDown + 1;
    [Access(0, at, p.Slot() - 1, 0, p.tXP), Access(1, at, 0, 0, p.tXP)]
  }

  lemma FindSingle(p: Params, b: Interval, t: nat)
    requires p.Ok() && b.first >= t + p.Slot()
    ensures FindFrom(p, [b], 0, t) == t
  {
    assert FindFrom(p, [b], 1, t) == t;
  }

  lemma ClashTaken(p: Params)
    requires p.Ok() && p.tXP > 0
    ensures var at, s := p.powerDown + 1, p.Slot() - 1;
            var a := Interval(at + s + p.tXP, at + s + p.tXP + p.tTrans);
            var b := Interval(at + p.tXP, at + p.tXP + p.tTrans);
            Taken(p, [], Clash(p)[0]) == a && Updated(p, [], a) == [a] && Taken(p, [a], Clash(p)[1]) == b
  {
    var at, s := p.powerDown + 1, p.Slot() - 1;
    var a := Interval(at + s + p.tXP, at + s + p.tXP + p.tTrans);
    FindSingle(p, a, at);
    assert Inserted([], a) == [a];
  }

  lemma ClashRun(p: Params)
    requires p.Ok() && p.depth > 1 && p.tXP > 0
    ensures var a := Taken(p, [], Clash(p)[0]);
            var b := Taken(p, [a], Clash(p)[1]);
            After(p, [], Clash(p)) == Inserted([a], b)
  {
    ClashTaken(p);
    var a := Taken(p, [], Clash(p)[0]);
    assert Clash(p)[1..] == [Clash(p)[1]] && Clash(p)[1..][1..] == [];
    var b := Taken(p, [a], Clash(p)[1]);
    hide Taken, FindFrom, Inserted;
    assert After(p, Updated(p, [a], b), []) == Inserted([a], b);
    assert After(p, [a], Clash(p)[1..]) == Inserted([a], b);
  }

  lemma InsertedPair(a: Interval, b: Interval)
    ensures Inserted([a], b) == if Less(b, a) then [b, a] else [a, b]
  {
    assert [a][..0] == [] && Inserted([], b) == [b];
  }

  lemma Clashes(p: Params)
    requires p.Ok() && p.depth > 1 && p.tXP > 0
    ensures !LogOk(p, After(p, [], Clash(p)))
  {
    var at, s := p.powerDown + 1, p.Slot() - 1;
    var a, b := Interval(at + s + p.tXP, at + s + p.tXP + p.tTrans), Interval(at + p.tXP, at + p.tXP + p.tTrans);
    ClashTaken(p);
    ClashRun(p);
    InsertedPair(a, b);
    var r := After(p, [], Clash(p));
    hide After, Inserted, Clash, Taken;
    assert End(p, r[0]) > r[1].first;
  }

  lemma ClashCharged(p: Params, ranks: nat)
    requires p.Ok() && p.tXP > 0 && p.powerDown > 0 && ranks > 1
    ensures Charged(p, Idle(ranks), [], Clash(p))
  {
    var c, last := Clash(p), Idle(ranks);
    ClashTaken(p);
    var log1, last1 := Updated(p, [], Taken(p, [], c[0])), LastAfter(p, last, [], c[0]);
    hide Taken, Updated;
    assert c[1..] == [c[1]] && c[1..][1..] == [];
    assert Charged(p, LastAfter(p, last1, log1, c[1]), Updated(p, log1, Taken(p, log1, c[1])), []);
    assert Charged(p, last1, log1, c[1..]);
  }

  // Under the rule the logged intervals stay apart in all runs exactly if there is nothing to power up, the log holds
  // a single interval, or there is a single rank.
  lemma KeptApartIff(p: Params, ranks: nat)
    requires p.Ok() && ranks > 0
    ensures (forall as_: seq<Access> :: RunKeepsApart(p, ranks, as_)) <==> Harmless(p, ranks)
  {
    hide After, Charged, LogOk, Clash;
    if Harmless(p, ranks) {
      forall as_: seq<Access> ensures RunKeepsApart(p, ranks, as_) {
        if Charged(p, Idle(ranks), [], as_) {
          assert Kept(p, []) by { EmptyKept(p); }
          HarmlessKeeps(p, Idle(ranks), [], as_);
        }
      }
    } else {
      ClashCharged(p, ranks);
      Clashes(p);
      assert !RunKeepsApart(p, ranks, Clash(p));
    }
  }

  lemma EmptyKept(p: Params)
    ensures Kept(p, [])
  {
  }

  // ----- Whatever is charged -----

  predicate MayBeCharged(p: Params, as_: seq<Access>) {
    forall a | a in as_ :: a.penalty == 0 || a.penalty == p.tXP
  }

  lemma {:induction false} MayBeChargedKeeps(p: Params, log: seq<Interval>, as_: seq<Access>)
    requires p.Ok() && Kept(p, log) && MayBeCharged(p, as_) && (p.tXP == 0 || p.depth == 1)
    ensures LogOk(p, After(p, log, as_))
    decreases |as_|
  {
    if as_ != [] {
      hide Kept, Taken, Updated;
      assert as_[0].penalty == 0 || p.depth == 1;
      if p.depth == 1 { SingleKeeps(p, log, as_[0]); } else { UnpenalizedKeeps(p, log, as_[0]); }
      MayBeChargedKeeps(p, Updated(p, log, Taken(p, log, as_[0])), as_[1..]);
    } else {
      assert Kept(p, log);
    }
  }

  // If any access may be charged, whatever the rule, only the first two of these conditions help.
  lemma FreelyChargedIff(p: Params)
    requires p.Ok()
    ensures (forall as_: seq<Access> | MayBeCharged(p, as_) :: LogOk(p, After(p, [], as_)))
            <==> p.tXP == 0 || p.depth == 1
  {
    if p.tXP == 0 || p.depth == 1 {
      forall as_: seq<Access> | MayBeCharged(p, as_) ensures LogOk(p, After(p, [], as_)) {
        hide After, LogOk, MayBeCharged;
        EmptyKept(p);
        MayBeChargedKeeps(p, [], as_);
      }
    } else {
      Clashes(p);
      assert MayBeCharged(p, Clash(p));
    }
  }

  // ----- The channel -----

  class MemChannel {
    const p: Params
    var accessLog: seq<Interval>

    constructor (params: Params)
      requires params.Ok()
      ensures p == params && accessLog == []
    {
      p := params;
      accessLog := [];
    }

    // The cycle at which the column command can issue.
    method CalcInterIssueCycle(wait: nat, arrivalCycle: nat) returns (issue: nat)
      requires p.Ok() && Searchable(p, accessLog)
      ensures issue + wait == FindFrom(p, accessLog, 0, arrivalCycle + wait)
      ensures issue >= arrivalCycle && FirstFree(p, accessLog, arrivalCycle + wait, issue + wait)
    {
      hide Searchable;
      var tStart := arrivalCycle + wait;
      var tEnd := tStart + p.Slot();
      var i := 0;
      while i < |accessLog|
        invariant i <= |accessLog| && tEnd == tStart + p.Slot() && tStart >= arrivalCycle + wait
        invariant FindFrom(p, accessLog, 0, arrivalCycle + wait) == FindFrom(p, accessLog, i, tStart)
        decreases |accessLog| - i
      {
        var busStart, busEnd := accessLog[i].first, accessLog[i].last + p.tRTRS;
        if (busStart < tEnd && tEnd <= busEnd) || (busStart <= tStart && tStart < busEnd) {
          TestIsExact(p, accessLog, i, tStart);
          tStart := busEnd;
          tEnd := tStart + p.Slot();
        } else if busStart > tEnd {
          break;
        }
        i := i + 1;
      }
      FindFromOk(p, accessLog, 0, arrivalCycle + wait, arrivalCycle + wait);
      issue := tStart - wait;
    }

    method UpdateDataBusCycle(start: nat, end: nat)
      requires p.Ok()
      modifies this
      ensures accessLog == Updated(p, old(accessLog), Interval(start, end))
    {
      accessLog := Inserted(accessLog, Interval(start, end));
      if |accessLog| > p.depth {
        accessLog := accessLog[1..];
        accessLog := accessLog[0 := accessLog[0].(first := 0)];
      }
    }
  }
}
