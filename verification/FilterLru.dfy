// What the time stamps of the first-level cache stand for: when each line was last used; and so which line is replaced.
module FilterLru {
  import opened Options
  import opened CoherenceControllers
  import opened FilterState
  import opened FilterProofs
  import opened FilterTheorems

  // ----- One set -----

  // The first of the ways with the least score.
  lemma {:induction false} RankIsFirst(s: seq<Slot>, i: nat, best: nat)
    requires best < i <= |s|
    requires forall w | 0 <= w < i :: Score(s[best]) <= Score(s[w]) && (w < best ==> Score(s[best]) < Score(s[w]))
    ensures var v := RankFrom(s, i, best);
            forall w | 0 <= w < |s| :: Score(s[v]) <= Score(s[w]) && (w < v ==> Score(s[v]) < Score(s[w]))
    decreases |s| - i
  {
    hide Score;
    if i < |s| { RankIsFirst(s, i + 1, if Score(s[i]) < Score(s[best]) then i else best); }
  }

  // The victim is the first invalid way if there is one; otherwise no way has an earlier time stamp.
  lemma VictimIs(s: seq<Slot>, c: nat)
    requires SetOk(s, c) && |s| > 0 && c <= WRAP
    ensures var v := Victim(s);
            && (s[v].st == I ==> forall w | 0 <= w < v :: s[w].st != I)
            && (s[v].st != I ==> forall w | 0 <= w < |s| :: s[w].st != I && s[v].stamp <= s[w].stamp)
  {
    RankIsFirst(s, 1, 0);
    forall w | 0 <= w < |s| ensures Score(s[w]) == if s[w].st != I then s[w].stamp else 0 { FullScore(s, c, w); }
    hide Score;
  }

  // ----- Runs -----

  // The line that a step uses, if any: an access uses its line when it finds it, or when it has evicted another for it.
  function UsedBy(l: L1, step: Step): Option<nat>
    requires Enabled(l, step)
  {
    match step
    case Core(a, load) => if Outcomes(l, a, load).Miss? then None else Some(a)
    case Evicted => Some(l.pending.addr)
    case _ => None
  }

  // The lines used in a run, in order.
  ghost function Uses(l: L1, steps: seq<Step>): seq<nat>
    requires Possible(l, steps)
    decreases |steps|
  {
    if steps == [] then []
    else
      var u := UsedBy(l, steps[0]);
      (if u.Some? then [u.value] else []) + Uses(Apply(l, steps[0]), steps[1..])
  }

  // Use k is the last one of line a.
  predicate LastUse(uses: seq<nat>, a: nat, k: nat) {
    k < |uses| && uses[k] == a && forall j | k < j < |uses| :: uses[j] != a
  }

  predicate SlotUsed(uses: seq<nat>, s: Slot) {
    s.stamp > 0 ==> LastUse(uses, s.addr, s.stamp - 1)
  }

  ghost predicate Tracks(uses: seq<nat>, l: L1) {
    l.clock == |uses| + 1 && forall x, w | 0 <= x < |l.sets| && 0 <= w < |l.sets[x]| :: SlotUsed(uses, l.sets[x][w])
  }

  // A line with a time stamp is in its own set.
  ghost predicate AtHome(l: L1) {
    |l.sets| > 0 && forall x, w | 0 <= x < |l.sets| && 0 <= w < |l.sets[x]| && l.sets[x][w].stamp > 0 ::
      l.sets[x][w].addr % |l.sets| == x
  }

  ghost predicate Tracked(uses: seq<nat>, l: L1) {
    AtHome(l) && Tracks(uses, l)
  }

  // The line that is used gets the present time; the other lines keep theirs.
  lemma TouchTracks(uses: seq<nat>, l: L1, l1: L1, x: nat, w: nat, sl: Slot)
    requires Tracked(uses, l) && x < |l.sets| && w < |l.sets[x]|
    requires l1.sets == l.sets[x := l.sets[x][w := sl]] && l1.clock == l.clock + 1
    requires sl.stamp == l.clock && sl.addr % |l.sets| == x
    requires forall v | 0 <= v < |l.sets[x]| && v != w :: l.sets[x][v].addr != sl.addr
    ensures Tracked(uses + [sl.addr], l1)
  {
    var after := uses + [sl.addr];
    forall y, v | 0 <= y < |l1.sets| && 0 <= v < |l1.sets[y]| ensures SlotUsed(after, l1.sets[y][v]) {
      if y == x && v == w {
      } else {
        var o := l1.sets[y][v];
        assert o == l.sets[y][v] && SlotUsed(uses, o);
        if o.stamp > 0 { assert o.addr % |l.sets| == y && o.addr != sl.addr; }
      }
    }
    forall y, v | 0 <= y < |l1.sets| && 0 <= v < |l1.sets[y]| && l1.sets[y][v].stamp > 0
      ensures l1.sets[y][v].addr % |l1.sets| == y
    {
      if y != x || v != w { assert l1.sets[y][v] == l.sets[y][v]; }
    }
  }

  lemma StateTracks(uses: seq<nat>, l: L1, l1: L1, x: nat, w: nat, st: State)
    requires Tracked(uses, l) && x < |l.sets| && w < |l.sets[x]|
    requires l1.sets == l.sets[x := l.sets[x][w := l.sets[x][w].(st := st)]] && l1.clock == l.clock
    ensures Tracked(uses, l1)
  {
    forall y, v | 0 <= y < |l1.sets| && 0 <= v < |l1.sets[y]|
      ensures SlotUsed(uses, l1.sets[y][v]) && (l1.sets[y][v].stamp > 0 ==> l1.sets[y][v].addr % |l1.sets| == y)
    {
      var o := l.sets[y][v];
      assert SlotUsed(uses, o);
      assert l1.sets[y][v].addr == o.addr && l1.sets[y][v].stamp == o.stamp;
    }
  }

  // No other way of the set has the address that a lookup has found, unless it is the 0 of unused ways.
  lemma FoundOnce(l: L1, a: nat)
    requires CacheOk(l) && a > 0 && Lookup(l.sets[SetOf(l, a)], a).Some?
    ensures var s, w := l.sets[SetOf(l, a)], Lookup(l.sets[SetOf(l, a)], a).value;
            forall v | 0 <= v < |s| && v != w :: s[v].addr != a
  {
    assert SetOk(l.sets[SetOf(l, a)], l.clock);
  }

  lemma BeginTracks(uses: seq<nat>, l: L1, a: nat, load: bool)
    requires CacheOk(l) && Tracked(uses, l) && Enabled(l, Core(a, load))
    ensures Tracked(uses + (if Outcomes(l, a, load).Miss? then [] else [a]), Begin(l, a, load))
  {
    var x, l1 := SetOf(l, a), Begin(l, a, load);
    var r := Lookup(l.sets[x], a);
    hide AtHome, Tracks, SetOk, PendingOk;
    if r.Some? {
      FoundOnce(l, a);
      TouchTracks(uses, l, l1, x, r.value, l1.sets[x][r.value]);
    } else {
      SameTracks(uses, l, l1);
      assert uses + [] == uses;
    }
  }

  lemma SameTracks(uses: seq<nat>, l: L1, l1: L1)
    requires Tracked(uses, l) && l1.sets == l.sets && l1.clock == l.clock
    ensures Tracked(uses, l1)
  {
  }

  lemma EvictedTracks(uses: seq<nat>, l: L1)
    requires CacheOk(l) && Tracked(uses, l) && Enabled(l, Evicted)
    ensures Tracked(uses + [l.pending.addr], EndEviction(l))
  {
    var p, x := l.pending, SetOf(l, l.pending.addr);
    hide AtHome, Tracks, SetOk;
    TouchTracks(uses, l, EndEviction(l), x, p.way, Slot(p.addr, I, l.clock));
  }

  lemma StepTracks(uses: seq<nat>, l: L1, step: Step)
    requires CacheOk(l) && Tracked(uses, l) && Enabled(l, step)
    ensures var u := UsedBy(l, step); Tracked(uses + (if u.Some? then [u.value] else []), Apply(l, step))
  {
    assert uses + [] == uses;
    hide CacheOk, Tracked, Begin, EndEviction, Outcomes;
    match step
    case Core(a, load) => BeginTracks(uses, l, a, load);
    case Evicted => EvictedTracks(uses, l);
    case Fetched(g) =>
      var p := l.pending;
      StateTracks(uses, l, EndFetch(l, g), SetOf(l, p.addr), p.way, g);
    case Inval(a, kind) =>
      var x := SetOf(l, a);
      var w := Lookup(l.sets[x], a).value;
      StateTracks(uses, l, Invalidated(l, a, kind), x, w, BottomInvalState(l.sets[x][w].st, kind));
    case ContextSwitch =>
  }

  lemma {:induction false} RunTracks(before: seq<nat>, l: L1, steps: seq<Step>)
    requires CacheOk(l) && Tracked(before, l) && Possible(l, steps)
    ensures CacheOk(Run(l, steps).1) && Tracked(before + Uses(l, steps), Run(l, steps).1)
    decreases |steps|
  {
    hide CacheOk, Tracked, Enabled, Apply, UsedBy, Outcomes;
    if steps == [] {
      assert before + [] == before;
    } else {
      var u := UsedBy(l, steps[0]);
      var now := if u.Some? then [u.value] else [];
      StepCacheOk(l, steps[0]);
      StepTracks(before, l, steps[0]);
      RunTracks(before + now, Apply(l, steps[0]), steps[1..]);
      assert before + now + Uses(Apply(l, steps[0]), steps[1..]) == before + Uses(l, steps);
    }
  }

  lemma RunTracked(sets: nat, ways: nat, steps: seq<Step>)
    requires sets > 0 && ways > 0 && Possible(Start(sets, ways), steps)
    ensures CacheOk(Run(Start(sets, ways), steps).1)
    ensures Tracked(Uses(Start(sets, ways), steps), Run(Start(sets, ways), steps).1)
  {
    var start := Start(sets, ways);
    StartOk(sets, ways);
    assert Tracked([], start);
    hide CacheOk, Tracked, Start, FilterOk, Same;
    RunTracks([], start, steps);
    assert [] + Uses(start, steps) == Uses(start, steps);
  }

  // ----- Theorems -----

  // After any run, the cache has counted the uses, and the time stamp of every line that has one tells its last use.
  lemma StampIsLastUse(sets: nat, ways: nat, steps: seq<Step>, x: nat, w: nat)
    requires sets > 0 && ways > 0 && Possible(Start(sets, ways), steps)
    requires var l := Run(Start(sets, ways), steps).1; x < |l.sets| && w < |l.sets[x]| && l.sets[x][w].stamp > 0
    ensures var l := Run(Start(sets, ways), steps).1;
            LastUse(Uses(Start(sets, ways), steps), l.sets[x][w].addr, l.sets[x][w].stamp - 1)
  {
    var start := Start(sets, ways);
    RunTracked(sets, ways, steps);
    hide CacheOk, Run, Possible, Uses, Start, LastUse;
    SlotTracked(Uses(start, steps), Run(start, steps).1, x, w);
  }

  lemma SlotTracked(uses: seq<nat>, l: L1, x: nat, w: nat)
    requires Tracked(uses, l) && x < |l.sets| && w < |l.sets[x]|
    ensures SlotUsed(uses, l.sets[x][w])
  {
  }

  // The last use of line a is not later than that of line b.
  ghost predicate NotLater(uses: seq<nat>, a: nat, b: nat) {
    exists j: nat, k: nat :: j <= k && LastUse(uses, a, j) && LastUse(uses, b, k)
  }

  lemma EarlierStamp(uses: seq<nat>, a: Slot, b: Slot)
    requires SlotUsed(uses, a) && SlotUsed(uses, b) && 1 <= a.stamp <= b.stamp
    ensures NotLater(uses, a.addr, b.addr)
  {
    assert LastUse(uses, a.addr, a.stamp - 1) && LastUse(uses, b.addr, b.stamp - 1);
  }

  lemma VictimOldest(uses: seq<nat>, l: L1, x: nat, w: nat)
    requires CacheOk(l) && Tracked(uses, l) && |uses| < WRAP && x < |l.sets| && w < |l.sets[x]|
    ensures var s := l.sets[x];
            var v := Victim(s);
            && (s[v].st == I && w < v ==> s[w].st != I)
            && (s[v].st != I ==> s[w].st != I && NotLater(uses, s[v].addr, s[w].addr))
  {
    hide NotLater, SlotUsed, Victim;
    var s := l.sets[x];
    assert SetOk(s, l.clock);
    VictimIs(s, l.clock);
    var v := Victim(s);
    if s[v].st != I {
      assert SlotUsed(uses, s[v]) && SlotUsed(uses, s[w]);
      EarlierStamp(uses, s[v], s[w]);
    }
  }

  // So in every run of less than 2^32 uses, the line that gives way is the first one that is not valid; if all are
  // valid, it is one whose last use is longest ago.
  lemma VictimIsLru(sets: nat, ways: nat, steps: seq<Step>, x: nat, w: nat)
    requires sets > 0 && ways > 0 && Possible(Start(sets, ways), steps)
    requires var l := Run(Start(sets, ways), steps).1; x < |l.sets| && w < |l.sets[x]|
    requires |Uses(Start(sets, ways), steps)| < WRAP
    ensures var uses, s := Uses(Start(sets, ways), steps), Run(Start(sets, ways), steps).1.sets[x];
            var v := Victim(s);
            && (s[v].st == I && w < v ==> s[w].st != I)
            && (s[v].st != I ==> s[w].st != I && NotLater(uses, s[v].addr, s[w].addr))
  {
    var start := Start(sets, ways);
    RunTracked(sets, ways, steps);
    hide CacheOk, Tracked, Run, Possible, Uses, Start, NotLater, Victim;
    VictimOldest(Uses(start, steps), Run(start, steps).1, x, w);
  }
}
