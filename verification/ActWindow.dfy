// The activation window of a rank: a ring buffer of the most recent activations.
module ActivationWindow {

  ghost predicate Sorted(s: seq<nat>) {
    forall i, j | 0 <= i < j < |s| :: s[i] <= s[j]
  }

  function CountGt(s: seq<nat>, v: int): nat {
    if s == [] then 0 else (if s[|s| - 1] > v then 1 else 0) + CountGt(s[..|s| - 1], v)
  }

  // s with x put at its place, scanning from the newest end.
  function Insert(s: seq<nat>, x: nat): (r: seq<nat>)
    ensures |r| == |s| + 1
  {
    if s == [] || s[|s| - 1] <= x then s + [x] else Insert(s[..|s| - 1], x) + [s[|s| - 1]]
  }

  // Every entry but the oldest is newer than x.
  predicate AllNewer(w: seq<nat>, x: nat) {
    |w| > 1 && forall i | 1 <= i < |w| :: w[i] > x
  }

  // What addActivation makes of the window, listed oldest first. When every entry but the oldest
  // is newer than the new activation, the shift loop reads back the slot it overwrote first.
  function Added(w: seq<nat>, x: nat): (r: seq<nat>)
    requires |w| > 0
    ensures |r| == |w|
  {
    if !AllNewer(w, x) then Insert(w[1..], x)
    else [w[|w| - 1]] + w[1..|w| - 1] + [x]
  }

  // ----- Properties of the window -----

  lemma {:induction false} InsertMultiset(s: seq<nat>, x: nat)
    ensures multiset(Insert(s, x)) == multiset(s) + multiset{x}
  {
    if s == [] || s[|s| - 1] <= x {
    } else {
      InsertMultiset(s[..|s| - 1], x);
      assert s == s[..|s| - 1] + [s[|s| - 1]];
    }
  }

  lemma {:induction false} InsertSorted(s: seq<nat>, x: nat)
    requires Sorted(s)
    ensures Sorted(Insert(s, x))
    ensures forall i | 0 <= i <= |s| :: Insert(s, x)[i] <= if s == [] || s[|s| - 1] <= x then x else s[|s| - 1]
  {
    if s == [] || s[|s| - 1] <= x {
    } else {
      InsertSorted(s[..|s| - 1], x);
    }
  }

  // With exactly the last c entries newer than x, x goes in front of them.
  lemma {:induction false} InsertAt(s: seq<nat>, x: nat, c: nat)
    requires c <= |s| && (forall i | |s| - c <= i < |s| :: s[i] > x)
    requires c < |s| ==> s[|s| - c - 1] <= x
    ensures Insert(s, x) == s[..|s| - c] + [x] + s[|s| - c..]
    decreases c
  {
    if c > 0 {
      var r := s[..|s| - 1];
      InsertAt(r, x, c - 1);
      assert r[..|s| - c] == s[..|s| - c] && s[|s| - c..] == r[|s| - c..] + [s[|s| - 1]];
    }
  }

  lemma {:induction false} InsertCount(s: seq<nat>, x: nat, v: int)
    ensures CountGt(Insert(s, x), v) == CountGt(s, v) + (if x > v then 1 else 0)
  {
    if s == [] || s[|s| - 1] <= x {
      assert (s + [x])[..|s|] == s;
    } else {
      InsertCount(s[..|s| - 1], x, v);
      assert Insert(s, x)[..|s|] == Insert(s[..|s| - 1], x);
    }
  }

  lemma {:induction false} InsertFirst(s: seq<nat>, x: nat)
    ensures Insert(s, x)[0] == x || (s != [] && Insert(s, x)[0] == s[0])
  {
    if s == [] || s[|s| - 1] <= x {
    } else if |s| > 1 {
      InsertFirst(s[..|s| - 1], x);
    }
  }

  // The window stays sorted exactly when the activation is not older than the second oldest
  // entry; it holds the right activations in any case.
  lemma AddedSortedIff(w: seq<nat>, x: nat)
    requires |w| > 0 && Sorted(w) && w[0] <= x
    ensures Sorted(Added(w, x)) <==> |w| == 1 || w[1] <= x
    ensures multiset(Added(w, x)) == multiset(w[1..]) + multiset{x}
  {
    var r := Added(w, x);
    if |w| == 1 || w[1] <= x {
      InsertSorted(w[1..], x);
      InsertMultiset(w[1..], x);
    } else {
      assert r[|w| - 1] == x && (|w| > 2 ==> r[|w| - 2] == w[|w| - 2]) && r[0] == w[|w| - 1];
      assert w[1..] == w[1..|w| - 1] + [w[|w| - 1]];
    }
  }

  // An activation older than the second oldest leaves the window out of order, though it comes 25
  // cycles after the oldest: afterwards the oldest entry it reports is the newest it holds.
  lemma OutOfOrderActivation()
    ensures Added([10, 40, 50, 60], 35) == [60, 40, 50, 35]
  {
    var w: seq<nat> := [10, 40, 50, 60];
    assert w[1..3] == [40, 50];
  }

  // ----- Bursts of activations -----

  // How many of s lie in the span of length f that starts at lo.
  function CountIn(s: seq<nat>, lo: int, f: nat): nat {
    if s == [] then 0 else (if lo <= s[|s| - 1] < lo + f then 1 else 0) + CountIn(s[..|s| - 1], lo, f)
  }

  // No more than n activations in any span of length f.
  ghost predicate NoBurst(acts: seq<nat>, n: nat, f: nat) {
    forall t :: CountIn(acts, t, f) <= n
  }

  // The window holds the most recent activations of the history: both agree on how many lie
  // after any point not before the oldest entry.
  ghost predicate Recent(w: seq<nat>, acts: seq<nat>) {
    |w| > 0 && Sorted(w) && forall v | v >= w[0] :: CountGt(w, v) == CountGt(acts, v)
  }

  // However the window is ordered: of the activations in a span of length f, the window holds at
  // least as many at or after the start of the span.
  ghost predicate Covers(w: seq<nat>, acts: seq<nat>, f: nat) {
    |w| > 0 && forall t :: CountIn(acts, t, f) <= CountGt(w, t - 1)
  }

  lemma {:induction false} CountGtTail(s: seq<nat>, v: int)
    requires s != []
    ensures CountGt(s, v) == CountGt(s[1..], v) + (if s[0] > v then 1 else 0)
  {
    if |s| > 1 {
      CountGtTail(s[..|s| - 1], v);
      assert s[1..][..|s| - 2] == s[..|s| - 1][1..];
    }
  }

  lemma {:induction false} CountGtAtMost(s: seq<nat>, v: int)
    ensures CountGt(s, v) <= |s|
  {
    if s != [] { CountGtAtMost(s[..|s| - 1], v); }
  }

  // The oldest entry goes and the new one comes, in every case.
  lemma AddedCount(w: seq<nat>, x: nat, v: int)
    requires |w| > 0
    ensures CountGt(Added(w, x), v) == CountGt(w, v) - (if w[0] > v then 1 else 0) + (if x > v then 1 else 0)
  {
    CountGtTail(w, v);
    if !AllNewer(w, x) {
      InsertCount(w[1..], x, v);
    } else {
      var last, mid := w[|w| - 1], w[1..|w| - 1];
      var r := Added(w, x);
      CountGtTail(r, v);
      assert r[1..] == mid + [x] && (mid + [x])[..|mid|] == mid;
      assert w[1..][..|w| - 2] == mid;
    }
  }

  // An activation issued no sooner than f after the oldest entry, whatever its place among the
  // others, keeps the history covered.
  lemma ActivationOk(w: seq<nat>, acts: seq<nat>, x: nat, f: nat)
    requires Covers(w, acts, f) && x >= w[0] + f
    ensures Covers(Added(w, x), acts + [x], f)
  {
    assert (acts + [x])[..|acts|] == acts;
    forall t ensures CountIn(acts + [x], t, f) <= CountGt(Added(w, x), t - 1) {
      AddedCount(w, x, t - 1);
    }
  }

  lemma CoveredHasNoBurst(w: seq<nat>, acts: seq<nat>, f: nat)
    requires Covers(w, acts, f)
    ensures NoBurst(acts, |w|, f)
  {
    forall t ensures CountIn(acts, t, f) <= |w| {
      CountGtAtMost(w, t - 1);
    }
  }

  // The window keeps holding the most recent activations exactly if the new one is not older than
  // the second oldest entry.
  lemma WindowRecentIff(w: seq<nat>, acts: seq<nat>, x: nat)
    requires Recent(w, acts) && x >= w[0]
    ensures Recent(Added(w, x), acts + [x]) <==> |w| == 1 || w[1] <= x
  {
    AddedSortedIff(w, x);
    var r := Added(w, x);
    if |w| == 1 || w[1] <= x {
      InsertFirst(w[1..], x);
      forall v | v >= r[0] ensures CountGt(r, v) == CountGt(acts + [x], v) {
        AddedCount(w, x, v);
        assert (acts + [x])[..|acts|] == acts;
      }
    }
  }

  // ----- Runs of activations -----

  // Each activation of xs comes no sooner than f after the oldest entry of the window it finds.
  ghost predicate Paced(w: seq<nat>, xs: seq<nat>, f: nat)
    requires |w| > 0
    decreases |xs|
  {
    xs == [] || (xs[0] >= w[0] + f && Paced(Added(w, xs[0]), xs[1..], f))
  }

  lemma {:induction false} PacedRun(w: seq<nat>, acts: seq<nat>, xs: seq<nat>, f: nat)
    requires Covers(w, acts, f) && Paced(w, xs, f)
    ensures NoBurst(acts + xs, |w|, f)
    decreases |xs|
  {
    if xs == [] {
      assert acts + xs == acts;
      CoveredHasNoBurst(w, acts, f);
    } else {
      ActivationOk(w, acts, xs[0], f);
      PacedRun(Added(w, xs[0]), acts + [xs[0]], xs[1..], f);
      assert acts + [xs[0]] + xs[1..] == acts + xs;
    }
  }

  // From an empty window of four: never five activations within less than tFAW, in whatever order
  // they are recorded.
  lemma NeverFiveWithinFaw(xs: seq<nat>, tFAW: nat)
    requires Paced([0, 0, 0, 0], xs, tFAW)
    ensures NoBurst(xs, 4, tFAW)
  {
    PacedRun([0, 0, 0, 0], [], xs, tFAW);
    assert [] + xs == xs;
  }

  // ----- The ring buffer -----

  // Slot of the k-th oldest entry; k == n is the slot after the newest, which is the oldest again.
  function Slot(idx: nat, n: nat, k: nat): nat {
    if idx + k < n then idx + k else idx + k - n
  }

  function Next(idx: nat, n: nat): nat {
    if idx + 1 < n then idx + 1 else 0
  }

  // The entries, oldest first.
  function Ring(b: seq<nat>, idx: nat): (r: seq<nat>)
    requires idx < |b|
    ensures |r| == |b| && forall k | 0 <= k < |b| :: r[k] == b[Slot(idx, |b|, k)]
  {
    b[idx..] + b[..idx]
  }

  // The ring while the last c entries of w have been shifted by one slot; the slot in front of
  // them is free to be overwritten.
  ghost predicate Shifting(w: seq<nat>, b: seq<nat>, idx: nat, x: nat, c: nat)
    requires |w| == |b|
  {
    var n := |b|;
    && idx < n && c < n
    && (forall k | 0 < k < n - c :: b[Slot(idx, n, k)] == w[k])
    && (forall k | n - c < k <= n :: b[Slot(idx, n, k)] == w[k - 1])
    && (c == 0 ==> b[idx] == w[0])
    && (forall k | n - c <= k < n :: w[k] > x)
  }

  function Dec(i: nat, n: nat): nat
    requires i < n
  {
    if i > 0 then i - 1 else n - 1
  }

  // What the loop compares: the next older entry, or, at the very end, the newest one, which was
  // the first to be shifted.
  lemma Compared(w: seq<nat>, b: seq<nat>, idx: nat, x: nat, c: nat)
    requires |w| == |b| && Shifting(w, b, idx, x, c)
    ensures var n := |b|;
            && c < n && Slot(idx, n, n - c) < n
            && (Slot(idx, n, n - c - 1) == idx <==> c == n - 1)
            && Dec(Slot(idx, n, n - c), n) == Slot(idx, n, n - c - 1)
            && b[Slot(idx, n, n - c - 1)] == (if c < n - 1 then w[n - c - 1] else w[n - 1])
  {
    if c == |b| - 1 && c > 0 { assert b[Slot(idx, |b|, |b|)] == w[|b| - 1]; }
  }

  lemma ShiftStep(w: seq<nat>, b: seq<nat>, idx: nat, x: nat, c: nat)
    requires |w| == |b| && Shifting(w, b, idx, x, c) && c < |b| - 1 && w[|b| - c - 1] > x
    ensures Slot(idx, |b|, |b| - c) < |b|
    ensures Shifting(w, b[Slot(idx, |b|, |b| - c) := w[|b| - c - 1]], idx, x, c + 1)
  {
  }

  // The listed window after slot j has been overwritten and the oldest slot is the next one.
  lemma RingWritten(b: seq<nat>, idx: nat, j: nat, x: nat, k: nat)
    requires idx < |b| && 0 < j <= |b| && k < |b|
    ensures Slot(idx, |b|, j) < |b| && Next(idx, |b|) < |b|
    ensures Ring(b[Slot(idx, |b|, j) := x], Next(idx, |b|))[k] == if k == j - 1 then x else b[Slot(idx, |b|, k + 1)]
  {
    assert Slot(Next(idx, |b|), |b|, k) == Slot(idx, |b|, k + 1);
  }

  // Where the specification puts the entries.
  lemma AddedAt(w: seq<nat>, x: nat, c: nat, k: nat)
    requires c < |w| && k < |w| && (forall i | |w| - c <= i < |w| :: w[i] > x)
    requires if c < |w| - 1 then w[|w| - c - 1] <= x else |w| == 1
    ensures Added(w, x)[k] == if k == |w| - c - 1 then x else if k < |w| - c - 1 then w[k + 1] else w[k]
  {
    InsertAt(w[1..], x, c);
    hide Insert;
  }

  lemma ShiftedAdded(w: seq<nat>, b: seq<nat>, idx: nat, x: nat, c: nat)
    requires |w| == |b| && Shifting(w, b, idx, x, c)
    requires if c < |w| - 1 then w[|w| - c - 1] <= x else |w| == 1
    ensures Slot(idx, |b|, |b| - c) < |b|
    ensures Ring(b[Slot(idx, |b|, |b| - c) := x], Next(idx, |b|)) == Added(w, x)
  {
    hide Added, Ring, Slot, Next;
    RingWritten(b, idx, |b| - c, x, 0);
    var r := Ring(b[Slot(idx, |b|, |b| - c) := x], Next(idx, |b|));
    forall k | 0 <= k < |b| ensures r[k] == Added(w, x)[k] {
      RingWritten(b, idx, |b| - c, x, k);
      AddedAt(w, x, c, k);
    }
  }

  // The loop has gone all the way round.
  lemma WrappedAdded(w: seq<nat>, b: seq<nat>, idx: nat, x: nat)
    requires |w| == |b| && idx < |b| && AllNewer(w, x)
    requires Shifting(w, b, idx, x, |b| - 1)
    ensures Slot(idx, |b|, 1) < |b|
    ensures Ring(b[Slot(idx, |b|, 1) := w[|w| - 1]][idx := x], Next(idx, |b|)) == Added(w, x)
  {
    var n, b1 := |b|, b[Slot(idx, |b|, 1) := w[|w| - 1]];
    assert Slot(idx, n, n) == idx;
    hide Ring, Slot, Next;
    RingWritten(b, idx, 1, w[n - 1], 0);
    RingWritten(b1, idx, n, x, 0);
    forall k | 0 <= k < n ensures Ring(b1[idx := x], Next(idx, n))[k] == Added(w, x)[k] {
      RingWritten(b1, idx, n, x, k);
      if k < n - 1 { WrittenOnce(b, idx, w[n - 1], k); }
    }
  }

  lemma WrittenOnce(b: seq<nat>, idx: nat, x: nat, k: nat)
    requires idx < |b| && k < |b| - 1
    ensures Slot(idx, |b|, 1) < |b| && Slot(idx, |b|, k + 1) < |b|
    ensures b[Slot(idx, |b|, 1) := x][Slot(idx, |b|, k + 1)] == if k == 0 then x else b[Slot(idx, |b|, k + 1)]
  {
  }

  // The loop has shifted c entries and stands at slot cur.
  ghost predicate AtSlot(w: seq<nat>, b: seq<nat>, idx: nat, x: nat, c: nat, cur: nat)
    requires |w| == |b|
  {
    Shifting(w, b, idx, x, c) && cur == Slot(idx, |b|, |b| - c)
  }

  lemma NothingShifted(b: seq<nat>, idx: nat, x: nat)
    requires idx < |b|
    ensures AtSlot(Ring(b, idx), b, idx, x, 0, idx)
  {
  }

  lemma LoopStep(w: seq<nat>, b: seq<nat>, idx: nat, x: nat, c: nat, cur: nat)
    requires |w| == |b| && AtSlot(w, b, idx, x, c, cur) && w[0] <= x
    ensures cur < |b| && idx < |b| && c < |b|
    ensures b[Dec(cur, |b|)] > x && Dec(cur, |b|) != idx ==>
              AtSlot(w, b[cur := b[Dec(cur, |b|)]], idx, x, c + 1, Dec(cur, |b|))
    ensures b[Dec(cur, |b|)] > x && Dec(cur, |b|) == idx ==>
              Ring(b[cur := b[Dec(cur, |b|)]][idx := x], Next(idx, |b|)) == Added(w, x)
    ensures b[Dec(cur, |b|)] <= x ==> Ring(b[cur := x], Next(idx, |b|)) == Added(w, x)
  {
    hide Added, Ring;
    Compared(w, b, idx, x, c);
    if b[Dec(cur, |b|)] <= x {
      ShiftedAdded(w, b, idx, x, c);
    } else if c < |b| - 1 {
      ShiftStep(w, b, idx, x, c);
    } else {
      AllShifted(w, b, idx, x);
      WrappedAdded(w, b, idx, x);
    }
  }

  lemma AllShifted(w: seq<nat>, b: seq<nat>, idx: nat, x: nat)
    requires |w| == |b| > 0 && Shifting(w, b, idx, x, |b| - 1) && w[0] <= x
    requires b[Slot(idx, |b|, 0)] > x
    ensures AllNewer(w, x)
  {
  }

  class ActWindow {
    const buf: array<nat>
    var idx: nat

    ghost predicate Valid()
      reads this
    {
      idx < buf.Length
    }

    ghost function Entries(): seq<nat>
      reads this, buf
      requires Valid()
    {
      Ring(buf[..], idx)
    }

    constructor (size: nat)
      requires size > 0
      ensures Valid() && fresh(buf) && Entries() == seq(size, _ => 0)
    {
      buf := new nat[size](_ => 0);
      idx := 0;
    }

    method MinActCycle() returns (c: nat)
      requires Valid()
      ensures c == Entries()[0]
    {
      c := buf[idx];
    }

    method AddActivation(actCycle: nat)
      requires Valid() && Entries()[0] <= actCycle
      modifies this`idx, buf
      ensures Valid() && Entries() == Added(old(Entries()), actCycle)
    {
      hide AtSlot, Added, Ring;
      ghost var w := Entries();
      ghost var c: nat := 0;  // how many entries have been shifted
      var cur: nat := idx;
      NothingShifted(buf[..], idx, actCycle);
      LoopStep(w, buf[..], idx, actCycle, c, cur);
      while buf[Dec(cur, buf.Length)] > actCycle
        invariant idx == old(idx) && w[0] <= actCycle && cur < buf.Length && AtSlot(w, buf[..], idx, actCycle, c, cur)
        decreases buf.Length - c
      {
        ghost var b := buf[..];
        LoopStep(w, b, idx, actCycle, c, cur);
        buf[cur] := buf[Dec(cur, buf.Length)];
        ghost var shifted := b[cur := b[Dec(cur, |b|)]];
        assert buf[..] == shifted;
        cur := Dec(cur, buf.Length);
        if cur == idx {  // we are the oldest in the window
          buf[cur] := actCycle;
          assert buf[..] == shifted[idx := actCycle];
          idx := if idx < buf.Length - 1 then idx + 1 else 0;
          return;
        }
        c := c + 1;
      }
      LoopStep(w, buf[..], idx, actCycle, c, cur);
      ghost var b := buf[..];
      buf[cur] := actCycle;
      assert buf[..] == b[cur := actCycle];
      idx := if idx < buf.Length - 1 then idx + 1 else 0;
    }
  }
}
