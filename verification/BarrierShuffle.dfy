// The order of the run list in a new phase: every order comes from exactly one sequence of random draws.
module BarrierShuffle {
  import opened BarrierState
  import opened BarrierProofs

  function Swapped(run: seq<nat>, i: nat, j: nat): (r: seq<nat>)
    requires i < |run| && j < |run|
    ensures |r| == |run|
  {
    run[i := run[j]][j := run[i]]
  }

  // The list after the exchanges of the first n positions, js[i] being the draw for position i.
  ghost function Shuffled(run: seq<nat>, n: nat, js: seq<nat>): (r: seq<nat>)
    requires n <= |run| && Draws(js, n)
    ensures |r| == |run|
    decreases n
  {
    if n <= 1 then run else Shuffled(Swapped(run, n - 1, js[n - 1]), n - 1, js)
  }

  ghost predicate Distinct(run: seq<nat>) {
    forall i, j | 0 <= i < j < |run| :: run[i] != run[j]
  }

  // The barrier's list is shuffled like that.
  lemma {:induction false} ShuffleRun(b: Barrier, n: nat, js: seq<nat>)
    requires Scannable(b) && n <= |b.run| && Draws(js, |b.threads|)
    ensures Shuffle(b, n, js).run == Shuffled(b.run, n, js)
    decreases n
  {
    if n > 1 { ShuffleRun(SwapStep(b, n - 1, js[n - 1]), n - 1, js); }
  }

  // The exchanges of the first n positions leave the others alone.
  lemma {:induction false} ShuffledBehind(run: seq<nat>, n: nat, js: seq<nat>, k: nat)
    requires n <= k < |run| && Draws(js, n)
    ensures Shuffled(run, n, js)[k] == run[k]
    decreases n
  {
    if n > 1 { ShuffledBehind(Swapped(run, n - 1, js[n - 1]), n - 1, js, k); }
  }

  lemma SwappedOk(run: seq<nat>, i: nat, j: nat)
    requires Distinct(run) && i < |run| && j < |run|
    ensures Distinct(Swapped(run, i, j)) && multiset(Swapped(run, i, j)) == multiset(run)
  {
    Exchanged(run, i, j);
  }

  // Different draws give different orders.
  lemma {:induction false} DrawsDecide(run: seq<nat>, n: nat, js: seq<nat>, ks: seq<nat>, i: nat)
    requires Distinct(run) && n <= |run| && Draws(js, n) && Draws(ks, n) && i < n && js[i] != ks[i]
    ensures Shuffled(run, n, js) != Shuffled(run, n, ks)
    decreases n
  {
    var j, k := js[n - 1], ks[n - 1];
    if n > 1 {
      if j != k {
        ShuffledBehind(Swapped(run, n - 1, j), n - 1, js, n - 1);
        ShuffledBehind(Swapped(run, n - 1, k), n - 1, ks, n - 1);
        assert run[if j < k then j else k] != run[if j < k then k else j];
      } else {
        SwappedOk(run, n - 1, j);
        DrawsDecide(Swapped(run, n - 1, j), n - 1, js, ks, i);
      }
    }
  }

  // Every order can come up.
  lemma {:induction false} DrawsFor(run: seq<nat>, n: nat, r: seq<nat>) returns (js: seq<nat>)
    requires Distinct(run) && n <= |run| && multiset(r) == multiset(run)
    requires |r| == |run| && forall k | n <= k < |run| :: r[k] == run[k]
    ensures |js| == n && Draws(js, n) && Shuffled(run, n, js) == r
    decreases n
  {
    if n == 0 {
      js := [];
    } else {
      var j := Where(run, n, r);
      var s := Swapped(run, n - 1, j);
      SwappedOk(run, n - 1, j);
      var rest := DrawsFor(s, n - 1, r);
      js := rest + [j];
      SameDraws(s, n - 1, rest, js);
      if n == 1 { assert s == run; }
    }
  }

  // Where the value that has to come to position n - 1 stands.
  lemma Where(run: seq<nat>, n: nat, r: seq<nat>) returns (j: nat)
    requires Distinct(run) && 0 < n <= |run| && multiset(r) == multiset(run)
    requires |r| == |run| && forall k | n <= k < |run| :: r[k] == run[k]
    ensures j < n && run[j] == r[n - 1]
  {
    assert r[n - 1] in multiset(r);
    j :| 0 <= j < |run| && run[j] == r[n - 1];
    if j >= n {
      assert r[j] == r[n - 1];
      TwiceIn(r, n - 1, j);
      OnceIn(run, j);
    }
  }

  lemma TwiceIn(r: seq<nat>, i: nat, j: nat)
    requires i < j < |r| && r[i] == r[j]
    ensures multiset(r)[r[i]] >= 2
  {
    assert r == r[..i] + [r[i]] + r[i + 1..j] + [r[j]] + r[j + 1..];
  }

  lemma OnceIn(run: seq<nat>, j: nat)
    requires Distinct(run) && j < |run|
    ensures multiset(run)[run[j]] == 1
  {
    assert run == run[..j] + [run[j]] + run[j + 1..];
    assert run[j] !in run[..j] && run[j] !in run[j + 1..];
  }

  lemma {:induction false} SameDraws(run: seq<nat>, n: nat, js: seq<nat>, ks: seq<nat>)
    requires n <= |run| && Draws(js, n) && Draws(ks, n) && forall i | 0 <= i < n :: js[i] == ks[i]
    ensures Shuffled(run, n, js) == Shuffled(run, n, ks)
    decreases n
  {
    if n > 1 { SameDraws(Swapped(run, n - 1, js[n - 1]), n - 1, js, ks); }
  }

  // Each order of the list comes from exactly one sequence of draws.
  lemma OneDrawPerOrder(run: seq<nat>, r: seq<nat>)
    requires Distinct(run) && |r| == |run| && multiset(r) == multiset(run)
    ensures exists js: seq<nat> :: |js| == |run| && Draws(js, |run|) && Shuffled(run, |run|, js) == r
    ensures forall js: seq<nat>, ks: seq<nat> |
              |js| == |ks| == |run| && Draws(js, |run|) && Draws(ks, |run|)
              && Shuffled(run, |run|, js) == r && Shuffled(run, |run|, ks) == r :: js == ks
  {
    var js0 := DrawsFor(run, |run|, r);
    forall js: seq<nat>, ks: seq<nat> |
      |js| == |ks| == |run| && Draws(js, |run|) && Draws(ks, |run|)
      && Shuffled(run, |run|, js) == r && Shuffled(run, |run|, ks) == r
      ensures js == ks
    {
      forall i | 0 <= i < |run| ensures js[i] == ks[i] {
        if js[i] != ks[i] { DrawsDecide(run, |run|, js, ks, i); }
      }
    }
  }

  // A new phase shuffles the list exactly if more threads are on it than may run in parallel; it keeps the order
  // otherwise, but for the cleanup in every 32nd phase.
  lemma NewPhaseOrder(b: Barrier, js: seq<nat>)
    requires Ok(b) && PhaseOver(b) && Draws(js, |b.threads|)
    ensures Scannable(b) && |Cleaned(b).run| <= |b.threads|
    ensures var run := Cleaned(b).run;
            CheckEndPhase(b, js).run == if b.parallelThreads < |run| then Shuffled(run, |run|, js) else run
    ensures b.phase % 32 != 0 ==> Cleaned(b).run == b.run
  {
    CleanedOk(b);
    ShuffleRun(Cleaned(b), |Cleaned(b).run|, js);
  }
}
