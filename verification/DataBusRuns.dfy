// The transfers of a memory channel over whole runs, those included that the bounded log has forgotten.
module DataBusRuns {
  import opened DataBus

  // The intervals that the accesses take on the bus, in the order of the accesses.
  function Transfers(p: Params, log: seq<Interval>, as_: seq<Access>): seq<Interval>
    requires p.Ok()
    decreases |as_|
  {
    if as_ == [] then []
    else [Taken(p, log, as_[0])] + Transfers(p, Updated(p, log, Taken(p, log, as_[0])), as_[1..])
  }

  predicate Disjoint(p: Params, x: Interval, y: Interval) {
    End(p, x) <= y.first || End(p, y) <= x.first
  }

  // No two transfers, with their turnaround times, meet on the bus.
  ghost predicate AllApart(p: Params, ts: seq<Interval>) {
    forall i, j | 0 <= i < j < |ts| :: Disjoint(p, ts[i], ts[j])
  }

  // ----- What the log knows of the transfers -----

  predicate Within(p: Params, x: Interval, b: Interval) {
    b.first <= x.first && End(p, x) <= End(p, b)
  }

  // Every transfer lies within an interval of the log: its own, or the oldest, stretched over all before it.
  ghost predicate Covers(p: Params, log: seq<Interval>, ts: seq<Interval>) {
    forall x | x in ts :: exists k :: 0 <= k < |log| && Within(p, x, log[k])
  }

  // Every interval of the log is a transfer, or ends one and reaches back to 0; only the oldest may do that.
  ghost predicate Genuine(log: seq<Interval>, ts: seq<Interval>) {
    forall k | 0 <= k < |log| :: log[k] in ts || (k == 0 && log[k].first == 0 && EndsSome(log[k], ts))
  }

  ghost predicate EndsSome(b: Interval, ts: seq<Interval>) {
    exists x :: x in ts && x.last == b.last
  }

  ghost predicate Knows(p: Params, log: seq<Interval>, ts: seq<Interval>) {
    && Covers(p, log, ts) && Genuine(log, ts)
    && |log| == (if |ts| < p.depth then |ts| else p.depth)
  }

  lemma CoversInserted(p: Params, log: seq<Interval>, ts: seq<Interval>, b: Interval)
    requires Covers(p, log, ts)
    ensures Covers(p, Inserted(log, b), ts + [b])
  {
    var r := Inserted(log, b);
    forall x | x in ts + [b] ensures exists k :: 0 <= k < |r| && Within(p, x, r[k]) {
      var y := b;
      if x in ts {
        var k :| 0 <= k < |log| && Within(p, x, log[k]);
        y := log[k];
      }
      InsertedMembers(log, b, y);
      var k :| 0 <= k < |r| && r[k] == y;
      assert Within(p, x, r[k]);
    }
  }

  lemma GenuineInserted(p: Params, log: seq<Interval>, ts: seq<Interval>, b: Interval)
    requires Genuine(log, ts) && (log != [] && log[0].first == 0 ==> !Less(b, log[0]))
    ensures Genuine(Inserted(log, b), ts + [b])
    decreases |log|
  {
    if log != [] && Less(b, log[|log| - 1]) {
      GenuineInserted(p, log[..|log| - 1], ts, b);
      var r := Inserted(log[..|log| - 1], b);
      assert Inserted(log, b) == r + [log[|log| - 1]];
      assert log[|log| - 1] in ts;
    } else if log != [] {
      assert EndsSome(log[0], ts) ==> EndsSome(log[0], ts + [b]) by { EndsMore(log[0], ts, b); }
    }
  }

  lemma EndsMore(x: Interval, ts: seq<Interval>, b: Interval)
    ensures EndsSome(x, ts) ==> EndsSome(x, ts + [b])
  {
    if EndsSome(x, ts) {
      var y :| y in ts && y.last == x.last;
      assert y in ts + [b];
    }
  }

  // What is forgotten lies within the next interval, once that reaches back to 0.
  lemma CoversTrimmed(p: Params, log: seq<Interval>, ts: seq<Interval>)
    requires p.Ok() && Searchable(p, log) && Covers(p, log, ts) && |log| <= p.depth + 1
    ensures Covers(p, Trimmed(p, log), ts)
  {
    var r := Trimmed(p, log);
    hide Covers;
    CoversParts(p, log, ts);
    forall x | x in ts ensures exists k :: 0 <= k < |r| && Within(p, x, r[k]) {
      var k :| 0 <= k < |log| && Within(p, x, log[k]);
      if |log| > p.depth {
        assert k == 0 ==> End(p, log[0]) <= End(p, log[1]);
        assert Within(p, x, r[if k == 0 then 0 else k - 1]);
      }
    }
    CoversFrom(p, r, ts);
  }

  lemma CoversParts(p: Params, log: seq<Interval>, ts: seq<Interval>)
    requires Covers(p, log, ts)
    ensures forall x | x in ts :: exists k :: 0 <= k < |log| && Within(p, x, log[k])
  {
  }

  lemma CoversFrom(p: Params, log: seq<Interval>, ts: seq<Interval>)
    requires forall x | x in ts :: exists k :: 0 <= k < |log| && Within(p, x, log[k])
    ensures Covers(p, log, ts)
  {
  }

  lemma GenuineTrimmed(p: Params, log: seq<Interval>, ts: seq<Interval>)
    requires p.Ok() && Genuine(log, ts) && |log| <= p.depth + 1
    ensures Genuine(Trimmed(p, log), ts)
  {
    if |log| > p.depth { assert log[1] in ts && EndsSome(log[1].(first := 0), ts); }
  }

  lemma UniformSearchable(p: Params, log: seq<Interval>)
    requires Uniform(p, log)
    ensures Searchable(p, log)
  {
  }

  lemma TrimmedSize(p: Params, log: seq<Interval>)
    requires p.Ok()
    ensures |Trimmed(p, log)| == if |log| > p.depth then |log| - 1 else |log|
  {
  }

  lemma AccessKnown(p: Params, log: seq<Interval>, ts: seq<Interval>, a: Access)
    requires p.Ok() && Uniform(p, log) && Knows(p, log, ts)
    ensures Uniform(p, Updated(p, log, Taken(p, log, a)))
    ensures Knows(p, Updated(p, log, Taken(p, log, a)), ts + [Taken(p, log, a)])
  {
    var t, b := SlotStart(p, log, a), Taken(p, log, a);
    AccessOk(p, log, a);
    LoggedIsFound(p, a, t);
    if log != [] { assert !Overlaps(p, t, log[0]); }
    CoversInserted(p, log, ts, b);
    GenuineInserted(p, log, ts, b);
    InsertedUniform(p, log, b);
    hide FindFrom, Inserted, Taken, Trimmed, Covers, Genuine, Uniform, Less, FirstFree;
    UniformSearchable(p, Inserted(log, b));
    CoversTrimmed(p, Inserted(log, b), ts + [b]);
    GenuineTrimmed(p, Inserted(log, b), ts + [b]);
    TrimmedSize(p, Inserted(log, b));
  }

  // A slot that is free in the log is free of all transfers, and so is one behind the whole log.
  lemma AccessApart(p: Params, log: seq<Interval>, ts: seq<Interval>, a: Access)
    requires p.Ok() && Uniform(p, log) && Knows(p, log, ts) && AllApart(p, ts)
    requires a.penalty == 0 || forall i | 0 <= i < |log| :: log[i].last < a.arrival
    ensures AllApart(p, ts + [Taken(p, log, a)])
  {
    hide Uniform, Taken, Genuine, Covers, AllApart, Updated, FirstFree, SlotStart;
    var t, b := SlotStart(p, log, a), Taken(p, log, a);
    AccessOk(p, log, a);
    TakenAt(p, log, a);
    NothingBlocks(p, log, a.arrival + a.delay + a.wait, t);
    CoversParts(p, log, ts);
    LongEnough(p, log);
    forall x | x in ts ensures Disjoint(p, x, b) {
      var k :| 0 <= k < |log| && Within(p, x, log[k]);
      assert !Overlaps(p, t, log[k]);
    }
    OneMore(p, ts, b);
  }

  lemma LongEnough(p: Params, log: seq<Interval>)
    requires Uniform(p, log)
    ensures forall k | 0 <= k < |log| :: log[k].first + p.Slot() <= End(p, log[k])
  {
  }

  lemma TakenAt(p: Params, log: seq<Interval>, a: Access)
    ensures var t := SlotStart(p, log, a);
            Taken(p, log, a) == Interval(t + a.penalty, t + a.penalty + p.tTrans) && t >= a.arrival
  {
    LoggedIsFound(p, a, SlotStart(p, log, a));
  }

  lemma NothingBlocks(p: Params, log: seq<Interval>, t0: nat, t: nat)
    requires FirstFree(p, log, t0, t)
    ensures forall k | 0 <= k < |log| :: !Overlaps(p, t, log[k])
  {
  }

  lemma OneMore(p: Params, ts: seq<Interval>, b: Interval)
    requires AllApart(p, ts) && forall x | x in ts :: Disjoint(p, x, b)
    ensures AllApart(p, ts + [b])
  {
  }

  // ----- Runs -----

  ghost predicate Unpenalized(as_: seq<Access>) {
    forall a | a in as_ :: a.penalty == 0
  }

  lemma UnpenalizedParts(as_: seq<Access>)
    requires Unpenalized(as_) && as_ != []
    ensures as_[0].penalty == 0 && Unpenalized(as_[1..])
  {
  }

  lemma {:induction false} UnpenalizedApart(p: Params, log: seq<Interval>, ts: seq<Interval>, as_: seq<Access>)
    requires p.Ok() && Uniform(p, log) && Knows(p, log, ts) && AllApart(p, ts) && Unpenalized(as_)
    ensures AllApart(p, ts + Transfers(p, log, as_))
    decreases |as_|
  {
    hide Uniform, Knows, AllApart, Taken, Updated, FirstFree, Unpenalized;
    if as_ == [] {
      assert ts + Transfers(p, log, as_) == ts;
    } else {
      var b := Taken(p, log, as_[0]);
      AccessKnown(p, log, ts, as_[0]);
      UnpenalizedParts(as_);
      AccessApart(p, log, ts, as_[0]);
      UnpenalizedApart(p, Updated(p, log, b), ts + [b], as_[1..]);
      assert ts + [b] + Transfers(p, Updated(p, log, b), as_[1..]) == ts + Transfers(p, log, as_);
    }
  }

  // Without penalties no two transfers of a run meet, however many accesses came between them and however short the
  // log is.
  lemma TransfersApart(p: Params, as_: seq<Access>)
    requires p.Ok() && Unpenalized(as_)
    ensures AllApart(p, Transfers(p, [], as_))
  {
    UnpenalizedApart(p, [], [], as_);
    assert [] + Transfers(p, [], as_) == Transfers(p, [], as_);
  }

  // After every run, with any penalties, the log stands for the transfers made.
  lemma {:induction false} KnownFrom(p: Params, log: seq<Interval>, ts: seq<Interval>, as_: seq<Access>)
    requires p.Ok() && Uniform(p, log) && Knows(p, log, ts)
    ensures Knows(p, After(p, log, as_), ts + Transfers(p, log, as_))
    decreases |as_|
  {
    hide Uniform, Knows, AllApart, Taken, Updated, FirstFree;
    if as_ == [] {
      assert ts + Transfers(p, log, as_) == ts;
    } else {
      var b := Taken(p, log, as_[0]);
      AccessKnown(p, log, ts, as_[0]);
      KnownFrom(p, Updated(p, log, b), ts + [b], as_[1..]);
      assert ts + [b] + Transfers(p, Updated(p, log, b), as_[1..]) == ts + Transfers(p, log, as_);
    }
  }

  // From the empty log on, with any penalties: each transfer of the run is in the log, or over before the log's oldest
  // interval, which then has been stretched back to 0.
  lemma LogKnows(p: Params, as_: seq<Access>)
    requires p.Ok()
    ensures Knows(p, After(p, [], as_), Transfers(p, [], as_))
  {
    KnownFrom(p, [], [], as_);
    assert [] + Transfers(p, [], as_) == Transfers(p, [], as_);
  }

  // ----- With the penalties of the program -----

  predicate NoClash(p: Params, ranks: nat) {
    p.powerDown == 0 || p.tXP == 0 || ranks == 1
  }

  lemma {:induction false} ChargedApart(p: Params, last: seq<nat>, log: seq<Interval>, ts: seq<Interval>,
                                        as_: seq<Access>)
    requires p.Ok() && Uniform(p, log) && Knows(p, log, ts) && AllApart(p, ts) && Charged(p, last, log, as_)
    requires NoClash(p, |last|) && (|last| == 1 ==> Behind(last, log))
    ensures AllApart(p, ts + Transfers(p, log, as_))
    decreases |as_|
  {
    hide Uniform, Knows, AllApart, Taken, Updated, FirstFree;
    if as_ == [] {
      assert ts + Transfers(p, log, as_) == ts;
    } else {
      var b := Taken(p, log, as_[0]);
      AccessKnown(p, log, ts, as_[0]);
      AccessApart(p, log, ts, as_[0]);
      if |last| == 1 { BehindStep(p, last, log, as_[0]); }
      ChargedApart(p, LastAfter(p, last, log, as_[0]), Updated(p, log, b), ts + [b], as_[1..]);
      assert ts + [b] + Transfers(p, Updated(p, log, b), as_[1..]) == ts + Transfers(p, log, as_);
    }
  }

  ghost predicate RunApart(p: Params, ranks: nat, as_: seq<Access>)
    requires p.Ok()
  {
    Charged(p, Idle(ranks), [], as_) ==> AllApart(p, Transfers(p, [], as_))
  }

  lemma ClashMeets(p: Params)
    requires p.Ok() && p.tXP > 0
    ensures !AllApart(p, Transfers(p, [], Clash(p)))
  {
    var c := Clash(p);
    ClashTaken(p);
    var a, b := Taken(p, [], c[0]), Taken(p, [Taken(p, [], c[0])], c[1]);
    assert c[1..] == [c[1]] && c[1..][1..] == [];
    hide Taken, Updated;
    assert Transfers(p, [a], c[1..]) == [b] + Transfers(p, Updated(p, [a], b), []);
    var ts := Transfers(p, [], c);
    assert ts == [a] + Transfers(p, [a], c[1..]);
    assert ts[0] == a && ts[1] == b;
    assert !Disjoint(p, ts[0], ts[1]);
  }

  // In all runs with the penalties of the program no two transfers meet exactly if ranks never power down, powering up
  // takes no time, or there is one rank; the length of the log does not matter.
  lemma TransfersApartIff(p: Params, ranks: nat)
    requires p.Ok() && ranks > 0
    ensures (forall as_: seq<Access> :: RunApart(p, ranks, as_)) <==> NoClash(p, ranks)
  {
    if NoClash(p, ranks) {
      forall as_: seq<Access> ensures RunApart(p, ranks, as_) {
        if Charged(p, Idle(ranks), [], as_) {
          ChargedApart(p, Idle(ranks), [], [], as_);
          assert [] + Transfers(p, [], as_) == Transfers(p, [], as_);
        }
      }
    } else {
      ClashCharged(p, ranks);
      ClashMeets(p);
      hide Charged, Transfers, AllApart, Clash;
      assert !RunApart(p, ranks, Clash(p));
    }
  }
}
