// The MESI controllers as objects that update state and directory arrays in place, and how one call
// of them relates to the lock-granular steps of the protocol.
module CoherenceObjects {
  import opened Options
  import opened CoherenceControllers
  import opened CoherenceSystem

  // ----- What a whole call does to a directory entry -----

  ghost predicate EntryWf(e: Entry, children: nat) {
    e.numSharers == |e.sharers| && forall c | c in e.sharers :: c < children
  }

  predicate Sweeps(e: Entry, kind: InvType) {
    !e.IsEmpty() && (kind == INVX ==> e.IsExclusive())
  }

  // The entry after a completed sendInvalidates.
  function Swept(e: Entry, kind: InvType): Entry {
    if !Sweeps(e, kind) then e
    else if kind == INV then Entry(0, {}, e.exclusive)
    else e.(exclusive := false)
  }

  // Some invalidated child had modified data.
  ghost predicate SweepWb(e: Entry, kind: InvType, replies: seq<bool>) {
    Sweeps(e, kind) && exists c: nat :: c in e.sharers && c < |replies| && replies[c]
  }

  // The entry after processAccess, and the state the child gets.
  function Accessed(e: Entry, t: AccessType, c: nat, haveExclusive: bool, noExcl: bool): (Entry, State) {
    match t
    case PUTS => (e.Drop(c), I)
    case PUTX => (e.Drop(c), I)
    case GETS =>
      if e.IsEmpty() && haveExclusive && !noExcl then (Entry(1, e.sharers + {c}, true), E)
      else (Swept(e, INVX).Add(c, false), S)
    case GETX => (Swept(if c in e.sharers then e.Drop(c) else e, INV).Add(c, true), M)
  }

  // The children whose copies an access invalidates or downgrades.
  function Victims(e: Entry, t: AccessType, c: nat): (Entry, InvType) {
    if t == GETX && c in e.sharers then (e.Drop(c), INV) else (e, if t == GETX then INV else INVX)
  }

  // The asserts of processAccess.
  predicate AccessAsserts(e: Entry, t: AccessType, c: nat, haveExclusive: bool) {
    match t
    case PUTX => e.IsExclusive() && c in e.sharers
    case PUTS => c in e.sharers
    case GETS => c !in e.sharers
    case GETX => haveExclusive && (c in e.sharers ==> !e.IsExclusive())
  }

  // What a directory entry means after an access: exactly the children that hold the line are in
  // it, they are counted, and it is exclusive exactly if the single one has been given E or M.
  lemma AccessedMeaning(e: Entry, t: AccessType, c: nat, haveExclusive: bool, noExcl: bool, children: nat)
    requires EntryWf(e, children) && c < children && AccessAsserts(e, t, c, haveExclusive)
    ensures var (e1, s) := Accessed(e, t, c, haveExclusive, noExcl);
            && EntryWf(e1, children)
            && e1.sharers == (match t
                              case PUTS => e.sharers - {c}
                              case PUTX => e.sharers - {c}
                              case GETS => e.sharers + {c}
                              case GETX => {c})
            && (IsGet(t) ==> (e1.IsExclusive() <==> IsExcl(s)))
            && (s == I <==> !IsGet(t))
  {
    if e.numSharers == 0 { assert e.sharers == {}; }
    if t == GETX { GetxMeaning(e, c, children); }
    hide EntryWf;
    if t == GETS { GetsMeaning(e, c, children); }
    if !IsGet(t) { PutMeaning(e, c, children); }
  }

  lemma PutMeaning(e: Entry, c: nat, children: nat)
    requires EntryWf(e, children) && c in e.sharers
    ensures EntryWf(e.Drop(c), children)
  {
  }

  lemma GetsMeaning(e: Entry, c: nat, children: nat)
    requires EntryWf(e, children) && c !in e.sharers && c < children
    ensures EntryWf(Swept(e, INVX).Add(c, false), children)
    ensures e.IsEmpty() ==> EntryWf(Entry(1, e.sharers + {c}, true), children)
    ensures Swept(e, INVX).sharers == e.sharers
  {
    if e.IsEmpty() { assert e.sharers == {}; }
  }

  lemma GetxMeaning(e: Entry, c: nat, children: nat)
    requires EntryWf(e, children) && c < children
    ensures var e1 := Swept(if c in e.sharers then e.Drop(c) else e, INV).Add(c, true);
            EntryWf(e1, children) && e1.sharers == {c} && e1.IsExclusive()
  {
    var e0 := if c in e.sharers then e.Drop(c) else e;
    assert e0.numSharers == |e0.sharers|;
    if e0.IsEmpty() { assert e0.sharers == {}; }
  }

  // ----- A walk in any order -----

  // Visits the children cs one after the other; replies says which of them had modified data.
  function Visits(e: Entry, w: Walk, cs: seq<nat>, replies: seq<bool>): (Entry, Walk)
    requires forall i | 0 <= i < |cs| :: cs[i] < |replies|
    decreases |cs|
  {
    if cs == [] then (e, w)
    else Visits(VisitedEntry(e, w, cs[0]), VisitedWalk(w, cs[0], replies[cs[0]]), cs[1..], replies)
  }

  lemma {:induction false} VisitsResult(e: Entry, w: Walk, cs: seq<nat>, replies: seq<bool>)
    requires forall i | 0 <= i < |cs| :: cs[i] < |replies|
    ensures var (e1, w1) := Visits(e, w, cs, replies);
            && w1.kind == w.kind && w1.sweep == w.sweep && w1.sent == w.sent + |cs|
            && w1.todo == w.todo - (set c | c in cs)
            && (w1.wb <==> w.wb || exists i :: 0 <= i < |cs| && replies[cs[i]])
            && e1.numSharers == e.numSharers && e1.exclusive == e.exclusive
            && e1.sharers == if w.kind == INV then e.sharers - (set c | c in cs) else e.sharers
    decreases |cs|
  {
    if cs != [] {
      var e0, w0 := VisitedEntry(e, w, cs[0]), VisitedWalk(w, cs[0], replies[cs[0]]);
      VisitsResult(e0, w0, cs[1..], replies);
      assert (set c | c in cs) == {cs[0]} + (set c | c in cs[1..]);
      var w1 := Visits(e, w, cs, replies).1;
      if exists i :: 0 <= i < |cs| && replies[cs[i]] {
        var i :| 0 <= i < |cs| && replies[cs[i]];
        if i > 0 { assert replies[cs[1..][i - 1]]; }
        assert w1.wb;
      }
      if w1.wb && !w0.wb {
        var i :| 0 <= i < |cs[1..]| && replies[cs[1..][i]];
        assert replies[cs[i + 1]];
      }
    }
  }

  // A walk that visits every sharer once, in whatever order, ends with the same entry and the same
  // writeback flag, and its asserts hold.
  lemma WalkInAnyOrder(e: Entry, kind: InvType, cs: seq<nat>, replies: seq<bool>)
    requires EntryWf(e, |replies|) && StartWalk(kind, e).sweep
    requires (set c | c in cs) == e.sharers && |cs| == |e.sharers|
    ensures forall i | 0 <= i < |cs| :: cs[i] < |replies|
    ensures var (e1, w1) := Visits(e, StartWalk(kind, e), cs, replies);
            && w1.todo == {} && EndWalkAsserts(e1, w1)
            && EndWalk(e1, w1) == Swept(e, kind) && (w1.wb <==> SweepWb(e, kind, replies))
  {
    forall i | 0 <= i < |cs| ensures cs[i] < |replies| { assert cs[i] in e.sharers; }
    var w := StartWalk(kind, e);
    VisitsResult(e, w, cs, replies);
    var w1 := Visits(e, w, cs, replies).1;
    if w1.wb {
      var i :| 0 <= i < |cs| && replies[cs[i]];
      assert cs[i] in e.sharers;
    }
    if SweepWb(e, kind, replies) {
      var c: nat :| c in e.sharers && c < |replies| && replies[c];
      assert c in cs;
    }
  }

  // The steps Top, a walk, and Grant of the protocol together do to a parent and the requesting
  // child what one call of processAccess does.
  lemma AccessIsSteps(p: Node, c: Node, ci: nat, cs: seq<nat>, replies: seq<bool>)
    requires p.act.Ready? && p.act.child == Some(ci) && EntryWf(p.dir, |replies|)
    requires AccessAsserts(p.dir, p.act.typ, ci, IsExcl(p.mesi))
    requires var (e, kind) := Victims(p.dir, p.act.typ, ci); (set x | x in cs) == e.sharers && |cs| == |e.sharers|
    ensures var (e1, m) := Accessed(p.dir, p.act.typ, ci, IsExcl(p.mesi), p.act.noExcl);
            var (p1, c1) := TopNodes(p, c, ci);
            if !p1.act.Granting? then p1.dir == e1 && c1.mesi == m
            else
              var w := p1.act.walk;
              && (w.sweep ==> forall i | 0 <= i < |cs| :: cs[i] < |replies|)
              && (var (e2, w2) := if w.sweep then Visits(p1.dir, w, cs, replies) else (p1.dir, w);
                  var (p2, c2) := GrantNodes(p1.(dir := e2, act := p1.act.(walk := w2)), c1, ci);
                  p2.dir == e1 && c2.mesi == m && EndWalkAsserts(e2, w2))
  {
    var (e, kind) := Victims(p.dir, p.act.typ, ci);
    assert EntryWf(e, |replies|);
    if e.numSharers == 0 { assert e.sharers == {}; }
    if StartWalk(kind, e).sweep { WalkInAnyOrder(e, kind, cs, replies); }
  }

  // ----- Race check -----

  // Decides what to do with a request whose line has been invalidated on the way up.
  method CheckForMESIRace(t: AccessType, state: State, initialState: State) returns (skipAccess: bool, typ: AccessType)
    requires RaceAsserts(t, state, initialState)
    ensures skipAccess == RaceSkips(t, state, initialState) && typ == RaceRewrites(t, state, initialState)
    ensures skipAccess ==> state == I
    ensures !skipAccess && typ == PUTX ==> state == initialState
    ensures !skipAccess && typ == PUTS && t == PUTX ==> state == S
  {
    skipAccess, typ := false, t;
    if state != initialState {
      if t == PUTS || t == PUTX {
        if state == I {
          skipAccess := true;
        } else if t == PUTX {
          typ := PUTS;
        }
      }
    }
  }

  // ----- Bottom controller -----

  class MESIBottomCC {
    var states: array<State>

    constructor (numLines: nat)
      ensures fresh(states) && states.Length == numLines && forall i | 0 <= i < numLines :: states[i] == I
    {
      states := new State[numLines](_ => I);
    }

    // Served here, or sent to the parent; then AnswerAccess takes the state it has written.
    method ProcessAccess(lineId: nat, t: AccessType) returns (askParent: bool)
      requires lineId < states.Length && BottomAccessAsserts(states[lineId], t)
      modifies states
      ensures askParent == !BottomHit(old(states[lineId]), t)
      ensures states[..] == if askParent then old(states[..])
                            else old(states[..])[lineId := BottomHitState(old(states[lineId]), t)]
      ensures !askParent && IsGet(t) ==> BottomGrantAsserts(states[lineId], t) || t == GETS
    {
      askParent := false;
      match t
      case PUTS =>
      case PUTX =>
        if states[lineId] == E { states[lineId] := M; }
      case GETS =>
        askParent := states[lineId] == I;
      case GETX =>
        if states[lineId] == I || states[lineId] == S {
          askParent := true;
        } else if states[lineId] == E {
          states[lineId] := M;
        }
    }

    method ProcessWritebackOnAccess(lineId: nat)
      requires lineId < states.Length && IsExcl(states[lineId])
      modifies states
      ensures states[..] == old(states[..])[lineId := WritebackState(old(states[lineId]), true)]
      ensures states[lineId] == M
    {
      if states[lineId] == E { states[lineId] := M; }
    }

    // The PUT that an eviction sends up, if any.
    method ProcessEviction(lineId: nat, lowerLevelWriteback: bool) returns (put: Option<AccessType>)
      requires lineId < states.Length && (lowerLevelWriteback ==> IsExcl(states[lineId]))
      modifies states
      ensures var m := if lowerLevelWriteback then M else old(states[lineId]);
              && states[..] == old(states[..])[lineId := m]
              && put == (match m case I => None case M => Some(PUTX) case _ => Some(PUTS))
    {
      if lowerLevelWriteback { states[lineId] := M; }
      match states[lineId]
      case I => put := None;
      case S => put := Some(PUTS);
      case E => put := Some(PUTS);
      case M => put := Some(PUTX);
    }

    // Modified data is never dropped without raising the writeback flag.
    method ProcessInval(lineId: nat, kind: InvType, reqWriteback: bool) returns (writeback: bool)
      requires lineId < states.Length && BottomInvalAsserts(states[lineId], kind)
      modifies states
      ensures states[..] == old(states[..])[lineId := BottomInvalState(old(states[lineId]), kind)]
      ensures writeback == (reqWriteback || old(states[lineId]) == M)
    {
      writeback := reqWriteback || states[lineId] == M;
      states[lineId] := if kind == INVX then S else I;
    }
  }

  // ----- Top controller -----

  function Below(s: set<nat>, c: nat): set<nat> {
    set x | x in s && x < c
  }

  lemma BelowStep(s: set<nat>, c: nat)
    ensures Below(s, c + 1) == (if c in s then Below(s, c) + {c} else Below(s, c)) && c !in Below(s, c)
  {
  }

  lemma BelowEnds(s: set<nat>, n: nat)
    requires forall x | x in s :: x < n
    ensures Below(s, 0) == {} && Below(s, n) == s
  {
  }

  // Taking out one more child.
  lemma BelowOut(s: set<nat>, c: nat)
    requires c in s
    ensures s - Below(s, c) - {c} == s - Below(s, c + 1) && |Below(s, c + 1)| == |Below(s, c)| + 1
  {
    BelowStep(s, c);
  }

  // A sharer before c has modified data.
  ghost predicate Replied(s: set<nat>, replies: seq<bool>, c: nat) {
    exists x: nat :: x in s && x < c && x < |replies| && replies[x]
  }

  lemma RepliedStep(s: set<nat>, replies: seq<bool>, c: nat)
    requires c < |replies|
    ensures Replied(s, replies, c + 1) <==> Replied(s, replies, c) || (c in s && replies[c])
  {
  }

  lemma RepliedEnds(s: set<nat>, replies: seq<bool>)
    ensures !Replied(s, replies, 0)
    ensures Replied(s, replies, |replies|) <==> exists x: nat :: x in s && x < |replies| && replies[x]
  {
  }

  class MESITopCC {
    const children: nat
    var entries: array<Entry>

    constructor (numLines: nat, children: nat)
      ensures this.children == children && fresh(entries) && entries.Length == numLines
      ensures forall i | 0 <= i < numLines :: entries[i] == EMPTY_ENTRY
    {
      this.children := children;
      entries := new Entry[numLines](_ => EMPTY_ENTRY);
    }

    // replies[c] says whether child c has modified data when it is invalidated.
    method SendInvalidates(lineId: nat, kind: InvType, replies: seq<bool>, reqWriteback: bool) returns (writeback: bool)
      requires lineId < entries.Length && |replies| == children && EntryWf(entries[lineId], children)
      modifies entries
      ensures entries[..] == old(entries[..])[lineId := Swept(old(entries[lineId]), kind)]
      ensures writeback <==> reqWriteback || SweepWb(old(entries[lineId]), kind, replies)
    {
      writeback := reqWriteback;
      var e := entries[lineId];
      if kind == INVX && !e.IsExclusive() { return; }
      if !e.IsEmpty() {
        var sentInvs, wb := VisitSharers(lineId, kind, replies);
        assert sentInvs == e.numSharers;
        writeback := writeback || wb;
        if kind == INV {
          entries[lineId] := entries[lineId].(numSharers := 0);
        } else {
          entries[lineId] := entries[lineId].(exclusive := false);
        }
      }
    }

    // The loop over the children.
    method VisitSharers(lineId: nat, kind: InvType, replies: seq<bool>) returns (sentInvs: nat, wb: bool)
      requires lineId < entries.Length && |replies| == children && EntryWf(entries[lineId], children)
      modifies entries
      ensures var e := old(entries[lineId]);
              && entries[..] == old(entries[..])[lineId := if kind == INV then e.(sharers := {}) else e]
              && sentInvs == |e.sharers| && (wb <==> exists c: nat :: c in e.sharers && c < |replies| && replies[c])
    {
      hide Below, Replied;
      var e := entries[lineId];
      sentInvs, wb := 0, false;
      BelowEnds(e.sharers, children);
      RepliedEnds(e.sharers, replies);
      for c := 0 to children
        invariant entries[lineId].sharers == if kind == INV then e.sharers - Below(e.sharers, c) else e.sharers
        invariant entries[lineId] == e.(sharers := entries[lineId].sharers)
        invariant forall i | 0 <= i < entries.Length && i != lineId :: entries[i] == old(entries[i])
        invariant sentInvs == |Below(e.sharers, c)| && (wb <==> Replied(e.sharers, replies, c))
      {
        BelowStep(e.sharers, c);
        RepliedStep(e.sharers, replies, c);
        assert c in entries[lineId].sharers <==> c in e.sharers;
        if c in entries[lineId].sharers {
          BelowOut(e.sharers, c);
          wb := wb || replies[c];
          if kind == INV { entries[lineId] := entries[lineId].(sharers := entries[lineId].sharers - {c}); }
          sentInvs := sentInvs + 1;
        }
      }
    }

    method ProcessAccess(lineId: nat, t: AccessType, childId: nat, haveExclusive: bool, noExcl: bool,
                         replies: seq<bool>)
      returns (childState: State, inducedWriteback: bool)
      requires lineId < entries.Length && |replies| == children && EntryWf(entries[lineId], children)
      requires childId < children && AccessAsserts(entries[lineId], t, childId, haveExclusive)
      modifies entries
      ensures var (e, s) := Accessed(old(entries[lineId]), t, childId, haveExclusive, noExcl);
              entries[..] == old(entries[..])[lineId := e] && childState == s
      ensures inducedWriteback <==> IsGet(t) && var (e, kind) := Victims(old(entries[lineId]), t, childId);
                                    SweepWb(e, kind, replies)
    {
      inducedWriteback := false;
      var e := entries[lineId];
      match t
      case PUTX =>
        entries[lineId] := e.Drop(childId);
        childState := I;
      case PUTS =>
        entries[lineId] := e.Drop(childId);
        childState := I;
      case GETS =>
        if e.IsEmpty() && haveExclusive && !noExcl {
          entries[lineId] := Entry(1, e.sharers + {childId}, true);
          childState := E;
        } else {
          if e.IsExclusive() { inducedWriteback := SendInvalidates(lineId, INVX, replies, inducedWriteback); }
          entries[lineId] := entries[lineId].Add(childId, false);
          childState := S;
        }
      case GETX =>
        if childId in e.sharers { entries[lineId] := e.Drop(childId); }
        inducedWriteback := SendInvalidates(lineId, INV, replies, inducedWriteback);
        entries[lineId] := entries[lineId].Add(childId, true);
        childState := M;
    }
  }
}
