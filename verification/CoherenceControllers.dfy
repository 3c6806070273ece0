// The decisions of the MESI controllers for one cache line, as functions on values: what the
// bottom controller does with its own state, what the top controller does with its directory
// entry, and how a request that raced with an invalidation is repaired.
module CoherenceControllers {
  import opened Options

  datatype State = I | S | E | M

  datatype AccessType = GETS | GETX | PUTS | PUTX

  datatype InvType = INV | INVX

  predicate IsExcl(s: State) {
    s == E || s == M
  }

  predicate IsGet(t: AccessType) {
    t == GETS || t == GETX
  }

  // ----- Races (CheckForMESIRace) -----

  // The asserts of the race check, and its panic made unreachable.
  predicate RaceAsserts(t: AccessType, now: State, initial: State) {
    now == initial ||
    match t
    case PUTS => now == I || now == S
    case PUTX => now == I || now == S
    case GETX => initial == S && now == I
    case GETS => false
  }

  predicate RaceSkips(t: AccessType, now: State, initial: State) {
    now != initial && !IsGet(t) && now == I
  }

  function RaceRewrites(t: AccessType, now: State, initial: State): AccessType {
    if now != initial && t == PUTX && now != I then PUTS else t
  }

  // ----- Bottom controller -----

  // True when an access is served without asking the next level.
  predicate BottomHit(s: State, t: AccessType) {
    match t
    case GETS => s != I
    case GETX => IsExcl(s)
    case _ => true
  }

  predicate BottomAccessAsserts(s: State, t: AccessType) {
    match t
    case PUTS => s != I
    case PUTX => IsExcl(s)
    case _ => true
  }

  // The silent E->M transition of a GETX hit or an incoming PUTX.
  function BottomHitState(s: State, t: AccessType): State {
    if (t == GETX || t == PUTX) && s == E then M else s
  }

  // What the bottom controller asserts when its own up-request has been answered.
  predicate BottomGrantAsserts(s: State, t: AccessType) {
    match t
    case GETS => s == S || s == E
    case GETX => s == M
    case _ => s == I
  }

  predicate BottomInvalAsserts(s: State, kind: InvType) {
    s != I && (kind == INVX ==> IsExcl(s))
  }

  function BottomInvalState(s: State, kind: InvType): State {
    if kind == INV then I else S
  }

  function WritebackState(s: State, writeback: bool): State {
    if writeback && s == E then M else s
  }

  // ----- Top controller: directory entry -----

  datatype Entry = Entry(numSharers: int, sharers: set<nat>, exclusive: bool) {
    predicate IsEmpty() {
      numSharers == 0
    }

    predicate IsExclusive() {
      numSharers == 1 && exclusive
    }

    function Drop(c: nat): Entry {
      Entry(numSharers - 1, sharers - {c}, exclusive)
    }

    function Add(c: nat, excl: bool): Entry {
      Entry(numSharers + 1, sharers + {c}, excl)
    }
  }

  const EMPTY_ENTRY := Entry(0, {}, false)

  // One execution of sendInvalidates. `sweep` says whether its loop over the children runs at
  // all, `todo` which sharers are still to be visited, `at` the child being invalidated now,
  // and `wb` is the writeback flag that children pull up to true.
  datatype Walk = Walk(kind: InvType, sweep: bool, todo: set<nat>, at: Option<nat>, sent: nat, wb: bool) {
    predicate Finished() {
      todo == {} && at == None
    }
  }

  function StartWalk(kind: InvType, e: Entry): Walk {
    var sweep := !(kind == INVX && !e.IsExclusive()) && !e.IsEmpty();
    Walk(kind, sweep, if sweep then e.sharers else {}, None, 0, false)
  }

  function VisitedWalk(w: Walk, c: nat, wb: bool): Walk {
    w.(todo := w.todo - {c}, at := None, sent := w.sent + 1, wb := w.wb || wb)
  }

  function VisitedEntry(e: Entry, w: Walk, c: nat): Entry {
    if w.kind == INV then e.(sharers := e.sharers - {c}) else e
  }

  predicate EndWalkAsserts(e: Entry, w: Walk) {
    w.sweep ==>
      && w.sent == e.numSharers
      && (w.kind == INVX ==> e.exclusive && e.numSharers == 1)
  }

  function EndWalk(e: Entry, w: Walk): Entry {
    if !w.sweep then e
    else if w.kind == INV then e.(numSharers := 0)
    else e.(exclusive := false)
  }
}
