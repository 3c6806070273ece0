// The memory controller of one channel as a value: queues, bank lists, bank and bus state, and
// what queueing, scheduling and refreshing make of them.
module DdrState {
  import opened Options
  import opened DdrCycles
  import opened DdrQueue
  import opened DdrTiming
  import W = ActivationWindow

  datatype Config = Config(t: Timing, rowHitLimit: nat, queueDepth: nat, deferredWrites: bool, closedPage: bool,
                           sysFreq: nat, memFreq: nat, sysLatency: nat,
                           numBanks: nat, numRanks: nat, rankOf: nat -> nat)
  {
    predicate Ok() {
      && t.Ok() && queueDepth > 0 && 0 < memFreq && 2 * memFreq <= sysFreq
      && numBanks > 0 && forall b: nat | b < numBanks :: rankOf(b) < numRanks
    }
  }

  // nextSched is the memory cycle of the next scheduling event, None when there is none. The last
  // three fields are bookkeeping: commands issued, requests served, requests put in bank lists.
  datatype Channel = Channel(
    banks: seq<BankState>, rdLists: seq<seq<Request>>, wrLists: seq<seq<Request>>, bus: Bus,
    windows: seq<seq<nat>>, rdQueue: seq<Request>, wrQueue: seq<Request>, overflow: seq<Request>,
    nextSched: Option<nat>, log: seq<Command>, served: seq<Request>, stamps: nat)
  {
    function Lists(w: bool): seq<seq<Request>> {
      if w then wrLists else rdLists
    }

    function Queue(w: bool): seq<Request> {
      if w then wrQueue else rdQueue
    }

    function WithQueue(w: bool, q: seq<Request>): Channel {
      if w then this.(wrQueue := q) else this.(rdQueue := q)
    }

    function WithList(w: bool, b: nat, l: seq<Request>): Channel
      requires b < |Lists(w)|
    {
      if w then this.(wrLists := wrLists[b := l]) else this.(rdLists := rdLists[b := l])
    }

    predicate Full(depth: nat) {
      |rdQueue| >= depth || |wrQueue| >= depth
    }
  }

  predicate Shape(c: Config, s: Channel) {
    && c.Ok() && |s.banks| == |s.rdLists| == |s.wrLists| == c.numBanks && |s.windows| == c.numRanks
    && (forall k | 0 <= k < |s.windows| :: |s.windows[k]| == 4)
    && s.bus.minResp >= c.t.tCL + c.t.tBL + 1
  }

  function Initial(c: Config): Channel {
    Channel(seq(c.numBanks, _ => BankState(false, 0, 0, 0, 0, 0)), seq(c.numBanks, _ => []), seq(c.numBanks, _ => []),
            Bus(c.t.tCL + c.t.tBL + 1, false), seq(c.numRanks, _ => [0, 0, 0, 0]), [], [], [], None, [], [], 0)
  }

  function UsesWriteQueue(c: Config, r: Request): bool {
    c.deferredWrites && r.write
  }

  function Open(b: BankState): OpenRow {
    OpenRow(b.open, b.openRow, b.curRowHits)
  }

  function WindowMin(c: Config, s: Channel, r: Request): nat
    requires c.rankOf(r.bank) < |s.windows| && |s.windows[c.rankOf(r.bank)]| > 0
  {
    s.windows[c.rankOf(r.bank)][0]
  }

  function MinCmd(c: Config, s: Channel, r: Request): nat
    requires Shape(c, s) && r.bank < c.numBanks
  {
    FindMinCmdCycle(c.t, s.banks[r.bank], r, WindowMin(c, s, r))
  }

  // ----- queue(): a request enters its queue and its bank list -----

  // The request as it is stored (a write has been responded to by then), and whether it is the first of its bank list.
  function Stored(c: Config, s: Channel, r: Request, memCycle: nat): Request
    requires r.bank < |s.Lists(UsesWriteQueue(c, r))| && r.bank < |s.banks|
  {
    var q := s.Lists(UsesWriteQueue(c, r))[r.bank];
    r.(arrival := memCycle, ev := r.ev && !r.write, stamp := s.stamps,
       rowHitSeq := Place(q, r.row, Open(s.banks[r.bank]), c.rowHitLimit).1)
  }

  function GoesFirst(c: Config, s: Channel, r: Request): bool
    requires r.bank < |s.Lists(UsesWriteQueue(c, r))| && r.bank < |s.banks|
  {
    Place(s.Lists(UsesWriteQueue(c, r))[r.bank], r.row, Open(s.banks[r.bank]), c.rowHitLimit).0 == 0
  }

  function QueueIn(c: Config, s: Channel, r: Request, memCycle: nat): Channel
    requires r.bank < |s.Lists(UsesWriteQueue(c, r))| && r.bank < |s.banks|
  {
    var w := UsesWriteQueue(c, r);
    var q := s.Lists(w)[r.bank];
    var r1 := Stored(c, s, r, memCycle);
    var (pos, _) := Place(q, r.row, Open(s.banks[r.bank]), c.rowHitLimit);
    s.WithQueue(w, s.Queue(w) + [r1]).WithList(w, r.bank, InsertAt(q, pos, r1)).(stamps := s.stamps + 1)
  }

  // ----- enqueue() -----

  predicate Later(a: Option<nat>, m: nat) {
    a.None? || a.value > m
  }

  function BusFree(c: Config, s: Channel): nat
    requires s.bus.minResp >= c.t.tCL + c.t.tBL
  {
    s.bus.minResp - c.t.tCL - c.t.tBL
  }

  function WakeAt(c: Config, m: nat, sysCycle: nat): nat
    requires m >= 1 && c.memFreq > 0
  {
    Max(MatchingMemToSys(m, c.sysFreq, c.memFreq), sysCycle)
  }

  // The new state, and the system cycle for which a scheduling event has to be queued, if any.
  function Enqueue(c: Config, s: Channel, r: Request, sysCycle: nat): (Channel, Option<nat>)
    requires Shape(c, s) && r.bank < c.numBanks
  {
    var memCycle := SysToMem(sysCycle, c.sysFreq, c.memFreq);
    if s.Full(c.queueDepth) then (s.(overflow := s.overflow + [r]), None)
    else
      var s1 := QueueIn(c, s, r, memCycle);
      if !GoesFirst(c, s, r) then (s1, None)
      else
        var m0 := Max(memCycle, BusFree(c, s));
        var m1 := if Later(s.nextSched, m0) then Max(m0, MinCmd(c, s, Stored(c, s, r, memCycle))) else m0;
        if Later(s.nextSched, m1) then (s1.(nextSched := Some(m1)), Some(WakeAt(c, m1, sysCycle)))
        else (s1, None)
  }

  // ----- trySchedule() -----

  predicate IsHead(s: Channel, w: bool, r: Request) {
    r.bank < |s.Lists(w)| && s.Lists(w)[r.bank] != [] && s.Lists(w)[r.bank][0] == r
  }

  function Least(a: Option<nat>, m: nat): Option<nat> {
    if Later(a, m) then Some(m) else a
  }

  // Scans the queue in order for a head that is ready; returns its index, or |queue| and the
  // least minimum cycle of the heads seen.
  function Scan(c: Config, s: Channel, w: bool, cur: nat, i: nat, least: Option<nat>): (nat, Option<nat>)
    requires Shape(c, s) && i <= |s.Queue(w)|
    requires forall r | r in s.Queue(w) :: r.bank < c.numBanks
    decreases |s.Queue(w)| - i
  {
    var q := s.Queue(w);
    if i == |q| then (i, least)
    else if IsHead(s, w, q[i]) then
      var m := MinCmd(c, s, q[i]);
      if m <= cur then (i, Least(least, m)) else Scan(c, s, w, cur, i + 1, Least(least, m))
    else Scan(c, s, w, cur, i + 1, least)
  }

  predicate PicksWriteQueue(c: Config, s: Channel) {
    s.rdQueue == [] || |s.wrQueue| > 3 * c.queueDepth / 4
    || (s.bus.lastWasWrite && |s.wrQueue| > c.queueDepth / 4)
  }

  function Without(q: seq<Request>, i: nat): (r: seq<Request>)
    requires i < |q|
    ensures |r| == |q| - 1
  {
    q[..i] + q[i + 1..]
  }

  // With closed pages, a row is closed behind a request unless the next one in its bank list is a row hit.
  predicate KeepsOpen(l: seq<Request>) {
    |l| > 1 && l[1].rowHitSeq != 0
  }

  predicate Closes(c: Config, s: Channel, w: bool, i: nat)
    requires i < |s.Queue(w)| && s.Queue(w)[i].bank < |s.Lists(w)|
  {
    c.closedPage && !KeepsOpen(s.Lists(w)[s.Queue(w)[i].bank])
  }

  // Serving request i of the chosen queue, the head of its bank list, at memory cycle cur.
  function Serve(c: Config, s: Channel, w: bool, i: nat, cur: nat): Channel
    requires i < |s.Queue(w)| && s.bus.minResp >= c.t.tCL
    requires var r := s.Queue(w)[i];
             && r.bank < |s.banks| && r.bank < |s.Lists(w)| && s.Lists(w)[r.bank] != []
             && c.rankOf(r.bank) < |s.windows| && |s.windows[c.rankOf(r.bank)]| > 0
  {
    var r := s.Queue(w)[i];
    var l, b, k := s.Lists(w)[r.bank], s.banks[r.bank], c.rankOf(r.bank);
    var wm := WindowMin(c, s, r);
    s.WithQueue(w, Without(s.Queue(w), i)).WithList(w, r.bank, l[1..]).(
      banks := s.banks[r.bank := IssuedBank(c.t, b, s.bus, r, wm, cur, c.closedPage, KeepsOpen(l))],
      bus := IssuedBus(c.t, b, s.bus, r, wm, cur),
      windows := if RowHit(b, r) then s.windows
                 else s.windows[k := W.Added(s.windows[k], ActCycle(c.t, b, r, wm))],
      log := s.log + IssuedCommands(c.t, b, s.bus, r, wm, cur, Closes(c, s, w, i)), served := s.served + [r])
  }

  predicate Scannable(c: Config, s: Channel) {
    Shape(c, s) && (forall w: bool, r | r in s.Queue(w) :: r.bank < c.numBanks)
    && (forall r | r in s.overflow :: r.bank < c.numBanks)
  }

  // The index of the request that is served in this cycle, if any; the queue it comes from.
  function Ready(c: Config, s: Channel, cur: nat): Option<nat>
    requires Scannable(c, s)
  {
    if (s.rdQueue == [] && s.wrQueue == []) || cur + c.t.tCL < s.bus.minResp then None
    else
      var w := PicksWriteQueue(c, s);
      var (i, _) := Scan(c, s, w, cur, 0, None);
      if i < |s.Queue(w)| && IsHead(s, w, s.Queue(w)[i]) then Some(i) else None
  }

  function TrySchedule(c: Config, s: Channel, cur: nat): (res: (Channel, Option<nat>))
    requires Scannable(c, s)
    ensures Scannable(c, res.0)
  {
    if s.rdQueue == [] && s.wrQueue == [] then (s, None)
    else if cur + c.t.tCL < s.bus.minResp then (s, Some(s.bus.minResp - c.t.tCL))
    else
      var w := PicksWriteQueue(c, s);
      match Ready(c, s, cur)
      case None => (s, Scan(c, s, w, cur, 0, None).1)
      case Some(i) =>
        var s1 := Serve(c, s, w, i, cur);
        (s1, if s1.rdQueue == [] && s1.wrQueue == [] then None else Some(s1.bus.minResp - c.t.tCL))
  }

  // ----- tick() -----

  function Refill(c: Config, s: Channel, least: Option<nat>, memCycle: nat): (Channel, Option<nat>)
    requires Shape(c, s) && forall r | r in s.overflow :: r.bank < c.numBanks
  {
    if s.Full(c.queueDepth) || s.overflow == [] then (s, least)
    else
      var r := s.overflow[0];
      assert r in s.overflow;
      var s1 := QueueIn(c, s.(overflow := s.overflow[1..]), r, memCycle);
      if !GoesFirst(c, s, r) then (s1, least)
      else
        var m0 := Max(memCycle, BusFree(c, s));
        var m1 := if Later(least, m0) then Some(Max(m0, MinCmd(c, s, Stored(c, s, r, memCycle)))) else least;
        (s1, if Later(m1, m0) then Some(m0) else m1)
  }

  // The new state, and the system cycle of the next scheduling event, 0 when there is none.
  function Tick(c: Config, s: Channel, sysCycle: nat): (Channel, nat)
    requires Scannable(c, s)
  {
    var memCycle := SysToMem(sysCycle, c.sysFreq, c.memFreq);
    var (s1, m1) := TrySchedule(c, s, memCycle);
    var (s2, m2) := Refill(c, s1, m1, memCycle);
    match m2
    case None => (s2.(nextSched := None), 0)
    case Some(m) => (s2.(nextSched := m2), if m >= 1 then WakeAt(c, m, sysCycle) else 0)
  }

  function Refresh(c: Config, s: Channel, sysCycle: nat): Channel
    requires c.sysFreq > 0 && RefreshDone(c.t, s.banks, SysToMem(sysCycle, c.sysFreq, c.memFreq)) >= c.t.tRP
  {
    var done := RefreshDone(c.t, s.banks, SysToMem(sysCycle, c.sysFreq, c.memFreq));
    s.(banks := Refreshed(c.t, s.banks, done), log := s.log + [Ref(done)])
  }
}
