// What every operation of the memory controller keeps.
module DdrInvariant {
  import opened Options
  import opened DdrQueue
  import opened DdrTiming
  import opened DdrState
  import W = ActivationWindow

  // The queue is in arrival order.
  ghost predicate InOrder(q: seq<Request>, stamps: nat) {
    && (forall i, j | 0 <= i < j < |q| :: q[i].stamp < q[j].stamp)
    && (forall i | 0 <= i < |q| :: q[i].stamp < stamps)
  }

  // A request is in the queue exactly if it is in the list of its bank.
  ghost predicate Listed(q: seq<Request>, lists: seq<seq<Request>>) {
    && (forall r | r in q :: r.bank < |lists| && r in lists[r.bank])
    && (forall b, r | 0 <= b < |lists| && r in lists[b] :: r.bank == b && r in q)
  }

  ghost predicate OwnQueue(c: Config, w: bool, q: seq<Request>) {
    forall r | r in q :: UsesWriteQueue(c, r) == w && (r.ev ==> !r.write)
  }

  ghost predicate FrFcfs(c: Config, lists: seq<seq<Request>>) {
    forall b | 0 <= b < |lists| :: QueueOk(lists[b], c.rowHitLimit)
  }

  // One of the two queues and its bank lists.
  ghost predicate SideOk(c: Config, w: bool, q: seq<Request>, lists: seq<seq<Request>>, stamps: nat) {
    InOrder(q, stamps) && Listed(q, lists) && OwnQueue(c, w, q) && FrFcfs(c, lists)
  }

  // With closed pages, a row is open only for the request at the head of a list of its bank.
  ghost predicate OpenIsWanted(c: Config, s: Channel) {
    c.closedPage ==>
      forall b | 0 <= b < |s.banks| && s.banks[b].open ::
        exists w :: HeadHits(s, b, w)
  }

  predicate HeadHits(s: Channel, b: nat, w: bool) {
    b < |s.Lists(w)| && b < |s.banks| && s.Lists(w)[b] != [] && s.Lists(w)[b][0].row == s.banks[b].openRow
  }

  ghost predicate HitsOk(c: Config, banks: seq<BankState>) {
    forall b | 0 <= b < |banks| :: banks[b].curRowHits <= c.rowHitLimit
  }

  // The cycles of the activations of rank k.
  ghost function ActsOf(c: Config, log: seq<Command>, k: nat): seq<nat> {
    if log == [] then []
    else
      var acts, x := ActsOf(c, log[..|log| - 1], k), log[|log| - 1];
      if x.Act? && c.rankOf(x.bank) == k then acts + [x.at] else acts
  }

  // The activation window of each rank covers the activations that have been issued to it.
  ghost predicate WindowsOk(c: Config, windows: seq<seq<nat>>, log: seq<Command>) {
    forall k | 0 <= k < |windows| :: W.Covers(windows[k], ActsOf(c, log, k), c.t.tFAW)
  }

  ghost predicate SidesOk(c: Config, s: Channel) {
    forall w :: SideOk(c, w, s.Queue(w), s.Lists(w), s.stamps)
  }

  ghost predicate CtrlOk(c: Config, s: Channel) {
    && Scannable(c, s)
    && SidesOk(c, s)
    && ChannelOk(c.t, s.banks, s.bus, s.log)
    && HitsOk(c, s.banks)
    && OpenIsWanted(c, s)
    && WindowsOk(c, s.windows, s.log)
  }

  // Whenever a request waits in any queue, a scheduling event is due.
  predicate Awake(s: Channel) {
    && (s.rdQueue != [] || s.wrQueue != [] ==> s.nextSched.Some?)
    && (s.overflow != [] ==> s.rdQueue != [] || s.wrQueue != [])
    && (s.nextSched.Some? ==> s.nextSched.value >= 1)
  }

  lemma InitialOk(c: Config)
    requires c.Ok()
    ensures CtrlOk(c, Initial(c)) && Awake(Initial(c))
  {
    var s := Initial(c);
    forall w ensures SideOk(c, w, s.Queue(w), s.Lists(w), s.stamps) {}
  }

  lemma Facts(c: Config, s: Channel, w: bool)
    requires CtrlOk(c, s)
    ensures Scannable(c, s) && SideOk(c, w, s.Queue(w), s.Lists(w), s.stamps) && FrFcfs(c, s.Lists(w))
    ensures s.bus.minResp >= c.t.tCL + c.t.tBL + 1
  {
  }

  // ----- queue() -----

  lemma InsertMembers(q: seq<Request>, pos: nat, r: Request, x: Request)
    requires pos <= |q|
    ensures x in InsertAt(q, pos, r) <==> x in q || x == r
  {
    var n := InsertAt(q, pos, r);
    if x in q {
      var i :| 0 <= i < |q| && q[i] == x;
      assert x == if i < pos then n[i] else n[i + 1];
    }
    if x in n {
      var i :| 0 <= i < |n| && n[i] == x;
      assert x == if i < pos then q[i] else if i == pos then r else q[i - 1];
    }
    assert n[pos] == r;
  }

  lemma QueuedListed(q: seq<Request>, lists: seq<seq<Request>>, r: Request, pos: nat)
    requires Listed(q, lists) && r.bank < |lists| && pos <= |lists[r.bank]|
    ensures Listed(q + [r], lists[r.bank := InsertAt(lists[r.bank], pos, r)])
  {
    forall x: Request ensures x in InsertAt(lists[r.bank], pos, r) <==> x in lists[r.bank] || x == r {
      InsertMembers(lists[r.bank], pos, r, x);
    }
  }

  lemma QueuedFrFcfs(c: Config, q: seq<Request>, lists: seq<seq<Request>>, r: Request, o: OpenRow)
    requires FrFcfs(c, lists) && r.bank < |lists| && InOrder(q, r.stamp) && Listed(q, lists)
    requires r.rowHitSeq == Place(lists[r.bank], r.row, o, c.rowHitLimit).1
    ensures FrFcfs(c, lists[r.bank := InsertAt(lists[r.bank], Place(lists[r.bank], r.row, o, c.rowHitLimit).0, r)])
  {
    hide Place, QueueOk;
    var l := lists[r.bank];
    forall i | 0 <= i < |l| ensures l[i].stamp < r.stamp {
      assert l[i] in lists[r.bank];
      assert l[i] in q;
    }
    QueuedOk(l, r, o, c.rowHitLimit);
    assert r.(rowHitSeq := r.rowHitSeq) == r;
  }

  lemma QueuedSide(c: Config, w: bool, q: seq<Request>, lists: seq<seq<Request>>, stamps: nat, r: Request, o: OpenRow)
    requires SideOk(c, w, q, lists, stamps) && r.bank < |lists|
    requires r.stamp == stamps && UsesWriteQueue(c, r) == w && (r.ev ==> !r.write)
    requires r.rowHitSeq == Place(lists[r.bank], r.row, o, c.rowHitLimit).1
    ensures var pos := Place(lists[r.bank], r.row, o, c.rowHitLimit).0;
            SideOk(c, w, q + [r], lists[r.bank := InsertAt(lists[r.bank], pos, r)], stamps + 1)
  {
    hide Listed, FrFcfs, QueueOk;
    QueuedFrFcfs(c, q, lists, r, o);
    PlaceInside(lists[r.bank], r.row, o, c.rowHitLimit);
    QueuedListed(q, lists, r, Place(lists[r.bank], r.row, o, c.rowHitLimit).0);
  }

  lemma PlaceInside(q: seq<Request>, row: nat, o: OpenRow, limit: nat)
    ensures Place(q, row, o, limit).0 <= |q| && (q != [] ==> Place(q, row, o, limit).0 >= 1)
  {
  }

  // The first request of a bank list counts on from the open row, if it goes there and the cap allows.
  lemma OpenRowHit(c: Config, s: Channel, r: Request, memCycle: nat)
    requires Scannable(c, s) && r.bank < c.numBanks && s.Lists(UsesWriteQueue(c, r))[r.bank] == []
    ensures var q, b := QueueIn(c, s, r, memCycle).Lists(UsesWriteQueue(c, r))[r.bank], s.banks[r.bank];
            && |q| == 1 && q[0].id == r.id && q[0].row == r.row
            && q[0].rowHitSeq == if b.open && b.openRow == r.row && b.curRowHits < c.rowHitLimit then b.curRowHits + 1
                                 else 0
  {
    assert LastSameRow([], r.row) == -1;
  }

  lemma QueueInSides(c: Config, s: Channel, r: Request, memCycle: nat, w: bool)
    requires Scannable(c, s) && r.bank < c.numBanks
    requires SidesOk(c, s)
    ensures var s1 := QueueIn(c, s, r, memCycle); SideOk(c, w, s1.Queue(w), s1.Lists(w), s1.stamps)
  {
    var u := UsesWriteQueue(c, r);
    var s1 := QueueIn(c, s, r, memCycle);
    assert SideOk(c, w, s.Queue(w), s.Lists(w), s.stamps);
    if w == u {
      QueuedSide(c, u, s.Queue(u), s.Lists(u), s.stamps, Stored(c, s, r, memCycle), Open(s.banks[r.bank]));
    } else {
      assert s1.Queue(w) == s.Queue(w) && s1.Lists(w) == s.Lists(w);
    }
  }

  // Nothing is put before the head of a nonempty list.
  lemma QueueInKeepsHeads(c: Config, s: Channel, r: Request, memCycle: nat, b: nat, w: bool)
    requires Scannable(c, s) && r.bank < c.numBanks && HeadHits(s, b, w)
    ensures HeadHits(QueueIn(c, s, r, memCycle), b, w)
  {
    var l := s.Lists(UsesWriteQueue(c, r))[r.bank];
    PlaceInside(l, r.row, Open(s.banks[r.bank]), c.rowHitLimit);
    hide Place;
  }

  lemma QueueInWanted(c: Config, s: Channel, r: Request, memCycle: nat)
    requires Scannable(c, s) && r.bank < c.numBanks && OpenIsWanted(c, s)
    ensures OpenIsWanted(c, QueueIn(c, s, r, memCycle))
  {
    var s1 := QueueIn(c, s, r, memCycle);
    if c.closedPage {
      forall b | 0 <= b < |s1.banks| && s1.banks[b].open ensures exists w :: HeadHits(s1, b, w) {
        var w :| HeadHits(s, b, w);
        QueueInKeepsHeads(c, s, r, memCycle, b, w);
      }
    }
  }

  lemma QueueInRest(c: Config, s: Channel, r: Request, memCycle: nat)
    requires Scannable(c, s) && r.bank < c.numBanks
    ensures var s1 := QueueIn(c, s, r, memCycle);
            && s1.banks == s.banks && s1.bus == s.bus && s1.log == s.log && s1.windows == s.windows
            && s1.nextSched == s.nextSched && s1.served == s.served && s1.overflow == s.overflow
            && Scannable(c, s1)
  {
    hide Place;
    var s1, r1 := QueueIn(c, s, r, memCycle), Stored(c, s, r, memCycle);
    forall w: bool, x | x in s1.Queue(w) ensures x in s.Queue(w) || x == r1 {}
  }

  lemma QueueInAllSides(c: Config, s: Channel, r: Request, memCycle: nat)
    requires Scannable(c, s) && r.bank < c.numBanks && SidesOk(c, s)
    ensures SidesOk(c, QueueIn(c, s, r, memCycle))
  {
    hide SideOk, Place;
    forall w ensures var s1 := QueueIn(c, s, r, memCycle); SideOk(c, w, s1.Queue(w), s1.Lists(w), s1.stamps) {
      QueueInSides(c, s, r, memCycle, w);
    }
  }

  lemma QueueInOk(c: Config, s: Channel, r: Request, memCycle: nat)
    requires CtrlOk(c, s) && r.bank < c.numBanks
    ensures CtrlOk(c, QueueIn(c, s, r, memCycle))
  {
    hide QueueIn, SidesOk, ChannelOk, OpenIsWanted, HitsOk, WindowsOk;
    QueueInRest(c, s, r, memCycle);
    QueueInAllSides(c, s, r, memCycle);
    QueueInWanted(c, s, r, memCycle);
  }

  // ----- trySchedule() -----

  lemma RestMembers(q: seq<Request>, stamps: nat, i: nat, x: Request)
    requires InOrder(q, stamps) && i < |q|
    ensures x in Without(q, i) <==> x in q && x != q[i]
  {
    var rest := Without(q, i);
    if x in rest {
      var k :| 0 <= k < |rest| && rest[k] == x;
      assert x == if k < i then q[k] else q[k + 1];
    }
    if x in q && x != q[i] {
      var j :| 0 <= j < |q| && q[j] == x;
      assert x == if j < i then rest[j] else rest[j - 1];
    }
  }

  lemma TailMembers(l: seq<Request>, limit: nat, x: Request)
    requires QueueOk(l, limit) && l != []
    ensures x in l[1..] <==> x in l && x != l[0]
  {
    assert l == [l[0]] + l[1..];
  }

  lemma ServedListed(c: Config, q: seq<Request>, lists: seq<seq<Request>>, stamps: nat, i: nat)
    requires InOrder(q, stamps) && Listed(q, lists) && FrFcfs(c, lists) && i < |q|
    requires var b := q[i].bank; b < |lists| && lists[b] != [] && lists[b][0] == q[i]
    ensures Listed(Without(q, i), lists[q[i].bank := lists[q[i].bank][1..]])
  {
    hide InOrder, QueueOk;
    var l := lists[q[i].bank];
    forall x: Request ensures x in Without(q, i) <==> x in q && x != q[i] { RestMembers(q, stamps, i, x); }
    forall x: Request ensures x in l[1..] <==> x in l && x != l[0] { TailMembers(l, c.rowHitLimit, x); }
  }

  lemma ServedSide(c: Config, w: bool, q: seq<Request>, lists: seq<seq<Request>>, stamps: nat, i: nat)
    requires SideOk(c, w, q, lists, stamps) && i < |q|
    requires var b := q[i].bank; b < |lists| && lists[b] != [] && lists[b][0] == q[i]
    ensures SideOk(c, w, Without(q, i), lists[q[i].bank := lists[q[i].bank][1..]], stamps)
  {
    hide Listed, QueueOk, InOrder;
    ServedListed(c, q, lists, stamps, i);
    ServedInOrder(q, stamps, i);
    forall x | x in Without(q, i) ensures x in q { RestMembers(q, stamps, i, x); }
    ServedOk(lists[q[i].bank], c.rowHitLimit);
  }

  lemma ServedInOrder(q: seq<Request>, stamps: nat, i: nat)
    requires InOrder(q, stamps) && i < |q|
    ensures InOrder(Without(q, i), stamps)
  {
  }

  ghost predicate CanServe(c: Config, s: Channel, w: bool, i: nat, cur: nat) {
    Scannable(c, s) && i < |s.Queue(w)| && IsHead(s, w, s.Queue(w)[i]) && s.Queue(w)[i].bank < c.numBanks
    && MinCmd(c, s, s.Queue(w)[i]) <= cur
  }

  lemma ServeSides(c: Config, s: Channel, w: bool, i: nat, cur: nat, v: bool)
    requires CanServe(c, s, w, i, cur)
    requires SidesOk(c, s)
    ensures var s1 := Serve(c, s, w, i, cur); SideOk(c, v, s1.Queue(v), s1.Lists(v), s1.stamps)
  {
    var s1 := Serve(c, s, w, i, cur);
    assert SideOk(c, v, s.Queue(v), s.Lists(v), s.stamps);
    if v == w {
      ServedSide(c, w, s.Queue(w), s.Lists(w), s.stamps, i);
    } else {
      assert s1.Queue(v) == s.Queue(v) && s1.Lists(v) == s.Lists(v);
    }
  }

  lemma ServeWanted(c: Config, s: Channel, w: bool, i: nat, cur: nat)
    requires CanServe(c, s, w, i, cur) && OpenIsWanted(c, s)
    requires SideOk(c, w, s.Queue(w), s.Lists(w), s.stamps)
    ensures OpenIsWanted(c, Serve(c, s, w, i, cur))
  {
    var s1, r := Serve(c, s, w, i, cur), s.Queue(w)[i];
    if c.closedPage {
      forall b | 0 <= b < |s1.banks| && s1.banks[b].open ensures exists v :: HeadHits(s1, b, v) {
        if b == r.bank {
          LeftOpenIsWanted(s.Lists(w)[b], c.rowHitLimit);
          assert HeadHits(s1, b, w);
        } else {
          var v :| HeadHits(s, b, v);
          assert HeadHits(s1, b, v);
        }
      }
    }
  }

  lemma ServeShape(c: Config, s: Channel, w: bool, i: nat, cur: nat)
    requires CanServe(c, s, w, i, cur)
    ensures Scannable(c, Serve(c, s, w, i, cur))
  {
    var s1 := Serve(c, s, w, i, cur);
    forall v: bool, r | r in s1.Queue(v) ensures r in s.Queue(v) {
      if v == w {
        var k :| 0 <= k < |s1.Queue(w)| && s1.Queue(w)[k] == r;
        assert r == if k < i then s.Queue(w)[k] else s.Queue(w)[k + 1];
      }
    }
  }

  lemma ServeTiming(c: Config, s: Channel, w: bool, i: nat, cur: nat)
    requires CanServe(c, s, w, i, cur) && ChannelOk(c.t, s.banks, s.bus, s.log)
    ensures var s1 := Serve(c, s, w, i, cur); ChannelOk(c.t, s1.banks, s1.bus, s1.log)
  {
    hide ChannelOk, FindMinCmdCycle, IssuedBank, IssuedBus, IssuedCommands, W.Added;
    var r := s.Queue(w)[i];
    var l := s.Lists(w)[r.bank];
    IssueOk(c.t, s.banks, s.bus, s.log, r, WindowMin(c, s, r), cur, c.closedPage, KeepsOpen(l));
  }

  lemma ActsPushed(c: Config, log: seq<Command>, x: Command, k: nat)
    ensures ActsOf(c, log + [x], k)
            == if x.Act? && c.rankOf(x.bank) == k then ActsOf(c, log, k) + [x.at] else ActsOf(c, log, k)
  {
    assert (log + [x])[..|log|] == log;
  }

  lemma IssuedActs(c: Config, log: seq<Command>, b: BankState, bus: Bus, r: Request, wm: nat, cur: nat,
                   close: bool, k: nat)
    requires bus.minResp >= c.t.tCL
    ensures ActsOf(c, log + IssuedCommands(c.t, b, bus, r, wm, cur, close), k)
            == if !RowHit(b, r) && c.rankOf(r.bank) == k then ActsOf(c, log, k) + [ActCycle(c.t, b, r, wm)]
               else ActsOf(c, log, k)
  {
    var act := Act(r.bank, ActCycle(c.t, b, r, wm), r.row);
    var col := Col(r.bank, CmdCycle(c.t, b, bus, r, wm, cur), r.write, r.row, close);
    hide ActCycle, CmdCycle, ActsOf, RowHit;
    if RowHit(b, r) {
      ActsPushed(c, log, col, k);
      assert log + IssuedCommands(c.t, b, bus, r, wm, cur, close) == log + [col];
    } else {
      ActsPushed(c, log, act, k);
      ActsPushed(c, log + [act], col, k);
      assert log + IssuedCommands(c.t, b, bus, r, wm, cur, close) == log + [act] + [col];
    }
  }

  // An activation is recorded tFAW after the oldest one in its window or later.
  lemma ServeWindows(c: Config, s: Channel, w: bool, i: nat, cur: nat)
    requires CanServe(c, s, w, i, cur) && WindowsOk(c, s.windows, s.log) && s.bus.minResp >= c.t.tCL
    ensures var s1 := Serve(c, s, w, i, cur); WindowsOk(c, s1.windows, s1.log)
  {
    var s1, r := Serve(c, s, w, i, cur), s.Queue(w)[i];
    var b, wm := s.banks[r.bank], WindowMin(c, s, r);
    assert ActCycle(c.t, b, r, wm) >= wm + c.t.tFAW;
    hide FindMinCmdCycle, ActCycle, IssuedBank, IssuedBus, IssuedCommands, W.Added, W.Covers;
    forall k | 0 <= k < |s1.windows| ensures W.Covers(s1.windows[k], ActsOf(c, s1.log, k), c.t.tFAW) {
      IssuedActs(c, s.log, b, s.bus, r, wm, cur, Closes(c, s, w, i), k);
      if !RowHit(b, r) && k == c.rankOf(r.bank) {
        W.ActivationOk(s.windows[k], ActsOf(c, s.log, k), ActCycle(c.t, b, r, wm), c.t.tFAW);
      }
    }
  }

  lemma ServeHits(c: Config, s: Channel, w: bool, i: nat, cur: nat)
    requires CanServe(c, s, w, i, cur) && HitsOk(c, s.banks) && FrFcfs(c, s.Lists(w))
    ensures HitsOk(c, Serve(c, s, w, i, cur).banks)
  {
    hide FindMinCmdCycle, CmdCycle, ActCycle, W.Added;
    assert s.Lists(w)[s.Queue(w)[i].bank][0].rowHitSeq <= c.rowHitLimit;
  }

  lemma ServeAllSides(c: Config, s: Channel, w: bool, i: nat, cur: nat)
    requires CanServe(c, s, w, i, cur) && SidesOk(c, s)
    ensures SidesOk(c, Serve(c, s, w, i, cur))
  {
    hide SideOk, FindMinCmdCycle;
    forall v ensures var s1 := Serve(c, s, w, i, cur); SideOk(c, v, s1.Queue(v), s1.Lists(v), s1.stamps) {
      ServeSides(c, s, w, i, cur, v);
    }
  }

  lemma ServeOk(c: Config, s: Channel, w: bool, i: nat, cur: nat)
    requires CtrlOk(c, s) && CanServe(c, s, w, i, cur)
    ensures CtrlOk(c, Serve(c, s, w, i, cur))
  {
    hide Serve, SideOk, ChannelOk, OpenIsWanted, HitsOk, WindowsOk, FindMinCmdCycle;
    ServeShape(c, s, w, i, cur);
    ServeAllSides(c, s, w, i, cur);
    Facts(c, s, w);
    ServeWanted(c, s, w, i, cur);
    ServeTiming(c, s, w, i, cur);
    ServeWindows(c, s, w, i, cur);
    ServeHits(c, s, w, i, cur);
  }

  // Scanning stops at the first head that is ready; otherwise no head is, and the cycle it
  // reports is later than the present one.
  lemma {:induction false} ScanFinds(c: Config, s: Channel, w: bool, cur: nat, i: nat, least: Option<nat>)
    requires Scannable(c, s) && i <= |s.Queue(w)| && Later(least, cur)
    ensures var q, (j, m) := s.Queue(w), Scan(c, s, w, cur, i, least);
            && i <= j <= |q|
            && (j < |q| ==> CanServe(c, s, w, j, cur))
            && (forall k | i <= k < j && IsHead(s, w, q[k]) :: MinCmd(c, s, q[k]) > cur)
            && (j == |q| ==> Later(m, cur))
            && (j == |q| && (least.Some? || exists k :: i <= k < |q| && IsHead(s, w, q[k])) ==> m.Some?)
    decreases |s.Queue(w)| - i
  {
    hide FindMinCmdCycle, WindowMin;
    var q := s.Queue(w);
    if i < |q| {
      assert q[i] in q;
      if IsHead(s, w, q[i]) {
        var m := MinCmd(c, s, q[i]);
        if m > cur { ScanFinds(c, s, w, cur, i + 1, Least(least, m)); }
      } else {
        ScanFinds(c, s, w, cur, i + 1, least);
      }
    }
  }

  lemma HeadExists(c: Config, s: Channel, w: bool)
    requires SideOk(c, w, s.Queue(w), s.Lists(w), s.stamps) && s.Queue(w) != []
    ensures exists k :: 0 <= k < |s.Queue(w)| && IsHead(s, w, s.Queue(w)[k])
  {
    var q := s.Queue(w);
    assert q[0] in q;
    var l := s.Lists(w)[q[0].bank];
    assert l[0] in l;
    var k :| 0 <= k < |q| && q[k] == l[0];
    assert IsHead(s, w, q[k]);
  }

  // The queue that is picked is never empty.
  lemma PickedNotEmpty(c: Config, s: Channel)
    requires s.rdQueue != [] || s.wrQueue != []
    ensures s.Queue(PicksWriteQueue(c, s)) != []
  {
  }

  // Request i of a queue has been served and left it.
  ghost predicate Served(s: Channel, s1: Channel, w: bool, i: nat) {
    && i < |s.Queue(w)| && s1.Queue(w) == Without(s.Queue(w), i) && s1.Queue(!w) == s.Queue(!w)
    && s1.overflow == s.overflow && s1.served == s.served + [s.Queue(w)[i]]
  }

  lemma ServeFacts(c: Config, s: Channel, w: bool, i: nat, cur: nat)
    requires CanServe(c, s, w, i, cur) && s.bus.minResp >= c.t.tCL
    ensures var s1 := Serve(c, s, w, i, cur);
            Served(s, s1, w, i) && s1.bus.minResp - c.t.tCL > cur && s1.nextSched == s.nextSched
  {
    hide FindMinCmdCycle, IssuedBank, W.Added, IssuedCommands;
  }

  // Either nothing waits, or there is a cycle to come back at, never a past one; the cycle is
  // later than the present one unless a request has been served.
  lemma TryScheduleOk(c: Config, s: Channel, cur: nat)
    requires CtrlOk(c, s)
    ensures var (s1, m) := TrySchedule(c, s, cur);
            && CtrlOk(c, s1)
            && (m.None? <==> s1.rdQueue == [] && s1.wrQueue == [])
            && Later(m, cur)
            && (s1 == s || exists w, i :: Served(s, s1, w, i)) && s1.nextSched == s.nextSched
  {
    hide CtrlOk, Scan, SideOk, PicksWriteQueue, Serve, FindMinCmdCycle, Scannable;
    Facts(c, s, true);
    if s.rdQueue != [] || s.wrQueue != [] {
      if cur + c.t.tCL >= s.bus.minResp {
        var w := PicksWriteQueue(c, s);
        PickedNotEmpty(c, s);
        Facts(c, s, w);
        HeadExists(c, s, w);
        ScanFinds(c, s, w, cur, 0, None);
        var i := Scan(c, s, w, cur, 0, None).0;
        if i < |s.Queue(w)| {
          ServeOk(c, s, w, i, cur);
          ServeFacts(c, s, w, i, cur);
        }
      }
    }
  }
}
