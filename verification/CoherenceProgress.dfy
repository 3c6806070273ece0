// Every access, eviction and invalidation comes to an end: each step the controllers take by
// themselves uses up part of a finite budget.
module CoherenceProgress {
  import opened Options
  import opened CoherenceControllers
  import opened CoherenceSystem
  import opened CoherenceInvariant
  import opened CoherenceTheorems

  // ----- Budgets -----

  // The steps of an invalidation that enters node n and walks over everything below it.
  ghost function Sweep(par: seq<nat>, n: nat): nat
    requires n < |par|
    decreases |par| - n, 1, 0
  {
    2 + Below(par, n, 0)
  }

  // The same for all children of n from number i on.
  ghost function Below(par: seq<nat>, n: nat, i: nat): nat
    requires n < |par| && i <= |par|
    decreases |par| - n, 0, |par| - i
  {
    if i == |par| then 0 else (if par[i] == n && i > n then Sweep(par, i) else 0) + Below(par, n, i + 1)
  }

  // The same for the nodes in todo.
  ghost function TodoCost(par: seq<nat>, todo: set<nat>, i: nat): nat
    requires i <= |par|
    decreases |par| - i
  {
    if i == |par| then 0 else (if i in todo then Sweep(par, i) else 0) + TodoCost(par, todo, i + 1)
  }

  // What is left of a walk, not counting the child it is in.
  ghost function WalkCost(par: seq<nat>, w: Walk): nat {
    TodoCost(par, if w.at.Some? then w.todo - {w.at.value} else w.todo, 0)
  }

  // A request that waits for its parent to take it up: the parent's work, and the parent's own request.
  ghost function RequestCost(par: seq<nat>, n: nat): nat
    requires IsTree(par) && n < |par|
    decreases n
  {
    if n == 0 then 1 else 1 + Sweep(par, par[n]) + RequestCost(par, par[n])
  }

  ghost function ActCost(par: seq<nat>, n: nat, a: Activity): nat
    requires IsTree(par) && n < |par|
  {
    match a
    case Idle => 0
    case Fetching(_, _, _) => Sweep(par, n)
    case Ready(_, _, _) => Sweep(par, n)
    case Granting(_, _, w, _) => 1 + WalkCost(par, w)
    case Flushing(w) => 1 + RequestCost(par, n) + WalkCost(par, w)
    case Putting => 0
  }

  ghost function NodeCost(par: seq<nat>, n: nat, x: Node, served: bool): nat
    requires IsTree(par) && n < |par|
  {
    ActCost(par, n, x.act)
    + (if x.down.Some? then 1 + WalkCost(par, x.down.value) else 0)
    + (if x.req.Some? && !served then RequestCost(par, n) else 0)
  }

  // The parent is busy with the request of node i.
  ghost predicate Served(par: seq<nat>, s: System, i: nat)
    requires IsTree(par) && |s.nodes| == |par| && i < |par|
  {
    i > 0 && s.nodes[par[i]].act.Serves(i)
  }

  ghost function Budget(par: seq<nat>, s: System, k: nat): nat
    requires IsTree(par) && |s.nodes| == |par| && k <= |par|
  {
    if k == 0 then 0 else Budget(par, s, k - 1) + NodeCost(par, k - 1, s.nodes[k - 1], Served(par, s, k - 1))
  }

  // ----- Sums -----

  lemma {:induction false} TodoBelow(par: seq<nat>, n: nat, todo: set<nat>, i: nat)
    requires IsTree(par) && n < |par| && i <= |par| && forall c | c in todo :: IsChild(par, n, c)
    ensures TodoCost(par, todo, i) <= Below(par, n, i)
    decreases |par| - i
  {
    if i < |par| { TodoBelow(par, n, todo, i + 1); }
  }

  lemma {:induction false} TodoWithout(par: seq<nat>, todo: set<nat>, c: nat, i: nat)
    requires i <= |par| && c < |par| && c in todo
    ensures TodoCost(par, todo, i) == TodoCost(par, todo - {c}, i) + (if c >= i then Sweep(par, c) else 0)
    decreases |par| - i
  {
    if i < |par| { TodoWithout(par, todo, c, i + 1); }
  }

  // Starting a walk at n costs no more than is set aside for it.
  lemma StartCost(par: seq<nat>, n: nat, kind: InvType, e: Entry)
    requires IsTree(par) && n < |par| && forall c | c in e.sharers :: IsChild(par, n, c)
    ensures WalkCost(par, StartWalk(kind, e)) + 2 <= Sweep(par, n)
  {
    TodoBelow(par, n, StartWalk(kind, e).todo, 0);
  }

  lemma {:induction false} BudgetSplit(par: seq<nat>, s: System, t: System, k: nat, p: nat, c: nat)
    requires IsTree(par) && |s.nodes| == |t.nodes| == |par| && k <= |par| && p < |par| && c < |par| && p != c
    requires forall i | 0 <= i < k && i != p && i != c ::
               NodeCost(par, i, s.nodes[i], Served(par, s, i)) == NodeCost(par, i, t.nodes[i], Served(par, t, i))
    ensures Budget(par, t, k) - Budget(par, s, k)
            == (if p < k then Change(par, s, t, p) else 0) + (if c < k then Change(par, s, t, c) else 0)
    decreases k
  {
    hide NodeCost, Served;
    if k > 0 { BudgetSplit(par, s, t, k - 1, p, c); }
  }

  ghost function Change(par: seq<nat>, s: System, t: System, i: nat): int
    requires IsTree(par) && |s.nodes| == |t.nodes| == |par| && i < |par|
  {
    NodeCost(par, i, t.nodes[i], Served(par, t, i)) - NodeCost(par, i, s.nodes[i], Served(par, s, i))
  }

  predicate SameService(x: Activity, y: Activity, i: nat) {
    x.Serves(i) <==> y.Serves(i)
  }

  // A step at a node and one of its children, which takes up or finishes no other request.
  lemma PairStep(par: seq<nat>, s: System, p: nat, c: nat, x: Node, y: Node)
    requires IsTree(par) && |s.nodes| == |par| && IsChild(par, p, c)
    requires forall i: nat | IsChild(par, p, i) && i != c :: SameService(x.act, s.nodes[p].act, i)
    requires forall i: nat | IsChild(par, c, i) :: SameService(y.act, s.nodes[c].act, i)
    requires var served := Served(par, s, p);
             NodeCost(par, p, x, served) + NodeCost(par, c, y, x.act.Serves(c))
             < NodeCost(par, p, s.nodes[p], served) + NodeCost(par, c, s.nodes[c], s.nodes[p].act.Serves(c))
    ensures Budget(par, Put2(s, p, c, (x, y)), |par|) < Budget(par, s, |par|)
  {
    hide NodeCost;
    var t := Put2(s, p, c, (x, y));
    forall i | 0 <= i < |par| && i != p && i != c
      ensures NodeCost(par, i, s.nodes[i], Served(par, s, i)) == NodeCost(par, i, t.nodes[i], Served(par, t, i))
    {
      assert t.nodes[i] == s.nodes[i];
      if i > 0 && par[i] == p { assert IsChild(par, p, i); }
      if i > 0 && par[i] == c { assert IsChild(par, c, i); }
    }
    BudgetSplit(par, s, t, |par|, p, c);
    assert t.nodes[p] == x && t.nodes[c] == y;
  }

  // A step at one node, which takes up or finishes no request of a child.
  lemma OneStep(par: seq<nat>, s: System, n: nat, x: Node, dirty: bool)
    requires IsTree(par) && |s.nodes| == |par| && n < |par|
    requires forall i: nat | IsChild(par, n, i) :: SameService(x.act, s.nodes[n].act, i)
    requires NodeCost(par, n, x, Served(par, s, n)) < NodeCost(par, n, s.nodes[n], Served(par, s, n))
    ensures Budget(par, Put1(s, n, x).(dirty := dirty), |par|) < Budget(par, s, |par|)
  {
    hide NodeCost;
    var t := Put1(s, n, x).(dirty := dirty);
    forall i | 0 <= i < |par| && i != n
      ensures NodeCost(par, i, s.nodes[i], Served(par, s, i)) == NodeCost(par, i, t.nodes[i], Served(par, t, i))
    {
      if i > 0 && par[i] == n { assert IsChild(par, n, i); }
    }
    SingleSplit(par, s, t, |par|, n);
  }

  lemma {:induction false} SingleSplit(par: seq<nat>, s: System, t: System, k: nat, n: nat)
    requires IsTree(par) && |s.nodes| == |t.nodes| == |par| && k <= |par| && n < |par|
    requires forall i | 0 <= i < k && i != n ::
               NodeCost(par, i, s.nodes[i], Served(par, s, i)) == NodeCost(par, i, t.nodes[i], Served(par, t, i))
    ensures Budget(par, t, k) - Budget(par, s, k) == if n < k then Change(par, s, t, n) else 0
    decreases k
  {
    hide NodeCost, Served;
    if k > 0 { SingleSplit(par, s, t, k - 1, n); }
  }

  // ----- Every step by itself -----

  lemma DoneCost(par: seq<nat>, s: System, n: nat)
    requires Inv(par, s) && Enabled(par, s, Done(n))
    ensures Budget(par, Apply(par, s, Done(n)), |par|) < Budget(par, s, |par|)
  {
    var x := s.nodes[n].(act := Idle);
    hide Inv, Budget, Below;
    OneStep(par, s, n, x, s.dirty || s.nodes[n].act.typ == GETX);
  }

  lemma AnsweredCost(par: seq<nat>, n: nat, x: Node, m: State, served: bool)
    requires IsTree(par) && n < |par| && NodeOk(x) && x.req.Some?
    ensures NodeCost(par, n, x.Answered(m), served) <= NodeCost(par, n, x, true)
    ensures NodeCost(par, n, x, false) >= NodeCost(par, n, x, true) + 1
    ensures forall i :: SameService(x.Answered(m).act, x.act, i)
  {
  }

  lemma AcceptCost(par: seq<nat>, p: nat, x: Node, child: Option<nat>, t: AccessType, nx: bool, served: bool)
    requires IsTree(par) && p < |par| && NodeOk(x) && x.act.Idle?
    ensures NodeCost(par, p, Accept(x, child, t, nx), served)
            <= NodeCost(par, p, x, served) + Sweep(par, p) + RequestCost(par, p)
  {
    hide Sweep, RequestCost;
  }

  lemma BeginCost(par: seq<nat>, s: System, c: nat)
    requires Inv(par, s) && Enabled(par, s, Begin(c))
    ensures Budget(par, Apply(par, s, Begin(c)), |par|) < Budget(par, s, |par|)
  {
    var p, r := par[c], s.nodes[c].req.value;
    var x, y := s.nodes[p], s.nodes[c];
    assert IsChild(par, p, c) && NodeOk(x) && NodeOk(y);
    hide Inv, Budget, NodeCost, Sweep;
    if RaceSkips(r.typ, y.mesi, r.initial) {
      AnsweredCost(par, c, y, y.mesi, false);
      PairStep(par, s, p, c, x, y.Answered(y.mesi));
    } else {
      var t := RaceRewrites(r.typ, y.mesi, r.initial);
      AcceptCost(par, p, x, Some(c), t, r.noExcl, Served(par, s, p));
      WaitingCost(par, c, y);
      PairStep(par, s, p, c, Accept(x, Some(c), t, r.noExcl), y);
    }
  }

  lemma WaitingCost(par: seq<nat>, c: nat, y: Node)
    requires IsTree(par) && 0 < c < |par| && y.req.Some?
    ensures NodeCost(par, c, y, false) == NodeCost(par, c, y, true) + 1 + Sweep(par, par[c]) + RequestCost(par, par[c])
  {
  }

  // Taking the answer away from an activity leaves nothing of its cost.
  lemma ActOnly(par: seq<nat>, n: nat, x: Node, z: Node, served: bool)
    requires IsTree(par) && n < |par| && x.down == z.down && x.req == z.req
    ensures NodeCost(par, n, z, served) - NodeCost(par, n, x, served) == ActCost(par, n, z.act) - ActCost(par, n, x.act)
  {
    hide ActCost, WalkCost, RequestCost;
  }

  lemma TopCost(par: seq<nat>, s: System, n: nat)
    requires Inv(par, s) && Enabled(par, s, Top(n))
    ensures Budget(par, Apply(par, s, Top(n)), |par|) < Budget(par, s, |par|)
  {
    var p := s.nodes[n];
    var ci := p.act.child.value;
    var c := s.nodes[ci];
    var (x, y) := TopNodes(p, c, ci);
    assert NodeOk(p) && NodeOk(c) && Wired(par, n, p) && IsChild(par, n, ci);
    assert EdgeOk(p, c, ci) && c.req.Some?;
    StartCost(par, n, INVX, p.dir);
    StartCost(par, n, INV, if ci in p.dir.sharers then p.dir.Drop(ci) else p.dir);
    hide Inv, Budget, EdgeOk, NodeOk, Wired, WalkCost, StartWalk, RequestCost, Below;
    assert ActCost(par, n, x.act) < ActCost(par, n, p.act);
    ActOnly(par, n, p, x, Served(par, s, n));
    TopChildCost(par, s, n);
    hide NodeCost, ActCost, Sweep;
    PairStep(par, s, n, ci, x, y);
  }

  lemma TopChildCost(par: seq<nat>, s: System, n: nat)
    requires Inv(par, s) && Enabled(par, s, Top(n))
    ensures var p, ci := s.nodes[n], s.nodes[n].act.child.value;
            var (x, y) := TopNodes(p, s.nodes[ci], ci);
            && NodeCost(par, ci, y, x.act.Serves(ci)) <= NodeCost(par, ci, s.nodes[ci], true)
            && forall i :: SameService(y.act, s.nodes[ci].act, i)
  {
    var p, ci := s.nodes[n], s.nodes[n].act.child.value;
    var c := s.nodes[ci];
    var (x, y) := TopNodes(p, c, ci);
    assert NodeOk(c) && Wired(par, n, p) && IsChild(par, n, ci) && EdgeOk(p, c, ci);
    hide Inv, EdgeOk, NodeCost, NodeOk, Wired;
    if y != c { AnsweredCost(par, ci, c, y.mesi, x.act.Serves(ci)); }
  }

  // A walk's cost is part of its node's, wherever the walk is.
  lemma WalkerCost(par: seq<nat>, n: nat, p: Node, w: Walk, served: bool)
    requires IsTree(par) && n < |par| && NodeOk(p) && p.Walking()
    ensures NodeCost(par, n, p.WithCurrent(w), served) - NodeCost(par, n, p, served)
            == WalkCost(par, w) - WalkCost(par, p.Current())
    ensures forall i :: SameService(p.WithCurrent(w).act, p.act, i)
  {
    hide WalkCost, RequestCost;
  }

  lemma VisitCost(par: seq<nat>, s: System, n: nat, c: nat)
    requires Inv(par, s) && Enabled(par, s, Visit(n, c))
    ensures Budget(par, Apply(par, s, Visit(n, c)), |par|) < Budget(par, s, |par|)
  {
    var p, w, x := s.nodes[n], s.nodes[n].Current(), s.nodes[c];
    var v := StartWalk(w.kind, x.dir);
    assert NodeOk(p) && Wired(par, n, p) && IsChild(par, n, c) && Wired(par, c, x);
    TodoWithout(par, w.todo, c, 0);
    StartCost(par, c, w.kind, x.dir);
    WalkerCost(par, n, p, w.(at := Some(c)), Served(par, s, n));
    EnteredCost(par, c, x, v, p.act.Serves(c));
    hide Inv, Budget, NodeCost, NodeOk, Wired, TodoCost, StartWalk, Sweep;
    PairStep(par, s, n, c, p.WithCurrent(w.(at := Some(c))), x.(down := Some(v)));
  }

  lemma EnteredCost(par: seq<nat>, c: nat, x: Node, v: Walk, served: bool)
    requires IsTree(par) && c < |par| && x.down == None
    ensures NodeCost(par, c, x.(down := Some(v)), served) == NodeCost(par, c, x, served) + 1 + WalkCost(par, v)
  {
    hide WalkCost, ActCost, RequestCost;
  }

  lemma LeaveCost(par: seq<nat>, s: System, c: nat)
    requires Inv(par, s) && Enabled(par, s, Leave(c))
    ensures Budget(par, Apply(par, s, Leave(c)), |par|) < Budget(par, s, |par|)
  {
    var n := par[c];
    var p, x := s.nodes[n], s.nodes[c];
    var w := p.Current();
    var v := VisitedWalk(w, c, x.down.value.wb || x.mesi == M);
    assert NodeOk(p) && EdgeOk(p, x, c) && IsChild(par, n, c);
    assert w.at == Some(c);
    assert WalkCost(par, v) == WalkCost(par, w);
    WalkerCost(par, n, p, v, Served(par, s, n));
    var (x1, y1) := LeaveNodes(p, x, c);
    EnteredCost(par, c, y1, x.down.value, p.act.Serves(c));
    hide Inv, Budget, EdgeOk, NodeOk, WalkCost, RequestCost;
    DirCost(par, n, p.WithCurrent(v), x1, Served(par, s, n));
    DirCost(par, c, y1.(down := x.down), x, p.act.Serves(c));
    hide NodeCost;
    PairStep(par, s, n, c, x1, y1);
  }

  // Directory entries and coherence states cost nothing.
  lemma DirCost(par: seq<nat>, n: nat, x: Node, z: Node, served: bool)
    requires IsTree(par) && n < |par| && x.act == z.act && x.down == z.down && x.req == z.req
    ensures NodeCost(par, n, x, served) == NodeCost(par, n, z, served)
  {
  }

  lemma GrantParts(par: seq<nat>, s: System, n: nat)
    requires Inv(par, s) && Enabled(par, s, Grant(n))
    ensures IsTree(par) && |s.nodes| == |par|
    ensures var p := s.nodes[n];
            var ci := p.act.grantee;
            && Wired(par, n, p) && IsChild(par, n, ci) && NodeOk(s.nodes[ci]) && EdgeOk(p, s.nodes[ci], ci)
            && s.nodes[ci].req.Some? && NodeOk(p)
  {
    var p := s.nodes[n];
    assert NodeOk(p) && Wired(par, n, p);
    assert EdgeOk(s.nodes[par[p.act.grantee]], s.nodes[p.act.grantee], p.act.grantee);
  }

  lemma GrantCost(par: seq<nat>, s: System, n: nat)
    requires Inv(par, s) && Enabled(par, s, Grant(n))
    ensures Budget(par, Apply(par, s, Grant(n)), |par|) < Budget(par, s, |par|)
  {
    hide Inv, Budget, EdgeOk, Wired, WalkCost, RequestCost;
    GrantParts(par, s, n);
    var p := s.nodes[n];
    var ci := p.act.grantee;
    var c := s.nodes[ci];
    var (x, y) := GrantNodes(p, c, ci);
    AnsweredCost(par, ci, c, y.mesi, x.act.Serves(ci));
    ActOnly(par, n, p, x, Served(par, s, n));
    hide NodeCost, NodeOk;
    PairStep(par, s, n, ci, x, y);
  }

  lemma FlushedCost(par: seq<nat>, s: System, n: nat)
    requires Inv(par, s) && Enabled(par, s, Flushed(n))
    ensures Budget(par, Apply(par, s, Flushed(n)), |par|) < Budget(par, s, |par|)
  {
    assert NodeOk(s.nodes[n]);
    hide Inv, Budget, WalkCost, RequestCost, EndWalk;
    OneStep(par, s, n, FlushedNode(s.nodes[n]), s.dirty);
    assert Put1(s, n, FlushedNode(s.nodes[n])).(dirty := s.dirty) == Put1(s, n, FlushedNode(s.nodes[n]));
  }

  lemma MemoryCost(par: seq<nat>, s: System)
    requires Inv(par, s) && Enabled(par, s, Memory)
    ensures Budget(par, Apply(par, s, Memory), |par|) < Budget(par, s, |par|)
  {
    var x, r := s.nodes[0], s.nodes[0].req.value;
    assert NodeOk(x);
    hide Inv, Budget;
    AnsweredCost(par, 0, x, MemoryState(r), false);
    OneStep(par, s, 0, x.Answered(MemoryState(r)), s.dirty && r.typ != PUTX);
  }

  // ----- Theorems -----

  lemma StepCost(par: seq<nat>, s: System, l: Label)
    requires IsTree(par) && |s.nodes| == |par| && Inv(par, s) && Enabled(par, s, l) && !IsExternal(l)
    ensures Budget(par, Apply(par, s, l), |par|) < Budget(par, s, |par|)
  {
    hide Inv, Enabled, Apply, Budget;
    match l
    case Done(n) => DoneCost(par, s, n);
    case Begin(c) => BeginCost(par, s, c);
    case Top(n) => TopCost(par, s, n);
    case Visit(n, c) => VisitCost(par, s, n, c);
    case Leave(c) => LeaveCost(par, s, c);
    case Grant(n) => GrantCost(par, s, n);
    case Flushed(n) => FlushedCost(par, s, n);
    case Memory => MemoryCost(par, s);
  }

  lemma {:induction false} RunCost(par: seq<nat>, s: System, ls: seq<Label>)
    requires Inv(par, s) && CanRun(par, s, ls) && forall i | 0 <= i < |ls| :: !IsExternal(ls[i])
    ensures |ls| <= Budget(par, s, |par|) - Budget(par, Run(par, s, ls), |par|)
    decreases |ls|
  {
    hide Enabled, Apply, Budget, NodeOk, EdgeOk, Wired;
    if ls != [] {
      StepInv(par, s, ls[0]);
      StepCost(par, s, ls[0]);
      RunCost(par, Apply(par, s, ls[0]), ls[1..]);
    }
  }

  // No livelock: without new accesses and evictions, the controllers can take only so many steps,
  // in whatever order they take them.
  lemma InternalRunsEnd(par: seq<nat>, s: System, ls: seq<Label>)
    requires Reachable(par, s) && CanRun(par, s, ls) && forall i | 0 <= i < |ls| :: !IsExternal(ls[i])
    ensures |ls| <= Budget(par, s, |par|)
  {
    ReachableInv(par, s);
    RunCost(par, s, ls);
  }

  // Every access, eviction and invalidation is completed: any schedule of the controllers can be
  // continued, and continued only finitely often, until everything is idle.
  lemma {:induction false} EverythingCompletes(par: seq<nat>, s: System) returns (ls: seq<Label>)
    requires Reachable(par, s)
    ensures CanRun(par, s, ls) && Quiet(Run(par, s, ls)) && forall i | 0 <= i < |ls| :: !IsExternal(ls[i])
    decreases Budget(par, s, |par|)
  {
    ReachableInv(par, s);
    hide Inv, Budget, Reachable;
    if Quiet(s) {
      ls := [];
    } else {
      NoDeadlock(par, s);
      var l :| !IsExternal(l) && Enabled(par, s, l);
      StepCost(par, s, l);
      ReachableStep(par, s, l);
      var rest := EverythingCompletes(par, Apply(par, s, l));
      ls := [l] + rest;
      assert ls[1..] == rest;
    }
  }

  lemma ReachableStep(par: seq<nat>, s: System, l: Label)
    requires Reachable(par, s) && Enabled(par, s, l)
    ensures Reachable(par, Apply(par, s, l))
  {
    var ls :| CanRun(par, Init(|par|), ls) && Run(par, Init(|par|), ls) == s;
    RunThen(par, Init(|par|), ls, l);
  }

  lemma ApplySize(par: seq<nat>, s: System, l: Label)
    requires IsTree(par) && |s.nodes| == |par| && Enabled(par, s, l)
    ensures |Apply(par, s, l).nodes| == |par|
  {
  }

  lemma {:induction false} RunThen(par: seq<nat>, s: System, ls: seq<Label>, l: Label)
    requires IsTree(par) && |s.nodes| == |par| && CanRun(par, s, ls) && Enabled(par, Run(par, s, ls), l)
    ensures CanRun(par, s, ls + [l]) && Run(par, s, ls + [l]) == Apply(par, Run(par, s, ls), l)
    decreases |ls|
  {
    hide Enabled, Apply;
    if ls == [] {
      assert [l][1..] == [];
    } else {
      ApplySize(par, s, ls[0]);
      RunThen(par, Apply(par, s, ls[0]), ls[1..], l);
      assert (ls + [l])[1..] == ls[1..] + [l];
    }
  }
}
