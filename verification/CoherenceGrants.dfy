// Who is granted exclusive permission for a load, and who loses a copy.
module CoherenceGrants {
  import opened Options
  import opened CoherenceControllers
  import opened CoherenceSystem
  import opened CoherenceInvariant
  import opened CoherenceTheorems

  // ----- The flag of a request goes all the way up -----

  // A node asks its parent with the flag of the access it serves.
  predicate NodeFlags(n: Node) {
    n.act.Fetching? && n.req.Some? ==> n.req.value.noExcl == n.act.noExcl
  }

  // And it serves a child with the flag of the child's request.
  predicate EdgeFlags(p: Node, c: Node, ci: nat) {
    (p.act.Fetching? || p.act.Ready?) && p.act.child == Some(ci) && c.req.Some? ==> p.act.noExcl == c.req.value.noExcl
  }

  ghost predicate FlagsOk(par: seq<nat>, s: System) {
    && IsTree(par) && |s.nodes| == |par|
    && (forall i | 0 <= i < |par| :: NodeFlags(s.nodes[i]))
    && (forall i | 1 <= i < |par| :: EdgeFlags(s.nodes[par[i]], s.nodes[i], i))
  }

  lemma Flags1(par: seq<nat>, s: System, n: nat, x: Node, dirty: bool)
    requires FlagsOk(par, s) && n < |par| && NodeFlags(x)
    requires n > 0 ==> EdgeFlags(s.nodes[par[n]], x, n)
    requires forall d: nat | IsChild(par, n, d) :: EdgeFlags(x, s.nodes[d], d)
    ensures FlagsOk(par, Put1(s, n, x).(dirty := dirty))
  {
    hide NodeFlags, EdgeFlags;
    var t := Put1(s, n, x);
    forall i | 1 <= i < |par| ensures EdgeFlags(t.nodes[par[i]], t.nodes[i], i) {
      if par[i] == n { assert IsChild(par, n, i); }
    }
  }

  lemma Flags2(par: seq<nat>, s: System, p: nat, c: nat, x: Node, y: Node)
    requires FlagsOk(par, s) && IsChild(par, p, c) && NodeFlags(x) && NodeFlags(y) && EdgeFlags(x, y, c)
    requires p > 0 ==> EdgeFlags(s.nodes[par[p]], x, p)
    requires forall d: nat | IsChild(par, p, d) && d != c :: EdgeFlags(x, s.nodes[d], d)
    requires forall d: nat | IsChild(par, c, d) :: EdgeFlags(y, s.nodes[d], d)
    ensures FlagsOk(par, Put2(s, p, c, (x, y)))
  {
    hide NodeFlags, EdgeFlags;
    var t := Put2(s, p, c, (x, y));
    forall i | 1 <= i < |par| ensures EdgeFlags(t.nodes[par[i]], t.nodes[i], i) {
      if par[i] == p { assert IsChild(par, p, i); } else if par[i] == c { assert IsChild(par, c, i); }
    }
  }

  // A node without a request is not being served.
  lemma NotServed(par: seq<nat>, s: System, n: nat)
    requires Inv(par, s) && 0 < n < |par| && s.nodes[n].req.None?
    ensures !s.nodes[par[n]].act.Serves(n)
  {
    assert EdgeOk(s.nodes[par[n]], s.nodes[n], n);
  }

  // A node that keeps its activity and its request, or gets rid of one, keeps the flags.
  predicate KeepsFlags(n: Node, x: Node) {
    && (x.act.Fetching? ==> n.act.Fetching? && x.act.noExcl == n.act.noExcl && x.act.child == n.act.child)
    && (x.act.Ready? ==>
          (n.act.Fetching? || n.act.Ready?) && x.act.noExcl == n.act.noExcl && x.act.child == n.act.child)
    && (x.req.Some? ==> x.req == n.req)
  }

  lemma Keeps1(par: seq<nat>, s: System, n: nat, x: Node, dirty: bool)
    requires FlagsOk(par, s) && n < |par| && KeepsFlags(s.nodes[n], x)
    ensures FlagsOk(par, Put1(s, n, x).(dirty := dirty))
  {
    assert n > 0 ==> EdgeFlags(s.nodes[par[n]], s.nodes[n], n);
    forall d: nat | IsChild(par, n, d) ensures EdgeFlags(x, s.nodes[d], d) {
      assert EdgeFlags(s.nodes[n], s.nodes[d], d);
    }
    assert NodeFlags(s.nodes[n]);
    Flags1(par, s, n, x, dirty);
  }

  lemma Keeps2(par: seq<nat>, s: System, p: nat, c: nat, x: Node, y: Node)
    requires FlagsOk(par, s) && IsChild(par, p, c) && KeepsFlags(s.nodes[p], x) && KeepsFlags(s.nodes[c], y)
    ensures FlagsOk(par, Put2(s, p, c, (x, y)))
  {
    assert NodeFlags(s.nodes[p]) && NodeFlags(s.nodes[c]) && EdgeFlags(s.nodes[p], s.nodes[c], c);
    assert p > 0 ==> EdgeFlags(s.nodes[par[p]], s.nodes[p], p);
    forall d: nat | IsChild(par, p, d) && d != c ensures EdgeFlags(x, s.nodes[d], d) {
      assert EdgeFlags(s.nodes[p], s.nodes[d], d);
    }
    forall d: nat | IsChild(par, c, d) ensures EdgeFlags(y, s.nodes[d], d) {
      assert EdgeFlags(s.nodes[c], s.nodes[d], d);
    }
    Flags2(par, s, p, c, x, y);
  }

  // A node that was idle and now has a request of its own, or serves a child.
  lemma CoreFlags(par: seq<nat>, s: System, n: nat, t: AccessType, nx: bool)
    requires Inv(par, s) && FlagsOk(par, s) && Enabled(par, s, Core(n, t, nx))
    ensures FlagsOk(par, Apply(par, s, Core(n, t, nx)))
  {
    var x := CoreNode(s.nodes[n], t, nx);
    assert NodeOk(s.nodes[n]);
    if n > 0 { NotServed(par, s, n); }
    Flags1(par, s, n, x, s.dirty);
    assert Put1(s, n, x).(dirty := s.dirty) == Put1(s, n, x);
  }

  lemma BeginFlags(par: seq<nat>, s: System, c: nat)
    requires Inv(par, s) && FlagsOk(par, s) && Enabled(par, s, Begin(c))
    ensures FlagsOk(par, Apply(par, s, Begin(c)))
  {
    var p := par[c];
    var (x, y) := BeginNodes(s.nodes[p], s.nodes[c], c);
    assert IsChild(par, p, c);
    assert NodeOk(s.nodes[p]) && NodeFlags(s.nodes[c]);
    if p > 0 { NotServed(par, s, p); }
    if x == s.nodes[p] {
      Keeps2(par, s, p, c, x, y);
    } else {
      forall d: nat | IsChild(par, c, d) ensures EdgeFlags(y, s.nodes[d], d) {
        assert EdgeFlags(s.nodes[c], s.nodes[d], d);
      }
      Flags2(par, s, p, c, x, y);
    }
  }

  lemma FlushedFlags(par: seq<nat>, s: System, n: nat)
    requires Inv(par, s) && FlagsOk(par, s) && Enabled(par, s, Flushed(n))
    ensures FlagsOk(par, Apply(par, s, Flushed(n)))
  {
    var x := FlushedNode(s.nodes[n]);
    assert NodeOk(s.nodes[n]);
    if n > 0 { NotServed(par, s, n); }
    Flags1(par, s, n, x, s.dirty);
    assert Put1(s, n, x).(dirty := s.dirty) == Put1(s, n, x);
  }

  lemma ServeFlags(par: seq<nat>, s: System, n: nat)
    requires Inv(par, s) && FlagsOk(par, s)
    ensures Enabled(par, s, Top(n)) ==> FlagsOk(par, Apply(par, s, Top(n)))
    ensures Enabled(par, s, Grant(n)) ==> FlagsOk(par, Apply(par, s, Grant(n)))
  {
    var ns := s.nodes;
    if Enabled(par, s, Top(n)) {
      var c := ns[n].act.child.value;
      assert Wired(par, n, ns[n]);
      var (x, y) := TopNodes(ns[n], ns[c], c);
      Keeps2(par, s, n, c, x, y);
    }
    if Enabled(par, s, Grant(n)) {
      var c := ns[n].act.grantee;
      assert Wired(par, n, ns[n]);
      var (x, y) := GrantNodes(ns[n], ns[c], c);
      Keeps2(par, s, n, c, x, y);
    }
  }

  lemma VisitFlags(par: seq<nat>, s: System, n: nat, c: nat)
    requires Inv(par, s) && FlagsOk(par, s) && Enabled(par, s, Visit(n, c))
    ensures FlagsOk(par, Apply(par, s, Visit(n, c)))
  {
    assert Wired(par, n, s.nodes[n]) && NodeOk(s.nodes[n]);
    var (x, y) := VisitNodes(s.nodes[n], s.nodes[c], c);
    Keeps2(par, s, n, c, x, y);
  }

  lemma LeaveFlags(par: seq<nat>, s: System, c: nat)
    requires Inv(par, s) && FlagsOk(par, s) && Enabled(par, s, Leave(c))
    ensures FlagsOk(par, Apply(par, s, Leave(c)))
  {
    assert IsChild(par, par[c], c);
    var (x, y) := LeaveNodes(s.nodes[par[c]], s.nodes[c], c);
    Keeps2(par, s, par[c], c, x, y);
  }

  lemma StepFlags(par: seq<nat>, s: System, l: Label)
    requires Inv(par, s) && FlagsOk(par, s) && Enabled(par, s, l)
    ensures FlagsOk(par, Apply(par, s, l))
  {
    var ns := s.nodes;
    match l
    case Core(n, t, nx) => CoreFlags(par, s, n, t, nx);
    case Begin(c) => BeginFlags(par, s, c);
    case Flushed(n) => FlushedFlags(par, s, n);
    case Done(n) => Keeps1(par, s, n, ns[n].(act := Idle), s.dirty || ns[n].act.typ == GETX);
    case EvictLine(n) =>
      var x := ns[n].(act := Flushing(StartWalk(INV, ns[n].dir)));
      Keeps1(par, s, n, x, s.dirty);
      assert Put1(s, n, x).(dirty := s.dirty) == Put1(s, n, x);
    case Memory =>
      var r := ns[0].req.value;
      Keeps1(par, s, 0, ns[0].Answered(MemoryState(r)), s.dirty && r.typ != PUTX);
    case Top(n) => ServeFlags(par, s, n);
    case Grant(n) => ServeFlags(par, s, n);
    case Visit(n, c) => VisitFlags(par, s, n, c);
    case Leave(c) => LeaveFlags(par, s, c);
  }

  lemma {:induction false} RunFlags(par: seq<nat>, s: System, ls: seq<Label>)
    requires Inv(par, s) && FlagsOk(par, s) && CanRun(par, s, ls)
    ensures Inv(par, Run(par, s, ls)) && FlagsOk(par, Run(par, s, ls))
    decreases |ls|
  {
    if ls != [] {
      StepInv(par, s, ls[0]);
      StepFlags(par, s, ls[0]);
      hide Inv, FlagsOk, Enabled, Apply;
      RunFlags(par, Apply(par, s, ls[0]), ls[1..]);
    }
  }

  // In every reachable state the flag that a core has given its access is that of every request made for it, however
  // many levels up.
  lemma FlagsKept(par: seq<nat>, s: System)
    requires Reachable(par, s)
    ensures FlagsOk(par, s) && Inv(par, s)
  {
    var ls :| CanRun(par, Init(|par|), ls) && Run(par, Init(|par|), ls) == s;
    InitInv(par);
    RunFlags(par, Init(|par|), ls);
  }

  // ----- Who is answered E -----

  // Node a works for the request that node n is busy with: it serves n, or serves a node that works for n's request.
  ghost predicate WorksFor(par: seq<nat>, s: System, a: nat, n: nat)
    requires IsTree(par) && |s.nodes| == |par|
    decreases n
  {
    && n < |par| && (s.nodes[n].act.Fetching? || s.nodes[n].act.Ready?)
    && (a == n || (n > 0 && WorksFor(par, s, a, par[n]) && s.nodes[par[n]].act.child == Some(n)))
  }

  // The flag is the same at every level that works for one access.
  lemma {:induction false} OneFlagPerAccess(par: seq<nat>, s: System, a: nat, n: nat)
    requires Inv(par, s) && FlagsOk(par, s) && WorksFor(par, s, a, n)
    ensures a < |par| && (s.nodes[a].act.Fetching? || s.nodes[a].act.Ready?)
    ensures s.nodes[a].act.noExcl == s.nodes[n].act.noExcl
    decreases n
  {
    assert NodeOk(s.nodes[n]) && NodeFlags(s.nodes[n]);
    if a != n {
      var p, c := s.nodes[par[n]], s.nodes[n];
      assert EdgeFlags(p, c, n) && EdgeOk(p, c, n);
      OneFlagPerAccess(par, s, a, par[n]);
    }
  }

  // No other child of n's parent has a copy.
  ghost predicate NoOtherCopy(par: seq<nat>, s: System, n: nat)
    requires IsTree(par) && |s.nodes| == |par| && 0 < n < |par|
  {
    forall d: nat | IsChild(par, par[n], d) && d != n :: s.nodes[d].mesi == I
  }

  // Step l answers n's request for a load.
  ghost predicate AnswersLoad(par: seq<nat>, s: System, l: Label, n: nat) {
    && IsTree(par) && |s.nodes| == |par| && n < |par| && Enabled(par, s, l)
    && s.nodes[n].req.Some? && s.nodes[n].req.value.typ == GETS && Apply(par, s, l).nodes[n].req.None?
  }

  lemma WaitingLoad(par: seq<nat>, s: System, n: nat)
    requires Inv(par, s) && n < |par| && s.nodes[n].req.Some? && s.nodes[n].req.value.typ == GETS
    ensures s.nodes[n].act.Fetching? && s.nodes[n].mesi == I
  {
    assert NodeOk(s.nodes[n]);
  }

  // Only children are served.
  lemma ServesChild(par: seq<nat>, s: System, p: nat, c: nat)
    requires Inv(par, s) && p < |par| && s.nodes[p].act.Serves(c)
    ensures IsChild(par, p, c)
  {
    assert Wired(par, p, s.nodes[p]);
  }

  lemma TopAnswersChild(par: seq<nat>, s: System, p: nat, n: nat)
    requires Inv(par, s) && AnswersLoad(par, s, Top(p), n)
    ensures s.nodes[p].act.child == Some(n) && IsChild(par, p, n)
  {
    ServesChild(par, s, p, s.nodes[p].act.child.value);
    WaitingLoad(par, s, n);
    hide Inv;
  }

  lemma GrantAnswersChild(par: seq<nat>, s: System, p: nat, n: nat)
    requires Inv(par, s) && AnswersLoad(par, s, Grant(p), n)
    ensures s.nodes[p].act.grantee == n && IsChild(par, p, n)
  {
    ServesChild(par, s, p, s.nodes[p].act.grantee);
    WaitingLoad(par, s, n);
    hide Inv;
  }

  // Beginning a request answers no load.
  lemma BeginAnswersNone(par: seq<nat>, s: System, c: nat, n: nat)
    requires Inv(par, s)
    ensures !AnswersLoad(par, s, Begin(c), n)
  {
    if AnswersLoad(par, s, Begin(c), n) { WaitingLoad(par, s, n); }
    hide Inv;
  }

  lemma NoneElse(par: seq<nat>, s: System, l: Label, n: nat)
    requires Inv(par, s) && AnswersLoad(par, s, l, n)
    ensures l.Top? || l.Grant? || (l == Memory && n == 0)
  {
    WaitingLoad(par, s, n);
    if l.Begin? { BeginAnswersNone(par, s, l.c, n); }
    hide Inv;
  }

  // A load is answered by its parent's top controller, by a walk of its parent that is over, or by memory.
  lemma AnsweredBy(par: seq<nat>, s: System, l: Label, n: nat)
    requires Inv(par, s) && AnswersLoad(par, s, l, n)
    ensures n == 0 ==> l == Memory
    ensures n > 0 ==> (l == Top(par[n]) && s.nodes[par[n]].act.child == Some(n))
                      || (l == Grant(par[n]) && s.nodes[par[n]].act.grantee == n)
  {
    NoneElse(par, s, l, n);
    if l.Top? { TopAnswersChild(par, s, l.n, n); }
    if l.Grant? { GrantAnswersChild(par, s, l.n, n); }
    hide AnswersLoad, Inv;
  }

  lemma SharerHasCopy(par: seq<nat>, s: System, p: nat, d: nat)
    requires Inv(par, s) && p < |par| && d in s.nodes[p].dir.sharers
    ensures IsChild(par, p, d) && s.nodes[d].mesi != I
  {
    assert Wired(par, p, s.nodes[p]);
    assert EdgeOk(s.nodes[p], s.nodes[d], d);
  }

  lemma CopyIsListed(par: seq<nat>, s: System, p: nat, d: nat)
    requires Inv(par, s) && p < |par| && IsChild(par, p, d) && s.nodes[d].mesi != I
    ensures d in s.nodes[p].dir.sharers || Kept(s.nodes[p], d)
  {
    assert EdgeOk(s.nodes[p], s.nodes[d], d);
  }

  // The other children of a node that serves n have no copy exactly when its directory is empty.
  lemma OthersListed(par: seq<nat>, s: System, n: nat)
    requires Inv(par, s) && 0 < n < |par| && s.nodes[n].mesi == I && s.nodes[par[n]].act.Serves(n)
    ensures NoOtherCopy(par, s, n) <==> s.nodes[par[n]].dir.sharers == {}
  {
    hide NodeOk, Wired, EdgeOk, Hot;
    var p := par[n];
    forall d: nat | d in s.nodes[p].dir.sharers ensures IsChild(par, p, d) && s.nodes[d].mesi != I {
      SharerHasCopy(par, s, p, d);
    }
    forall d: nat | IsChild(par, p, d) && d != n && s.nodes[d].mesi != I ensures d in s.nodes[p].dir.sharers {
      CopyIsListed(par, s, p, d);
    }
  }

  ghost predicate DeservesE(par: seq<nat>, s: System, n: nat)
    requires IsTree(par) && |s.nodes| == |par| && n < |par|
  {
    n > 0 ==> IsExcl(s.nodes[par[n]].mesi) && NoOtherCopy(par, s, n)
  }

  lemma TopGives(par: seq<nat>, s: System, n: nat)
    requires Inv(par, s) && FlagsOk(par, s) && 0 < n < |par|
    requires AnswersLoad(par, s, Top(par[n]), n) && s.nodes[par[n]].act.child == Some(n)
    ensures Apply(par, s, Top(par[n])).nodes[n].mesi in {S, E}
    ensures Apply(par, s, Top(par[n])).nodes[n].mesi == E <==> !s.nodes[n].req.value.noExcl && DeservesE(par, s, n)
  {
    WaitingLoad(par, s, n);
    var p := s.nodes[par[n]];
    assert EdgeFlags(p, s.nodes[n], n) && EdgeOk(p, s.nodes[n], n) && NodeOk(p);
    OthersListed(par, s, n);
    hide Inv, FlagsOk, NoOtherCopy;
  }

  lemma GrantGives(par: seq<nat>, s: System, n: nat)
    requires Inv(par, s) && 0 < n < |par|
    requires AnswersLoad(par, s, Grant(par[n]), n) && s.nodes[par[n]].act.grantee == n
    ensures Apply(par, s, Grant(par[n])).nodes[n].mesi == S && !DeservesE(par, s, n)
  {
    WaitingLoad(par, s, n);
    var p := s.nodes[par[n]];
    assert EdgeOk(p, s.nodes[n], n) && NodeOk(p);
    OthersListed(par, s, n);
    hide Inv, NoOtherCopy;
  }

  // A load is answered E or S; E exactly if it is not flagged, and the parent is in E or M and has no copy in any
  // other child. Memory only looks at the flag.
  lemma WhoGetsE(par: seq<nat>, s: System, l: Label, n: nat)
    requires Reachable(par, s) && AnswersLoad(par, s, l, n)
    ensures s.nodes[n].act.Fetching? && s.nodes[n].req.value.noExcl == s.nodes[n].act.noExcl
    ensures Apply(par, s, l).nodes[n].mesi in {S, E}
    ensures Apply(par, s, l).nodes[n].mesi == E <==>
            !s.nodes[n].act.noExcl && (n > 0 ==> IsExcl(s.nodes[par[n]].mesi) && NoOtherCopy(par, s, n))
  {
    FlagsKept(par, s);
    WaitingLoad(par, s, n);
    assert NodeFlags(s.nodes[n]);
    AnsweredBy(par, s, l, n);
    hide Inv, FlagsOk, NoOtherCopy, Reachable;
    if l.Top? {
      TopGives(par, s, n);
    } else if l.Grant? {
      GrantGives(par, s, n);
    }
  }

  // So an instruction fetch is not answered E at any level that works for it.
  lemma FetchNeverGetsE(par: seq<nat>, s: System, l: Label, n: nat, a: nat)
    requires Reachable(par, s) && AnswersLoad(par, s, l, a)
    requires WorksFor(par, s, a, n) && s.nodes[n].act.child.None? && s.nodes[n].act.noExcl
    ensures Apply(par, s, l).nodes[a].mesi == S
  {
    FlagsKept(par, s);
    OneFlagPerAccess(par, s, a, n);
    WhoGetsE(par, s, l, a);
  }

  // ----- Who loses a copy -----

  // The walk that has entered n was started above it, to answer a store or a load, or to evict the line.
  lemma {:induction false} WalkRoot(par: seq<nat>, s: System, n: nat) returns (a: nat)
    requires Inv(par, s) && n < |par| && s.nodes[n].down.Some?
    ensures a < n && Above(par, a, n)
    ensures s.nodes[n].down.value.kind == INV ==>
              s.nodes[a].act.Flushing? || (s.nodes[a].act.Granting? && s.nodes[a].act.typ == GETX)
    ensures s.nodes[n].down.value.kind == INVX ==> s.nodes[a].act.Granting? && s.nodes[a].act.typ == GETS
    decreases n
  {
    var p := s.nodes[par[n]];
    assert EdgeOk(p, s.nodes[n], n) && NodeOk(p);
    a := par[n];
    assert Above(par, a, a);
    if p.down.Some? {
      a := WalkRoot(par, s, par[n]);
    }
  }

  ghost predicate BusyAbove(par: seq<nat>, s: System, n: nat, t: AccessType)
    requires IsTree(par) && |s.nodes| == |par|
  {
    exists a: nat :: a < n < |par| && Above(par, a, n) && s.nodes[a].act.Granting? && s.nodes[a].act.typ == t
  }

  ghost predicate EvictsAbove(par: seq<nat>, s: System, n: nat)
    requires IsTree(par) && |s.nodes| == |par|
  {
    exists a: nat :: a < n < |par| && Above(par, a, n) && s.nodes[a].act.Flushing?
  }

  // What becomes of the copy of node x when a step turns x into y.
  predicate KeptOrGained(x: Node, y: Node) {
    y.mesi == x.mesi || IsExcl(y.mesi) || (y.mesi == I && x.act.Putting?)
  }

  lemma TopKeeps(par: seq<nat>, s: System, p: nat, n: nat)
    requires Inv(par, s) && Enabled(par, s, Top(p)) && n < |par| && s.nodes[n].mesi != I
    ensures KeptOrGained(s.nodes[n], Apply(par, s, Top(p)).nodes[n])
  {
    var c := s.nodes[p].act.child.value;
    ServesChild(par, s, p, c);
    assert NodeOk(s.nodes[c]) && EdgeOk(s.nodes[p], s.nodes[c], c);
    hide Inv, IsTree, NodeOk, EdgeOk;
    if n == c {
      TopAnswer(s.nodes[p], s.nodes[c], c);
    }
  }

  lemma TopAnswer(p: Node, c: Node, ci: nat)
    requires p.act.Ready? && p.act.child == Some(ci) && EdgeOk(p, c, ci) && NodeOk(c) && c.mesi != I
    ensures KeptOrGained(c, TopNodes(p, c, ci).1)
  {
  }

  lemma GrantAnswer(par: seq<nat>, s: System, p: nat, n: nat)
    requires Inv(par, s) && Enabled(par, s, Grant(p)) && n < |par| && s.nodes[n].mesi != I
    ensures s.nodes[p].act.grantee == n ==> s.nodes[p].act.typ == GETX
  {
    assert NodeOk(s.nodes[p]) && Wired(par, p, s.nodes[p]);
    if s.nodes[p].act.grantee == n { assert EdgeOk(s.nodes[p], s.nodes[n], n); }
  }

  lemma GrantKeeps(par: seq<nat>, s: System, p: nat, n: nat)
    requires Inv(par, s) && Enabled(par, s, Grant(p)) && n < |par| && s.nodes[n].mesi != I
    ensures KeptOrGained(s.nodes[n], Apply(par, s, Grant(p)).nodes[n])
  {
    ServesChild(par, s, p, s.nodes[p].act.grantee);
    GrantAnswer(par, s, p, n);
    hide Inv;
  }

  lemma PairKeeps(par: seq<nat>, s: System, l: Label, n: nat)
    requires Inv(par, s) && Enabled(par, s, l) && n < |par| && s.nodes[n].mesi != I
    requires l.Begin? || l.Visit? || (l.Leave? && l.c != n)
    ensures KeptOrGained(s.nodes[n], Apply(par, s, l).nodes[n])
  {
    hide NodeOk, EdgeOk, Wired, Hot;
  }

  lemma OneKeeps(par: seq<nat>, s: System, l: Label, n: nat)
    requires Inv(par, s) && Enabled(par, s, l) && n < |par| && s.nodes[n].mesi != I
    requires l.Core? || l.Done? || l.EvictLine? || l.Flushed? || l.Memory?
    ensures KeptOrGained(s.nodes[n], Apply(par, s, l).nodes[n])
  {
    assert NodeOk(s.nodes[n]);
    hide Inv, IsTree, IsLeaf;
  }

  lemma LeaveTakes(par: seq<nat>, s: System, n: nat)
    requires Inv(par, s) && Enabled(par, s, Leave(n))
    ensures Apply(par, s, Leave(n)).nodes[n].mesi == if s.nodes[n].down.value.kind == INV then I else S
  {
    hide NodeOk, EdgeOk, Wired, Hot;
  }

  lemma LeaveCause(par: seq<nat>, s: System, n: nat)
    requires Inv(par, s) && Enabled(par, s, Leave(n))
    ensures s.nodes[n].down.value.kind == INV ==> BusyAbove(par, s, n, GETX) || EvictsAbove(par, s, n)
    ensures s.nodes[n].down.value.kind == INVX ==> BusyAbove(par, s, n, GETS)
  {
    hide NodeOk, EdgeOk, Wired;
    var a := WalkRoot(par, s, n);
  }

  // A copy is given up only by its own eviction, or because a store is answered or the line evicted above it. No load
  // takes it away: all a load does is to turn E or M into S.
  lemma CopiesLost(par: seq<nat>, s: System, l: Label, n: nat)
    requires Reachable(par, s) && Enabled(par, s, l) && n < |par| && s.nodes[n].mesi != I
    ensures Apply(par, s, l).nodes[n].mesi == I ==>
              s.nodes[n].act.Putting? || BusyAbove(par, s, n, GETX) || EvictsAbove(par, s, n)
    ensures Apply(par, s, l).nodes[n].mesi == S && IsExcl(s.nodes[n].mesi) ==> BusyAbove(par, s, n, GETS)
  {
    hide Inv, Enabled, Apply;
    ReachableInv(par, s);
    if l.Top? {
      TopKeeps(par, s, l.n, n);
    } else if l == Leave(n) {
      LeaveTakes(par, s, n);
      LeaveCause(par, s, n);
    } else if l.Core? || l.Done? || l.EvictLine? || l.Flushed? || l.Memory? {
      OneKeeps(par, s, l, n);
    } else if l.Grant? {
      GrantKeeps(par, s, l.n, n);
    } else {
      PairKeeps(par, s, l, n);
    }
  }
}
