// Every step keeps the invariant and satisfies the asserts of the source.
module CoherenceSteps {
  import opened Options
  import opened CoherenceControllers
  import opened CoherenceSystem
  import opened CoherenceInvariant

  // ----- Edges that a step does not disturb -----

  // An edge sees its child through its state, its request and its down-walk only.
  lemma SameUp(g: Node, p: Node, x: Node, pi: nat)
    requires EdgeOk(g, p, pi)
    requires x.mesi == p.mesi && x.req == p.req && x.down == p.down
    ensures EdgeOk(g, x, pi)
  {
  }

  // An answer matches the request: what the requester asserts when its call returns.
  predicate AnswerOk(c: Node, m: State) {
    c.req.Some? &&
    match c.act
    case Fetching(_, t, _) => BottomGrantAsserts(m, t)
    case _ => m == I
  }

  lemma AnsweredNode(par: seq<nat>, ci: nat, c: Node, m: State)
    requires NodeOk(c) && Wired(par, ci, c) && AnswerOk(c, m) && c.down == None
    ensures NodeOk(c.Answered(m)) && Wired(par, ci, c.Answered(m))
  {
  }

  // The node below an answered one sees no difference.
  lemma AnsweredDown(c: Node, m: State, d: Node, di: nat)
    requires NodeOk(c) && AnswerOk(c, m) && EdgeOk(c, d, di)
    ensures EdgeOk(c.Answered(m), d, di)
  {
  }

  // ----- Accepting an access at a node whose locks are free -----

  lemma AcceptNode(par: seq<nat>, pi: nat, p: Node, child: Option<nat>, t: AccessType, nx: bool)
    requires NodeOk(p) && Wired(par, pi, p) && p.act.Idle? && p.down == None
    requires BottomAccessAsserts(p.mesi, t)
    requires if child.Some? then IsChild(par, pi, child.value) else IsLeaf(par, pi) && IsGet(t)
    ensures NodeOk(Accept(p, child, t, nx)) && Wired(par, pi, Accept(p, child, t, nx))
    ensures Hot(p) ==> Hot(Accept(p, child, t, nx))
  {
  }

  lemma AcceptUp(g: Node, p: Node, pi: nat, child: Option<nat>, t: AccessType, nx: bool)
    requires NodeOk(p) && EdgeOk(g, p, pi) && p.act.Idle? && p.down == None
    requires BottomAccessAsserts(p.mesi, t)
    ensures EdgeOk(g, Accept(p, child, t, nx), pi)
  {
  }

  lemma AcceptDown(p: Node, d: Node, di: nat, child: Option<nat>, t: AccessType, nx: bool)
    requires NodeOk(p) && EdgeOk(p, d, di) && p.act.Idle? && p.down == None
    requires child != Some(di)
    ensures EdgeOk(Accept(p, child, t, nx), d, di)
  {
  }

  lemma CoreStep(par: seq<nat>, s: System, n: nat, t: AccessType, nx: bool)
    requires Inv(par, s) && Enabled(par, s, Core(n, t, nx))
    ensures Inv(par, Apply(par, s, Core(n, t, nx)))
  {
    var p := s.nodes[n];
    var x := Accept(p, None, t, nx);
    AcceptNode(par, n, p, None, t, nx);
    if n > 0 { AcceptUp(s.nodes[par[n]], p, n, None, t, nx); }
    Change1(par, s, n, x, s.dirty);
  }

  lemma DoneNode(par: seq<nat>, n: nat, p: Node)
    requires NodeOk(p) && Wired(par, n, p) && p.act.Ready? && p.act.child.None?
    ensures NodeOk(p.(act := Idle)) && Wired(par, n, p.(act := Idle)) && (Hot(p) ==> Hot(p.(act := Idle)))
    ensures p.act.typ == GETX ==> p.mesi == M
    ensures BottomGrantAsserts(p.mesi, p.act.typ) || p.act.typ == GETS
  {
  }

  lemma DoneStep(par: seq<nat>, s: System, n: nat)
    requires Inv(par, s) && Enabled(par, s, Done(n))
    ensures Inv(par, Apply(par, s, Done(n))) && SourceAsserts(par, s, Done(n))
  {
    var p := s.nodes[n];
    DoneNode(par, n, p);
    if n > 0 { SameUp(s.nodes[par[n]], p, p.(act := Idle), n); }
    Change1(par, s, n, p.(act := Idle), s.dirty || p.act.typ == GETX);
  }

  // ----- Beginning a child's request -----

  lemma BeginAsserts(p: Node, c: Node, ci: nat)
    requires NodeOk(p) && NodeOk(c) && EdgeOk(p, c, ci) && c.req.Some?
    ensures var r := c.req.value;
            && RaceAsserts(r.typ, c.mesi, r.initial)
            && (!RaceSkips(r.typ, c.mesi, r.initial) ==>
                  && BottomAccessAsserts(p.mesi, RaceRewrites(r.typ, c.mesi, r.initial))
                  && (!IsGet(r.typ) ==> p.mesi != I))
    ensures RaceSkips(c.req.value.typ, c.mesi, c.req.value.initial) ==> c.act.Putting? && c.mesi == I
  {
  }

  lemma BeginEdge(p: Node, c: Node, ci: nat)
    requires NodeOk(p) && NodeOk(c) && EdgeOk(p, c, ci) && c.req.Some? && p.act.Idle? && p.down == None
    requires BottomAccessAsserts(p.mesi, RaceRewrites(c.req.value.typ, c.mesi, c.req.value.initial))
    ensures EdgeOk(BeginNodes(p, c, ci).0, BeginNodes(p, c, ci).1, ci)
  {
  }

  lemma BeginStep(par: seq<nat>, s: System, ci: nat)
    requires Inv(par, s) && Enabled(par, s, Begin(ci))
    ensures Inv(par, Apply(par, s, Begin(ci))) && SourceAsserts(par, s, Begin(ci))
  {
    var pi := par[ci];
    var p, c := s.nodes[pi], s.nodes[ci];
    var r := c.req.value;
    BeginAsserts(p, c, ci);
    assert IsChild(par, pi, ci);
    if RaceSkips(r.typ, c.mesi, r.initial) {
      SkipStep(par, s, ci);
    } else {
      BeginAcceptStep(par, s, ci);
    }
  }

  lemma SkipStep(par: seq<nat>, s: System, ci: nat)
    requires Inv(par, s) && Enabled(par, s, Begin(ci))
    requires s.nodes[ci].act.Putting? && s.nodes[ci].mesi == I
    ensures Inv(par, Put2(s, par[ci], ci, (s.nodes[par[ci]], s.nodes[ci].Answered(I))))
  {
    var p, c := s.nodes[par[ci]], s.nodes[ci];
    assert IsChild(par, par[ci], ci);
    AnsweredNode(par, ci, c, I);
    forall d: nat | IsChild(par, ci, d) ensures EdgeOk(c.Answered(I), s.nodes[d], d) {
      AnsweredDown(c, I, s.nodes[d], d);
    }
    Change2(par, s, par[ci], ci, p, c.Answered(I));
  }

  lemma BeginAcceptStep(par: seq<nat>, s: System, ci: nat)
    requires Inv(par, s) && Enabled(par, s, Begin(ci))
    requires var c := s.nodes[ci]; !RaceSkips(c.req.value.typ, c.mesi, c.req.value.initial)
    ensures Inv(par, Put2(s, par[ci], ci, BeginNodes(s.nodes[par[ci]], s.nodes[ci], ci)))
  {
    var pi := par[ci];
    var p, c := s.nodes[pi], s.nodes[ci];
    var t, nx := RaceRewrites(c.req.value.typ, c.mesi, c.req.value.initial), c.req.value.noExcl;
    BeginAsserts(p, c, ci);
    assert IsChild(par, pi, ci);
    AcceptNode(par, pi, p, Some(ci), t, nx);
    BeginEdge(p, c, ci);
    if pi > 0 { AcceptUp(s.nodes[par[pi]], p, pi, Some(ci), t, nx); }
    forall d: nat | IsChild(par, pi, d) && d != ci
      ensures EdgeOk(Accept(p, Some(ci), t, nx), s.nodes[d], d)
    {
      AcceptDown(p, s.nodes[d], d, Some(ci), t, nx);
    }
    Change2(par, s, pi, ci, Accept(p, Some(ci), t, nx), c);
  }

  // ----- The top controller -----

  // A ready access at p for its child c, and what that child's answer would be.
  ghost predicate TopReady(par: seq<nat>, p: Node, pi: nat, c: Node, ci: nat) {
    && NodeOk(p) && NodeOk(c) && EdgeOk(p, c, ci) && Wired(par, pi, p) && Wired(par, ci, c)
    && IsChild(par, pi, ci) && p.act.Ready? && p.act.child == Some(ci)
  }

  lemma TopAsserts(par: seq<nat>, p: Node, pi: nat, c: Node, ci: nat)
    requires TopReady(par, p, pi, c, ci)
    ensures match p.act.typ {
              case PUTX => p.dir.IsExclusive() && ci in p.dir.sharers
              case PUTS => ci in p.dir.sharers
              case GETS => ci !in p.dir.sharers
              case GETX => IsExcl(p.mesi) && (ci in p.dir.sharers ==> !p.dir.IsExclusive())
            }
    ensures c.down == None && c.req.Some?
  {
    if p.act.typ == PUTX {
      assert |p.dir.sharers| == 1;
    }
    if p.act.typ == GETX && ci in p.dir.sharers && p.dir.IsExclusive() {
      Singleton(p.dir.sharers, ci);
    }
  }

  lemma Singleton(s: set<nat>, x: nat)
    requires x in s && |s| == 1
    ensures s == {x}
  {
    assert |s - {x}| == 0;
    assert s - {x} == {};
  }

  lemma TopNode(par: seq<nat>, p: Node, pi: nat, c: Node, ci: nat)
    requires TopReady(par, p, pi, c, ci)
    ensures var x := TopNodes(p, c, ci).0; NodeOk(x) && Wired(par, pi, x)
  {
    TopAsserts(par, p, pi, c, ci);
  }

  lemma TopChild(par: seq<nat>, p: Node, pi: nat, c: Node, ci: nat)
    requires TopReady(par, p, pi, c, ci)
    ensures var y := TopNodes(p, c, ci).1;
            && (y == c || (AnswerOk(c, y.mesi) && y == c.Answered(y.mesi)))
            && NodeOk(y) && Wired(par, ci, y)
  {
    TopAsserts(par, p, pi, c, ci);
    var y := TopNodes(p, c, ci).1;
    if y != c {
      AnsweredNode(par, ci, c, y.mesi);
    }
  }

  lemma TopEdge(par: seq<nat>, p: Node, pi: nat, c: Node, ci: nat)
    requires TopReady(par, p, pi, c, ci)
    ensures EdgeOk(TopNodes(p, c, ci).0, TopNodes(p, c, ci).1, ci)
  {
    TopAsserts(par, p, pi, c, ci);
  }

  lemma TopSibling(par: seq<nat>, p: Node, pi: nat, c: Node, ci: nat, d: Node, di: nat)
    requires TopReady(par, p, pi, c, ci)
    requires EdgeOk(p, d, di) && di != ci
    ensures EdgeOk(TopNodes(p, c, ci).0, d, di)
  {
    TopAsserts(par, p, pi, c, ci);
    var s := p.dir.sharers;
    if ci in s && di in s && p.dir.exclusive { Singleton(s, ci); }
    if ci in s {
      assert s - {ci} == {di} ==> di in s;
    }
    hide Wired;
  }

  lemma TopHot(par: seq<nat>, p: Node, pi: nat, c: Node, ci: nat)
    requires TopReady(par, p, pi, c, ci)
    ensures var (x, y) := TopNodes(p, c, ci); Hot(p) || Hot(c) ==> Hot(x) || Hot(y)
  {
    TopAsserts(par, p, pi, c, ci);
  }

  lemma TopStep(par: seq<nat>, s: System, pi: nat)
    requires Inv(par, s) && Enabled(par, s, Top(pi))
    ensures Inv(par, Apply(par, s, Top(pi))) && SourceAsserts(par, s, Top(pi))
  {
    var p, ci := s.nodes[pi], s.nodes[pi].act.child.value;
    var c := s.nodes[ci];
    assert EdgeOk(s.nodes[par[ci]], c, ci);
    TopAsserts(par, p, pi, c, ci);
    var (x, y) := TopNodes(p, c, ci);
    TopNode(par, p, pi, c, ci);
    TopChild(par, p, pi, c, ci);
    TopEdge(par, p, pi, c, ci);
    TopHot(par, p, pi, c, ci);
    if pi > 0 { SameUp(s.nodes[par[pi]], p, x, pi); }
    forall d: nat | IsChild(par, pi, d) && d != ci ensures EdgeOk(x, s.nodes[d], d) {
      TopSibling(par, p, pi, c, ci, s.nodes[d], d);
    }
    forall d: nat | IsChild(par, ci, d) ensures EdgeOk(y, s.nodes[d], d) {
      if y != c { AnsweredDown(c, y.mesi, s.nodes[d], d); }
    }
    Change2(par, s, pi, ci, x, y);
  }

  // ----- Invalidation walks -----

  lemma VisitNode(par: seq<nat>, p: Node, pi: nat, ci: nat, c: Node)
    requires NodeOk(p) && Wired(par, pi, p) && p.Walking()
    requires p.Current().at == None && ci in p.Current().todo
    ensures var x := VisitNodes(p, c, ci).0; NodeOk(x) && Wired(par, pi, x)
    ensures IsChild(par, pi, ci)
  {
  }

  // A sharer still to be visited is present.
  lemma VisitPresent(p: Node, ci: nat, c: Node)
    requires NodeOk(p) && EdgeOk(p, c, ci) && p.Walking() && ci in p.Current().todo
    ensures c.mesi != I
  {
  }

  lemma VisitChild(par: seq<nat>, p: Node, ci: nat, c: Node)
    requires NodeOk(c) && Wired(par, ci, c) && p.Walking() && c.BottomLockFree()
    ensures var y := VisitNodes(p, c, ci).1; NodeOk(y) && Wired(par, ci, y)
    ensures Hot(c) ==> Hot(VisitNodes(p, c, ci).1)
  {
  }

  lemma VisitEdge(p: Node, c: Node, ci: nat)
    requires NodeOk(p) && NodeOk(c) && EdgeOk(p, c, ci) && p.Walking() && c.BottomLockFree()
    requires p.Current().at == None && ci in p.Current().todo
    ensures EdgeOk(VisitNodes(p, c, ci).0, VisitNodes(p, c, ci).1, ci)
    ensures Hot(p) ==> Hot(VisitNodes(p, c, ci).0)
  {
  }

  lemma VisitSibling(p: Node, c: Node, ci: nat, d: Node, di: nat)
    requires NodeOk(p) && EdgeOk(p, d, di) && di != ci && p.Walking()
    requires p.Current().at == None && ci in p.Current().todo
    ensures EdgeOk(VisitNodes(p, c, ci).0, d, di)
  {
  }

  lemma VisitUp(g: Node, p: Node, pi: nat, c: Node, ci: nat)
    requires EdgeOk(g, p, pi) && p.Walking()
    ensures EdgeOk(g, VisitNodes(p, c, ci).0, pi)
  {
  }

  lemma VisitDown(p: Node, ci: nat, c: Node, d: Node, di: nat)
    requires NodeOk(c) && EdgeOk(c, d, di) && p.Walking() && c.BottomLockFree()
    ensures EdgeOk(VisitNodes(p, c, ci).1, d, di)
  {
  }

  lemma VisitStep(par: seq<nat>, s: System, pi: nat, ci: nat)
    requires Inv(par, s) && Enabled(par, s, Visit(pi, ci))
    ensures SourceAsserts(par, s, Visit(pi, ci))
    ensures Inv(par, Apply(par, s, Visit(pi, ci)))
  {
    var p, c := s.nodes[pi], s.nodes[ci];
    VisitNode(par, p, pi, ci, c);
    assert EdgeOk(s.nodes[par[ci]], c, ci);
    VisitPresent(p, ci, c);
    var (x, y) := VisitNodes(p, c, ci);
    VisitChild(par, p, ci, c);
    VisitEdge(p, c, ci);
    if pi > 0 { VisitUp(s.nodes[par[pi]], p, pi, c, ci); }
    forall d: nat | IsChild(par, pi, d) && d != ci ensures EdgeOk(x, s.nodes[d], d) {
      VisitSibling(p, c, ci, s.nodes[d], d);
    }
    forall d: nat | IsChild(par, ci, d) ensures EdgeOk(y, s.nodes[d], d) {
      VisitDown(p, ci, c, s.nodes[d], d);
    }
    Change2(par, s, pi, ci, x, y);
  }

  ghost predicate LeaveReady(par: seq<nat>, p: Node, pi: nat, c: Node, ci: nat) {
    && NodeOk(p) && NodeOk(c) && EdgeOk(p, c, ci) && Wired(par, pi, p) && Wired(par, ci, c)
    && IsChild(par, pi, ci) && c.down.Some? && c.down.value.Finished()
  }

  lemma LeaveAsserts(par: seq<nat>, p: Node, pi: nat, c: Node, ci: nat)
    requires LeaveReady(par, p, pi, c, ci)
    ensures BottomInvalAsserts(c.mesi, c.down.value.kind) && EndWalkAsserts(c.dir, c.down.value)
    ensures p.Walking() && p.Current().sweep && ci in p.Current().todo && p.Current().at == Some(ci)
    ensures p.Current().kind == c.down.value.kind
    ensures p.Current().kind == INVX ==> p.dir.sharers == {ci} && IsExcl(c.mesi)
    ensures ci in p.dir.sharers
  {
    if p.Current().kind == INVX { Singleton(p.dir.sharers, ci); }
  }

  lemma LeaveNode(par: seq<nat>, p: Node, pi: nat, c: Node, ci: nat)
    requires LeaveReady(par, p, pi, c, ci)
    ensures p.Walking()
    ensures var x := LeaveNodes(p, c, ci).0; NodeOk(x) && Wired(par, pi, x)
  {
    LeaveAsserts(par, p, pi, c, ci);
  }

  lemma LeaveChild(par: seq<nat>, p: Node, pi: nat, c: Node, ci: nat)
    requires LeaveReady(par, p, pi, c, ci)
    ensures p.Walking()
    ensures var y := LeaveNodes(p, c, ci).1; NodeOk(y) && Wired(par, ci, y)
  {
    LeaveAsserts(par, p, pi, c, ci);
  }

  lemma LeaveEdge(par: seq<nat>, p: Node, pi: nat, c: Node, ci: nat)
    requires LeaveReady(par, p, pi, c, ci)
    ensures p.Walking()
    ensures EdgeOk(LeaveNodes(p, c, ci).0, LeaveNodes(p, c, ci).1, ci)
    ensures var (x, y) := LeaveNodes(p, c, ci); Hot(p) || Hot(c) ==> Hot(x) || Hot(y)
  {
    LeaveAsserts(par, p, pi, c, ci);
  }

  lemma LeaveSibling(par: seq<nat>, p: Node, pi: nat, c: Node, ci: nat, d: Node, di: nat)
    requires LeaveReady(par, p, pi, c, ci) && EdgeOk(p, d, di) && di != ci
    ensures p.Walking()
    ensures EdgeOk(LeaveNodes(p, c, ci).0, d, di)
  {
    LeaveAsserts(par, p, pi, c, ci);
    if di in p.dir.sharers && p.dir.exclusive { Singleton(p.dir.sharers, ci); }
  }

  lemma LeaveUp(g: Node, p: Node, pi: nat, c: Node, ci: nat)
    requires EdgeOk(g, p, pi) && p.Walking() && c.down.Some?
    ensures EdgeOk(g, LeaveNodes(p, c, ci).0, pi)
  {
  }

  lemma LeaveDown(par: seq<nat>, p: Node, pi: nat, c: Node, ci: nat, d: Node, di: nat)
    requires LeaveReady(par, p, pi, c, ci) && EdgeOk(c, d, di)
    ensures p.Walking()
    ensures EdgeOk(LeaveNodes(p, c, ci).1, d, di)
  {
    LeaveAsserts(par, p, pi, c, ci);
  }

  lemma LeaveStep(par: seq<nat>, s: System, ci: nat)
    requires Inv(par, s) && Enabled(par, s, Leave(ci))
    ensures Inv(par, Apply(par, s, Leave(ci))) && SourceAsserts(par, s, Leave(ci))
  {
    var pi := par[ci];
    var p, c := s.nodes[pi], s.nodes[ci];
    assert IsChild(par, pi, ci);
    LeaveAsserts(par, p, pi, c, ci);
    var (x, y) := LeaveNodes(p, c, ci);
    LeaveNode(par, p, pi, c, ci);
    LeaveChild(par, p, pi, c, ci);
    LeaveEdge(par, p, pi, c, ci);
    if pi > 0 { LeaveUp(s.nodes[par[pi]], p, pi, c, ci); }
    forall d: nat | IsChild(par, pi, d) && d != ci ensures EdgeOk(x, s.nodes[d], d) {
      LeaveSibling(par, p, pi, c, ci, s.nodes[d], d);
    }
    forall d: nat | IsChild(par, ci, d) ensures EdgeOk(y, s.nodes[d], d) {
      LeaveDown(par, p, pi, c, ci, s.nodes[d], d);
    }
    Change2(par, s, pi, ci, x, y);
  }

  // ----- The end of a walk for a GETS or GETX -----

  ghost predicate GrantReady(par: seq<nat>, p: Node, pi: nat, c: Node, ci: nat) {
    && NodeOk(p) && NodeOk(c) && EdgeOk(p, c, ci) && Wired(par, pi, p) && Wired(par, ci, c)
    && p.act.Granting? && p.act.grantee == ci && p.act.walk.Finished()
  }

  lemma GrantAsserts(par: seq<nat>, p: Node, pi: nat, c: Node, ci: nat)
    requires GrantReady(par, p, pi, c, ci)
    ensures var e := EndWalk(p.dir, p.act.walk);
            && EndWalkAsserts(p.dir, p.act.walk)
            && (p.act.typ == GETS ==> !e.IsExclusive())
            && (p.act.typ == GETX ==> e.Add(p.act.grantee, true).numSharers == 1 && e.sharers == {})
            && (p.act.walk.wb ==> IsExcl(p.mesi))
            && e.numSharers == |e.sharers| && e.sharers == p.dir.sharers
    ensures c.down == None && AnswerOk(c, GrantNodes(p, c, ci).1.mesi) && p.down == None
  {
  }

  lemma GrantNode(par: seq<nat>, p: Node, pi: nat, c: Node, ci: nat)
    requires GrantReady(par, p, pi, c, ci)
    ensures var x := GrantNodes(p, c, ci).0; NodeOk(x) && Wired(par, pi, x)
  {
    GrantAsserts(par, p, pi, c, ci);
  }

  lemma GrantEdge(par: seq<nat>, p: Node, pi: nat, c: Node, ci: nat)
    requires GrantReady(par, p, pi, c, ci)
    ensures EdgeOk(GrantNodes(p, c, ci).0, GrantNodes(p, c, ci).1, ci)
    ensures var (x, y) := GrantNodes(p, c, ci); Hot(p) || Hot(c) ==> Hot(x) || Hot(y)
  {
    GrantAsserts(par, p, pi, c, ci);
  }

  lemma GrantSibling(par: seq<nat>, p: Node, pi: nat, c: Node, ci: nat, d: Node, di: nat)
    requires GrantReady(par, p, pi, c, ci) && EdgeOk(p, d, di) && di != ci
    ensures EdgeOk(GrantNodes(p, c, ci).0, d, di)
  {
    GrantAsserts(par, p, pi, c, ci);
  }

  lemma GrantUp(par: seq<nat>, g: Node, p: Node, pi: nat, c: Node, ci: nat)
    requires GrantReady(par, p, pi, c, ci) && EdgeOk(g, p, pi)
    ensures EdgeOk(g, GrantNodes(p, c, ci).0, pi)
  {
    GrantAsserts(par, p, pi, c, ci);
  }

  lemma GrantStep(par: seq<nat>, s: System, pi: nat)
    requires Inv(par, s) && Enabled(par, s, Grant(pi))
    ensures Inv(par, Apply(par, s, Grant(pi))) && SourceAsserts(par, s, Grant(pi))
  {
    var p, ci := s.nodes[pi], s.nodes[pi].act.grantee;
    var c := s.nodes[ci];
    assert EdgeOk(s.nodes[par[ci]], c, ci);
    GrantAsserts(par, p, pi, c, ci);
    var (x, y) := GrantNodes(p, c, ci);
    GrantNode(par, p, pi, c, ci);
    AnsweredNode(par, ci, c, y.mesi);
    GrantEdge(par, p, pi, c, ci);
    if pi > 0 { GrantUp(par, s.nodes[par[pi]], p, pi, c, ci); }
    forall d: nat | IsChild(par, pi, d) && d != ci ensures EdgeOk(x, s.nodes[d], d) {
      GrantSibling(par, p, pi, c, ci, s.nodes[d], d);
    }
    forall d: nat | IsChild(par, ci, d) ensures EdgeOk(y, s.nodes[d], d) {
      AnsweredDown(c, y.mesi, s.nodes[d], d);
    }
    Change2(par, s, pi, ci, x, y);
  }

  // ----- Evictions -----

  lemma EvictNode(par: seq<nat>, n: nat, p: Node)
    requires NodeOk(p) && Wired(par, n, p) && p.act.Idle? && p.down == None
    ensures var x := p.(act := Flushing(StartWalk(INV, p.dir)));
            NodeOk(x) && Wired(par, n, x) && (Hot(p) ==> Hot(x))
  {
  }

  lemma EvictDown(p: Node, d: Node, di: nat)
    requires NodeOk(p) && EdgeOk(p, d, di) && p.act.Idle? && p.down == None
    ensures EdgeOk(p.(act := Flushing(StartWalk(INV, p.dir))), d, di)
  {
  }

  lemma EvictStep(par: seq<nat>, s: System, n: nat)
    requires Inv(par, s) && Enabled(par, s, EvictLine(n))
    ensures Inv(par, Apply(par, s, EvictLine(n)))
  {
    var p := s.nodes[n];
    var x := p.(act := Flushing(StartWalk(INV, p.dir)));
    EvictNode(par, n, p);
    if n > 0 { SameUp(s.nodes[par[n]], p, x, n); }
    forall d: nat | IsChild(par, n, d) ensures EdgeOk(x, s.nodes[d], d) {
      EvictDown(p, s.nodes[d], d);
    }
    Change1(par, s, n, x, s.dirty);
  }

  lemma FlushedOk(par: seq<nat>, n: nat, p: Node)
    requires NodeOk(p) && Wired(par, n, p) && p.act.Flushing? && p.act.walk.Finished()
    ensures NodeOk(FlushedNode(p)) && Wired(par, n, FlushedNode(p)) && (Hot(p) ==> Hot(FlushedNode(p)))
    ensures EndWalkAsserts(p.dir, p.act.walk) && (p.act.walk.wb ==> IsExcl(p.mesi))
    ensures p.down == None && FlushedNode(p).down == None
  {
  }

  lemma FlushedUp(g: Node, p: Node, pi: nat)
    requires NodeOk(p) && EdgeOk(g, p, pi) && p.act.Flushing? && p.act.walk.Finished()
    ensures EdgeOk(g, FlushedNode(p), pi)
  {
  }

  lemma FlushedDown(p: Node, d: Node, di: nat)
    requires NodeOk(p) && EdgeOk(p, d, di) && p.act.Flushing? && p.act.walk.Finished()
    ensures EdgeOk(FlushedNode(p), d, di)
  {
  }

  lemma FlushedStep(par: seq<nat>, s: System, n: nat)
    requires Inv(par, s) && Enabled(par, s, Flushed(n))
    ensures Inv(par, Apply(par, s, Flushed(n))) && SourceAsserts(par, s, Flushed(n))
  {
    var p := s.nodes[n];
    FlushedOk(par, n, p);
    if n > 0 { FlushedUp(s.nodes[par[n]], p, n); }
    forall d: nat | IsChild(par, n, d) ensures EdgeOk(FlushedNode(p), s.nodes[d], d) {
      FlushedDown(p, s.nodes[d], d);
    }
    Change1(par, s, n, FlushedNode(p), s.dirty);
  }

  // ----- Memory -----

  lemma MemoryAnswer(n: Node)
    requires NodeOk(n) && n.req.Some?
    ensures AnswerOk(n, MemoryState(n.req.value))
    ensures n.req.value.typ != PUTX && Hot(n) ==> n.down.Some?
  {
  }

  lemma MemoryStep(par: seq<nat>, s: System)
    requires Inv(par, s) && Enabled(par, s, Memory)
    ensures Inv(par, Apply(par, s, Memory))
  {
    var n := s.nodes[0];
    var m := MemoryState(n.req.value);
    MemoryAnswer(n);
    AnsweredNode(par, 0, n, m);
    forall d: nat | IsChild(par, 0, d) ensures EdgeOk(n.Answered(m), s.nodes[d], d) {
      AnsweredDown(n, m, s.nodes[d], d);
    }
    Change1(par, s, 0, n.Answered(m), s.dirty && n.req.value.typ != PUTX);
  }
}
