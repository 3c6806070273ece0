// The inductive invariant: a condition on each node and a condition on each parent-child edge.
module CoherenceInvariant {
  import opened Options
  import opened CoherenceControllers
  import opened CoherenceSystem

  // A walk in progress agrees with the directory entry it works on.
  predicate WalkOk(e: Entry, w: Walk) {
    if !w.sweep then
      w.todo == {} && w.at == None && w.sent == 0 && e.numSharers == |e.sharers| &&
      (if w.kind == INV then e.sharers == {} else !e.IsExclusive())
    else
      && (w.at.Some? ==> w.at.value in w.todo)
      && (if w.kind == INV then
            w.todo == e.sharers && e.numSharers == |e.sharers| + w.sent
          else
            && e.exclusive && e.numSharers == 1 && |e.sharers| == 1
            && ((w.todo == e.sharers && w.sent == 0) || (w.todo == {} && w.sent == 1)))
  }

  predicate RequestOk(n: Node) {
    match n.act
    case Fetching(_, t, _) =>
      && n.req.Some? && n.req.value.typ == t && IsGet(t)
      && (t == GETS ==> n.req.value.initial == I && n.mesi == I)
      && (t == GETX ==> n.req.value.initial in {I, S} && n.mesi in {I, n.req.value.initial})
    case Putting =>
      && n.req.Some? && n.dir.sharers == {}
      && (match n.req.value.initial
          case I => false
          case S => n.req.value.typ == PUTS && n.mesi in {S, I}
          case E => n.req.value.typ == PUTS && n.mesi in {E, S, I}
          case M => n.req.value.typ == PUTX && n.mesi in {M, S, I})
    case _ => n.req == None
  }

  predicate ActivityOk(n: Node) {
    match n.act
    case Ready(_, t, _) => (t == GETX || t == PUTX ==> n.mesi == M) && n.mesi != I
    case Granting(c, t, w, kept) =>
      && c !in n.dir.sharers
      && (match t
          case GETS => w.kind == INVX && w.sweep && !kept && IsExcl(n.mesi)
          case GETX => w.kind == INV && n.mesi == M && (kept ==> !n.dir.exclusive)
          case _ => false)
    case Flushing(w) => w.kind == INV
    case _ => true
  }

  // The exclusive sharer has been downgraded, the entry's flag has not been cleared yet.
  predicate Downgraded(p: Node) {
    p.Walking() && p.Current().kind == INVX && p.Current().sweep && p.Current().todo == {}
  }

  // What holds of one node by itself.
  predicate NodeOk(n: Node) {
    && RequestOk(n)
    && ActivityOk(n)
    && (n.down.Some? ==> !n.act.HoldsBottomLock())
    && (n.Walking() ==> WalkOk(n.dir, n.Current()) && (n.Current().wb ==> IsExcl(n.mesi)))
    && (!n.Walking() ==> n.dir.numSharers == |n.dir.sharers|)
    && (n.dir.sharers != {} ==> n.mesi != I)
    && (n.dir.sharers != {} && n.dir.exclusive ==> |n.dir.sharers| == 1)
    && (n.dir.sharers != {} && n.dir.exclusive && !Downgraded(n) ==> IsExcl(n.mesi))
  }

  // The node refers to children of its own only.
  ghost predicate Wired(par: seq<nat>, i: nat, n: Node) {
    && (forall c | c in n.dir.sharers :: IsChild(par, i, c))
    && ((n.act.Fetching? || n.act.Ready?) && n.act.child.Some? ==> IsChild(par, i, n.act.child.value))
    && ((n.act.Fetching? || n.act.Ready?) && n.act.child.None? ==>
          IsLeaf(par, i) && IsGet(n.act.typ))
    && (n.act.Granting? ==> IsChild(par, i, n.act.grantee))
  }

  // The child asked for an upgrade and was taken out of the entry while the others are invalidated.
  predicate Kept(p: Node, ci: nat) {
    p.act.Granting? && p.act.grantee == ci && p.act.kept
  }

  predicate VisitsNow(p: Node, ci: nat) {
    p.Walking() && p.Current().at == Some(ci)
  }

  predicate ServeOk(p: Node, c: Node, ci: nat) {
    p.act.Serves(ci) ==>
      && c.req.Some?
      && (!p.act.Ready? ==> p.act.typ == c.req.value.typ)
      && (p.act.Ready? ==>
            match p.act.typ
            case PUTX => c.req.value.typ == PUTX && c.mesi == M
            case PUTS => (c.req.value.typ == PUTX || c.req.value.typ == PUTS) && c.mesi in {S, E}
            case t => c.req.value.typ == t)
  }

  // What holds between a node p and its child c, which has number ci.
  predicate EdgeOk(p: Node, c: Node, ci: nat) {
    && (c.mesi != I <==> ci in p.dir.sharers || Kept(p, ci))
    && (Kept(p, ci) ==> c.mesi == S)
    && (c.mesi != I ==> p.mesi != I)
    && (IsExcl(c.mesi) ==> p.dir.sharers == {ci} && p.dir.exclusive && IsExcl(p.mesi) && !Downgraded(p))
    && (p.dir.sharers == {ci} && p.dir.exclusive && !Downgraded(p) ==> IsExcl(c.mesi))
    && (c.down.Some? <==> VisitsNow(p, ci))
    && (c.down.Some? ==> c.down.value.kind == p.Current().kind)
    && ServeOk(p, c, ci)
  }

  // A node that remembers a write: in M, or in a walk that has collected a writeback.
  predicate Hot(n: Node) {
    n.mesi == M || (n.Walking() && n.Current().wb)
  }

  ghost predicate Inv(par: seq<nat>, s: System) {
    && IsTree(par)
    && |s.nodes| == |par|
    && (forall i | 0 <= i < |par| :: NodeOk(s.nodes[i]) && Wired(par, i, s.nodes[i]))
    && (forall i | 1 <= i < |par| :: EdgeOk(s.nodes[par[i]], s.nodes[i], i))
    && s.nodes[0].down == None
    && (s.dirty ==> exists i :: 0 <= i < |par| && Hot(s.nodes[i]))
  }

  lemma InitInv(par: seq<nat>)
    requires IsTree(par)
    ensures Inv(par, Init(|par|))
  {
  }

  // Changing one node keeps the invariant when the edges around it stay good.
  lemma Change1(par: seq<nat>, s: System, n: nat, x: Node, dirty: bool)
    requires Inv(par, s) && n < |par|
    requires NodeOk(x) && Wired(par, n, x)
    requires n > 0 ==> EdgeOk(s.nodes[par[n]], x, n)
    requires n == 0 ==> x.down == None
    requires forall d: nat | IsChild(par, n, d) :: EdgeOk(x, s.nodes[d], d)
    requires dirty ==> Hot(x) || (s.dirty && !Hot(s.nodes[n]))
    ensures Inv(par, Put1(s, n, x).(dirty := dirty))
  {
    hide NodeOk, Wired, EdgeOk, Hot;
    var t := Put1(s, n, x);
    forall i | 1 <= i < |par| ensures EdgeOk(t.nodes[par[i]], t.nodes[i], i) {
      if par[i] == n {
        assert IsChild(par, n, i);
      }
    }
    if dirty && !Hot(x) {
      var i :| 0 <= i < |par| && Hot(s.nodes[i]);
      assert Hot(t.nodes[i]);
    } else if dirty {
      assert Hot(t.nodes[n]);
    }
  }

  // Changing a node and one of its children keeps the invariant when the edge between them,
  // the edges to the other children of both, and the edge above stay good.
  lemma Change2(par: seq<nat>, s: System, p: nat, c: nat, x: Node, y: Node)
    requires Inv(par, s) && IsChild(par, p, c)
    requires NodeOk(x) && Wired(par, p, x) && NodeOk(y) && Wired(par, c, y)
    requires EdgeOk(x, y, c)
    requires p > 0 ==> EdgeOk(s.nodes[par[p]], x, p)
    requires p == 0 ==> x.down == None
    requires forall d: nat | IsChild(par, p, d) && d != c :: EdgeOk(x, s.nodes[d], d)
    requires forall d: nat | IsChild(par, c, d) :: EdgeOk(y, s.nodes[d], d)
    requires Hot(s.nodes[p]) || Hot(s.nodes[c]) ==> Hot(x) || Hot(y)
    ensures Inv(par, Put2(s, p, c, (x, y)))
  {
    hide NodeOk, Wired, EdgeOk, Hot;
    var t := Put2(s, p, c, (x, y));
    forall i | 1 <= i < |par| ensures EdgeOk(t.nodes[par[i]], t.nodes[i], i) {
      if par[i] == p {
        assert IsChild(par, p, i);
      } else if par[i] == c {
        assert IsChild(par, c, i);
      }
    }
    if s.dirty {
      var i :| 0 <= i < |par| && Hot(s.nodes[i]);
      assert Hot(t.nodes[i]) || Hot(t.nodes[p]) || Hot(t.nodes[c]);
    }
  }
}
