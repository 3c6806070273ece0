// Runs in which nothing is stored: no line is ever taken for modified, and nothing is written back; and if all loads
// are flagged like instruction fetches, no copy is ever exclusive.
module CoherenceClean {
  import opened Options
  import opened CoherenceControllers
  import opened CoherenceSystem

  // A load or a clean write-back; `flagged` says that all loads carry the flag.
  predicate CleanAccess(t: AccessType, noExcl: bool, flagged: bool) {
    t == PUTS || (t == GETS && (flagged ==> noExcl))
  }

  predicate CleanState(m: State, flagged: bool) {
    m == I || m == S || (m == E && !flagged)
  }

  predicate CleanNode(x: Node, flagged: bool) {
    && CleanState(x.mesi, flagged)
    && (x.req.Some? ==> CleanAccess(x.req.value.typ, x.req.value.noExcl, flagged))
    && (x.down.Some? ==> !x.down.value.wb)
    && match x.act
       case Fetching(_, t, nx) => CleanAccess(t, nx, flagged)
       case Ready(_, t, nx) => CleanAccess(t, nx, flagged)
       case Granting(_, t, w, _) => t == GETS && !w.wb
       case Flushing(w) => !w.wb
       case _ => true
  }

  ghost predicate Clean(s: System, flagged: bool) {
    !s.dirty && forall i | 0 <= i < |s.nodes| :: CleanNode(s.nodes[i], flagged)
  }

  // The only accesses that enter are loads, flagged ones if so wanted.
  predicate LoadsOnly(l: Label, flagged: bool) {
    l.Core? ==> l.typ == GETS && (flagged ==> l.noExcl)
  }

  lemma BeginClean(p: Node, c: Node, ci: nat, flagged: bool)
    requires CleanNode(p, flagged) && CleanNode(c, flagged) && c.req.Some?
    ensures CleanNode(BeginNodes(p, c, ci).0, flagged) && CleanNode(BeginNodes(p, c, ci).1, flagged)
  {
  }

  lemma TopClean(p: Node, c: Node, ci: nat, flagged: bool)
    requires CleanNode(p, flagged) && CleanNode(c, flagged) && p.act.Ready?
    ensures CleanNode(TopNodes(p, c, ci).0, flagged) && CleanNode(TopNodes(p, c, ci).1, flagged)
  {
  }

  lemma WalkClean(p: Node, c: Node, ci: nat, flagged: bool)
    requires CleanNode(p, flagged) && CleanNode(c, flagged) && p.Walking()
    ensures CleanNode(VisitNodes(p, c, ci).0, flagged) && CleanNode(VisitNodes(p, c, ci).1, flagged)
    ensures c.down.Some? ==> CleanNode(LeaveNodes(p, c, ci).0, flagged) && CleanNode(LeaveNodes(p, c, ci).1, flagged)
    ensures p.act.Granting? ==> CleanNode(GrantNodes(p, c, ci).0, flagged) && CleanNode(GrantNodes(p, c, ci).1, flagged)
  {
  }

  lemma StepClean(par: seq<nat>, s: System, l: Label, flagged: bool)
    requires IsTree(par) && |s.nodes| == |par| && Enabled(par, s, l) && Clean(s, flagged) && LoadsOnly(l, flagged)
    ensures Clean(Apply(par, s, l), flagged)
  {
    var ns := s.nodes;
    match l
    case Begin(c) => BeginClean(ns[par[c]], ns[c], c, flagged); hide CleanNode, BeginNodes;
    case Top(n) => TopClean(ns[n], ns[ns[n].act.child.value], ns[n].act.child.value, flagged); hide CleanNode, TopNodes;
    case Visit(n, c) => WalkClean(ns[n], ns[c], c, flagged); hide CleanNode, VisitNodes;
    case Leave(c) => WalkClean(ns[par[c]], ns[c], c, flagged); hide CleanNode, LeaveNodes;
    case Grant(n) => WalkClean(ns[n], ns[ns[n].act.grantee], ns[n].act.grantee, flagged); hide CleanNode, GrantNodes;
    case _ =>
  }

  lemma {:induction false} RunClean(par: seq<nat>, s: System, ls: seq<Label>, flagged: bool)
    requires IsTree(par) && |s.nodes| == |par| && CanRun(par, s, ls) && Clean(s, flagged)
    requires forall i | 0 <= i < |ls| :: LoadsOnly(ls[i], flagged)
    ensures Clean(Run(par, s, ls), flagged)
    decreases |ls|
  {
    if ls != [] {
      StepClean(par, s, ls[0], flagged);
      hide Clean, Enabled, Apply;
      RunClean(par, Apply(par, s, ls[0]), ls[1..], flagged);
    }
  }

  // Without stores, no line is ever in M, no PUTX is ever sent and no walk reports a write-back, whatever is evicted.
  lemma NoStoresNoWritebacks(par: seq<nat>, ls: seq<Label>, n: nat)
    requires IsTree(par) && CanRun(par, Init(|par|), ls) && n < |par|
    requires forall i | 0 <= i < |ls| :: ls[i].Core? ==> ls[i].typ == GETS
    ensures var x := Run(par, Init(|par|), ls).nodes[n];
            && x.mesi != M && (x.req.Some? ==> x.req.value.typ in {GETS, PUTS})
            && (x.Walking() ==> !x.Current().wb)
  {
    RunClean(par, Init(|par|), ls, false);
    assert CleanNode(Run(par, Init(|par|), ls).nodes[n], false);
    hide Run, CanRun;
  }

  // If moreover all loads are flagged, no copy is ever exclusive.
  lemma FetchesShare(par: seq<nat>, ls: seq<Label>, n: nat)
    requires IsTree(par) && CanRun(par, Init(|par|), ls) && n < |par|
    requires forall i | 0 <= i < |ls| :: ls[i].Core? ==> ls[i].typ == GETS && ls[i].noExcl
    ensures Run(par, Init(|par|), ls).nodes[n].mesi in {I, S}
  {
    RunClean(par, Init(|par|), ls, true);
    assert CleanNode(Run(par, Init(|par|), ls).nodes[n], true);
    hide Run, CanRun;
  }
}
