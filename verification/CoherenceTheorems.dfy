// What the protocol guarantees over every run on every tree.
module CoherenceTheorems {
  import opened Options
  import opened CoherenceControllers
  import opened CoherenceSystem
  import opened CoherenceInvariant
  import opened CoherenceSteps

  // ----- Every run keeps the invariant, and every assert on the way holds -----

  lemma StepInv(par: seq<nat>, s: System, l: Label)
    requires Inv(par, s) && Enabled(par, s, l)
    ensures Inv(par, Apply(par, s, l)) && SourceAsserts(par, s, l)
  {
    match l
    case Core(n, t, nx) => CoreStep(par, s, n, t, nx);
    case Done(n) => DoneStep(par, s, n);
    case Begin(c) => BeginStep(par, s, c);
    case Top(n) => TopStep(par, s, n);
    case Visit(n, c) => VisitStep(par, s, n, c);
    case Leave(c) => LeaveStep(par, s, c);
    case Grant(n) => GrantStep(par, s, n);
    case EvictLine(n) => EvictStep(par, s, n);
    case Flushed(n) => FlushedStep(par, s, n);
    case Memory => MemoryStep(par, s);
  }

  ghost predicate Reachable(par: seq<nat>, s: System) {
    IsTree(par) && exists ls :: CanRun(par, Init(|par|), ls) && Run(par, Init(|par|), ls) == s
  }

  lemma {:induction false} RunInv(par: seq<nat>, s: System, ls: seq<Label>)
    requires Inv(par, s) && CanRun(par, s, ls)
    ensures Inv(par, Run(par, s, ls))
    decreases |ls|
  {
    if ls != [] {
      StepInv(par, s, ls[0]);
      RunInv(par, Apply(par, s, ls[0]), ls[1..]);
    }
  }

  lemma ReachableInv(par: seq<nat>, s: System)
    requires Reachable(par, s)
    ensures Inv(par, s)
  {
    var ls :| CanRun(par, Init(|par|), ls) && Run(par, Init(|par|), ls) == s;
    InitInv(par);
    RunInv(par, Init(|par|), ls);
  }

  // No assert of the controllers fails and no panic is reached, whatever races happen.
  lemma NoAssertFails(par: seq<nat>, s: System, l: Label)
    requires Reachable(par, s) && Enabled(par, s, l)
    ensures SourceAsserts(par, s, l)
  {
    ReachableInv(par, s);
    StepInv(par, s, l);
  }

  // Two nodes are replaced; only the child can have been answered, and properly.
  lemma AnsweredPair(s: System, pi: nat, ci: nat, x: Node, y: Node)
    requires pi < |s.nodes| && ci < |s.nodes| && pi != ci
    requires s.nodes[pi].req.None? || x == s.nodes[pi]
    requires y == s.nodes[ci] || (AnswerOk(s.nodes[ci], y.mesi) && y == s.nodes[ci].Answered(y.mesi))
    ensures AnswerAsserts(s, Put2(s, pi, ci, (x, y)))
  {
  }

  // The requester's own assert holds as well when its request is answered.
  lemma AnswersMatch(par: seq<nat>, s: System, l: Label)
    requires Reachable(par, s) && Enabled(par, s, l)
    ensures AnswerAsserts(s, Apply(par, s, l))
  {
    ReachableInv(par, s);
    match l
    case Begin(ci) => BeginAnswers(par, s, ci);
    case Top(n) => TopAnswers(par, s, n);
    case Grant(n) => GrantAnswers(par, s, n);
    case Memory => MemoryAnswer(s.nodes[0]);
    case _ => OtherAnswers(par, s, l);
  }

  lemma BeginAnswers(par: seq<nat>, s: System, ci: nat)
    requires Inv(par, s) && Enabled(par, s, Begin(ci))
    ensures AnswerAsserts(s, Apply(par, s, Begin(ci)))
  {
    var p, c := s.nodes[par[ci]], s.nodes[ci];
    assert IsChild(par, par[ci], ci);
    BeginAsserts(p, c, ci);
    var (x, y) := BeginNodes(p, c, ci);
    AnsweredPair(s, par[ci], ci, x, y);
  }

  lemma TopAnswers(par: seq<nat>, s: System, n: nat)
    requires Inv(par, s) && Enabled(par, s, Top(n))
    ensures AnswerAsserts(s, Apply(par, s, Top(n)))
  {
    var ci := s.nodes[n].act.child.value;
    assert EdgeOk(s.nodes[par[ci]], s.nodes[ci], ci);
    TopChild(par, s.nodes[n], n, s.nodes[ci], ci);
    var (x, y) := TopNodes(s.nodes[n], s.nodes[ci], ci);
    AnsweredPair(s, n, ci, x, y);
  }

  lemma GrantAnswers(par: seq<nat>, s: System, n: nat)
    requires Inv(par, s) && Enabled(par, s, Grant(n))
    ensures AnswerAsserts(s, Apply(par, s, Grant(n)))
  {
    var ci := s.nodes[n].act.grantee;
    assert EdgeOk(s.nodes[par[ci]], s.nodes[ci], ci);
    GrantAsserts(par, s.nodes[n], n, s.nodes[ci], ci);
    var (x, y) := GrantNodes(s.nodes[n], s.nodes[ci], ci);
    AnsweredPair(s, n, ci, x, y);
  }

  lemma OtherAnswers(par: seq<nat>, s: System, l: Label)
    requires Inv(par, s) && Enabled(par, s, l)
    requires !l.Begin? && !l.Top? && !l.Grant? && !l.Memory?
    ensures AnswerAsserts(s, Apply(par, s, l))
  {
    hide NodeOk, EdgeOk, Wired;
  }

  // ----- One writer, or any number of readers -----

  // a is n or lies above it.
  ghost predicate Above(par: seq<nat>, a: nat, n: nat)
    requires IsTree(par)
    decreases n
  {
    a == n || (0 < n < |par| && Above(par, a, par[n]))
  }

  // A node with exclusive permission and any other node with a copy lie on one path to the root.
  lemma {:induction false} ExclusiveOnOnePath(par: seq<nat>, s: System, a: nat, b: nat)
    requires Inv(par, s) && a < |par| && b < |par|
    requires IsExcl(s.nodes[a].mesi) && s.nodes[b].mesi != I
    ensures Above(par, a, b) || Above(par, b, a)
    decreases a + b
  {
    if a == b {
    } else if a < b {
      assert EdgeOk(s.nodes[par[b]], s.nodes[b], b);
      ExclusiveOnOnePath(par, s, a, par[b]);
      if !Above(par, a, par[b]) {
        AboveSmaller(par, par[b], a);
        ExclusiveAlone(par, s, a, par[b], b);
      }
    } else {
      assert EdgeOk(s.nodes[par[a]], s.nodes[a], a);
      ExclusiveOnOnePath(par, s, par[a], b);
      if Above(par, par[a], b) {
        ExclusiveBelow(par, s, a, b);
      }
    }
  }

  lemma {:induction false} AboveSmaller(par: seq<nat>, a: nat, n: nat)
    requires IsTree(par) && Above(par, a, n)
    ensures a <= n
    decreases n
  {
    if a != n { AboveSmaller(par, a, par[n]); }
  }

  // Every node on the path from an exclusive node up is exclusive, and lists only that path.
  lemma {:induction false} ExclusiveAlone(par: seq<nat>, s: System, a: nat, p: nat, b: nat)
    requires Inv(par, s) && a < |par| && IsExcl(s.nodes[a].mesi)
    requires Above(par, p, a) && p != a && IsChild(par, p, b) && s.nodes[b].mesi != I
    ensures Above(par, b, a)
    decreases a
  {
    assert EdgeOk(s.nodes[par[a]], s.nodes[a], a);
    if par[a] == p {
      assert EdgeOk(s.nodes[p], s.nodes[b], b);
      assert NodeOk(s.nodes[p]);
    } else {
      ExclusiveAlone(par, s, par[a], p, b);
    }
  }

  // A valid node below the parent of an exclusive node is below that node or is the parent.
  lemma {:induction false} ExclusiveBelow(par: seq<nat>, s: System, a: nat, b: nat)
    requires Inv(par, s) && 0 < a < |par| && b < a && IsExcl(s.nodes[a].mesi)
    requires Above(par, par[a], b) && s.nodes[b].mesi != I
    ensures Above(par, b, a) || Above(par, a, b)
    decreases b
  {
    assert EdgeOk(s.nodes[par[a]], s.nodes[a], a);
    if b != par[a] {
      assert EdgeOk(s.nodes[par[b]], s.nodes[b], b);
      if par[b] == par[a] {
        ExclusiveAlone(par, s, a, par[a], b);
      } else {
        ExclusiveBelow(par, s, a, par[b]);
        if !Above(par, a, par[b]) {
          AboveSmaller(par, par[a], par[b]);
          PathBelow(par, par[b], a);
          AboveSmaller(par, par[b], par[a]);
        }
      }
    }
  }

  lemma PathBelow(par: seq<nat>, x: nat, a: nat)
    requires IsTree(par) && Above(par, x, a) && x != a
    ensures 0 < a < |par| && Above(par, x, par[a])
  {
  }

  // A terminal cache that may write is the only terminal cache with a copy.
  lemma SingleWriter(par: seq<nat>, s: System, a: nat, b: nat)
    requires Reachable(par, s) && a < |par| && b < |par| && a != b
    requires IsLeaf(par, a) && IsLeaf(par, b) && IsExcl(s.nodes[a].mesi)
    ensures s.nodes[b].mesi == I
  {
    ReachableInv(par, s);
    if s.nodes[b].mesi != I {
      ExclusiveOnOnePath(par, s, a, b);
      if Above(par, a, b) { LeafAbove(par, a, b); } else { LeafAbove(par, b, a); }
    }
  }

  lemma {:induction false} LeafAbove(par: seq<nat>, a: nat, n: nat)
    requires IsTree(par) && IsLeaf(par, a) && Above(par, a, n) && n < |par|
    ensures a == n
    decreases n
  {
    if a != n {
      assert IsChild(par, par[n], n);
      LeafAbove(par, a, par[n]);
    }
  }

  // Inclusion: a node with a copy has copies all the way up.
  lemma {:induction false} Inclusion(par: seq<nat>, s: System, a: nat, n: nat)
    requires Inv(par, s) && a < |par| && n < |par| && Above(par, a, n) && s.nodes[n].mesi != I
    ensures s.nodes[a].mesi != I
    decreases n
  {
    if a != n {
      assert EdgeOk(s.nodes[par[n]], s.nodes[n], n);
      Inclusion(par, s, a, par[n]);
    }
  }

  // ----- The directory -----

  // While no walk or upgrade is going on at p, its entry describes its children exactly.
  lemma DirectoryExact(par: seq<nat>, s: System, p: nat)
    requires Reachable(par, s) && p < |par| && !s.nodes[p].Walking()
    ensures var e := s.nodes[p].dir;
            && e.numSharers == |e.sharers|
            && (forall c: nat :: c in e.sharers <==> IsChild(par, p, c) && s.nodes[c].mesi != I)
            && (e.IsExclusive() <==> exists c: nat :: IsChild(par, p, c) && IsExcl(s.nodes[c].mesi))
  {
    ReachableInv(par, s);
    var e := s.nodes[p].dir;
    assert NodeOk(s.nodes[p]) && Wired(par, p, s.nodes[p]);
    forall c: nat ensures c in e.sharers <==> IsChild(par, p, c) && s.nodes[c].mesi != I {
      if IsChild(par, p, c) { assert EdgeOk(s.nodes[p], s.nodes[c], c); }
    }
    if e.IsExclusive() {
      var c :| c in e.sharers;
      Singleton(e.sharers, c);
      assert EdgeOk(s.nodes[p], s.nodes[c], c);
      assert IsChild(par, p, c) && IsExcl(s.nodes[c].mesi);
    }
    if c: nat :| IsChild(par, p, c) && IsExcl(s.nodes[c].mesi) {
      assert EdgeOk(s.nodes[p], s.nodes[c], c);
    }
  }

  // ----- Dirty data -----

  ghost predicate Quiet(s: System) {
    forall n | 0 <= n < |s.nodes| :: s.nodes[n].act.Idle?
  }

  lemma {:induction false} QuietDown(par: seq<nat>, s: System, n: nat)
    requires Inv(par, s) && Quiet(s) && n < |par|
    ensures s.nodes[n].down == None && !s.nodes[n].Walking()
    decreases n
  {
    if n > 0 {
      assert EdgeOk(s.nodes[par[n]], s.nodes[n], n);
      QuietDown(par, s, par[n]);
    }
  }

  // When nothing is in progress, data written by some core and not yet written back to memory
  // is held in M by some cache.
  lemma DirtyDataIsHeld(par: seq<nat>, s: System)
    requires Reachable(par, s) && Quiet(s) && s.dirty
    ensures exists n :: 0 <= n < |par| && s.nodes[n].mesi == M
  {
    ReachableInv(par, s);
    var n :| 0 <= n < |par| && Hot(s.nodes[n]);
    QuietDown(par, s, n);
  }

  // So once the last-level cache has given the line up, every write has reached memory.
  lemma EvictedMeansWrittenBack(par: seq<nat>, s: System)
    requires Reachable(par, s) && Quiet(s) && s.nodes[0].mesi == I
    ensures !s.dirty
  {
    if s.dirty {
      DirtyDataIsHeld(par, s);
      ReachableInv(par, s);
      var n :| 0 <= n < |par| && s.nodes[n].mesi == M;
      RootAbove(par, n);
      Inclusion(par, s, 0, n);
    }
  }

  lemma {:induction false} RootAbove(par: seq<nat>, n: nat)
    requires IsTree(par) && n < |par|
    ensures Above(par, 0, n)
    decreases n
  {
    if n > 0 { RootAbove(par, par[n]); }
  }

  // ----- Progress -----

  ghost predicate CanMove(par: seq<nat>, s: System)
    requires IsTree(par) && |s.nodes| == |par|
  {
    exists l :: !IsExternal(l) && Enabled(par, s, l)
  }

  lemma {:induction false} WalkMoves(par: seq<nat>, s: System, n: nat)
    requires Inv(par, s) && n < |par| && s.nodes[n].Walking()
    ensures CanMove(par, s)
    decreases |par| - n
  {
    var p := s.nodes[n];
    var w := p.Current();
    assert NodeOk(p) && Wired(par, n, p);
    if w.at.Some? {
      assert EdgeOk(p, s.nodes[w.at.value], w.at.value);
      WalkMoves(par, s, w.at.value);
    } else if w.todo != {} {
      var c :| c in w.todo;
      assert IsChild(par, n, c);
      assert EdgeOk(p, s.nodes[c], c);
      VisitMoves(par, s, n, c);
    } else if p.down.Some? {
      assert EdgeOk(s.nodes[par[n]], p, n);
      assert Enabled(par, s, Leave(n));
    } else if p.act.Granting? {
      assert Enabled(par, s, Grant(n));
    } else {
      assert Enabled(par, s, Flushed(n));
    }
  }

  // A walk that wants to enter c either can, or what holds the bottom lock of c can move.
  lemma {:induction false} VisitMoves(par: seq<nat>, s: System, n: nat, c: nat)
    requires Inv(par, s) && n < |par| && s.nodes[n].Walking() && s.nodes[n].Current().at == None
    requires IsChild(par, n, c) && c in s.nodes[n].Current().todo
    ensures CanMove(par, s)
    decreases |par| - n, 0
  {
    var x := s.nodes[c];
    assert EdgeOk(s.nodes[n], x, c);
    assert NodeOk(x) && Wired(par, c, x);
    if x.BottomLockFree() {
      assert Enabled(par, s, Visit(n, c));
    } else if x.act.Ready? {
      ReadyMoves(par, s, c);
    } else {
      WalkMoves(par, s, c);
    }
  }

  lemma ReadyMoves(par: seq<nat>, s: System, n: nat)
    requires Inv(par, s) && n < |par| && s.nodes[n].act.Ready?
    ensures CanMove(par, s)
  {
    assert Wired(par, n, s.nodes[n]);
    if s.nodes[n].act.child.None? {
      assert Enabled(par, s, Done(n));
    } else {
      assert Enabled(par, s, Top(n));
    }
  }

  lemma {:induction false} BusyMoves(par: seq<nat>, s: System, n: nat)
    requires Inv(par, s) && n < |par| && !s.nodes[n].act.Idle?
    ensures CanMove(par, s)
    decreases n
  {
    var x := s.nodes[n];
    assert NodeOk(x);
    if x.act.Ready? {
      ReadyMoves(par, s, n);
    } else if x.Walking() {
      WalkMoves(par, s, n);
    } else if n == 0 {
      assert Enabled(par, s, Memory);
    } else if s.nodes[par[n]].down.Some? {
      WalkMoves(par, s, par[n]);
    } else if s.nodes[par[n]].act.Idle? {
      assert Enabled(par, s, Begin(n));
    } else {
      BusyMoves(par, s, par[n]);
    }
  }

  // No deadlock: while any access, eviction or invalidation is unfinished, some controller can
  // take a step without the environment's help.
  lemma NoDeadlock(par: seq<nat>, s: System)
    requires Reachable(par, s) && !Quiet(s)
    ensures CanMove(par, s)
  {
    ReachableInv(par, s);
    var n :| 0 <= n < |s.nodes| && !s.nodes[n].act.Idle?;
    BusyMoves(par, s, n);
  }
}
