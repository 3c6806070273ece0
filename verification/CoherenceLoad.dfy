// A load that misses everywhere and completes alone, on any tree and in every order of the controllers' steps: which
// copies it leaves, and what the store that often follows it finds.
module CoherenceLoad {
  import opened Options
  import opened CoherenceControllers
  import opened CoherenceSystem
  import opened CoherenceInvariant
  import opened CoherenceTheorems

  // ----- The path from the root to node n -----

  // The child of i on the way to n, none at n itself.
  ghost function Towards(par: seq<nat>, i: nat, n: nat): (c: Option<nat>)
    requires IsTree(par) && n < |par| && Above(par, i, n)
    ensures i == n ==> c == None
    ensures i != n ==> c.Some? && IsChild(par, i, c.value) && Above(par, c.value, n)
    decreases n
  {
    if i == n then None else if par[n] == i then Some(n) else Towards(par, i, par[n])
  }

  // Nothing on the path lies between a node and the next one.
  lemma {:induction false} NextOnPath(par: seq<nat>, i: nat, n: nat, j: nat)
    requires IsTree(par) && n < |par| && Above(par, i, n) && Above(par, j, n) && i < j
    ensures Towards(par, i, n).Some? && Towards(par, i, n).value <= j
    decreases n
  {
    AboveSmaller(par, j, n);
    if par[n] == i {
      if j != n { AboveSmaller(par, j, par[n]); }
    } else if j == n {
      AboveSmaller(par, Towards(par, i, par[n]).value, par[n]);
    } else {
      NextOnPath(par, i, par[n], j);
    }
  }

  lemma {:induction false} ParentOnPath(par: seq<nat>, c: nat, n: nat)
    requires IsTree(par) && n < |par| && 0 < c < |par| && Above(par, c, n)
    ensures Above(par, par[c], n) && par[c] != n && Towards(par, par[c], n) == Some(c)
    decreases n
  {
    AboveSmaller(par, c, n);
    if c != n {
      ParentOnPath(par, c, par[n]);
      AboveSmaller(par, c, par[n]);
    } else {
      assert Above(par, par[n], par[n]);
    }
  }

  // ----- Where the load is -----

  // It has been asked for from n up to node `at`; or it has been answered down to node `at`; or it is over.
  datatype Phase = Asked(at: nat) | Given(at: nat) | Over

  predicate Blank(x: Node) {
    x.mesi == I && x.act.Idle? && x.req.None? && x.down.None? && x.dir.IsEmpty()
  }

  predicate Waits(x: Node, child: Option<nat>, nx: bool) {
    && x.mesi == I && x.down.None? && x.dir.IsEmpty()
    && x.act == Fetching(child, GETS, nx) && x.req == Some(Request(GETS, I, nx))
  }

  predicate Holds(x: Node, child: Option<nat>, nx: bool, g: State) {
    x.mesi == g && x.down.None? && x.dir.IsEmpty() && x.act == Ready(child, GETS, nx) && x.req.None?
  }

  predicate Rests(x: Node, g: State) {
    x.mesi == g && x.act.Idle? && x.req.None? && x.down.None?
  }

  // The state that memory answers with.
  function Answer(nx: bool): State {
    if nx then S else E
  }

  ghost predicate NodeIn(par: seq<nat>, n: nat, nx: bool, ph: Phase, i: nat, x: Node)
    requires IsTree(par) && n < |par|
  {
    if !Above(par, i, n) then Blank(x)
    else match ph
      case Asked(at) => if i < at then Blank(x) else Waits(x, Towards(par, i, n), nx)
      case Given(at) =>
        if i < at then Rests(x, Answer(nx))
        else if i == at then Holds(x, Towards(par, i, n), nx, Answer(nx))
        else Waits(x, Towards(par, i, n), nx)
      case Over => Rests(x, Answer(nx))
  }

  ghost predicate InPhase(par: seq<nat>, s: System, n: nat, nx: bool, ph: Phase) {
    && IsTree(par) && |s.nodes| == |par| && n < |par| && IsLeaf(par, n)
    && (ph.Over? || (ph.at < |par| && Above(par, ph.at, n)))
    && forall i | 0 <= i < |par| :: NodeIn(par, n, nx, ph, i, s.nodes[i])
  }

  // The step that takes the load further, and where it is then.
  function Next(ph: Phase, n: nat): Label
    requires !ph.Over?
  {
    match ph
    case Asked(at) => if at == 0 then Memory else Begin(at)
    case Given(at) => if at == n then Done(n) else Top(at)
  }

  ghost function After(par: seq<nat>, ph: Phase, n: nat): Phase
    requires IsTree(par) && n < |par| && !ph.Over? && ph.at < |par| && Above(par, ph.at, n)
  {
    match ph
    case Asked(at) => if at == 0 then Given(0) else Asked(par[at])
    case Given(at) => if at == n then Over else Given(Towards(par, at, n).value)
  }

  // A child on the path above `at` has its parent above `at` as well; nothing lies between.
  lemma Between(par: seq<nat>, n: nat, at: nat, c: nat)
    requires IsTree(par) && n < |par| && Above(par, at, n) && 0 < c < |par| && Above(par, c, n) && at < c
    ensures Above(par, par[c], n) && at <= par[c]
  {
    ParentOnPath(par, c, n);
    if par[c] < at { NextOnPath(par, par[c], n, at); }
  }

  // Nothing is invalidated or evicted, and one node at most has the line and its top controller's work to do.
  lemma NothingElse(par: seq<nat>, s: System, n: nat, nx: bool, ph: Phase, i: nat)
    requires InPhase(par, s, n, nx, ph) && i < |par|
    ensures var x := s.nodes[i];
            && !x.Walking()
            && (x.act.Ready? ==> ph == Given(i) && (x.act.child == None <==> i == n))
            && (x.req.Some? ==> Above(par, i, n) && !ph.Over? && ph.at <= i && (ph.at == i ==> ph.Asked?))
            && (x.act.Idle? <==> !Above(par, i, n) || ph.Over? || i < ph.at)
  {
    assert NodeIn(par, n, nx, ph, i, s.nodes[i]);
  }

  // No other step of the controllers is possible.
  lemma OnlyNext(par: seq<nat>, s: System, n: nat, nx: bool, ph: Phase, l: Label)
    requires InPhase(par, s, n, nx, ph) && Enabled(par, s, l) && !IsExternal(l)
    ensures !ph.Over? && l == Next(ph, n)
  {
    forall i: nat | i < |par|
      ensures var x := s.nodes[i];
              && !x.Walking()
              && (x.act.Ready? ==> ph == Given(i) && (x.act.child == None <==> i == n))
              && (x.req.Some? ==> Above(par, i, n) && !ph.Over? && ph.at <= i && (ph.at == i ==> ph.Asked?))
              && (x.act.Idle? <==> !Above(par, i, n) || ph.Over? || i < ph.at)
    {
      NothingElse(par, s, n, nx, ph, i);
    }
    if l.Begin? && ph.at < l.c { Between(par, n, ph.at, l.c); }
    hide NodeIn, Above;
  }

  // One node changes, or a node and its parent; the others are as the next phase wants them.
  lemma AskedRoot(par: seq<nat>, s: System, n: nat, nx: bool)
    requires InPhase(par, s, n, nx, Asked(0)) && Enabled(par, s, Memory)
    ensures InPhase(par, Apply(par, s, Memory), n, nx, Given(0))
  {
    var t := Apply(par, s, Memory);
    RootAbove(par, n);
    assert NodeIn(par, n, nx, Asked(0), 0, s.nodes[0]);
    forall i | 0 <= i < |par| ensures NodeIn(par, n, nx, Given(0), i, t.nodes[i]) {
      assert NodeIn(par, n, nx, Asked(0), i, s.nodes[i]);
    }
  }

  lemma AskedUp(par: seq<nat>, s: System, n: nat, nx: bool, c: nat)
    requires InPhase(par, s, n, nx, Asked(c)) && Enabled(par, s, Begin(c))
    ensures InPhase(par, Apply(par, s, Begin(c)), n, nx, Asked(par[c]))
  {
    var t, p := Apply(par, s, Begin(c)), par[c];
    ParentOnPath(par, c, n);
    assert NodeIn(par, n, nx, Asked(c), c, s.nodes[c]) && NodeIn(par, n, nx, Asked(c), p, s.nodes[p]);
    forall i | 0 <= i < |par| ensures NodeIn(par, n, nx, Asked(p), i, t.nodes[i]) {
      assert NodeIn(par, n, nx, Asked(c), i, s.nodes[i]);
      if p < i && Above(par, i, n) { NextOnPath(par, p, n, i); }
    }
  }

  lemma GivenDown(par: seq<nat>, s: System, n: nat, nx: bool, p: nat)
    requires InPhase(par, s, n, nx, Given(p)) && Enabled(par, s, Top(p)) && p != n
    ensures InPhase(par, Apply(par, s, Top(p)), n, nx, After(par, Given(p), n))
  {
    var t, c := Apply(par, s, Top(p)), Towards(par, p, n).value;
    assert NodeIn(par, n, nx, Given(p), c, s.nodes[c]) && NodeIn(par, n, nx, Given(p), p, s.nodes[p]);
    forall i | 0 <= i < |par| ensures NodeIn(par, n, nx, Given(c), i, t.nodes[i]) {
      assert NodeIn(par, n, nx, Given(p), i, s.nodes[i]);
      if p < i && Above(par, i, n) { NextOnPath(par, p, n, i); }
    }
  }

  lemma GivenLast(par: seq<nat>, s: System, n: nat, nx: bool)
    requires InPhase(par, s, n, nx, Given(n)) && Enabled(par, s, Done(n))
    ensures InPhase(par, Apply(par, s, Done(n)), n, nx, Over)
  {
    var t := Apply(par, s, Done(n));
    forall i | 0 <= i < |par| ensures NodeIn(par, n, nx, Over, i, t.nodes[i]) {
      assert NodeIn(par, n, nx, Given(n), i, s.nodes[i]);
      if Above(par, i, n) { AboveSmaller(par, i, n); }
    }
  }

  lemma StepPhase(par: seq<nat>, s: System, n: nat, nx: bool, ph: Phase, l: Label)
    requires InPhase(par, s, n, nx, ph) && Enabled(par, s, l) && !IsExternal(l)
    ensures !ph.Over? && InPhase(par, Apply(par, s, l), n, nx, After(par, ph, n))
  {
    OnlyNext(par, s, n, nx, ph, l);
    match l
    case Memory => AskedRoot(par, s, n, nx);
    case Begin(c) => AskedUp(par, s, n, nx, c);
    case Top(p) => GivenDown(par, s, n, nx, p);
    case Done(_) => GivenLast(par, s, n, nx);
  }

  lemma {:induction false} RunPhase(par: seq<nat>, s: System, n: nat, nx: bool, ph: Phase, ls: seq<Label>)
    requires InPhase(par, s, n, nx, ph) && CanRun(par, s, ls) && Quiet(Run(par, s, ls))
    requires forall i | 0 <= i < |ls| :: !IsExternal(ls[i])
    ensures InPhase(par, Run(par, s, ls), n, nx, Over)
    decreases |ls|
  {
    if ls == [] {
      if !ph.Over? { NothingElse(par, s, n, nx, ph, ph.at); }
    } else {
      StepPhase(par, s, n, nx, ph, ls[0]);
      RunPhase(par, Apply(par, s, ls[0]), n, nx, After(par, ph, n), ls[1..]);
    }
  }

  // ----- Theorems -----

  ghost predicate NoCopies(s: System) {
    forall i | 0 <= i < |s.nodes| :: s.nodes[i].mesi == I
  }

  lemma EmptyIsBlank(par: seq<nat>, s: System, i: nat)
    requires Inv(par, s) && Quiet(s) && NoCopies(s) && i < |par|
    ensures Blank(s.nodes[i])
  {
    var x := s.nodes[i];
    QuietDown(par, s, i);
    assert NodeOk(x);
  }

  lemma CoreAsks(par: seq<nat>, s: System, n: nat, nx: bool)
    requires Inv(par, s) && Quiet(s) && NoCopies(s) && Enabled(par, s, Core(n, GETS, nx))
    ensures InPhase(par, Apply(par, s, Core(n, GETS, nx)), n, nx, Asked(n))
  {
    var t := Apply(par, s, Core(n, GETS, nx));
    forall i | 0 <= i < |par| ensures NodeIn(par, n, nx, Asked(n), i, t.nodes[i]) {
      EmptyIsBlank(par, s, i);
      if Above(par, i, n) { AboveSmaller(par, i, n); }
    }
  }

  lemma LoadEnds(par: seq<nat>, s: System, n: nat, nx: bool, ls: seq<Label>)
    requires Reachable(par, s) && Quiet(s) && NoCopies(s)
    requires CanRun(par, s, [Core(n, GETS, nx)] + ls) && Quiet(Run(par, s, [Core(n, GETS, nx)] + ls))
    requires forall i | 0 <= i < |ls| :: !IsExternal(ls[i])
    ensures InPhase(par, Run(par, s, [Core(n, GETS, nx)] + ls), n, nx, Over)
  {
    ReachableInv(par, s);
    CoreAsks(par, s, n, nx);
    assert ([Core(n, GETS, nx)] + ls)[1..] == ls;
    RunPhase(par, Apply(par, s, Core(n, GETS, nx)), n, nx, Asked(n), ls);
  }

  // A load by the core of leaf n that finds no copy anywhere and is completed alone leaves n and every node above it in
  // E, or in S if it was flagged, and no other copy.
  lemma LoadAlone(par: seq<nat>, s: System, n: nat, nx: bool, ls: seq<Label>)
    requires Reachable(par, s) && Quiet(s) && NoCopies(s)
    requires CanRun(par, s, [Core(n, GETS, nx)] + ls) && Quiet(Run(par, s, [Core(n, GETS, nx)] + ls))
    requires forall i | 0 <= i < |ls| :: !IsExternal(ls[i])
    ensures var t := Run(par, s, [Core(n, GETS, nx)] + ls);
            forall i: nat | i < |par| ::
              t.nodes[i].mesi == (if !Above(par, i, n) then I else if nx then S else E)
  {
    var t := Run(par, s, [Core(n, GETS, nx)] + ls);
    LoadEnds(par, s, n, nx, ls);
    forall i: nat | i < |par|
      ensures t.nodes[i].mesi == (if !Above(par, i, n) then I else if nx then S else E)
    {
      assert NodeIn(par, n, nx, Over, i, t.nodes[i]);
    }
  }

  // The next store by the same core can start. It is done in its own cache, with no request to the level above,
  // exactly if the load was not flagged.
  lemma StoreAfterLoad(par: seq<nat>, s: System, n: nat, nx: bool, ls: seq<Label>, again: bool)
    requires Reachable(par, s) && Quiet(s) && NoCopies(s)
    requires CanRun(par, s, [Core(n, GETS, nx)] + ls) && Quiet(Run(par, s, [Core(n, GETS, nx)] + ls))
    requires forall i | 0 <= i < |ls| :: !IsExternal(ls[i])
    ensures var t := Run(par, s, [Core(n, GETS, nx)] + ls);
            && Enabled(par, t, Core(n, GETX, again))
            && var u := Apply(par, t, Core(n, GETX, again));
               && (u.nodes[n].req.None? <==> !nx)
               && (!nx ==> u == t.(nodes := t.nodes[n := t.nodes[n].(mesi := M, act := Ready(None, GETX, again))])
                           && Enabled(par, u, Done(n)))
  {
    var t := Run(par, s, [Core(n, GETS, nx)] + ls);
    LoadEnds(par, s, n, nx, ls);
    assert NodeIn(par, n, nx, Over, n, t.nodes[n]);
    hide Reachable, NoCopies, CanRun, Run, Quiet;
  }
}
