// One cache line over a tree of caches, as a step system at the granularity of the locks.
//
// Every node has two locks. The top lock (tcc) is held by the one access or eviction the node
// is busy with (`act`); the bottom lock (bcc) is held by that activity except while its own
// up-request is outstanding, or by an invalidation coming from above (`down`). A step is what
// happens between two points where a lock is taken or released; an invalidation walk over the
// children is many steps, and other nodes may move between them.
module CoherenceSystem {
  import opened Options
  import opened CoherenceControllers

  // An up-request whose issuer has released its bottom lock and waits for the parent.
  datatype Request = Request(typ: AccessType, initial: State, noExcl: bool)

  datatype Activity =
    | Idle
    | Fetching(child: Option<nat>, typ: AccessType, noExcl: bool)  // serving, own request outstanding
    | Ready(child: Option<nat>, typ: AccessType, noExcl: bool)     // bottom state good, top not done
    | Granting(grantee: nat, typ: AccessType, walk: Walk, kept: bool) // invalidating or downgrading others
    | Flushing(walk: Walk)                                         // evicting: invalidating the children
    | Putting                                                      // evicting: own PUT outstanding
  {
    predicate HoldsBottomLock() {
      Ready? || Granting? || Flushing?
    }

    predicate Serves(c: nat) {
      ((Fetching? || Ready?) && child == Some(c)) || (Granting? && grantee == c)
    }
  }

  datatype Node = Node(mesi: State, dir: Entry, act: Activity, down: Option<Walk>, req: Option<Request>) {
    predicate BottomLockFree() {
      !act.HoldsBottomLock() && down == None
    }

    predicate Walking() {
      down.Some? || act.Granting? || act.Flushing?
    }

    function Current(): Walk
      requires Walking()
    {
      if down.Some? then down.value else act.walk
    }

    function WithCurrent(w: Walk): Node
      requires Walking()
    {
      if down.Some? then this.(down := Some(w)) else this.(act := act.(walk := w))
    }

    // The request of this node is answered: the parent has written `m` into its state and has
    // taken the bottom lock again on its behalf.
    function Answered(m: State): Node {
      this.(mesi := m, req := None, act :=
        match act
        case Fetching(ch, t, nx) => Ready(ch, t, nx)
        case _ => Idle)
    }
  }

  const EMPTY_NODE := Node(I, EMPTY_ENTRY, Idle, None, None)

  // par[n] is the parent of node n; node 0 is the last-level cache, whose parent is memory.
  // Nodes are numbered so that parents come first, as the builder creates them.
  datatype System = System(nodes: seq<Node>, dirty: bool)

  ghost predicate IsTree(par: seq<nat>) {
    |par| >= 1 && forall n | 1 <= n < |par| :: par[n] < n
  }

  ghost predicate IsChild(par: seq<nat>, p: nat, c: nat) {
    1 <= c < |par| && par[c] == p
  }

  ghost predicate IsLeaf(par: seq<nat>, n: nat) {
    forall c :: !IsChild(par, n, c)
  }

  function Init(size: nat): System {
    System(seq(size, i => EMPTY_NODE), false)
  }

  datatype Label =
    | Core(n: nat, typ: AccessType, noExcl: bool)  // a core's load or store enters its terminal cache
    | Done(n: nat)                                 // and leaves it
    | Begin(c: nat)                                // the parent of c takes its locks and starts c's request
    | Top(n: nat)                                  // the top controller answers, or starts a walk
    | Visit(n: nat, c: nat)                        // a walk at n enters child c
    | Leave(c: nat)                                // and returns from it
    | Grant(n: nat)                                // a walk for a GETS or GETX is over
    | EvictLine(n: nat)                            // the line is chosen as a victim
    | Flushed(n: nat)                              // the walk of an eviction is over
    | Memory                                       // memory answers the last-level cache

  // The environment's moves; every other label is a step of the controllers themselves.
  predicate IsExternal(l: Label) {
    l.Core? || l.EvictLine?
  }

  ghost predicate Enabled(par: seq<nat>, s: System, l: Label)
    requires IsTree(par) && |s.nodes| == |par|
  {
    var ns := s.nodes;
    match l
    case Core(n, t, _) =>
      n < |ns| && IsLeaf(par, n) && IsGet(t) && ns[n].act.Idle? && ns[n].down == None
    case Done(n) =>
      n < |ns| && ns[n].act.Ready? && ns[n].act.child == None
    case Begin(c) =>
      0 < c < |ns| && ns[c].req.Some? && ns[par[c]].act.Idle? && ns[par[c]].down == None
    case Top(n) =>
      n < |ns| && ns[n].act.Ready? && ns[n].act.child.Some? && ns[n].act.child.value < |ns|
    case Visit(n, c) =>
      n < |ns| && c < |ns| && ns[n].Walking() && ns[n].Current().at == None
      && c in ns[n].Current().todo && ns[c].BottomLockFree()
    case Leave(c) =>
      0 < c < |ns| && ns[c].down.Some? && ns[c].down.value.Finished() && ns[par[c]].Walking()
    case Grant(n) =>
      n < |ns| && ns[n].act.Granting? && ns[n].act.walk.Finished() && ns[n].act.grantee < |ns|
    case EvictLine(n) =>
      n < |ns| && ns[n].act.Idle? && ns[n].down == None
    case Flushed(n) =>
      n < |ns| && ns[n].act.Flushing? && ns[n].act.walk.Finished()
    case Memory =>
      ns[0].req.Some?
  }

  // ----- What a step does to the one or two nodes it touches -----

  function CoreNode(n: Node, t: AccessType, nx: bool): Node {
    Accept(n, None, t, nx)
  }

  // Bottom part of an access: served here, or sent up with the bottom lock released.
  function Accept(n: Node, child: Option<nat>, t: AccessType, nx: bool): Node {
    if BottomHit(n.mesi, t)
    then n.(mesi := BottomHitState(n.mesi, t), act := Ready(child, t, nx))
    else n.(act := Fetching(child, t, nx), req := Some(Request(t, n.mesi, nx)))
  }

  function BeginNodes(p: Node, c: Node, ci: nat): (Node, Node)
    requires c.req.Some?
  {
    var r := c.req.value;
    if RaceSkips(r.typ, c.mesi, r.initial) then (p, c.Answered(c.mesi))
    else (Accept(p, Some(ci), RaceRewrites(r.typ, c.mesi, r.initial), r.noExcl), c)
  }

  function TopNodes(p: Node, c: Node, ci: nat): (Node, Node)
    requires p.act.Ready?
  {
    var t, e := p.act.typ, p.dir;
    match t
    case PUTS => (p.(act := Idle, dir := e.Drop(ci)), c.Answered(I))
    case PUTX => (p.(act := Idle, dir := e.Drop(ci)), c.Answered(I))
    case GETS =>
      if e.IsEmpty() && IsExcl(p.mesi) && !p.act.noExcl then
        (p.(act := Idle, dir := Entry(1, e.sharers + {ci}, true)), c.Answered(E))
      else if e.IsExclusive() then
        (p.(act := Granting(ci, GETS, StartWalk(INVX, e), false)), c)
      else
        (p.(act := Idle, dir := e.Add(ci, false)), c.Answered(S))
    case GETX =>
      var e1 := if ci in e.sharers then e.Drop(ci) else e;
      (p.(dir := e1, act := Granting(ci, GETX, StartWalk(INV, e1), ci in e.sharers)), c)
  }

  function VisitNodes(p: Node, c: Node, ci: nat): (Node, Node)
    requires p.Walking()
  {
    var w := p.Current();
    (p.WithCurrent(w.(at := Some(ci))), c.(down := Some(StartWalk(w.kind, c.dir))))
  }

  function LeaveNodes(p: Node, c: Node, ci: nat): (Node, Node)
    requires c.down.Some? && p.Walking()
  {
    var w, v := p.Current(), c.down.value;
    var wb := v.wb || c.mesi == M;
    (p.WithCurrent(VisitedWalk(w, ci, wb)).(dir := VisitedEntry(p.dir, w, ci)),
     c.(dir := EndWalk(c.dir, v), mesi := BottomInvalState(c.mesi, v.kind), down := None))
  }

  function GrantNodes(p: Node, c: Node, ci: nat): (Node, Node)
    requires p.act.Granting?
  {
    var e := EndWalk(p.dir, p.act.walk);
    var x := p.act.typ == GETX;
    (p.(act := Idle, dir := e.Add(ci, x), mesi := WritebackState(p.mesi, p.act.walk.wb)),
     c.Answered(if x then M else S))
  }

  function FlushedNode(n: Node): Node
    requires n.act.Flushing?
  {
    var m := if n.act.walk.wb then M else n.mesi;
    var n1 := n.(dir := EndWalk(n.dir, n.act.walk), mesi := m);
    if m == I then n1.(act := Idle)
    else n1.(act := Putting, req := Some(Request(if m == M then PUTX else PUTS, m, false)))
  }

  function MemoryState(r: Request): State {
    match r.typ
    case GETS => if r.noExcl then S else E
    case GETX => M
    case _ => I
  }

  function Put1(s: System, n: nat, x: Node): System
    requires n < |s.nodes|
  {
    s.(nodes := s.nodes[n := x])
  }

  function Put2(s: System, p: nat, c: nat, xs: (Node, Node)): System
    requires p < |s.nodes| && c < |s.nodes|
  {
    s.(nodes := s.nodes[p := xs.0][c := xs.1])
  }

  ghost function Apply(par: seq<nat>, s: System, l: Label): (t: System)
    requires IsTree(par) && |s.nodes| == |par| && Enabled(par, s, l)
    ensures |t.nodes| == |par|
  {
    var ns := s.nodes;
    match l
    case Core(n, t, nx) => Put1(s, n, CoreNode(ns[n], t, nx))
    case Done(n) =>
      Put1(s, n, ns[n].(act := Idle)).(dirty := s.dirty || ns[n].act.typ == GETX)
    case Begin(c) => Put2(s, par[c], c, BeginNodes(ns[par[c]], ns[c], c))
    case Top(n) => var c := ns[n].act.child.value; Put2(s, n, c, TopNodes(ns[n], ns[c], c))
    case Visit(n, c) => Put2(s, n, c, VisitNodes(ns[n], ns[c], c))
    case Leave(c) => Put2(s, par[c], c, LeaveNodes(ns[par[c]], ns[c], c))
    case Grant(n) => var c := ns[n].act.grantee; Put2(s, n, c, GrantNodes(ns[n], ns[c], c))
    case EvictLine(n) => Put1(s, n, ns[n].(act := Flushing(StartWalk(INV, ns[n].dir))))
    case Flushed(n) => Put1(s, n, FlushedNode(ns[n]))
    case Memory =>
      var r := ns[0].req.value;
      Put1(s, 0, ns[0].Answered(MemoryState(r))).(dirty := s.dirty && r.typ != PUTX)
  }

  // Every assert and panic that the source evaluates during step l.
  ghost predicate SourceAsserts(par: seq<nat>, s: System, l: Label)
    requires IsTree(par) && |s.nodes| == |par| && Enabled(par, s, l)
  {
    var ns := s.nodes;
    match l
    case Core(_, _, _) => true
    case Done(n) => BottomGrantAsserts(ns[n].mesi, ns[n].act.typ) || ns[n].act.typ == GETS
    case EvictLine(_) => true
    case Begin(c) =>
      var r, p := ns[c].req.value, ns[par[c]];
      && RaceAsserts(r.typ, ns[c].mesi, r.initial)
      && (!RaceSkips(r.typ, ns[c].mesi, r.initial) ==>
            && BottomAccessAsserts(p.mesi, RaceRewrites(r.typ, ns[c].mesi, r.initial))
            && (!IsGet(r.typ) ==> p.mesi != I))  // "we lost inclusion on this line"
    case Top(n) =>
      var p, ci := ns[n], ns[n].act.child.value;
      match p.act.typ {
        case PUTX => p.dir.IsExclusive() && ci in p.dir.sharers
        case PUTS => ci in p.dir.sharers
        case GETS => ci !in p.dir.sharers
        case GETX => IsExcl(p.mesi) && (ci in p.dir.sharers ==> !p.dir.IsExclusive())
      }
    case Visit(_, c) => ns[c].mesi != I  // "invalidate on non-existing address"
    case Leave(c) =>
      && BottomInvalAsserts(ns[c].mesi, ns[c].down.value.kind)
      && EndWalkAsserts(ns[c].dir, ns[c].down.value)
    case Grant(n) =>
      var p := ns[n];
      var e := EndWalk(p.dir, p.act.walk);
      && EndWalkAsserts(p.dir, p.act.walk)
      && (p.act.typ == GETS ==> !e.IsExclusive())
      && (p.act.typ == GETX ==> e.Add(p.act.grantee, true).numSharers == 1)
      && (p.act.walk.wb ==> IsExcl(p.mesi))
    case Flushed(n) =>
      && EndWalkAsserts(ns[n].dir, ns[n].act.walk)
      && (ns[n].act.walk.wb ==> IsExcl(ns[n].mesi))
    case Memory => true
  }

  // The requester's own assert once its request has been answered by step l.
  ghost predicate AnswerAsserts(s: System, t: System)
    requires |s.nodes| == |t.nodes|
  {
    forall n | 0 <= n < |s.nodes| && s.nodes[n].req.Some? && t.nodes[n].req.None? ::
      match s.nodes[n].act
      case Fetching(_, typ, _) => BottomGrantAsserts(t.nodes[n].mesi, typ)
      case _ => t.nodes[n].mesi == I
  }

  // A run is a sequence of labels, each enabled where it is taken.
  ghost predicate CanRun(par: seq<nat>, s: System, ls: seq<Label>)
    requires IsTree(par) && |s.nodes| == |par|
    decreases |ls|
  {
    ls == [] || (Enabled(par, s, ls[0]) && CanRun(par, Apply(par, s, ls[0]), ls[1..]))
  }

  ghost function Run(par: seq<nat>, s: System, ls: seq<Label>): (t: System)
    requires IsTree(par) && |s.nodes| == |par| && CanRun(par, s, ls)
    ensures |t.nodes| == |par|
    decreases |ls|
  {
    if ls == [] then s else Run(par, Apply(par, s, ls[0]), ls[1..])
  }
}
