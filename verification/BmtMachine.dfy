/** Sum, finalise, writeSegment, run, toggle and releaseTree of bmt/bmt.go as a state
    machine. Every step is one visit of a node, by the caller or by any goroutine, in any
    order; the atomic toggle is a step of its own. */
module BmtMachine {
  import opened BmtReference
  import opened BmtTree

  // ----- int32 arithmetic of the toggle -----

  const INT32_MAX := 0x7fff_ffff

  predicate Int32(x: int) { -INT32_MAX - 1 <= x <= INT32_MAX }

  /** atomic.AddInt32(&x, 1), which wraps around. */
  function Add32(x: int): int {
    if x == INT32_MAX then -INT32_MAX - 1 else x + 1
  }

  /** x % 2 with truncation toward zero: -1 for negative odd x. */
  function GoRem2(x: int): int {
    if x >= 0 then x % 2 else -((-x) % 2)
  }

  /** Node.toggle reports true when the node was just put in the waiting state. */
  predicate Waits(x: int) { GoRem2(Add32(x)) == 1 }

  /** The toggle pairs two arrivals, the first waiting and the second passing, exactly
      on non-negative even counters. */
  lemma TogglePairs(x: int)
    requires Int32(x)
    ensures Waits(x) && !Waits(Add32(x)) <==> x >= 0 && x % 2 == 0
    ensures x % 2 == 0 ==> Add32(Add32(x)) % 2 == 0
    ensures x >= 0 && x % 2 == 0 ==> (Add32(Add32(x)) >= 0 <==> x < INT32_MAX - 1)
  {
  }

  // ----- State -----

  /** The fields of Node that a step reads, then history variables that none reads:
      which goroutine arrived from each side, whether it is counted, which goroutine
      passed the node, and whether it has moved on. */
  datatype Node = Node(
    left: Bytes, right: Bytes, state: int, unbalanced: bool, root: bool,
    leftBy: Option<nat>, rightBy: Option<nat>, leftIn: bool, rightIn: bool,
    owner: Option<nat>, out: bool)

  type Nodes = map<Pos, Node>

  /** Program counters of a goroutine: `i` and `d` are run's arguments. */
  datatype Thread =
    | Segment(n: Pos, d: nat, s: Bytes)
    | Store(n: Pos, isLeft: bool, i: nat, d: nat, s: Bytes)
    | Test(n: Pos, isLeft: bool, i: nat, d: nat)
    | Toggle(n: Pos, isLeft: bool, i: nat, d: nat)
    | Combine(n: Pos, isLeft: bool, i: nat, d: nat)
    | Emit(n: Pos, i: nat, d: nat, s: Bytes)
    | Parked
    | Sent

  /** Program counters of the caller. */
  datatype Main =
    | Launch(next: nat)
    | Finalise(n: Pos, isLeft: bool, d: nat)
    | LaunchLast(d: nat)
    | Wait
    | Got(sum: Bytes)
    | Released(sum: Bytes)

  datatype State = State(nodes: Nodes, threads: seq<Thread>, main: Main)

  /** What the caller hashes: the full segments and the final one, on a tree. */
  datatype Plan = Plan(H: BaseHash, hs: nat, depth: nat, segs: seq<Bytes>)
  {
    predicate Ok() { |segs| > 0 && TopFrom(|segs| - 1, 0) <= depth }
    function Last(): nat requires Ok() { |segs| - 1 }
    function Top(): nat requires Ok() { TopFrom(Last(), 0) }
    /** writeSegment hashes the segment before entering the tree. */
    predicate Direct(i: nat) requires i < |segs| { |segs[i]| > hs && depth > 0 }
    /** Height at which finalise starts. */
    function Start(): nat requires Ok() { if Direct(Last()) && Last() > 0 then 1 else 0 }
  }

  // ----- Steps of the caller -----

  /** writeSegment: the new goroutine. */
  function Spawn(plan: Plan, i: nat, d: nat): Thread
    requires i < |plan.segs|
  {
    if plan.Direct(i) then Segment(Pos(0, i), d, plan.segs[i])
    else Store(Pos(0, i), true, i * 2, d, plan.segs[i])
  }

  function Launched(plan: Plan, s: State, i: nat, d: nat, main: Main): State
    requires i < |plan.segs| && Pos(0, i) in s.nodes
  {
    State(s.nodes[Pos(0, i) := s.nodes[Pos(0, i)].(leftBy := Some(|s.threads|))],
          s.threads + [Spawn(plan, i, d)], main)
  }

  /** One node of finalise. */
  function Finalised(s: State, n: Pos, isLeft: bool, d: nat): State
    requires n in s.nodes
  {
    var node := s.nodes[n].(unbalanced := isLeft, right := []);
    if n.index == 0 then
      s.(nodes := s.nodes[n := node.(root := true)], main := LaunchLast(d))
    else
      s.(nodes := s.nodes[n := node], main := Finalise(Parent(n), n.index % 2 == 0, d + 1))
  }

  predicate MainEnabled(plan: Plan, s: State) {
    match s.main
    case Launch(next) => next < |plan.segs| && Pos(0, next) in s.nodes
    case Finalise(n, _, _) => n in s.nodes
    case LaunchLast(_) => plan.Ok() && Pos(0, plan.Last()) in s.nodes
    case Wait => false
    case Got(_) => plan.Ok()
    case Released(_) => false
  }

  function MainStep(plan: Plan, s: State): State
    requires plan.Ok() && MainEnabled(plan, s)
  {
    match s.main
    case Launch(next) =>
      if next < plan.Last() then Launched(plan, s, next, plan.depth, Launch(next + 1))
      else if plan.Start() == 1 then s.(main := Finalise(Pos(1, next / 2), next % 2 == 0, 0))
      else s.(main := Finalise(Pos(0, next), true, 0))
    case Finalise(n, isLeft, d) => Finalised(s, n, isLeft, d)
    case LaunchLast(d) => Launched(plan, s, plan.Last(), d, Wait)
    case Got(sum) => State(Release(plan, s.nodes, plan.Last()), s.threads, Released(sum))
  }

  /** releaseTree: the flags on the way up from the final leaf. */
  function Release(plan: Plan, nodes: Nodes, last: nat): (r: Nodes)
    ensures r.Keys == nodes.Keys
  {
    map p | p in nodes ::
      if p.height <= plan.depth && p.index == Anc(last, p.height)
      then nodes[p].(unbalanced := false, root := nodes[p].root && p.height == plan.depth)
      else nodes[p]
  }

  // ----- Steps of goroutine t -----

  function Arrive(node: Node, isLeft: bool, t: nat): Node {
    if isLeft then node.(leftBy := Some(t)) else node.(rightBy := Some(t))
  }

  function Counted(node: Node, isLeft: bool): Node {
    if isLeft then node.(leftIn := true) else node.(rightIn := true)
  }

  function Put(node: Node, isLeft: bool, s: Bytes): Node {
    if isLeft then node.(left := s) else node.(right := s)
  }

  /** The goroutine hands `v` to the parent of `n`, or to the caller at a root. */
  predicate CanPass(s: State, n: Pos) {
    && n in s.nodes
    && if s.nodes[n].root then s.main == Wait else Parent(n) in s.nodes
  }

  function Pass(s: State, t: nat, n: Pos, i: nat, d: nat, v: Bytes): State
    requires t < |s.threads| && CanPass(s, n)
  {
    var node := s.nodes[n];
    if node.root then
      State(s.nodes, s.threads[t := Sent], Got(v))
    else
      var isLeft := n.index % 2 == 0;
      var up := Parent(n);
      State(s.nodes[n := node.(out := true)][up := Arrive(s.nodes[up], isLeft, t)],
            s.threads[t := Store(up, isLeft, i, d, v)], s.main)
  }

  predicate Enabled(s: State, t: nat)
    requires t < |s.threads|
  {
    match s.threads[t]
    case Parked => false
    case Sent => false
    case Segment(n, _, _) => CanPass(s, n)
    case Emit(n, _, _, _) => CanPass(s, n)
    case _ => s.threads[t].n in s.nodes
  }

  function ThreadStep(plan: Plan, s: State, t: nat): State
    requires t < |s.threads| && Enabled(s, t)
  {
    match s.threads[t]
    case Segment(n, d, v) => Pass(s, t, n, n.index, d, plan.H(v))
    case Store(n, isLeft, i, d, v) =>
      State(s.nodes[n := Put(s.nodes[n], isLeft, v)], s.threads[t := Test(n, isLeft, i, d)], s.main)
    case Test(n, isLeft, i, d) =>
      if s.nodes[n].unbalanced then
        State(s.nodes[n := Counted(s.nodes[n], isLeft).(owner := Some(t))],
              s.threads[t := Combine(n, isLeft, i, d)], s.main)
      else s.(threads := s.threads[t := Toggle(n, isLeft, i, d)])
    case Toggle(n, isLeft, i, d) =>
      var node := Counted(s.nodes[n], isLeft).(state := Add32(s.nodes[n].state));
      if Waits(s.nodes[n].state) then
        State(s.nodes[n := node], s.threads[t := Parked], s.main)
      else
        State(s.nodes[n := node.(owner := Some(t))], s.threads[t := Combine(n, isLeft, i, d)], s.main)
    case Combine(n, isLeft, i, d) =>
      var node := s.nodes[n];
      var v := if !node.unbalanced || !isLeft || (i == 0 && d == 0)
               then plan.H(node.left + node.right) else node.left + node.right;
      s.(threads := s.threads[t := Emit(n, i, d, v)])
    case Emit(n, i, d, v) => Pass(s, t, n, i + 1, d, v)
  }

  ghost predicate Next(plan: Plan, s: State, s': State) {
    || (plan.Ok() && MainEnabled(plan, s) && s' == MainStep(plan, s))
    || exists t :: 0 <= t < |s.threads| && Enabled(s, t) && s' == ThreadStep(plan, s, t)
  }

  // ----- Clean trees -----

  ghost predicate InTree(depth: nat, p: Pos) {
    p.height <= depth && p.index < Pow2(depth - p.height)
  }

  ghost predicate CleanNode(depth: nat, p: Pos, node: Node) {
    && !node.unbalanced
    && node.root == (p.height == depth)
    && Int32(node.state) && node.state % 2 == 0
  }

  /** A tree as it leaves the pool. */
  ghost predicate Clean(depth: nat, nodes: Nodes) {
    && (forall p :: p in nodes <==> InTree(depth, p))
    && forall p :: p in nodes ==> CleanNode(depth, p, nodes[p])
  }

  ghost predicate NoHistory(node: Node) {
    node.leftBy == node.rightBy == node.owner == None && !node.leftIn && !node.rightIn && !node.out
  }

  /** The node has data under it, within the smallest tree. */
  ghost predicate Used(plan: Plan, p: Pos)
    requires plan.Ok()
  {
    p.height <= plan.Top() && p.index <= Anc(plan.Last(), p.height)
  }

  /** Two children have data: the node pairs two arrivals. */
  ghost predicate Binary(plan: Plan, p: Pos)
    requires plan.Ok()
  {
    p.height > 0 && 2 * p.index + 1 <= Anc(plan.Last(), p.height - 1)
  }

  /** No counter that pairs arrivals for this plan has wrapped. */
  ghost predicate Unwrapped(plan: Plan, nodes: Nodes)
    requires plan.Ok()
  {
    forall p {:trigger UnwrappedAt(plan, nodes, p)} :: UnwrappedAt(plan, nodes, p)
  }

  ghost predicate UnwrappedAt(plan: Plan, nodes: Nodes, p: Pos)
    requires plan.Ok()
  {
    p in nodes && Used(plan, p) && Binary(plan, p) ==> nodes[p].state >= 0
  }

  /** The caller starts on a tree from the pool. */
  ghost predicate Begins(plan: Plan, s: State) {
    && plan.Ok()
    && Clean(plan.depth, s.nodes)
    && (forall p :: p in s.nodes ==> NoHistory(s.nodes[p]))
    && s.threads == [] && s.main == Launch(0)
  }

  ghost predicate Init(plan: Plan, s: State) {
    Begins(plan, s) && Unwrapped(plan, s.nodes)
  }
}
