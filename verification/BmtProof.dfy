/** The invariant of the tree hasher and its preservation by every step. */
module BmtProof {
  import opened BmtReference
  import opened BmtTree
  import opened BmtMachine

  /** The plan, the value every node stands for, and the tree before the run. */
  datatype Ctx = Ctx(plan: Plan, val: Pos -> Bytes, before: Nodes)

  function LeftChild(p: Pos): Pos
    requires p.height > 0
  {
    Pos(p.height - 1, 2 * p.index)
  }

  function RightChild(p: Pos): Pos
    requires p.height > 0
  {
    Pos(p.height - 1, 2 * p.index + 1)
  }

  ghost predicate OnPath(plan: Plan, p: Pos)
    requires plan.Ok()
  {
    p.index == Anc(plan.Last(), p.height)
  }

  /** The final path enters height `k` from the left. */
  ghost predicate LeftAt(plan: Plan, k: nat)
    requires plan.Ok()
  {
    k == 0 || Anc(plan.Last(), k - 1) % 2 == 0
  }

  ghost predicate Values(plan: Plan, val: Pos -> Bytes)
    requires plan.Ok()
  {
    && (forall p :: Used(plan, p) && p.height == 0 ==>
          val(p) == if |plan.segs[p.index]| > plan.hs then plan.H(plan.segs[p.index]) else plan.segs[p.index])
    && (forall p :: Used(plan, p) && p.height > 0 ==>
          val(p) == if Binary(plan, p) then plan.H(val(LeftChild(p)) + val(RightChild(p)))
                    else val(LeftChild(p)))
  }

  ghost predicate CtxOk(c: Ctx) {
    && c.plan.Ok()
    && Values(c.plan, c.val)
    && (forall j :: 0 <= j < c.plan.Last() ==> |c.plan.segs[j]| > c.plan.hs)
    && Clean(c.plan.depth, c.before) && Unwrapped(c.plan, c.before)
    && (forall p :: p in c.before ==> NoHistory(c.before[p]))
    && (forall p :: Used(c.plan, p) ==> p in c.before)
  }

  /** What arrives at a node from one side. */
  ghost function Incoming(c: Ctx, p: Pos, isLeft: bool): Bytes
    requires c.plan.Ok() && Used(c.plan, p)
  {
    if p.height == 0 then c.plan.segs[p.index]
    else c.val(if isLeft then LeftChild(p) else RightChild(p))
  }

  /** What leaves a node; a chunk of one leaf is always hashed. */
  ghost function Outgoing(c: Ctx, p: Pos): Bytes
    requires c.plan.Ok()
  {
    if c.plan.Last() == 0 then c.plan.H(c.plan.segs[0]) else c.val(p)
  }

  ghost predicate FinDone(plan: Plan, main: Main, k: nat)
    requires plan.Ok()
  {
    plan.Start() <= k <= plan.Top() &&
    match main
    case Launch(_) => false
    case Finalise(n, _, _) => k < n.height
    case _ => true
  }

  // ----- Node part -----

  ghost predicate NodeFlags(c: Ctx, s: State, p: Pos)
    requires c.plan.Ok() && p in s.nodes
  {
    var node := s.nodes[p];
    && node.unbalanced == (OnPath(c.plan, p) && LeftAt(c.plan, p.height) && FinDone(c.plan, s.main, p.height))
    && node.root == (p.height == c.plan.depth
                     || (p.height == c.plan.Top() && FinDone(c.plan, s.main, p.height)))
    && (node.unbalanced ==> node.right == [])
  }

  ghost predicate NodeArrivals(c: Ctx, s: State, p: Pos)
    requires c.plan.Ok() && p in s.nodes
  {
    var node := s.nodes[p];
    && (if p.height == 0 then node.leftBy == (if p.index < |s.threads| then Some(p.index) else None)
        else node.leftBy.Some? == (LeftChild(p) in s.nodes && s.nodes[LeftChild(p)].out))
    && (p.height == c.plan.Top() ==> !node.out)
    && node.rightBy.Some? == (Binary(c.plan, p) && RightChild(p) in s.nodes && s.nodes[RightChild(p)].out)
    && (|s.threads| <= c.plan.Last() && OnPath(c.plan, p) ==>
          && !node.out && node.owner == None
          && (if LeftAt(c.plan, p.height) then node.leftBy == None else node.rightBy == None))
  }

  ghost predicate NodeCounts(c: Ctx, s: State, p: Pos)
    requires c.plan.Ok() && Used(c.plan, p) && p in s.nodes && p in c.before
  {
    var node, x := s.nodes[p], c.before[p].state;
    && (node.leftIn ==> node.leftBy.Some? && node.left == Incoming(c, p, true))
    && (node.leftIn && !Binary(c.plan, p) ==> node.unbalanced)
    && (node.rightIn ==> Binary(c.plan, p) && node.rightBy.Some? && node.right == Incoming(c, p, false))
    && node.state == (if Binary(c.plan, p) && (node.leftIn || node.rightIn)
                      then if node.leftIn && node.rightIn then Add32(Add32(x)) else Add32(x)
                      else x)
    && node.owner.Some? == (node.leftIn && (Binary(c.plan, p) ==> node.rightIn))
    && (node.out ==> node.leftBy.Some? && (node.owner.Some? || (p.height == 0 && c.plan.Direct(p.index))))
  }

  /** Where the goroutines that still owe this node something are. */
  ghost predicate NodeWaits(s: State, p: Pos)
    requires p in s.nodes
  {
    var node := s.nodes[p];
    && (node.leftBy.Some? && !node.leftIn && !node.out ==>
          node.leftBy.value < |s.threads| && Before(s.threads[node.leftBy.value], p, true))
    && (node.rightBy.Some? && !node.rightIn ==>
          node.rightBy.value < |s.threads| && Before(s.threads[node.rightBy.value], p, false))
    && (node.owner.Some? && !node.out ==>
          node.owner.value < |s.threads| && After(s.threads[node.owner.value], p))
  }

  ghost predicate Before(th: Thread, p: Pos, isLeft: bool) {
    || ((th.Store? || th.Test? || th.Toggle?) && th.n == p && th.isLeft == isLeft)
    || (th.Segment? && th.n == p)
    || th.Sent?
  }

  ghost predicate After(th: Thread, p: Pos) {
    ((th.Combine? || th.Emit?) && th.n == p) || th.Sent?
  }

  ghost predicate NodeInv(c: Ctx, s: State, p: Pos)
    requires c.plan.Ok() && p in s.nodes
  {
    p in c.before &&
    if Used(c.plan, p) then
      NodeFlags(c, s, p) && NodeArrivals(c, s, p) && NodeCounts(c, s, p) && NodeWaits(s, p)
    else s.nodes[p] == c.before[p]
  }

  // ----- Goroutine part -----

  ghost predicate Direct(c: Ctx, t: nat)
    requires c.plan.Ok()
  {
    t <= c.plan.Last() && c.plan.Direct(t)
  }

  /** Goroutine `t` belongs at `n` and came from the given side. */
  ghost predicate At(c: Ctx, s: State, t: nat, n: Pos, isLeft: bool, i: nat, d: nat)
    requires c.plan.Ok()
  {
    && n in s.nodes && Used(c.plan, n) && n.index == Anc(t, n.height)
    && (if isLeft then s.nodes[n].leftBy else s.nodes[n].rightBy) == Some(t)
    && (if n.height == 0 then isLeft && n.index == c.plan.Last() && !c.plan.Direct(n.index)
        else isLeft == (Anc(t, n.height - 1) % 2 == 0))
    && (c.plan.Last() > 0 ==> i > 0 || d > 0)
    && (c.plan.Last() == 0 ==> i == 0 && d == 0)
  }

  ghost predicate IsIn(s: State, n: Pos, isLeft: bool)
    requires n in s.nodes
  {
    if isLeft then s.nodes[n].leftIn else s.nodes[n].rightIn
  }

  ghost function Slot(s: State, n: Pos, isLeft: bool): Bytes
    requires n in s.nodes
  {
    if isLeft then s.nodes[n].left else s.nodes[n].right
  }

  ghost predicate ThreadInv(c: Ctx, s: State, t: nat)
    requires c.plan.Ok() && t < |s.threads|
  {
    match s.threads[t]
    case Segment(n, d, v) =>
      && n == Pos(0, t) && n in s.nodes && Direct(c, t) && v == c.plan.segs[t]
      && !s.nodes[n].out && (c.plan.Last() > 0 ==> t > 0 || d > 0)
    case Store(n, isLeft, i, d, v) =>
      At(c, s, t, n, isLeft, i, d) && !IsIn(s, n, isLeft) && v == Incoming(c, n, isLeft)
    case Test(n, isLeft, i, d) =>
      At(c, s, t, n, isLeft, i, d) && !IsIn(s, n, isLeft) && Slot(s, n, isLeft) == Incoming(c, n, isLeft)
    case Toggle(n, isLeft, i, d) =>
      && At(c, s, t, n, isLeft, i, d) && !IsIn(s, n, isLeft) && Slot(s, n, isLeft) == Incoming(c, n, isLeft)
      && Binary(c.plan, n)
    case Combine(n, isLeft, i, d) =>
      At(c, s, t, n, isLeft, i, d) && s.nodes[n].owner == Some(t) && !s.nodes[n].out
    case Emit(n, i, d, v) =>
      && n in s.nodes && Used(c.plan, n) && n.index == Anc(t, n.height)
      && s.nodes[n].owner == Some(t) && !s.nodes[n].out && v == Outgoing(c, n)
      && (c.plan.Last() > 0 ==> i > 0 || d > 0)
    case Parked => true
    case Sent => s.main.Got?
  }

  // ----- Caller part -----

  ghost predicate MainInv(c: Ctx, s: State)
    requires c.plan.Ok()
  {
    var last, start, top := c.plan.Last(), c.plan.Start(), c.plan.Top();
    match s.main
    case Launch(next) => next == |s.threads| <= last
    case Finalise(n, isLeft, d) =>
      && |s.threads| == last && n.index == Anc(last, n.height)
      && start <= n.height <= top && isLeft == LeftAt(c.plan, n.height) && d == n.height - start
    case LaunchLast(d) => |s.threads| == last && d == top - start
    case Wait => |s.threads| == last + 1
    case Got(sum) => |s.threads| == last + 1 && sum == Outgoing(c, Pos(top, 0)) && RootSent(c, s)
    case Released(_) => false
  }

  /** The goroutine that passed the root is the one that ended by sending the result. */
  ghost predicate RootSent(c: Ctx, s: State)
    requires c.plan.Ok()
  {
    var r := Pos(c.plan.Top(), 0);
    r in s.nodes &&
    if c.plan.Last() == 0 && c.plan.Direct(0) then |s.threads| == 1 && s.threads[0].Sent?
    else s.nodes[r].owner.Some? && s.nodes[r].owner.value < |s.threads| && s.threads[s.nodes[r].owner.value].Sent?
  }

  ghost predicate Inv(c: Ctx, s: State) {
    && CtxOk(c)
    && s.nodes.Keys == c.before.Keys
    && (forall p :: p in s.nodes ==> NodeInv(c, s, p))
    && (forall t :: 0 <= t < |s.threads| ==> ThreadInv(c, s, t))
    && MainInv(c, s)
  }

  lemma InitInv(c: Ctx, s: State)
    requires CtxOk(c) && Init(c.plan, s) && c.before == s.nodes
    ensures Inv(c, s)
  {
  }

  // ----- Frames: what a step of goroutine t leaves alone -----

  /** The parts of its node that a goroutine relies on are unchanged. */
  ghost predicate SameFor(th: Thread, a: Node, b: Node) {
    match th
    case Segment(_, _, _) => a.out == b.out
    case Store(_, isLeft, _, _, _) =>
      if isLeft then a.leftBy == b.leftBy && a.leftIn == b.leftIn
      else a.rightBy == b.rightBy && a.rightIn == b.rightIn
    case Test(_, isLeft, _, _) =>
      if isLeft then a.leftBy == b.leftBy && a.leftIn == b.leftIn && a.left == b.left
      else a.rightBy == b.rightBy && a.rightIn == b.rightIn && a.right == b.right
    case Toggle(_, isLeft, _, _) =>
      if isLeft then a.leftBy == b.leftBy && a.leftIn == b.leftIn && a.left == b.left
      else a.rightBy == b.rightBy && a.rightIn == b.rightIn && a.right == b.right
    case Combine(_, isLeft, _, _) =>
      && (if isLeft then a.leftBy == b.leftBy else a.rightBy == b.rightBy)
      && a.owner == b.owner && a.out == b.out
    case Emit(_, _, _, _) => a.owner == b.owner && a.out == b.out
    case _ => true
  }

  lemma ThreadFrame(c: Ctx, s: State, s': State, u: nat)
    requires c.plan.Ok() && u < |s.threads| && u < |s'.threads|
    requires ThreadInv(c, s, u) && s'.threads[u] == s.threads[u]
    requires var th := s.threads[u];
             !th.Parked? && !th.Sent? ==> th.n in s'.nodes && SameFor(th, s.nodes[th.n], s'.nodes[th.n])
    requires s.main.Got? ==> s'.main.Got?
    ensures ThreadInv(c, s', u)
  {
  }

  ghost predicate Away(th: Thread, p: Pos) {
    th.Parked? || (!th.Sent? && th.n != p)
  }

  /** A node no goroutine touched, seen after goroutine t moved elsewhere. */
  lemma NodeFrame(c: Ctx, s: State, s': State, t: nat, th: Thread, p: Pos)
    requires c.plan.Ok() && p in s.nodes && p in s'.nodes && t < |s.threads|
    requires NodeInv(c, s, p) && s'.nodes[p] == s.nodes[p]
    requires s'.nodes.Keys == s.nodes.Keys
    requires s'.threads == s.threads[t := th]
    requires Away(s.threads[t], p)
    requires p.height > 0 && LeftChild(p) in s.nodes ==> s.nodes[LeftChild(p)].out == s'.nodes[LeftChild(p)].out
    requires p.height > 0 && RightChild(p) in s.nodes ==> s.nodes[RightChild(p)].out == s'.nodes[RightChild(p)].out
    requires FinDone(c.plan, s'.main, p.height) == FinDone(c.plan, s.main, p.height)
    ensures NodeInv(c, s', p)
  {
  }

  // ----- Steps that stay at one node: Store, Test, Toggle, Combine -----

  ghost predicate Local(th: Thread) {
    th.Store? || th.Test? || th.Toggle? || th.Combine?
  }

  /** Goroutine `t` is about to take a step at its node `n`. */
  ghost predicate Ready(c: Ctx, s: State, t: nat) {
    && c.plan.Ok() && t < |s.threads| && Local(s.threads[t])
    && s.threads[t].n in s.nodes && ThreadInv(c, s, t) && NodeInv(c, s, s.threads[t].n)
  }

  lemma ChildrenUsed(plan: Plan, p: Pos)
    requires plan.Ok() && Used(plan, p) && p.height > 0
    ensures Used(plan, LeftChild(p)) && (Binary(plan, p) ==> Used(plan, RightChild(p)))
  {
    assert Anc(plan.Last(), p.height) == Anc(plan.Last(), p.height - 1) / 2;
  }

  lemma ParentsUsed(plan: Plan, p: Pos)
    requires plan.Ok() && Used(plan, p) && p.height < plan.Top()
    ensures Used(plan, Parent(p))
  {
    assert Anc(plan.Last(), p.height + 1) == Anc(plan.Last(), p.height) / 2;
  }

  lemma UnaryNode(plan: Plan, p: Pos)
    requires plan.Ok() && Used(plan, p) && p.height > 0
    ensures !Binary(plan, p) <==> OnPath(plan, p) && LeftAt(plan, p.height)
  {
    assert Anc(plan.Last(), p.height) == Anc(plan.Last(), p.height - 1) / 2;
  }

  /** Two goroutines at one node came from different sides, and none has passed it
      while another is still on its way in. */
  lemma Apart(c: Ctx, s: State, t: nat, u: nat)
    requires Ready(c, s, t) && u < |s.threads| && u != t && ThreadInv(c, s, u)
    requires var th := s.threads[u]; !th.Parked? && !th.Sent? && th.n == s.threads[t].n
    ensures !s.threads[u].Segment?
    ensures Local(s.threads[u]) ==> s.threads[u].isLeft != s.threads[t].isLeft && Binary(c.plan, s.threads[t].n)
    ensures !s.threads[t].Combine? ==> !s.threads[u].Combine? && !s.threads[u].Emit?
  {
    var n := s.threads[t].n;
    if n.height > 0 { UnaryNode(c.plan, n); }
  }

  /** A goroutine at the other side of the node, not yet past it. */
  ghost predicate Opposite(th: Thread, isLeft: bool) {
    (th.Store? || th.Test? || th.Toggle?) && th.isLeft != isLeft
  }

  lemma LocalChange(c: Ctx, s: State, t: nat, th: Thread)
    requires Ready(c, s, t)
    requires Opposite(th, s.threads[t].isLeft) || s.threads[t].Combine?
    ensures var n := s.threads[t].n; SameFor(th, s.nodes[n], ThreadStep(c.plan, s, t).nodes[n])
  {
  }

  /** A step of goroutine t changed its node at most. */
  ghost predicate Touched(s: State, s': State, t: nat)
  {
    && t < |s.threads| && Local(s.threads[t]) && s.threads[t].n in s.nodes
    && |s'.threads| == |s.threads| && s'.threads == s.threads[t := s'.threads[t]]
    && s'.nodes.Keys == s.nodes.Keys && s'.nodes == s.nodes[s.threads[t].n := s'.nodes[s.threads[t].n]]
    && s'.main == s.main
  }

  lemma LocalTouches(plan: Plan, s: State, t: nat)
    requires t < |s.threads| && Local(s.threads[t]) && s.threads[t].n in s.nodes
    ensures Touched(s, ThreadStep(plan, s, t), t)
    ensures var n := s.threads[t].n; s.nodes[n].out == ThreadStep(plan, s, t).nodes[n].out
  {
  }

  /** Another goroutine does not rely on what a local step changes. */
  lemma LocalNeighbour(c: Ctx, s: State, s': State, t: nat, u: nat)
    requires Ready(c, s, t) && u < |s.threads| && u != t && ThreadInv(c, s, u)
    requires Touched(s, s', t) && s' == ThreadStep(c.plan, s, t)
    ensures ThreadInv(c, s', u)
  {
    var n, th := s.threads[t].n, s.threads[u];
    if !th.Parked? && !th.Sent? && th.n == n {
      Apart(c, s, t, u);
      LocalChange(c, s, t, th);
    }
    ThreadFrame(c, s, s', u);
  }

  lemma LocalOther(c: Ctx, s: State, s': State, t: nat, p: Pos)
    requires Ready(c, s, t) && p in s.nodes && p != s.threads[t].n && NodeInv(c, s, p)
    requires Touched(s, s', t) && s'.nodes[s.threads[t].n].out == s.nodes[s.threads[t].n].out
    ensures NodeInv(c, s', p)
  {
    NodeFrame(c, s, s', t, s'.threads[t], p);
  }

  lemma StoreStep(c: Ctx, s: State, t: nat)
    requires Ready(c, s, t) && s.threads[t].Store?
    ensures var s' := ThreadStep(c.plan, s, t);
            NodeInv(c, s', s.threads[t].n) && ThreadInv(c, s', t)
  {
    var n := s.threads[t].n;
    if n.height > 0 { UnaryNode(c.plan, n); }
  }

  /** Only an unbalanced node is entered by one goroutine, and it is marked in time. */
  lemma TestStep(c: Ctx, s: State, t: nat)
    requires Ready(c, s, t) && s.threads[t].Test? && MainInv(c, s)
    ensures var s' := ThreadStep(c.plan, s, t);
            NodeInv(c, s', s.threads[t].n) && ThreadInv(c, s', t)
  {
    var n := s.threads[t].n;
    if n.height > 0 { UnaryNode(c.plan, n); }
    assert s.nodes[n].unbalanced == !Binary(c.plan, n);
  }

  lemma ToggleStep(c: Ctx, s: State, t: nat)
    requires Ready(c, s, t) && s.threads[t].Toggle?
    requires var x := c.before[s.threads[t].n].state; Int32(x) && x >= 0 && x % 2 == 0
    ensures var s' := ThreadStep(c.plan, s, t);
            NodeInv(c, s', s.threads[t].n) && ThreadInv(c, s', t)
  {
    var n, isLeft := s.threads[t].n, s.threads[t].isLeft;
    var s', x := ThreadStep(c.plan, s, t), c.before[n].state;
    TogglePairs(x);
    assert s.nodes[n].state == if IsIn(s, n, !isLeft) then Add32(x) else x;
    assert NodeCounts(c, s', n);
    assert NodeArrivals(c, s', n) && NodeFlags(c, s', n);
    assert NodeWaits(s', n);
  }

  /** The second arrival, or the only one, computes the node's value. */
  lemma CombineStep(c: Ctx, s: State, t: nat)
    requires Ready(c, s, t) && s.threads[t].Combine? && Values(c.plan, c.val)
    ensures var s' := ThreadStep(c.plan, s, t);
            NodeInv(c, s', s.threads[t].n) && ThreadInv(c, s', t)
  {
    var s' := ThreadStep(c.plan, s, t);
    var n := s.threads[t].n;
    CombineValue(c, s, t);
    assert NodeInv(c, s', n);
  }

  lemma CombineValue(c: Ctx, s: State, t: nat)
    requires Ready(c, s, t) && s.threads[t].Combine? && Values(c.plan, c.val)
    ensures ThreadStep(c.plan, s, t).threads[t].s == Outgoing(c, s.threads[t].n)
  {
    var th := s.threads[t];
    var n := th.n;
    var node := s.nodes[n];
    if n.height == 0 {
      assert node.left + node.right == c.plan.segs[n.index];
    } else {
      UnaryNode(c.plan, n);
      assert c.plan.Last() > 0 by { TopIsFirst(c.plan.Last(), 0, 0); }
      if !Binary(c.plan, n) {
        assert node.left + node.right == c.val(LeftChild(n));
      }
    }
  }

  // ----- Steps that leave a node: Segment, Emit -----

  /** Goroutine `t` is about to leave its node with the value `v`. */
  ghost predicate Leaving(c: Ctx, s: State, t: nat, n: Pos, i: nat, d: nat, v: Bytes) {
    && c.plan.Ok() && t < |s.threads| && n in s.nodes
    && ((s.threads[t].Emit? && s.threads[t].n == n && s.threads[t].d == d
         && i == s.threads[t].i + 1 && v == s.threads[t].s)
        || (s.threads[t].Segment? && s.threads[t].n == n && s.threads[t].d == d
            && i == n.index && v == c.plan.H(s.threads[t].s)))
    && ThreadInv(c, s, t) && NodeInv(c, s, n) && MainInv(c, s) && Used(c.plan, n)
  }

  lemma LeavingValue(c: Ctx, s: State, t: nat, n: Pos, i: nat, d: nat, v: Bytes)
    requires Leaving(c, s, t, n, i, d, v) && Values(c.plan, c.val)
    ensures v == Outgoing(c, n) && n.index == Anc(t, n.height) && !s.nodes[n].out
    ensures c.plan.Last() > 0 ==> i > 0 || d > 0
  {
    if s.threads[t].Segment? {
      assert n == Pos(0, t) && v == c.plan.H(c.plan.segs[t]);
    }
  }

  /** A node is left only once the final segment, if it is on its path, is in. */
  lemma LeavingFacts(c: Ctx, s: State, t: nat, n: Pos, i: nat, d: nat, v: Bytes)
    requires Leaving(c, s, t, n, i, d, v)
    ensures OnPath(c.plan, n) ==> |s.threads| == c.plan.Last() + 1
    ensures s.nodes[n].root <==> n.height == c.plan.Top()
  {
    if OnPath(c.plan, n) && s.threads[t].Segment? {
      assert s.nodes[n].leftBy.Some?;
    }
    if n.height == c.plan.Top() {
      assert OnPath(c.plan, n);
      assert n.height == 0 ==> c.plan.Last() == 0;
      assert FinDone(c.plan, s.main, n.height);
    }
  }

  /** At the root the caller receives the root's value. */
  lemma PassRoot(c: Ctx, s: State, t: nat, n: Pos, i: nat, d: nat, v: Bytes)
    requires Leaving(c, s, t, n, i, d, v) && Values(c.plan, c.val) && CanPass(s, n) && s.nodes[n].root
    ensures var s' := Pass(s, t, n, i, d, v);
            MainInv(c, s') && NodeInv(c, s', n) && ThreadInv(c, s', t)
  {
    LeavingFacts(c, s, t, n, i, d, v);
    LeavingValue(c, s, t, n, i, d, v);
    assert n == Pos(c.plan.Top(), 0);
    assert c.plan.Last() == 0 ==> n.height == 0;
    var s' := Pass(s, t, n, i, d, v);
    assert RootSent(c, s');
  }

  lemma PassRootOther(c: Ctx, s: State, t: nat, n: Pos, i: nat, d: nat, v: Bytes, p: Pos)
    requires Leaving(c, s, t, n, i, d, v) && CanPass(s, n) && s.nodes[n].root
    requires p in s.nodes && p != n && NodeInv(c, s, p)
    ensures NodeInv(c, Pass(s, t, n, i, d, v), p)
  {
    NodeFrame(c, s, Pass(s, t, n, i, d, v), t, Sent, p);
  }

  lemma PassRootThread(c: Ctx, s: State, t: nat, n: Pos, i: nat, d: nat, v: Bytes, u: nat)
    requires Leaving(c, s, t, n, i, d, v) && CanPass(s, n) && s.nodes[n].root
    requires u < |s.threads| && u != t && ThreadInv(c, s, u)
    ensures ThreadInv(c, Pass(s, t, n, i, d, v), u)
  {
    ThreadFrame(c, s, Pass(s, t, n, i, d, v), u);
  }

  // A node below the root hands its value to its parent.

  ghost predicate Climbing(c: Ctx, s: State, t: nat, n: Pos, i: nat, d: nat, v: Bytes) {
    && Leaving(c, s, t, n, i, d, v) && Values(c.plan, c.val) && CanPass(s, n) && !s.nodes[n].root
    && NodeInv(c, s, Parent(n))
  }

  lemma ParentUsed(c: Ctx, s: State, t: nat, n: Pos, i: nat, d: nat, v: Bytes)
    requires Climbing(c, s, t, n, i, d, v)
    ensures var up := Parent(n);
            && Used(c.plan, up) && n == (if n.index % 2 == 0 then LeftChild(up) else RightChild(up))
            && (n.index % 2 == 1 ==> Binary(c.plan, up))
            && (OnPath(c.plan, n) ==> OnPath(c.plan, up) && LeftAt(c.plan, up.height) == (n.index % 2 == 0))
            && (OnPath(c.plan, up) && LeftAt(c.plan, up.height) == (n.index % 2 == 0) ==> OnPath(c.plan, n))
            && c.plan.Last() > 0
  {
    LeavingFacts(c, s, t, n, i, d, v);
    assert Anc(c.plan.Last(), n.height + 1) == Anc(c.plan.Last(), n.height) / 2;
  }

  lemma PassUpThread(c: Ctx, s: State, t: nat, n: Pos, i: nat, d: nat, v: Bytes)
    requires Climbing(c, s, t, n, i, d, v)
    ensures ThreadInv(c, Pass(s, t, n, i, d, v), t)
  {
    ParentUsed(c, s, t, n, i, d, v);
    LeavingValue(c, s, t, n, i, d, v);
    assert Anc(t, n.height + 1) == Anc(t, n.height) / 2;
  }

  lemma PassUpNode(c: Ctx, s: State, t: nat, n: Pos, i: nat, d: nat, v: Bytes)
    requires Climbing(c, s, t, n, i, d, v)
    ensures NodeInv(c, Pass(s, t, n, i, d, v), n)
  {
    LeavingFacts(c, s, t, n, i, d, v);
  }

  lemma PassUpArrivals(c: Ctx, s: State, t: nat, n: Pos, i: nat, d: nat, v: Bytes)
    requires Climbing(c, s, t, n, i, d, v)
    ensures NodeArrivals(c, Pass(s, t, n, i, d, v), Parent(n))
  {
    ParentUsed(c, s, t, n, i, d, v);
    LeavingFacts(c, s, t, n, i, d, v);
  }

  lemma PassUpWaits(c: Ctx, s: State, t: nat, n: Pos, i: nat, d: nat, v: Bytes)
    requires Climbing(c, s, t, n, i, d, v)
    ensures NodeWaits(Pass(s, t, n, i, d, v), Parent(n))
  {
    ParentUsed(c, s, t, n, i, d, v);
    assert s.threads[t].n != Parent(n);
  }

  lemma PassUpParent(c: Ctx, s: State, t: nat, n: Pos, i: nat, d: nat, v: Bytes)
    requires Climbing(c, s, t, n, i, d, v)
    ensures NodeInv(c, Pass(s, t, n, i, d, v), Parent(n))
  {
    var s', up := Pass(s, t, n, i, d, v), Parent(n);
    ParentUsed(c, s, t, n, i, d, v);
    PassUpArrivals(c, s, t, n, i, d, v);
    PassUpWaits(c, s, t, n, i, d, v);
    assert NodeFlags(c, s', up) && NodeCounts(c, s', up);
  }

  lemma PassUpOther(c: Ctx, s: State, t: nat, n: Pos, i: nat, d: nat, v: Bytes, p: Pos)
    requires Climbing(c, s, t, n, i, d, v) && p in s.nodes && p != n && p != Parent(n) && NodeInv(c, s, p)
    ensures NodeInv(c, Pass(s, t, n, i, d, v), p)
  {
    var s' := Pass(s, t, n, i, d, v);
    NodeFrame(c, s, s', t, s'.threads[t], p);
  }

  /** No goroutine relies on a node not being left, or on an arrival not being there,
      other than the one that leaves. */
  lemma PassUpSame(c: Ctx, s: State, t: nat, n: Pos, i: nat, d: nat, v: Bytes, u: nat)
    requires Climbing(c, s, t, n, i, d, v) && u < |s.threads| && u != t && ThreadInv(c, s, u)
    requires !s.threads[u].Parked? && !s.threads[u].Sent?
    ensures s.threads[u].n == n ==> SameFor(s.threads[u], s.nodes[n], s.nodes[n].(out := true))
    ensures s.threads[u].n == Parent(n) ==>
              SameFor(s.threads[u], s.nodes[Parent(n)], Arrive(s.nodes[Parent(n)], n.index % 2 == 0, t))
  {
    ParentUsed(c, s, t, n, i, d, v);
    LeavingValue(c, s, t, n, i, d, v);
  }

  /** The nodes after a pass to the parent. */
  lemma PassNodes(s: State, t: nat, n: Pos, i: nat, d: nat, v: Bytes, p: Pos)
    requires t < |s.threads| && CanPass(s, n) && !s.nodes[n].root && p in s.nodes
    ensures var s' := Pass(s, t, n, i, d, v);
      p in s'.nodes && s'.nodes[p] ==
        if p == Parent(n) then Arrive(s.nodes[p], n.index % 2 == 0, t)
        else if p == n then s.nodes[n].(out := true) else s.nodes[p]
  {
  }

  lemma PassUpSeen(c: Ctx, s: State, t: nat, n: Pos, i: nat, d: nat, v: Bytes, u: nat)
    requires Climbing(c, s, t, n, i, d, v) && u < |s.threads| && u != t && ThreadInv(c, s, u)
    requires !s.threads[u].Parked? && !s.threads[u].Sent? && s.threads[u].n in s.nodes
    ensures var th, s' := s.threads[u], Pass(s, t, n, i, d, v);
      th.n in s'.nodes && SameFor(th, s.nodes[th.n], s'.nodes[th.n])
  {
    PassUpSame(c, s, t, n, i, d, v, u);
    PassNodes(s, t, n, i, d, v, s.threads[u].n);
    SameForSelf(s.threads[u], s.nodes[s.threads[u].n]);
  }

  lemma SameForSelf(th: Thread, a: Node)
    ensures SameFor(th, a, a)
  {
  }

  lemma PassThreads(s: State, t: nat, n: Pos, i: nat, d: nat, v: Bytes, u: nat)
    requires t < |s.threads| && CanPass(s, n) && !s.nodes[n].root && u < |s.threads| && u != t
    ensures var s' := Pass(s, t, n, i, d, v);
      |s'.threads| == |s.threads| && s'.threads[u] == s.threads[u] && s'.main == s.main
  {
  }

  lemma PassUpNeighbour(c: Ctx, s: State, t: nat, n: Pos, i: nat, d: nat, v: Bytes, u: nat)
    requires Climbing(c, s, t, n, i, d, v) && u < |s.threads| && u != t && ThreadInv(c, s, u)
    ensures ThreadInv(c, Pass(s, t, n, i, d, v), u)
  {
    var s' := Pass(s, t, n, i, d, v);
    PassThreads(s, t, n, i, d, v, u);
    if !s.threads[u].Parked? && !s.threads[u].Sent? {
      PassUpSeen(c, s, t, n, i, d, v, u);
    }
    ThreadFrame(c, s, s', u);
  }

  // ----- Steps of the caller -----

  /** The caller launches goroutine `t` for leaf `t`, where t is the next leaf. */
  ghost predicate Launching(c: Ctx, s: State, t: nat) {
    && c.plan.Ok() && t == |s.threads| <= c.plan.Last() && Pos(0, t) in s.nodes && NodeInv(c, s, Pos(0, t))
    && MainInv(c, s)
    && (if t < c.plan.Last() then s.main == Launch(t) && c.plan.Direct(t) && c.plan.depth > 0 else s.main.LaunchLast?)
  }

  ghost function AfterLaunch(c: Ctx, s: State, t: nat): State
    requires Launching(c, s, t)
  {
    if t < c.plan.Last() then Launched(c.plan, s, t, c.plan.depth, Launch(t + 1))
    else Launched(c.plan, s, t, s.main.d, Wait)
  }

  lemma LaunchNew(c: Ctx, s: State, t: nat)
    requires Launching(c, s, t)
    ensures var s' := AfterLaunch(c, s, t);
            NodeInv(c, s', Pos(0, t)) && ThreadInv(c, s', t) && MainInv(c, s')
  {
    assert Used(c.plan, Pos(0, t));
  }

  lemma LaunchOther(c: Ctx, s: State, t: nat, p: Pos)
    requires Launching(c, s, t) && p in s.nodes && p != Pos(0, t) && NodeInv(c, s, p)
    ensures NodeInv(c, AfterLaunch(c, s, t), p)
  {
    var s' := AfterLaunch(c, s, t);
    assert FinDone(c.plan, s'.main, p.height) == FinDone(c.plan, s.main, p.height);
    assert p.height > 0 && LeftChild(p) in s.nodes ==> s'.nodes[LeftChild(p)].out == s.nodes[LeftChild(p)].out;
    assert p.height > 0 && RightChild(p) in s.nodes ==> s'.nodes[RightChild(p)].out == s.nodes[RightChild(p)].out;
    if Used(c.plan, p) {
      assert NodeFlags(c, s', p) && NodeCounts(c, s', p) && NodeWaits(s', p);
      assert NodeArrivals(c, s', p);
    }
  }

  lemma LaunchThread(c: Ctx, s: State, t: nat, u: nat)
    requires Launching(c, s, t) && u < t && ThreadInv(c, s, u)
    ensures ThreadInv(c, AfterLaunch(c, s, t), u)
  {
    var th := s.threads[u];
    if !th.Parked? && !th.Sent? && th.n == Pos(0, t) {
      assert !th.Segment?;
    }
    ThreadFrame(c, s, AfterLaunch(c, s, t), u);
  }

  /** finalise reaches a node of the final path. */
  ghost predicate Finalising(c: Ctx, s: State) {
    && c.plan.Ok() && s.main.Finalise? && MainInv(c, s)
    && s.main.n in s.nodes && NodeInv(c, s, s.main.n)
  }

  ghost function AfterFinalise(s: State): State
    requires s.main.Finalise? && s.main.n in s.nodes
  {
    Finalised(s, s.main.n, s.main.isLeft, s.main.d)
  }

  lemma FinaliseMain(c: Ctx, s: State)
    requires Finalising(c, s)
    ensures MainInv(c, AfterFinalise(s))
    ensures s.main.n.index == 0 <==> s.main.n.height == c.plan.Top()
  {
    var n, last := s.main.n, c.plan.Last();
    if n.height < c.plan.Top() { TopIsFirst(last, 0, n.height); }
    assert Anc(last, n.height + 1) == Anc(last, n.height) / 2;
  }

  lemma FinaliseNode(c: Ctx, s: State)
    requires Finalising(c, s)
    ensures NodeInv(c, AfterFinalise(s), s.main.n)
  {
    FinaliseMain(c, s);
    var n := s.main.n;
    if n.height > 0 { UnaryNode(c.plan, n); }
  }

  lemma FinaliseOther(c: Ctx, s: State, p: Pos)
    requires Finalising(c, s) && p in s.nodes && p != s.main.n && NodeInv(c, s, p)
    ensures NodeInv(c, AfterFinalise(s), p)
  {
    FinaliseMain(c, s);
    var s' := AfterFinalise(s);
    if Used(c.plan, p) {
      if p.height == s.main.n.height {
        assert !OnPath(c.plan, p);
        assert p.height < c.plan.Top();
      } else {
        assert FinDone(c.plan, s'.main, p.height) == FinDone(c.plan, s.main, p.height);
      }
      assert NodeFlags(c, s', p);
    }
  }

  lemma FinaliseThread(c: Ctx, s: State, u: nat)
    requires Finalising(c, s) && u < |s.threads| && ThreadInv(c, s, u)
    ensures ThreadInv(c, AfterFinalise(s), u)
  {
    var n, th := s.main.n, s.threads[u];
    if !th.Parked? && !th.Sent? && th.n == n {
      if n.height > 0 { UnaryNode(c.plan, n); }
      assert (th.Test? || th.Toggle?) ==> th.isLeft;
    }
    ThreadFrame(c, s, AfterFinalise(s), u);
  }

  /** Sum starts walking the final path. */
  lemma SumStarts(c: Ctx, s: State, p: Pos)
    requires c.plan.Ok() && MainInv(c, s) && s.main == Launch(c.plan.Last()) && MainEnabled(c.plan, s)
    requires p in s.nodes && NodeInv(c, s, p)
    ensures NodeInv(c, MainStep(c.plan, s), p) && MainInv(c, MainStep(c.plan, s))
  {
    assert c.plan.Last() > 0 ==> c.plan.Top() >= 1;
  }
}
