/** Whole runs of the tree hasher: the invariant of every reachable state, the result,
    the released tree, absence of deadlock, and termination. */
module BmtRuns {
  import opened BmtReference
  import opened BmtTree
  import opened BmtMachine
  import opened BmtProof

  // ----- One step keeps the invariant -----

  lemma LocalKeeps(c: Ctx, s: State, t: nat)
    requires Inv(c, s) && t < |s.threads| && Local(s.threads[t]) && Enabled(s, t) && !s.main.Got?
    ensures Inv(c, ThreadStep(c.plan, s, t))
  {
    var s', n := ThreadStep(c.plan, s, t), s.threads[t].n;
    assert ThreadInv(c, s, t) && NodeInv(c, s, n);
    LocalTouches(c.plan, s, t);
    LocalAtNode(c, s, t);
    forall p | p in s'.nodes && p != n ensures NodeInv(c, s', p) {
      assert NodeInv(c, s, p);
      LocalOther(c, s, s', t, p);
    }
    forall u | 0 <= u < |s'.threads| && u != t ensures ThreadInv(c, s', u) {
      assert ThreadInv(c, s, u);
      LocalNeighbour(c, s, s', t, u);
    }
  }

  lemma LocalAtNode(c: Ctx, s: State, t: nat)
    requires CtxOk(c) && Ready(c, s, t) && MainInv(c, s)
    ensures var s' := ThreadStep(c.plan, s, t);
            NodeInv(c, s', s.threads[t].n) && ThreadInv(c, s', t)
  {
    match s.threads[t]
    case Store(_, _, _, _, _) => StoreStep(c, s, t);
    case Test(_, _, _, _) => TestStep(c, s, t);
    case Toggle(n, _, _, _) =>
      assert n in c.before && CleanNode(c.plan.depth, n, c.before[n]) && UnwrappedAt(c.plan, c.before, n);
      ToggleStep(c, s, t);
    case Combine(_, _, _, _) => CombineStep(c, s, t);
  }

  lemma PassKeeps(c: Ctx, s: State, t: nat, n: Pos, i: nat, d: nat, v: Bytes)
    requires Inv(c, s) && Leaving(c, s, t, n, i, d, v) && CanPass(s, n) && !s.main.Got?
    ensures Inv(c, Pass(s, t, n, i, d, v))
  {
    if s.nodes[n].root {
      PassRootKeeps(c, s, t, n, i, d, v);
    } else {
      PassUpKeeps(c, s, t, n, i, d, v);
    }
  }

  lemma PassRootKeeps(c: Ctx, s: State, t: nat, n: Pos, i: nat, d: nat, v: Bytes)
    requires Inv(c, s) && Leaving(c, s, t, n, i, d, v) && CanPass(s, n) && s.nodes[n].root
    ensures Inv(c, Pass(s, t, n, i, d, v))
  {
    var s' := Pass(s, t, n, i, d, v);
    PassRoot(c, s, t, n, i, d, v);
    forall p | p in s'.nodes && p != n ensures NodeInv(c, s', p) {
      PassRootOther(c, s, t, n, i, d, v, p);
    }
    forall u | 0 <= u < |s'.threads| && u != t ensures ThreadInv(c, s', u) {
      PassRootThread(c, s, t, n, i, d, v, u);
    }
  }

  lemma PassUpNodes(c: Ctx, s: State, t: nat, n: Pos, i: nat, d: nat, v: Bytes)
    requires Climbing(c, s, t, n, i, d, v) && (forall p :: p in s.nodes ==> NodeInv(c, s, p))
    ensures var s' := Pass(s, t, n, i, d, v); forall p :: p in s'.nodes ==> NodeInv(c, s', p)
  {
    var s' := Pass(s, t, n, i, d, v);
    forall p | p in s'.nodes ensures NodeInv(c, s', p) {
      if p == n {
        PassUpNode(c, s, t, n, i, d, v);
      } else if p == Parent(n) {
        PassUpParent(c, s, t, n, i, d, v);
      } else {
        PassUpOther(c, s, t, n, i, d, v, p);
      }
    }
  }

  lemma PassUpThreads(c: Ctx, s: State, t: nat, n: Pos, i: nat, d: nat, v: Bytes)
    requires Climbing(c, s, t, n, i, d, v) && (forall u :: 0 <= u < |s.threads| ==> ThreadInv(c, s, u))
    ensures var s' := Pass(s, t, n, i, d, v); forall u :: 0 <= u < |s'.threads| ==> ThreadInv(c, s', u)
  {
    var s' := Pass(s, t, n, i, d, v);
    forall u | 0 <= u < |s'.threads| ensures ThreadInv(c, s', u) {
      if u == t {
        PassUpThread(c, s, t, n, i, d, v);
      } else {
        PassUpNeighbour(c, s, t, n, i, d, v, u);
      }
    }
  }

  lemma PassUpKeeps(c: Ctx, s: State, t: nat, n: Pos, i: nat, d: nat, v: Bytes)
    requires Inv(c, s) && Leaving(c, s, t, n, i, d, v) && CanPass(s, n) && !s.nodes[n].root && !s.main.Got?
    ensures Inv(c, Pass(s, t, n, i, d, v))
  {
    assert NodeInv(c, s, Parent(n));
    PassUpNodes(c, s, t, n, i, d, v);
    PassUpThreads(c, s, t, n, i, d, v);
    var s' := Pass(s, t, n, i, d, v);
    assert s'.nodes.Keys == s.nodes.Keys && MainInv(c, s');
  }

  lemma ThreadKeeps(c: Ctx, s: State, t: nat)
    requires Inv(c, s) && t < |s.threads| && Enabled(s, t) && !s.main.Got?
    ensures Inv(c, ThreadStep(c.plan, s, t))
  {
    var th := s.threads[t];
    assert ThreadInv(c, s, t);
    if Local(th) {
      LocalKeeps(c, s, t);
    } else if th.Segment? {
      assert NodeInv(c, s, th.n);
      PassKeeps(c, s, t, th.n, th.n.index, th.d, c.plan.H(th.s));
    } else {
      assert NodeInv(c, s, th.n);
      PassKeeps(c, s, t, th.n, th.i + 1, th.d, th.s);
    }
  }

  lemma LaunchKeeps(c: Ctx, s: State, t: nat)
    requires Inv(c, s) && Launching(c, s, t)
    ensures Inv(c, AfterLaunch(c, s, t))
  {
    var s' := AfterLaunch(c, s, t);
    LaunchNew(c, s, t);
    forall p | p in s'.nodes && p != Pos(0, t) ensures NodeInv(c, s', p) {
      LaunchOther(c, s, t, p);
    }
    forall u | 0 <= u < |s'.threads| && u != t ensures ThreadInv(c, s', u) {
      LaunchThread(c, s, t, u);
    }
  }

  lemma FinaliseKeeps(c: Ctx, s: State)
    requires Inv(c, s) && Finalising(c, s)
    ensures Inv(c, AfterFinalise(s))
  {
    var s' := AfterFinalise(s);
    FinaliseMain(c, s);
    FinaliseNode(c, s);
    forall p | p in s'.nodes && p != s.main.n ensures NodeInv(c, s', p) {
      FinaliseOther(c, s, p);
    }
    forall u | 0 <= u < |s'.threads| ensures ThreadInv(c, s', u) {
      FinaliseThread(c, s, u);
    }
  }

  lemma SumKeeps(c: Ctx, s: State)
    requires Inv(c, s) && s.main == Launch(c.plan.Last()) && MainEnabled(c.plan, s)
    ensures Inv(c, MainStep(c.plan, s))
  {
    var s' := MainStep(c.plan, s);
    SumStarts(c, s, Pos(0, c.plan.Last()));
    forall p | p in s'.nodes ensures NodeInv(c, s', p) {
      SumStarts(c, s, p);
    }
    forall u | 0 <= u < |s'.threads| ensures ThreadInv(c, s', u) {
      ThreadFrame(c, s, s', u);
    }
  }

  lemma MainKeeps(c: Ctx, s: State)
    requires Inv(c, s) && MainEnabled(c.plan, s) && !s.main.Got?
    ensures Inv(c, MainStep(c.plan, s))
  {
    var last := c.plan.Last();
    match s.main
    case Launch(next) =>
      if next < last {
        assert c.plan.depth > 0;
        assert NodeInv(c, s, Pos(0, next));
        LaunchKeeps(c, s, next);
      } else {
        SumKeeps(c, s);
      }
    case Finalise(n, _, _) =>
      assert NodeInv(c, s, n);
      FinaliseKeeps(c, s);
    case LaunchLast(_) =>
      assert NodeInv(c, s, Pos(0, last));
      LaunchKeeps(c, s, last);
  }

  // ----- After the result -----

  lemma PassedBelow(c: Ctx, s: State, p: Pos)
    requires c.plan.Ok() && Used(c.plan, p) && p.height < c.plan.Top() && p in s.nodes && NodeInv(c, s, p)
    requires var up := Parent(p); up in s.nodes && Used(c.plan, up) && NodeInv(c, s, up) && s.nodes[up].owner.Some?
    ensures s.nodes[p].out && (s.nodes[p].owner.Some? || (p.height == 0 && c.plan.Direct(p.index)))
  {
    var up := Parent(p);
    if p.index % 2 == 0 {
      assert p == LeftChild(up);
    } else {
      assert p == RightChild(up) && Binary(c.plan, up);
    }
  }

  /** Once the result is out, every node below the root has been passed and left. */
  lemma {:induction false} AllPassed(c: Ctx, s: State, p: Pos)
    requires Inv(c, s) && s.main.Got? && Used(c.plan, p)
    ensures p in s.nodes && (s.nodes[p].owner.Some? || (p.height == 0 && c.plan.Direct(p.index)))
    ensures p.height < c.plan.Top() ==> s.nodes[p].out
    decreases c.plan.Top() - p.height
  {
    assert p in s.nodes && NodeInv(c, s, p);
    if p.height < c.plan.Top() {
      var up := Parent(p);
      ParentsUsed(c.plan, p);
      AllPassed(c, s, up);
      assert NodeInv(c, s, up);
      PassedBelow(c, s, p);
    } else {
      assert p == Pos(c.plan.Top(), 0);
    }
  }

  /** No goroutine is left behind when the result is delivered. */
  lemma AllEnded(c: Ctx, s: State, t: nat)
    requires Inv(c, s) && s.main.Got? && t < |s.threads|
    ensures s.threads[t].Parked? || s.threads[t].Sent?
    ensures !Enabled(s, t)
  {
    var th := s.threads[t];
    assert ThreadInv(c, s, t);
    if !th.Parked? && !th.Sent? {
      var n := th.n;
      assert Used(c.plan, n) && NodeInv(c, s, n);
      AllPassed(c, s, n);
    }
  }

  /** The counter of a node after one chunk: two arrivals where two children met. */
  ghost function CounterAfter(plan: Plan, p: Pos, x: int): int
    requires plan.Ok()
  {
    if Used(plan, p) && Binary(plan, p) then Add32(Add32(x)) else x
  }

  lemma ReleaseNode(c: Ctx, s: State, p: Pos)
    requires Inv(c, s) && s.main.Got? && p in s.nodes
    ensures var node := Release(c.plan, s.nodes, c.plan.Last())[p];
            CleanNode(c.plan.depth, p, node) && node.state == CounterAfter(c.plan, p, c.before[p].state)
  {
    assert NodeInv(c, s, p);
    assert CleanNode(c.plan.depth, p, c.before[p]) && InTree(c.plan.depth, p);
    TogglePairs(c.before[p].state);
    if Used(c.plan, p) {
      AllPassed(c, s, p);
    }
  }

  /** The released tree is clean again: every toggle is even and no flag is left. */
  lemma ReleaseCleans(c: Ctx, s: State)
    requires Inv(c, s) && s.main.Got?
    ensures var nodes := MainStep(c.plan, s).nodes;
            && Clean(c.plan.depth, nodes)
            && forall p :: p in nodes ==> nodes[p].state == CounterAfter(c.plan, p, c.before[p].state)
  {
    var nodes := MainStep(c.plan, s).nodes;
    assert nodes.Keys == c.before.Keys;
    forall p | p in nodes
      ensures CleanNode(c.plan.depth, p, nodes[p]) && nodes[p].state == CounterAfter(c.plan, p, c.before[p].state)
    {
      ReleaseNode(c, s, p);
    }
  }

  // ----- No deadlock -----

  ghost predicate CanStep(plan: Plan, s: State) {
    (plan.Ok() && MainEnabled(plan, s)) || exists t :: 0 <= t < |s.threads| && Enabled(s, t)
  }

  lemma SomeNext(plan: Plan, s: State) returns (s': State)
    requires CanStep(plan, s)
    ensures Next(plan, s, s')
  {
    if plan.Ok() && MainEnabled(plan, s) {
      s' := MainStep(plan, s);
    } else {
      var t :| 0 <= t < |s.threads| && Enabled(s, t);
      s' := ThreadStep(plan, s, t);
    }
  }

  lemma RunnableUnlessEnded(c: Ctx, s: State, t: nat)
    requires Inv(c, s) && s.main.Wait? && t < |s.threads|
    ensures Enabled(s, t) || s.threads[t].Parked?
  {
    var th := s.threads[t];
    assert ThreadInv(c, s, t);
    if th.Segment? || th.Emit? {
      var n := th.n;
      assert NodeInv(c, s, n);
      if !s.nodes[n].root {
        assert n.height < c.plan.Top();
        ParentsUsed(c.plan, n);
      }
    }
  }

  ghost predicate AllParked(s: State) {
    forall t :: 0 <= t < |s.threads| ==> s.threads[t].Parked?
  }

  lemma ParkedLeaves(c: Ctx, s: State, p: Pos)
    requires c.plan.Ok() && Used(c.plan, p) && p in s.nodes && NodeInv(c, s, p)
    requires AllParked(s) && |s.threads| == c.plan.Last() + 1
    requires p.height > 0 ==> LeftChild(p) in s.nodes && s.nodes[LeftChild(p)].out
    requires Binary(c.plan, p) ==> RightChild(p) in s.nodes && s.nodes[RightChild(p)].out
    ensures s.nodes[p].out
  {
    var node := s.nodes[p];
    assert node.leftBy.Some?;
    assert !node.out ==> node.leftIn;
    assert Binary(c.plan, p) ==> node.rightIn;
  }

  /** If every goroutine were parked, every used node would have been left. */
  lemma {:induction false} ParkedMeansLeft(c: Ctx, s: State, p: Pos)
    requires Inv(c, s) && s.main.Wait? && Used(c.plan, p) && AllParked(s)
    ensures p in s.nodes && s.nodes[p].out
    decreases p.height
  {
    assert p in s.nodes && NodeInv(c, s, p);
    if p.height > 0 {
      ChildrenUsed(c.plan, p);
      ParkedMeansLeft(c, s, LeftChild(p));
      if Binary(c.plan, p) { ParkedMeansLeft(c, s, RightChild(p)); }
    }
    ParkedLeaves(c, s, p);
  }

  /** Until the result is handed over and the tree released, something can run. */
  lemma NoDeadlock(c: Ctx, s: State)
    requires Inv(c, s)
    ensures CanStep(c.plan, s)
  {
    var last := c.plan.Last();
    match s.main
    case Launch(next) => assert Used(c.plan, Pos(0, next));
    case Finalise(n, _, _) => assert Used(c.plan, n);
    case LaunchLast(_) => assert Used(c.plan, Pos(0, last));
    case Got(_) =>
    case Wait =>
      if AllParked(s) {
        var r := Pos(c.plan.Top(), 0);
        assert Used(c.plan, r) && r in s.nodes && NodeInv(c, s, r);
        ParkedMeansLeft(c, s, r);
        assert false;
      } else {
        var t :| 0 <= t < |s.threads| && !s.threads[t].Parked?;
        RunnableUnlessEnded(c, s, t);
      }
  }

  // ----- Every run ends -----

  function ThreadRank(depth: nat, th: Thread): nat {
    match th
    case Parked => 0
    case Sent => 0
    case Segment(_, _, _) => 5 * depth + 6
    case Store(n, _, _, _, _) => Below(depth, n) + 5
    case Test(n, _, _, _) => Below(depth, n) + 4
    case Toggle(n, _, _, _) => Below(depth, n) + 3
    case Combine(n, _, _, _) => Below(depth, n) + 2
    case Emit(n, _, _, _) => Below(depth, n) + 1
  }

  function Below(depth: nat, n: Pos): nat {
    if n.height <= depth then 5 * (depth - n.height) else 0
  }

  function ThreadsRank(depth: nat, ths: seq<Thread>): nat {
    if ths == [] then 0
    else ThreadsRank(depth, ths[..|ths| - 1]) + ThreadRank(depth, ths[|ths| - 1])
  }

  lemma {:induction false} ThreadsRankUpdate(depth: nat, ths: seq<Thread>, t: nat, th: Thread)
    requires t < |ths|
    ensures ThreadsRank(depth, ths[t := th]) == ThreadsRank(depth, ths) - ThreadRank(depth, ths[t]) + ThreadRank(depth, th)
  {
    var k := |ths| - 1;
    if t == k {
      assert ths[t := th][..k] == ths[..k];
    } else {
      ThreadsRankUpdate(depth, ths[..k], t, th);
      assert ths[t := th][..k] == ths[..k][t := th];
    }
  }

  function MainRank(plan: Plan, main: Main): nat {
    match main
    case Launch(next) => plan.depth + 5 + (if next <= |plan.segs| then |plan.segs| - next else 0)
    case Finalise(n, _, _) => (if n.height <= plan.depth then plan.depth - n.height else 0) + 4
    case LaunchLast(_) => 3
    case Wait => 2
    case Got(_) => 1
    case Released(_) => 0
  }

  /** A bound on the steps left: goroutines not yet launched weigh more than any other. */
  function Rank(plan: Plan, s: State): nat {
    var left := if |s.threads| <= |plan.segs| then |plan.segs| - |s.threads| else 0;
    MainRank(plan, s.main) + ThreadsRank(plan.depth, s.threads) + left * (5 * plan.depth + 7)
  }

  ghost predicate WithinTree(plan: Plan, s: State) {
    forall p :: p in s.nodes ==> p.height <= plan.depth
  }

  lemma ThreadStepRank(plan: Plan, s: State, t: nat)
    requires WithinTree(plan, s) && t < |s.threads| && Enabled(s, t)
    requires s.threads[t].Segment? ==> s.threads[t].n.height == 0
    ensures Rank(plan, ThreadStep(plan, s, t)) < Rank(plan, s)
  {
    var s' := ThreadStep(plan, s, t);
    var th, th' := s.threads[t], s'.threads[t];
    assert ThreadRank(plan.depth, th') < ThreadRank(plan.depth, th);
    assert s'.threads == s.threads[t := th'];
    ThreadsRankUpdate(plan.depth, s.threads, t, th');
    assert MainRank(plan, s'.main) <= MainRank(plan, s.main);
  }

  lemma LaunchRank(plan: Plan, s: State, t: nat, d: nat, main: Main)
    requires t == |s.threads| < |plan.segs| && Pos(0, t) in s.nodes
    requires MainRank(plan, main) < MainRank(plan, s.main)
    ensures Rank(plan, Launched(plan, s, t, d, main)) < Rank(plan, s)
  {
    var s', w := Launched(plan, s, t, d, main), 5 * plan.depth + 7;
    assert s'.threads[..t] == s.threads;
    assert ThreadRank(plan.depth, s'.threads[t]) < w;
    var k := |plan.segs| - t;
    assert k * w == (k - 1) * w + w;
  }

  lemma MainStepRank(c: Ctx, s: State)
    requires c.plan.Ok() && MainInv(c, s) && WithinTree(c.plan, s) && MainEnabled(c.plan, s)
    ensures Rank(c.plan, MainStep(c.plan, s)) < Rank(c.plan, s)
  {
    match s.main
    case Launch(next) =>
      if next < c.plan.Last() { LaunchRank(c.plan, s, next, c.plan.depth, Launch(next + 1)); }
    case Finalise(n, _, _) =>
      if n.index != 0 { assert n.height < c.plan.Top(); }
    case LaunchLast(d) => LaunchRank(c.plan, s, c.plan.Last(), d, Wait);
    case Got(_) =>
  }

  // ----- Runs -----

  /** A run on any tree from the pool. */
  ghost predicate AnyRun(plan: Plan, run: seq<State>) {
    && |run| > 0 && Begins(plan, run[0])
    && forall i :: 0 <= i < |run| - 1 ==> Next(plan, run[i], run[i + 1])
  }

  ghost predicate Run(plan: Plan, run: seq<State>) {
    AnyRun(plan, run) && Init(plan, run[0])
  }

  /** The state after releaseTree. */
  ghost predicate Finished(c: Ctx, s: State) {
    && c.plan.Ok() && s.main.Released? && s.main.sum == Outgoing(c, Pos(c.plan.Top(), 0))
    && (forall t :: 0 <= t < |s.threads| ==> s.threads[t].Parked? || s.threads[t].Sent?)
    && Clean(c.plan.depth, s.nodes) && s.nodes.Keys == c.before.Keys
    && forall p :: p in s.nodes ==> s.nodes[p].state == CounterAfter(c.plan, p, c.before[p].state)
  }

  lemma StepRank(c: Ctx, s: State, s': State)
    requires Inv(c, s) && Next(c.plan, s, s')
    ensures Rank(c.plan, s') < Rank(c.plan, s)
  {
    assert WithinTree(c.plan, s) by {
      forall p | p in s.nodes ensures p.height <= c.plan.depth { assert InTree(c.plan.depth, p); }
    }
    if MainEnabled(c.plan, s) && s' == MainStep(c.plan, s) {
      MainStepRank(c, s);
    } else {
      var t :| 0 <= t < |s.threads| && Enabled(s, t) && s' == ThreadStep(c.plan, s, t);
      assert ThreadInv(c, s, t);
      ThreadStepRank(c.plan, s, t);
    }
  }

  lemma ReleaseFinishes(c: Ctx, s: State)
    requires Inv(c, s) && s.main.Got?
    ensures Finished(c, MainStep(c.plan, s))
  {
    ReleaseCleans(c, s);
    forall t | 0 <= t < |s.threads| ensures s.threads[t].Parked? || s.threads[t].Sent? {
      AllEnded(c, s, t);
    }
  }

  lemma StepOutcome(c: Ctx, s: State, s': State)
    requires Inv(c, s) && Next(c.plan, s, s')
    ensures Inv(c, s') || Finished(c, s')
  {
    if MainEnabled(c.plan, s) && s' == MainStep(c.plan, s) {
      if s.main.Got? { ReleaseFinishes(c, s); } else { MainKeeps(c, s); }
    } else {
      var t :| 0 <= t < |s.threads| && Enabled(s, t) && s' == ThreadStep(c.plan, s, t);
      if s.main.Got? { AllEnded(c, s, t); }
      ThreadKeeps(c, s, t);
    }
  }

  lemma FinishedStays(c: Ctx, s: State)
    requires Finished(c, s)
    ensures !CanStep(c.plan, s) && forall s' :: !Next(c.plan, s, s')
  {
  }

  lemma StepOn(c: Ctx, s: State, s': State)
    requires Inv(c, s) || Finished(c, s)
    requires Next(c.plan, s, s')
    ensures Inv(c, s') || Finished(c, s')
    ensures Rank(c.plan, s') < Rank(c.plan, s)
  {
    if Finished(c, s) {
      FinishedStays(c, s);
    } else {
      StepOutcome(c, s, s');
      StepRank(c, s, s');
    }
  }

  /** The invariant, and the steps spent, at every state of every run. */
  lemma {:induction false} RunInv(c: Ctx, run: seq<State>, i: nat)
    requires CtxOk(c) && Run(c.plan, run) && c.before == run[0].nodes && i < |run|
    ensures Inv(c, run[i]) || Finished(c, run[i])
    ensures Rank(c.plan, run[i]) + i <= Rank(c.plan, run[0])
  {
    if i == 0 {
      InitInv(c, run[0]);
    } else {
      RunInv(c, run, i - 1);
      assert Next(c.plan, run[i - 1], run[i - 1 + 1]);
      StepOn(c, run[i - 1], run[i]);
    }
  }

  // ----- The hasher computes the reference hash -----

  /** What the caller does for a chunk: one goroutine per leaf. */
  function PlanFor(job: Job): Plan
    requires job.hs > 0
  {
    Plan(job.H, job.hs, job.depth, seq(Last(job) + 1, i requires i >= 0 => Chunk(job, 0, i)))
  }

  function ValueAt(job: Job): Pos -> Bytes {
    (p: Pos) => Value(job, p.height, p.index)
  }

  lemma JobOk(job: Job)
    requires Fits(job)
    ensures var plan := PlanFor(job); plan.Ok() && plan.Last() == Last(job) && plan.Top() == Top(job)
  {
    TopWithinTree(job);
  }

  lemma NodeStep(job: Job, p: Pos)
    requires Fits(job) && PlanFor(job).Ok() && Used(PlanFor(job), p) && p.height > 0
    ensures Value(job, p.height, p.index) ==
              if Binary(PlanFor(job), p)
              then job.H(Value(job, p.height - 1, 2 * p.index) + Value(job, p.height - 1, 2 * p.index + 1))
              else Value(job, p.height - 1, 2 * p.index)
  {
    if Binary(PlanFor(job), p) {
      ValueBinary(job, p.height, p.index);
    } else {
      UnaryNode(PlanFor(job), p);
      ValueUnary(job, p.height, p.index);
    }
  }

  lemma JobValues(job: Job)
    requires Fits(job)
    ensures PlanFor(job).Ok() && Values(PlanFor(job), ValueAt(job))
  {
    JobOk(job);
    var plan, val := PlanFor(job), ValueAt(job);
    forall p | Used(plan, p) && p.height > 0
      ensures val(p) == if Binary(plan, p) then plan.H(val(LeftChild(p)) + val(RightChild(p))) else val(LeftChild(p))
    {
      NodeStep(job, p);
    }
  }

  lemma {:induction false} AncInTree(t: nat, depth: nat, k: nat)
    requires k <= depth && Anc(t, depth) == 0
    ensures Anc(t, k) < Pow2(depth - k)
    decreases depth - k
  {
    if k < depth { AncInTree(t, depth, k + 1); }
  }

  lemma {:induction false} AncStaysZero(t: nat, k: nat, d: nat)
    requires k <= d && Anc(t, k) == 0
    ensures Anc(t, d) == 0
  {
    if k < d { AncStaysZero(t, k, d - 1); }
  }

  lemma UsedInTree(job: Job, p: Pos)
    requires Fits(job) && PlanFor(job).Ok() && Used(PlanFor(job), p)
    ensures InTree(job.depth, p)
  {
    var plan := PlanFor(job);
    AncStaysZero(plan.Last(), plan.Top(), job.depth);
    AncInTree(plan.Last(), job.depth, p.height);
  }

  lemma JobCtx(job: Job, before: Nodes)
    requires Fits(job) && Clean(job.depth, before)
    requires PlanFor(job).Ok() && Unwrapped(PlanFor(job), before)
    requires forall p :: p in before ==> NoHistory(before[p])
    ensures CtxOk(Ctx(PlanFor(job), ValueAt(job), before))
  {
    JobValues(job);
    var plan := PlanFor(job);
    forall p | Used(plan, p) ensures p in before {
      UsedInTree(job, p);
    }
    forall j | 0 <= j < plan.Last() ensures |plan.segs[j]| > plan.hs {
      FullLeaf(job, j);
    }
  }

  /** The root's value is the reference hash, for every wide enough reference span. */
  lemma RootIsRefHash(job: Job, m: nat, c: Ctx)
    requires Fits(job) && |job.data| <= 2 * Width(job.hs, m)
    requires c.plan == PlanFor(job) && c.plan.Ok() && c.val == ValueAt(job)
    ensures Outgoing(c, Pos(c.plan.Top(), 0)) == RefHash(job.H, job.hs, job.data, m)
  {
    var k, r := Top(job), RefHash(job.H, job.hs, job.data, m);
    assert c.plan.Last() == Last(job) && c.plan.Top() == k;
    if Last(job) == 0 {
      LastLeafNonempty(job);
      assert c.plan.segs[0] == job.data;
      assert r == job.H(job.data);
    } else {
      var top := Pos(k, 0);
      assert c.val(top) == r by { TopValue(job, m); }
      assert Outgoing(c, top) == c.val(top);
    }
  }

  lemma TopValue(job: Job, m: nat)
    requires Fits(job) && Last(job) > 0 && |job.data| <= 2 * Width(job.hs, m)
    ensures Value(job, Top(job), 0) == RefHash(job.H, job.hs, job.data, m)
  {
    LastBound(job, Top(job));
    LastBound(job, 0);
    ChunkOfTop(job);
    MulMonotone(1, Last(job), 2 * job.hs);
    NodeValueIsRefHash(job.H, job.hs, Top(job), job.data, m);
  }

  /** For every chunk the tree has room for, from every clean tree and in every run: the
      sum is the reference hash and every goroutine has ended by then; the released tree
      is clean, with each counter advanced by the arrivals that met; until then some step
      is possible; and no run is longer than its rank. */
  lemma HasherMatchesReference(job: Job, m: nat, run: seq<State>)
    requires Fits(job) && |job.data| <= 2 * Width(job.hs, m)
    requires Run(PlanFor(job), run)
    ensures var plan, s := PlanFor(job), run[|run| - 1];
            && (s.main.Got? || s.main.Released? ==>
                  && s.main.sum == RefHash(job.H, job.hs, job.data, m)
                  && forall t :: 0 <= t < |s.threads| ==> s.threads[t].Parked? || s.threads[t].Sent?)
            && (s.main.Released? ==>
                  && Clean(job.depth, s.nodes) && s.nodes.Keys == run[0].nodes.Keys
                  && forall p :: p in s.nodes ==> s.nodes[p].state == CounterAfter(plan, p, run[0].nodes[p].state))
            && (s.main.Released? || CanStep(plan, s))
            && |run| <= Rank(plan, run[0]) + 1
  {
    var c := Ctx(PlanFor(job), ValueAt(job), run[0].nodes);
    var s := run[|run| - 1];
    JobCtx(job, run[0].nodes);
    RunInv(c, run, |run| - 1);
    RootIsRefHash(job, m, c);
    if Inv(c, s) {
      NoDeadlock(c, s);
      if s.main.Got? {
        forall t | 0 <= t < |s.threads| ensures s.threads[t].Parked? || s.threads[t].Sent? {
          AllEnded(c, s, t);
        }
      }
    }
  }

  /** After the release a counter is negative exactly if it was before, or if it was the last
      even value and two arrivals met. */
  lemma ReusableUnlessWrapped(job: Job, run: seq<State>, p: Pos)
    requires Fits(job) && Run(PlanFor(job), run) && run[|run| - 1].main.Released?
    requires p in run[0].nodes
    ensures p in run[|run| - 1].nodes
    ensures PlanFor(job).Ok()
    ensures run[|run| - 1].nodes[p].state >= 0
            <==> run[0].nodes[p].state >= 0
                 && !(Used(PlanFor(job), p) && Binary(PlanFor(job), p) && run[0].nodes[p].state == INT32_MAX - 1)
  {
    WidthDouble(job.hs, 0, job.depth);
    HasherMatchesReference(job, job.depth, run);
    assert CleanNode(job.depth, p, run[0].nodes[p]);
    assert UnwrappedAt(PlanFor(job), run[0].nodes, p);
    TogglePairs(run[0].nodes[p].state);
  }
}
