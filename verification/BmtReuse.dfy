/** One tree of the pool over its whole life: the chunks it hashes one after another, and
    exactly how long every sum stays right. */
module BmtReuse {
  import opened BmtReference
  import opened BmtTree
  import opened BmtMachine
  import opened BmtProof
  import opened BmtRuns

  /** A counter holds this many pairs of arrivals before it turns negative. */
  const WRAP: nat := 0x4000_0000

  // ----- The life of a tree -----

  /** The released tree as the next chunk finds it: the history variables start over. */
  function Forgotten(nodes: Nodes): (r: Nodes)
    ensures r.Keys == nodes.Keys
  {
    map p | p in nodes ::
      nodes[p].(leftBy := None, rightBy := None, leftIn := false, rightIn := false, owner := None, out := false)
  }

  /** A chunk hashed to the end, in some order of steps. */
  ghost predicate Complete(job: Job, run: seq<State>) {
    Fits(job) && AnyRun(PlanFor(job), run) && run[|run| - 1].main.Released?
  }

  /** `nodes` is a new tree after the given chunks, one after another. */
  ghost predicate TreeAfter(depth: nat, jobs: seq<Job>, runs: seq<seq<State>>, nodes: Nodes)
    decreases |jobs|
  {
    && |jobs| == |runs|
    && if jobs == [] then
         && Clean(depth, nodes)
         && (forall p :: p in nodes ==> NoHistory(nodes[p]) && nodes[p].state == 0)
       else
         var n := |jobs| - 1;
         && jobs[n].depth == depth && Complete(jobs[n], runs[n])
         && nodes == Forgotten(runs[n][|runs[n]| - 1].nodes)
         && TreeAfter(depth, jobs[..n], runs[..n], runs[n][0].nodes)
  }

  // ----- Counting the chunks -----

  /** The chunk spreads over more than one leaf. */
  ghost predicate Long(job: Job) {
    job.hs > 0 && Last(job) > 0
  }

  ghost function Longs(jobs: seq<Job>): nat {
    if jobs == [] then 0
    else Longs(jobs[..|jobs| - 1]) + if Long(jobs[|jobs| - 1]) then 1 else 0
  }

  /** Two arrivals meet at the node. */
  ghost predicate MeetAt(job: Job, p: Pos) {
    job.hs > 0 && PlanFor(job).Ok() && Used(PlanFor(job), p) && Binary(PlanFor(job), p)
  }

  ghost function Meets(jobs: seq<Job>, p: Pos): nat {
    if jobs == [] then 0
    else Meets(jobs[..|jobs| - 1], p) + if MeetAt(jobs[|jobs| - 1], p) then 1 else 0
  }

  lemma {:induction false} AncOfZero(k: nat)
    ensures Anc(0, k) == 0
  {
    if k > 0 { AncOfZero(k - 1); }
  }

  /** Arrivals meet only in a chunk of several leaves, and then at the first two leaves. */
  lemma LongMeets(job: Job, p: Pos)
    requires Fits(job)
    ensures MeetAt(job, p) ==> Long(job)
    ensures MeetAt(job, Pos(1, 0)) <==> Long(job)
  {
    JobValues(job);
    if p.height > 0 { AncOfZero(p.height - 1); }
    AncOfZero(0);
    if Long(job) {
      var plan := PlanFor(job);
      assert Anc(plan.Last(), 0) == plan.Last();
      assert plan.Top() == TopFrom(plan.Last(), 1);
    }
  }

  lemma {:induction false} MeetsBound(jobs: seq<Job>, p: Pos)
    requires forall job :: job in jobs ==> Fits(job)
    ensures Meets(jobs, p) <= Longs(jobs) == Meets(jobs, Pos(1, 0))
  {
    if jobs != [] {
      MeetsBound(jobs[..|jobs| - 1], p);
      LongMeets(jobs[|jobs| - 1], p);
    }
  }

  /** The 32-bit counter after so many pairs, up to the first wrap. */
  function Counter(k: nat): int {
    if k < WRAP then 2 * k else -INT32_MAX - 1
  }

  lemma {:induction false} AllFit(depth: nat, jobs: seq<Job>, runs: seq<seq<State>>, nodes: Nodes)
    requires TreeAfter(depth, jobs, runs, nodes)
    ensures forall job :: job in jobs ==> Fits(job)
    decreases |jobs|
  {
    if jobs != [] {
      var n := |jobs| - 1;
      AllFit(depth, jobs[..n], runs[..n], runs[n][0].nodes);
      assert jobs == jobs[..n] + [jobs[n]];
    }
  }

  // ----- Every counter, over every history -----

  ghost predicate Tracked(depth: nat, jobs: seq<Job>, nodes: Nodes) {
    && Clean(depth, nodes)
    && (forall p :: p in nodes ==> NoHistory(nodes[p]))
    && (forall p {:trigger CountedAt(jobs, nodes, p)} :: CountedAt(jobs, nodes, p))
  }

  ghost predicate CountedAt(jobs: seq<Job>, nodes: Nodes, p: Pos) {
    p in nodes ==> nodes[p].state == Counter(Meets(jobs, p))
  }

  /** A chunk of one leaf is safe on every tree, a longer one before the first wrap. */
  lemma NextStarts(depth: nat, jobs: seq<Job>, nodes: Nodes, job: Job, run: seq<State>)
    requires forall j :: j in jobs ==> Fits(j)
    requires Tracked(depth, jobs, nodes) && Fits(job) && job.depth == depth
    requires Longs(jobs) < WRAP || !Long(job)
    requires AnyRun(PlanFor(job), run) && run[0].nodes == nodes
    ensures Run(PlanFor(job), run)
  {
    var plan := PlanFor(job);
    forall p ensures UnwrappedAt(plan, nodes, p) {
      assert CountedAt(jobs, nodes, p);
      MeetsBound(jobs, p);
      LongMeets(job, p);
    }
  }

  lemma ForgottenClean(depth: nat, nodes: Nodes)
    requires Clean(depth, nodes)
    ensures var r := Forgotten(nodes);
            Clean(depth, r) && forall p :: p in r ==> NoHistory(r[p]) && r[p].state == nodes[p].state
  {
    var r := Forgotten(nodes);
    forall p | p in r ensures CleanNode(depth, p, r[p]) {
      assert CleanNode(depth, p, nodes[p]);
    }
  }

  /** What one completed chunk leaves. */
  lemma NextCounts(depth: nat, job: Job, run: seq<State>)
    requires Complete(job, run) && job.depth == depth && Run(PlanFor(job), run)
    ensures var nodes := run[|run| - 1].nodes;
            && Clean(depth, nodes) && nodes.Keys == run[0].nodes.Keys
            && forall p :: p in nodes ==>
                 nodes[p].state == if MeetAt(job, p) then Add32(Add32(run[0].nodes[p].state)) else run[0].nodes[p].state
  {
    WidthDouble(job.hs, 0, job.depth);
    HasherMatchesReference(job, job.depth, run);
  }

  /** One more chunk moves every counter on. */
  lemma NextTracked(depth: nat, jobs: seq<Job>, job: Job, run: seq<State>)
    requires forall j :: j in jobs ==> Fits(j)
    requires Complete(job, run) && job.depth == depth && Tracked(depth, jobs, run[0].nodes)
    requires Longs(jobs) < WRAP || !Long(job)
    ensures Tracked(depth, jobs + [job], Forgotten(run[|run| - 1].nodes))
  {
    var nodes := run[|run| - 1].nodes;
    NextStarts(depth, jobs, run[0].nodes, job, run);
    NextCounts(depth, job, run);
    ForgottenClean(depth, nodes);
    assert (jobs + [job])[..|jobs|] == jobs;
    forall p ensures CountedAt(jobs + [job], Forgotten(nodes), p) {
      assert CountedAt(jobs, run[0].nodes, p);
      MeetsBound(jobs, p);
      LongMeets(job, p);
    }
  }

  lemma {:induction false} HistoryTracked(depth: nat, jobs: seq<Job>, runs: seq<seq<State>>, nodes: Nodes)
    requires TreeAfter(depth, jobs, runs, nodes) && Longs(jobs) <= WRAP
    ensures Tracked(depth, jobs, nodes)
    decreases |jobs|
  {
    if jobs != [] {
      var n := |jobs| - 1;
      HistoryTracked(depth, jobs[..n], runs[..n], runs[n][0].nodes);
      AllFit(depth, jobs[..n], runs[..n], runs[n][0].nodes);
      NextTracked(depth, jobs[..n], jobs[n], runs[n]);
      assert jobs == jobs[..n] + [jobs[n]];
    }
  }

  // ----- Every sum until the first wrap -----

  /** The result of a run, once there is one, is the reference hash. */
  ghost predicate Right(job: Job, m: nat, run: seq<State>) {
    job.hs > 0 && |run| > 0 && |job.data| <= 2 * Width(job.hs, m) ==>
      var main := run[|run| - 1].main;
      main.Got? || main.Released? ==> main.sum == RefHash(job.H, job.hs, job.data, m)
  }

  /** After any history with at most WRAP long chunks, the next chunk is hashed right in
      every order of steps if it has one leaf or the history has fewer than WRAP long ones. */
  lemma NextRight(depth: nat, jobs: seq<Job>, runs: seq<seq<State>>, nodes: Nodes,
                  job: Job, m: nat, run: seq<State>)
    requires TreeAfter(depth, jobs, runs, nodes) && Longs(jobs) <= WRAP
    requires Longs(jobs) < WRAP || !Long(job)
    requires Fits(job) && job.depth == depth && AnyRun(PlanFor(job), run) && run[0].nodes == nodes
    ensures Right(job, m, run)
  {
    HistoryTracked(depth, jobs, runs, nodes);
    AllFit(depth, jobs, runs, nodes);
    NextStarts(depth, jobs, nodes, job, run);
    if |job.data| <= 2 * Width(job.hs, m) {
      HasherMatchesReference(job, m, run);
    }
  }

  /** Every sum of the history itself is right. */
  lemma {:induction false} HistoryRight(depth: nat, jobs: seq<Job>, runs: seq<seq<State>>, nodes: Nodes,
                                        i: nat, m: nat)
    requires TreeAfter(depth, jobs, runs, nodes) && Longs(jobs) <= WRAP && i < |jobs|
    ensures Right(jobs[i], m, runs[i])
    decreases |jobs|
  {
    var n := |jobs| - 1;
    if i == n {
      NextRight(depth, jobs[..n], runs[..n], runs[n][0].nodes, jobs[n], m, runs[n]);
    } else {
      HistoryRight(depth, jobs[..n], runs[..n], runs[n][0].nodes, i, m);
    }
  }

  // ----- The wrapped run -----

  lemma Extend(plan: Plan, run: seq<State>, s: State)
    requires AnyRun(plan, run) && Next(plan, run[|run| - 1], s)
    ensures AnyRun(plan, run + [s])
  {
    var longer := run + [s];
    forall i | 0 <= i < |longer| - 1 ensures Next(plan, longer[i], longer[i + 1]) {
      if i < |run| - 1 { assert Next(plan, run[i], run[i + 1]); }
    }
  }

  lemma ByMain(plan: Plan, run: seq<State>) returns (longer: seq<State>)
    requires AnyRun(plan, run) && MainEnabled(plan, run[|run| - 1])
    ensures AnyRun(plan, longer) && |longer| > 1 && longer[0] == run[0]
    ensures longer[|longer| - 1] == MainStep(plan, run[|run| - 1])
  {
    longer := run + [MainStep(plan, run[|run| - 1])];
    Extend(plan, run, longer[|run|]);
  }

  lemma ByThread(plan: Plan, run: seq<State>, t: nat) returns (longer: seq<State>)
    requires AnyRun(plan, run) && t < |run[|run| - 1].threads| && Enabled(run[|run| - 1], t)
    ensures AnyRun(plan, longer) && |longer| > 1 && longer[0] == run[0]
    ensures longer[|longer| - 1] == ThreadStep(plan, run[|run| - 1], t)
  {
    longer := run + [ThreadStep(plan, run[|run| - 1], t)];
    Extend(plan, run, longer[|run|]);
  }

  /** A chunk of two leaves, the second too long to be kept unhashed. */
  ghost predicate TwoLeaves(job: Job) {
    Fits(job) && Last(job) == 1 && |Chunk(job, 0, 1)| > job.hs
  }

  lemma TwoLeafPlan(job: Job)
    requires TwoLeaves(job)
    ensures var plan := PlanFor(job);
            && plan.Ok() && plan.Last() == 1 && plan.depth > 0 && plan.Start() == 1
            && plan.Direct(0) && plan.Direct(1) && plan.segs[1] == Chunk(job, 0, 1)
  {
    JobValues(job);
    FullLeaf(job, 0);
    var plan := PlanFor(job);
    assert Anc(1, 0) == 1;
    assert plan.Top() == TopFrom(1, 1);
  }

  /** The caller has launched both goroutines and waits. */
  ghost predicate BothLaunched(plan: Plan, nodes: Nodes, s: State) {
    var top := Pos(1, 0);
    && plan.Ok() && plan.Last() == 1
    && s.main == Wait && s.nodes.Keys == nodes.Keys && top in nodes && Pos(0, 1) in nodes
    && |s.threads| == 2 && s.threads[1] == Segment(Pos(0, 1), 0, plan.segs[1])
    && !s.nodes[Pos(0, 1)].root
    && s.nodes[top].root && !s.nodes[top].unbalanced
    && s.nodes[top].left == nodes[top].left && s.nodes[top].state == nodes[top].state
  }

  lemma LaunchBoth(job: Job, nodes: Nodes) returns (run: seq<State>)
    requires TwoLeaves(job) && Begins(PlanFor(job), State(nodes, [], Launch(0)))
    ensures AnyRun(PlanFor(job), run) && run[0].nodes == nodes
    ensures BothLaunched(PlanFor(job), nodes, run[|run| - 1])
  {
    var plan := PlanFor(job);
    TwoLeafPlan(job);
    assert InTree(job.depth, Pos(0, 0)) && InTree(job.depth, Pos(0, 1)) && InTree(job.depth, Pos(1, 0));
    assert CleanNode(job.depth, Pos(0, 1), nodes[Pos(0, 1)]);
    run := ByMain(plan, [State(nodes, [], Launch(0))]);
    run := ByMain(plan, run);
    assert run[|run| - 1].main == Finalise(Pos(1, 0), false, 0);
    run := ByMain(plan, run);
    run := ByMain(plan, run);
  }

  /** The second goroutine alone carries on to the caller. */
  lemma Overtake(plan: Plan, nodes: Nodes, start: seq<State>) returns (run: seq<State>)
    requires AnyRun(plan, start) && BothLaunched(plan, nodes, start[|start| - 1])
    requires !Waits(nodes[Pos(1, 0)].state)
    ensures AnyRun(plan, run) && run[0] == start[0]
    ensures run[|run| - 1].main == Got(plan.H(nodes[Pos(1, 0)].left + plan.H(plan.segs[1])))
  {
    var top := Pos(1, 0);
    run := ByThread(plan, start, 1);
    assert run[|run| - 1].threads[1] == Store(top, false, 1, 0, plan.H(plan.segs[1]));
    run := ByThread(plan, run, 1);
    run := ByThread(plan, run, 1);
    assert run[|run| - 1].threads[1] == Toggle(top, false, 1, 0);
    run := ByThread(plan, run, 1);
    run := ByThread(plan, run, 1);
    run := ByThread(plan, run, 1);
  }

  /** On a wrapped counter the second leaf is combined with what an earlier chunk left in
      the tree, whatever the first leaf holds. */
  lemma WrappedRun(job: Job, nodes: Nodes) returns (run: seq<State>)
    requires TwoLeaves(job) && Clean(job.depth, nodes) && Pos(1, 0) in nodes && nodes[Pos(1, 0)].state < 0
    requires forall p :: p in nodes ==> NoHistory(nodes[p])
    ensures AnyRun(PlanFor(job), run) && run[0].nodes == nodes
    ensures run[|run| - 1].main == Got(job.H(nodes[Pos(1, 0)].left + job.H(Chunk(job, 0, 1))))
  {
    TwoLeafPlan(job);
    assert CleanNode(job.depth, Pos(1, 0), nodes[Pos(1, 0)]);
    TogglePairs(nodes[Pos(1, 0)].state);
    run := LaunchBoth(job, nodes);
    run := Overtake(PlanFor(job), nodes, run);
  }

  // ----- Exactly how long a tree may be used -----

  /** Every chunk, under every base hash or every one whose sums are a segment long, and in
      every order of steps, gets its reference hash. */
  ghost predicate AlwaysRight(depth: nat, nodes: Nodes, sized: bool) {
    forall job, m: nat, run: seq<State> {:trigger Right(job, m, run)} ::
      Fits(job) && job.depth == depth && AnyRun(PlanFor(job), run) && run[0].nodes == nodes ==>
        (sized ==> Sized(job.H, job.hs)) ==> Right(job, m, run)
  }

  lemma {:induction false} LongNeedsLevels(depth: nat, jobs: seq<Job>, runs: seq<seq<State>>, nodes: Nodes)
    requires TreeAfter(depth, jobs, runs, nodes) && Longs(jobs) > 0
    ensures depth > 0
    decreases |jobs|
  {
    var n := |jobs| - 1;
    if Long(jobs[n]) {
      TopWithinTree(jobs[n]);
      assert Anc(Last(jobs[n]), 0) > 0;
    } else {
      LongNeedsLevels(depth, jobs[..n], runs[..n], runs[n][0].nodes);
    }
  }

  /** Four bytes on two leaves of one-byte segments, hashed by their checksum. */
  lemma WrongChunk(depth: nat, stale: Bytes) returns (job: Job)
    requires depth > 0
    ensures TwoLeaves(job) && job.depth == depth && |job.data| <= 2 * Width(job.hs, 0) && Sized(job.H, job.hs)
    ensures job.H(stale + job.H(Chunk(job, 0, 1))) != RefHash(job.H, job.hs, job.data, 0)
  {
    var x: Byte := if Sum(stale) % 256 == 0 then 1 else 0;
    job := Job(Checksum(1), 1, depth, [x, 0, 0, 0]);
    var d := job.data;
    WidthDouble(1, 1, depth);
    assert Last(job) == 1 + LeafAt(2, 2);
    assert d[2..] == [0, 0] && Chunk(job, 0, 1) == d[2..];
    ChecksumRefHash(1, d, 0);
    ChecksumSized(1);
    assert Sum(d) == x && Sum(d[2..]) == 0 by {
      assert d == [x] + Zeros(3) && d[2..] == Zeros(2) && [x][..0] == [];
      SumConcat([x], Zeros(3));
      SumZeros(3);
      SumZeros(2);
    }
    SumChecksum(1, d[2..]);
    SumConcat(stale, Checksum(1)(d[2..]));
  }

  /** A tree that has hashed at most WRAP chunks of several leaves hashes every further
      chunk right exactly if it has hashed fewer than WRAP of them; base hashes of the right
      length suffice to see it fail. */
  lemma ReuseExact(depth: nat, jobs: seq<Job>, runs: seq<seq<State>>, nodes: Nodes, sized: bool)
    requires TreeAfter(depth, jobs, runs, nodes) && Longs(jobs) <= WRAP
    ensures AlwaysRight(depth, nodes, sized) <==> Longs(jobs) < WRAP
  {
    if Longs(jobs) < WRAP {
      forall job, m: nat, run: seq<State> | Fits(job) && job.depth == depth && AnyRun(PlanFor(job), run) && run[0].nodes == nodes
        ensures Right(job, m, run)
      {
        NextRight(depth, jobs, runs, nodes, job, m, run);
      }
    } else {
      var p := Pos(1, 0);
      HistoryTracked(depth, jobs, runs, nodes);
      AllFit(depth, jobs, runs, nodes);
      MeetsBound(jobs, p);
      LongNeedsLevels(depth, jobs, runs, nodes);
      assert InTree(depth, p) && CountedAt(jobs, nodes, p);
      var job := WrongChunk(depth, nodes[p].left);
      var run := WrappedRun(job, nodes);
      assert !Right(job, 0, run);
    }
  }

  // ----- Such histories exist -----

  /** Every run can be carried on until the tree is released. */
  lemma {:induction false} RunOn(job: Job, run: seq<State>) returns (full: seq<State>)
    requires Fits(job) && Run(PlanFor(job), run)
    ensures Run(PlanFor(job), full) && full[0] == run[0] && full[|full| - 1].main.Released?
    decreases Rank(PlanFor(job), run[0]) + 1 - |run|
  {
    var plan, s := PlanFor(job), run[|run| - 1];
    WidthDouble(job.hs, 0, job.depth);
    HasherMatchesReference(job, job.depth, run);
    if s.main.Released? {
      full := run;
    } else {
      var s' := SomeNext(plan, s);
      Extend(plan, run, s');
      HasherMatchesReference(job, job.depth, run + [s']);
      full := RunOn(job, run + [s']);
    }
  }

  /** A tree can be brought to any number of long chunks up to WRAP, the first wrap included. */
  lemma {:induction false} HistoryExists(depth: nat, nodes: Nodes, job: Job, n: nat)
      returns (jobs: seq<Job>, runs: seq<seq<State>>, end: Nodes)
    requires TreeAfter(depth, [], [], nodes) && Fits(job) && job.depth == depth && Long(job) && n <= WRAP
    ensures TreeAfter(depth, jobs, runs, end) && Longs(jobs) == n
  {
    if n == 0 {
      jobs, runs, end := [], [], nodes;
    } else {
      jobs, runs, end := HistoryExists(depth, nodes, job, n - 1);
      HistoryTracked(depth, jobs, runs, end);
      AllFit(depth, jobs, runs, end);
      JobValues(job);
      var start := [State(end, [], Launch(0))];
      NextStarts(depth, jobs, end, job, start);
      var full := RunOn(job, start);
      assert (jobs + [job])[..|jobs|] == jobs && (runs + [full])[..|runs|] == runs;
      jobs, runs, end := jobs + [job], runs + [full], Forgotten(full[|full| - 1].nodes);
    }
  }
}
