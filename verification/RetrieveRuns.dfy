/** What every run of a retrieval comes to: how it ends, whose reply decides, and when it is stuck. */
module RetrieveRuns {
  import opened Retrieve
  import opened RetrieveProof

  // ----- States of a run -----

  ghost predicate RunOf(steps: seq<Step>) { Runs(Initial(), steps) }

  /** The state before step `i`. */
  ghost function At(steps: seq<Step>, i: nat): State
    requires i <= |steps| && RunOf(steps[..i])
  {
    End(Initial(), steps[..i])
  }

  lemma {:induction false} CutAt(s: State, steps: seq<Step>, i: nat)
    requires Runs(s, steps) && i < |steps|
    ensures Runs(s, steps[..i]) && Can(End(s, steps[..i]), steps[i])
    ensures Runs(s, steps[..i + 1]) && End(s, steps[..i + 1]) == Apply(End(s, steps[..i]), steps[i])
    decreases |steps|
  {
    if i > 0 {
      assert steps[..i][1..] == steps[1..][..i - 1] && steps[..i + 1][1..] == steps[1..][..i];
      CutAt(Apply(s, steps[0]), steps[1..], i - 1);
    } else {
      assert steps[..1][1..] == [];
    }
  }

  lemma StepAt(steps: seq<Step>, i: nat)
    requires RunOf(steps) && i < |steps|
    ensures RunOf(steps[..i]) && Can(At(steps, i), steps[i])
    ensures RunOf(steps[..i + 1]) && At(steps, i + 1) == Apply(At(steps, i), steps[i])
  {
    CutAt(Initial(), steps, i);
  }

  lemma Prefix(steps: seq<Step>, i: nat)
    requires RunOf(steps) && i <= |steps|
    ensures RunOf(steps[..i])
  {
    if i < |steps| { StepAt(steps, i); } else { assert steps[..i] == steps; }
  }

  lemma InvAt(steps: seq<Step>, i: nat)
    requires RunOf(steps) && i <= |steps|
    ensures RunOf(steps[..i]) && Inv(At(steps, i))
  {
    Prefix(steps, i);
    InitialInv();
    RunKeeps(Initial(), steps[..i]);
  }

  /** The loop ends only when the retrieval is stopped. */
  ghost predicate Ended(s: State) { s.loop.Stopped? || s.loop.Exited? ==> s.stopped }

  lemma EndedAt(steps: seq<Step>, i: nat)
    requires RunOf(steps) && i <= |steps|
    ensures RunOf(steps[..i]) && Ended(At(steps, i))
  {
    InvAt(steps, i);
  }

  // ----- What a step leaves alone -----

  /** Apart from what the loop knows of it, a goroutine is as before. */
  ghost predicate SameThread(s: State, s': State, g: nat) {
    && g < |s.threads| && g < |s'.threads|
    && s'.threads[g] == s.threads[g].(seen := s'.threads[g].seen, heard := s'.threads[g].heard)
  }

  lemma TakeFrame(s: State, g: nat)
    requires s.events != [] && g < |s.threads|
    ensures SameThread(s, Take(s), g) && |Take(s).threads| == |s.threads|
  {
  }

  lemma LoopFrame(s: State, g: nat)
    requires s.events != [] && !s.loop.Exited? && g < |s.threads|
    ensures SameThread(s, LoopEvent(s), g)
  {
    TakeFrame(s, g);
  }

  const FRESH: Thread := Thread(Queued, None, None, Fresh, None)

  /** At most one goroutine is started. */
  ghost predicate OneMore(before: seq<Thread>, after: seq<Thread>) {
    |after| == |before| || (|after| == |before| + 1 && after[|before|] == FRESH)
  }

  lemma LoopThreads(s: State)
    requires s.events != [] && !s.loop.Exited?
    ensures OneMore(s.threads, LoopEvent(s).threads)
  {
    assert |Take(s).threads| == |s.threads|;
  }

  lemma StepThreads(s: State, step: Step)
    requires Can(s, step)
    ensures OneMore(s.threads, Apply(s, step).threads)
  {
    if step.TakeEvent? { LoopThreads(s); }
  }

  /** The goroutine's own step, or a delivery to it. */
  ghost predicate Concerns(s: State, step: Step, g: nat) {
    match step
    case Deliver(p, _) => p in s.sentTo && s.sentTo[p].owner == g
    case StopExternal(_) => false
    case TakeEvent => false
    case TakeStop => false
    case RetryTimer => false
    case Drained => false
    case _ => step.g == g
  }

  lemma ThreadFrame(s: State, step: Step, g: nat)
    requires Can(s, step) && g < |s.threads| && !Concerns(s, step, g)
    ensures SameThread(s, Apply(s, step), g)
  {
    if step.TakeEvent? { LoopFrame(s, g); }
  }

  // ----- The loop asks again -----

  /** While the loop is requesting, the newest goroutine has not timed out: another has been
      started then. If it is over, the loop has heard of an invalid reply. With no more peers, it
      has heard that nobody could be asked. */
  ghost predicate Asks(s: State) {
    s.threads != [] ==>
      var t := s.threads[|s.threads| - 1];
      && (s.loop.Requesting? ==> !t.seen.TimedOut? && (t.seen.Gone? ==> t.heard == Some(RpDeliveredInvalid)))
      && (s.loop.NoMorePeers? ==> t.seen.Gone? && t.heard == Some(RpSent))
  }

  /** The event is from a goroutine whose view allows it, and a first one or a soft timeout from
      the newest. */
  ghost predicate Expected(s: State, e: Event) {
    && e.src < |s.threads| && Legal(s.threads[e.src].seen, e)
    && (e.kind.RpSent? || e.kind.RpSoftTimeout? ==> e.src == |s.threads| - 1)
  }

  lemma AsksOnEvent(s: State)
    requires Asks(s) && s.events != [] && !s.loop.Exited? && Expected(s, s.events[0])
    ensures Asks(LoopEvent(s))
  {
  }

  lemma AsksKept(s: State, step: Step)
    requires Asks(s) && Can(s, step) && (step.TakeEvent? ==> Expected(s, s.events[0]))
    ensures Asks(Apply(s, step))
  {
    if step.TakeEvent? { AsksOnEvent(s); }
  }

  lemma ExpectedAt(steps: seq<Step>, i: nat)
    requires RunOf(steps) && i <= |steps|
    ensures RunOf(steps[..i]) && (At(steps, i).events != [] ==> Expected(At(steps, i), At(steps, i).events[0]))
  {
    InvAt(steps, i);
    if At(steps, i).events != [] { NextEvent(At(steps, i)); }
  }

  lemma {:induction false} AsksAt(steps: seq<Step>, i: nat)
    requires RunOf(steps) && i <= |steps|
    ensures RunOf(steps[..i]) && Asks(At(steps, i))
  {
    Prefix(steps, i);
    if i > 0 {
      AsksAt(steps, i - 1);
      ExpectedAt(steps, i - 1);
      StepAt(steps, i - 1);
      AsksKept(At(steps, i - 1), steps[i - 1]);
    }
  }

  // ----- How it ends -----

  /** Neither the context nor a shutdown stops the first `n` steps. */
  ghost predicate Undisturbed(steps: seq<Step>, n: nat) { forall j :: 0 <= j < |steps| && j < n ==> !steps[j].StopExternal? }

  /** Undisturbed, the only error is that there are no peers, and it ends the loop at once. */
  ghost predicate OnlyNoPeers(s: State) {
    s.stopped && s.err != None ==> s.err == Some(ERR_NO_PEERS) && s.loop.Exited?
  }

  lemma NoPeersStep(s: State, step: Step)
    requires OnlyNoPeers(s) && Can(s, step) && !step.StopExternal?
    ensures OnlyNoPeers(Apply(s, step))
  {
  }

  lemma {:induction false} NoPeersAt(steps: seq<Step>, i: nat)
    requires RunOf(steps) && i <= |steps| && Undisturbed(steps, i)
    ensures RunOf(steps[..i]) && OnlyNoPeers(At(steps, i))
  {
    Prefix(steps, i);
    if i > 0 {
      NoPeersAt(steps, i - 1);
      StepAt(steps, i - 1);
      NoPeersStep(At(steps, i - 1), steps[i - 1]);
    }
  }

  lemma SettledLoop(s: State)
    requires s.stopped && s.events != [] && !s.loop.Exited?
    ensures LoopEvent(s).stopped && LoopEvent(s).err == s.err
  {
    assert Take(s).stopped && Take(s).err == s.err;
  }

  lemma SettledStep(s: State, step: Step)
    requires s.stopped && Can(s, step)
    ensures Apply(s, step).stopped && Apply(s, step).err == s.err
  {
    if step.TakeEvent? { SettledLoop(s); }
  }

  /** Once stopped, the result is settled. */
  lemma {:induction false} Settled(steps: seq<Step>, i: nat, n: nat)
    requires RunOf(steps) && i <= n <= |steps| && RunOf(steps[..i]) && At(steps, i).stopped
    ensures RunOf(steps[..n]) && At(steps, n).stopped && At(steps, n).err == At(steps, i).err
    decreases n
  {
    Prefix(steps, n);
    if i < n {
      Settled(steps, i, n - 1);
      StepAt(steps, n - 1);
      SettledStep(At(steps, n - 1), steps[n - 1]);
    }
  }

  ghost predicate TakesValid(s: State, step: Step) {
    step.TakeEvent? && s.events != [] && s.events[0].kind.RpDeliveredValid?
  }

  lemma TakesAndStops(s: State)
    requires Ended(s) && Can(s, TakeEvent) && TakesValid(s, TakeEvent)
    ensures Apply(s, TakeEvent).stopped && (OnlyNoPeers(s) ==> Apply(s, TakeEvent).err == None)
  {
  }

  /** Once the loop has taken the event of a valid reply, the retrieval is stopped, and without
      error unless it was stopped from outside before. */
  lemma ValidEventStops(steps: seq<Step>, i: nat)
    requires RunOf(steps) && i < |steps| && RunOf(steps[..i]) && TakesValid(At(steps, i), steps[i])
    ensures var s := End(Initial(), steps); s.stopped && (Undisturbed(steps, i) ==> s.err == None)
  {
    StepAt(steps, i);
    EndedAt(steps, i);
    TakesAndStops(At(steps, i));
    if Undisturbed(steps, i) { NoPeersAt(steps, i); }
    Settled(steps, i + 1, |steps|);
    assert steps[..|steps|] == steps;
  }

  // ----- The reply that decides -----

  /** A goroutine reads a valid reply. */
  ghost predicate ReadsValid(s: State, step: Step) {
    step.Reply? && step.g < |s.threads| && s.threads[step.g].valid == Some(true)
  }

  ghost predicate ReadsValidAt(steps: seq<Step>, i: nat) {
    i < |steps| && RunOf(steps[..i]) && ReadsValid(At(steps, i), steps[i])
  }

  /** Its event is due, on its way, or has ended the retrieval. */
  ghost predicate DueAt(s: State, g: nat) {
    g < |s.threads| && s.threads[g].phase.FinalDue? && s.threads[g].phase.kind.RpDeliveredValid?
  }

  ghost predicate Coming(s: State, i: nat) { i < |s.events| && s.events[i].kind.RpDeliveredValid? }

  ghost predicate Answered(s: State) {
    (exists g: nat :: DueAt(s, g)) || (exists i: nat :: Coming(s, i)) || (s.stopped && s.err == None)
  }

  lemma DueKept(s: State, step: Step, g: nat)
    requires Can(s, step) && DueAt(s, g)
    ensures DueAt(Apply(s, step), g) || Coming(Apply(s, step), |s.events|)
  {
    if !Concerns(s, step, g) { ThreadFrame(s, step, g); }
  }

  lemma ComingKept(s: State, step: Step, i: nat)
    requires Ended(s) && OnlyNoPeers(s) && Can(s, step) && !step.StopExternal? && Coming(s, i)
    ensures var s' := Apply(s, step);
            Coming(s', i) || (i > 0 && Coming(s', i - 1)) || (s'.stopped && s'.err == None)
  {
    if step.TakeEvent? && i == 0 { TakesAndStops(s); }
  }

  lemma AnsweredKept(s: State, step: Step)
    requires Ended(s) && OnlyNoPeers(s) && Can(s, step) && !step.StopExternal? && Answered(s)
    ensures Answered(Apply(s, step))
  {
    if g: nat :| DueAt(s, g) {
      DueKept(s, step, g);
    } else if i: nat :| Coming(s, i) {
      ComingKept(s, step, i);
    } else {
      SettledStep(s, step);
    }
  }

  lemma NewlyDue(s: State, step: Step, g: nat)
    requires Can(s, step) && DueAt(Apply(s, step), g)
    ensures DueAt(s, g) || (step == Reply(g) && ReadsValid(s, step))
  {
    StepThreads(s, step);
    if Concerns(s, step, g) { OwnDue(s, step, g); } else { ThreadFrame(s, step, g); }
  }

  lemma OwnDue(s: State, step: Step, g: nat)
    requires Can(s, step) && Concerns(s, step, g) && DueAt(Apply(s, step), g)
    ensures DueAt(s, g) || (step == Reply(g) && ReadsValid(s, step))
  {
  }

  lemma NewlyComing(s: State, step: Step, i: nat)
    requires Can(s, step) && Coming(Apply(s, step), i)
    ensures Coming(s, i) || Coming(s, i + 1) || (step.PushFinal? && DueAt(s, step.g))
  {
  }

  lemma NewlyStopped(s: State, step: Step)
    requires Can(s, step) && !step.StopExternal? && Apply(s, step).stopped && Apply(s, step).err == None
    ensures (s.stopped && s.err == None) || Coming(s, 0)
  {
  }

  lemma AnsweredBy(s: State, step: Step)
    requires Can(s, step) && !step.StopExternal? && !Answered(s)
    ensures Answered(Apply(s, step)) <==> ReadsValid(s, step)
  {
    var s' := Apply(s, step);
    if ReadsValid(s, step) {
      assert DueAt(s', step.g);
    } else {
      forall g: nat ensures !DueAt(s', g) { if DueAt(s', g) { NewlyDue(s, step, g); } }
      forall i: nat ensures !Coming(s', i) { if Coming(s', i) { NewlyComing(s, step, i); } }
      if s'.stopped && s'.err == None { NewlyStopped(s, step); }
    }
  }

  lemma AnsweredNext(steps: seq<Step>, i: nat)
    requires RunOf(steps) && i < |steps| && Undisturbed(steps, i + 1)
    ensures RunOf(steps[..i]) && RunOf(steps[..i + 1])
    ensures Answered(At(steps, i + 1)) <==> Answered(At(steps, i)) || ReadsValidAt(steps, i)
  {
    NoPeersAt(steps, i);
    EndedAt(steps, i);
    StepAt(steps, i);
    var s, step := At(steps, i), steps[i];
    if Answered(s) { AnsweredKept(s, step); } else { AnsweredBy(s, step); }
  }

  lemma {:induction false} AnsweredAt(steps: seq<Step>, n: nat)
    requires RunOf(steps) && n <= |steps| && Undisturbed(steps, n)
    ensures RunOf(steps[..n]) && (Answered(At(steps, n)) <==> exists i: nat :: i < n && ReadsValidAt(steps, i))
  {
    Prefix(steps, n);
    if n > 0 {
      AnsweredAt(steps, n - 1);
      AnsweredNext(steps, n - 1);
    }
  }

  /** The result of every retrieval that is not stopped from outside: no error exactly if some
      goroutine read a valid reply, and otherwise that there are no peers. */
  lemma RunResult(steps: seq<Step>)
    requires RunOf(steps) && End(Initial(), steps).loop.Exited? && Undisturbed(steps, |steps|)
    ensures var s := End(Initial(), steps);
            && s.stopped && (s.err == None || s.err == Some(ERR_NO_PEERS))
            && (s.err == None <==> exists i: nat :: ReadsValidAt(steps, i))
  {
    assert steps[..|steps|] == steps;
    RunOutcome(steps);
    EndedAt(steps, |steps|);
    NoPeersAt(steps, |steps|);
    AnsweredAt(steps, |steps|);
    var s := End(Initial(), steps);
    forall g: nat ensures !DueAt(s, g) { assert g < |s.threads| ==> !Live(s.threads[g].phase); }
  }

  // ----- From a delivery to the result -----

  /** The goroutine can still read a reply. */
  predicate Open(p: Phase) { p.Dispatched? || p.Waiting? || p.SoftDue? || p.Soft? }

  /** The reply of the goroutine's peer is in its channel. */
  ghost predicate Kept(s: State, g: nat, p: Peer, ok: bool) {
    && g < |s.threads| && Open(s.threads[g].phase) && s.threads[g].phase.peer == p && s.threads[g].valid == Some(ok)
    && p in s.sentTo && s.sentTo[p] == SentEntry(true, g)
  }

  lemma Delivers(s: State, p: Peer, ok: bool)
    requires Inv(s) && Can(s, Deliver(p, ok)) && Open(s.threads[s.sentTo[p].owner].phase)
    ensures Kept(Apply(s, Deliver(p, ok)), s.sentTo[p].owner, p, ok)
  {
    assert EntryOk(s, p);
  }

  /** The entry stays, since only its goroutine removes it. */
  ghost predicate OwnsPeer(s: State, p: Peer) {
    forall h :: 0 <= h < |s.threads| && s.threads[h].phase.Cleanup? && s.threads[h].phase.peer == p && p in s.sentTo ==>
      s.sentTo[p].owner == h
  }

  lemma OwnersAt(steps: seq<Step>, i: nat, p: Peer)
    requires RunOf(steps) && i <= |steps|
    ensures RunOf(steps[..i]) && OwnsPeer(At(steps, i), p)
    ensures forall q :: q in At(steps, i).sentTo ==> EntryOk(At(steps, i), q)
  {
    InvAt(steps, i);
    var s := At(steps, i);
    forall h | 0 <= h < |s.threads| && s.threads[h].phase.Cleanup? && s.threads[h].phase.peer == p && p in s.sentTo
      ensures s.sentTo[p].owner == h { assert ThreadOk(s, h); }
  }

  lemma OpenStep(s: State, step: Step, g: nat)
    requires g < |s.threads| && Open(s.threads[g].phase) && Can(s, step) && step != Reply(g) && step != HardTimer(g)
    requires step.Deliver? ==> s.sentTo[step.peer].owner != g
    ensures var s' := Apply(s, step);
            && g < |s'.threads| && Open(s'.threads[g].phase) && s'.threads[g].phase.peer == s.threads[g].phase.peer
            && s'.threads[g].valid == s.threads[g].valid
  {
    if !Concerns(s, step, g) { ThreadFrame(s, step, g); }
  }

  lemma EntryStep(s: State, step: Step, p: Peer)
    requires p in s.sentTo && s.sentTo[p].delivered && Can(s, step)
    requires step.Clean? ==> s.threads[step.g].phase.peer != p
    ensures p in Apply(s, step).sentTo && Apply(s, step).sentTo[p] == s.sentTo[p]
  {
    if step.TakeEvent? { LoopEntries(s); }
  }

  lemma LoopEntries(s: State)
    requires s.events != [] && !s.loop.Exited?
    ensures LoopEvent(s).sentTo == s.sentTo
  {
    assert Take(s).sentTo == s.sentTo;
  }

  lemma KeptStep(s: State, step: Step, g: nat, p: Peer, ok: bool)
    requires Kept(s, g, p, ok) && Can(s, step) && step != Reply(g) && step != HardTimer(g) && OwnsPeer(s, p)
    requires step.Deliver? ==> EntryOk(s, step.peer)
    ensures Kept(Apply(s, step), g, p, ok)
  {
    OpenStep(s, step, g);
    EntryStep(s, step, p);
  }

  /** Neither reads its reply nor times out between two steps. */
  ghost predicate Waits(steps: seq<Step>, i: nat, n: nat, g: nat) {
    forall j :: 0 <= j < |steps| && i < j < n ==> steps[j] != Reply(g) && steps[j] != HardTimer(g)
  }

  /** A reply that is accepted while its goroutine waits stays in the channel until it is read or
      the hard timeout comes. */
  lemma {:induction false} ReplyKept(steps: seq<Step>, i: nat, n: nat, g: nat, p: Peer, ok: bool)
    requires RunOf(steps) && i < n <= |steps| && steps[i] == Deliver(p, ok) && RunOf(steps[..i])
    requires p in At(steps, i).sentTo && At(steps, i).sentTo[p].owner == g < |At(steps, i).threads|
    requires Open(At(steps, i).threads[g].phase) && Waits(steps, i, n, g)
    ensures RunOf(steps[..n]) && Kept(At(steps, n), g, p, ok)
    decreases n
  {
    StepAt(steps, n - 1);
    if n == i + 1 {
      InvAt(steps, i);
      Delivers(At(steps, i), p, ok);
    } else {
      ReplyKept(steps, i, n - 1, g, p, ok);
      OwnersAt(steps, n - 1, p);
      KeptStep(At(steps, n - 1), steps[n - 1], g, p, ok);
    }
  }

  /** The first step from `i` on at which the goroutine reads its reply, if any. */
  lemma {:induction false} FirstRead(steps: seq<Step>, i: nat, n: nat, g: nat) returns (j: nat)
    requires i < n <= |steps| && forall k :: i < k < n ==> steps[k] != HardTimer(g)
    ensures i < j <= n && Waits(steps, i, j, g) && (j < n ==> steps[j] == Reply(g))
  {
    j := i + 1;
    while j < n && steps[j] != Reply(g)
      invariant i < j <= n && Waits(steps, i, j, g)
    {
      j := j + 1;
    }
  }

  /** A valid reply that is accepted while its goroutine waits ends the retrieval without error,
      unless the hard timeout overtakes it or the retrieval is stopped from outside. */
  lemma ValidReplyWins(steps: seq<Step>, i: nat, g: nat, p: Peer)
    requires RunOf(steps) && End(Initial(), steps).loop.Exited? && Undisturbed(steps, |steps|)
    requires i < |steps| && steps[i] == Deliver(p, true) && RunOf(steps[..i])
    requires p in At(steps, i).sentTo && At(steps, i).sentTo[p].owner == g < |At(steps, i).threads|
    requires Open(At(steps, i).threads[g].phase) && forall j :: i < j < |steps| ==> steps[j] != HardTimer(g)
    ensures End(Initial(), steps).err == None
  {
    var j := FirstRead(steps, i, |steps|, g);
    ReplyKept(steps, i, j, g, p, true);
    RunResult(steps);
    if j == |steps| {
      assert steps[..|steps|] == steps;
      RunOutcome(steps);
    } else {
      assert ReadsValidAt(steps, j);
    }
  }

  ghost predicate DeliveredBefore(steps: seq<Step>, n: nat, p: Peer, ok: bool) {
    exists i :: 0 <= i < |steps| && i < n && steps[i] == Deliver(p, ok)
  }

  /** What a goroutine finds in its channel was delivered by the peer it had asked. */
  lemma {:induction false} ReplyIsDelivered(steps: seq<Step>, n: nat, g: nat)
    requires RunOf(steps) && n <= |steps| && RunOf(steps[..n]) && g < |At(steps, n).threads|
    requires At(steps, n).threads[g].valid.Some?
    ensures var t := At(steps, n).threads[g]; t.peer.Some? && DeliveredBefore(steps, n, t.peer.value, t.valid.value)
    decreases n
  {
    if n > 0 {
      Prefix(steps, n - 1);
      ReplySourceAt(steps, n - 1, g);
      if SameChannel(At(steps, n - 1), At(steps, n).threads[g], g) {
        ReplyIsDelivered(steps, n - 1, g);
      } else {
        PeerAt(steps, n - 1, g);
      }
    }
  }

  lemma EmptyAt(steps: seq<Step>, i: nat, g: nat)
    requires RunOf(steps) && i <= |steps| && RunOf(steps[..i])
    ensures var s := At(steps, i); g < |s.threads| && s.threads[g].phase.Queued? ==> s.threads[g].valid == None
  {
    InvAt(steps, i);
    if g < |At(steps, i).threads| { assert ThreadOk(At(steps, i), g); }
  }

  lemma PeerAt(steps: seq<Step>, i: nat, g: nat)
    requires RunOf(steps) && i <= |steps| && RunOf(steps[..i]) && g < |At(steps, i).threads|
    requires Holds(At(steps, i).threads[g].phase)
    ensures At(steps, i).threads[g].peer == Some(At(steps, i).threads[g].phase.peer)
  {
    InvAt(steps, i);
    assert ThreadOk(At(steps, i), g);
  }

  lemma DeliveredNow(s: State, step: Step, g: nat)
    requires Can(s, step) && step.Deliver? && EntryOk(s, step.peer) && s.sentTo[step.peer].owner == g
    ensures Holds(s.threads[g].phase) && s.threads[g].phase.peer == step.peer
    ensures g < |Apply(s, step).threads| && Apply(s, step).threads[g] == s.threads[g].(valid := Some(step.ok))
  {
  }

  /** The channel and the peer are as before. */
  ghost predicate SameChannel(s: State, t: Thread, g: nat) {
    t.valid.Some? ==> g < |s.threads| && s.threads[g].valid == t.valid && s.threads[g].peer == t.peer
  }

  /** It has come from the goroutine's peer now. */
  ghost predicate Arrives(s: State, step: Step, t: Thread, g: nat) {
    && step.Deliver? && g < |s.threads| && Holds(s.threads[g].phase) && s.threads[g].phase.peer == step.peer
    && t == s.threads[g].(valid := Some(step.ok))
  }

  lemma ReplySource(s: State, step: Step, g: nat)
    requires Can(s, step) && g < |Apply(s, step).threads|
    requires step.Deliver? ==> EntryOk(s, step.peer)
    requires g < |s.threads| && s.threads[g].phase.Queued? ==> s.threads[g].valid == None
    ensures Arrives(s, step, Apply(s, step).threads[g], g) || SameChannel(s, Apply(s, step).threads[g], g)
  {
    if step.Deliver? && s.sentTo[step.peer].owner == g {
      DeliveredNow(s, step, g);
    } else if g < |s.threads| {
      OldReply(s, step, g);
    } else {
      NoReply(s, step, g);
    }
  }

  lemma NoReply(s: State, step: Step, g: nat)
    requires Can(s, step) && |s.threads| <= g < |Apply(s, step).threads|
    ensures SameChannel(s, Apply(s, step).threads[g], g)
  {
    StepThreads(s, step);
    assert Apply(s, step).threads[g] == FRESH;
  }

  lemma ReplySourceAt(steps: seq<Step>, i: nat, g: nat)
    requires RunOf(steps) && i < |steps| && RunOf(steps[..i]) && RunOf(steps[..i + 1]) && g < |At(steps, i + 1).threads|
    ensures var t := At(steps, i + 1).threads[g];
            Arrives(At(steps, i), steps[i], t, g) || SameChannel(At(steps, i), t, g)
  {
    StepAt(steps, i);
    OwnersAt(steps, i, 0);
    EmptyAt(steps, i, g);
    ReplySource(At(steps, i), steps[i], g);
  }

  lemma OldReply(s: State, step: Step, g: nat)
    requires Can(s, step) && g < |s.threads| && !(step.Deliver? && s.sentTo[step.peer].owner == g)
    requires g < |Apply(s, step).threads| && (s.threads[g].phase.Queued? ==> s.threads[g].valid == None)
    ensures SameChannel(s, Apply(s, step).threads[g], g)
  {
    if Concerns(s, step, g) {
      OwnReply(s, step, g);
    } else {
      ThreadFrame(s, step, g);
      SameHere(s, Apply(s, step), g);
    }
  }

  lemma SameHere(s: State, s': State, g: nat)
    requires SameThread(s, s', g)
    ensures SameChannel(s, s'.threads[g], g)
  {
  }

  lemma OwnReply(s: State, step: Step, g: nat)
    requires Can(s, step) && g < |s.threads| && Concerns(s, step, g) && !step.Deliver?
    requires s.threads[g].phase.Queued? ==> s.threads[g].valid == None
    ensures SameChannel(s, Apply(s, step).threads[g], g)
  {
  }

  // ----- When nothing goes on -----

  /** Steps that the retrieval takes by itself, timers included. */
  predicate Internal(step: Step) { !step.StopExternal? && !step.Deliver? }

  ghost predicate AllDone(s: State) { forall g :: 0 <= g < |s.threads| ==> s.threads[g].phase.Done? }

  /** The loop has returned and so have all goroutines. */
  ghost predicate Finished(s: State) { s.loop.Exited? && s.events == [] && AllDone(s) }

  /** The loop waits for events, and nobody is left to send one. */
  ghost predicate Stalled(s: State) { s.loop.Requesting? && !s.stopped && s.events == [] && AllDone(s) }

  /** The next step of a goroutine that is not done. */
  function Next(g: nat, p: Phase): Step {
    match p
    case Queued => Unsent(g)
    case NoPeer => PushSent(g)
    case Dispatched(_) => PushSent(g)
    case Waiting(_) => SoftTimer(g)
    case SoftDue(_) => PushSoft(g)
    case Soft(_) => HardTimer(g)
    case FinalDue(_, _, _) => PushFinal(g)
    case _ => Clean(g)
  }

  lemma NextIs(s: State, g: nat)
    requires g < |s.threads| && !s.threads[g].phase.Done? && |s.events| < EVENTS_CAP
    ensures Can(s, Next(g, s.threads[g].phase)) && Internal(Next(g, s.threads[g].phase))
  {
  }

  /** The next step of the loop, if it has one. */
  function LoopNext(s: State): Step {
    match s.loop
    case Requesting => if s.events != [] then TakeEvent else TakeStop
    case NoMorePeers => RetryTimer
    case Stopped => if WaitingFor(s) then TakeEvent else Drained
    case Exited => Drained
  }

  lemma LoopNextIs(s: State)
    requires !s.loop.Exited? && (s.loop.Requesting? ==> s.events != [] || s.stopped)
    requires s.loop.Stopped? && WaitingFor(s) ==> s.events != []
    ensures Can(s, LoopNext(s)) && Internal(LoopNext(s))
  {
  }

  lemma QuietLoop(s: State)
    requires Inv(s) && s.events == [] && AllDone(s)
    ensures !WaitingFor(s)
  {
    forall g | 0 <= g < |s.threads| ensures s.threads[g].seen.Gone? { assert ThreadOk(s, g); }
    NotWaiting(s);
  }

  /** Some step is possible unless the retrieval is finished or stalled. */
  lemma NextStep(s: State) returns (step: Step)
    requires Inv(s) && !Finished(s) && !Stalled(s)
    ensures Can(s, step) && Internal(step)
  {
    if s.loop.Exited? { ExitedQuiet(s); }
    if g :| 0 <= g < |s.threads| && !s.threads[g].phase.Done? && |s.events| < EVENTS_CAP {
      NextIs(s, g);
      step := Next(g, s.threads[g].phase);
    } else {
      if s.events == [] { QuietLoop(s); }
      LoopNextIs(s);
      step := LoopNext(s);
    }
  }

  lemma DeliveryNeedsGoroutine(s: State, step: Step)
    requires Inv(s) && Can(s, step) && step.Deliver?
    ensures !AllDone(s)
  {
    assert EntryOk(s, step.peer);
  }

  lemma StandsStill(s: State, step: Step)
    requires (Finished(s) || Stalled(s)) && Can(s, step) && !step.Deliver?
    ensures step.StopExternal?
  {
  }

  /** In every run: the retrieval can go on by itself unless it is finished or stalled, and then
      nothing happens any more but a stop from outside. When all requests are over and it is not
      stopped, it is stalled exactly if the last peer it asked has sent an invalid reply: no other
      peer is asked then. */
  lemma GoesOn(steps: seq<Step>)
    requires RunOf(steps)
    ensures var s := End(Initial(), steps);
            && ((exists step :: Can(s, step) && Internal(step)) <==> !Finished(s) && !Stalled(s))
            && (Finished(s) || Stalled(s) ==> forall step :: Can(s, step) ==> step.StopExternal?)
            && (!s.stopped && s.events == [] && AllDone(s) ==>
                  s.threads != [] && (Stalled(s) <==> s.threads[|s.threads| - 1].heard == Some(RpDeliveredInvalid)))
  {
    assert steps[..|steps|] == steps;
    InvAt(steps, |steps|);
    var s := End(Initial(), steps);
    forall step | Can(s, step) && step.Deliver? ensures !AllDone(s) { DeliveryNeedsGoroutine(s, step); }
    if Finished(s) || Stalled(s) {
      forall step | Can(s, step) && !step.Deliver? ensures step.StopExternal? { StandsStill(s, step); }
    } else {
      var step := NextStep(s);
    }
    AsksAt(steps, |steps|);
    if !s.stopped && s.events == [] && AllDone(s) { assert ThreadOk(s, |s.threads| - 1); }
  }

  /** The peer has sent an invalid reply, and its goroutine has not read it yet. */
  ghost function Disappointed(p: Peer): State {
    State([Thread(Waiting(p), Some(false), Some(p), SentTo(p), Some(RpSent))], [], Requesting, false, Some(p), 0,
          map[p := SentEntry(true, 0)], false, None, false)
  }

  lemma AskedOnce(p: Peer)
    ensures var steps := [Dispatch(0, p), PushSent(0), TakeEvent, Deliver(p, false)];
            RunOf(steps) && End(Initial(), steps) == Disappointed(p)
  {
    var s0 := Initial();
    var s1 := Apply(s0, Dispatch(0, p));
    var s2 := Apply(s1, PushSent(0));
    var s3 := Apply(s2, TakeEvent);
    Before(s3, Deliver(p, false), []);
    Before(s2, TakeEvent, [Deliver(p, false)]);
    Before(s1, PushSent(0), [TakeEvent, Deliver(p, false)]);
    Before(s0, Dispatch(0, p), [PushSent(0), TakeEvent, Deliver(p, false)]);
  }

  lemma NeverAgain(p: Peer)
    ensures var steps := [Reply(0), PushFinal(0), TakeEvent, Clean(0)];
            Runs(Disappointed(p), steps) && Stalled(End(Disappointed(p), steps))
  {
    var s0 := Disappointed(p);
    var s1 := Apply(s0, Reply(0));
    var s2 := Apply(s1, PushFinal(0));
    var s3 := Apply(s2, TakeEvent);
    Before(s3, Clean(0), []);
    Before(s2, TakeEvent, [Clean(0)]);
    Before(s1, PushFinal(0), [TakeEvent, Clean(0)]);
    Before(s0, Reply(0), [PushFinal(0), TakeEvent, Clean(0)]);
  }

  lemma {:induction false} Joined(s: State, a: seq<Step>, b: seq<Step>)
    requires Runs(s, a) && Runs(End(s, a), b)
    ensures Runs(s, a + b) && End(s, a + b) == End(End(s, a), b)
    decreases |a|
  {
    if a == [] {
      assert a + b == b;
    } else {
      assert (a + b)[1..] == a[1..] + b;
      Joined(Apply(s, a[0]), a[1..], b);
    }
  }

  /** One peer, one invalid reply: the retrieval is stalled, though it was never stopped. */
  lemma StallExample(p: Peer)
    ensures var steps := [Dispatch(0, p), PushSent(0), TakeEvent, Deliver(p, false)] + [Reply(0), PushFinal(0), TakeEvent, Clean(0)];
            RunOf(steps) && Stalled(End(Initial(), steps))
  {
    AskedOnce(p);
    NeverAgain(p);
    Joined(Initial(), [Dispatch(0, p), PushSent(0), TakeEvent, Deliver(p, false)], [Reply(0), PushFinal(0), TakeEvent, Clean(0)]);
  }

  lemma Before(s: State, step: Step, rest: seq<Step>)
    requires Can(s, step) && Runs(Apply(s, step), rest)
    ensures Runs(s, [step] + rest) && End(s, [step] + rest) == End(Apply(s, step), rest)
  {
    assert ([step] + rest)[1..] == rest;
  }

  // ----- After the stop -----

  /** The steps a goroutine may still take, each weighed with the event it sends. */
  function Ahead(p: Phase): nat {
    match p
    case Queued => 10
    case Dispatched(_) => 9
    case Waiting(_) => 7
    case SoftDue(_) => 6
    case Soft(_) => 4
    case FinalDue(_, _, _) => 3
    case NoPeer => 2
    case Cleanup(_) => 1
    case Done => 0
  }

  function AllAhead(threads: seq<Thread>): nat {
    if threads == [] then 0 else AllAhead(threads[..|threads| - 1]) + Ahead(threads[|threads| - 1].phase)
  }

  lemma {:induction false} AheadUpdate(threads: seq<Thread>, g: nat, t: Thread)
    requires g < |threads|
    ensures AllAhead(threads[g := t]) == AllAhead(threads) - Ahead(threads[g].phase) + Ahead(t.phase)
  {
    var k := |threads| - 1;
    if g == k {
      assert threads[g := t][..k] == threads[..k];
    } else {
      AheadUpdate(threads[..k], g, t);
      assert threads[g := t][..k] == threads[..k][g := t];
    }
  }

  function Rank(s: State): nat { AllAhead(s.threads) + |s.events| + if s.loop.Exited? then 0 else 1 }

  lemma LoopRank(s: State)
    requires s.loop.Stopped? && s.events != []
    ensures LoopEvent(s).loop.Stopped? && Rank(LoopEvent(s)) < Rank(s)
  {
    var e := s.events[0];
    if e.src < |s.threads| { AheadUpdate(s.threads, e.src, Take(s).threads[e.src]); }
  }

  /** Once the loop only waits for the requests that are out, no new one is made, and every step
      brings it nearer to its end; replies and further stops do not delay it. */
  lemma EndsAfterStop(s: State, step: Step)
    requires (s.loop.Stopped? || s.loop.Exited?) && Can(s, step)
    ensures var s' := Apply(s, step);
            && (s'.loop.Stopped? || s'.loop.Exited?) && |s'.threads| == |s.threads|
            && if Internal(step) then Rank(s') < Rank(s) else Rank(s') == Rank(s)
  {
    var s' := Apply(s, step);
    match step
    case TakeEvent => LoopRank(s);
    case Deliver(p, _) => AheadUpdate(s.threads, s.sentTo[p].owner, s'.threads[s.sentTo[p].owner]);
    case StopExternal(_) =>
    case TakeStop =>
    case RetryTimer =>
    case Drained =>
    case _ => OwnRank(s, step);
  }

  lemma OwnRank(s: State, step: Step)
    requires Can(s, step) && !step.Deliver? && !step.StopExternal? && !step.TakeEvent? && !step.TakeStop?
    requires !step.RetryTimer? && !step.Drained?
    ensures Apply(s, step).loop == s.loop && |Apply(s, step).threads| == |s.threads| && Rank(Apply(s, step)) < Rank(s)
  {
    OwnMove(s, step);
    AheadUpdate(s.threads, step.g, Apply(s, step).threads[step.g]);
  }

  lemma OwnMove(s: State, step: Step)
    requires Can(s, step) && !step.Deliver? && !step.StopExternal? && !step.TakeEvent? && !step.TakeStop?
    requires !step.RetryTimer? && !step.Drained?
    ensures step.g < |s.threads| && Moves(s, Apply(s, step), step.g)
  {
  }

  /** Only this goroutine has moved, and what it may still do has become less. */
  ghost predicate Moves(s: State, s': State, g: nat)
    requires g < |s.threads|
  {
    && s'.loop == s.loop && |s'.threads| == |s.threads| && s'.threads == s.threads[g := s'.threads[g]]
    && Ahead(s'.threads[g].phase) + |s'.events| < Ahead(s.threads[g].phase) + |s.events|
  }
}
