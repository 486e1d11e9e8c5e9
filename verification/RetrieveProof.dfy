/** The bookkeeping of the retrieval loop counts exactly the live goroutines. */
module RetrieveProof {
  import opened Retrieve

  // ----- Events in the channel -----

  lemma {:induction false} Appended(v: View, events: seq<Event>, e: Event, src: nat)
    ensures After(v, events + [e], src)
            == if e.src == src then Advance(After(v, events, src), e) else After(v, events, src)
    ensures AllLegal(v, events + [e], src)
            <==> AllLegal(v, events, src) && (e.src == src ==> Legal(After(v, events, src), e))
    decreases |events|
  {
    if events == [] {
      assert [e][1..] == [];
    } else {
      assert (events + [e])[1..] == events[1..] + [e];
      Appended(if events[0].src == src then Advance(v, events[0]) else v, events[1..], e, src);
    }
  }

  lemma {:induction false} Silent(v: View, events: seq<Event>, src: nat)
    requires forall i :: 0 <= i < |events| ==> events[i].src != src
    ensures After(v, events, src) == v && AllLegal(v, events, src)
    decreases |events|
  {
    if events != [] { Silent(v, events[1..], src); }
  }

  /** Nothing follows a final event, and nothing leads back to a fresh goroutine. */
  lemma {:induction false} LateViews(v: View, events: seq<Event>, src: nat)
    requires AllLegal(v, events, src)
    ensures v.Gone? ==> After(v, events, src).Gone? && forall i :: 0 <= i < |events| ==> events[i].src != src
    ensures !v.Fresh? ==> !After(v, events, src).Fresh?
    ensures After(v, events, src).Fresh? ==> v.Fresh? && forall i :: 0 <= i < |events| ==> events[i].src != src
    decreases |events|
  {
    if events != [] {
      LateViews(if events[0].src == src then Advance(v, events[0]) else v, events[1..], src);
    }
  }

  // ----- The invariant -----

  ghost predicate Holds(p: Phase) {
    p.Dispatched? || p.Waiting? || p.SoftDue? || p.Soft? || p.FinalDue? || p.Cleanup?
  }

  /** A goroutine's own state, its unread events and its entry in sentTo agree. */
  ghost predicate ThreadOk(s: State, g: nat)
    requires g < |s.threads|
  {
    var t := s.threads[g];
    && After(t.seen, s.events, g) == Told(t.phase) && AllLegal(t.seen, s.events, g)
    && (Holds(t.phase) ==> t.peer == Some(t.phase.peer) && t.phase.peer in s.sentTo && s.sentTo[t.phase.peer].owner == g)
    && (t.phase.Queued? || t.phase.NoPeer? ==> t.peer == None && t.valid == None)
    && (t.phase.FinalDue? ==>
          && !t.phase.kind.RpSent? && !t.phase.kind.RpSoftTimeout?
          && (t.phase.kind.RpHardTimeout? ==> t.phase.soft) && (t.phase.kind.RpDeliveredValid? ==> s.validated))
    && (t.valid == Some(true) ==> s.validated)
    && (t.seen.SentTo? || t.seen.TimedOut? ==> t.peer == Some(t.seen.peer))
  }

  ghost predicate EntryOk(s: State, p: Peer)
    requires p in s.sentTo
  {
    var g := s.sentTo[p].owner;
    && g < |s.threads| && Holds(s.threads[g].phase) && s.threads[g].phase.peer == p
    && (!s.sentTo[p].delivered ==> s.threads[g].valid == None)
  }

  ghost predicate EventOk(s: State, i: nat)
    requires i < |s.events|
  {
    var e := s.events[i];
    && e.src < |s.threads| && e.peer == s.threads[e.src].peer
    && (e.kind.RpDeliveredValid? ==> s.validated)
  }

  /** Of two events about one peer, the earlier goroutine's comes first. */
  ghost predicate Ordered(events: seq<Event>) {
    forall i, j :: 0 <= i < j < |events| && events[i].peer.Some? && events[i].peer == events[j].peer ==>
      events[i].src <= events[j].src
  }

  /** Two goroutines for one peer: the earlier has ended before the later was sent, and
      the loop knows that once it has heard of the later. */
  ghost predicate PairOk(s: State, g: nat, h: nat)
    requires g < |s.threads| && h < |s.threads|
  {
    g < h && s.threads[g].peer.Some? && s.threads[g].peer == s.threads[h].peer ==>
      s.threads[g].phase.Done? && (!s.threads[h].seen.Fresh? ==> s.threads[g].seen.Gone?)
  }

  ghost function TimedOutCount(threads: seq<Thread>): nat {
    if threads == [] then 0
    else TimedOutCount(threads[..|threads| - 1]) + if threads[|threads| - 1].seen.TimedOut? then 1 else 0
  }

  /** The three counters are exactly the loop's view of the goroutines: only the newest
      can be queued or freshly sent, and the count is the number of timed out ones. */
  ghost predicate CountersOk(s: State) {
    && s.threads != [] && NewestOk(s, s.threads[|s.threads| - 1].seen)
    && s.reqSrtoCount == TimedOutCount(s.threads)
    && forall g :: 0 <= g < |s.threads| - 1 ==> s.threads[g].seen.TimedOut? || s.threads[g].seen.Gone?
  }

  ghost predicate NewestOk(s: State, newest: View) {
    && s.lastReqQueued == newest.Fresh?
    && s.lastReqSentTo == (if newest.SentTo? then Some(newest.peer) else None)
    && (s.loop.NoMorePeers? ==> newest.Gone?)
  }

  ghost predicate OutcomeOk(s: State) {
    && (s.loop.Stopped? || s.loop.Exited? ==> s.stopped)
    && (s.loop.Exited? ==> forall g :: 0 <= g < |s.threads| ==> s.threads[g].seen.Gone?)
    && (s.stopped && s.err == None ==> s.validated)
  }

  ghost predicate Inv(s: State) {
    && (forall g :: 0 <= g < |s.threads| ==> ThreadOk(s, g))
    && (forall p :: p in s.sentTo ==> EntryOk(s, p))
    && (forall i :: 0 <= i < |s.events| ==> EventOk(s, i))
    && Ordered(s.events)
    && (forall g, h :: 0 <= g < |s.threads| && 0 <= h < |s.threads| ==> PairOk(s, g, h))
    && CountersOk(s)
    && OutcomeOk(s)
  }

  lemma InitialInv()
    ensures Inv(Initial())
  {
    var s := Initial();
    assert |s.threads| == 1 && s.events == [] && s.sentTo == map[];
    assert s.threads[..0] == [];
    assert TimedOutCount(s.threads) == 0;
    assert ThreadOk(s, 0) && CountersOk(s) && OutcomeOk(s);
  }

  // ----- Goroutine steps -----

  lemma {:induction false} CountUpdate(threads: seq<Thread>, g: nat, t: Thread)
    requires g < |threads|
    ensures TimedOutCount(threads[g := t])
            == TimedOutCount(threads) - (if threads[g].seen.TimedOut? then 1 else 0) + (if t.seen.TimedOut? then 1 else 0)
  {
    var k := |threads| - 1;
    if g == k {
      assert threads[g := t][..k] == threads[..k];
    } else {
      CountUpdate(threads[..k], g, t);
      assert threads[g := t][..k] == threads[..k][g := t];
    }
  }

  /** Timers, the reply channel and the distributor's refusal: no event, no entry. */
  ghost predicate Quiet(step: Step) {
    step.Unsent? || step.SoftTimer? || step.HardTimer? || step.Reply?
  }

  /** The new thread state tells the loop the same and holds the same peer. */
  ghost predicate Moved(s: State, t: Thread, t': Thread) {
    && t'.seen == t.seen && t'.peer == t.peer && Told(t'.phase) == Told(t.phase)
    && Holds(t'.phase) == Holds(t.phase) && (Holds(t.phase) ==> t'.phase.peer == t.phase.peer)
    && !t.phase.Done? && !t'.phase.Done? && !t'.phase.Queued?
    && (t'.phase.NoPeer? ==> t.phase.Queued?)
    && (t'.valid == None || t'.valid == t.valid)
    && (t'.phase.FinalDue? ==>
          && !t'.phase.kind.RpSent? && !t'.phase.kind.RpSoftTimeout?
          && (t'.phase.kind.RpHardTimeout? ==> t'.phase.soft) && (t'.phase.kind.RpDeliveredValid? ==> s.validated))
  }

  lemma MovedKeeps(s: State, g: nat, t: Thread)
    requires Inv(s) && g < |s.threads| && Moved(s, s.threads[g], t)
    ensures Inv(s.(threads := s.threads[g := t]))
  {
    var s' := s.(threads := s.threads[g := t]);
    CountUpdate(s.threads, g, t);
    forall h | 0 <= h < |s'.threads| ensures ThreadOk(s', h) { assert ThreadOk(s, h); }
    forall p | p in s'.sentTo ensures EntryOk(s', p) { assert EntryOk(s, p); }
    forall i | 0 <= i < |s'.events| ensures EventOk(s', i) { assert EventOk(s, i); }
    forall h, k | 0 <= h < |s'.threads| && 0 <= k < |s'.threads| ensures PairOk(s', h, k) { assert PairOk(s, h, k); }
  }

  lemma QuietKeeps(s: State, step: Step)
    requires Inv(s) && Can(s, step) && Quiet(step)
    ensures Inv(Apply(s, step))
  {
    var s', g := Apply(s, step), step.g;
    assert ThreadOk(s, g);
    assert s' == s.(threads := s.threads[g := s'.threads[g]]);
    MovedKeeps(s, g, s'.threads[g]);
  }

  /** An event is sent and tells the loop exactly what the new phase says. */
  ghost predicate Spoke(s: State, g: nat, t': Thread, e: Event)
    requires g < |s.threads|
  {
    var t := s.threads[g];
    && t'.seen == t.seen && t'.peer == t.peer && t'.valid == t.valid && e.src == g && e.peer == t.peer
    && Legal(Told(t.phase), e) && Told(t'.phase) == Advance(Told(t.phase), e)
    && (if Holds(t.phase) then Holds(t'.phase) && t'.phase.peer == t.phase.peer && !t'.phase.FinalDue?
        else t.phase.NoPeer? && t'.phase.Done?)
    && (e.kind.RpDeliveredValid? ==> s.validated)
  }

  lemma SpokeThread(s: State, g: nat, t: Thread, e: Event, h: nat)
    requires g < |s.threads| && h < |s.threads| && Spoke(s, g, t, e) && ThreadOk(s, g) && ThreadOk(s, h)
    ensures ThreadOk(s.(threads := s.threads[g := t], events := s.events + [e]), h)
  {
    Appended(s.threads[h].seen, s.events, e, h);
  }

  lemma SpokeOrdered(s: State, g: nat, t: Thread, e: Event)
    requires Inv(s) && g < |s.threads| && Spoke(s, g, t, e)
    ensures Ordered(s.events + [e])
  {
    assert ThreadOk(s, g);
    var events := s.events + [e];
    forall i, j | 0 <= i < j < |events| && events[i].peer.Some? && events[i].peer == events[j].peer
      ensures events[i].src <= events[j].src
    {
      if j == |s.events| {
        assert EventOk(s, i) && PairOk(s, g, s.events[i].src);
      }
    }
  }

  lemma SpokeKeeps(s: State, g: nat, t: Thread, e: Event)
    requires Inv(s) && g < |s.threads| && Spoke(s, g, t, e)
    ensures Inv(s.(threads := s.threads[g := t], events := s.events + [e]))
  {
    var s' := s.(threads := s.threads[g := t], events := s.events + [e]);
    CountUpdate(s.threads, g, t);
    SpokeOrdered(s, g, t, e);
    assert ThreadOk(s, g);
    forall h | 0 <= h < |s'.threads| ensures ThreadOk(s', h) { SpokeThread(s, g, t, e, h); }
    forall p | p in s'.sentTo ensures EntryOk(s', p) { assert EntryOk(s, p); }
    forall i | 0 <= i < |s'.events| ensures EventOk(s', i) { if i < |s.events| { assert EventOk(s, i); } }
    forall h, k | 0 <= h < |s'.threads| && 0 <= k < |s'.threads| ensures PairOk(s', h, k) { assert PairOk(s, h, k); }
  }

  lemma PushKeeps(s: State, step: Step)
    requires Inv(s) && Can(s, step) && (step.PushSent? || step.PushSoft? || step.PushFinal?)
    ensures Inv(Apply(s, step))
  {
    assert ThreadOk(s, step.g);
    PushSpeaks(s, step);
    SpokeKeeps(s, step.g, Apply(s, step).threads[step.g], Apply(s, step).events[|s.events|]);
  }

  lemma PushSpeaks(s: State, step: Step)
    requires Can(s, step) && (step.PushSent? || step.PushSoft? || step.PushFinal?) && ThreadOk(s, step.g)
    ensures var s', g := Apply(s, step), step.g;
            && |s'.events| == |s.events| + 1 && |s'.threads| == |s.threads|
            && s' == s.(threads := s.threads[g := s'.threads[g]], events := s.events + [s'.events[|s.events|]])
            && Spoke(s, g, s'.threads[g], s'.events[|s.events|])
  {
  }

  /** The only goroutine still in the distributor's queue is the newest. */
  lemma QueuedIsNewest(s: State, g: nat)
    requires Inv(s) && g < |s.threads| && s.threads[g].phase.Queued?
    ensures g == |s.threads| - 1 && s.threads[g].seen.Fresh?
    ensures forall i :: 0 <= i < |s.events| ==> s.events[i].src != g
  {
    assert ThreadOk(s, g);
    LateViews(s.threads[g].seen, s.events, g);
  }

  lemma DispatchKeeps(s: State, g: nat, p: Peer)
    requires Inv(s) && Can(s, Dispatch(g, p))
    ensures Inv(Apply(s, Dispatch(g, p)))
  {
    var s' := Apply(s, Dispatch(g, p));
    QueuedIsNewest(s, g);
    assert ThreadOk(s, g);
    CountUpdate(s.threads, g, s'.threads[g]);
    forall h | 0 <= h < |s'.threads| ensures ThreadOk(s', h) { assert ThreadOk(s, h); }
    forall q | q in s'.sentTo ensures EntryOk(s', q) { if q != p { assert EntryOk(s, q); } }
    forall i | 0 <= i < |s'.events| ensures EventOk(s', i) { assert EventOk(s, i); }
    forall h, k | 0 <= h < |s'.threads| && 0 <= k < |s'.threads| ensures PairOk(s', h, k) {
      assert PairOk(s, h, k) && ThreadOk(s, h);
    }
  }

  lemma CleanThread(s: State, g: nat, h: nat)
    requires Can(s, Clean(g)) && h < |s.threads| && ThreadOk(s, g) && ThreadOk(s, h)
    ensures ThreadOk(Apply(s, Clean(g)), h)
  {
  }

  lemma CleanEntry(s: State, g: nat, q: Peer)
    requires Can(s, Clean(g)) && q in s.sentTo && q != s.threads[g].phase.peer && EntryOk(s, q)
    ensures EntryOk(Apply(s, Clean(g)), q)
  {
  }

  lemma CleanKeeps(s: State, g: nat)
    requires Inv(s) && Can(s, Clean(g))
    ensures Inv(Apply(s, Clean(g)))
  {
    var s' := Apply(s, Clean(g));
    assert ThreadOk(s, g);
    CountUpdate(s.threads, g, s'.threads[g]);
    forall h | 0 <= h < |s'.threads| ensures ThreadOk(s', h) { CleanThread(s, g, h); }
    forall q | q in s'.sentTo ensures EntryOk(s', q) { CleanEntry(s, g, q); }
    forall i | 0 <= i < |s'.events| ensures EventOk(s', i) { assert EventOk(s, i); }
    forall h, k | 0 <= h < |s'.threads| && 0 <= k < |s'.threads| ensures PairOk(s', h, k) { assert PairOk(s, h, k); }
  }

  lemma DeliverKeeps(s: State, p: Peer, ok: bool)
    requires Inv(s) && Can(s, Deliver(p, ok))
    ensures Inv(Apply(s, Deliver(p, ok)))
  {
    var s', g := Apply(s, Deliver(p, ok)), s.sentTo[p].owner;
    assert EntryOk(s, p);
    CountUpdate(s.threads, g, s'.threads[g]);
    forall h | 0 <= h < |s'.threads| ensures ThreadOk(s', h) { assert ThreadOk(s, h); }
    forall q | q in s'.sentTo ensures EntryOk(s', q) {
      assert EntryOk(s, q);
      assert q != p ==> s.sentTo[q].owner != g;
    }
    forall i | 0 <= i < |s'.events| ensures EventOk(s', i) { assert EventOk(s, i); }
    forall h, k | 0 <= h < |s'.threads| && 0 <= k < |s'.threads| ensures PairOk(s', h, k) { assert PairOk(s, h, k); }
  }

  // ----- The loop -----

  /** Where the next event's goroutine stands for the loop. */
  lemma NextEvent(s: State)
    requires Inv(s) && s.events != []
    ensures var e := s.events[0];
            && e.src < |s.threads| && Legal(s.threads[e.src].seen, e) && e.peer == s.threads[e.src].peer
            && (e.kind.RpSent? || e.kind.RpSoftTimeout? ==> e.src == |s.threads| - 1)
            && (e.kind.RpDeliveredValid? ==> s.validated)
  {
    var e := s.events[0];
    assert EventOk(s, 0);
    assert ThreadOk(s, e.src);
  }

  lemma TakeThread(s: State, g: nat)
    requires Inv(s) && s.events != [] && g < |s.threads|
    ensures ThreadOk(Take(s), g)
  {
    NextEvent(s);
    assert ThreadOk(s, g);
  }

  /** When the loop hears that a peer was sent to, earlier goroutines for it are over. */
  lemma TakePair(s: State, g: nat, h: nat)
    requires Inv(s) && s.events != [] && g < |s.threads| && h < |s.threads|
    ensures PairOk(Take(s), g, h)
  {
    NextEvent(s);
    var e := s.events[0];
    assert PairOk(s, g, h) && ThreadOk(s, g);
    if g < h && s.threads[g].peer.Some? && s.threads[g].peer == s.threads[h].peer {
      LateViews(s.threads[g].seen, s.events, g);
      if e.src == h {
        forall j | 0 <= j < |s.events| ensures s.events[j].src != g {
          assert EventOk(s, j);
        }
        Silent(s.threads[g].seen, s.events, g);
      }
    }
  }

  lemma TakeCounters(s: State)
    requires Inv(s) && s.events != []
    ensures CountersOk(Take(s))
  {
    NextEvent(s);
    var e := s.events[0];
    var g, t := e.src, Take(s);
    CountUpdate(s.threads, g, t.threads[g]);
    assert ThreadOk(s, g);
    var newest := |s.threads| - 1;
    if g != newest {
      assert PairOk(s, g, newest) && ThreadOk(s, newest);
    }
  }

  lemma TakeEntry(s: State, p: Peer)
    requires Inv(s) && s.events != [] && p in s.sentTo
    ensures EntryOk(Take(s), p)
  {
    NextEvent(s);
    assert EntryOk(s, p);
  }

  lemma TakeEvents(s: State)
    requires Inv(s) && s.events != [] && !s.loop.Exited?
    ensures Ordered(Take(s).events) && OutcomeOk(Take(s))
    ensures forall i :: 0 <= i < |Take(s).events| ==> EventOk(Take(s), i)
  {
    TakeOrdered(s.events);
    TakeOutcome(s);
    forall i | 0 <= i < |Take(s).events| ensures EventOk(Take(s), i) { TakeEventOk(s, i); }
  }

  lemma TakeOrdered(events: seq<Event>)
    requires Ordered(events) && events != []
    ensures Ordered(events[1..])
  {
  }

  lemma TakeOutcome(s: State)
    requires OutcomeOk(s) && s.events != [] && !s.loop.Exited?
    ensures OutcomeOk(Take(s)) && Take(s).events == s.events[1..]
  {
  }

  lemma TakeEventOk(s: State, i: nat)
    requires i + 1 < |s.events| && EventOk(s, i + 1)
    ensures i < |Take(s).events| && EventOk(Take(s), i)
  {
    assert Take(s).events[i] == s.events[i + 1];
  }

  /** Taking an event keeps the invariant; the loop's own next move comes after. */
  lemma TakeKeeps(s: State)
    requires Inv(s) && s.events != [] && !s.loop.Exited?
    ensures Inv(Take(s))
  {
    TakeCounters(s);
    TakeEvents(s);
    forall g | 0 <= g < |Take(s).threads| ensures ThreadOk(Take(s), g) { TakeThread(s, g); }
    forall p | p in Take(s).sentTo ensures EntryOk(Take(s), p) { TakeEntry(s, p); }
    forall g, h | 0 <= g < |Take(s).threads| && 0 <= h < |Take(s).threads| ensures PairOk(Take(s), g, h) {
      TakePair(s, g, h);
    }
  }

  lemma SpawnKeeps(s: State)
    requires Inv(s) && !s.loop.Exited? && !s.loop.NoMorePeers?
    requires var v := s.threads[|s.threads| - 1].seen; v.TimedOut? || v.Gone?
    ensures Inv(Spawn(s))
  {
    var t := Spawn(s);
    var k := |s.threads|;
    assert t.threads[..k] == s.threads;
    forall g | 0 <= g < |t.threads| ensures ThreadOk(t, g) {
      if g < k {
        assert ThreadOk(s, g);
      } else {
        forall i | 0 <= i < |s.events| ensures s.events[i].src != k { assert EventOk(s, i); }
        Silent(Fresh, s.events, k);
      }
    }
    forall p | p in t.sentTo ensures EntryOk(t, p) { assert EntryOk(s, p); }
    forall i | 0 <= i < |t.events| ensures EventOk(t, i) { assert EventOk(s, i); }
    forall g, h | 0 <= g < |t.threads| && 0 <= h < |t.threads| ensures PairOk(t, g, h) {
      if g < k && h < k { assert PairOk(s, g, h); }
    }
  }

  lemma {:induction false} CountZero(threads: seq<Thread>)
    requires TimedOutCount(threads) == 0
    ensures forall g :: 0 <= g < |threads| ==> !threads[g].seen.TimedOut?
  {
    if threads != [] { CountZero(threads[..|threads| - 1]); }
  }

  /** The loop waits for nothing exactly when every goroutine is over for it. */
  lemma NotWaiting(s: State)
    requires CountersOk(s)
    ensures !WaitingFor(s) <==> forall g :: 0 <= g < |s.threads| ==> s.threads[g].seen.Gone?
  {
    if !WaitingFor(s) {
      CountZero(s.threads);
    } else if forall g :: 0 <= g < |s.threads| ==> s.threads[g].seen.Gone? {
      NoneTimedOut(s.threads);
    }
  }

  lemma {:induction false} NoneTimedOut(threads: seq<Thread>)
    requires forall g :: 0 <= g < |threads| ==> threads[g].seen.Gone?
    ensures TimedOutCount(threads) == 0
  {
    if threads != [] { NoneTimedOut(threads[..|threads| - 1]); }
  }

  /** The loop moves to another state without touching the goroutines. */
  lemma LoopMoves(s: State, t: State)
    requires Inv(s) && t == s.(loop := t.loop, stopped := t.stopped, err := t.err)
    requires OutcomeOk(t) && (t.loop.NoMorePeers? ==> s.threads[|s.threads| - 1].seen.Gone?)
    ensures Inv(t)
  {
    forall g | 0 <= g < |t.threads| ensures ThreadOk(t, g) { assert ThreadOk(s, g); }
    forall p | p in t.sentTo ensures EntryOk(t, p) { assert EntryOk(s, p); }
    forall i | 0 <= i < |t.events| ensures EventOk(t, i) { assert EventOk(s, i); }
    forall g, h | 0 <= g < |t.threads| && 0 <= h < |t.threads| ensures PairOk(t, g, h) { assert PairOk(s, g, h); }
  }

  lemma RequestingKeeps(s: State)
    requires Inv(s) && s.events != [] && s.loop.Requesting?
    ensures Inv(LoopEvent(s))
  {
    NextEvent(s);
    TakeKeeps(s);
    var e, t := s.events[0], Take(s);
    assert t.loop.Requesting? && t.threads[e.src].seen == Advance(s.threads[e.src].seen, e);
    match e.kind
    case RpSent =>
      if e.peer.None? {
        if WaitingFor(t) {
          LoopMoves(t, t.(loop := NoMorePeers));
        } else {
          NotWaiting(t);
          LoopMoves(t, StopWith(t, Some(ERR_NO_PEERS)).(loop := Exited));
        }
      }
    case RpSoftTimeout => SpawnKeeps(t);
    case RpDeliveredValid => LoopMoves(t, StopWith(t, None).(loop := Stopped));
    case RpHardTimeout =>
    case RpDeliveredInvalid =>
  }

  lemma TakeEventKeeps(s: State)
    requires Inv(s) && Can(s, TakeEvent)
    ensures Inv(Apply(s, TakeEvent))
  {
    match s.loop
    case Requesting => RequestingKeeps(s);
    case NoMorePeers =>
      NextEvent(s);
      TakeKeeps(s);
      var t := Take(s);
      if s.events[0].kind == RpDeliveredValid { LoopMoves(t, StopWith(t, None).(loop := Stopped)); }
    case Stopped => TakeKeeps(s);
  }

  lemma LoopOnlyKeeps(s: State, step: Step)
    requires Inv(s) && Can(s, step) && (step.StopExternal? || step.TakeStop? || step.Drained?)
    ensures Inv(Apply(s, step))
  {
    NotWaiting(s);
    LoopMoves(s, Apply(s, step));
  }

  lemma RetryKeeps(s: State)
    requires Inv(s) && Can(s, RetryTimer)
    ensures Inv(Apply(s, RetryTimer))
  {
    var t := s.(loop := Requesting);
    LoopMoves(s, t);
    SpawnKeeps(t);
    assert Apply(s, RetryTimer) == Spawn(t);
  }

  lemma StepKeeps(s: State, step: Step)
    requires Inv(s) && Can(s, step)
    ensures Inv(Apply(s, step))
  {
    match step
    case Dispatch(g, p) => DispatchKeeps(s, g, p);
    case Clean(g) => CleanKeeps(s, g);
    case Deliver(p, ok) => DeliverKeeps(s, p, ok);
    case TakeEvent => TakeEventKeeps(s);
    case RetryTimer => RetryKeeps(s);
    case PushSent(_) => PushKeeps(s, step);
    case PushSoft(_) => PushKeeps(s, step);
    case PushFinal(_) => PushKeeps(s, step);
    case StopExternal(_) => LoopOnlyKeeps(s, step);
    case TakeStop => LoopOnlyKeeps(s, step);
    case Drained => LoopOnlyKeeps(s, step);
    case _ => QuietKeeps(s, step);
  }

  // ----- Every run -----

  ghost predicate Runs(s: State, steps: seq<Step>)
    decreases |steps|
  {
    steps == [] || (Can(s, steps[0]) && Runs(Apply(s, steps[0]), steps[1..]))
  }

  ghost function End(s: State, steps: seq<Step>): State
    requires Runs(s, steps)
    decreases |steps|
  {
    if steps == [] then s else End(Apply(s, steps[0]), steps[1..])
  }

  lemma {:induction false} RunKeeps(s: State, steps: seq<Step>)
    requires Inv(s) && Runs(s, steps)
    ensures Inv(End(s, steps))
    decreases |steps|
  {
    if steps != [] {
      StepKeeps(s, steps[0]);
      RunKeeps(Apply(s, steps[0]), steps[1..]);
    }
  }

  /** A goroutine that will still send an event. */
  predicate Live(p: Phase) { !p.Cleanup? && !p.Done? }

  ghost function PhaseTimedOutCount(threads: seq<Thread>): nat {
    if threads == [] then 0
    else PhaseTimedOutCount(threads[..|threads| - 1]) + if Told(threads[|threads| - 1].phase).TimedOut? then 1 else 0
  }

  lemma {:induction false} SameCounts(threads: seq<Thread>)
    requires forall g :: 0 <= g < |threads| ==> threads[g].seen == Told(threads[g].phase)
    ensures TimedOutCount(threads) == PhaseTimedOutCount(threads)
  {
    if threads != [] { SameCounts(threads[..|threads| - 1]); }
  }

  /** The loop returns only after the last event of every goroutine. */
  lemma ExitedQuiet(s: State)
    requires Inv(s) && s.loop.Exited?
    ensures s.events == [] && forall g :: 0 <= g < |s.threads| ==> !Live(s.threads[g].phase)
  {
    assert s.events != [] ==> EventOk(s, 0);
    forall g | 0 <= g < |s.threads|
      ensures !Live(s.threads[g].phase) && forall i :: 0 <= i < |s.events| ==> s.events[i].src != g
    {
      assert ThreadOk(s, g);
      LateViews(s.threads[g].seen, s.events, g);
    }
  }

  /** At the end of every run: the counters are the loop's exact view, the count is never
      negative, the loop has exited only if no goroutine is live and the channel is empty,
      and a nil result means a reply was validated. */
  lemma RunOutcome(steps: seq<Step>)
    requires Runs(Initial(), steps)
    ensures var s := End(Initial(), steps);
            && CountersOk(s) && s.reqSrtoCount >= 0
            && (s.loop.Exited? ==> s.events == [] && forall g :: 0 <= g < |s.threads| ==> !Live(s.threads[g].phase))
            && (s.stopped && s.err == None ==> s.validated)
  {
    InitialInv();
    RunKeeps(Initial(), steps);
    var s := End(Initial(), steps);
    if s.loop.Exited? { ExitedQuiet(s); }
  }

  /** With no event pending, the three counters count the goroutines by phase: at most
      the newest is queued or freshly sent, and the others that are live have timed out. */
  lemma CountersByPhase(steps: seq<Step>)
    requires Runs(Initial(), steps) && End(Initial(), steps).events == []
    ensures var s := End(Initial(), steps);
            && s.threads != []
            && var newest := Told(s.threads[|s.threads| - 1].phase);
               && s.lastReqQueued == newest.Fresh?
               && s.lastReqSentTo == (if newest.SentTo? then Some(newest.peer) else None)
               && s.reqSrtoCount == PhaseTimedOutCount(s.threads)
               && forall g :: 0 <= g < |s.threads| - 1 && Live(s.threads[g].phase) ==> Told(s.threads[g].phase).TimedOut?
  {
    InitialInv();
    RunKeeps(Initial(), steps);
    var s := End(Initial(), steps);
    forall g | 0 <= g < |s.threads| ensures s.threads[g].seen == Told(s.threads[g].phase) {
      assert ThreadOk(s, g);
    }
    SameCounts(s.threads);
  }

  /** tryRequest always finds its entry in sentTo, and deliver never blocks on a reply
      channel that already holds one. */
  lemma EntriesPresent(steps: seq<Step>)
    requires Runs(Initial(), steps)
    ensures var s := End(Initial(), steps);
            && (forall g :: 0 <= g < |s.threads| && Holds(s.threads[g].phase) ==>
                  s.threads[g].phase.peer in s.sentTo && s.sentTo[s.threads[g].phase.peer].owner == g)
            && forall p :: p in s.sentTo && !s.sentTo[p].delivered ==>
                 s.sentTo[p].owner < |s.threads| && s.threads[s.sentTo[p].owner].valid == None
  {
    InitialInv();
    RunKeeps(Initial(), steps);
    var s := End(Initial(), steps);
    forall g | 0 <= g < |s.threads| && Holds(s.threads[g].phase)
      ensures s.threads[g].phase.peer in s.sentTo && s.sentTo[s.threads[g].phase.peer].owner == g
    {
      assert ThreadOk(s, g);
    }
    forall p | p in s.sentTo && !s.sentTo[p].delivered
      ensures s.sentTo[p].owner < |s.threads| && s.threads[s.sentTo[p].owner].valid == None
    {
      assert EntryOk(s, p);
    }
  }
}
