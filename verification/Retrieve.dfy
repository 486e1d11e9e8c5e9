/** les/retrieve.go: the retrieval state machine and its tryRequest goroutines, as one
    transition system over every interleaving. */
module Retrieve {

  type Peer = nat
  type Error = nat
  datatype Option<T> = None | Some(value: T)

  const ERR_NO_PEERS: Error := 0
  const EVENTS_CAP := 10

  datatype Kind = RpSent | RpSoftTimeout | RpHardTimeout | RpDeliveredValid | RpDeliveredInvalid

  /** reqPeerEvent; `src` is the goroutine that sent it, which the loop does not see. */
  datatype Event = Event(kind: Kind, peer: Option<Peer>, src: nat)

  /** What the loop can know about a goroutine from the events it has taken. */
  datatype View = Fresh | SentTo(peer: Peer) | TimedOut(peer: Peer) | Gone

  /** Program counters of tryRequest. */
  datatype Phase =
    | Queued                                     // in the distributor's queue
    | NoPeer                                     // woken without a peer
    | Dispatched(peer: Peer)                     // the request callback has run
    | Waiting(peer: Peer)                        // first select
    | SoftDue(peer: Peer)                        // soft timer fired
    | Soft(peer: Peer)                           // second select
    | FinalDue(peer: Peer, soft: bool, kind: Kind)
    | Cleanup(peer: Peer)                        // deferred function
    | Done

  /** `valid` is the goroutine's reply channel. The others are history: the peer the
      request went to, what the loop has taken from its events so far, and the last of them. */
  datatype Thread = Thread(phase: Phase, valid: Option<bool>, peer: Option<Peer>, seen: View, heard: Option<Kind>)

  datatype SentEntry = SentEntry(delivered: bool, owner: nat)

  datatype LoopState = Requesting | NoMorePeers | Stopped | Exited

  datatype State = State(
    threads: seq<Thread>, events: seq<Event>, loop: LoopState,
    lastReqQueued: bool, lastReqSentTo: Option<Peer>, reqSrtoCount: int,
    sentTo: map<Peer, SentEntry>, stopped: bool, err: Option<Error>,
    validated: bool)

  // ----- The loop -----

  function Update(s: State, e: Event): State {
    match e.kind
    case RpSent => s.(lastReqQueued := false, lastReqSentTo := e.peer)
    case RpSoftTimeout => s.(lastReqSentTo := None, reqSrtoCount := s.reqSrtoCount + 1)
    case RpHardTimeout => s.(reqSrtoCount := s.reqSrtoCount - 1)
    case _ =>
      if e.peer == s.lastReqSentTo then s.(lastReqSentTo := None)
      else s.(reqSrtoCount := s.reqSrtoCount - 1)
  }

  predicate WaitingFor(s: State) {
    s.lastReqQueued || s.lastReqSentTo.Some? || s.reqSrtoCount > 0
  }

  /** go r.tryRequest(); r.lastReqQueued = true */
  function Spawn(s: State): State {
    s.(threads := s.threads + [Thread(Queued, None, None, Fresh, None)], lastReqQueued := true)
  }

  function StopWith(s: State, err: Option<Error>): State {
    if s.stopped then s else s.(stopped := true, err := err)
  }

  /** Take the next event off the channel; the goroutine's history advances with it. */
  function Take(s: State): State
    requires s.events != []
  {
    var e := s.events[0];
    var threads := if e.src < |s.threads| then
                     var t := s.threads[e.src];
                     s.threads[e.src := t.(seen := Advance(t.seen, e), heard := Some(e.kind))]
                   else s.threads;
    Update(s.(events := s.events[1..], threads := threads), e)
  }

  function LoopEvent(s: State): State
    requires s.events != [] && !s.loop.Exited?
  {
    var e, t := s.events[0], Take(s);
    match s.loop
    case Requesting =>
      (match e.kind
       case RpSent =>
         if e.peer.Some? then t
         else if WaitingFor(t) then t.(loop := NoMorePeers)
         else StopWith(t, Some(ERR_NO_PEERS)).(loop := Exited)
       case RpSoftTimeout => Spawn(t)
       case RpDeliveredValid => StopWith(t, None).(loop := Stopped)
       case _ => t)
    case NoMorePeers => if e.kind == RpDeliveredValid then StopWith(t, None).(loop := Stopped) else t
    case Stopped => t
  }

  // ----- Views -----

  function Advance(v: View, e: Event): View {
    match e.kind
    case RpSent => if e.peer.Some? then SentTo(e.peer.value) else Gone
    case RpSoftTimeout => if v.SentTo? then TimedOut(v.peer) else v
    case _ => Gone
  }

  /** The view after all of a goroutine's events still in the channel. */
  ghost function After(v: View, events: seq<Event>, src: nat): View
    decreases |events|
  {
    if events == [] then v
    else After(if events[0].src == src then Advance(v, events[0]) else v, events[1..], src)
  }

  /** What a goroutine has told the loop so far. */
  function Told(p: Phase): View {
    match p
    case Queued => Fresh
    case NoPeer => Fresh
    case Dispatched(_) => Fresh
    case Waiting(q) => SentTo(q)
    case SoftDue(q) => SentTo(q)
    case Soft(q) => TimedOut(q)
    case FinalDue(q, soft, _) => if soft then TimedOut(q) else SentTo(q)
    case Cleanup(_) => Gone
    case Done => Gone
  }

  /** The event can follow the view. */
  predicate Legal(v: View, e: Event) {
    match e.kind
    case RpSent => v.Fresh?
    case RpSoftTimeout => v.SentTo? && e.peer == Some(v.peer)
    case RpHardTimeout => v.TimedOut? && e.peer == Some(v.peer)
    case _ => (v.SentTo? || v.TimedOut?) && e.peer == Some(v.peer)
  }

  ghost predicate AllLegal(v: View, events: seq<Event>, src: nat)
    decreases |events|
  {
    events == [] ||
    (if events[0].src == src then Legal(v, events[0]) && AllLegal(Advance(v, events[0]), events[1..], src)
     else AllLegal(v, events[1..], src))
  }

  // ----- Steps of a goroutine and of its surroundings -----

  datatype Step =
    | Dispatch(g: nat, peer: Peer)      // the distributor sends the request
    | Unsent(g: nat)                    // closed without a peer, or cancelled after stop
    | PushSent(g: nat)
    | SoftTimer(g: nat)
    | PushSoft(g: nat)
    | HardTimer(g: nat)
    | Reply(g: nat)                     // the reply channel is read
    | PushFinal(g: nat)
    | Clean(g: nat)
    | Deliver(peer: Peer, ok: bool)     // a reply arrives and is validated
    | StopExternal(e: Error)            // context done or shutdown
    | TakeEvent
    | TakeStop
    | RetryTimer
    | Drained

  function Set(s: State, g: nat, p: Phase): State
    requires g < |s.threads|
  {
    s.(threads := s.threads[g := s.threads[g].(phase := p)])
  }

  function Push(s: State, kind: Kind, peer: Option<Peer>, g: nat): State {
    s.(events := s.events + [Event(kind, peer, g)])
  }

  predicate Can(s: State, step: Step) {
    match step
    case Dispatch(g, p) => g < |s.threads| && s.threads[g].phase == Queued && p !in s.sentTo
    case Unsent(g) => g < |s.threads| && s.threads[g].phase == Queued
    case PushSent(g) =>
      g < |s.threads| && (s.threads[g].phase.NoPeer? || s.threads[g].phase.Dispatched?) && |s.events| < EVENTS_CAP
    case SoftTimer(g) => g < |s.threads| && s.threads[g].phase.Waiting?
    case PushSoft(g) => g < |s.threads| && s.threads[g].phase.SoftDue? && |s.events| < EVENTS_CAP
    case HardTimer(g) => g < |s.threads| && s.threads[g].phase.Soft?
    case Reply(g) =>
      g < |s.threads| && (s.threads[g].phase.Waiting? || s.threads[g].phase.Soft?) && s.threads[g].valid.Some?
    case PushFinal(g) => g < |s.threads| && s.threads[g].phase.FinalDue? && |s.events| < EVENTS_CAP
    case Clean(g) => g < |s.threads| && s.threads[g].phase.Cleanup?
    case Deliver(p, _) => p in s.sentTo && !s.sentTo[p].delivered && s.sentTo[p].owner < |s.threads|
    case StopExternal(_) => true
    case TakeEvent => s.events != [] && !s.loop.Exited? && (s.loop.Stopped? ==> WaitingFor(s))
    case TakeStop => (s.loop.Requesting? || s.loop.NoMorePeers?) && s.stopped
    case RetryTimer => s.loop.NoMorePeers?
    case Drained => s.loop.Stopped? && !WaitingFor(s)
  }

  function Apply(s: State, step: Step): State
    requires Can(s, step)
  {
    match step
    case Dispatch(g, p) =>
      s.(threads := s.threads[g := s.threads[g].(phase := Dispatched(p), peer := Some(p))],
         sentTo := s.sentTo[p := SentEntry(false, g)])
    case Unsent(g) => Set(s, g, NoPeer)
    case PushSent(g) =>
      (match s.threads[g].phase
       case Dispatched(p) => Push(Set(s, g, Waiting(p)), RpSent, Some(p), g)
       case _ => Push(Set(s, g, Done), RpSent, None, g))
    case SoftTimer(g) => Set(s, g, SoftDue(s.threads[g].phase.peer))
    case PushSoft(g) =>
      var p := s.threads[g].phase.peer;
      Push(Set(s, g, Soft(p)), RpSoftTimeout, Some(p), g)
    case HardTimer(g) => Set(s, g, FinalDue(s.threads[g].phase.peer, true, RpHardTimeout))
    case Reply(g) =>
      var kind := if s.threads[g].valid.value then RpDeliveredValid else RpDeliveredInvalid;
      var t := Set(s, g, FinalDue(s.threads[g].phase.peer, s.threads[g].phase.Soft?, kind));
      t.(threads := t.threads[g := t.threads[g].(valid := None)])
    case PushFinal(g) =>
      var p := s.threads[g].phase.peer;
      Push(Set(s, g, Cleanup(p)), s.threads[g].phase.kind, Some(p), g)
    case Clean(g) => Set(s, g, Done).(sentTo := s.sentTo - {s.threads[g].phase.peer})
    case Deliver(p, ok) =>
      var g := s.sentTo[p].owner;
      s.(sentTo := s.sentTo[p := SentEntry(true, g)],
         threads := s.threads[g := s.threads[g].(valid := Some(ok))],
         validated := s.validated || ok)
    case StopExternal(e) => StopWith(s, Some(e))
    case TakeEvent => LoopEvent(s)
    case TakeStop => s.(loop := Stopped)
    case RetryTimer => Spawn(s).(loop := Requesting)
    case Drained => s.(loop := Exited)
  }

  /** retrieveLoop has started: one goroutine, no reply yet. */
  function Initial(): State {
    Spawn(State([], [], Requesting, false, None, 0, map[], false, None, false))
  }
}
