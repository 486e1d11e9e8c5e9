/** requestDistributor of les/distributor.go: queued requests are handed to light-server
    peers in creation order, as far as each peer can serve them. */
module Distributor {
  type Peer = nat

  /** What a request's channel has seen: nothing queued yet or any more, still open, closed
      after a peer was sent to it, or closed without one. */
  datatype Status = Idle | Waiting | Sent(peer: Peer) | Unsent

  /** The registered peers, whether each accepts requests now, and how long it has to wait
      before a request of a given cost. */
  datatype Net = Net(peers: set<Peer>, canQueue: Peer -> bool, wait: (Peer, nat) -> nat)

  class Request {
    const cost: Peer -> nat
    const canSend: Peer -> bool
    var order: nat
    var status: Status

    constructor (cost: Peer -> nat, canSend: Peer -> bool)
      ensures order == 0 && status == Idle && this.cost == cost && this.canSend == canSend
    {
      this.cost, this.canSend, order, status := cost, canSend, 0, Idle;
    }
  }

  /** The peer is able to take the request. */
  predicate Serves(net: Net, p: Peer, r: Request) {
    p in net.peers && net.canQueue(p) && r.canSend(p)
  }

  ghost predicate Servable(net: Net, r: Request) {
    exists p :: Serves(net, p, r)
  }

  /** The position of the oldest queued request the peer can serve, if there is one. */
  function First(net: Net, q: seq<Request>, p: Peer): (i: nat)
    ensures i <= |q| && (i < |q| ==> Serves(net, p, q[i]))
    ensures forall j :: 0 <= j < i ==> !Serves(net, p, q[j])
  {
    if q == [] || Serves(net, p, q[0]) then 0
    else
      assert forall j :: 0 < j < |q| ==> q[j] == q[1..][j - 1];
      1 + First(net, q[1..], p)
  }

  /** How long the peer has to wait for it. */
  function Delay(net: Net, q: seq<Request>, p: Peer): nat
    requires First(net, q, p) < |q|
  {
    net.wait(p, q[First(net, q, p)].cost(p))
  }

  ghost predicate Ordered(q: seq<Request>)
    reads q
  {
    forall i, j :: 0 <= i < j < |q| ==> q[i].order <= q[j].order && q[i] != q[j]
  }

  /** Everything before `i` is older than the request, nothing from `i` on is. */
  ghost predicate Fits(q: seq<Request>, r: Request, i: nat)
    requires i <= |q|
    reads q, r
  {
    (forall j :: 0 <= j < i ==> q[j].order < r.order) && (forall j :: i <= j < |q| ==> r.order <= q[j].order)
  }

  lemma OrderedInsert(q: seq<Request>, r: Request, i: nat)
    requires Ordered(q) && i <= |q| && Fits(q, r, i) && r !in q
    ensures Ordered(q[..i] + [r] + q[i..])
    ensures (forall s :: s in q ==> s.order < r.order) ==> q[..i] + [r] + q[i..] == q + [r]
    ensures forall s :: s in q[..i] + [r] + q[i..] ==> s == r || s in q
  {
    if i < |q| {
      assert q[i] in q;
    } else {
      assert q[..i] == q;
    }
  }

  predicate Open(r: Request, last: nat)
    reads r
  {
    r.status == Waiting && 0 < r.order <= last
  }

  /** The best offer so far: who could take which request, and after which wait. */
  datatype Offer = None | Some(peer: Peer, req: Request, wait: nat)

  /** The scan has come to the peer's request: it is before `i`, or at `i` and the peer was
      asked already. */
  predicate Reached(net: Net, q: seq<Request>, i: nat, done: set<Peer>, p: Peer) {
    var f := First(net, q, p);
    p in net.peers && f < |q| && (f < i || (f == i && p in done))
  }

  /** What the scan has gathered about one peer. */
  ghost predicate TallyAt(net: Net, q: seq<Request>, i: nat, done: set<Peer>, checked: set<Peer>,
                          sel: map<Peer, Request>, best: Offer, p: Peer) {
    && (p in checked <==> Reached(net, q, i, done, p))
    && (p in sel <==> Reached(net, q, i, done, p) && Delay(net, q, p) == 0)
    && (p in sel ==> sel[p] == q[First(net, q, p)])
    && (Reached(net, q, i, done, p) && Delay(net, q, p) > 0 ==> best.Some? && best.wait <= Delay(net, q, p))
  }

  /** Peers that can be sent to at once are selected with their oldest request; of the others
      the one with the shortest wait is kept. */
  ghost predicate Tally(net: Net, q: seq<Request>, i: nat, done: set<Peer>, checked: set<Peer>, sel: map<Peer,
                        Request>, best: Offer) {
    && (forall p {:trigger TallyAt(net, q, i, done, checked, sel, best, p)} :: TallyAt(net, q, i, done, checked, sel, best, p))
    && (best.Some? ==> IsOffer(net, q, best) && best.wait > 0 && Reached(net, q, i, done, best.peer))
  }

  ghost predicate IsOffer(net: Net, q: seq<Request>, o: Offer) {
    && o.Some? && o.peer in net.peers && First(net, q, o.peer) < |q|
    && o.req == q[First(net, q, o.peer)] && o.wait == Delay(net, q, o.peer)
  }

  /** No peer could be sent to sooner. */
  ghost predicate Soonest(net: Net, q: seq<Request>, o: Offer) {
    o.Some? ==> forall p :: First(net, q, p) < |q| ==> o.wait <= Delay(net, q, p)
  }

  lemma TallyStep(net: Net, q: seq<Request>, i: nat, done: set<Peer>, checked: set<Peer>, sel: map<Peer,
                  Request>, best: Offer, p: Peer)
    requires i < |q| && p in net.peers && p !in done && Tally(net, q, i, done, checked, sel, best)
    ensures var ask := p !in checked && Serves(net, p, q[i]);
      var wait := net.wait(p, q[i].cost(p));
      Tally(net, q, i, done + {p},
            if ask then checked + {p} else checked,
            if ask && wait == 0 then sel[p := q[i]] else sel,
            if ask && wait > 0 && (best.None? || wait < best.wait) then Some(p, q[i], wait) else best)
  {
    var ask := p !in checked && Serves(net, p, q[i]);
    var wait := net.wait(p, q[i].cost(p));
    var checked' := if ask then checked + {p} else checked;
    var sel' := if ask && wait == 0 then sel[p := q[i]] else sel;
    var best' := if ask && wait > 0 && (best.None? || wait < best.wait) then Some(p, q[i], wait) else best;
    assert TallyAt(net, q, i, done, checked, sel, best, p);
    assert ask <==> First(net, q, p) == i;
    var done' := done + {p};
    forall b ensures TallyAt(net, q, i, done', checked', sel', best', b) {
      assert TallyAt(net, q, i, done, checked, sel, best, b);
    }
  }

  lemma TallyNext(net: Net, q: seq<Request>, i: nat, done: set<Peer>, checked: set<Peer>, sel: map<Peer,
                  Request>, best: Offer)
    requires i < |q| && net.peers <= done && Tally(net, q, i, done, checked, sel, best)
    ensures Tally(net, q, i + 1, {}, checked, sel, best)
  {
    var n := i + 1;
    forall p ensures TallyAt(net, q, n, {}, checked, sel, best, p) {
      assert TallyAt(net, q, i, done, checked, sel, best, p);
    }
  }

  /** While nobody can serve the front request, nothing is gathered. */
  lemma NobodyYet(net: Net, q: seq<Request>, checked: set<Peer>, sel: map<Peer, Request>, best: Offer)
    requires q != [] && Tally(net, q, 1, {}, checked, sel, best) && forall p :: !Serves(net, p, q[0])
    ensures checked == {} && sel == map[] && best == None && Tally(net, q[1..], 0, {}, {}, map[], None)
  {
    forall p ensures p !in checked && p !in sel { assert TallyAt(net, q, 1, {}, checked, sel, best, p); }
    forall p ensures TallyAt(net, q[1..], 0, {}, {}, map[], None, p) {}
  }

  /** After the whole queue, every peer that can serve anything was asked. */
  lemma ScanDone(net: Net, q: seq<Request>, checked: set<Peer>, sel: map<Peer, Request>, best: Offer)
    requires Tally(net, q, |q|, {}, checked, sel, best) && (q != [] ==> Servable(net, q[0]))
    ensures q != [] <==> sel != map[] || best.Some?
    ensures forall p :: First(net, q, p) < |q| && sel == map[] ==> best.Some? && best.wait <= Delay(net, q, p)
  {
    forall p | First(net, q, p) < |q| ensures p in sel || (best.Some? && best.wait <= Delay(net, q, p)) {
      assert TallyAt(net, q, |q|, {}, checked, sel, best, p);
    }
    if q != [] {
      var p :| Serves(net, p, q[0]);
      assert First(net, q, p) == 0;
    }
    if sel != map[] {
      var p :| p in sel;
      assert TallyAt(net, q, |q|, {}, checked, sel, best, p);
    }
  }

  /** The first `k` requests were closed unsent, and nobody could have served them. */
  ghost predicate Closed(net: Net, before: seq<Request>, after: seq<Request>, k: nat)
    reads before
  {
    && k <= |before| && after == before[k..]
    && forall j :: 0 <= j < k ==> before[j].status == Unsent && !Servable(net, before[j])
  }

  ghost predicate Dropped(net: Net, before: seq<Request>, after: seq<Request>, k: nat)
    reads before
  {
    Closed(net, before, after, k) && (after != [] ==> Servable(net, after[0]))
  }

  /** An offer without wait takes its request out of the queue and tells it the peer. */
  ghost predicate Picked(before: seq<Request>, after: seq<Request>, offer: Offer)
    reads if offer.Some? then {offer.req} else {}
  {
    if offer.Some? && offer.wait == 0
    then offer.req.status == Sent(offer.peer) && offer.req !in after && Without(before, offer.req, after)
    else after == before
  }

  ghost predicate Without(before: seq<Request>, r: Request, after: seq<Request>) {
    exists i :: 0 <= i < |before| && before[i] == r && after == before[..i] + before[i + 1..]
  }

  ghost predicate Distinct(q: seq<Request>) { forall i, j :: 0 <= i < j < |q| ==> q[i] != q[j] }

  class Distributor {
    var queue: seq<Request>
    var lastOrder: nat

    /** The queue is in creation order, and exactly its requests have open channels. */
    ghost predicate Valid()
      reads this, queue
    {
      Ordered(queue) && forall r :: r in queue ==> Open(r, lastOrder)
    }

    constructor ()
      ensures Valid() && queue == [] && lastOrder == 0
    {
      queue, lastOrder := [], 0;
    }

    /** queue: a new request goes last, one that is sent again goes back to its place. */
    method Queue(r: Request)
      requires Valid() && r !in queue && r.order <= lastOrder
      modifies this, r
      ensures Valid() && r.status == Waiting
      ensures r.order == if old(r.order) == 0 then old(lastOrder) + 1 else old(r.order)
      ensures exists i :: 0 <= i <= |old(queue)| && queue == old(queue)[..i] + [r] + old(queue)[i..]
      ensures old(r.order) == 0 ==> queue == old(queue) + [r]
    {
      if r.order == 0 {
        lastOrder := lastOrder + 1;
        r.order := lastOrder;
      }
      r.status := Waiting;
      Enlist(r);
    }

    /** The list insertion of queue. */
    method Enlist(r: Request)
      requires Valid() && Open(r, lastOrder) && r !in queue
      modifies `queue
      ensures Valid() && exists i :: 0 <= i <= |old(queue)| && queue == old(queue)[..i] + [r] + old(queue)[i..]
      ensures (forall s :: s in old(queue) ==> s.order < r.order) ==> queue == old(queue) + [r]
    {
      var i := Place(r);
      OrderedInsert(queue, r, i);
      queue := queue[..i] + [r] + queue[i..];
    }

    /** Where the request goes: behind everything older. */
    method Place(r: Request) returns (i: nat)
      requires Ordered(queue)
      ensures i <= |queue| && Fits(queue, r, i)
    {
      i := |queue|;
      if queue != [] && r.order <= queue[|queue| - 1].order {
        i := 0;
        while queue[i].order < r.order
          invariant 0 <= i < |queue| && forall j :: 0 <= j < i ==> queue[j].order < r.order
          decreases |queue| - i
        {
          i := i + 1;
        }
      }
    }

    /** remove */
    method Remove(r: Request)
      requires Valid() && r in queue
      modifies `queue
      ensures Without(old(queue), r, queue)
      ensures Valid() && r !in queue
    {
      var i := 0;
      while queue[i] != r
        invariant 0 <= i < |queue| && r in queue[i..]
        decreases |queue| - i
      {
        i := i + 1;
      }
      queue := queue[..i] + queue[i + 1..];
    }

    /** cancel: false only if the request was sent or dropped already. */
    method Cancel(r: Request) returns (cancelled: bool)
      requires Valid() && (r.status == Waiting <==> r in queue)
      modifies this, r
      ensures Valid() && cancelled == (r in old(queue)) && r !in queue
      ensures cancelled ==> r.status == Unsent && Without(old(queue), r, queue)
      ensures !cancelled ==> queue == old(queue) && r.status == old(r.status)
    {
      cancelled := r.status == Waiting;
      if cancelled {
        Remove(r);
        r.status := Unsent;
      }
    }

    /** The inner loop of nextRequest: every peer not seen yet that can serve request `i`. */
    method AskPeers(net: Net, i: nat, checked0: set<Peer>, sel0: map<Peer, Request>, best0: Offer)
      returns (canSend: bool, checked: set<Peer>, sel: map<Peer, Request>, best: Offer)
      requires i < |queue| && Tally(net, queue, i, {}, checked0, sel0, best0)
      ensures Tally(net, queue, i + 1, {}, checked, sel, best)
      ensures canSend <==> exists p :: p !in checked0 && Serves(net, p, queue[i])
    {
      canSend, checked, sel, best := false, checked0, sel0, best0;
      var req, todo := queue[i], net.peers;
      assert net.peers - todo == {};
      while todo != {}
        invariant todo <= net.peers && Tally(net, queue, i, net.peers - todo, checked, sel, best)
        invariant canSend <==> exists p :: p in net.peers - todo && p !in checked0 && Serves(net, p, req)
        invariant forall p :: p in todo ==> (p in checked <==> p in checked0)
      {
        var p :| p in todo;
        TallyStep(net, queue, i, net.peers - todo, checked, sel, best, p);
        if p !in checked && net.canQueue(p) && req.canSend(p) {
          canSend := true;
          var wait := net.wait(p, req.cost(p));
          if wait == 0 {
            sel := sel[p := req];
          } else if best.None? || wait < best.wait {
            best := Some(p, req, wait);
          }
          checked := checked + {p};
        }
        assert net.peers - (todo - {p}) == net.peers - todo + {p};
        todo := todo - {p};
      }
      TallyNext(net, queue, i, net.peers - todo, checked, sel, best);
    }

    /** The scan of nextRequest over the queue. */
    method Scan(net: Net) returns (ghost checked': set<Peer>, sel: map<Peer, Request>, best: Offer)
      requires Valid()
      modifies `queue, queue
      ensures Valid() && exists k :: Dropped(net, old(queue), queue, k)
      ensures Tally(net, queue, |queue|, {}, checked', sel, best)
    {
      var i: nat, checked: set<Peer> := 0, {};
      sel, best := map[], None;
      ghost var k := 0;
      while (net.peers != {} || i == 0) && i < |queue|
        invariant Valid() && i <= |queue| && Tally(net, queue, i, {}, checked, sel, best)
        invariant Closed(net, old(queue), queue, k)
        invariant i > 0 ==> Servable(net, queue[0]) && net.peers != {}
        invariant i == 0 ==> checked == {}
        decreases |queue| - i
      {
        var canSend;
        canSend, checked, sel, best := AskPeers(net, i, checked, sel, best);
        if !canSend && i == 0 {
          NobodyYet(net, queue, checked, sel, best);
          Drop(net, old(queue), k);
          k := k + 1;
        } else {
          i := i + 1;
        }
      }
      checked' := checked;
      assert i == |queue|;
      assert Dropped(net, old(queue), queue, k);
    }

    /** nextRequest. Requests at the front that nobody can serve are closed unsent; no other is.
        Then the offer is for the oldest request its peer can serve, nobody could be sent to
        sooner, and there is an offer unless the queue is empty. */
    method NextRequest(net: Net) returns (offer: Offer)
      requires Valid()
      modifies `queue, queue
      ensures Valid() && exists k :: Dropped(net, old(queue), queue, k)
      ensures offer.None? <==> queue == []
      ensures offer.Some? ==> IsOffer(net, queue, offer)
      ensures Soonest(net, queue, offer)
    {
      ghost var checked;
      var sel, best;
      checked, sel, best := Scan(net);
      ScanDone(net, queue, checked, sel, best);
      if sel != map[] {
        var p :| p in sel;
        assert TallyAt(net, queue, |queue|, {}, checked, sel, best, p);
        offer := Some(p, sel[p], 0);
      } else {
        offer := best;
      }
    }

    /** The front request is closed unsent. */
    method Drop(ghost net: Net, ghost before: seq<Request>, ghost k: nat)
      requires Valid() && queue != [] && !Servable(net, queue[0])
      requires Closed(net, before, queue, k) && Distinct(before)
      modifies `queue, queue[0]
      ensures Valid() && queue == old(queue)[1..] && Closed(net, before, queue, k + 1)
    {
      assert queue[0] == before[k] && forall j :: 0 < j < |queue| ==> queue[j] == before[k + j];
      queue[0].status := Unsent;
      queue := queue[1..];
    }

    /** One pass of the sending loop: the picked request leaves the queue and its channel gets
        the peer. `q` is the queue it was picked from. */
    method SendNext(net: Net) returns (offer: Offer, ghost q: seq<Request>)
      requires Valid()
      modifies `queue, queue
      ensures Valid() && (exists k :: Dropped(net, old(queue), q, k)) && (offer.None? <==> q == [])
      ensures offer.Some? ==> IsOffer(net, q, offer)
      ensures Soonest(net, q, offer)
      ensures Picked(q, queue, offer)
    {
      ghost var before := queue;
      assert Distinct(before);
      offer := NextRequest(net);
      q := queue;
      ghost var k: nat :| Dropped(net, before, queue, k);
      SendOffer(offer, net, before, k);
    }

    method SendOffer(offer: Offer, ghost net: Net, ghost before: seq<Request>, ghost k: nat)
      requires Valid() && Dropped(net, before, queue, k) && Distinct(before) && (offer.Some? ==> offer.req in queue)
      modifies `queue, queue
      ensures Valid() && Dropped(net, before, old(queue), k) && Picked(old(queue), queue, offer)
    {
      if offer.Some? && offer.wait == 0 {
        Dispatch(offer.req, offer.peer, net, before, k);
      }
    }

    /** The request is removed from the queue and its channel gets the peer. */
    method Dispatch(r: Request, p: Peer, ghost net: Net, ghost before: seq<Request>, ghost k: nat)
      requires Valid() && r in queue && Dropped(net, before, queue, k) && Distinct(before)
      modifies `queue, r
      ensures Dropped(net, before, old(queue), k)
      ensures Valid() && r.status == Sent(p) && r !in queue
      ensures Without(old(queue), r, queue)
    {
      ghost var i :| 0 <= i < |queue| && queue[i] == r;
      assert r == before[k + i];
      Remove(r);
      r.status := Sent(p);
    }
  }
}
