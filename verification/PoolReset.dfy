/** What a reset that reinjects transactions leaves executable, told from the pool before, the
    new head and the reinjected transactions, when neither the capacity nor the global slots
    are reached. */
module PoolReset {
  import opened TxTypes
  import opened L = TxList
  import opened PoolState
  import opened PoolLevels
  import opened PoolTrim
  import opened PoolSpec
  import opened SortedMap
  import Priced = PricedList

  // ----- No pressure on the slots -----

  lemma {:induction false} SlotsInLookup(s: Snap, slots: set<(Addr, nat)>) returns (txs: set<Tx>)
    requires Sane(s) && slots <= Slots(s.pending)
    ensures txs <= s.all && |txs| == |slots|
    ensures forall t :: t in txs ==> (t.from, t.nonce) in slots
  {
    if slots == {} {
      txs := {};
    } else {
      var x :| x in slots;
      txs := SlotsInLookup(s, slots - {x});
      var p, q := Of(s.pending, x.0), Of(s.queue, x.0);
      assert x in Slots(s.pending) && AccountOk(p, q, s.all, x.0);
      assert OwnAt(p, x.0, x.1) && Placed(p, q, s.all, p[x.1]);
      assert p[x.1] !in txs;
      txs := txs + {p[x.1]};
    }
  }

  lemma PendingFits(s: Snap)
    requires Sane(s)
    ensures Total(s.pending) <= |s.all|
  {
    var txs := SlotsInLookup(s, Slots(s.pending));
    Priced.Subset(txs, s.all);
  }

  lemma {:induction false} SlotsShrink(a: set<(Addr, nat)>, b: set<(Addr, nat)>)
    requires a <= b
    ensures |a| <= |b|
  {
    if a != {} {
      var x :| x in a;
      SlotsShrink(a - {x}, b - {x});
    }
  }

  lemma LevelTotal(p0: Lists, p1: Lists, locals: set<Addr>, level: nat)
    requires IsLevel(p1, p0, locals, level)
    ensures Total(p1) <= Total(p0)
  {
    forall x | x in Slots(p1) ensures x in Slots(p0) {
      assert CutAt(p1, p0, locals, level, x.0);
      CutPart(p0[x.0].items, level);
    }
    SlotsShrink(Slots(p1), Slots(p0));
  }

  /** With room for all pending transactions nothing is cut. */
  lemma NothingCut(config: Config, locals: set<Addr>, p0: Lists, p1: Lists, level: nat, a: Addr)
    requires LevelsOff(config, locals, p0, p1, level) && Total(p0) <= config.globalSlots
    ensures Of(p1, a) == Of(p0, a)
  {
    if Crowded(p0, locals, level + 1, config.globalSlots) {
      var now :| IsLevel(now, p0, locals, level + 1) && Total(now) > config.globalSlots;
      LevelTotal(p0, now, locals, level + 1);
    }
    assert !Exceeds(p0, locals, level, a) && CutAt(p1, p0, locals, level, a);
  }

  // ----- What the promotion of a set of accounts does to one of them -----

  /** The eligible transactions in an account's queue. */
  ghost function Ready(head: Head, s: Snap, a: Addr): Items {
    if a in s.queue then Eligible(head, s.queue[a], a).items else map[]
  }

  /** Those that are promoted. */
  ghost function Rising(head: Head, s: Snap, a: Addr): Items {
    var fit := Ready(head, s, a);
    Below(fit, ReadyEnd(fit, Virtual(head, s.nonces, a)))
  }

  lemma RisesTo(head: Head, limit: nat, now: nat, s: Snap, mid: Snap, a: Addr)
    requires PromotedTo(head, limit, now, s, mid, a)
    ensures Of(mid.pending, a) == Of(s.pending, a) + Rising(head, s, a)
    ensures Virtual(head, mid.nonces, a) ==
              if Rising(head, s, a) == map[] then Virtual(head, s.nonces, a)
              else ReadyEnd(Ready(head, s, a), Virtual(head, s.nonces, a))
  {
    if a !in s.queue {
      assert Rising(head, s, a) == map[] && Of(s.pending, a) + map[] == Of(s.pending, a);
    } else {
      assert At(mid, a).pending == Of(mid.pending, a) && At(s, a).pending == Of(s.pending, a);
      assert At(mid, a).nonce == Entry(mid.nonces, a) && At(s, a).nonce == Entry(s.nonces, a);
    }
  }

  /** A promoted account gains what is ready, any other nothing. */
  ghost predicate Gains(head: Head, s: Snap, s1: Snap, a: Addr, promoted: bool) {
    var up, v := Rising(head, s, a), Virtual(head, s.nonces, a);
    if promoted then
      && Of(s1.pending, a) == Of(s.pending, a) + up
      && Virtual(head, s1.nonces, a) == (if up == map[] then v else ReadyEnd(Ready(head, s, a), v))
    else Of(s1.pending, a) == Of(s.pending, a) && Virtual(head, s1.nonces, a) == v
  }

  /** Without pressure that is all that happens to the pending lists. */
  lemma PromotedFreely(config: Config, head: Head, now: nat, s: Snap, s1: Snap, accounts: set<Addr>, a: Addr)
    requires Promotes(config, head, now, s, s1, accounts) && |s.all| <= config.globalSlots
    ensures Gains(head, s, s1, a, a in accounts)
  {
    var order, mid, level: nat :| Distinct(order) && Members(order) == accounts
                                  && PromotesVia(config, head, now, s, mid, s1, level, order);
    assert a in order <==> a in Members(order);
    PromotedVia1(config, head, now, s, mid, s1, level, order, a);
  }

  /** What is left in the queue. */
  ghost function Behind(head: Head, limit: nat, s: Snap, a: Addr): Items {
    var fit := Ready(head, s, a);
    var rest := From(fit, ReadyEnd(fit, Virtual(head, s.nonces, a)));
    if a in s.locals then rest else CutTo(rest, limit)
  }

  /** The account's queue and heartbeat after the first phase. */
  ghost predicate Leftover(head: Head, limit: nat, now: nat, s: Snap, mid: Snap, a: Addr, promoted: bool) {
    if promoted then
      && Of(mid.queue, a) == Behind(head, limit, s, a)
      && Entry(mid.beats, a) == if Rising(head, s, a) == map[] then Entry(s.beats, a) else Some(now)
    else Of(mid.queue, a) == Of(s.queue, a) && Entry(mid.beats, a) == Entry(s.beats, a)
  }

  lemma PhaseOne(config: Config, head: Head, now: nat, s: Snap, mid: Snap, s1: Snap, level: nat, order: seq<Addr>, a: Addr)
    requires PromotesVia(config, head, now, s, mid, s1, level, order) && Distinct(order)
    ensures Gains(head, s, mid, a, a in order) && Leftover(head, config.accountQueue, now, s, mid, a, a in order)
  {
    if a in order {
      assert PromotedTo(head, config.accountQueue, now, s, mid, a);
      RisesTo(head, config.accountQueue, now, s, mid, a);
      LeavesBehind(head, config.accountQueue, now, s, mid, a);
    } else {
      assert UntouchedAt(s, mid, a);
    }
  }

  lemma LeavesBehind(head: Head, limit: nat, now: nat, s: Snap, mid: Snap, a: Addr)
    requires PromotedTo(head, limit, now, s, mid, a)
    ensures Leftover(head, limit, now, s, mid, a, true)
  {
    if a !in s.queue {
      assert Rising(head, s, a) == map[] && From(map[], 0) == map[];
      assert Of(s.queue, a) == map[] && Behind(head, limit, s, a) == map[];
    } else {
      assert At(mid, a).queue == Of(mid.queue, a) && At(mid, a).beat == Entry(mid.beats, a);
      assert At(s, a).beat == Entry(s.beats, a);
    }
  }

  lemma PromotedVia1(config: Config, head: Head, now: nat, s: Snap, mid: Snap, s1: Snap, level: nat, order: seq<Addr>,
                     a: Addr)
    requires PromotesVia(config, head, now, s, mid, s1, level, order) && Distinct(order) && |s.all| <= config.globalSlots
    ensures Gains(head, s, s1, a, a in order)
  {
    PendingFits(mid);
    Priced.Subset(mid.all, s.all);
    NothingCut(config, mid.locals, mid.pending, s1.pending, level, a);
    assert ShrunkAt(head, mid.pending, mid.nonces, s1.pending, s1.nonces, a);
    PhaseOne(config, head, now, s, mid, s1, level, order, a);
  }

  // ----- The additions of the batch -----

  /** A remote addition to a pool that has room. */
  ghost function Accept(g: Gate, locals: set<Addr>, all: set<Tx>, tx: Tx): set<Tx> {
    if tx !in all && Worthy(g, locals, tx, false) && Outbid(all, tx, g.bump) then all - Rival(all, tx) + {tx} else all
  }

  /** The pooled transactions after a batch that the pool has room for. */
  ghost function Offered(g: Gate, locals: set<Addr>, all: set<Tx>, txs: seq<Tx>): set<Tx> {
    if txs == [] then all
    else Accept(g, locals, Offered(g, locals, all, txs[..|txs| - 1]), txs[|txs| - 1])
  }

  predicate VirtualSame(head: Head, s0: Snap, s1: Snap, a: Addr) {
    Virtual(head, s1.nonces, a) == Virtual(head, s0.nonces, a)
  }

  /** Pending and virtual nonces are as before. */
  ghost predicate Still(head: Head, s0: Snap, s1: Snap) {
    SamePlaces(s0.pending, s1.pending) && forall a {:trigger VirtualSame(head, s0, s1, a)} :: VirtualSame(head, s0, s1, a)
  }

  lemma StillTrans(head: Head, s0: Snap, s1: Snap, s2: Snap)
    requires Still(head, s0, s1) && Still(head, s1, s2)
    ensures Still(head, s0, s2)
  {
    forall a ensures VirtualSame(head, s0, s2, a) && KeysAt(s0.pending, s2.pending, a) {
      assert VirtualSame(head, s0, s1, a) && VirtualSame(head, s1, s2, a);
      assert KeysAt(s0.pending, s1.pending, a) && KeysAt(s1.pending, s2.pending, a);
    }
  }

  lemma Unmoved(g: Gate, s0: Snap, s1: Snap)
    requires Bystanders(g, s0, s1, {})
    ensures Still(g.head, s0, s1)
  {
    forall a ensures VirtualSame(g.head, s0, s1, a) && KeysAt(s0.pending, s1.pending, a) {
      assert ShrunkAt(g.head, s0.pending, s0.nonces, s1.pending, s1.nonces, a);
      forall n ensures n in Of(s1.pending, a) <==> n in Of(s0.pending, a) {
        assert ShortAt(s0.pending, s1.pending, {}, a, n);
      }
    }
  }

  lemma AcceptedFree(g: Gate, s0: Snap, s1: Snap, tx: Tx, gone: set<Tx>, err: Option<Error>)
    requires Outcome(g, s0, s1, tx, false, gone, err) && |s0.all| < g.capacity
    ensures gone == {} && s1.all == Accept(g, s0.locals, s0.all, tx)
    ensures err.None? <==> tx !in s0.all && Worthy(g, s0.locals, tx, false) && Outbid(s0.all, tx, g.bump)
    ensures Fresh(s0, tx, gone, err) <==> err.None? && Rival(s0.all, tx) == {}
  {
    assert gone == {} && s0.all - gone == s0.all;
  }

  /** One addition without pressure. */
  lemma AddedFree(g: Gate, s0: Snap, s1: Snap, tx: Tx, gone: set<Tx>, err: Option<Error>)
    requires Outcome(g, s0, s1, tx, false, gone, err) && |s0.all| < g.capacity
    ensures gone == {} && s1.all == Accept(g, s0.locals, s0.all, tx) && s1.locals == s0.locals && Sane(s1)
    ensures |s1.all| <= |s0.all| + 1 && Still(g.head, s0, s1)
    ensures Fresh(s0, tx, gone, err) <==> s1.all != s0.all && Rival(s0.all, tx) == {}
  {
    AcceptedFree(g, s0, s1, tx, gone, err);
    Unmoved(g, s0, s1);
    Priced.Subset(s1.all, s0.all + {tx});
  }

  /** Room stays until the end of the batch. */
  lemma {:induction false} TrailFree(g: Gate, trail: seq<Snap>, gones: seq<set<Tx>>, txs: seq<Tx>,
                                     errs: seq<Option<Error>>, i: nat)
    requires Trail(g, trail, gones, txs, false, errs) && i <= |errs| && |trail[0].all| + |errs| <= g.capacity
    requires Sane(trail[0])
    ensures trail[i].all == Offered(g, trail[0].locals, trail[0].all, txs[..i]) && trail[i].locals == trail[0].locals
    ensures |trail[i].all| <= |trail[0].all| + i && Still(g.head, trail[0], trail[i]) && Sane(trail[i])
  {
    if i > 0 {
      TrailFree(g, trail, gones, txs, errs, i - 1);
      assert AddedAt(g, trail, gones, txs, false, errs, i - 1);
      AddedFree(g, trail[i - 1], trail[i], txs[i - 1], gones[i - 1], errs[i - 1]);
      StillTrans(g.head, trail[0], trail[i - 1], trail[i]);
      assert txs[..i][..i - 1] == txs[..i - 1];
    }
  }

  /** The account has a transaction under a nonce that was free before. */
  ghost predicate Newcomer(all0: set<Tx>, all: set<Tx>, a: Addr) {
    exists t {:trigger Rival(all0, t)} :: t in all && t.from == a && Rival(all0, t) == {}
  }

  /** No nonce becomes free. */
  ghost predicate Occupied(all0: set<Tx>, all: set<Tx>) {
    forall t {:trigger Rival(all, t)} :: Rival(all, t) == {} ==> Rival(all0, t) == {}
  }

  lemma AcceptOccupies(g: Gate, locals: set<Addr>, all0: set<Tx>, all: set<Tx>, tx: Tx)
    requires Occupied(all0, all)
    ensures Occupied(all0, Accept(g, locals, all, tx))
  {
    var all' := Accept(g, locals, all, tx);
    forall t | Rival(all', t) == {} ensures Rival(all0, t) == {} {
      forall r | r in Rival(all, t) ensures r in Rival(all', t) || tx in Rival(all', t) {}
      assert Rival(all, t) == {};
    }
  }

  lemma AcceptNewcomer(g: Gate, locals: set<Addr>, all0: set<Tx>, all: set<Tx>, tx: Tx, a: Addr)
    requires Occupied(all0, all)
    ensures var all' := Accept(g, locals, all, tx);
      Newcomer(all0, all', a) <==> Newcomer(all0, all, a) || (a == tx.from && all' != all && Rival(all, tx) == {})
  {
    var all' := Accept(g, locals, all, tx);
    if Newcomer(all0, all, a) {
      var t :| t in all && t.from == a && Rival(all0, t) == {};
      if t !in all' {
        assert t in Rival(all, tx) && Rival(all0, tx) == Rival(all0, t);
      }
    }
    if Newcomer(all0, all', a) && !Newcomer(all0, all, a) {
      var t :| t in all' && t.from == a && Rival(all0, t) == {};
      assert t == tx;
      forall r | r in Rival(all, tx) ensures Newcomer(all0, all, a) { assert Rival(all0, r) == Rival(all0, tx); }
    }
  }

  /** Exactly these accounts are promoted at the end of the batch. */
  lemma {:induction false} FreshOnes(g: Gate, trail: seq<Snap>, gones: seq<set<Tx>>, txs: seq<Tx>,
                                     errs: seq<Option<Error>>, i: nat, a: Addr)
    requires Trail(g, trail, gones, txs, false, errs) && i <= |errs| && |trail[0].all| + |errs| <= g.capacity
    requires Sane(trail[0])
    ensures Occupied(trail[0].all, trail[i].all)
    ensures Newcomer(trail[0].all, trail[i].all, a) <==>
              exists j :: 0 <= j < i && Fresh(trail[j], txs[j], gones[j], errs[j]) && txs[j].from == a
  {
    if i == 0 {
      forall t | t in trail[0].all ensures Rival(trail[0].all, t) != {} { assert t in Rival(trail[0].all, t); }
    } else {
      var k := i - 1;
      FreshOnes(g, trail, gones, txs, errs, k, a);
      TrailFree(g, trail, gones, txs, errs, k);
      assert AddedAt(g, trail, gones, txs, false, errs, k);
      AddedFree(g, trail[k], trail[i], txs[k], gones[k], errs[k]);
      AcceptOccupies(g, trail[k].locals, trail[0].all, trail[k].all, txs[k]);
      AcceptNewcomer(g, trail[k].locals, trail[0].all, trail[k].all, txs[k], a);
    }
  }

  lemma DirtyIs(g: Gate, trail: seq<Snap>, gones: seq<set<Tx>>, txs: seq<Tx>, errs: seq<Option<Error>>, a: Addr)
    requires Trail(g, trail, gones, txs, false, errs) && |trail[0].all| + |errs| <= g.capacity && Sane(trail[0])
    ensures a in Dirty(trail, gones, txs, errs) <==> Newcomer(trail[0].all, trail[|errs|].all, a)
  {
    FreshOnes(g, trail, gones, txs, errs, |errs|, a);
  }

  // ----- The condition, in terms of what is known before -----

  /** The nonces that are not pending but have a pooled, eligible transaction. */
  ghost function Fit(head: Head, all: set<Tx>, pending: Lists, a: Addr): set<nat> {
    set t | t in all && t.from == a && t.nonce !in Of(pending, a) && head.nonce(a) <= t.nonce
            && !Over(t, head.balance(a), head.maxGas) :: t.nonce
  }

  ghost predicate PayableAt(head: Head, all: set<Tx>, a: Addr, n: nat) {
    exists t :: t in all && t.from == a && t.nonce == n && !Over(t, head.balance(a), head.maxGas)
  }

  /** The account's pending nonces begin behind the new head's, a reinjected transaction makes it
      promoted, and what is then ready from the head's nonce on stops short of them, while the
      first of them stays payable. `offered` is the lookup after the batch. */
  ghost predicate Gap(head: Head, pending: Lists, all: set<Tx>, offered: set<Tx>, a: Addr) {
    var p, h, fit := Of(pending, a), head.nonce(a), Fit(head, offered, pending, a);
    && p != map[] && h < Least(p.Keys) && Newcomer(all, offered, a)
    && h in fit && RunEnd(fit, h) < Least(p.Keys) && PayableAt(head, offered, a, Least(p.Keys))
  }

  lemma ReadyIsFit(head: Head, s: Snap, p0: Lists, a: Addr)
    requires Sane(s) && SamePlaces(p0, s.pending)
    ensures Ready(head, s, a).Keys == Fit(head, s.all, p0, a)
    ensures forall n :: n in Ready(head, s, a) ==>
              n >= head.nonce(a) && n !in Of(s.pending, a) && !Over(Ready(head, s, a)[n], head.balance(a), head.maxGas)
  {
    var p, q, fit := Of(s.pending, a), Of(s.queue, a), Ready(head, s, a);
    assert AccountOk(p, q, s.all, a) && KeysAt(p0, s.pending, a);
    if a in s.queue {
      ListOfIs(s.queue, a, false);
      EligibleOk(head, s.queue[a], a);
    }
    forall n | n in fit ensures n in Fit(head, s.all, p0, a) && n !in p {
      assert OwnAt(q, a, n) && Apart(p, q, n) && Placed(p, q, s.all, q[n]);
      assert n !in p.Keys;
    }
    forall n | n in Fit(head, s.all, p0, a) ensures n in fit {
      var t :| t in s.all && t.from == a && t.nonce == n && t.nonce !in Of(p0, a) && head.nonce(a) <= t.nonce
               && !Over(t, head.balance(a), head.maxGas);
      assert Placed(p, q, s.all, t) && n !in p.Keys;
    }
  }

  /** What is promoted from virtual nonce `h` is the run of eligible nonces that starts there. */
  lemma RisingIs(head: Head, s: Snap, p0: Lists, a: Addr)
    requires Sane(s) && SamePlaces(p0, s.pending) && Virtual(head, s.nonces, a) == head.nonce(a)
    ensures var h, fit := head.nonce(a), Fit(head, s.all, p0, a);
      forall n :: n in Rising(head, s, a) <==> h in fit && h <= n < RunEnd(fit, h)
    ensures forall n :: n in Rising(head, s, a) ==>
              n !in Of(s.pending, a) && !Over(Rising(head, s, a)[n], head.balance(a), head.maxGas)
  {
    ReadyIsFit(head, s, p0, a);
    var h, fit := head.nonce(a), Ready(head, s, a);
    if h in fit.Keys {
      assert Least(fit.Keys) == h;
    } else if fit != map[] {
      assert Least(fit.Keys) in fit && Least(fit.Keys) > h;
    }
  }

  /** What the demotion leaves of a list. */
  ghost predicate Stays(m: Items, head: Head, a: Addr, n: nat) {
    && n in m && n >= head.nonce(a) && head.nonce(a) in m
    && forall k :: k in m && head.nonce(a) <= k <= n ==> !Over(m[k], head.balance(a), head.maxGas)
  }

  lemma DemotedStays(head: Head, s0: Snap, s1: Snap, a: Addr)
    requires ListsOk(s0.pending, true) && DemotedTo(head, s0, s1, a)
    ensures forall n :: n in Of(s1.pending, a) <==> Stays(Of(s0.pending, a), head, a, n)
  {
    if a in s0.pending {
      assert ListAt(s0.pending, true, a);
      var forward := s0.pending[a].(items := From(Of(s0.pending, a), head.nonce(a)));
      PartOk(s0.pending[a], a, true, forward.items);
      FilterExact(forward, head.balance(a), head.maxGas);
    }
  }

  // ----- One account, by cases -----

  ghost predicate Interval(m: Items, x: nat, y: nat) {
    forall n {:trigger n in m} :: n in m <==> x <= n < y
  }

  /** The demoted list has no hole from the head's nonce on. */
  ghost predicate Whole(k: Items, h: nat) {
    k != map[] ==> forall n :: h <= n <= Greatest(k.Keys) ==> n in k
  }

  /** Nothing was promoted: what is left of one run is one run. */
  lemma RunAlone(m: Items, k: Items, head: Head, a: Addr, x: nat, y: nat)
    requires Interval(m, x, y) && forall n :: n in k <==> Stays(m, head, a, n)
    ensures Whole(k, head.nonce(a))
  {
    if k != map[] {
      var g := Greatest(k.Keys);
      assert g in k && Stays(m, head, a, g);
      forall n | head.nonce(a) <= n <= g ensures n in k { assert n in m; }
    }
  }

  /** Something was promoted: the rest of the old run stays behind it or is left out. */
  lemma RunJoins(p: Items, up: Items, k: Items, head: Head, a: Addr, x: nat, y: nat, e: nat)
    requires Interval(p, x, y) && head.nonce(a) < e && forall n :: n in up <==> head.nonce(a) <= n < e
    requires forall n :: n in up ==> n !in p && !Over(up[n], head.balance(a), head.maxGas)
    requires forall n :: n in k <==> Stays(p + up, head, a, n)
    ensures head.nonce(a) in k
    ensures Whole(k, head.nonce(a)) <==>
              !(p != map[] && head.nonce(a) < x && e < x && !Over(p[x], head.balance(a), head.maxGas))
    ensures !Whole(k, head.nonce(a)) ==> x in k && e !in k
  {
    var h, m := head.nonce(a), p + up;
    assert h in up && h !in p;
    assert Stays(m, head, a, h);
    var g := Greatest(k.Keys);
    assert g in k && Stays(m, head, a, g);
    if p != map[] && h < x && e < x && !Over(p[x], head.balance(a), head.maxGas) {
      assert x in p;
      assert Stays(m, head, a, x);
      assert x in k && e !in m && h <= e <= g && e !in k;
    } else {
      assert g in p && h < x ==> x in m && h <= x <= g;
      forall n | h <= n <= g ensures n in k {}
    }
  }

  // ----- The whole reset -----

  /** The states a reset passes through, as its contract tells them. */
  ghost predicate Resets(config: Config, g: Gate, now: nat, txs: seq<Tx>, trail: seq<Snap>, gones: seq<set<Tx>>,
                         errs: seq<Option<Error>>, mid: Snap, down: Snap, end: Snap) {
    && Batch(config, g, now, txs, false, trail, gones, errs, mid)
    && Sane(trail[0]) && Sane(mid) && Sane(down) && trail[0].nonces == map[]
    && Demotion(g.head, mid, down) && down.all <= mid.all
    && Promotes(config, g.head, now, down, end, down.queue.Keys)
  }

  /** Neither the capacity nor the global slots can be reached. */
  ghost predicate Roomy(config: Config, g: Gate, all: set<Tx>, txs: seq<Tx>) {
    g.capacity >= config.globalSlots && |all| + |txs| <= config.globalSlots
  }

  /** An account after the batch: its old pending nonces, and what was ready at the head's. */
  lemma AfterBatch(config: Config, g: Gate, now: nat, txs: seq<Tx>, trail: seq<Snap>, gones: seq<set<Tx>>,
                   errs: seq<Option<Error>>, mid: Snap, a: Addr)
    requires Batch(config, g, now, txs, false, trail, gones, errs, mid) && Sane(trail[0]) && trail[0].nonces == map[]
    requires Roomy(config, g, trail[0].all, txs)
    ensures var s := trail[|txs|];
      && Sane(s) && SamePlaces(trail[0].pending, s.pending) && Virtual(g.head, s.nonces, a) == g.head.nonce(a)
      && s.all == Offered(g, trail[0].locals, trail[0].all, txs) && |s.all| <= config.globalSlots
      && Gains(g.head, s, mid, a, Newcomer(trail[0].all, s.all, a)) && mid.all <= s.all
  {
    var s := trail[|txs|];
    TrailFree(g, trail, gones, txs, errs, |txs|);
    assert txs[..|txs|] == txs && VirtualSame(g.head, trail[0], s, a);
    DirtyIs(g, trail, gones, txs, errs, a);
    var dirty := Dirty(trail, gones, txs, errs);
    if dirty == {} {
      assert mid == s;
    } else {
      PromotedFreely(config, g.head, now, s, mid, dirty, a);
      PromotesShrinks(config, g.head, now, s, mid, dirty);
    }
  }

  lemma PromotesShrinks(config: Config, head: Head, now: nat, s0: Snap, s1: Snap, accounts: set<Addr>)
    requires Promotes(config, head, now, s0, s1, accounts)
    ensures s1.all <= s0.all
  {
    var order, mid, level: nat :| Distinct(order) && Members(order) == accounts
                                  && PromotesVia(config, head, now, s0, mid, s1, level, order);
  }

  lemma PayableIs(head: Head, s: Snap, a: Addr, n: nat)
    requires Sane(s) && n in Of(s.pending, a)
    ensures PayableAt(head, s.all, a, n) <==> !Over(Of(s.pending, a)[n], head.balance(a), head.maxGas)
  {
    var p, q := Of(s.pending, a), Of(s.queue, a);
    assert AccountOk(p, q, s.all, a) && OwnAt(p, a, n) && Placed(p, q, s.all, p[n]);
    forall t | t in s.all && t.from == a && t.nonce == n ensures t == p[n] {
      OnePlace(s.pending, s.queue, s.all, p[n], t);
    }
  }

  lemma OldRun(head0: Head, p0: Lists, nonces0: map<Addr, nat>, pending: Lists, a: Addr)
    requires RunsAt(head0, p0, nonces0, a) && SamePlaces(p0, pending)
    ensures var x, y := head0.nonce(a), Virtual(head0, nonces0, a);
      && Interval(Of(p0, a), x, y) && Interval(Of(pending, a), x, y) && (Of(p0, a) == map[] <==> Of(pending, a) == map[])
      && (Of(p0, a) != map[] ==> Least(Of(p0, a).Keys) == x && x in Of(pending, a))
  {
    var x, y, p, p' := head0.nonce(a), Virtual(head0, nonces0, a), Of(p0, a), Of(pending, a);
    assert KeysAt(p0, pending, a);
    forall n ensures (n in p <==> x <= n < y) && (n in p' <==> n in p) {
      assert RunAt(p, x, y, head0.balance(a), head0.maxGas, n);
      assert n in p'.Keys <==> n in p.Keys;
    }
    if p != map[] {
      var n :| n in p;
      assert x in p && x in p.Keys;
    }
  }

  /** One account after the demotion. */
  lemma AccountGap(head: Head, head0: Head, nonces0: map<Addr, nat>, s0: Snap, s: Snap, mid: Snap, down: Snap, a: Addr)
    requires RunsAt(head0, s0.pending, nonces0, a) && SamePlaces(s0.pending, s.pending) && Sane(s)
    requires Virtual(head, s.nonces, a) == head.nonce(a) && Gains(head, s, mid, a, Newcomer(s0.all, s.all, a))
    requires ListsOk(mid.pending, true) && DemotedTo(head, mid, down, a)
    ensures GaplessAt(head, down.pending, mid.nonces, a) <==> !Gap(head, s0.pending, s0.all, s.all, a)
    ensures Gap(head, s0.pending, s0.all, s.all, a) ==>
              && Least(Of(s0.pending, a).Keys) in Of(down.pending, a)
              && RunEnd(Fit(head, s.all, s0.pending, a), head.nonce(a)) !in Of(down.pending, a)
  {
    var h, fit, x, y := head.nonce(a), Fit(head, s.all, s0.pending, a), head0.nonce(a), Virtual(head0, nonces0, a);
    var p, up, k := Of(s.pending, a), Rising(head, s, a), Of(down.pending, a);
    OldRun(head0, s0.pending, nonces0, s.pending, a);
    RisingIs(head, s, s0.pending, a);
    DemotedStays(head, mid, down, a);
    if Newcomer(s0.all, s.all, a) && h in fit {
      var e := RunEnd(fit, h);
      assert e > h && h in up;
      RunJoins(p, up, k, head, a, x, y, e);
      if p != map[] { PayableIs(head, s, a, x); }
      assert k != map[];
    } else {
      assert Of(mid.pending, a) == p by { assert up == map[] ==> p + up == p; assert h !in fit ==> up == map[]; }
      RunAlone(p, k, head, a, x, y);
    }
  }

  /** Nothing that follows closes the gap. */
  lemma GapPersists(config: Config, head: Head, now: nat, s0: Snap, offered: set<Tx>, down: Snap, end: Snap, a: Addr)
    requires Promotes(config, head, now, down, end, down.queue.Keys) && Sane(down) && |down.all| <= config.globalSlots
    requires down.all <= offered && Gap(head, s0.pending, s0.all, offered, a)
    requires Least(Of(s0.pending, a).Keys) in Of(down.pending, a)
    requires RunEnd(Fit(head, offered, s0.pending, a), head.nonce(a)) !in Of(down.pending, a)
    ensures !RunsAt(head, end.pending, end.nonces, a) && Torn(head, s0.pending, offered, end.pending, a)
  {
    var h, x := head.nonce(a), Least(Of(s0.pending, a).Keys);
    var e, p, v := RunEnd(Fit(head, offered, s0.pending, a), h), Of(end.pending, a), Virtual(head, end.nonces, a);
    PromotedFreely(config, head, now, down, end, down.queue.Keys, a);
    ReadyIsFit(head, down, down.pending, a);
    assert e !in Of(s0.pending, a);
    if e in Fit(head, down.all, down.pending, a) {
      FitGrows(head, down.all, down.pending, offered, s0.pending, a, e);
    }
    assert x in p && e !in p && h <= e < x;
    assert !(RunAt(p, h, v, head.balance(a), head.maxGas, x) && RunAt(p, h, v, head.balance(a), head.maxGas, e));
  }

  /** The first of the old pending nonces is still pending, and one before it is missing. */
  ghost predicate Torn(head: Head, p0: Lists, offered: set<Tx>, pending: Lists, a: Addr) {
    && Of(p0, a) != map[] && Least(Of(p0, a).Keys) in Of(pending, a)
    && head.nonce(a) <= RunEnd(Fit(head, offered, p0, a), head.nonce(a)) < Least(Of(p0, a).Keys)
    && RunEnd(Fit(head, offered, p0, a), head.nonce(a)) !in Of(pending, a)
  }

  lemma FitGrows(head: Head, all: set<Tx>, pending: Lists, all': set<Tx>, pending': Lists, a: Addr, n: nat)
    requires n in Fit(head, all, pending, a) && all <= all' && n !in Of(pending', a)
    ensures n in Fit(head, all', pending', a)
  {
  }

  /** No account gets a gap. */
  ghost predicate NoGaps(head: Head, pending: Lists, all: set<Tx>, offered: set<Tx>) {
    forall a {:trigger Gap(head, pending, all, offered, a)} :: !Gap(head, pending, all, offered, a)
  }

  ghost predicate Tears(head: Head, p0: Lists, all: set<Tx>, offered: set<Tx>, pending: Lists) {
    forall a {:trigger Gap(head, p0, all, offered, a)} :: Gap(head, p0, all, offered, a) ==> Torn(head, p0, offered, pending, a)
  }

  /** One account over the whole reset. */
  lemma AccountReset(config: Config, g: Gate, now: nat, txs: seq<Tx>, trail: seq<Snap>, gones: seq<set<Tx>>,
                     errs: seq<Option<Error>>, mid: Snap, down: Snap, end: Snap, head0: Head, nonces0: map<Addr, nat>,
                     offered: set<Tx>, a: Addr)
    requires Resets(config, g, now, txs, trail, gones, errs, mid, down, end) && Roomy(config, g, trail[0].all, txs)
    requires RunsAt(head0, trail[0].pending, nonces0, a)
    requires offered == Offered(g, trail[0].locals, trail[0].all, txs)
    ensures GaplessAt(g.head, down.pending, mid.nonces, a) <==> !Gap(g.head, trail[0].pending, trail[0].all, offered, a)
    ensures Gap(g.head, trail[0].pending, trail[0].all, offered, a) ==>
              !RunsAt(g.head, end.pending, end.nonces, a) && Torn(g.head, trail[0].pending, offered, end.pending, a)
  {
    AfterBatch(config, g, now, txs, trail, gones, errs, mid, a);
    assert DemotedTo(g.head, mid, down, a);
    AccountGap(g.head, head0, nonces0, trail[0], trail[|txs|], mid, down, a);
    if Gap(g.head, trail[0].pending, trail[0].all, offered, a) {
      Priced.Subset(down.all, offered);
      GapPersists(config, g.head, now, trail[0], offered, down, end, a);
    }
  }

  /** Without pressure, a reset of an executable pool leaves it executable exactly if no account
      gets a gap, which the old pool, the new head and the reinjected transactions tell. */
  lemma ResetGaps(config: Config, g: Gate, now: nat, txs: seq<Tx>, trail: seq<Snap>, gones: seq<set<Tx>>,
                  errs: seq<Option<Error>>, mid: Snap, down: Snap, end: Snap, head0: Head, nonces0: map<Addr, nat>,
                  offered: set<Tx>)
    requires Resets(config, g, now, txs, trail, gones, errs, mid, down, end) && Roomy(config, g, trail[0].all, txs)
    requires Runs(head0, trail[0].pending, nonces0)
    requires offered == Offered(g, trail[0].locals, trail[0].all, txs)
    ensures Gapless(g.head, down.pending, mid.nonces) <==> NoGaps(g.head, trail[0].pending, trail[0].all, offered)
    ensures !NoGaps(g.head, trail[0].pending, trail[0].all, offered) ==> !Runs(g.head, end.pending, end.nonces)
    ensures Tears(g.head, trail[0].pending, trail[0].all, offered, end.pending)
  {
    var s0 := trail[0];
    forall a ensures GaplessAt(g.head, down.pending, mid.nonces, a) <==> !Gap(g.head, s0.pending, s0.all, offered, a)
             ensures Gap(g.head, s0.pending, s0.all, offered, a) ==>
                       !RunsAt(g.head, end.pending, end.nonces, a) && Torn(g.head, s0.pending, offered, end.pending, a) {
      assert RunsAt(head0, s0.pending, nonces0, a);
      AccountReset(config, g, now, txs, trail, gones, errs, mid, down, end, head0, nonces0, offered, a);
    }
    assert forall a :: GaplessAt(g.head, down.pending, mid.nonces, a) <==> !Gap(g.head, s0.pending, s0.all, offered, a);
  }
}
