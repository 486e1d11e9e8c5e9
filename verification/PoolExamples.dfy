/** Inputs on which the pool does what its comments or callers do not suggest, each built from
    an empty pool by the pool's own operations. */
module PoolExamples {
  import opened TxTypes
  import opened L = TxList
  import opened PoolState
  import opened PoolLevels
  import opened PoolTrim
  import opened PoolSpec
  import opened PoolReset
  import opened SortedMap
  import Priced = PricedList
  import T = TxPool

  // ----- Additions to a small pool -----

  predicate SameAccount(head: Head, s0: Snap, s1: Snap, a: Addr) {
    && Of(s1.pending, a) == Of(s0.pending, a) && Of(s1.queue, a) == Of(s0.queue, a)
    && Virtual(head, s1.nonces, a) == Virtual(head, s0.nonces, a) && Entry(s1.beats, a) == Entry(s0.beats, a)
  }

  ghost predicate ElseSame(head: Head, s0: Snap, s1: Snap, b: Addr) {
    s1.locals == s0.locals && forall a {:trigger SameAccount(head, s0, s1, a)} :: a != b ==> SameAccount(head, s0, s1, a)
  }

  /** The lookup and the pending nonces determine an account's lists. */
  lemma SameLists(p: Items, q: Items, all: set<Tx>, p': Items, q': Items, all': set<Tx>, a: Addr)
    requires AccountOk(p, q, all, a) && AccountOk(p', q', all', a) && p'.Keys == p.Keys
    requires forall t: Tx :: t.from == a ==> (t in all <==> t in all')
    ensures p' == p && q' == q
  {
    forall n ensures (n in p' <==> n in p) && (n in p ==> p'[n] == p[n]) && (n in q' <==> n in q) && (n in q ==> q'[n] == q[n]) {
      assert n in p' <==> n in p'.Keys;
      assert n in p <==> n in p.Keys;
      assert OwnAt(p, a, n) && OwnAt(q, a, n) && OwnAt(p', a, n) && OwnAt(q', a, n) && Apart(p, q, n) && Apart(p', q', n);
      if n in p { assert Placed(p, q, all, p[n]) && Placed(p', q', all', p[n]); }
      if n in q { assert Placed(p, q, all, q[n]) && Placed(p', q', all', q[n]); }
      if n in q' { assert Placed(p, q, all, q'[n]) && Placed(p', q', all', q'[n]); }
    }
  }

  /** add to a pool that has room, of a transaction without a rival: it goes to the queue. */
  lemma Enqueued(g: Gate, s0: Snap, s1: Snap, tx: Tx, gone: set<Tx>, err: Option<Error>)
    requires Outcome(g, s0, s1, tx, false, gone, err) && |s0.all| < g.capacity && Sane(s0)
    requires tx !in s0.all && Worthy(g, s0.locals, tx, false) && Rival(s0.all, tx) == {}
    ensures err == None && gone == {} && s1.all == s0.all + {tx} && s1.locals == s0.locals && Sane(s1)
    ensures Fresh(s0, tx, gone, err)
    ensures Of(s1.pending, tx.from) == Of(s0.pending, tx.from)
    ensures Of(s1.queue, tx.from) == Of(s0.queue, tx.from)[tx.nonce := tx]
    ensures Virtual(g.head, s1.nonces, tx.from) == Virtual(g.head, s0.nonces, tx.from)
    ensures Entry(s1.beats, tx.from) == Entry(s0.beats, tx.from) && ElseSame(g.head, s0, s1, tx.from)
  {
    AddedFree(g, s0, s1, tx, gone, err);
    assert s1.all == s0.all + {tx} && s0.all - gone == s0.all;
    forall a ensures a != tx.from ==> SameAccount(g.head, s0, s1, a)
             ensures a == tx.from ==>
               && Of(s1.pending, a) == Of(s0.pending, a) && Of(s1.queue, a) == Of(s0.queue, a)[tx.nonce := tx]
               && Virtual(g.head, s1.nonces, a) == Virtual(g.head, s0.nonces, a) && Entry(s1.beats, a) == Entry(s0.beats, a) {
      EnqueuedAt(g, s0, s1, tx, a);
    }
  }

  lemma EnqueuedAt(g: Gate, s0: Snap, s1: Snap, tx: Tx, a: Addr)
    requires Sane(s0) && Sane(s1) && Still(g.head, s0, s1) && s1.all == s0.all + {tx} && tx.signed
    requires BeatsCut(s0.pending, s0.beats, s1.pending, s1.beats) && Rival(s0.all, tx) == {}
    ensures Of(s1.pending, a) == Of(s0.pending, a)
    ensures Of(s1.queue, a) == if a == tx.from then Of(s0.queue, a)[tx.nonce := tx] else Of(s0.queue, a)
    ensures Virtual(g.head, s1.nonces, a) == Virtual(g.head, s0.nonces, a) && Entry(s1.beats, a) == Entry(s0.beats, a)
  {
    var p, q, p', q' := Of(s0.pending, a), Of(s0.queue, a), Of(s1.pending, a), Of(s1.queue, a);
    assert KeysAt(s0.pending, s1.pending, a) && VirtualSame(g.head, s0, s1, a);
    assert BeatsAt(s0.pending, s0.beats, s1.pending, s1.beats, a);
    assert AccountOk(p, q, s0.all, a) && AccountOk(p', q', s1.all, a);
    if a == tx.from {
      RivalIs(s0.pending, s0.queue, s0.all, tx);
      QueuePut(p, q, s0.all, a, tx, s1.all);
      SameLists(p, q[tx.nonce := tx], s1.all, p', q', s1.all, a);
    } else {
      SameLists(p, q, s0.all, p', q', s1.all, a);
    }
  }

  lemma PartSize(r: Items, m: Items)
    requires forall n :: n in r ==> n in m
    ensures |r| <= |m|
  {
    KeysSize(r.Keys, m.Keys);
  }

  lemma {:induction false} KeysSize(a: set<nat>, b: set<nat>)
    requires a <= b
    ensures |a| <= |b|
  {
    if a != {} {
      var x :| x in a;
      KeysSize(a - {x}, b - {x});
    }
  }

  /** The queue is within its limit once the account was promoted. */
  ghost predicate QueueFits(config: Config, head: Head, s: Snap, b: Addr) {
    Total(s.queue) + |Behind(head, config.accountQueue, s, b)| <= config.globalQueue + |Of(s.queue, b)|
  }

  lemma GainsOn(head: Head, limit: nat, now: nat, s: Snap, mid: Snap, s1: Snap, a: Addr, promoted: bool)
    requires Gains(head, s, mid, a, promoted) && Leftover(head, limit, now, s, mid, a, promoted)
    requires Of(s1.pending, a) == Of(mid.pending, a) && Virtual(head, s1.nonces, a) == Virtual(head, mid.nonces, a)
    requires s1.queue == mid.queue && s1.beats == mid.beats
    ensures Gains(head, s, s1, a, promoted) && Leftover(head, limit, now, s, s1, a, promoted)
  {
  }

  ghost function Up(head: Head, s: Snap, a: Addr, promoted: bool): Items {
    if promoted then Rising(head, s, a) else map[]
  }

  lemma GainsUp(head: Head, s: Snap, mid: Snap, a: Addr, promoted: bool)
    requires Gains(head, s, mid, a, promoted)
    ensures Of(mid.pending, a) == Of(s.pending, a) + Up(head, s, a, promoted)
  {
    PlusNone(Of(s.pending, a));
  }

  lemma PlusNone(m: Items)
    ensures m + map[] == m
  {
  }

  /** promoteExecutables for one account of a small pool, as any account sees it. */
  lemma SmallStep(config: Config, head: Head, now: nat, s: Snap, s1: Snap, b: Addr, a: Addr)
    requires Promotes(config, head, now, s, s1, {b}) && Sane(s) && QueueFits(config, head, s, b)
    requires |Of(s.pending, a) + Up(head, s, a, a == b)| <= config.accountSlots
    ensures Gains(head, s, s1, a, a == b) && Leftover(head, config.accountQueue, now, s, s1, a, a == b)
    ensures s1.locals == s.locals
  {
    var order, mid, level: nat :| Distinct(order) && Members(order) == {b}
                                  && PromotesVia(config, head, now, s, mid, s1, level, order);
    assert a in order <==> a in Members(order);
    SmallVia(config, head, now, s, mid, s1, level, order, b, a);
  }

  lemma SmallVia(config: Config, head: Head, now: nat, s: Snap, mid: Snap, s1: Snap, level: nat, order: seq<Addr>,
                 b: Addr, a: Addr)
    requires PromotesVia(config, head, now, s, mid, s1, level, order) && Distinct(order) && Members(order) == {b}
    requires Sane(s) && QueueFits(config, head, s, b) && (a in order <==> a == b)
    requires |Of(s.pending, a) + Up(head, s, a, a in order)| <= config.accountSlots
    ensures Gains(head, s, s1, a, a in order) && Leftover(head, config.accountQueue, now, s, s1, a, a in order)
    ensures s1.locals == s.locals
  {
    PhaseOne(config, head, now, s, mid, s1, level, order, a);
    GainsUp(head, s, mid, a, a in order);
    QueueWithin(config, head, now, s, mid, s1, level, order, b);
    LastPhases(config, head, now, s, mid, s1, level, order, a);
    GainsOn(head, config.accountQueue, now, s, mid, s1, a, a in order);
  }

  lemma QueueWithin(config: Config, head: Head, now: nat, s: Snap, mid: Snap, s1: Snap, level: nat, order: seq<Addr>, b: Addr)
    requires PromotesVia(config, head, now, s, mid, s1, level, order) && Distinct(order) && Members(order) == {b}
    requires Sane(s) && QueueFits(config, head, s, b)
    ensures s1.queue == mid.queue
  {
    forall a | a != b ensures SameAt(s.queue, mid.queue, a) {
      assert a !in Members(order);
      assert UntouchedAt(s, mid, a);
    }
    assert b in Members(order);
    PhaseOne(config, head, now, s, mid, s1, level, order, b);
    TotalOnlyAt(s.queue, mid.queue, b);
  }

  lemma BehindSize(head: Head, limit: nat, s: Snap, b: Addr)
    requires Sane(s)
    ensures |Behind(head, limit, s, b)| <= |Of(s.queue, b)|
  {
    ReadyIsFit(head, s, s.pending, b);
    var fit := Ready(head, s, b);
    var rest := From(fit, ReadyEnd(fit, Virtual(head, s.nonces, b)));
    CutPart(rest, limit);
    if b in s.queue {
      ListOfIs(s.queue, b, false);
      EligibleOk(head, s.queue[b], b);
    }
    PartSize(Behind(head, limit, s, b), Of(s.queue, b));
  }

  /** A short list is not cut. */
  lemma LastPhases(config: Config, head: Head, now: nat, s: Snap, mid: Snap, s1: Snap, level: nat, order: seq<Addr>, a: Addr)
    requires PromotesVia(config, head, now, s, mid, s1, level, order) && |Of(mid.pending, a)| <= config.accountSlots
    ensures Of(s1.pending, a) == Of(mid.pending, a) && Virtual(head, s1.nonces, a) == Virtual(head, mid.nonces, a)
    ensures s1.beats == mid.beats
  {
    assert PoolLevels.CutAt(s1.pending, mid.pending, mid.locals, level, a);
    assert ShrunkAt(head, mid.pending, mid.nonces, s1.pending, s1.nonces, a);
  }

  /** The only queued transaction of an account is ready exactly at its virtual nonce. */
  lemma ReadyAlone(head: Head, limit: nat, s: Snap, tx: Tx)
    requires Sane(s) && Of(s.queue, tx.from) == map[tx.nonce := tx] && limit >= 1
    requires head.nonce(tx.from) <= tx.nonce && !Over(tx, head.balance(tx.from), head.maxGas)
    requires Virtual(head, s.nonces, tx.from) <= tx.nonce
    ensures var v := Virtual(head, s.nonces, tx.from);
      && Rising(head, s, tx.from) == (if v == tx.nonce then map[tx.nonce := tx] else map[])
      && Behind(head, limit, s, tx.from) == (if v == tx.nonce then map[] else map[tx.nonce := tx])
      && (v == tx.nonce ==> ReadyEnd(Ready(head, s, tx.from), v) == v + 1)
  {
    var b, n, m, v := tx.from, tx.nonce, tx.nonce + 1, Virtual(head, s.nonces, tx.from);
    assert n in Of(s.queue, b);
    ListOfIs(s.queue, b, false);
    EligibleOk(head, s.queue[b], b);
    var fit := Ready(head, s, b);
    assert fit == map[n := tx];
    AloneEnd(fit, tx, v);
  }

  lemma AloneEnd(fit: Items, tx: Tx, v: nat)
    requires fit == map[tx.nonce := tx] && v <= tx.nonce
    ensures var e := ReadyEnd(fit, v);
      if v == tx.nonce then e == v + 1 && Below(fit, e) == fit && From(fit, e) == map[]
      else e == 0 && Below(fit, e) == map[] && From(fit, e) == fit
  {
    var n, m := tx.nonce, tx.nonce + 1;
    assert fit.Keys == {n} && Least(fit.Keys) == n;
    if v == n {
      var e := RunEnd(fit.Keys, n);
      assert e > n && (m < e ==> m in fit.Keys);
      assert From(fit, e) == map[] && Below(fit, e) == fit;
    } else {
      assert ReadyEnd(fit, v) == 0 && Below(fit, 0) == map[] && From(fit, 0) == fit;
    }
  }

  /** A pool in which every account could have one more pending and one more queued. */
  ghost predicate Small(config: Config, s: Snap) {
    && Total(s.queue) < config.globalQueue && config.accountQueue >= 1
    && forall a {:trigger RoomAt(config, s, a)} :: RoomAt(config, s, a)
  }

  predicate RoomAt(config: Config, s: Snap, a: Addr) { |Of(s.pending, a)| < config.accountSlots }

  /** The outcome of addTx for the first queued transaction of an account: it is promoted at the
      virtual nonce and waits above it. */
  ghost predicate Lands(head: Head, now: nat, s0: Snap, s1: Snap, tx: Tx) {
    var b, v := tx.from, Virtual(head, s0.nonces, tx.from);
    && ElseSame(head, s0, s1, b)
    && if v == tx.nonce then
         && Of(s1.pending, b) == Of(s0.pending, b) + map[v := tx] && Of(s1.queue, b) == map[]
         && Virtual(head, s1.nonces, b) == v + 1 && Entry(s1.beats, b) == Some(now)
       else
         && Of(s1.pending, b) == Of(s0.pending, b) && Of(s1.queue, b) == map[tx.nonce := tx]
         && Virtual(head, s1.nonces, b) == v && Entry(s1.beats, b) == Entry(s0.beats, b)
  }

  lemma UnionSize(p: Items, n: nat, tx: Tx)
    ensures |p + map[n := tx]| <= |p| + 1
  {
    var m := p + map[n := tx];
    assert m.Keys == p.Keys + {n} && |m.Keys| == |m| && |p.Keys| == |p|;
  }

  lemma LandsAt(head: Head, limit: nat, now: nat, s0: Snap, s: Snap, s1: Snap, tx: Tx)
    requires Gains(head, s, s1, tx.from, true) && Leftover(head, limit, now, s, s1, tx.from, true) && Sane(s) && limit >= 1
    requires Of(s.pending, tx.from) == Of(s0.pending, tx.from) && Of(s.queue, tx.from) == map[tx.nonce := tx]
    requires Virtual(head, s.nonces, tx.from) == Virtual(head, s0.nonces, tx.from) <= tx.nonce
    requires Entry(s.beats, tx.from) == Entry(s0.beats, tx.from) && ElseSame(head, s0, s1, tx.from)
    requires head.nonce(tx.from) <= tx.nonce && !Over(tx, head.balance(tx.from), head.maxGas)
    ensures Lands(head, now, s0, s1, tx)
  {
    ReadyAlone(head, limit, s, tx);
    PlusNone(Of(s.pending, tx.from));
    var one: Items := map[tx.nonce := tx];
    assert tx.nonce in one;
  }

  lemma UpFits(config: Config, head: Head, s0: Snap, s: Snap, tx: Tx)
    requires Sane(s) && Small(config, s0)
    requires Of(s.pending, tx.from) == Of(s0.pending, tx.from) && Of(s.queue, tx.from) == map[tx.nonce := tx]
    requires head.nonce(tx.from) <= tx.nonce && !Over(tx, head.balance(tx.from), head.maxGas)
    requires Virtual(head, s.nonces, tx.from) <= tx.nonce
    ensures |Of(s.pending, tx.from) + Up(head, s, tx.from, true)| <= config.accountSlots
  {
    ReadyAlone(head, config.accountQueue, s, tx);
    UnionSize(Of(s.pending, tx.from), tx.nonce, tx);
    assert RoomAt(config, s0, tx.from);
    PlusNone(Of(s.pending, tx.from));
  }

  lemma PromotedSmall(config: Config, head: Head, now: nat, s0: Snap, s: Snap, s1: Snap, tx: Tx)
    requires Promotes(config, head, now, s, s1, {tx.from}) && Sane(s) && Small(config, s0)
    requires ElseSame(head, s0, s, tx.from) && Of(s0.queue, tx.from) == map[] && Total(s.queue) <= config.globalQueue
    requires Of(s.pending, tx.from) == Of(s0.pending, tx.from) && Of(s.queue, tx.from) == map[tx.nonce := tx]
    requires Virtual(head, s.nonces, tx.from) == Virtual(head, s0.nonces, tx.from) <= tx.nonce
    requires Entry(s.beats, tx.from) == Entry(s0.beats, tx.from)
    requires head.nonce(tx.from) <= tx.nonce && !Over(tx, head.balance(tx.from), head.maxGas)
    ensures Lands(head, now, s0, s1, tx)
  {
    var b := tx.from;
    UpFits(config, head, s0, s, tx);
    BehindSize(head, config.accountQueue, s, b);
    SmallStep(config, head, now, s, s1, b, b);
    forall a | a != b ensures SameAccount(head, s0, s1, a) {
      assert SameAccount(head, s0, s, a) && RoomAt(config, s0, a);
      PlusNone(Of(s.pending, a));
      SmallStep(config, head, now, s, s1, b, a);
    }
    LandsAt(head, config.accountQueue, now, s0, s, s1, tx);
  }

  /** Every transaction is in some list. */
  lemma SameLookup(s0: Snap, s1: Snap, tx: Tx)
    requires Sane(s0) && Sane(s1) && s1.all <= s0.all + {tx}
    requires forall a, n {:trigger n in Of(s0.pending, a)} {:trigger n in Of(s0.queue, a)} ::
               (n in Of(s0.pending, a) ==> n in Of(s1.pending, a) && Of(s1.pending, a)[n] == Of(s0.pending, a)[n])
               && (n in Of(s0.queue, a) ==> n in Of(s1.queue, a) && Of(s1.queue, a)[n] == Of(s0.queue, a)[n])
    requires Has(Of(s1.pending, tx.from), tx) || Has(Of(s1.queue, tx.from), tx)
    ensures s1.all == s0.all + {tx}
  {
    forall t | t in s0.all + {tx} ensures t in s1.all {
      var a := t.from;
      assert AccountOk(Of(s0.pending, a), Of(s0.queue, a), s0.all, a) && AccountOk(Of(s1.pending, a), Of(s1.queue, a), s1.all, a);
      assert Placed(Of(s0.pending, a), Of(s0.queue, a), s0.all, t) && Placed(Of(s1.pending, a), Of(s1.queue, a), s1.all, t);
    }
  }

  /** addTx to a small pool that has room. */
  lemma AddTxLands(config: Config, g: Gate, now: nat, s0: Snap, mid: Snap, s1: Snap, tx: Tx, gone: set<Tx>, err: Option<Error>)
    requires Outcome(g, s0, mid, tx, false, gone, err) && |s0.all| < g.capacity && Sane(s0) && Sane(s1)
    requires Settles(config, g.head, now, mid, s1, if Fresh(s0, tx, gone, err) then {tx.from} else {}) && s1.all <= mid.all
    requires tx !in s0.all && Worthy(g, s0.locals, tx, false) && Rival(s0.all, tx) == {}
    requires Small(config, s0) && Of(s0.queue, tx.from) == map[] && Virtual(g.head, s0.nonces, tx.from) <= tx.nonce
    ensures Lands(g.head, now, s0, s1, tx) && s1.all == s0.all + {tx} && s1.locals == s0.locals
  {
    Enqueued(g, s0, mid, tx, gone, err);
    QueuedTotal(g.head, s0, mid, tx);
    PromotedSmall(config, g.head, now, s0, mid, s1, tx);
    LandedLookup(g.head, now, s0, s1, tx);
  }

  lemma LandedLookup(head: Head, now: nat, s0: Snap, s1: Snap, tx: Tx)
    requires Sane(s0) && Sane(s1) && s1.all <= s0.all + {tx} && Lands(head, now, s0, s1, tx)
    requires Rival(s0.all, tx) == {} && Of(s0.queue, tx.from) == map[]
    ensures s1.all == s0.all + {tx}
  {
    RivalIs(s0.pending, s0.queue, s0.all, tx);
    forall a, n ensures n in Of(s0.pending, a) ==> n in Of(s1.pending, a) && Of(s1.pending, a)[n] == Of(s0.pending, a)[n]
                ensures n in Of(s0.queue, a) ==> n in Of(s1.queue, a) && Of(s1.queue, a)[n] == Of(s0.queue, a)[n] {
      assert a != tx.from ==> SameAccount(head, s0, s1, a);
    }
    SameLookup(s0, s1, tx);
  }

  lemma QueuedTotal(head: Head, s0: Snap, s: Snap, tx: Tx)
    requires Sane(s0) && Sane(s) && ElseSame(head, s0, s, tx.from) && Of(s0.queue, tx.from) == map[]
    requires Of(s.queue, tx.from) == map[tx.nonce := tx]
    ensures Total(s.queue) == Total(s0.queue) + 1
  {
    var b := tx.from;
    assert Slots(s.queue) == Slots(s0.queue) + {(b, tx.nonce)} && (b, tx.nonce) !in Slots(s0.queue) by {
      forall x ensures x in Slots(s.queue) <==> x in Slots(s0.queue) || x == (b, tx.nonce) {
        assert x.0 != b ==> SameAccount(head, s0, s, x.0);
        assert x in Slots(s.queue) <==> x.1 in Of(s.queue, x.0);
        assert x in Slots(s0.queue) <==> x.1 in Of(s0.queue, x.0);
      }
    }
  }

  /** addTx to a small pool that has room. */
  method Put(pool: T.TxPool, tx: Tx, now: nat)
    requires pool.Valid() && !pool.Full() && tx !in pool.all && Rival(pool.all, tx) == {} && Small(pool.config, pool.Now())
    requires Worthy(pool.Rules(), pool.locals, tx, false) && Of(pool.queue, tx.from) == map[] && pool.NonceOf(tx.from) <= tx.nonce
    modifies pool`pending, pool`queue, pool`all, pool`beats, pool`nonces, pool`locals, pool.priced
    ensures pool.Valid() && (old(pool.Executable()) ==> pool.Executable())
    ensures Lands(pool.head, now, old(pool.Now()), pool.Now(), tx)
    ensures pool.all == old(pool.all) + {tx} && pool.locals == old(pool.locals)
  {
    ghost var s := pool.Now();
    var err;
    ghost var mid, gone;
    err, mid, gone := pool.AddTx(tx, false, now);
    AddTxLands(pool.config, pool.Rules(), now, s, mid, pool.Now(), tx, gone, err);
  }

  predicate QueueEmptyAt(s: Snap, a: Addr) { Of(s.queue, a) == map[] }

  ghost predicate NoneQueued(s: Snap) {
    forall a {:trigger QueueEmptyAt(s, a)} :: QueueEmptyAt(s, a)
  }

  predicate LightAt(s: Snap, k: nat, a: Addr) { |Of(s.pending, a)| <= k }

  ghost predicate Light(s: Snap, k: nat) {
    forall a {:trigger LightAt(s, k, a)} :: LightAt(s, k, a)
  }

  lemma NoneTotal(s: Snap)
    requires NoneQueued(s)
    ensures Total(s.queue) == 0
  {
    forall x ensures x !in Slots(s.queue) {
      assert QueueEmptyAt(s, x.0);
      assert x in Slots(s.queue) ==> x.1 in Of(s.queue, x.0);
    }
    assert Slots(s.queue) == {};
  }

  lemma LandsLight(head: Head, now: nat, s0: Snap, s1: Snap, tx: Tx, k: nat)
    requires Lands(head, now, s0, s1, tx) && Light(s0, k) && NoneQueued(s0) && Virtual(head, s0.nonces, tx.from) == tx.nonce
    ensures Light(s1, k + 1) && NoneQueued(s1)
  {
    UnionSize(Of(s0.pending, tx.from), tx.nonce, tx);
    forall a ensures QueueEmptyAt(s1, a) { assert a != tx.from ==> SameAccount(head, s0, s1, a) && QueueEmptyAt(s0, a); }
    var more := k + 1;
    forall a ensures LightAt(s1, more, a) {
      assert LightAt(s0, k, a);
      assert a != tx.from ==> SameAccount(head, s0, s1, a);
    }
  }

  lemma LightSmall(config: Config, s: Snap, k: nat)
    requires NoneQueued(s) && Light(s, k) && k < config.accountSlots && config.globalQueue >= 1 && config.accountQueue >= 1
    ensures Small(config, s)
  {
    NoneTotal(s);
    forall a ensures RoomAt(config, s, a) { assert LightAt(s, k, a); }
  }

  /** addTx of the next transaction of an account, with nothing queued in the pool. */
  method PutNext(pool: T.TxPool, tx: Tx, now: nat, ghost k: nat)
    requires pool.Valid() && !pool.Full() && tx !in pool.all && Rival(pool.all, tx) == {}
    requires NoneQueued(pool.Now()) && Light(pool.Now(), k) && k < pool.config.accountSlots
    requires pool.config.globalQueue >= 1 && pool.config.accountQueue >= 1
    requires Worthy(pool.Rules(), pool.locals, tx, false) && pool.NonceOf(tx.from) == tx.nonce
    modifies pool`pending, pool`queue, pool`all, pool`beats, pool`nonces, pool`locals, pool.priced
    ensures pool.Valid() && (old(pool.Executable()) ==> pool.Executable())
    ensures Lands(pool.head, now, old(pool.Now()), pool.Now(), tx) && NoneQueued(pool.Now()) && Light(pool.Now(), k + 1)
    ensures pool.all == old(pool.all) + {tx} && pool.locals == old(pool.locals)
  {
    ghost var s := pool.Now();
    LightSmall(pool.config, s, k);
    assert QueueEmptyAt(s, tx.from);
    Put(pool, tx, now);
    LandsLight(pool.head, now, s, pool.Now(), tx, k);
  }

  function Bare(id: nat, from: Addr, nonce: nat, price: nat): Tx {
    Tx(id, from, nonce, price, 1, price, 0, 0, 1, true)
  }

  lemma Fresh0(s: Snap)
    requires s.pending == map[] && s.queue == map[]
    ensures NoneQueued(s) && Light(s, 0)
  {
  }

  /** The account's lists, next nonce and heartbeat. */
  ghost predicate Holds(head: Head, s: Snap, a: Addr, p: Items, v: nat, beat: nat) {
    Of(s.pending, a) == p && Of(s.queue, a) == map[] && Virtual(head, s.nonces, a) == v && Entry(s.beats, a) == Some(beat)
  }

  ghost predicate Starts(config: Config, head: Head, x: Tx) {
    && config.accountSlots >= 2 && config.globalQueue >= 1 && config.accountQueue >= 1
    && Admissible(head, x) && x.nonce == head.nonce(x.from)
  }

  /** A pool with one pending transaction, since time 1. */
  method OnePool(config: Config, head: Head, x: Tx) returns (pool: T.TxPool)
    requires Starts(config, head, x)
    ensures fresh(pool) && fresh(pool.priced) && pool.Valid() && pool.Executable()
    ensures pool.config == config && pool.head == head && pool.gasPrice == 0 && pool.all == {x} && pool.locals == {}
    ensures NoneQueued(pool.Now()) && Light(pool.Now(), 1)
    ensures Holds(head, pool.Now(), x.from, map[x.nonce := x], x.nonce + 1, 1)
    ensures forall a {:trigger pool.NonceOf(a)} :: a != x.from ==> pool.NonceOf(a) == head.nonce(a)
    ensures forall a {:trigger Of(pool.pending, a)} :: a != x.from ==> Of(pool.pending, a) == map[]
  {
    pool := new T.TxPool(config, head, 0);
    ghost var s := pool.Now();
    Fresh0(s);
    PutNext(pool, x, 1, 0);
    FirstOf(head, s, pool.Now(), x);
  }

  lemma FirstOf(head: Head, s0: Snap, s1: Snap, x: Tx)
    requires s0 == Snap(map[], map[], map[], map[], {}, {}) && Lands(head, 1, s0, s1, x) && x.nonce == head.nonce(x.from)
    ensures Holds(head, s1, x.from, map[x.nonce := x], x.nonce + 1, 1)
    ensures forall a :: a != x.from ==> Virtual(head, s1.nonces, a) == head.nonce(a) && Of(s1.pending, a) == map[]
  {
    assert map[] + map[x.nonce := x] == map[x.nonce := x];
    forall a | a != x.from ensures Virtual(head, s1.nonces, a) == head.nonce(a) && Of(s1.pending, a) == map[] {
      assert SameAccount(head, s0, s1, a);
    }
  }

  /** A pool with a pending transaction of each of two accounts, since times 1 and 2. */
  method PairPool(config: Config, head: Head, x: Tx, y: Tx) returns (pool: T.TxPool)
    requires Starts(config, head, x) && Starts(config, head, y) && x.from != y.from
    requires config.globalSlots + config.globalQueue >= 2
    ensures fresh(pool) && fresh(pool.priced) && pool.Valid() && pool.Executable()
    ensures pool.config == config && pool.head == head && pool.gasPrice == 0 && pool.all == {x, y} && pool.locals == {}
    ensures NoneQueued(pool.Now()) && Light(pool.Now(), 2)
    ensures Holds(head, pool.Now(), x.from, map[x.nonce := x], x.nonce + 1, 1)
    ensures Holds(head, pool.Now(), y.from, map[y.nonce := y], y.nonce + 1, 2)
  {
    pool := OnePool(config, head, x);
    ghost var s := pool.Now();
    assert Of(pool.pending, y.from) == map[] && pool.NonceOf(y.from) == head.nonce(y.from);
    PutNext(pool, y, 2, 1);
    assert SameAccount(head, s, pool.Now(), x.from);
    assert map[] + map[y.nonce := y] == map[y.nonce := y];
  }

  // ----- A refusal that costs another its place -----

  lemma OnlyCheapest(cheap: Tx, held: Tx, gone: set<Tx>)
    requires cheap.price < held.price && Discarded({cheap, held}, {}, gone, 1)
    ensures gone == {cheap} && {cheap, held} - gone == {held}
  {
    var all := {cheap, held};
    assert cheap in Priced.Remote(all, {}) && held in Priced.Remote(all, {});
    if held in gone {
      assert !Priced.NoDearer(held, cheap);
      assert cheap in gone;
      Priced.Subset({cheap, held}, gone);
    }
    assert cheap in gone;
  }

  lemma RefusedAtACost(g: Gate, s0: Snap, s1: Snap, cheap: Tx, held: Tx, late: Tx, gone: set<Tx>, err: Option<Error>)
    requires Outcome(g, s0, s1, late, false, gone, err) && s0.all == {cheap, held} && g.capacity == 2 && s0.locals == {}
    requires late !in s0.all && Worthy(g, {}, late, false) && cheap.price < late.price == held.price
    requires late.from == held.from && late.nonce == held.nonce
    ensures err == Some(ReplaceUnderpriced) && s1.all == {held}
  {
    assert cheap != held && |{cheap, held}| == 2;
    assert !Dearer(cheap, late);
    OnlyCheapest(cheap, held, gone);
    assert held in Rival({held}, late) && !Outbids(held, late, g.bump);
  }

  /** A pool for two holds a cheap transaction of one account and one at price 10 of another.
      A second one at price 10 under the other's nonce is refused, and the cheap one is lost. */
  method RefusalExample() returns (pool: T.TxPool, cheap: Tx, held: Tx, late: Tx, err: Option<Error>)
    ensures pool.Valid() && pool.all == {held} && cheap != held && err == Some(ReplaceUnderpriced)
    ensures cheap.price < late.price && late.from == held.from && late.nonce == held.nonce
  {
    cheap, held, late := Bare(0, 0, 0, 1), Bare(1, 1, 0, 10), Bare(2, 1, 0, 10);
    pool := PairPool(Config(10, 4, 1, 1, 1, 0), Head(_ => 0, _ => 100, 100), cheap, held);
    err := AddLate(pool, cheap, held, late);
  }

  method AddLate(pool: T.TxPool, cheap: Tx, held: Tx, late: Tx) returns (err: Option<Error>)
    requires pool.Valid() && pool.all == {cheap, held} && pool.locals == {} && pool.Rules().capacity == 2
    requires late !in pool.all && Worthy(pool.Rules(), {}, late, false) && cheap.price < late.price == held.price
    requires late.from == held.from && late.nonce == held.nonce
    modifies pool`pending, pool`queue, pool`all, pool`beats, pool`nonces, pool`locals, pool.priced
    ensures pool.Valid() && pool.all == {held} && err == Some(ReplaceUnderpriced)
  {
    ghost var s, mid, gone := pool.Now(), pool.Now(), {};
    err, mid, gone := pool.AddTx(late, false, 3);
    RefusedAtACost(pool.Rules(), s, mid, cheap, held, late, gone, err);
  }

  // ----- A refusal by the price bump alone -----

  lemma BumpDecides(g: Gate, s0: Snap, s1: Snap, held: Tx, tx: Tx, gone: set<Tx>, err: Option<Error>)
    requires Outcome(g, s0, s1, tx, false, gone, err) && s0.all == {held} && g.capacity == 2 && s0.locals == {} && g.bump == 10
    requires tx != held && Worthy(g, {}, tx, false) && tx.from == held.from && tx.nonce == held.nonce && held.price == 20
    ensures tx.price == 21 ==> err == Some(ReplaceUnderpriced) && s1.all == {held}
    ensures tx.price == 22 ==> err == None && s1.all == {tx}
  {
    assert |{held}| == 1 && gone == {} && {held} - gone == {held};
    VerdictByPrice(g, {}, {held}, tx, false, gone, err);
    assert Rival({held}, tx) == {held};
  }

  /** Under a price bump of 10 percent, a transaction at price 20 is not replaced at price 21,
      but at price 22. */
  method BumpExample() returns (pool: T.TxPool, held: Tx, low: Tx, high: Tx, err: Option<Error>, err': Option<Error>)
    ensures held.price == 20 && low.price == 21 && high.price == 22
    ensures err == Some(ReplaceUnderpriced) && err' == None && pool.Valid() && pool.all == {high}
  {
    held, low, high := Bare(0, 0, 0, 20), Bare(1, 0, 0, 21), Bare(2, 0, 0, 22);
    pool := OnePool(Config(10, 4, 1, 1, 1, 0), Head(_ => 0, _ => 100, 100), held);
    err := Bid(pool, held, low);
    err' := Bid(pool, held, high);
  }

  method Bid(pool: T.TxPool, held: Tx, tx: Tx) returns (err: Option<Error>)
    requires pool.Valid() && pool.all == {held} && pool.locals == {} && pool.Rules().capacity == 2 && pool.config.priceBump == 10
    requires tx != held && Worthy(pool.Rules(), {}, tx, false)
    requires tx.from == held.from && tx.nonce == held.nonce && held.price == 20
    modifies pool`pending, pool`queue, pool`all, pool`beats, pool`nonces, pool`locals, pool.priced
    ensures pool.Valid() && pool.locals == {}
    ensures tx.price == 21 ==> err == Some(ReplaceUnderpriced) && pool.all == {held}
    ensures tx.price == 22 ==> err == None && pool.all == {tx}
  {
    ghost var s, gone := pool.Now(), {};
    var replaced;
    replaced, err, gone := pool.Add(tx, false);
    BumpDecides(pool.Rules(), s, pool.Now(), held, tx, gone, err);
  }

  // ----- A truncation that takes the newest -----

  /** Two accounts with one queued transaction each. */
  ghost predicate TwoQueued(q: Lists) {
    && ListsOk(q, false) && (forall a {:trigger QueuedAt(q, a)} :: QueuedAt(q, a))
    && |Of(q, 0)| == 1 && |Of(q, 1)| == 1
  }

  predicate QueuedAt(q: Lists, a: Addr) { a in q <==> a < 2 }

  lemma TotalOfTwo(q: Lists)
    requires forall a :: a in q ==> a < 2
    ensures Total(q) == |Of(q, 0)| + |Of(q, 1)|
  {
    var rest := q - {0};
    if 0 in q { TotalAt(q, 0); } else { assert rest == q; }
    if 1 in q { TotalAt(rest, 1); } else { assert rest - {1} == rest; }
    assert rest - {1} == map[] && Slots(rest - {1}) == {};
  }

  lemma NewestTaken(config: Config, beats: map<Addr, nat>, q0: Lists, q: Lists)
    requires TwoQueued(q0) && config.globalQueue == 1 && Beat(beats, 0) < Beat(beats, 1)
    requires Truncates(config, {}, beats, q0, q) && ListsOk(q, false)
    ensures 0 in q && Of(q, 0) == Of(q0, 0) && 1 !in q && !OldestFirst(q0, q, {}, beats)
  {
    var todo, partial :| Trimming(q0, q, {}, beats, todo, partial);
    assert LeftAt(q0, q, {}, todo, partial, 0) && ListAt(q, false, 0) && ListAt(q, false, 1);
    assert QueuedAt(q0, 0) && QueuedAt(q0, 1) && forall a :: a in q0 ==> QueuedAt(q0, a);
    Subsumed(q0, q, {}, beats, todo, partial);
    TotalOfTwo(q0);
    TotalOfTwo(q);
    if 0 !in q { LatestFirst(q0, q, {}, beats, todo, partial, 0, 1); }
    assert 0 in Others(q0, {}) && 1 in Others(q0, {});
  }

  ghost predicate QueuedOnly(s: Snap, q: Items) {
    Of(s.queue, 0) == q && forall a {:trigger QueueEmptyAt(s, a)} :: a != 0 ==> QueueEmptyAt(s, a)
  }

  lemma StillWaits(head: Head, limit: nat, now: nat, s: Snap, mid: Snap, y: Tx)
    requires Leftover(head, limit, now, s, mid, y.from, true) && Sane(s) && limit >= 1
    requires Of(s.queue, y.from) == map[y.nonce := y] && Virtual(head, s.nonces, y.from) < y.nonce
    requires head.nonce(y.from) <= y.nonce && !Over(y, head.balance(y.from), head.maxGas)
    ensures Of(mid.queue, y.from) == map[y.nonce := y] && Entry(mid.beats, y.from) == Entry(s.beats, y.from)
  {
    ReadyAlone(head, limit, s, y);
  }

  /** The queue of two accounts before the truncation. */
  lemma BothWait(config: Config, head: Head, now: nat, s0: Snap, s: Snap, s1: Snap, x: Tx, y: Tx) returns (q0: Lists)
    requires Promotes(config, head, now, s, s1, {1}) && Sane(s) && config.accountQueue >= 1 && s.locals == {}
    requires ElseSame(head, s0, s, 1) && QueuedOnly(s0, map[x.nonce := x]) && Of(s.queue, 1) == map[y.nonce := y] && y.from == 1
    requires head.nonce(1) <= y.nonce && !Over(y, head.balance(1), head.maxGas) && Virtual(head, s.nonces, 1) < y.nonce
    requires Entry(s.beats, 0) == Some(1) && Entry(s.beats, 1) == Some(2)
    ensures TwoQueued(q0) && Truncates(config, {}, s1.beats, q0, s1.queue)
    ensures Beat(s1.beats, 0) == 1 && Beat(s1.beats, 1) == 2 && s1.locals == {}
  {
    var order, mid, level: nat :| Distinct(order) && Members(order) == {1}
                                  && PromotesVia(config, head, now, s, mid, s1, level, order);
    q0 := mid.queue;
    assert 1 in Members(order);
    PhaseOne(config, head, now, s, mid, s1, level, order, 1);
    StillWaits(head, config.accountQueue, now, s, mid, y);
    Elsewhere1(head, s0, s, mid, order);
    QueuedTwice(s0, q0, x, y);
  }

  lemma Elsewhere1(head: Head, s0: Snap, s: Snap, mid: Snap, order: seq<Addr>)
    requires OthersSame(s, mid, order) && Members(order) == {1} && ElseSame(head, s0, s, 1)
    ensures forall a :: a != 1 ==> Of(mid.queue, a) == Of(s0.queue, a)
    ensures Entry(mid.beats, 0) == Entry(s.beats, 0)
  {
    forall a | a != 1 ensures Of(mid.queue, a) == Of(s0.queue, a) && Entry(mid.beats, a) == Entry(s.beats, a) {
      assert SameAccount(head, s0, s, a) && a !in Members(order);
      assert UntouchedAt(s, mid, a);
    }
  }

  lemma QueuedTwice(s0: Snap, q0: Lists, x: Tx, y: Tx)
    requires QueuedOnly(s0, map[x.nonce := x]) && Of(q0, 1) == map[y.nonce := y] && ListsOk(q0, false)
    requires forall a :: a != 1 ==> Of(q0, a) == Of(s0.queue, a)
    ensures TwoQueued(q0)
  {
    assert x.nonce in Of(q0, 0) && y.nonce in Of(q0, 1);
    forall a ensures QueuedAt(q0, a) {
      assert a >= 2 ==> QueueEmptyAt(s0, a);
      assert ListAt(q0, false, a);
    }
  }

  /** Accounts 0 and 1 became active at times 1 and 2 and then each sent a transaction behind a
      gap. The queue may hold one: the newer account loses its own. */
  method TruncationExample() returns (pool: T.TxPool, ghost q0: Lists)
    ensures pool.Valid() && TwoQueued(q0) && Truncates(pool.config, {}, pool.beats, q0, pool.queue)
    ensures Beat(pool.beats, 0) == 1 && Beat(pool.beats, 1) == 2
    ensures Of(pool.queue, 0) == Of(q0, 0) && 1 !in pool.queue && !OldestFirst(q0, pool.queue, {}, pool.beats)
  {
    var x, y := Bare(2, 0, 2, 1), Bare(3, 1, 2, 1);
    pool := OneWaits(Config(10, 4, 8, 4, 1, 0), Head(_ => 0, _ => 100, 100), Bare(0, 0, 0, 1), Bare(1, 1, 0, 1), x);
    q0 := Overflow(pool, x, y);
    NewestTaken(pool.config, pool.beats, q0, pool.queue);
  }

  /** Two accounts with a pending transaction each, the first with one more behind a gap. */
  method OneWaits(config: Config, head: Head, a: Tx, b: Tx, x: Tx) returns (pool: T.TxPool)
    requires Starts(config, head, a) && Starts(config, head, b) && a.from == x.from == 0 && b.from == 1
    requires config.globalSlots >= 3 && config.accountSlots >= 3 && Admissible(head, x) && x.nonce > a.nonce + 1
    ensures fresh(pool) && fresh(pool.priced) && pool.Valid()
    ensures pool.config == config && pool.head == head && pool.gasPrice == 0 && pool.all == {a, b, x} && pool.locals == {}
    ensures QueuedOnly(pool.Now(), map[x.nonce := x]) && pool.NonceOf(1) == b.nonce + 1
    ensures Entry(pool.beats, 0) == Some(1) && Entry(pool.beats, 1) == Some(2)
  {
    pool := PairPool(config, head, a, b);
    LightSmall(config, pool.Now(), 2);
    ghost var s := pool.Now();
    assert QueueEmptyAt(s, 0);
    Put(pool, x, 3);
    assert SameAccount(head, s, pool.Now(), 1);
    forall c | c != 0 ensures QueueEmptyAt(pool.Now(), c) {
      assert SameAccount(head, s, pool.Now(), c) && QueueEmptyAt(s, c);
    }
  }

  method Overflow(pool: T.TxPool, x: Tx, y: Tx) returns (ghost q0: Lists)
    requires pool.Valid() && !pool.Full() && y !in pool.all && Rival(pool.all, y) == {} && pool.config.accountQueue >= 1
    requires pool.locals == {} && Worthy(pool.Rules(), {}, y, false) && pool.NonceOf(1) < y.nonce && y.from == 1
    requires QueuedOnly(pool.Now(), map[x.nonce := x])
    requires Entry(pool.beats, 0) == Some(1) && Entry(pool.beats, 1) == Some(2)
    modifies pool`pending, pool`queue, pool`all, pool`beats, pool`nonces, pool`locals, pool.priced
    ensures pool.Valid() && TwoQueued(q0) && Truncates(pool.config, {}, pool.beats, q0, pool.queue)
    ensures Beat(pool.beats, 0) == 1 && Beat(pool.beats, 1) == 2 && pool.locals == {}
  {
    ghost var s, mid, gone := pool.Now(), pool.Now(), {};
    var err;
    err, mid, gone := pool.AddTx(y, false, 4);
    Enqueued(pool.Rules(), s, mid, y, gone, err);
    assert QueueEmptyAt(s, 1) && SameAccount(pool.head, s, mid, 0);
    q0 := BothWait(pool.config, pool.head, 4, s, mid, pool.Now(), x, y);
  }

  // ----- A reset that leaves a gap -----

  lemma OfferedHere(g: Gate, t0: Tx, t1: Tx, t2: Tx)
    requires Worthy(g, {}, t0, false) && !Worthy(g, {}, t1, false) && t0 != t2 && t0.nonce != t2.nonce
    ensures Offered(g, {}, {t2}, [t0, t1]) == {t2, t0}
  {
    var txs := [t0, t1];
    assert txs[..1] == [t0] && [t0][..0] == [];
    assert Rival({t2}, t0) == {};
    assert Offered(g, {}, {t2}, [t0]) == Accept(g, {}, {t2}, t0);
  }

  lemma GapHere(head: Head, p0: Lists, t0: Tx, t2: Tx)
    requires Of(p0, 0) == map[2 := t2] && t0.from == t2.from == 0 && t0.nonce == 0 && t2.nonce == 2 && head.nonce(0) == 0
    requires !Over(t0, head.balance(0), head.maxGas) && !Over(t2, head.balance(0), head.maxGas)
    ensures Gap(head, p0, {t2}, {t2, t0}, 0) && RunEnd(Fit(head, {t2, t0}, p0, 0), 0) == 1 && Least(Of(p0, 0).Keys) == 2
  {
    var fit := Fit(head, {t2, t0}, p0, 0);
    assert 0 in fit && 1 !in fit && forall n :: n in fit ==> n == 0;
    assert Rival({t2}, t0) == {};
    assert Of(p0, 0).Keys == {2};
  }

  /** Account 0 has nonce 2 pending when the head falls back to nonce 0. The reinjected
      transaction with nonce 0 is accepted, the one with nonce 1 needs more gas than a block
      has: nonce 2 is then still pending and nonce 1 is missing. */
  method GapExample() returns (pool: T.TxPool, ghost head0: Head, ghost s0: Snap)
    ensures Runs(head0, s0.pending, s0.nonces) && head0.nonce(0) == 2
    ensures pool.Valid() && pool.head.nonce(0) == 0 && 2 in Of(pool.pending, 0) && 1 !in Of(pool.pending, 0)
    ensures !pool.Executable()
  {
    var t0, t1, t2 := Bare(1, 0, 0, 1), Bare(2, 0, 1, 1).(gas := 2), Bare(0, 0, 2, 1);
    pool := OnePool(Config(10, 4, 8, 4, 4, 0), Head(_ => 2, _ => 100, 1), t2);
    head0, s0 := pool.head, pool.Now();
    FallBack(pool, t0, t1, t2);
  }

  /** reset without pressure. */
  method ResetFreely(pool: T.TxPool, head: Head, txs: seq<Tx>, ghost offered: set<Tx>)
    requires pool.Valid() && pool.Executable() && |pool.all| + |txs| <= pool.config.globalSlots
    requires offered == Offered(pool.Rules().(head := head), pool.locals, pool.all, txs)
    modifies pool`head, pool`pending, pool`queue, pool`all, pool`beats, pool`nonces, pool`locals, pool.priced
    ensures pool.Valid() && pool.head == head
    ensures pool.Executable() <==> NoGaps(head, old(pool.pending), old(pool.all), offered)
    ensures Tears(head, old(pool.pending), old(pool.all), offered, pool.pending)
  {
    ghost var errs, trail, gones, mid, down := pool.Reset(head, txs, 2);
  }

  method FallBack(pool: T.TxPool, t0: Tx, t1: Tx, t2: Tx)
    requires pool.Valid() && pool.Executable() && pool.all == {t2} && pool.locals == {} && pool.gasPrice == 0
    requires pool.config.globalSlots >= 3 && Of(pool.pending, 0) == map[2 := t2]
    requires t0 == Bare(1, 0, 0, 1) && t1 == Bare(2, 0, 1, 1).(gas := 2) && t2 == Bare(0, 0, 2, 1)
    modifies pool`head, pool`pending, pool`queue, pool`all, pool`beats, pool`nonces, pool`locals, pool.priced
    ensures pool.Valid() && pool.head.nonce(0) == 0 && 2 in Of(pool.pending, 0) && 1 !in Of(pool.pending, 0)
    ensures !pool.Executable()
  {
    var head := Head(_ => 0, _ => 100, 1);
    ghost var g, p := pool.Rules().(head := head), pool.pending;
    OfferedHere(g, t0, t1, t2);
    GapHere(head, p, t0, t2);
    ResetFreely(pool, head, [t0, t1], {t2, t0});
    assert Torn(head, p, {t2, t0}, pool.pending, 0);
  }

  // ----- A reset that leaves a virtual nonce below the head's -----

  /** The only pooled transaction of an account that has nothing pending is queued. */
  lemma QueuedAlone(p: Items, q: Items, all: set<Tx>, t: Tx)
    requires AccountOk(p, q, all, t.from) && t in all && t.nonce !in p
    requires forall u :: u in all && u.from == t.from ==> u == t
    ensures p == map[] && q == map[t.nonce := t]
  {
    var a := t.from;
    assert Placed(p, q, all, t);
    forall n ensures n !in p && (n in q <==> n == t.nonce) {
      assert OwnAt(p, a, n) && OwnAt(q, a, n);
      assert (n in p ==> Placed(p, q, all, p[n])) && (n in q ==> Placed(p, q, all, q[n]));
    }
  }

  /** A stale transaction of account 0 goes to make room, which takes its account's virtual nonce
      below the head's. */
  lemma Squeezed(g: Gate, s0: Snap, s1: Snap, t0: Tx, t1: Tx, r: Tx, gone: set<Tx>, err: Option<Error>)
    requires Outcome(g, s0, s1, r, false, gone, err) && s0.all == {t0, t1} && g.capacity == 2 && s0.locals == {} && Sane(s0)
    requires t0.from == t1.from == 0 && t0.nonce == 0 && t1.nonce == 1 && r.from == 1 && r.nonce == 0
    requires t0.price < t1.price && t0.price < r.price && Worthy(g, {}, r, false)
    requires Of(s0.pending, 0) == map[0 := t0, 1 := t1] && s0.nonces == map[] && g.head.nonce(0) == 1 && g.head.nonce(1) == 0
    ensures err == None && gone == {t0} && s1.all == {t1, r} && s1.locals == {} && Fresh(s0, r, gone, err) && Sane(s1)
    ensures Of(s1.pending, 0) == map[] && Of(s1.queue, 0) == map[1 := t1] && Virtual(g.head, s1.nonces, 0) == 0
    ensures Of(s1.pending, 1) == map[] && Of(s1.queue, 1) == map[0 := r] && Virtual(g.head, s1.nonces, 1) == 0
  {
    assert t0 != t1 && |{t0, t1}| == 2 && !Dearer(t0, r) && r !in s0.all;
    OnlyCheapest(t0, t1, gone);
    assert Rival({t1}, r) == {} && s1.all == {t1, r};
    SqueezedLists(g, s0, s1, t0, t1, r);
  }

  lemma SqueezedLists(g: Gate, s0: Snap, s1: Snap, t0: Tx, t1: Tx, r: Tx)
    requires Bystanders(g, s0, s1, {t0}) && s1.all == {t1, r} && Sane(s0) && s0.all == {t0, t1}
    requires t0.from == t1.from == 0 && t0.nonce == 0 && t1.nonce == 1 && r.from == 1 && r.nonce == 0
    requires Of(s0.pending, 0) == map[0 := t0, 1 := t1] && s0.nonces == map[] && g.head.nonce(0) == 1 && g.head.nonce(1) == 0
    ensures Of(s1.pending, 0) == map[] && Of(s1.queue, 0) == map[1 := t1] && Virtual(g.head, s1.nonces, 0) == 0
    ensures Of(s1.pending, 1) == map[] && Of(s1.queue, 1) == map[0 := r] && Virtual(g.head, s1.nonces, 1) == 0
  {
    var p0, p1 := Of(s0.pending, 0), Of(s0.pending, 1);
    assert ShortAt(s0.pending, s1.pending, {t0}, 0, 1) && Has(p0, t0);
    assert AccountOk(p1, Of(s0.queue, 1), s0.all, 1) && OwnAt(p1, 1, 0);
    assert 0 in p1 ==> Placed(p1, Of(s0.queue, 1), s0.all, p1[0]);
    assert ShortAt(s0.pending, s1.pending, {t0}, 1, 0);
    assert AccountOk(Of(s1.pending, 0), Of(s1.queue, 0), s1.all, 0) && AccountOk(Of(s1.pending, 1), Of(s1.queue, 1), s1.all, 1);
    QueuedAlone(Of(s1.pending, 0), Of(s1.queue, 0), s1.all, t1);
    QueuedAlone(Of(s1.pending, 1), Of(s1.queue, 1), s1.all, r);
    assert ShrunkAt(g.head, s0.pending, s0.nonces, s1.pending, s1.nonces, 0);
    assert ShrunkAt(g.head, s0.pending, s0.nonces, s1.pending, s1.nonces, 1);
    assert 0 in p0 && 0 !in Of(s1.pending, 0);
  }

  lemma NobodyElse(s: Snap, t1: Tx, r: Tx)
    requires Sane(s) && s.all <= {t1, r} && t1.from == 0 && r.from == 1
    ensures forall a :: a in s.queue ==> a < 2
  {
    forall a | a in s.queue ensures a < 2 {
      var p, q := Of(s.pending, a), Of(s.queue, a);
      assert ListAt(s.queue, false, a) && AccountOk(p, q, s.all, a);
      var n :| n in q;
      assert OwnAt(q, a, n) && Placed(p, q, s.all, q[n]);
    }
  }

  /** The newcomer is promoted, the stale account is left as it is. */
  lemma NewcomerUp(config: Config, head: Head, now: nat, s: Snap, mid: Snap, t1: Tx, r: Tx)
    requires Promotes(config, head, now, s, mid, {1}) && Sane(s) && s.all == {t1, r} && t1.from == 0 && r.from == 1
    requires Of(s.pending, 0) == map[] && Of(s.queue, 0) == map[1 := t1] && Virtual(head, s.nonces, 0) == 0
    requires Of(s.pending, 1) == map[] && Of(s.queue, 1) == map[0 := r] && Virtual(head, s.nonces, 1) == head.nonce(1) == 0
    requires r.nonce == 0 && !Over(r, head.balance(1), head.maxGas)
    requires config.accountSlots >= 1 && config.globalQueue == 1 && config.accountQueue >= 1
    ensures Of(mid.pending, 0) == map[] && Of(mid.queue, 0) == map[1 := t1] && Virtual(head, mid.nonces, 0) == 0
    ensures Of(mid.pending, 1) == map[0 := r] && mid.all <= {t1, r}
  {
    NobodyElse(s, t1, r);
    TotalOfTwo(s.queue);
    AloneFits(config, head, s, r);
    PlusNone(map[]);
    SmallStep(config, head, now, s, mid, 1, 0);
    SmallStep(config, head, now, s, mid, 1, 1);
    AloneUp(head, config.accountQueue, s, mid, r);
    PromotesShrinks(config, head, now, s, mid, {1});
  }

  lemma AloneFits(config: Config, head: Head, s: Snap, r: Tx)
    requires Sane(s) && Of(s.queue, r.from) == map[r.nonce := r] && Of(s.pending, r.from) == map[]
    requires Virtual(head, s.nonces, r.from) == head.nonce(r.from) == r.nonce && !Over(r, head.balance(r.from), head.maxGas)
    requires config.accountSlots >= 1 && config.accountQueue >= 1
    ensures |Behind(head, config.accountQueue, s, r.from)| == 0
    ensures |Of(s.pending, r.from) + Up(head, s, r.from, true)| <= config.accountSlots
  {
    ReadyAlone(head, config.accountQueue, s, r);
    UnionSize(map[], r.nonce, r);
  }

  lemma AloneUp(head: Head, limit: nat, s: Snap, mid: Snap, r: Tx)
    requires Gains(head, s, mid, r.from, true) && Sane(s) && limit >= 1
    requires Of(s.queue, r.from) == map[r.nonce := r] && Of(s.pending, r.from) == map[]
    requires Virtual(head, s.nonces, r.from) == head.nonce(r.from) == r.nonce && !Over(r, head.balance(r.from), head.maxGas)
    ensures Of(mid.pending, r.from) == map[r.nonce := r]
  {
    ReadyAlone(head, limit, s, r);
    assert map[] + map[r.nonce := r] == map[r.nonce := r];
  }

  lemma StaleKept(head: Head, mid: Snap, down: Snap, t1: Tx, r: Tx)
    requires Sane(mid) && Sane(down) && Demotion(head, mid, down) && down.all <= mid.all <= {t1, r}
    requires Of(mid.pending, 0) == map[] && Of(mid.queue, 0) == map[1 := t1] && Virtual(head, mid.nonces, 0) == 0
    requires Of(mid.pending, 1) == map[0 := r] && head.nonce(1) == 0 && !Over(r, head.balance(1), head.maxGas)
    requires t1.from == 0 && r.from == 1 && r.nonce == 0
    ensures Of(down.pending, 0) == map[] && Of(down.queue, 0) == map[1 := t1] && Virtual(head, down.nonces, 0) == 0
    ensures down.queue.Keys == {0}
  {
    assert DemotedTo(head, mid, down, 0) && DemotedTo(head, mid, down, 1) && FollowedAt(down.pending, mid.nonces, down.nonces, 0);
    assert ListAt(mid.pending, true, 0);
    DemotedStays(head, mid, down, 1);
    var p, q := Of(down.pending, 1), Of(down.queue, 1);
    assert Stays(Of(mid.pending, 1), head, 1, 0) && 0 in p;
    NobodyElse(down, t1, r);
    assert AccountOk(p, q, down.all, 1) && ListAt(down.queue, false, 1);
    forall n ensures n !in q { assert OwnAt(q, 1, n) && Apart(p, q, n) && (n in q ==> Placed(p, q, down.all, q[n])); }
    assert 1 !in down.queue && 1 in Of(down.queue, 0);
  }

  /** At the virtual nonce nothing is ready, so the transaction at the head's nonce stays queued. */
  lemma StaleStays(config: Config, head: Head, now: nat, down: Snap, end: Snap, t1: Tx)
    requires Promotes(config, head, now, down, end, {0}) && Sane(down) && down.queue.Keys == {0}
    requires Of(down.pending, 0) == map[] && Of(down.queue, 0) == map[1 := t1] && Virtual(head, down.nonces, 0) == 0
    requires t1.from == 0 && t1.nonce == 1 == head.nonce(0) && !Over(t1, head.balance(0), head.maxGas)
    requires config.accountSlots >= 1 && config.globalQueue == 1 && config.accountQueue >= 1
    ensures Of(end.pending, 0) == map[] && Of(end.queue, 0) == map[1 := t1] && Virtual(head, end.nonces, 0) == 0
    ensures !Runs(head, end.pending, end.nonces)
  {
    TotalOfTwo(down.queue);
    ReadyAlone(head, config.accountQueue, down, t1);
    PlusNone(map[]);
    SmallStep(config, head, now, down, end, 0, 0);
    assert !RunsAt(head, end.pending, end.nonces, 0);
  }

  /** The pool is full with nonces 0 and 1 of account 0 when the head moves on to nonce 1. The
      reinjected transaction of another account takes the place of the included nonce 0: nonce 1
      could be executed next, but stays queued above a virtual nonce of 0. */
  method StaleExample() returns (pool: T.TxPool, t1: Tx, ghost head0: Head, ghost s0: Snap)
    ensures Runs(head0, s0.pending, s0.nonces) && head0.nonce(0) == 0
    ensures pool.Valid() && pool.head.nonce(0) == 1 && pool.NonceOf(0) == 0 && !pool.Executable()
    ensures Of(pool.pending, 0) == map[] && Of(pool.queue, 0) == map[1 := t1] && Admissible(pool.head, t1)
  {
    var t0, r := Bare(0, 0, 0, 1), Bare(2, 1, 0, 10);
    t1 := Bare(1, 0, 1, 5);
    pool := RunPool(Config(10, 4, 1, 4, 1, 0), Head(_ => 0, _ => 100, 100), t0, t1);
    head0, s0 := pool.head, pool.Now();
    MoveOn(pool, t0, t1, r);
  }

  /** A pool with the first two transactions of one account pending. */
  method RunPool(config: Config, head: Head, x: Tx, y: Tx) returns (pool: T.TxPool)
    requires Starts(config, head, x) && Admissible(head, y) && y.from == x.from && y.nonce == x.nonce + 1
    requires config.globalSlots + config.globalQueue >= 2
    ensures fresh(pool) && fresh(pool.priced) && pool.Valid() && pool.Executable()
    ensures pool.config == config && pool.head == head && pool.gasPrice == 0 && pool.all == {x, y} && pool.locals == {}
    ensures Of(pool.pending, x.from) == map[x.nonce := x, y.nonce := y]
  {
    pool := OnePool(config, head, x);
    PutNext(pool, y, 2, 1);
    assert map[x.nonce := x] + map[y.nonce := y] == map[x.nonce := x, y.nonce := y];
  }

  method MoveOn(pool: T.TxPool, t0: Tx, t1: Tx, r: Tx)
    requires pool.Valid() && pool.all == {t0, t1} && pool.locals == {} && pool.gasPrice == 0
    requires pool.config == Config(10, 4, 1, 4, 1, 0) && Of(pool.pending, 0) == map[0 := t0, 1 := t1]
    requires t0 == Bare(0, 0, 0, 1) && t1 == Bare(1, 0, 1, 5) && r == Bare(2, 1, 0, 10)
    modifies pool`head, pool`pending, pool`queue, pool`all, pool`beats, pool`nonces, pool`locals, pool.priced
    ensures pool.Valid() && pool.head.nonce(0) == 1 && pool.NonceOf(0) == 0 && !pool.Executable()
    ensures Of(pool.pending, 0) == map[] && Of(pool.queue, 0) == map[1 := t1] && Admissible(pool.head, t1)
  {
    var head := Head(a => if a == 0 then 1 else 0, _ => 100, 100);
    ghost var errs, trail, gones, mid, down := pool.Reset(head, [r], 3);
    StaleEnd(pool.config, pool.Rules(), 3, trail, gones, errs, mid, down, pool.Now(), t0, t1, r);
  }

  lemma StaleEnd(config: Config, g: Gate, now: nat, trail: seq<Snap>, gones: seq<set<Tx>>, errs: seq<Option<Error>>,
                 mid: Snap, down: Snap, end: Snap, t0: Tx, t1: Tx, r: Tx)
    requires Resets(config, g, now, [r], trail, gones, errs, mid, down, end) && config == Config(10, 4, 1, 4, 1, 0)
    requires t0 == Bare(0, 0, 0, 1) && t1 == Bare(1, 0, 1, 5) && r == Bare(2, 1, 0, 10)
    requires trail[0].all == {t0, t1} && trail[0].locals == {} && Of(trail[0].pending, 0) == map[0 := t0, 1 := t1]
    requires g.capacity == 2 && g.gasPrice == 0 && g.head.nonce(0) == 1 && g.head.nonce(1) == 0
    requires g.head.balance(0) == g.head.balance(1) == g.head.maxGas == 100
    ensures Of(end.pending, 0) == map[] && Of(end.queue, 0) == map[1 := t1] && Virtual(g.head, end.nonces, 0) == 0
    ensures !Runs(g.head, end.pending, end.nonces)
  {
    assert AddedAt(g, trail, gones, [r], false, errs, 0);
    Squeezed(g, trail[0], trail[1], t0, t1, r, gones[0], errs[0]);
    assert Dirty(trail, gones, [r], errs) == {1} by { assert Fresh(trail[0], [r][0], gones[0], errs[0]); }
    NewcomerUp(config, g.head, now, trail[1], mid, t1, r);
    StaleKept(g.head, mid, down, t1, r);
    StaleStays(config, g.head, now, down, end, t1);
  }

  // ----- A transaction with two entries in the price heap -----

  lemma NothingPending(p0: Lists, p1: Lists)
    requires CutShort(p0, p1, {}) && ListsOk(p1, true) && p0 == map[]
    ensures p1 == map[]
  {
    forall a ensures a !in p1 {
      assert ListAt(p1, true, a);
      var m := Of(p1, a);
      forall n ensures n !in m { assert ShortAt(p0, p1, {}, a, n); }
      assert m == map[];
    }
  }

  lemma SameBeats(s0: Snap, s1: Snap)
    requires BeatsCut(s0.pending, s0.beats, s1.pending, s1.beats) && s0.pending == map[]
    ensures s1.beats == s0.beats
  {
    forall a ensures Entry(s1.beats, a) == Entry(s0.beats, a) {
      assert BeatsAt(s0.pending, s0.beats, s1.pending, s1.beats, a);
    }
    assert forall a :: a in s1.beats || a in s0.beats ==> Entry(s1.beats, a) == Entry(s0.beats, a);
  }

  /** add of a transaction without a rival, local or not, to a pool with nothing pending. */
  lemma Enters(g: Gate, s0: Snap, s1: Snap, tx: Tx, local: bool, gone: set<Tx>, err: Option<Error>)
    requires Outcome(g, s0, s1, tx, local, gone, err) && |s0.all| < g.capacity && s0.pending == map[]
    requires tx !in s0.all && Worthy(g, s0.locals, tx, local) && Rival(s0.all, tx) == {}
    ensures err == None && s1.all == s0.all + {tx} && s1.pending == map[] && s1.beats == s0.beats
    ensures s1.locals == s0.locals + if local then {tx.from} else {}
  {
    assert s0.all - gone == s0.all;
    NothingPending(s0.pending, s1.pending);
    SameBeats(s0, s1);
  }

  method EnterPool(pool: T.TxPool, tx: Tx, local: bool)
    requires pool.Valid() && pool.Balanced() && !pool.Full() && pool.pending == map[]
    requires tx !in pool.all && Rival(pool.all, tx) == {} && Worthy(pool.Rules(), pool.locals, tx, local)
    modifies pool`pending, pool`queue, pool`all, pool`beats, pool`nonces, pool`locals, pool.priced
    ensures pool.Valid() && pool.Balanced()
    ensures pool.pending == map[] && pool.all == old(pool.all) + {tx} && pool.beats == old(pool.beats)
    ensures pool.locals == old(pool.locals) + if local then {tx.from} else {}
    ensures Priced.Grown(old(pool.priced.items), old(pool.priced.stales), pool.priced.items, pool.priced.stales, tx)
  {
    ghost var s, gone := pool.Now(), {};
    var replaced, err;
    replaced, err, gone := pool.Add(tx, local);
    Enters(pool.Rules(), s, pool.Now(), tx, local, gone, err);
  }

  function Lone(a: Addr): Tx { Bare(a, a, 1, 1) }

  /** A pool with room for eight that holds only `txs`, all of them in the queue, with these heap entries. */
  ghost predicate Waiting(pool: T.TxPool, txs: set<Tx>, locals: set<Addr>, entries: multiset<Tx>)
    reads pool, pool.priced
  {
    && pool.Valid() && pool.Balanced() && pool.pending == map[] && pool.beats == map[] && pool.gasPrice == 0
    && pool.config == Config(10, 1, 4, 1, 4, 0) && pool.head == Head(_ => 0, _ => 100, 100)
    && pool.all == txs && pool.locals == locals && multiset(pool.priced.items) == entries
  }

  /** The transactions of the first `n` accounts. */
  function Lones(n: nat): (r: set<Tx>)
    ensures |r| == n && forall t :: t in r <==> t.from < n && t == Lone(t.from)
  {
    if n == 0 then {} else Lones(n - 1) + {Lone(n - 1)}
  }

  function Firsts(n: nat): (r: set<Addr>)
    ensures forall a: Addr :: a in r <==> a < n
  {
    if n == 0 then {} else Firsts(n - 1) + {n - 1}
  }

  method Queue(pool: T.TxPool, n: nat, local: bool, ghost locals: set<Addr>, ghost entries: multiset<Tx>)
    requires Waiting(pool, Lones(n), locals, entries) && n < 8
    modifies pool`pending, pool`queue, pool`all, pool`beats, pool`nonces, pool`locals, pool.priced
    ensures Waiting(pool, Lones(n + 1), locals + if local then {n} else {}, entries + multiset{Lone(n)})
    ensures pool.priced.stales == old(pool.priced.stales)
  {
    EnterPool(pool, Lone(n), local);
  }

  /** One more local transaction, each with one entry so far. */
  method QueueLocal(pool: T.TxPool, n: nat)
    requires Waiting(pool, Lones(n), Firsts(n), multiset(Lones(n))) && n < 8
    modifies pool`pending, pool`queue, pool`all, pool`beats, pool`nonces, pool`locals, pool.priced
    ensures Waiting(pool, Lones(n + 1), Firsts(n + 1), multiset(Lones(n + 1)))
    ensures pool.priced.stales == old(pool.priced.stales)
  {
    Queue(pool, n, true, Firsts(n), multiset(Lones(n)));
    assert multiset(Lones(n + 1)) == multiset(Lones(n)) + multiset{Lone(n)};
  }

  method ThreeWait() returns (pool: T.TxPool)
    ensures fresh(pool) && fresh(pool.priced) && pool.priced.stales == 0
    ensures Waiting(pool, Lones(3), Firsts(3), multiset(Lones(3)))
  {
    pool := new T.TxPool(Config(10, 1, 4, 1, 4, 0), Head(_ => 0, _ => 100, 100), 0);
    QueueLocal(pool, 0);
    QueueLocal(pool, 1);
    QueueLocal(pool, 2);
  }

  lemma FourEntries(items: seq<Tx>)
    requires multiset(items) == multiset(Lones(3)) + multiset{Lone(3)}
    ensures |items| == 4
  {
    assert |multiset(items)| == 4;
  }

  lemma QueueLeft(s0: Snap, s1: Snap, a: Addr)
    requires Sane(s0) && Sane(s1) && s0.pending == s1.pending == map[] && (a in s1.queue ==> SameAt(s0.queue, s1.queue, a))
    ensures Lone(a) in s0.all ==> a in s0.queue
    ensures Lone(a) in s1.all <==> a in s1.queue && Lone(a) in s0.all
  {
    assert AccountOk(Of(s0.pending, a), Of(s0.queue, a), s0.all, a);
    assert AccountOk(Of(s1.pending, a), Of(s1.queue, a), s1.all, a);
    assert Placed(Of(s0.pending, a), Of(s0.queue, a), s0.all, Lone(a));
    assert Placed(Of(s1.pending, a), Of(s1.queue, a), s1.all, Lone(a));
  }

  lemma LocalsLeft(s0: Snap, s1: Snap)
    requires Sane(s0) && Sane(s1) && s0.pending == s1.pending == map[] && s1.all <= s0.all && s0.all == Lones(4)
    requires s1.beats == map[] && s1.locals == Firsts(3)
    requires forall a :: a in s1.queue <==> a in s0.queue && (a in s1.locals || 1 - Beat(s1.beats, a) <= 0)
    requires forall a :: a in s1.queue ==> SameAt(s0.queue, s1.queue, a)
    ensures s1.all == Lones(3)
  {
    forall t ensures t in s1.all <==> t in Lones(3) { QueueLeft(s0, s1, t.from); }
  }

  /** The eviction tick drops the remote transaction and leaves its entry in the heap. */
  method EvictLast(pool: T.TxPool)
    requires pool.priced.stales == 0
    requires Waiting(pool, Lones(4), Firsts(3), multiset(Lones(3)) + multiset{Lone(3)})
    modifies pool`pending, pool`queue, pool`all, pool`beats, pool`nonces, pool.priced
    ensures Waiting(pool, Lones(3), Firsts(3), multiset(Lones(3)) + multiset{Lone(3)})
  {
    ghost var was := pool.Now();
    pool.Evict(1);
    LocalsLeft(was, pool.Now());
    FourEntries(old(pool.priced.items));
  }

  /** A transaction that is dropped and offered again has two entries in the price heap. */
  method DoubleEntryExample() returns (pool: T.TxPool)
    ensures pool.Valid() && pool.Balanced() && pool.all == Lones(4) && pool.locals == Firsts(3)
    ensures Lone(3) in pool.all && multiset(pool.priced.items)[Lone(3)] == 2
  {
    pool := ThreeWait();
    Queue(pool, 3, false, Firsts(3), multiset(Lones(3)));
    EvictLast(pool);
    Queue(pool, 3, false, Firsts(3), multiset(Lones(3)) + multiset{Lone(3)});
  }
}
