/** TxPool of core/tx_pool.go. Every method runs under the pool's lock, so each is one
    step. Per-account lists are values here; the txList class shows that the lists updated
    in place follow these values. */
module TxPool {
  import opened TxTypes
  import opened L = TxList
  import opened PoolState
  import opened PoolLevels
  import opened PoolTrim
  import opened PoolSpec
  import opened PoolReset
  import opened SortedMap
  import Priced = PricedList

  /** A transaction put into an account's list. */
  lemma Enlisted(ls: Lists, a: Addr, tx: Tx, strict: bool)
    requires ListsOk(ls, strict) && tx.from == a && tx.signed
    ensures ListsOk(ls[a := Added(ListOf(ls, a, strict), tx)], strict)
    ensures OnlyAt(ls, ls[a := Added(ListOf(ls, a, strict), tx)], a)
    ensures Of(ls[a := Added(ListOf(ls, a, strict), tx)], a) == Of(ls, a)[tx.nonce := tx]
  {
    var l := Added(ListOf(ls, a, strict), tx);
    ListOfIs(ls, a, strict);
    AddedOk(ListOf(ls, a, strict), a, strict, tx);
    assert tx.nonce in l.items;
    StoreIs(ls, a, l, strict);
  }

  /** Postponing progress: the transactions with nonces in `done` are back in the queue. */
  ghost predicate Postponed(queue: Lists, queue': Lists, a: Addr, items: Items, done: set<nat>) {
    && ListsOk(queue', false) && OnlyAt(queue, queue', a)
    && Of(queue', a) == Of(queue, a) + Only(items, done)
  }

  lemma PostponeStart(queue: Lists, a: Addr, items: Items)
    requires ListsOk(queue, false)
    ensures Postponed(queue, queue, a, items, items.Keys - items.Keys)
  {
    assert Only(items, items.Keys - items.Keys) == map[];
  }

  lemma PostponeStep(queue: Lists, queue': Lists, a: Addr, items: Items, done: set<nat>, n: nat)
    requires Postponed(queue, queue', a, items, done) && Own(items, a) && n in items && n !in done
    requires Apart(items, Of(queue, a), n)
    ensures n !in Of(queue', a)
    ensures Postponed(queue, queue'[a := Added(ListOf(queue', a, false), items[n])], a, items, done + {n})
  {
    assert OwnAt(items, a, n);
    Enlisted(queue', a, items[n], false);
    OnlyAtTrans(queue, queue', queue'[a := Added(ListOf(queue', a, false), items[n])], a);
    assert Only(items, done + {n}) == Only(items, done)[n := items[n]];
  }

  /** The account's entry is `x` once the loop from `lo` has reached beyond `lo`. */
  function Since(m: map<Addr, nat>, a: Addr, lo: nat, n: nat, x: nat): map<Addr, nat> {
    if n == lo then m else m[a := x]
  }

  lemma SinceStep(m: map<Addr, nat>, a: Addr, lo: nat, n: nat, x: nat, y: nat)
    requires lo <= n
    ensures Since(m, a, lo, n, x)[a := y] == Since(m, a, lo, n + 1, y)
  {
  }

  lemma PartTxs(m: Items, part: Items)
    requires Part(part, m)
    ensures Txs(part) <= Txs(m)
  {
  }

  /** The ready transactions below `n` are merged in. */
  predicate MergedAt(p: Items, p': Items, ready: Items, n: nat, k: nat) {
    && (k in p' <==> k in p || (k in ready && k < n))
    && (k in p' ==> p'[k] == if k in ready && k < n then ready[k] else p[k])
  }

  ghost predicate Merged(p: Items, p': Items, ready: Items, n: nat) {
    forall k {:trigger MergedAt(p, p', ready, n, k)} :: MergedAt(p, p', ready, n, k)
  }

  lemma MergedAll(p: Items, p': Items, ready: Items, n: nat)
    requires Merged(p, p', ready, n) && forall k :: k in ready ==> k < n
    ensures p' == p + ready
  {
    assert forall k :: k in p' || k in p || k in ready ==> MergedAt(p, p', ready, n, k);
  }

  /** Promotion progress. */
  ghost predicate Raised(pending: Lists, pending': Lists, a: Addr, ready: Items, n: nat) {
    ListsOk(pending', true) && OnlyAt(pending, pending', a) && Merged(Of(pending, a), Of(pending', a), ready, n)
  }

  lemma PromoteStart(pending: Lists, a: Addr, ready: Items, lo: nat)
    requires ListsOk(pending, true) && forall n :: n in ready ==> lo <= n
    ensures Raised(pending, pending, a, ready, lo)
  {
  }

  lemma PromoteStep(pending: Lists, pending': Lists, a: Addr, ready: Items, n: nat)
    requires Raised(pending, pending', a, ready, n) && Own(ready, a) && n in ready && n !in Of(pending, a)
    ensures n !in Of(pending', a)
    ensures Raised(pending, pending'[a := Added(ListOf(pending', a, true), ready[n])], a, ready, n + 1)
  {
    assert OwnAt(ready, a, n);
    var p, p', next := Of(pending, a), Of(pending', a), pending'[a := Added(ListOf(pending', a, true), ready[n])];
    Enlisted(pending', a, ready[n], true);
    OnlyAtTrans(pending, pending', next, a);
    assert MergedAt(p, p', ready, n, n);
    var m := n + 1;
    forall k: nat ensures MergedAt(p, Of(next, a), ready, m, k) { assert MergedAt(p, p', ready, n, k); }
  }

  /** Removing a transaction only shortens the pending lists. */
  lemma StepTxs(p0: Lists, p1: Lists, tx: Tx)
    requires OnlyAt(p0, p1, tx.from)
    requires Of(p1, tx.from) == Below(Of(p0, tx.from), tx.nonce) || p1 == p0
    ensures SameTxs(p0, p1)
  {
    forall a ensures Part(Of(p1, a), Of(p0, a)) {
      if a != tx.from { assert SameAt(p0, p1, a); }
    }
  }

  /** Eviction progress for one account. */
  ghost predicate EvictedAt(q0: Lists, q: Lists, locals: set<Addr>, beats: map<Addr, nat>, now: nat,
                            lifetime: nat, todo: set<Addr>, a: Addr) {
    if a in todo || a in locals || now - Beat(beats, a) <= lifetime then SameAt(q0, q, a) else a !in q
  }

  class TxPool {
    const config: Config
    const priced: Priced.PricedList
    var head: Head
    var nonces: map<Addr, nat>
    var pending: Lists
    var queue: Lists
    var all: set<Tx>
    var locals: set<Addr>
    var gasPrice: nat
    var beats: map<Addr, nat>

    /** The lists and the lookup agree. */
    ghost predicate Sound()
      reads this
    {
      ListsOk(pending, true) && ListsOk(queue, false) && Parted(pending, queue, all)
    }

    /** Every pooled transaction but those in `gone` has an entry in the price heap. */
    ghost predicate Heaped(gone: set<Tx>)
      reads this, priced
    {
      priced.Valid() && Priced.Covers(priced.items, all - gone)
    }

    ghost predicate Valid()
      reads this, priced
    {
      config.accountSlots >= 1 && Sound() && Heaped({})
    }

    function NonceOf(a: Addr): nat
      reads this
    {
      Virtual(head, nonces, a)
    }

    ghost predicate Executable()
      reads this
    {
      Runs(head, pending, nonces)
    }

    /** No account's next nonce waits in its queue. */
    ghost predicate Waitless()
      reads this
    {
      Idle(head, queue, nonces)
    }

    /** Over its capacity the pool holds at most one remote transaction, and exactly the accounts
        with pending transactions have a heartbeat. */
    ghost predicate Balanced()
      reads this
    {
      Steady(Rules().capacity, Now())
    }

    ghost function Now(): Snap
      reads this
    {
      Snap(pending, queue, nonces, beats, locals, all)
    }

    ghost function Rules(): Gate
      reads this
    {
      Gate(head, gasPrice, config.globalSlots + config.globalQueue, config.priceBump)
    }

    constructor (config: Config, head: Head, gasPrice: nat)
      requires config.accountSlots >= 1
      ensures Valid() && Executable() && Waitless() && Balanced() && Now() == Snap(map[], map[], map[], map[], {}, {}) && fresh(priced)
      ensures this.config == config && this.head == head && this.gasPrice == gasPrice
      ensures priced.items == [] && priced.stales == 0
    {
      this.config, this.head, this.gasPrice := config, head, gasPrice;
      nonces, pending, queue, all, locals, beats := map[], map[], map[], {}, {}, map[];
      priced := new Priced.PricedList();
    }

    /** Dropping transactions from the lookup, with the notice to the price heap after each. */
    method DropAll(txs: set<Tx>, ghost gone: set<Tx>)
      requires Heaped(gone)
      modifies `all, priced
      ensures Heaped(gone) && all == old(all) - txs
    {
      var todo := txs;
      while todo != {}
        invariant todo <= txs && Heaped(gone) && all == old(all) - (txs - todo)
      {
        var tx :| tx in todo;
        todo := todo - {tx};
        all := all - {tx};
        Remark(gone);
      }
    }

    /** priced.Removed keeps the heap's coverage. */
    method Remark(ghost gone: set<Tx>)
      requires Heaped(gone)
      modifies priced
      ensures Heaped(gone) && Priced.Lazy(old(priced.items), old(priced.stales), 1, priced.items, priced.stales)
    {
      priced.Removed(all);
      forall tx | tx in all - gone ensures Priced.Entry(priced.items, tx) {
        assert Priced.Entry(old(priced.items), tx);
        assert tx in multiset(all) && (tx in multiset(priced.items) ==> tx in priced.items);
      }
    }

    method Price(tx: Tx, ghost gone: set<Tx>)
      requires priced.Valid() && Priced.Covers(priced.items, all - gone - {tx})
      modifies priced
      ensures Heaped(gone) && Priced.Grown(old(priced.items), old(priced.stales), priced.items, priced.stales, tx)
    {
      ghost var was := priced.items;
      priced.Put(tx);
      forall t | t in all - gone ensures Priced.Entry(priced.items, t) {
        if t != tx { assert Priced.Entry(was, t) && t in multiset(was); }
        assert t in multiset(priced.items);
      }
    }

    /** enqueueTx */
    method EnqueueTx(tx: Tx, ghost gone: set<Tx>) returns (replaced: bool, ok: bool)
      requires Heaped(gone)
      modifies `queue, `all, priced
      ensures Heaped(gone)
      ensures ok == Accepts(ListOf(old(queue), tx.from, false), tx, config.priceBump)
      ensures !ok ==> queue == old(queue) && all == old(all)
      ensures ok ==> queue == old(queue)[tx.from := Added(ListOf(old(queue), tx.from, false), tx)]
      ensures ok ==> replaced == (tx.nonce in Of(old(queue), tx.from))
      ensures ok ==> all == (if replaced then old(all) - {Of(old(queue), tx.from)[tx.nonce]} else old(all)) + {tx}
      ensures ok && !replaced && tx !in old(all) ==> Priced.Grown(old(priced.items), old(priced.stales), priced.items, priced.stales, tx)
    {
      var list := ListOf(queue, tx.from, false);
      ok := Accepts(list, tx, config.priceBump);
      replaced := false;
      if !ok { return; }
      queue := queue[tx.from := Added(list, tx)];
      if tx.nonce in list.items {
        replaced := true;
        all := all - {list.items[tx.nonce]};
        Remark(gone);
      }
      if tx !in all {
        all := all + {tx};
        Price(tx, gone);
      }
    }

    /** Invalidated transactions go back to the queue, in any order; none of them collides. */
    method Postpone(a: Addr, items: Items, ghost gone: set<Tx>)
      requires Heaped(gone) && ListsOk(queue, false)
      requires Own(items, a) && (forall n :: n in items ==> n !in Of(queue, a)) && Txs(items) <= all
      modifies `queue, `all, priced
      ensures Heaped(gone) && ListsOk(queue, false) && all == old(all)
      ensures OnlyAt(old(queue), queue, a) && Of(queue, a) == Of(old(queue), a) + items
    {
      var todo := items.Keys;
      PostponeStart(queue, a, items);
      while todo != {}
        invariant todo <= items.Keys && Heaped(gone) && all == old(all)
        invariant Postponed(old(queue), queue, a, items, items.Keys - todo)
      {
        var n :| n in todo;
        assert OwnAt(items, a, n) && Apart(items, Of(old(queue), a), n);
        PostponeStep(old(queue), queue, a, items, items.Keys - todo, n);
        assert items[n] in Txs(items);
        var replaced, ok := EnqueueTx(items[n], gone);
        assert items.Keys - (todo - {n}) == items.Keys - todo + {n};
        todo := todo - {n};
      }
      assert Only(items, items.Keys) == items;
    }

    /** promoteTx */
    method PromoteTx(a: Addr, tx: Tx, now: nat, ghost gone: set<Tx>) returns (inserted: bool)
      requires Heaped(gone)
      modifies `pending, `all, `beats, `nonces, priced
      ensures Heaped(gone) && inserted == Accepts(ListOf(old(pending), a, true), tx, config.priceBump)
      ensures !inserted ==> all == old(all) - {tx} && nonces == old(nonces) && beats == old(beats)
      ensures !inserted ==> pending == old(pending)[a := ListOf(old(pending), a, true)]
      ensures inserted ==> pending == old(pending)[a := Added(ListOf(old(pending), a, true), tx)]
      ensures inserted ==> all == (if tx.nonce in Of(old(pending), a) then old(all) - {Of(old(pending), a)[tx.nonce]}
                                   else old(all)) + {tx}
      ensures inserted ==> nonces == old(nonces)[a := tx.nonce + 1] && beats == old(beats)[a := now]
    {
      var list := ListOf(pending, a, true);
      pending := pending[a := list];
      inserted := Accepts(list, tx, config.priceBump);
      if !inserted {
        all := all - {tx};
        Remark(gone);
        return;
      }
      pending := pending[a := Added(list, tx)];
      if tx.nonce in list.items {
        all := all - {list.items[tx.nonce]};
        Remark(gone);
      }
      if tx !in all {
        all := all + {tx};
        Price(tx, gone);
      }
      beats := beats[a := now];
      nonces := nonces[a := tx.nonce + 1];
    }

    /** The part of removeTx that runs when the nonce is pending. */
    method RemovePending(a: Addr, n: nat, ghost gone: set<Tx>)
      requires ListsOk(pending, true) && ListsOk(queue, false) && Heaped(gone)
      requires a in pending && n in pending[a].items
      requires (forall k :: k in From(Of(pending, a), n + 1) ==> k !in Of(queue, a)) && Txs(From(Of(pending, a), n + 1)) <= all
      modifies `pending, `queue, `all, `beats, `nonces, priced
      ensures ListsOk(pending, true) && ListsOk(queue, false) && Heaped(gone) && all == old(all)
      ensures OnlyAt(old(pending), pending, a) && OnlyAt(old(queue), queue, a)
      ensures Of(pending, a) == Below(Of(old(pending), a), n)
      ensures Of(queue, a) == Of(old(queue), a) + From(Of(old(pending), a), n + 1)
      ensures nonces == if old(NonceOf(a)) > n then old(nonces)[a := n] else old(nonces)
      ensures beats == if Of(pending, a) == map[] then old(beats) - {a} else old(beats)
    {
      var list := pending[a];
      var left := Removed(list, n);
      ListOfIs(pending, a, true);
      PartOk(list, a, true, left.items);
      PartOwn(list.items, a, From(list.items, n + 1));
      StoreIs(pending, a, left, true);
      pending := Store(pending, a, left);
      if left.items == map[] {
        beats := beats - {a};
      }
      Postpone(a, From(list.items, n + 1), gone);
      if NonceOf(a) > n {
        nonces := nonces[a := n];
      }
    }

    /** removeTx: one transaction leaves the pool. If it was pending, everything after it
        goes back to the queue and the virtual nonce falls to its own. */
    method RemoveTx(tx: Tx, outofbound: bool, ghost gone: set<Tx>)
      requires Sound() && Heaped(gone)
      modifies `pending, `queue, `all, `beats, `nonces, priced
      ensures Sound() && Heaped(gone) && all == old(all) - {tx}
      ensures OnlyAt(old(pending), pending, tx.from) && OnlyAt(old(queue), queue, tx.from)
      ensures tx in old(all) && Has(Of(old(pending), tx.from), tx) ==>
        && Of(pending, tx.from) == Below(Of(old(pending), tx.from), tx.nonce)
        && Of(queue, tx.from) == Of(old(queue), tx.from) + From(Of(old(pending), tx.from), tx.nonce + 1)
        && nonces == (if old(NonceOf(tx.from)) > tx.nonce then old(nonces)[tx.from := tx.nonce] else old(nonces))
        && beats == if Of(pending, tx.from) == map[] then old(beats) - {tx.from} else old(beats)
      ensures tx in old(all) && !Has(Of(old(pending), tx.from), tx) ==>
        && pending == old(pending) && nonces == old(nonces) && beats == old(beats)
        && Of(queue, tx.from) == Of(old(queue), tx.from) - {tx.nonce}
      ensures tx !in old(all) ==> Now() == old(Now())
      ensures tx in old(all) && !Has(Of(old(pending), tx.from), tx) && outofbound ==>
        Priced.Lazy(old(priced.items), old(priced.stales), 1, priced.items, priced.stales)
      ensures Shrunk(head, old(pending), old(nonces), pending, nonces)
      ensures StaysIdle(head, old(queue), old(nonces), queue, nonces)
      ensures old(Executable()) ==> Executable()
    {
      if tx !in all { return; }
      var a, n := tx.from, tx.nonce;
      OnePlace(pending, queue, all, tx, tx);
      all := all - {tx};
      if outofbound {
        Remark(gone);
      }
      if a in pending && n in pending[a].items {
        BehindPending(old(pending), old(queue), old(all), tx);
        RemovePending(a, n, gone);
        PendingRemoved(old(pending), old(queue), old(all), pending, queue, tx);
        ShrunkBelow(head, old(pending), old(nonces), pending, nonces, a, n);
        if old(Executable()) {
          RunShortened(head, old(pending), old(nonces), pending, nonces, a, n);
        }
      } else {
        RemoveQueued(a, n);
        QueueRemoved(old(pending), old(queue), old(all), queue, tx);
      }
      RemovedIdle(head, old(pending), old(queue), old(all), old(nonces), queue, nonces, a, n);
    }

    /** The part of removeTx that runs when the nonce is queued. */
    method RemoveQueued(a: Addr, n: nat)
      requires ListsOk(queue, false)
      modifies `queue
      ensures ListsOk(queue, false) && OnlyAt(old(queue), queue, a) && Of(queue, a) == Of(old(queue), a) - {n}
    {
      if a in queue {
        var list := queue[a];
        ListOfIs(queue, a, false);
        PartOk(list, a, false, list.items - {n});
        StoreIs(queue, a, Removed(list, n), false);
        queue := Store(queue, a, Removed(list, n));
      }
    }

    /** promoteTx under a nonce that is not pending yet always inserts. */
    method PromoteFresh(a: Addr, tx: Tx, now: nat)
      requires Heaped({}) && tx in all && tx.nonce !in Of(pending, a)
      modifies `pending, `all, `beats, `nonces, priced
      ensures Heaped({}) && all == old(all)
      ensures pending == old(pending)[a := Added(ListOf(old(pending), a, true), tx)]
      ensures nonces == old(nonces)[a := tx.nonce + 1] && beats == old(beats)[a := now]
    {
      var inserted := PromoteTx(a, tx, now, {});
      assert all == old(all);
    }

    /** The promotion loop over the ready transactions, which have nonces `lo` to `e` - 1. */
    method PromoteRun(a: Addr, ready: Items, lo: nat, e: nat, now: nat)
      requires ListsOk(pending, true) && Heaped({}) && lo < e && Own(ready, a) && Txs(ready) <= all
      requires forall n :: n in ready <==> lo <= n < e
      requires forall n :: n in ready ==> n !in Of(pending, a)
      modifies `pending, `all, `beats, `nonces, priced
      ensures ListsOk(pending, true) && Heaped({}) && all == old(all)
      ensures OnlyAt(old(pending), pending, a) && Of(pending, a) == Of(old(pending), a) + ready
      ensures nonces == old(nonces)[a := e] && beats == old(beats)[a := now]
    {
      var n := lo;
      PromoteStart(pending, a, ready, lo);
      while n < e
        invariant lo <= n <= e && Heaped({}) && all == old(all)
        invariant Raised(old(pending), pending, a, ready, n)
        invariant nonces == Since(old(nonces), a, lo, n, n) && beats == Since(old(beats), a, lo, n, now)
      {
        PromoteStep(old(pending), pending, a, ready, n);
        assert ready[n] in Txs(ready) && OwnAt(ready, a, n);
        SinceStep(old(nonces), a, lo, n, n, n + 1);
        SinceStep(old(beats), a, lo, n, now, now);
        PromoteFresh(a, ready[n], now);
        n := n + 1;
      }
      MergedAll(Of(old(pending), a), Of(pending, a), ready, e);
    }

    /** Dropping the old and the unpayable from an account's queue, in two rounds. */
    method DropIneligible(a: Addr, list: List) returns (fit: List)
      requires Heaped({}) && ListOk(list, a, false)
      modifies `all, priced
      ensures Heaped({}) && fit == Eligible(head, list, a)
      ensures all == old(all) - (Txs(list.items) - Txs(fit.items))
    {
      var forward := list.(items := From(list.items, head.nonce(a)));
      DropAll(Txs(list.items) - Txs(forward.items), {});
      fit := Filtered(forward, head.balance(a), head.maxGas);
      DropAll(Txs(forward.items) - Txs(fit.items), {});
      EligibleOk(head, list, a);
      FilterExact(forward, head.balance(a), head.maxGas);
      PartTxs(list.items, forward.items);
      PartTxs(forward.items, fit.items);
    }

    method PromoteReady(a: Addr, ready: Items, e: nat, now: nat)
      requires ListsOk(pending, true) && Heaped({}) && Own(ready, a) && Txs(ready) <= all
      requires ready != map[] ==> Least(ready.Keys) < e && forall n :: n in ready <==> Least(ready.Keys) <= n < e
      requires forall n :: n in ready ==> n !in Of(pending, a)
      modifies `pending, `all, `beats, `nonces, priced
      ensures ListsOk(pending, true) && Heaped({}) && all == old(all)
      ensures OnlyAt(old(pending), pending, a) && Of(pending, a) == Of(old(pending), a) + ready
      ensures nonces == if ready == map[] then old(nonces) else old(nonces)[a := e]
      ensures beats == if ready == map[] then old(beats) else old(beats)[a := now]
    {
      if ready != map[] {
        PromoteRun(a, ready, Least(ready.Keys), e, now);
      }
    }

    /** Dropping all queued transactions over the allowed limit, except for local accounts. */
    method CapQueue(a: Addr, items: Items) returns (left: Items)
      requires Heaped({})
      modifies `all, priced
      ensures left == if a in locals then items else CutTo(items, config.accountQueue)
      ensures Part(left, items)
      ensures Heaped({}) && all == old(all) - (Txs(items) - Txs(left))
    {
      left := items;
      if a !in locals {
        left := CutTo(items, config.accountQueue);
        CutPart(items, config.accountQueue);
        DropAll(Txs(items) - Txs(left), {});
      }
    }

    /** The steps of promoteExecutables for one queued account. */
    method PromoteList(a: Addr, now: nat) returns (ghost fit: Items, ghost e: nat, ghost rest: Items)
      requires Sound() && Heaped({}) && a in queue
      modifies `pending, `queue, `all, `beats, `nonces, priced
      ensures fit == Eligible(head, old(queue)[a], a).items && e == ReadyEnd(fit, old(NonceOf(a)))
      ensures rest == if a in locals then From(fit, e) else CutTo(From(fit, e), config.accountQueue)
      ensures Part(rest, From(fit, e))
      ensures ListsOk(pending, true) && ListsOk(queue, false) && Heaped({})
      ensures OnlyAt(old(pending), pending, a) && OnlyAt(old(queue), queue, a)
      ensures Of(pending, a) == Of(old(pending), a) + Below(fit, e) && Of(queue, a) == rest
      ensures all == old(all) - (Txs(Of(old(queue), a)) - Txs(fit)) - (Txs(From(fit, e)) - Txs(rest))
      ensures nonces == if Below(fit, e) == map[] then old(nonces) else old(nonces)[a := e]
      ensures beats == if Below(fit, e) == map[] then old(beats) else old(beats)[a := now]
    {
      var list := queue[a];
      ListOfIs(queue, a, false);
      EligibleOk(head, list, a);
      var good := DropIneligible(a, list);
      var end := ReadyEnd(good.items, NonceOf(a));
      var ready := Below(good.items, end);
      ReadyRun(old(pending), old(queue), old(all), a, good.items, NonceOf(a));
      PromoteReady(a, ready, end, now);
      var left := CapQueue(a, From(good.items, end));
      fit, e, rest := good.items, end, left;
      PartOk(good, a, false, left);
      StoreIs(queue, a, good.(items := left), false);
      queue := Store(queue, a, good.(items := left));
    }

    /** promoteExecutables for one account: what is ready becomes pending, and the old, the
        unpayable and what exceeds the account's limit leave the pool. */
    method PromoteAccount(a: Addr, now: nat)
      requires Valid()
      modifies `pending, `queue, `all, `beats, `nonces, priced
      ensures Valid() && all <= old(all)
      ensures LocalsKept(head, locals, old(all), all)
      ensures old(Executable()) ==> Executable()
      ensures PromotedAt(head, config.accountQueue, old(Executable()), Now(), a)
      ensures PromotedTo(head, config.accountQueue, now, old(Now()), Now(), a) && Elsewhere(old(Now()), Now(), a)
    {
      if a !in queue {
        assert Of(queue, a) == map[];
        return;
      }
      ghost var fit, e, rest := PromoteList(a, now);
      OnlyThere(old(Now()), Now(), a, e, now);
      ghost var p, q := Of(old(pending), a), Of(old(queue), a);
      assert AccountOk(p, q, old(all), a);
      ListOfIs(old(queue), a, false);
      EligibleOk(head, old(queue)[a], a);
      Promoted(p, q, old(all), a, fit, e, rest, all);
      AccountChanged(old(pending), old(queue), old(all), pending, queue, all, a);
      if a in locals {
        assert all == old(all) - (Txs(q) - Txs(fit));
        DroppedFrom(head, old(queue)[a], a, old(all), fit, all);
      }
      LocalsKeptAt(head, locals, old(all), all, a);
      if old(Executable()) {
        PromotedRuns(head, old(pending), old(queue), old(all), old(nonces), pending, nonces, a, fit);
      }
    }

    /** Dropping the old and the unpayable from an account's pending list, in two rounds. */
    method DropUnexecutable(a: Addr, list: List) returns (kept: List, invalids: Items)
      requires Heaped({}) && ListOk(list, a, true)
      modifies `all, priced
      ensures Heaped({}) && kept == Filtered(list.(items := From(list.items, head.nonce(a))), head.balance(a), head.maxGas)
      ensures invalids == Payable(From(list.items, head.nonce(a)), head.balance(a), head.maxGas) - kept.items.Keys
      ensures all == old(all) - (Txs(list.items) - Txs(Payable(From(list.items, head.nonce(a)), head.balance(a), head.maxGas)))
    {
      var forward := list.(items := From(list.items, head.nonce(a)));
      DropAll(Txs(list.items) - Txs(forward.items), {});
      kept := Filtered(forward, head.balance(a), head.maxGas);
      var pay := Payable(forward.items, head.balance(a), head.maxGas);
      DropAll(Txs(forward.items) - Txs(pay), {});
      invalids := pay - kept.items.Keys;
      PartTxs(list.items, forward.items);
      PartTxs(forward.items, pay);
    }

    /** If there is a gap in front, everything is postponed. */
    method PostponeGap(a: Addr, left: List) returns (kept: List)
      requires Heaped({}) && ListsOk(queue, false) && ListOk(left, a, true)
      requires (forall n :: n in left.items ==> n !in Of(queue, a)) && Txs(left.items) <= all
      modifies `queue, `all, priced
      ensures Heaped({}) && ListsOk(queue, false) && all == old(all) && ListOk(kept, a, true)
      ensures kept.items == if head.nonce(a) in left.items then left.items else map[]
      ensures OnlyAt(old(queue), queue, a) && Of(queue, a) == Of(old(queue), a) + (left.items - kept.items.Keys)
    {
      kept := left;
      if left.items != map[] && head.nonce(a) !in left.items {
        Postpone(a, left.items, {});
        kept := left.(items := map[]);
        PartOk(left, a, true, map[]);
        assert left.items - kept.items.Keys == left.items;
      } else {
        assert left.items - kept.items.Keys == map[];
      }
    }

    /** demoteUnexecutables for one account. */
    method DemoteList(a: Addr) returns (ghost pay: Items, ghost kept: Items)
      requires Sound() && Heaped({}) && a in pending
      modifies `pending, `queue, `all, `beats, priced
      ensures pay == Payable(From(Of(old(pending), a), head.nonce(a)), head.balance(a), head.maxGas)
      ensures Part(kept, pay) && Part(pay, Of(old(pending), a))
      ensures var left := Filtered(old(pending)[a].(items := From(Of(old(pending), a), head.nonce(a))), head.balance(a), head.maxGas).items;
        kept == if head.nonce(a) in left then left else map[]
      ensures ListsOk(pending, true) && ListsOk(queue, false) && Heaped({})
      ensures OnlyAt(old(pending), pending, a) && OnlyAt(old(queue), queue, a)
      ensures Of(pending, a) == kept && Of(queue, a) == Of(old(queue), a) + (pay - kept.Keys)
      ensures beats == if kept == map[] then old(beats) - {a} else old(beats)
      ensures all == old(all) - (Txs(Of(old(pending), a)) - Txs(pay))
    {
      var list := pending[a];
      ghost var p, q := Of(pending, a), Of(queue, a);
      assert AccountOk(p, q, all, a);
      ListOfIs(pending, a, true);
      StrictFilter(head, list, a);
      pay := Payable(From(list.items, head.nonce(a)), head.balance(a), head.maxGas);
      var left, invalids := DropUnexecutable(a, list);
      Demoted(p, q, old(all), a, pay, left.items);
      Postpone(a, invalids, {});
      PartTxs(pay, left.items);
      BackTwice(q, pay, left.items, if head.nonce(a) in left.items then left.items else map[]);
      ghost var mid := queue;
      left := PostponeGap(a, left);
      OnlyAtTrans(old(queue), mid, queue, a);
      kept := left.items;
      StoreIs(pending, a, left, true);
      pending := Store(pending, a, left);
      if left.items == map[] {
        beats := beats - {a};
      }
    }

    /** demoteUnexecutables for one account. The pool stays sound, only old or unpayable
        transactions leave it, and a run under an earlier head becomes one under this head. */
    method DemoteAccount(a: Addr, ghost head0: Head, ghost nonces0: map<Addr, nat>)
      requires Valid() && a in pending
      modifies `pending, `queue, `all, `beats, priced
      ensures Valid() && OnlyAt(old(pending), pending, a) && OnlyAt(old(queue), queue, a) && all <= old(all)
      ensures DemotedTo(head, old(Now()), Now(), a) && forall b :: b != a ==> Entry(beats, b) == Entry(old(beats), b)
      ensures forall tx :: tx in old(all) && tx !in all ==> Dead(head, tx)
      ensures RunsAt(head0, old(pending), nonces0, a) ==> Settled(head, Of(pending, a), a)
    {
      ghost var list := pending[a];
      ghost var p, q := Of(pending, a), Of(queue, a);
      assert AccountOk(p, q, all, a);
      ListOfIs(pending, a, true);
      ghost var pay, kept := DemoteList(a);
      Demoted(p, q, old(all), a, pay, kept);
      AccountChanged(old(pending), old(queue), old(all), pending, queue, all, a);
      DeadOnes(head, p, a, old(all), all);
      if RunsAt(head0, old(pending), nonces0, a) {
        EmptySettled(head, a);
        PartOk(list, a, true, From(p, head.nonce(a)));
        DemotedRun(p, head0.nonce(a), Virtual(head0, nonces0, a), head0.balance(a), head0.maxGas, head, a,
                   list.(items := From(p, head.nonce(a))));
      }
    }

    /** demoteUnexecutables */
    method DemoteUnexecutables(ghost head0: Head, ghost nonces0: map<Addr, nat>)
      requires Valid()
      modifies `pending, `queue, `all, `beats, priced
      ensures Valid() && all <= old(all)
      ensures forall tx :: tx in old(all) && tx !in all ==> Dead(head, tx)
      ensures Runs(head0, old(pending), nonces0) ==> forall a :: SettledAt(head, pending, a)
      ensures forall a {:trigger DemotedTo(head, old(Now()), Now(), a)} :: DemotedTo(head, old(Now()), Now(), a)
    {
      var todo := pending.Keys;
      DemoteStart(head, head0, nonces0, pending);
      DemotedStarts(head, Now());
      while todo != {}
        invariant Valid() && all <= old(all)
        invariant forall tx :: tx in old(all) && tx !in all ==> Dead(head, tx)
        invariant Demoting(head, head0, nonces0, old(pending), pending, todo)
        invariant DemotedBut(head, old(Now()), Now(), todo)
      {
        var a :| a in todo;
        ghost var was := Now();
        assert SameAt(old(pending), was.pending, a);
        DemoteAccount(a, head0, nonces0);
        DemoteStep(head, head0, nonces0, old(pending), was.pending, pending, todo, a);
        forall b | b != a ensures ListsSameAt(was, Now(), b) {
          assert SameAt(was.pending, pending, b) && SameAt(was.queue, queue, b);
        }
        DemotedStep(head, old(Now()), was, Now(), todo, a);
        todo := todo - {a};
      }
    }

    /** One account loses its highest pending nonce. */
    method CutLast(a: Addr)
      requires Valid() && a in pending && |pending[a].items| >= 2
      modifies `pending, `all, `nonces, priced
      ensures Valid() && pending == old(pending)[a := old(pending)[a].(items := DropGreatest(old(pending)[a].items))]
      ensures var n := Greatest(old(pending)[a].items.Keys);
        && all == old(all) - {old(pending)[a].items[n]}
        && nonces == if old(NonceOf(a)) > n then old(nonces)[a := n] else old(nonces)
      ensures Shrunk(head, old(pending), old(nonces), pending, nonces) && (old(Executable()) ==> Executable())
    {
      var list := pending[a];
      var n := Greatest(list.items.Keys);
      LastDropped(pending, queue, all, a);
      var left := CutTo(list.items, |list.items| - 1);
      CutFurther(list.items, |list.items| - 1);
      pending := pending[a := list.(items := left)];
      DropAll({list.items[n]}, {});
      if NonceOf(a) > n {
        nonces := nonces[a := n];
      }
      ShrunkBelow(head, old(pending), old(nonces), pending, nonces, a, n);
      if old(Executable()) {
        RunShortened(head, old(pending), old(nonces), pending, nonces, a, n);
      }
    }

    /** What every step of the equalization keeps. */
    ghost predicate Lowered(s0: Snap, runs: bool)
      reads this
    {
      all <= s0.all && Shrunk(head, s0.pending, s0.nonces, pending, nonces) && (runs ==> Executable())
    }

    /** One round of the equalization: each of these accounts loses one transaction. */
    method CutRound(accounts: seq<Addr>, ghost lists: Lists, ghost k: nat, ghost s0: Snap, ghost runs: bool)
      requires Lowered(s0, runs) && Valid() && k >= 1 && IsLevel(pending, lists, locals, k + 1) && Exactly(accounts, lists, locals, k)
      modifies `pending, `all, `nonces, priced
      ensures Valid() && IsLevel(pending, lists, locals, k) && Total(pending) == Total(old(pending)) - |accounts|
      ensures Lowered(s0, runs)
    {
      RoundStarts(pending, lists, locals, k);
      for i := 0 to |accounts|
        invariant Valid() && Midway(pending, lists, locals, k, Members(accounts[..i]))
        invariant Total(pending) == Total(old(pending)) - i
        invariant Lowered(s0, runs)
      {
        assert Exceeds(lists, locals, k, accounts[i]);
        MembersStep(accounts, i);
        MidwayStep(pending, lists, locals, k, Members(accounts[..i]), accounts[i]);
        ghost var was, wasNonces := pending, nonces;
        CutLast(accounts[i]);
        TotalUpdate(was, accounts[i], pending[accounts[i]]);
        ShrunkTrans(head, s0.pending, s0.nonces, was, wasNonces, pending, nonces);
      }
      assert accounts[..|accounts|] == accounts;
      RoundDone(pending, lists, locals, k, accounts);
    }

    /** The pending lists are the original ones cut at one level. */
    ghost predicate AtLevel(lists: Lists, level: nat, total: nat)
      reads this, priced
    {
      Valid() && IsLevel(pending, lists, locals, level) && total == Total(pending)
    }

    /** A round while there are too many pending transactions lowers the level by one. */
    method Lower(accounts: seq<Addr>, total: nat, ghost lists: Lists, ghost k: nat, ghost s0: Snap, ghost runs: bool)
      returns (total': nat)
      requires Lowered(s0, runs) && AtLevel(lists, k + 1, total) && k >= 1 && total > config.globalSlots
      requires Exactly(accounts, lists, locals, k)
      modifies `pending, `all, `nonces, priced
      ensures AtLevel(lists, k, total') && Crowded(lists, locals, k + 1, config.globalSlots)
      ensures Lowered(s0, runs)
    {
      LevelIs(pending, lists, locals, k + 1);
      CutRound(accounts, lists, k, s0, runs);
      total' := total - |accounts|;
    }

    /** The inner loop: the earlier offenders are brought down to the length of the new one. */
    method EqualizeTo(offenders: seq<Addr>, offender: Addr, total0: nat, ghost lists: Lists, ghost level0: nat,
                      ghost s0: Snap, ghost runs: bool)
      returns (total: nat, ghost level: nat)
      requires Lowered(s0, runs) && AtLevel(lists, level0, total0) && offenders != []
      requires offender in lists && offender !in locals && 1 <= |lists[offender].items| <= level0
      requires var last := offenders[|offenders| - 1]; last in lists && last !in locals && level0 <= |lists[last].items|
      requires forall k {:trigger Exactly(offenders, lists, locals, k)} ::
        |lists[offender].items| <= k < level0 ==> Exactly(offenders, lists, locals, k)
      modifies `pending, `all, `nonces, priced
      ensures AtLevel(lists, level, total) && |lists[offender].items| <= level <= level0
      ensures total <= config.globalSlots || level == |lists[offender].items|
      ensures level < level0 ==> Crowded(lists, locals, level + 1, config.globalSlots)
      ensures Lowered(s0, runs)
    {
      total, level := total0, level0;
      var last := offenders[|offenders| - 1];
      LevelLength(pending, lists, locals, level, offender);
      LevelLength(pending, lists, locals, level, last);
      var threshold := |pending[offender].items|;
      while total > config.globalSlots && |pending[last].items| > threshold
        invariant AtLevel(lists, level, total) && last in pending && |pending[last].items| == level
        invariant threshold == |lists[offender].items| <= level <= level0
        invariant level < level0 ==> Crowded(lists, locals, level + 1, config.globalSlots)
        invariant Lowered(s0, runs)
        decreases level
      {
        level := level - 1;
        total := Lower(offenders, total, lists, level, s0, runs);
        LevelLength(pending, lists, locals, level, last);
      }
    }

    /** prque, taken as an exact priority queue: a longest list comes first. */
    method PopSpammer(spammers: map<Addr, nat>) returns (offender: Addr, rest: map<Addr, nat>)
      requires spammers != map[]
      ensures IsMax(spammers, offender) && rest == spammers - {offender}
      ensures |rest| < |spammers|
    {
      MaxExists(spammers);
      offender :| offender in spammers && forall b :: b in spammers ==> spammers[b] <= spammers[offender];
      rest := spammers - {offender};
      assert rest.Keys == spammers.Keys - {offender};
    }

    /** After the loop body for the last offender: its length is reached, or there is room. */
    ghost predicate Punished(lists: Lists, offenders: seq<Addr>, level: nat, total: nat)
      requires offenders != []
      reads this, priced
    {
      var last := offenders[|offenders| - 1];
      && AtLevel(lists, level, total)
      && last in lists && |lists[last].items| <= level
      && (total <= config.globalSlots || level == |lists[last].items|)
      && Tight(lists, locals, level, config.globalSlots)
    }

    /** Between two offenders. */
    ghost predicate Stage(lists: Lists, offenders: seq<Addr>, level: nat, total: nat)
      reads this, priced
    {
      if offenders == [] then Valid() && total == Total(pending) && pending == lists
      else Punished(lists, offenders, level, total)
    }

    /** The loop body of the equalization: one more offender. */
    method PenalizeOne(offenders: seq<Addr>, offender: Addr, total0: nat, ghost spammers: map<Addr, nat>,
                       ghost lists: Lists, ghost level0: nat, ghost s0: Snap, ghost runs: bool)
      returns (total: nat, ghost level: nat)
      requires Lowered(s0, runs) && Stage(lists, offenders, level0, total0) && total0 > config.globalSlots
      requires Hunt(offenders, spammers, lists, locals, config.accountSlots) && IsMax(spammers, offender)
      modifies `pending, `all, `nonces, priced
      ensures Stage(lists, offenders + [offender], level, total)
      ensures Lowered(s0, runs)
    {
      HuntStep(offenders, spammers, lists, locals, config.accountSlots, offender);
      total := total0;
      if offenders != [] {
        total, level := EqualizeTo(offenders, offender, total, lists, level0, s0, runs);
      } else {
        level := |lists[offender].items|;
        LevelAbove(lists, locals, level);
      }
    }

    /** Gradually dropping transactions from offenders, longest lists first. */
    method Penalize(total0: nat, spammers0: map<Addr, nat>, ghost s0: Snap, ghost runs: bool)
      returns (total: nat, offenders: seq<Addr>, spammers: map<Addr, nat>, ghost level: nat)
      requires Lowered(s0, runs) && Valid() && total0 == Total(pending)
      requires Hunt([], spammers0, pending, locals, config.accountSlots)
      modifies `pending, `all, `nonces, priced
      ensures Stage(old(pending), offenders, level, total) && (total <= config.globalSlots || spammers == map[])
      ensures Hunt(offenders, spammers, old(pending), locals, config.accountSlots)
      ensures Lowered(s0, runs)
    {
      total, offenders, spammers, level := total0, [], spammers0, 0;
      while total > config.globalSlots && spammers != map[]
        invariant Stage(old(pending), offenders, level, total)
        invariant Hunt(offenders, spammers, old(pending), locals, config.accountSlots)
        invariant Lowered(s0, runs)
        decreases |spammers|
      {
        ghost var was := spammers;
        var offender;
        offender, spammers := PopSpammer(spammers);
        HuntNext(offenders, was, old(pending), locals, config.accountSlots, offender);
        total, level := PenalizeOne(offenders, offender, total, was, old(pending), level, s0, runs);
        offenders := offenders + [offender];
      }
    }

    /** Reducing all offenders to the limit or to the guaranteed allowance. */
    method Reduce(offenders: seq<Addr>, total0: nat, ghost lists: Lists, ghost level0: nat, ghost s0: Snap, ghost runs: bool)
      returns (ghost level: nat)
      requires Lowered(s0, runs) && offenders != [] && Punished(lists, offenders, level0, total0) && total0 > config.globalSlots
      requires Hunt(offenders, map[], lists, locals, config.accountSlots)
      modifies `pending, `all, `nonces, priced
      ensures Leveling(lists, level)
      ensures Lowered(s0, runs)
    {
      var last := offenders[|offenders| - 1];
      var sum: nat := total0;
      level := level0;
      HuntDone(offenders, lists, locals, config.accountSlots, level);
      LevelLength(pending, lists, locals, level, last);
      assert Exceeds(lists, locals, config.accountSlots, last) by { assert last in offenders; }
      while sum > config.globalSlots && |pending[last].items| > config.accountSlots
        invariant AtLevel(lists, level, sum) && last in pending && |pending[last].items| == level
        invariant config.accountSlots <= level <= |lists[last].items| && Tight(lists, locals, level, config.globalSlots)
        invariant Lowered(s0, runs)
        decreases level
      {
        level := level - 1;
        HuntDone(offenders, lists, locals, config.accountSlots, level);
        sum := Lower(offenders, sum, lists, level, s0, runs);
        LevelLength(pending, lists, locals, level, last);
      }
    }

    /** What the equalization achieves. */
    ghost predicate Leveling(lists: Lists, level: nat)
      reads this, priced
    {
      Valid() && LevelsOff(config, locals, lists, pending, level)
    }

    /** The equalization of promoteExecutables. */
    method Equalize() returns (ghost level: nat)
      requires Valid()
      modifies `pending, `all, `nonces, priced
      ensures Leveling(old(pending), level)
      ensures Lowered(old(Now()), old(Executable()))
    {
      var total := Count(pending);
      ShrunkStarts(head, pending, nonces);
      if total > config.globalSlots {
        var spammers := map a | a in pending && a !in locals && |pending[a].items| > config.accountSlots :: |pending[a].items|;
        var offenders;
        HuntStarts(pending, locals, config.accountSlots, spammers);
        total, offenders, spammers, level := Penalize(total, spammers, old(Now()), old(Executable()));
        if offenders != [] {
          LastExceeds(offenders, spammers, old(pending), locals, config.accountSlots);
        } else {
          level := config.accountSlots;
          NoneLeft(old(pending), locals, config.accountSlots);
        }
        if total > config.globalSlots && offenders != [] {
          level := Reduce(offenders, total, old(pending), level, old(Now()), old(Executable()));
        }
      } else {
        level := total + config.accountSlots;
        AllWithin(pending, locals, level);
      }
    }

    /** removeTx on a queued transaction. */
    method RemoveFuture(a: Addr, n: nat)
      requires Valid() && n in Of(queue, a)
      modifies `pending, `queue, `all, `beats, `nonces, priced
      ensures Valid() && pending == old(pending) && nonces == old(nonces) && beats == old(beats)
      ensures OnlyAt(old(queue), queue, a) && Of(queue, a) == Of(old(queue), a) - {n}
      ensures all == old(all) - {Of(old(queue), a)[n]} && Total(queue) == Total(old(queue)) - 1
      ensures |Of(queue, a)| == |Of(old(queue), a)| - 1 && |all| == |old(all)| - 1
      ensures Priced.Lazy(old(priced.items), old(priced.stales), 1, priced.items, priced.stales)
    {
      QueuedIs(pending, queue, all, a, n);
      RemoveTx(queue[a].items[n], true, {});
      TotalOnlyAt(old(queue), queue, a);
      assert (Of(old(queue), a) - {n}).Keys == Of(old(queue), a).Keys - {n};
    }

    /** Everything an account has queued is removed. */
    method ClearQueue(a: Addr)
      requires Valid() && a in queue
      modifies `pending, `queue, `all, `beats, `nonces, priced
      ensures Valid() && pending == old(pending) && nonces == old(nonces) && beats == old(beats)
      ensures OnlyAt(old(queue), queue, a) && a !in queue
      ensures all <= old(all) && Total(queue) == Total(old(queue)) - |old(queue)[a].items|
      ensures Priced.Lazy(old(priced.items), old(priced.stales), |old(all)| - |all|, priced.items, priced.stales)
    {
      var todo := queue[a].items.Keys;
      while todo != {}
        invariant Valid() && pending == old(pending) && nonces == old(nonces) && beats == old(beats)
        invariant OnlyAt(old(queue), queue, a) && Of(queue, a).Keys == todo
        invariant Priced.Lazy(old(priced.items), old(priced.stales), |old(all)| - |all|, priced.items, priced.stales)
        invariant all <= old(all) && Total(queue) == Total(old(queue)) - |old(queue)[a].items| + |todo|
      {
        var n :| n in todo;
        ghost var was := queue;
        RemoveFuture(a, n);
        OnlyAtTrans(old(queue), was, queue, a);
        todo := todo - {n};
      }
      ListOfIs(queue, a, false);
      assert ListAt(queue, false, a);
    }

    /** The last few queued transactions of an account are removed. */
    method TrimQueue(a: Addr, drop: nat)
      requires Valid() && a in queue && drop < |queue[a].items|
      modifies `pending, `queue, `all, `beats, `nonces, priced
      ensures Valid() && pending == old(pending) && nonces == old(nonces) && beats == old(beats)
      ensures OnlyAt(old(queue), queue, a)
      ensures Of(queue, a) == CutTo(Of(old(queue), a), |Of(old(queue), a)| - drop)
      ensures all <= old(all) && Total(queue) == Total(old(queue)) - drop
    {
      var left: nat := drop;
      while left > 0
        invariant Valid() && pending == old(pending) && nonces == old(nonces) && beats == old(beats)
        invariant left <= drop && OnlyAt(old(queue), queue, a)
        invariant Of(queue, a) == CutTo(Of(old(queue), a), |Of(old(queue), a)| - (drop - left))
        invariant all <= old(all) && Total(queue) == Total(old(queue)) - (drop - left)
      {
        ghost var was := queue;
        CutFurther(Of(old(queue), a), |Of(old(queue), a)| - (drop - left) - 1);
        RemoveFuture(a, Greatest(Of(queue, a).Keys));
        OnlyAtTrans(old(queue), was, queue, a);
        left := left - 1;
      }
    }

    /** The end of promoteExecutables. If more is queued than allowed, exactly the excess is
        removed, or everything that is not local. Locals keep all, others keep their lowest
        nonces, and accounts with later heartbeats lose everything first. */
    method TruncateQueue()
      requires Valid()
      modifies `pending, `queue, `all, `beats, `nonces, priced
      ensures Valid() && pending == old(pending) && nonces == old(nonces) && beats == old(beats) && all <= old(all)
      ensures Truncates(config, locals, beats, old(queue), queue) && StaysIdle(head, old(queue), nonces, queue, nonces)
      ensures OldestFirst(old(queue), queue, locals, beats) <==> TakesOldest(config, locals, beats, old(queue))
    {
      var queued := Count(queue);
      ghost var todo := set a | a in queue && a !in locals;
      TrimStarts(queue, locals, beats, todo);
      if queued > config.globalQueue {
        var remote := set a | a in queue && a !in locals;
        var addresses := SortByBeat(remote, beats);
        var drop: nat := queued - config.globalQueue;
        ghost var partial := {};
        while drop > 0 && addresses != []
          invariant Valid() && pending == old(pending) && nonces == old(nonces) && beats == old(beats) && all <= old(all)
          invariant Trimming(old(queue), queue, locals, beats, todo, partial) && ByBeat(addresses, beats, todo)
          invariant drop > 0 ==> partial == {}
          invariant Total(queue) == config.globalQueue + drop
          decreases |addresses|
        {
          var addr := addresses[|addresses| - 1].0;
          LastBeat(addresses, beats, todo);
          addresses := addresses[..|addresses| - 1];
          ghost var was := queue;
          assert LeftAt(old(queue), queue, locals, todo, partial, addr);
          drop := TrimAccount(addr, drop);
          TrimStep(old(queue), was, queue, locals, beats, todo, addr);
          todo, partial := todo - {addr}, if addr in queue then {addr} else {};
        }
        if drop > 0 { OnlyLocals(old(queue), queue, locals, beats, todo, addresses); }
        TrimmedKeys(old(queue), queue, locals, beats, todo, partial);
      }
      TrimmedIdle(head, old(queue), queue, nonces);
      assert Truncates(config, locals, beats, old(queue), queue);
      TruncatesOldest(config, locals, beats, old(queue), queue);
    }

    /** One account of the truncation: all of it if that is not more than the excess, otherwise
        the last few. */
    method TrimAccount(a: Addr, drop: nat) returns (left: nat)
      requires Valid() && a in queue && drop > 0
      modifies `pending, `queue, `all, `beats, `nonces, priced
      ensures Valid() && pending == old(pending) && nonces == old(nonces) && beats == old(beats)
      ensures all <= old(all) && OnlyAt(old(queue), queue, a)
      ensures Total(queue) + drop == Total(old(queue)) + left
      ensures a in queue ==> left == 0 && Cutback(Of(old(queue), a), Of(queue, a))
    {
      var size := |queue[a].items|;
      if size <= drop {
        ClearQueue(a);
        left := drop - size;
      } else {
        TrimQueue(a, drop);
        left := 0;
      }
    }

    /** One more account, after those promoted since `start`. */
    method PromoteNext(done: seq<Addr>, a: Addr, now: nat, ghost start: Snap, ghost trail: seq<Snap>)
      returns (ghost longer: seq<Snap>)
      requires Valid() && all <= start.all && LocalsKept(head, locals, start.all, all)
      requires Promotion(head, config.accountQueue, now, start, Now(), done)
      requires Climb(head, config.accountQueue, now, trail, done) && trail[0] == start && trail[|done|] == Now()
      requires Runs(head, start.pending, start.nonces) ==> Executable()
      modifies `pending, `queue, `all, `beats, `nonces, priced
      ensures Valid() && all <= start.all && LocalsKept(head, locals, start.all, all)
      ensures Runs(head, start.pending, start.nonces) ==> Executable()
      ensures Promotion(head, config.accountQueue, now, start, Now(), done + [a])
      ensures Climb(head, config.accountQueue, now, longer, done + [a]) && longer[0] == start && longer[|done| + 1] == Now()
    {
      ghost var was := Now();
      PromoteAccount(a, now);
      LocalsKeptTrans(head, locals, start.all, was.all, all);
      assert PromotedAt(head, config.accountQueue, Runs(head, start.pending, start.nonces), Now(), a);
      PromotionStep(head, config.accountQueue, now, start, was, Now(), done, a);
      ClimbOn(head, config.accountQueue, now, trail, done, Now(), a);
      longer := trail + [Now()];
    }

    /** The accounts are promoted one by one; the others are not touched. */
    method PromoteEach(accounts: seq<Addr>, now: nat) returns (ghost trail: seq<Snap>)
      requires Valid()
      modifies `pending, `queue, `all, `beats, `nonces, priced
      ensures Valid() && all <= old(all) && LocalsKept(head, locals, old(all), all)
      ensures old(Executable()) ==> Executable()
      ensures Promotion(head, config.accountQueue, now, old(Now()), Now(), accounts)
      ensures Climb(head, config.accountQueue, now, trail, accounts) && trail[0] == old(Now()) && trail[|accounts|] == Now()
    {
      trail := [Now()];
      PromotionStarts(head, config.accountQueue, now, Now());
      for i := 0 to |accounts|
        invariant Valid() && all <= old(all) && LocalsKept(head, locals, old(all), all)
        invariant old(Executable()) ==> Executable()
        invariant Promotion(head, config.accountQueue, now, old(Now()), Now(), accounts[..i])
        invariant Climb(head, config.accountQueue, now, trail, accounts[..i]) && trail[0] == old(Now()) && trail[i] == Now()
      {
        trail := PromoteNext(accounts[..i], accounts[i], now, old(Now()), trail);
        assert accounts[..i + 1] == accounts[..i] + [accounts[i]];
      }
      assert accounts[..|accounts|] == accounts;
    }

    /** The pool's limits, which only local transactions may exceed. */
    ghost predicate WithinLimits()
      reads this
    {
      && (Total(pending) <= config.globalSlots || NoneExceeds(pending, locals, config.accountSlots))
      && (Total(queue) <= config.globalQueue || forall a :: a in queue ==> a in locals)
    }

    /** promoteExecutables, in its three phases: the accounts are promoted to `mid`, the pending
        lists are equalized to `level`, and the queue is truncated. Afterwards the limits hold; a
        local account's transactions leave only when they are included already or unpayable. If
        pending nonces are runs and only these accounts may have had executable transactions
        queued, none has any left. */
    method PromoteExecutables(accounts: seq<Addr>, now: nat)
      returns (ghost mid: Snap, ghost level: nat, ghost trail: seq<Snap>)
      requires Valid()
      modifies `pending, `queue, `all, `beats, `nonces, priced
      ensures Valid() && WithinLimits() && all <= old(all) && LocalsKept(head, locals, old(all), all)
      ensures old(Executable()) ==> Executable()
      ensures PromotesVia(config, head, now, old(Now()), mid, Now(), level, accounts)
      ensures Climb(head, config.accountQueue, now, trail, accounts) && trail[0] == old(Now()) && trail[|accounts|] == mid
      ensures old(Executable() && Waiting(head, queue, nonces, Members(accounts))) ==> Waitless()
    {
      trail := PromoteEach(accounts, now);
      mid := Now();
      level := Equalize();
      LevelLimits(mid.pending, pending, locals, level, config.accountSlots);
      LocalsUntouched(mid.pending, mid.queue, mid.all, pending, queue, all, head, locals);
      LocalsKeptTrans(head, locals, old(all), mid.all, all);
      ShrunkIdle(head, mid.pending, queue, mid.all, mid.nonces, pending, nonces);
      ghost var even := Now();
      TruncateQueue();
      TruncatedLocals(config, locals, beats, mid.queue, queue);
      LocalsUntouched(even.pending, even.queue, even.all, pending, queue, all, head, locals);
      LocalsKeptTrans(head, locals, old(all), even.all, all);
      IdleOn(head, mid.queue, mid.nonces, mid.queue, nonces, queue, nonces, {});
      if old(Executable() && Waiting(head, queue, nonces, Members(accounts))) {
        PromotedIdle(head, config.accountQueue, now, old(Now()), mid, queue, nonces, accounts);
      }
    }

    /** promoteExecutables for a set of accounts. */
    method PromoteSet(accounts: seq<Addr>, now: nat)
      requires Valid() && Distinct(accounts)
      modifies `pending, `queue, `all, `beats, `nonces, priced
      ensures Valid() && WithinLimits() && all <= old(all) && LocalsKept(head, locals, old(all), all)
      ensures old(Executable()) ==> Executable()
      ensures old(Executable() && Waiting(head, queue, nonces, Members(accounts))) ==> Waitless()
      ensures Promotes(config, head, now, old(Now()), Now(), Members(accounts))
    {
      ghost var mid, level, trail := PromoteExecutables(accounts, now);
      assert PromotesVia(config, head, now, old(Now()), mid, Now(), level, accounts);
    }

    /** Removing what the price heap gave up already. */
    method RemoveEach(drop: seq<Tx>)
      requires Sound() && Heaped(Elems(drop)) && Elems(drop) <= all
      modifies `pending, `queue, `all, `beats, `nonces, priced
      ensures Sound() && Heaped({}) && all == old(all) - Elems(drop)
      ensures CutShort(old(pending), pending, Elems(drop)) && BeatsCut(old(pending), old(beats), pending, beats)
      ensures Shrunk(head, old(pending), old(nonces), pending, nonces)
      ensures StaysIdle(head, old(queue), old(nonces), queue, nonces)
      ensures old(Executable()) ==> Executable()
      ensures drop == [] ==> Now() == old(Now())
    {
      CutShortStarts(pending);
      ShrunkStarts(head, pending, nonces);
      for i := 0 to |drop|
        invariant Sound() && Heaped(Elems(drop)) && all == old(all) - Elems(drop[..i])
        invariant Dropping(Elems(drop[..i]), old(Now()), old(Executable()))
        invariant i == 0 ==> Now() == old(Now())
      {
        assert Elems(drop[..i + 1]) == Elems(drop[..i]) + {drop[i]} by { assert drop[..i + 1] == drop[..i] + [drop[i]]; }
        assert drop[i] in Elems(drop);
        RemoveNext(drop[i], Elems(drop[..i]), Elems(drop), old(Now()), old(Executable()));
      }
      assert drop[..|drop|] == drop;
      assert all - {} == all - Elems(drop);
    }

    /** Progress of the removals: what is left of the lists, nonces and heartbeats. */
    ghost predicate Dropping(done: set<Tx>, s0: Snap, runs: bool)
      reads this
    {
      && CutShort(s0.pending, pending, done) && SameTxs(s0.pending, pending)
      && BeatsCut(s0.pending, s0.beats, pending, beats)
      && Shrunk(head, s0.pending, s0.nonces, pending, nonces)
      && StaysIdle(head, s0.queue, s0.nonces, queue, nonces)
      && (runs ==> Executable())
    }

    method RemoveNext(tx: Tx, ghost done: set<Tx>, ghost gone: set<Tx>, ghost s0: Snap, ghost runs: bool)
      requires Sound() && Heaped(gone) && Dropping(done, s0, runs) && (tx in all || tx in done)
      modifies `pending, `queue, `all, `beats, `nonces, priced
      ensures Sound() && Heaped(gone) && all == old(all) - {tx} && Dropping(done + {tx}, s0, runs)
    {
      ghost var was := Now();
      RemoveTx(tx, false, gone);
      CutShortStep(s0.pending, was.pending, was.queue, was.all, done, pending, tx);
      ShrunkTrans(head, s0.pending, s0.nonces, was.pending, was.nonces, pending, nonces);
      IdleOn(head, s0.queue, s0.nonces, was.queue, was.nonces, queue, nonces, {});
      StepTxs(was.pending, pending, tx);
      BeatsStep(s0.pending, s0.beats, was.pending, was.beats, pending, beats, tx.from);
    }

    /** SetGasPrice: exactly the remote transactions below the new price leave the pool. */
    method SetGasPrice(price: nat)
      requires Valid()
      modifies `gasPrice, `pending, `queue, `all, `beats, `nonces, priced
      ensures Valid() && gasPrice == price && (old(Executable()) ==> Executable()) && (old(Waitless()) ==> Waitless())
      ensures old(Balanced()) ==> Balanced()
      ensures Shrunk(head, old(pending), old(nonces), pending, nonces) && BeatsCut(old(pending), old(beats), pending, beats)
      ensures CutShort(old(pending), pending, old(all) - all)
      ensures forall tx :: tx in all <==> tx in old(all) && (tx.price >= price || Priced.IsLocal(locals, tx))
    {
      gasPrice := price;
      assert all - {} == all;
      var drop := priced.Cap(price, locals, all);
      Priced.ConservedCovers(old(priced.items), priced.items, drop, all, {});
      RemoveEach(drop);
      assert old(all) - all == Elems(drop);
      if old(Balanced()) {
        CutBeating(old(Now()), Now(), Elems(drop));
        UncrowdedShrinks(Rules().capacity, old(all), all, locals);
      }
    }

    /** The eviction tick: queues of accounts that are not local and were idle for too long are
        emptied, all others stay. */
    method Evict(now: nat)
      requires Valid()
      modifies `pending, `queue, `all, `beats, `nonces, priced
      ensures Valid() && pending == old(pending) && nonces == old(nonces) && beats == old(beats) && all <= old(all)
      ensures Priced.Lazy(old(priced.items), old(priced.stales), |old(all)| - |all|, priced.items, priced.stales)
      ensures (old(Waitless()) ==> Waitless()) && (old(Balanced()) ==> Balanced())
      ensures old(Balanced()) && now > config.lifetime ==> forall a :: a in queue ==> a in locals || a in pending
      ensures forall a :: a in queue <==> a in old(queue) && (a in locals || now - Beat(beats, a) <= config.lifetime)
      ensures forall a :: a in queue ==> SameAt(old(queue), queue, a)
    {
      var todo := queue.Keys;
      while todo != {}
        invariant Valid() && pending == old(pending) && nonces == old(nonces) && beats == old(beats) && all <= old(all)
        invariant todo <= old(queue).Keys
        invariant Priced.Lazy(old(priced.items), old(priced.stales), |old(all)| - |all|, priced.items, priced.stales)
        invariant forall a {:trigger EvictedAt(old(queue), queue, locals, beats, now, config.lifetime, todo, a)} ::
          EvictedAt(old(queue), queue, locals, beats, now, config.lifetime, todo, a)
      {
        var a :| a in todo;
        ghost var was := queue;
        assert EvictedAt(old(queue), was, locals, beats, now, config.lifetime, todo, a);
        if a !in locals && now - Beat(beats, a) > config.lifetime {
          ghost var wasAll := all;
          ClearQueue(a);
          Priced.Subset(all, wasAll);
        }
        forall b ensures EvictedAt(old(queue), queue, locals, beats, now, config.lifetime, todo - {a}, b) {
          assert EvictedAt(old(queue), was, locals, beats, now, config.lifetime, todo, b);
          if b != a { assert SameAt(was, queue, b); }
        }
        todo := todo - {a};
      }
      forall a: Addr
        ensures a in queue <==> a in old(queue) && (a in locals || now - Beat(beats, a) <= config.lifetime)
        ensures a in queue ==> SameAt(old(queue), queue, a)
      {
        assert EvictedAt(old(queue), queue, locals, beats, now, config.lifetime, todo, a);
      }
      TrimmedIdle(head, old(queue), queue, nonces);
      if old(Balanced()) {
        UncrowdedShrinks(Rules().capacity, old(all), all, locals);
        forall a ensures BeatsOn(Now(), a) && (a in queue && now > config.lifetime ==> a in locals || a in pending) {
          assert BeatsOn(old(Now()), a);
        }
      }
    }

    /** validateTx */
    method ValidateTx(tx: Tx, local: bool) returns (err: Option<Error>)
      ensures err.None? <==> Admissible(head, tx) && (local || tx.from in locals || gasPrice <= tx.price)
      ensures err.Some? ==> FirstFault(err.value, head, gasPrice, local || tx.from in locals, tx)
    {
      if tx.size > 32 * 1024 { return Some(OversizedData); }
      if tx.value < 0 { return Some(NegativeValue); }
      if head.maxGas < tx.gas { return Some(GasLimit); }
      if !tx.signed { return Some(InvalidSender); }
      if !(local || tx.from in locals) && gasPrice > tx.price { return Some(Underpriced); }
      if head.nonce(tx.from) > tx.nonce { return Some(NonceTooLow); }
      if head.balance(tx.from) < tx.cost { return Some(InsufficientFunds); }
      if tx.gas < tx.intrinsic { return Some(IntrinsicGas); }
      return None;
    }

    /** Discarding the cheapest remote transactions of a full pool. */
    method MakeRoom() returns (ghost gone: set<Tx>)
      requires Valid() && Full()
      modifies `pending, `queue, `all, `beats, `nonces, priced
      ensures Valid() && all == old(all) - gone && (old(Executable()) ==> Executable())
      ensures Roomed(Rules(), old(Now()), Now(), gone)
      ensures Leaves(Rules().capacity, old(priced.items), old(all), locals, gone)
      ensures StaysIdle(head, old(queue), old(nonces), queue, nonces)
    {
      assert all - {} == all;
      var count := |all| - (config.globalSlots + config.globalQueue) + 1;
      var drop := priced.Discard(count, locals, all);
      gone := Elems(drop);
      Priced.ConservedCovers(old(priced.items), priced.items, drop, all, {});
      DropLeaves(old(priced.items), priced.items, drop, all, locals, config.globalSlots + config.globalQueue);
      assert drop != [] ==> drop[0] in gone;
      RemoveEach(drop);
    }

    /** add, when the nonce is pending already: the price bump decides. */
    method ReplacePending(tx: Tx) returns (inserted: bool)
      requires Valid() && tx !in all && tx.signed && tx.nonce in Of(pending, tx.from)
      requires !Over(tx, head.balance(tx.from), head.maxGas)
      modifies `pending, `all, priced
      ensures Valid() && inserted == Outbids(Of(old(pending), tx.from)[tx.nonce], tx, config.priceBump)
      ensures all == if inserted then old(all) - Rival(old(all), tx) + {tx} else old(all)
      ensures !inserted ==> pending == old(pending)
      ensures SamePlaces(old(pending), pending)
      ensures old(Executable()) ==> Executable()
    {
      var a, list := tx.from, pending[tx.from];
      RivalIs(pending, queue, all, tx);
      inserted := Accepts(list, tx, config.priceBump);
      if !inserted { return; }
      var was := list.items[tx.nonce];
      Enlisted(pending, a, tx, true);
      pending := pending[a := Added(list, tx)];
      all := all - {was};
      Remark({});
      all := all + {tx};
      Price(tx, {});
      assert AccountOk(Of(old(pending), a), Of(queue, a), old(all), a);
      PendingPut(Of(old(pending), a), Of(queue, a), old(all), a, tx, all);
      assert OnlyAt(queue, queue, a);
      AccountChanged(old(pending), queue, old(all), pending, queue, all, a);
      ReplacedPlaces(old(pending), pending, tx);
      if old(Executable()) {
        ReplacedRuns(head, old(pending), nonces, pending, tx);
      }
    }

    /** add, when the nonce is not pending: into the queue. */
    method QueueNew(tx: Tx) returns (replaced: bool, ok: bool)
      requires Valid() && tx !in all && tx.signed && tx.nonce !in Of(pending, tx.from)
      modifies `queue, `all, priced
      ensures Valid() && ok == Accepts(ListOf(old(queue), tx.from, false), tx, config.priceBump)
      ensures all == if ok then old(all) - Rival(old(all), tx) + {tx} else old(all)
      ensures ok ==> replaced == (Rival(old(all), tx) != {})
      ensures !ok ==> queue == old(queue)
      ensures ok && !replaced ==> Priced.Grown(old(priced.items), old(priced.stales), priced.items, priced.stales, tx)
      ensures OnlyAt(old(queue), queue, tx.from) && (ok && replaced ==> KeysAt(old(queue), queue, tx.from))
      ensures ok ==> Of(queue, tx.from) == Of(old(queue), tx.from)[tx.nonce := tx]
    {
      var a := tx.from;
      RivalIs(pending, queue, all, tx);
      ListOfIs(queue, a, false);
      replaced, ok := EnqueueTx(tx, {});
      if ok {
        Enlisted(old(queue), a, tx, false);
        assert AccountOk(Of(pending, a), Of(old(queue), a), old(all), a);
        QueuePut(Of(pending, a), Of(old(queue), a), old(all), a, tx, all);
        assert OnlyAt(pending, pending, a);
        AccountChanged(pending, old(queue), old(all), pending, queue, all, a);
      }
    }

    method CheckUnderpriced(tx: Tx) returns (under: bool)
      requires Valid()
      modifies priced
      ensures Valid()
      ensures under <==> Undercut(locals, all, tx, false)
      ensures Priced.Single(old(priced.items), all) ==> Priced.Single(priced.items, all)
      ensures Priced.Conserved(old(priced.items), priced.items, [], all)
    {
      assert all - {} == all;
      under := priced.Underpriced(tx, locals, all);
      Priced.ConservedCovers(old(priced.items), priced.items, [], all, {});
      assert all - {} - (set t | t in []) == all - {};
      forall t | t in all ensures Dearer(t, tx) <==> tx.price <= t.price {}
    }

    /** Limits of the whole pool. */
    predicate Full()
      reads this
    {
      |all| >= config.globalSlots + config.globalQueue
    }

    /** add: the verdict, guard by guard, and what it does to the pool. A full pool first gives
        up its cheapest remote transactions, even if the new one then turns out not to outbid
        its rival. */
    method Add(tx: Tx, local: bool) returns (replaced: bool, err: Option<Error>, ghost gone: set<Tx>)
      requires Valid()
      modifies `pending, `queue, `all, `beats, `nonces, `locals, priced
      ensures Valid() && (old(Executable()) ==> Executable())
      ensures Outcome(Rules(), old(Now()), Now(), tx, local, gone, err)
      ensures err.None? <==>
                old(Enters(Rules(), locals, all, tx, local)) && Outpays(old(all) - gone, tx, config.priceBump)
      ensures old(Full()) && old(Enters(Rules(), locals, all, tx, local)) ==>
                Leaves(Rules().capacity, old(priced.items), old(all), old(locals), gone)
      ensures !old(Full()) && err.None? && !replaced ==>
                Priced.Grown(old(priced.items), old(priced.stales), priced.items, priced.stales, tx)
      ensures old(Balanced()) ==> Balanced()
      ensures err.None? ==> replaced == (Rival(old(all) - gone, tx) != {})
      ensures IdleBut(head, old(queue), old(nonces), queue, nonces, if err.None? && !replaced then {tx.from} else {})
    {
      replaced, gone := false, {};
      err := Vet(tx, local);
      if err.Some? {
        Refused(Rules(), Now(), tx, local, err);
        return;
      }
      replaced, err, gone := Enter(tx, local, old(priced.items));
      VerdictByPrice(Rules(), old(locals), old(all), tx, local, gone, err);
    }

    /** The guards of add. */
    method Vet(tx: Tx, local: bool) returns (err: Option<Error>)
      requires Valid()
      modifies priced
      ensures Valid() && Priced.Conserved(old(priced.items), priced.items, [], all)
      ensures err.None? <==> Enters(Rules(), locals, all, tx, local)
      ensures err.Some? ==> Verdict(Rules(), locals, all, tx, local, {}, err)
      ensures !Full() ==> priced.items == old(priced.items) && priced.stales == old(priced.stales)
    {
      if tx in all { return Some(Known); }
      err := ValidateTx(tx, local);
      if err.Some? { return; }
      if Full() && !local {
        var under := CheckUnderpriced(tx);
        if under { return Some(Underpriced); }
      }
    }

    /** The part of add that runs once only a rival can stop the transaction. */
    method Enter(tx: Tx, local: bool, ghost items: seq<Tx>) returns (replaced: bool, err: Option<Error>, ghost gone: set<Tx>)
      requires Valid() && Enters(Rules(), locals, all, tx, local) && Priced.Conserved(items, priced.items, [], all)
      modifies `pending, `queue, `all, `beats, `nonces, `locals, priced
      ensures Valid() && (old(Executable()) ==> Executable())
      ensures Outcome(Rules(), old(Now()), Now(), tx, local, gone, err)
      ensures old(Full()) ==> Leaves(Rules().capacity, items, old(all), old(locals), gone)
      ensures !old(Full()) && err.None? && !replaced ==>
                Priced.Grown(old(priced.items), old(priced.stales), priced.items, priced.stales, tx)
      ensures old(Balanced()) ==> Balanced()
      ensures err.None? ==> replaced == (Rival(old(all) - gone, tx) != {})
      ensures IdleBut(head, old(queue), old(nonces), queue, nonces, if err.None? && !replaced then {tx.from} else {})
    {
      gone := {};
      if Full() {
        gone := MakeRoom();
        LeavesSame(Rules().capacity, items, old(priced.items), old(all), locals, gone);
      } else {
        NoRoomNeeded(Rules(), Now());
      }
      ghost var was := Now();
      replaced, err := Insert(tx, local);
      Arrived(Rules(), old(Now()), was, Now(), tx, local, gone, err);
      if old(Balanced()) { OutcomeSteady(Rules(), old(Now()), Now(), tx, local, gone, err); }
      IdleOn(head, old(queue), old(nonces), was.queue, was.nonces, queue, nonces,
             if err.None? && !replaced then {tx.from} else {});
    }

    /** The second half of add. */
    method Insert(tx: Tx, local: bool) returns (replaced: bool, err: Option<Error>)
      requires Valid() && tx !in all && Admissible(head, tx)
      modifies `pending, `queue, `all, `locals, priced
      ensures Valid() && (old(Executable()) ==> Executable())
      ensures Inserted(Rules(), old(Now()), Now(), tx, local, err)
      ensures err.None? && !replaced ==> Priced.Grown(old(priced.items), old(priced.stales), priced.items, priced.stales, tx)
      ensures err.None? ==> replaced == (Rival(old(all), tx) != {})
      ensures IdleBut(head, old(queue), old(nonces), queue, nonces, if err.None? && !replaced then {tx.from} else {})
    {
      RivalIs(pending, queue, all, tx);
      if tx.from in pending && tx.nonce in pending[tx.from].items {
        var inserted := ReplacePending(tx);
        return inserted, if inserted then None else Some(ReplaceUnderpriced);
      }
      ListOfIs(queue, tx.from, false);
      var ok;
      replaced, ok := QueueNew(tx);
      if !ok { return false, Some(ReplaceUnderpriced); }
      QueuedIdle(head, old(queue), queue, nonces, tx.from, if replaced then {} else {tx.from});
      if local { locals := locals + {tx.from}; }
      return replaced, None;
    }

    /** addTx: the addition, and the promotion after one that replaced nothing. `mid` is the
        state between the two. */
    method AddTx(tx: Tx, local: bool, now: nat) returns (err: Option<Error>, ghost mid: Snap, ghost gone: set<Tx>)
      requires Valid()
      modifies `pending, `queue, `all, `beats, `nonces, `locals, priced
      ensures Valid() && (old(Executable()) ==> Executable())
      ensures (old(Executable() && Waitless()) ==> Waitless()) && (old(Balanced()) ==> Balanced())
      ensures Outcome(Rules(), old(Now()), mid, tx, local, gone, err)
      ensures all <= mid.all && LocalsKept(head, locals, mid.all, all)
      ensures Settles(config, head, now, mid, Now(), if Fresh(old(Now()), tx, gone, err) then {tx.from} else {})
      ensures Fresh(old(Now()), tx, gone, err) ==> WithinLimits()
    {
      var replaced;
      replaced, err, gone := Add(tx, local);
      mid := Now();
      var dirty := if err.None? && !replaced then {tx.from} else {};
      if old(Waitless()) { WaitingOn(head, old(queue), old(nonces), queue, nonces, {}, dirty); }
      PromoteDirty(dirty, now);
    }

    /** The promotion at the end of addTx and addTxsLocked, if there is anything to promote. */
    method PromoteDirty(dirty: set<Addr>, now: nat)
      requires Valid()
      modifies `pending, `queue, `all, `beats, `nonces, priced
      ensures Valid() && all <= old(all) && LocalsKept(head, locals, old(all), all)
      ensures old(Executable()) ==> Executable()
      ensures old(Executable() && Waiting(head, queue, nonces, dirty)) ==> Waitless()
      ensures Settles(config, head, now, old(Now()), Now(), dirty) && (dirty != {} ==> WithinLimits())
      ensures old(Balanced()) ==> Balanced()
    {
      LocalsKeptSame(head, locals, all);
      if dirty != {} {
        var accounts := Enumerate(dirty);
        PromoteSet(accounts, now);
      }
      if old(Balanced()) { SettlesSteady(config, head, now, old(Now()), Now(), dirty, Rules().capacity); }
    }

    /** addTxsLocked: the additions one after the other, then one promotion if any of them
        replaced nothing. */
    method AddTxs(txs: seq<Tx>, local: bool, now: nat)
      returns (errs: seq<Option<Error>>, ghost trail: seq<Snap>, ghost gones: seq<set<Tx>>)
      requires Valid()
      modifies `pending, `queue, `all, `beats, `nonces, `locals, priced
      ensures Valid() && (old(Executable()) ==> Executable())
      ensures (old(Executable() && Waitless()) ==> Waitless()) && (old(Balanced()) ==> Balanced())
      ensures Batch(config, Rules(), now, txs, local, trail, gones, errs, Now()) && trail[0] == old(Now())
      ensures all <= trail[|txs|].all && LocalsKept(head, locals, trail[|txs|].all, all)
      ensures Dirty(trail, gones, txs, errs) != {} ==> WithinLimits()
    {
      var dirty: set<Addr> := {};
      errs, trail, gones := [], [Now()], [];
      for i := 0 to |txs|
        invariant Valid() && (old(Executable()) ==> Executable()) && (old(Balanced()) ==> Balanced()) && |errs| == i
        invariant Trail(Rules(), trail, gones, txs, local, errs) && trail[0] == old(Now()) && trail[i] == Now()
        invariant dirty == Dirty(trail, gones, txs, errs)
        invariant old(Executable() && Waitless()) ==> Waiting(head, queue, nonces, dirty)
      {
        var replaced, err;
        ghost var gone, was, before := {}, Now(), dirty;
        replaced, err, gone := Add(txs[i], local);
        TrailGrows(Rules(), trail, gones, txs, local, errs, Now(), gone, err);
        errs, trail, gones := errs + [err], trail + [Now()], gones + [gone];
        if err.None? && !replaced { dirty := dirty + {txs[i].from}; }
        if old(Executable() && Waitless()) {
          WaitingOn(head, was.queue, was.nonces, queue, nonces, before, if err.None? && !replaced then {txs[i].from} else {});
        }
      }
      PromoteDirty(dirty, now);
    }

    /** The accounts of a set, in any order. */
    method Enumerate(accounts: set<Addr>) returns (s: seq<Addr>)
      ensures Members(s) == accounts && Distinct(s)
    {
      s := [];
      var todo := accounts;
      while todo != {}
        invariant todo <= accounts && Members(s) == accounts - todo && Distinct(s)
      {
        var a :| a in todo;
        assert Members(s + [a]) == Members(s) + {a};
        s, todo := s + [a], todo - {a};
      }
    }

    /** Every account's virtual nonce is set behind its last pending transaction. */
    method FollowPending()
      requires ListsOk(pending, true)
      modifies `nonces
      ensures forall a {:trigger FollowedAt(pending, old(nonces), nonces, a)} :: FollowedAt(pending, old(nonces), nonces, a)
    {
      var todo := pending.Keys;
      while todo != {}
        invariant todo <= pending.Keys
        invariant forall a {:trigger Entry(nonces, a)} :: a !in pending || a in todo ==> Entry(nonces, a) == Entry(old(nonces), a)
        invariant forall a {:trigger FollowedAt(pending, old(nonces), nonces, a)} :: a !in todo ==> FollowedAt(pending, old(nonces), nonces, a)
      {
        var a :| a in todo;
        assert ListAt(pending, true, a);
        ghost var was := nonces;
        nonces := nonces[a := Greatest(pending[a].items.Keys) + 1];
        todo := todo - {a};
        forall b ensures b !in todo ==> FollowedAt(pending, old(nonces), nonces, b)
                 ensures b !in pending || b in todo ==> Entry(nonces, b) == Entry(old(nonces), b) {
          assert Entry(was, b) == Entry(was, b);
          assert b != a && b !in todo ==> FollowedAt(pending, old(nonces), was, b);
        }
      }
    }

    /** reset: the pool moves to a new head. The reinjected transactions are added as a batch with
        outcome `mid`, the pending lists are demoted under the new head to `down`, and every
        queued account is promoted. If the reinjected transactions cannot reach the capacity or
        the global slots, the pending transactions are executable again under the new head, with
        nothing executable left in the queue, exactly if no account gets a gap; and also if
        nothing is reinjected. */
    method Reset(newHead: Head, reinject: seq<Tx>, now: nat)
      returns (ghost errs: seq<Option<Error>>, ghost trail: seq<Snap>, ghost gones: seq<set<Tx>>, ghost mid: Snap,
               ghost down: Snap)
      requires Valid()
      modifies `head, `pending, `queue, `all, `beats, `nonces, `locals, priced
      ensures Valid() && head == newHead && WithinLimits()
      ensures Batch(config, Rules(), now, reinject, false, trail, gones, errs, mid)
      ensures trail[0] == old(Now()).(nonces := map[])
      ensures Sane(mid) && Sane(down) && Demotion(head, mid, down) && down.all <= mid.all && LocalsKept(head, locals, mid.all, all)
      ensures Promotes(config, head, now, down, Now(), down.queue.Keys) && all <= down.all
      ensures old(Executable()) && reinject == [] ==> Gapless(head, down.pending, mid.nonces)
      ensures Gapless(head, down.pending, mid.nonces) ==> Executable() && Waitless()
      ensures old(Executable()) && Roomy(config, Rules(), old(all), reinject) ==>
                && (Executable() <==> NoGaps(head, old(pending), old(all), Offered(Rules(), old(locals), old(all), reinject)))
                && (Executable() ==> Waitless())
                && Tears(head, old(pending), old(all), Offered(Rules(), old(locals), old(all), reinject), pending)
      ensures old(Balanced()) ==> Balanced()
      ensures reinject == [] ==> all <= old(all) && LocalsKept(head, locals, old(all), all)
    {
      errs, trail, gones := Reinject(newHead, reinject, now);
      mid := Now();
      Demote(old(head), old(nonces));
      down := Now();
      PromoteQueued(now);
      LocalsKeptTrans(head, locals, mid.all, down.all, all);
      if old(Executable()) && Roomy(config, Rules(), old(all), reinject) {
        ResetGaps(config, Rules(), now, reinject, trail, gones, errs, mid, down, Now(), old(head), old(nonces),
                  Offered(Rules(), old(locals), old(all), reinject));
      }
    }

    /** The new state, and the batch of reinjected transactions. */
    method Reinject(newHead: Head, reinject: seq<Tx>, now: nat)
      returns (ghost errs: seq<Option<Error>>, ghost trail: seq<Snap>, ghost gones: seq<set<Tx>>)
      requires Valid()
      modifies `head, `pending, `queue, `all, `beats, `nonces, `locals, priced
      ensures Valid() && head == newHead
      ensures Batch(config, Rules(), now, reinject, false, trail, gones, errs, Now())
      ensures trail[0] == old(Now()).(nonces := map[])
      ensures reinject == [] ==> Now() == old(Now()).(nonces := map[])
      ensures old(Balanced()) ==> Balanced()
    {
      head, nonces := newHead, map[];
      if old(Balanced()) {
        forall a ensures BeatsOn(Now(), a) { assert BeatsOn(old(Now()), a); }
      }
      errs, trail, gones := AddTxs(reinject, false, now);
      if reinject == [] { EmptyBatch(config, Rules(), now, false, trail, gones, errs, Now()); }
    }

    /** demoteUnexecutables, and the virtual nonces behind what is still pending. */
    method Demote(ghost head0: Head, ghost nonces0: map<Addr, nat>)
      requires Valid()
      modifies `pending, `queue, `all, `beats, `nonces, priced
      ensures Valid() && all <= old(all) && LocalsKept(head, locals, old(all), all)
      ensures Demotion(head, old(Now()), Now())
      ensures Runs(head0, old(pending), nonces0) && old(nonces) == map[] ==> Executable()
      ensures Executable() <==> Gapless(head, pending, old(nonces))
      ensures old(Balanced()) ==> Balanced()
    {
      DemoteUnexecutables(head0, nonces0);
      LocalsKeptDead(head, locals, old(all), all);
      ghost var was := Now();
      FollowPending();
      Redirected(head, old(Now()), was, Now());
      DemotedRuns(head, old(Now()), Now());
      if old(Balanced()) { DemotionSteady(head, old(Now()), Now(), Rules().capacity); }
      if Runs(head0, old(pending), nonces0) && old(nonces) == map[] {
        Followed(head, pending, nonces);
      }
    }

    /** promoteExecutables for every queued account. */
    method PromoteQueued(now: nat)
      requires Valid()
      modifies `pending, `queue, `all, `beats, `nonces, priced
      ensures Valid() && WithinLimits() && all <= old(all) && LocalsKept(head, locals, old(all), all)
      ensures old(Executable()) ==> Executable() && Waitless()
      ensures Promotes(config, head, now, old(Now()), Now(), old(queue).Keys)
      ensures old(Balanced()) ==> Balanced()
    {
      var accounts := Enumerate(queue.Keys);
      NoneElsewhere(head, queue, nonces);
      PromoteSet(accounts, now);
      if old(Balanced()) {
        PromotesBeating(config, head, now, old(Now()), Now(), old(queue).Keys);
        UncrowdedShrinks(Rules().capacity, old(all), all, locals);
      }
    }
  }
}
