/** The pool's per-account view and what each kind of move between the lists keeps. The
    quantifiers are over small named predicates, so that proofs say which instance they use. */
module PoolState {
  import opened TxTypes
  import opened L = TxList
  import opened SortedMap

  type Lists = map<Addr, List>

  function Of(ls: Lists, a: Addr): Items { if a in ls then ls[a].items else map[] }

  /** A list written back, or deleted when it became empty. */
  function Store(ls: Lists, a: Addr, l: List): Lists {
    if l.items == map[] then ls - {a} else ls[a := l]
  }

  function ListOf(ls: Lists, a: Addr, strict: bool): List { if a in ls then ls[a] else NewList(strict) }

  predicate Has(m: Items, tx: Tx) { tx.nonce in m && m[tx.nonce] == tx }

  /** The account's own transactions, each under its nonce, with a recoverable sender. */
  ghost predicate Own(m: Items, a: Addr) {
    forall n {:trigger OwnAt(m, a, n)} :: OwnAt(m, a, n)
  }

  predicate OwnAt(m: Items, a: Addr, n: nat) {
    n in m ==> m[n].nonce == n && m[n].from == a && m[n].signed
  }

  ghost predicate ListOk(l: List, a: Addr, strict: bool) {
    l.strict == strict && Own(l.items, a) && CapsOk(l)
  }

  /** No account maps to an empty list. */
  ghost predicate ListsOk(ls: Lists, strict: bool) {
    forall a {:trigger ListAt(ls, strict, a)} :: ListAt(ls, strict, a)
  }

  ghost predicate ListAt(ls: Lists, strict: bool, a: Addr) {
    a in ls ==> ListOk(ls[a], a, strict) && ls[a].items != map[]
  }

  predicate Apart(p: Items, q: Items, n: nat) { !(n in p && n in q) }

  predicate Placed(p: Items, q: Items, all: set<Tx>, tx: Tx) {
    tx in all <==> Has(p, tx) || Has(q, tx)
  }

  /** One account: pending and queued nonces never overlap, and the lookup holds exactly the
      transactions of the two lists. */
  ghost predicate AccountOk(p: Items, q: Items, all: set<Tx>, a: Addr) {
    && Own(p, a) && Own(q, a)
    && (forall n {:trigger Apart(p, q, n)} :: Apart(p, q, n))
    && (forall tx: Tx {:trigger Placed(p, q, all, tx)} :: tx.from == a ==> Placed(p, q, all, tx))
  }

  ghost predicate Parted(pending: Lists, queue: Lists, all: set<Tx>) {
    forall a {:trigger AccountOk(Of(pending, a), Of(queue, a), all, a)} ::
      AccountOk(Of(pending, a), Of(queue, a), all, a)
  }

  /** The lookup is the disjoint union of the lists: every transaction in it is in exactly
      one of them, and no account uses a nonce twice. */
  lemma OnePlace(pending: Lists, queue: Lists, all: set<Tx>, tx: Tx, other: Tx)
    requires Parted(pending, queue, all) && tx in all
    ensures Has(Of(pending, tx.from), tx) != Has(Of(queue, tx.from), tx)
    ensures other in all && other.from == tx.from && other.nonce == tx.nonce ==> other == tx
  {
    var p, q := Of(pending, tx.from), Of(queue, tx.from);
    assert AccountOk(p, q, all, tx.from);
    assert Apart(p, q, tx.nonce) && Placed(p, q, all, tx) && (other.from == tx.from ==> Placed(p, q, all, other));
  }

  // ----- One account at a time -----

  predicate SameAt(ls: Lists, ls': Lists, b: Addr) {
    (b in ls <==> b in ls') && (b in ls ==> ls[b] == ls'[b])
  }

  /** The lists differ at most at one account. */
  ghost predicate OnlyAt(ls: Lists, ls': Lists, a: Addr) {
    forall b {:trigger SameAt(ls, ls', b)} :: b != a ==> SameAt(ls, ls', b)
  }

  /** The lookups differ at most in one account's transactions. */
  ghost predicate OnlyFrom(all: set<Tx>, all': set<Tx>, a: Addr) {
    forall tx: Tx {:trigger SameIn(all, all', tx)} :: tx.from != a ==> SameIn(all, all', tx)
  }

  predicate SameIn(all: set<Tx>, all': set<Tx>, tx: Tx) { tx in all <==> tx in all' }

  lemma AccountChanged(pending: Lists, queue: Lists, all: set<Tx>, pending': Lists, queue': Lists,
                       all': set<Tx>, a: Addr)
    requires Parted(pending, queue, all)
    requires OnlyAt(pending, pending', a) && OnlyAt(queue, queue', a) && OnlyFrom(all, all', a)
    requires AccountOk(Of(pending', a), Of(queue', a), all', a)
    ensures Parted(pending', queue', all')
  {
    forall b ensures AccountOk(Of(pending', b), Of(queue', b), all', b) {
      if b != a {
        assert SameAt(pending, pending', b) && SameAt(queue, queue', b);
        var p, q := Of(pending, b), Of(queue, b);
        assert AccountOk(p, q, all, b);
        forall tx: Tx | tx.from == b ensures Placed(p, q, all', tx) {
          assert Placed(p, q, all, tx) && SameIn(all, all', tx);
        }
      }
    }
  }

  lemma OnlyAtTrans(l0: Lists, l1: Lists, l2: Lists, a: Addr)
    requires OnlyAt(l0, l1, a) && OnlyAt(l1, l2, a)
    ensures OnlyAt(l0, l2, a)
  {
    forall b | b != a ensures SameAt(l0, l2, b) { assert SameAt(l0, l1, b) && SameAt(l1, l2, b); }
  }

  lemma StoreIs(ls: Lists, a: Addr, l: List, strict: bool)
    requires ListsOk(ls, strict) && ListOk(l, a, strict)
    ensures ListsOk(Store(ls, a, l), strict) && Of(Store(ls, a, l), a) == l.items
    ensures OnlyAt(ls, Store(ls, a, l), a)
  {
    forall b ensures ListAt(Store(ls, a, l), strict, b) { assert ListAt(ls, strict, b); }
  }

  lemma ListOfIs(ls: Lists, a: Addr, strict: bool)
    requires ListsOk(ls, strict)
    ensures ListOk(ListOf(ls, a, strict), a, strict) && ListOf(ls, a, strict).items == Of(ls, a)
  {
    assert ListAt(ls, strict, a);
  }

  /** Part of an account's list is a list of the account. */
  lemma PartOk(l: List, a: Addr, strict: bool, items: Items)
    requires ListOk(l, a, strict) && Part(items, l.items)
    ensures ListOk(l.(items := items), a, strict)
  {
    PartCaps(l, items);
    PartOwn(l.items, a, items);
  }

  lemma PartOwn(m: Items, a: Addr, items: Items)
    requires Own(m, a) && Part(items, m)
    ensures Own(items, a)
  {
    forall n ensures OwnAt(items, a, n) { assert OwnAt(m, a, n); }
  }

  lemma AddedOk(l: List, a: Addr, strict: bool, tx: Tx)
    requires ListOk(l, a, strict) && tx.from == a && tx.signed
    ensures ListOk(Added(l, tx), a, strict)
  {
    AddedCaps(l, tx);
    forall n ensures OwnAt(Added(l, tx).items, a, n) { assert OwnAt(l.items, a, n); }
  }

  // ----- Moves within one account -----

  /** A transaction of the account sits under its nonce or nowhere. */
  lemma InTxs(m: Items, a: Addr, tx: Tx)
    requires Own(m, a)
    ensures tx in Txs(m) <==> Has(m, tx)
  {
    assert tx in Txs(m) ==> exists n :: n in m && m[n] == tx && OwnAt(m, a, n);
  }

  /** Transactions that leave the queue leave the lookup. */
  lemma QueueShrinks(p: Items, q: Items, all: set<Tx>, a: Addr, q': Items)
    requires AccountOk(p, q, all, a) && Part(q', q)
    ensures AccountOk(p, q', all - (Txs(q) - Txs(q')), a) && OnlyFrom(all, all - (Txs(q) - Txs(q')), a)
  {
    var all' := all - (Txs(q) - Txs(q'));
    PartOwn(q, a, q');
    forall n ensures Apart(p, q', n) { assert Apart(p, q, n); }
    forall tx: Tx ensures tx.from == a ==> Placed(p, q', all', tx)
                  ensures tx.from != a ==> SameIn(all, all', tx) {
      InTxs(q, a, tx);
      InTxs(q', a, tx);
      assert OwnAt(q, a, tx.nonce);
      assert Apart(p, q, tx.nonce) && (tx.from == a ==> Placed(p, q, all, tx));
    }
  }

  lemma PendingShrinks(p: Items, q: Items, all: set<Tx>, a: Addr, p': Items)
    requires AccountOk(p, q, all, a) && Part(p', p)
    ensures AccountOk(p', q, all - (Txs(p) - Txs(p')), a) && OnlyFrom(all, all - (Txs(p) - Txs(p')), a)
  {
    Mirrored(p, q, all, a);
    QueueShrinks(q, p, all, a, p');
    Mirrored(q, p', all - (Txs(p) - Txs(p')), a);
  }

  lemma Mirrored(p: Items, q: Items, all: set<Tx>, a: Addr)
    requires AccountOk(p, q, all, a)
    ensures AccountOk(q, p, all, a)
  {
    forall n ensures Apart(q, p, n) { assert Apart(p, q, n); }
    forall tx: Tx | tx.from == a ensures Placed(q, p, all, tx) { assert Placed(p, q, all, tx); }
  }

  /** Transactions that leave the queue for pending stay in the lookup: nothing collides. */
  lemma MovesUp(p: Items, q: Items, all: set<Tx>, a: Addr, q': Items, moved: Items)
    requires AccountOk(p, q, all, a) && Splits(q, q', moved)
    ensures AccountOk(p + moved, q', all, a)
  {
    forall n ensures Apart(p + moved, q', n) && OwnAt(p + moved, a, n) && OwnAt(q', a, n) {
      assert Apart(p, q, n) && OwnAt(p, a, n) && OwnAt(q, a, n);
    }
    forall tx: Tx | tx.from == a ensures Placed(p + moved, q', all, tx) {
      assert Placed(p, q, all, tx) && Apart(p, q, tx.nonce);
    }
  }

  lemma MovesBack(p: Items, q: Items, all: set<Tx>, a: Addr, p': Items, moved: Items)
    requires AccountOk(p, q, all, a) && Splits(p, p', moved)
    ensures AccountOk(p', q + moved, all, a)
  {
    Mirrored(p, q, all, a);
    MovesUp(q, p, all, a, p', moved);
    Mirrored(q + moved, p', all, a);
  }

  /** `m` falls apart into `kept` and `moved`. */
  ghost predicate Splits(m: Items, kept: Items, moved: Items) {
    && Part(kept, m) && Part(moved, m)
    && forall n :: n in m ==> (n in kept) != (n in moved)
  }

  lemma QueuePut(p: Items, q: Items, all: set<Tx>, a: Addr, tx: Tx, all': set<Tx>)
    requires AccountOk(p, q, all, a) && tx.from == a && tx.signed && tx.nonce !in p
    requires all' == (if tx.nonce in q then all - {q[tx.nonce]} else all) + {tx}
    ensures AccountOk(p, q[tx.nonce := tx], all', a) && OnlyFrom(all, all', a)
  {
    assert OwnAt(q, a, tx.nonce);
    var q' := q[tx.nonce := tx];
    forall n ensures Apart(p, q', n) && OwnAt(q', a, n) { assert Apart(p, q, n) && OwnAt(q, a, n); }
    forall t: Tx | t.from == a ensures Placed(p, q', all', t) { assert Placed(p, q, all, t); }
  }

  lemma PendingPut(p: Items, q: Items, all: set<Tx>, a: Addr, tx: Tx, all': set<Tx>)
    requires AccountOk(p, q, all, a) && tx.from == a && tx.signed && tx.nonce in p
    requires all' == all - {p[tx.nonce]} + {tx}
    ensures AccountOk(p[tx.nonce := tx], q, all', a) && OnlyFrom(all, all', a)
  {
    assert OwnAt(p, a, tx.nonce);
    var p' := p[tx.nonce := tx];
    forall n ensures Apart(p', q, n) && OwnAt(p', a, n) { assert Apart(p, q, n) && OwnAt(p, a, n); }
    forall t: Tx | t.from == a ensures Placed(p', q, all', t) {
      assert Placed(p, q, all, t) && Apart(p, q, tx.nonce) && OwnAt(q, a, t.nonce);
    }
  }

  lemma OnlyFromTrans(s0: set<Tx>, s1: set<Tx>, s2: set<Tx>, a: Addr)
    requires OnlyFrom(s0, s1, a) && OnlyFrom(s1, s2, a)
    ensures OnlyFrom(s0, s2, a)
  {
    forall tx: Tx | tx.from != a ensures SameIn(s0, s2, tx) { assert SameIn(s0, s1, tx) && SameIn(s1, s2, tx); }
  }

  // ----- Contiguity -----

  /** Pending nonces run from the head state's nonce up to the virtual one, and each pending
      transaction is payable. */
  ghost predicate Contiguous(p: Items, nonce: nat, virtual: nat, balance: int, maxGas: nat) {
    && nonce <= virtual
    && forall n {:trigger RunAt(p, nonce, virtual, balance, maxGas, n)} :: RunAt(p, nonce, virtual, balance, maxGas, n)
  }

  predicate RunAt(p: Items, nonce: nat, virtual: nat, balance: int, maxGas: nat, n: nat) {
    (n in p <==> nonce <= n < virtual) && (n in p ==> !Over(p[n], balance, maxGas))
  }

  /** What the pool reads from the current head block and its state. */
  datatype Head = Head(nonce: Addr -> nat, balance: Addr -> int, maxGas: nat)

  /** pendingState: an account's virtual nonce, by default the head state's. */
  function Virtual(head: Head, nonces: map<Addr, nat>, a: Addr): nat {
    if a in nonces then nonces[a] else head.nonce(a)
  }

  ghost predicate RunsAt(head: Head, pending: Lists, nonces: map<Addr, nat>, a: Addr) {
    Contiguous(Of(pending, a), head.nonce(a), Virtual(head, nonces, a), head.balance(a), head.maxGas)
  }

  /** Every account's pending transactions can be executed in nonce order from the head. */
  ghost predicate Runs(head: Head, pending: Lists, nonces: map<Addr, nat>) {
    forall a {:trigger RunsAt(head, pending, nonces, a)} :: RunsAt(head, pending, nonces, a)
  }

  lemma RunsChanged(head: Head, pending: Lists, nonces: map<Addr, nat>, pending': Lists, nonces': map<Addr,
                    nat>, a: Addr)
    requires Runs(head, pending, nonces) && OnlyAt(pending, pending', a)
    requires forall b :: b != a ==> Virtual(head, nonces', b) == Virtual(head, nonces, b)
    requires RunsAt(head, pending', nonces', a)
    ensures Runs(head, pending', nonces')
  {
    forall b ensures RunsAt(head, pending', nonces', b) {
      if b != a { assert SameAt(pending, pending', b) && RunsAt(head, pending, nonces, b); }
    }
  }

  /** The front of a run is a run. */
  lemma FrontRuns(p: Items, nonce: nat, virtual: nat, balance: int, maxGas: nat, n: nat)
    requires Contiguous(p, nonce, virtual, balance, maxGas) && nonce <= n <= virtual
    ensures Contiguous(Below(p, n), nonce, n, balance, maxGas)
  {
    forall k ensures RunAt(Below(p, n), nonce, n, balance, maxGas, k) {
      assert RunAt(p, nonce, virtual, balance, maxGas, k);
    }
  }

  /** Cutting an account's run at a pending nonce and lowering its virtual nonce to it. */
  lemma RunShortened(head: Head, pending: Lists, nonces: map<Addr, nat>, pending': Lists, nonces': map<Addr,
                     nat>, a: Addr, n: nat)
    requires Runs(head, pending, nonces) && OnlyAt(pending, pending', a) && n in Of(pending, a)
    requires Of(pending', a) == Below(Of(pending, a), n)
    requires nonces' == if Virtual(head, nonces, a) > n then nonces[a := n] else nonces
    ensures Runs(head, pending', nonces')
  {
    assert RunsAt(head, pending, nonces, a);
    assert RunAt(Of(pending, a), head.nonce(a), Virtual(head, nonces, a), head.balance(a), head.maxGas, n);
    FrontRuns(Of(pending, a), head.nonce(a), Virtual(head, nonces, a), head.balance(a), head.maxGas, n);
    RunsChanged(head, pending, nonces, pending', nonces', a);
  }

  // ----- removeTx -----

  /** What removing a pending transaction needs to know about the others. */
  lemma BehindPending(pending: Lists, queue: Lists, all: set<Tx>, tx: Tx)
    requires Parted(pending, queue, all) && tx in all && tx.nonce in Of(pending, tx.from)
    ensures var p := Of(pending, tx.from); var back := From(p, tx.nonce + 1);
      p[tx.nonce] == tx && (forall n :: n in back ==> n !in Of(queue, tx.from)) && Txs(back) <= all - {tx}
  {
    var a, p, q := tx.from, Of(pending, tx.from), Of(queue, tx.from);
    assert AccountOk(p, q, all, a);
    assert Placed(p, q, all, tx) && Apart(p, q, tx.nonce);
    var back := From(p, tx.nonce + 1);
    PartOwn(p, a, back);
    forall n | n in back ensures n !in q { assert Apart(p, q, n); }
    forall t | t in Txs(back) ensures t in all - {tx} {
      InTxs(back, a, t);
      assert OwnAt(back, a, t.nonce) && Placed(p, q, all, t);
    }
  }

  lemma PendingRemoved(pending: Lists, queue: Lists, all: set<Tx>, pending': Lists, queue': Lists, tx: Tx)
    requires Parted(pending, queue, all) && Has(Of(pending, tx.from), tx)
    requires OnlyAt(pending, pending', tx.from) && OnlyAt(queue, queue', tx.from)
    requires Of(pending', tx.from) == Below(Of(pending, tx.from), tx.nonce)
    requires Of(queue', tx.from) == Of(queue, tx.from) + From(Of(pending, tx.from), tx.nonce + 1)
    ensures Parted(pending', queue', all - {tx})
  {
    var a, p, q := tx.from, Of(pending, tx.from), Of(queue, tx.from);
    assert AccountOk(p, q, all, a);
    Without1(p, a, tx);
    PendingShrinks(p, q, all, a, p - {tx.nonce});
    assert Splits(p - {tx.nonce}, Below(p, tx.nonce), From(p, tx.nonce + 1));
    MovesBack(p - {tx.nonce}, q, all - {tx}, a, Below(p, tx.nonce), From(p, tx.nonce + 1));
    AccountChanged(pending, queue, all, pending', queue', all - {tx}, a);
  }

  lemma Without1(p: Items, a: Addr, tx: Tx)
    requires Own(p, a) && Has(p, tx)
    ensures Txs(p) - Txs(p - {tx.nonce}) == {tx}
  {
    var rest := p - {tx.nonce};
    PartOwn(p, a, rest);
    forall t ensures t in Txs(p) - Txs(rest) <==> t == tx {
      InTxs(p, a, t);
      InTxs(rest, a, t);
    }
  }

  lemma QueueRemoved(pending: Lists, queue: Lists, all: set<Tx>, queue': Lists, tx: Tx)
    requires Parted(pending, queue, all) && Has(Of(queue, tx.from), tx)
    requires OnlyAt(queue, queue', tx.from) && Of(queue', tx.from) == Of(queue, tx.from) - {tx.nonce}
    ensures Parted(pending, queue', all - {tx})
  {
    var a, p, q := tx.from, Of(pending, tx.from), Of(queue, tx.from);
    assert AccountOk(p, q, all, a);
    Without1(q, a, tx);
    QueueShrinks(p, q, all, a, q - {tx.nonce});
    assert OnlyAt(pending, pending, a);
    AccountChanged(pending, queue, all, pending, queue', all - {tx}, a);
  }

  // ----- promoteExecutables, one account -----

  /** The queued transactions that are neither too old nor too costly. */
  function Eligible(head: Head, l: List, a: Addr): List {
    Filtered(l.(items := From(l.items, head.nonce(a))), head.balance(a), head.maxGas)
  }

  lemma EligibleOk(head: Head, l: List, a: Addr)
    requires ListOk(l, a, false)
    ensures ListOk(l.(items := From(l.items, head.nonce(a))), a, false)
    ensures ListOk(Eligible(head, l, a), a, false) && Part(Eligible(head, l, a).items, l.items)
    ensures forall n :: n in Eligible(head, l, a).items <==>
              n in l.items && n >= head.nonce(a) && !Over(l.items[n], head.balance(a), head.maxGas)
  {
    var forward := l.(items := From(l.items, head.nonce(a)));
    PartOk(l, a, false, forward.items);
    FilterExact(forward, head.balance(a), head.maxGas);
    PartOwn(forward.items, a, Eligible(head, l, a).items);
  }

  /** Promotion moves the ready transactions up and drops the rest of what left. */
  lemma Promoted(p: Items, q: Items, all: set<Tx>, a: Addr, fit: Items, e: nat, rest: Items, all': set<Tx>)
    requires AccountOk(p, q, all, a) && Part(fit, q) && Part(rest, From(fit, e))
    requires all' == all - (Txs(q) - Txs(fit)) - (Txs(From(fit, e)) - Txs(rest))
    ensures AccountOk(p + Below(fit, e), rest, all', a) && OnlyFrom(all, all', a)
  {
    QueueShrinks(p, q, all, a, fit);
    var mid := all - (Txs(q) - Txs(fit));
    assert Splits(fit, From(fit, e), Below(fit, e));
    MovesUp(p, fit, mid, a, From(fit, e), Below(fit, e));
    QueueShrinks(p + Below(fit, e), From(fit, e), mid, a, rest);
    OnlyFromTrans(all, mid, all', a);
  }

  /** What is ready continues the run of pending transactions, and what stays behind does not. */
  lemma RunExtended(p: Items, q: Items, nonce: nat, virtual: nat, balance: int, maxGas: nat)
    requires Contiguous(p, nonce, virtual, balance, maxGas)
    requires forall n :: n in q ==> n !in p && n >= nonce && !Over(q[n], balance, maxGas)
    ensures var e := ReadyEnd(q, virtual); var v := if Below(q, e) == map[] then virtual else e;
      Contiguous(p + Below(q, e), nonce, v, balance, maxGas) && v !in q
  {
    var e := ReadyEnd(q, virtual);
    if q != map[] && Least(q.Keys) <= virtual {
      var least := Least(q.Keys);
      assert RunAt(p, nonce, virtual, balance, maxGas, least);
      assert least == virtual;
      assert virtual in Below(q, e);
      forall n ensures RunAt(p + Below(q, e), nonce, e, balance, maxGas, n) {
        assert RunAt(p, nonce, virtual, balance, maxGas, n);
      }
    } else {
      assert Below(q, e) == map[] && p + Below(q, e) == p;
    }
  }

  /** The ready transactions are consecutive, pooled, and not pending yet. */
  lemma ReadyRun(pending: Lists, queue: Lists, all: set<Tx>, a: Addr, fit: Items, virtual: nat)
    requires Parted(pending, queue, all) && Part(fit, Of(queue, a))
    ensures var e := ReadyEnd(fit, virtual); var ready := Below(fit, e);
      && Own(ready, a) && Txs(ready) <= all - (Txs(Of(queue, a)) - Txs(fit))
      && (forall n :: n in ready ==> n !in Of(pending, a))
      && (ready != map[] ==> Least(ready.Keys) < e && forall n :: n in ready <==> Least(ready.Keys) <= n < e)
  {
    var p, q := Of(pending, a), Of(queue, a);
    assert AccountOk(p, q, all, a);
    var e := ReadyEnd(fit, virtual);
    var ready := Below(fit, e);
    PartOwn(q, a, ready);
    PartOwn(q, a, fit);
    forall n | n in ready ensures n !in p { assert Apart(p, q, n); }
    forall tx | tx in Txs(ready) ensures tx in all && tx in Txs(fit) {
      InTxs(ready, a, tx);
      InTxs(fit, a, tx);
      assert OwnAt(ready, a, tx.nonce) && Placed(p, q, all, tx);
    }
    if ready != map[] {
      var n :| n in ready;
      assert Least(ready.Keys) in fit && Least(fit.Keys) in ready;
      assert Least(ready.Keys) == Least(fit.Keys);
    }
  }

  /** What left the lookup before the limit was applied was too old or too costly. */
  lemma DroppedFrom(head: Head, l: List, a: Addr, all: set<Tx>, fit: Items, all': set<Tx>)
    requires ListOk(l, a, false) && fit == Eligible(head, l, a).items
    requires all' == all - (Txs(l.items) - Txs(fit))
    ensures forall tx :: tx in all && tx !in all' ==> Dead(head, tx)
  {
    EligibleOk(head, l, a);
    PartOwn(l.items, a, fit);
    forall tx | tx in all && tx !in all' ensures Dead(head, tx) {
      InTxs(l.items, a, tx);
      InTxs(fit, a, tx);
      assert OwnAt(l.items, a, tx.nonce);
    }
  }

  /** Promotion keeps the runs, and leaves nothing executable in the account's queue. */
  lemma PromotedRuns(head: Head, pending: Lists, queue: Lists, all: set<Tx>, nonces: map<Addr, nat>,
                     pending': Lists, nonces': map<Addr, nat>, a: Addr, fit: Items)
    requires Runs(head, pending, nonces) && Parted(pending, queue, all) && OnlyAt(pending, pending', a)
    requires a in queue && ListOk(queue[a], a, false) && fit == Eligible(head, queue[a], a).items
    requires var e := ReadyEnd(fit, Virtual(head, nonces, a));
      && Of(pending', a) == Of(pending, a) + Below(fit, e)
      && nonces' == if Below(fit, e) == map[] then nonces else nonces[a := e]
    ensures Runs(head, pending', nonces') && Virtual(head, nonces', a) !in fit
  {
    var p, q := Of(pending, a), Of(queue, a);
    assert AccountOk(p, q, all, a);
    EligibleOk(head, queue[a], a);
    forall n | n in fit ensures n !in p && n >= head.nonce(a) && !Over(fit[n], head.balance(a), head.maxGas) {
      assert Apart(p, q, n);
    }
    assert RunsAt(head, pending, nonces, a);
    RunExtended(p, fit, head.nonce(a), Virtual(head, nonces, a), head.balance(a), head.maxGas);
    RunsChanged(head, pending, nonces, pending', nonces', a);
  }

  // ----- demoteUnexecutables, one account -----

  /** What Filter on the strict list removes, invalidates and keeps. */
  lemma StrictFilter(head: Head, l: List, a: Addr)
    requires ListOk(l, a, true)
    ensures var forward := l.(items := From(l.items, head.nonce(a)));
      var pay := Payable(forward.items, head.balance(a), head.maxGas);
      var kept := Filtered(forward, head.balance(a), head.maxGas);
      ListOk(kept, a, true) && Part(pay, l.items) && Part(pay, forward.items) && Part(kept.items, pay)
  {
    var forward := l.(items := From(l.items, head.nonce(a)));
    PartOk(l, a, true, forward.items);
    FilterExact(forward, head.balance(a), head.maxGas);
    PartOwn(forward.items, a, Filtered(forward, head.balance(a), head.maxGas).items);
  }

  /** Demotion drops what is not payable and moves the invalidated rest back. */
  lemma Demoted(p: Items, q: Items, all: set<Tx>, a: Addr, pay: Items, kept: Items)
    requires AccountOk(p, q, all, a) && Part(pay, p) && Part(kept, pay)
    ensures AccountOk(kept, q + (pay - kept.Keys), all - (Txs(p) - Txs(pay)), a)
    ensures OnlyFrom(all, all - (Txs(p) - Txs(pay)), a)
    ensures Own(pay, a) && Own(pay - kept.Keys, a)
    ensures Txs(pay - kept.Keys) <= Txs(pay) <= all - (Txs(p) - Txs(pay))
    ensures forall n :: n in pay ==> n !in q
  {
    PendingShrinks(p, q, all, a, pay);
    var back := pay - kept.Keys;
    assert Splits(pay, kept, back);
    PartOwn(p, a, back);
    MovesBack(pay, q, all - (Txs(p) - Txs(pay)), a, kept, back);
    forall n | n in pay ensures n !in q { assert Apart(p, q, n); }
    PartOwn(p, a, pay);
    forall tx | tx in Txs(pay) ensures tx in all {
      InTxs(pay, a, tx);
      assert OwnAt(pay, a, tx.nonce) && Placed(p, q, all, tx);
    }
    forall tx | tx in Txs(back) ensures tx in Txs(pay) {
      InTxs(back, a, tx);
    }
  }

  /** Moving back first the invalidated and then the kept ones moves back all payable ones. */
  lemma BackTwice(q: Items, pay: Items, left: Items, kept: Items)
    requires Part(left, pay) && (kept == left || kept == map[])
    ensures q + (pay - left.Keys) + (left - kept.Keys) == q + (pay - kept.Keys)
  {
  }

  /** An account's pending nonces run from the head's nonce, up to wherever. */
  ghost predicate Settled(head: Head, p: Items, a: Addr) {
    Contiguous(p, head.nonce(a), RunEnd(p.Keys, head.nonce(a)), head.balance(a), head.maxGas)
  }

  /** A run seen from another head is a run again once it is filtered, unless it starts late. */
  lemma DemotedRun(p: Items, nonce: nat, virtual: nat, balance: int, maxGas: nat, head: Head, a: Addr, l: List)
    requires Contiguous(p, nonce, virtual, balance, maxGas) && CapsOk(l) && l.strict
    requires l.items == From(p, head.nonce(a))
    ensures var kept := Filtered(l, head.balance(a), head.maxGas).items;
      kept == map[] || head.nonce(a) !in kept || Settled(head, kept, a)
  {
    var kept := Filtered(l, head.balance(a), head.maxGas).items;
    var s := head.nonce(a);
    FilterExact(l, head.balance(a), head.maxGas);
    if s in kept {
      var e := RunEnd(kept.Keys, s);
      forall n ensures RunAt(kept, s, e, head.balance(a), head.maxGas, n) {
        assert RunAt(p, nonce, virtual, balance, maxGas, n) && RunAt(p, nonce, virtual, balance, maxGas, s);
        assert RunAt(p, nonce, virtual, balance, maxGas, e);
      }
    }
  }

  lemma EmptySettled(head: Head, a: Addr)
    ensures Settled(head, map[], a)
  {
    var m: Items := map[];
    forall n ensures RunAt(m, head.nonce(a), head.nonce(a), head.balance(a), head.maxGas, n) {}
  }

  /** Included already, or no longer payable. */
  predicate Dead(head: Head, tx: Tx) {
    tx.nonce < head.nonce(tx.from) || Over(tx, head.balance(tx.from), head.maxGas)
  }

  lemma DeadOnes(head: Head, p: Items, a: Addr, all: set<Tx>, all': set<Tx>)
    requires Own(p, a)
    requires all' == all - (Txs(p) - Txs(Payable(From(p, head.nonce(a)), head.balance(a), head.maxGas)))
    ensures forall tx :: tx in all && tx !in all' ==> Dead(head, tx)
  {
    var pay := Payable(From(p, head.nonce(a)), head.balance(a), head.maxGas);
    PartOwn(p, a, pay);
    forall tx | tx in all && tx !in all' ensures Dead(head, tx) {
      InTxs(p, a, tx);
      InTxs(pay, a, tx);
      assert OwnAt(p, a, tx.nonce);
    }
  }

  ghost predicate SettledAt(head: Head, pending: Lists, a: Addr) { Settled(head, Of(pending, a), a) }

  /** Demotion progress: accounts in `todo` are untouched, and if all were runs before, the
      others are runs under the new head. */
  ghost predicate Demoting(head: Head, head0: Head, nonces0: map<Addr, nat>, before: Lists, now: Lists,
                           todo: set<Addr>) {
    && todo <= before.Keys
    && (forall a {:trigger SameAt(before, now, a)} :: a in todo ==> SameAt(before, now, a))
    && (Runs(head0, before, nonces0) ==>
          forall a {:trigger SettledAt(head, now, a)} :: a !in todo ==> SettledAt(head, now, a))
  }

  lemma DemoteStart(head: Head, head0: Head, nonces0: map<Addr, nat>, before: Lists)
    ensures Demoting(head, head0, nonces0, before, before, before.Keys)
  {
    forall a | a !in before ensures SettledAt(head, before, a) { EmptySettled(head, a); }
  }

  lemma DemoteStep(head: Head, head0: Head, nonces0: map<Addr, nat>, before: Lists, now: Lists, now': Lists,
                   todo: set<Addr>, a: Addr)
    requires Demoting(head, head0, nonces0, before, now, todo) && a in todo && OnlyAt(now, now', a)
    requires RunsAt(head0, now, nonces0, a) ==> Settled(head, Of(now', a), a)
    ensures Demoting(head, head0, nonces0, before, now', todo - {a})
  {
    assert SameAt(before, now, a);
    forall b | b in todo - {a} ensures SameAt(before, now', b) { assert SameAt(before, now, b) && SameAt(now, now', b); }
    if Runs(head0, before, nonces0) {
      assert RunsAt(head0, before, nonces0, a);
      forall b | b !in todo - {a} ensures SettledAt(head, now', b) {
        if b != a { assert SettledAt(head, now, b) && SameAt(now, now', b); }
      }
    }
  }

  // ----- Dropping an account's last pending transaction -----

  lemma LastDropped(pending: Lists, queue: Lists, all: set<Tx>, a: Addr)
    requires ListsOk(pending, true) && Parted(pending, queue, all) && a in pending && |pending[a].items| >= 2
    ensures var m := pending[a].items; var n := Greatest(m.Keys);
      var pending' := pending[a := pending[a].(items := DropGreatest(m))];
      && DropGreatest(m) == Below(m, n) && OnlyAt(pending, pending', a)
      && ListsOk(pending', true) && Parted(pending', queue, all - {m[n]})
  {
    var l := pending[a];
    var n := Greatest(l.items.Keys);
    var left := DropGreatest(l.items);
    ListOfIs(pending, a, true);
    PartOk(l, a, true, left);
    StoreIs(pending, a, l.(items := left), true);
    assert Store(pending, a, l.(items := left)) == pending[a := l.(items := left)];
    assert AccountOk(l.items, Of(queue, a), all, a) by { assert AccountOk(Of(pending, a), Of(queue, a), all, a); }
    assert OwnAt(l.items, a, n);
    Without1(l.items, a, l.items[n]);
    PendingShrinks(l.items, Of(queue, a), all, a, left);
    assert OnlyAt(queue, queue, a);
    AccountChanged(pending, queue, all, pending[a := l.(items := left)], queue, all - {l.items[n]}, a);
  }

  /** A queued transaction is pooled and not pending. */
  lemma QueuedIs(pending: Lists, queue: Lists, all: set<Tx>, a: Addr, n: nat)
    requires Parted(pending, queue, all) && n in Of(queue, a)
    ensures var tx := Of(queue, a)[n]; tx in all && tx.from == a && tx.nonce == n && !Has(Of(pending, a), tx)
  {
    assert AccountOk(Of(pending, a), Of(queue, a), all, a);
    assert OwnAt(Of(queue, a), a, n) && Apart(Of(pending, a), Of(queue, a), n);
    assert Placed(Of(pending, a), Of(queue, a), all, Of(queue, a)[n]);
  }

  // ----- Local accounts -----

  /** A local account's transaction leaves the pool only when it is dead. */
  ghost predicate LocalsKept(head: Head, locals: set<Addr>, all: set<Tx>, all': set<Tx>) {
    forall tx: Tx {:trigger KeptAt(head, locals, all, all', tx)} :: KeptAt(head, locals, all, all', tx)
  }

  predicate KeptAt(head: Head, locals: set<Addr>, all: set<Tx>, all': set<Tx>, tx: Tx) {
    tx.from in locals && tx in all && tx !in all' ==> Dead(head, tx)
  }

  lemma LocalsKeptTrans(head: Head, locals: set<Addr>, s0: set<Tx>, s1: set<Tx>, s2: set<Tx>)
    requires LocalsKept(head, locals, s0, s1) && LocalsKept(head, locals, s1, s2)
    ensures LocalsKept(head, locals, s0, s2)
  {
    forall tx: Tx ensures KeptAt(head, locals, s0, s2, tx) {
      assert KeptAt(head, locals, s0, s1, tx) && KeptAt(head, locals, s1, s2, tx);
    }
  }

  lemma LocalsKeptSame(head: Head, locals: set<Addr>, all: set<Tx>)
    ensures LocalsKept(head, locals, all, all)
  {
  }

  lemma LocalsKeptDead(head: Head, locals: set<Addr>, all: set<Tx>, all': set<Tx>)
    requires forall tx :: tx in all && tx !in all' ==> Dead(head, tx)
    ensures LocalsKept(head, locals, all, all')
  {
  }

  /** Untouched lists mean untouched transactions. */
  lemma LocalsUntouched(pending: Lists, queue: Lists, all: set<Tx>, pending': Lists, queue': Lists,
                        all': set<Tx>, head: Head, locals: set<Addr>)
    requires Parted(pending, queue, all) && Parted(pending', queue', all')
    requires forall a {:trigger a in locals} :: a in locals ==> SameAt(pending, pending', a) && SameAt(queue, queue', a)
    ensures LocalsKept(head, locals, all, all')
  {
    forall tx: Tx | tx.from in locals ensures SameIn(all, all', tx) {
      var p, q, p', q' := Of(pending, tx.from), Of(queue, tx.from), Of(pending', tx.from), Of(queue', tx.from);
      assert AccountOk(p, q, all, tx.from) && AccountOk(p', q', all', tx.from);
      assert Placed(p, q, all, tx) && Placed(p', q', all', tx);
    }
  }

  lemma LocalsKeptAt(head: Head, locals: set<Addr>, all: set<Tx>, all': set<Tx>, a: Addr)
    requires OnlyFrom(all, all', a)
    requires a in locals ==> forall tx :: tx in all && tx !in all' ==> Dead(head, tx)
    ensures LocalsKept(head, locals, all, all')
  {
    forall tx: Tx ensures KeptAt(head, locals, all, all', tx) {
      assert tx.from != a ==> SameIn(all, all', tx);
    }
  }

  // ----- add -----

  /** A pending transaction replaced under its nonce by a payable one. */
  lemma ReplacedRuns(head: Head, pending: Lists, nonces: map<Addr, nat>, pending': Lists, tx: Tx)
    requires Runs(head, pending, nonces) && OnlyAt(pending, pending', tx.from) && tx.nonce in Of(pending, tx.from)
    requires Of(pending', tx.from) == Of(pending, tx.from)[tx.nonce := tx] && !Over(tx, head.balance(tx.from), head.maxGas)
    ensures Runs(head, pending', nonces)
  {
    var a := tx.from;
    assert RunsAt(head, pending, nonces, a);
    forall n ensures RunAt(Of(pending', a), head.nonce(a), Virtual(head, nonces, a), head.balance(a), head.maxGas, n) {
      assert RunAt(Of(pending, a), head.nonce(a), Virtual(head, nonces, a), head.balance(a), head.maxGas, n);
    }
    RunsChanged(head, pending, nonces, pending', nonces, a);
  }

  /** The transaction that holds the same account's same nonce, if any. */
  ghost function Rival(all: set<Tx>, tx: Tx): set<Tx> {
    set t | t in all && t.from == tx.from && t.nonce == tx.nonce
  }

  lemma RivalIs(pending: Lists, queue: Lists, all: set<Tx>, tx: Tx)
    requires Parted(pending, queue, all)
    ensures Rival(all, tx) ==
      if tx.nonce in Of(pending, tx.from) then {Of(pending, tx.from)[tx.nonce]}
      else if tx.nonce in Of(queue, tx.from) then {Of(queue, tx.from)[tx.nonce]} else {}
  {
    var a, p, q := tx.from, Of(pending, tx.from), Of(queue, tx.from);
    assert AccountOk(p, q, all, a);
    assert OwnAt(p, a, tx.nonce) && OwnAt(q, a, tx.nonce) && Apart(p, q, tx.nonce);
    forall t: Tx | t.from == a && t.nonce == tx.nonce ensures t in all <==> Has(p, t) || Has(q, t) {
      assert Placed(p, q, all, t);
    }
  }

  // ----- reset -----

  /** Each pending account's virtual nonce is one past its last pending one. */
  ghost predicate FollowsAt(pending: Lists, nonces: map<Addr, nat>, a: Addr) {
    if a in pending && pending[a].items != map[] then a in nonces && nonces[a] == Greatest(pending[a].items.Keys) + 1
    else a !in nonces
  }

  lemma SettledRuns(head: Head, pending: Lists, nonces: map<Addr, nat>)
    requires forall a {:trigger SettledAt(head, pending, a)} :: SettledAt(head, pending, a)
    requires forall a {:trigger FollowsAt(pending, nonces, a)} :: FollowsAt(pending, nonces, a)
    ensures Runs(head, pending, nonces)
  {
    forall a ensures RunsAt(head, pending, nonces, a) {
      var p, s := Of(pending, a), head.nonce(a);
      var e := RunEnd(p.Keys, s);
      assert SettledAt(head, pending, a) && FollowsAt(pending, nonces, a);
      if p == map[] {
        assert e == s;
      } else {
        var n := Greatest(p.Keys);
        assert RunAt(p, s, e, head.balance(a), head.maxGas, n) && RunAt(p, s, e, head.balance(a), head.maxGas, n + 1);
        assert e == n + 1;
      }
    }
  }
}
