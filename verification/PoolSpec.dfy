/** What the operations of the pool do to its state, as relations between states. */
module PoolSpec {
  import opened TxTypes
  import opened L = TxList
  import opened PoolState
  import opened PoolLevels
  import opened PoolTrim
  import opened SortedMap
  import Priced = PricedList

  datatype Config = Config(priceBump: nat, accountSlots: nat, globalSlots: nat, accountQueue: nat,
                           globalQueue: nat, lifetime: nat)

  datatype Error = Known | OversizedData | NegativeValue | GasLimit | InvalidSender | Underpriced
                 | NonceTooLow | InsufficientFunds | IntrinsicGas | ReplaceUnderpriced

  /** The pool's lists, virtual nonces, heartbeats, local accounts and lookup. */
  datatype Snap = Snap(pending: Lists, queue: Lists, nonces: map<Addr, nat>, beats: map<Addr, nat>,
                       locals: set<Addr>, all: set<Tx>)

  /** The lists and the lookup agree. */
  ghost predicate Sane(s: Snap) {
    ListsOk(s.pending, true) && ListsOk(s.queue, false) && Parted(s.pending, s.queue, s.all)
  }

  /** What decides about a new transaction besides the pool's contents. */
  datatype Gate = Gate(head: Head, gasPrice: nat, capacity: nat, bump: nat)

  // ----- add -----

  /** validateTx, but for the local price limit. */
  predicate Admissible(head: Head, tx: Tx) {
    && tx.size <= 32 * 1024 && tx.value >= 0 && tx.signed && tx.intrinsic <= tx.gas
    && head.nonce(tx.from) <= tx.nonce && !Over(tx, head.balance(tx.from), head.maxGas)
  }

  /** What each rejection says about the transaction. */
  predicate Fault(err: Error, head: Head, gasPrice: nat, local: bool, tx: Tx) {
    match err
    case OversizedData => tx.size > 32 * 1024
    case NegativeValue => tx.value < 0
    case GasLimit => tx.gas > head.maxGas
    case InvalidSender => !tx.signed
    case Underpriced => !local && tx.price < gasPrice
    case NonceTooLow => tx.nonce < head.nonce(tx.from)
    case InsufficientFunds => tx.cost > head.balance(tx.from)
    case IntrinsicGas => tx.gas < tx.intrinsic
    case Known => false
    case ReplaceUnderpriced => false
  }

  /** When validateTx looks for the fault. */
  function Turn(err: Error): nat {
    match err
    case OversizedData => 0
    case NegativeValue => 1
    case GasLimit => 2
    case InvalidSender => 3
    case Underpriced => 4
    case NonceTooLow => 5
    case InsufficientFunds => 6
    case IntrinsicGas => 7
    case _ => 8
  }

  ghost predicate FirstFault(err: Error, head: Head, gasPrice: nat, local: bool, tx: Tx) {
    Fault(err, head, gasPrice, local, tx) && forall e :: Turn(e) < Turn(err) ==> !Fault(e, head, gasPrice, local, tx)
  }

  predicate Worthy(g: Gate, locals: set<Addr>, tx: Tx, local: bool) {
    Admissible(g.head, tx) && (local || tx.from in locals || g.gasPrice <= tx.price)
  }

  predicate Dearer(t: Tx, tx: Tx) { tx.price <= t.price }

  /** Nothing pooled is cheaper. */
  ghost predicate Undercut(locals: set<Addr>, all: set<Tx>, tx: Tx, local: bool) {
    && !local && !Priced.IsLocal(locals, tx) && all != {}
    && forall t {:trigger Dearer(t, tx)} :: t in all ==> Dearer(t, tx)
  }

  /** Nothing but a rival can stop the transaction. */
  ghost predicate Enters(g: Gate, locals: set<Addr>, all: set<Tx>, tx: Tx, local: bool) {
    tx !in all && Worthy(g, locals, tx, local) && !(|all| >= g.capacity && Undercut(locals, all, tx, local))
  }

  ghost predicate Outbid(all: set<Tx>, tx: Tx, bump: nat) {
    forall t {:trigger Outbids(t, tx, bump)} :: t in Rival(all, tx) ==> Outbids(t, tx, bump)
  }

  /** The price is higher than that of each transaction with this account and nonce, by `bump`
      hundredths of it or less than one unit short of that. */
  ghost predicate Outpays(all: set<Tx>, tx: Tx, bump: nat) {
    forall was :: was in all && was.from == tx.from && was.nonce == tx.nonce ==>
      tx.price > was.price && 100 * (tx.price + 1) > was.price * (100 + bump)
  }

  lemma OutbidIs(all: set<Tx>, tx: Tx, bump: nat)
    ensures Outbid(all, tx, bump) <==> Outpays(all, tx, bump)
  {
    forall was ensures Outbids(was, tx, bump) <==> tx.price > was.price && 100 * (tx.price + 1) > was.price * (100 + bump) {
      OutbidsIs(was, tx, bump);
    }
    assert forall was :: was in Rival(all, tx) <==> was in all && was.from == tx.from && was.nonce == tx.nonce;
  }

  /** Only remote transactions, and no remote one that stays is worse than one that goes. */
  ghost predicate Cheapest(all: set<Tx>, locals: set<Addr>, gone: set<Tx>) {
    && gone <= Priced.Remote(all, locals)
    && (forall d, t {:trigger Priced.NoDearer(d, t)} ::
          d in gone && t in all && !Priced.IsLocal(locals, t) && t !in gone ==> Priced.NoDearer(d, t))
  }

  /** A full pool gives up its cheapest remote transactions. */
  ghost predicate Discarded(all: set<Tx>, locals: set<Addr>, gone: set<Tx>, count: nat) {
    && Cheapest(all, locals, gone) && |gone| <= count
    && (gone == {} <==> Priced.Remote(all, locals) == {})
  }

  /** The result of an addition, by its guards in turn. */
  ghost predicate Verdict(g: Gate, locals: set<Addr>, all: set<Tx>, tx: Tx, local: bool, gone: set<Tx>,
                          err: Option<Error>) {
    if tx in all then err == Some(Known) && gone == {}
    else if !Worthy(g, locals, tx, local) then
      err.Some? && FirstFault(err.value, g.head, g.gasPrice, local || tx.from in locals, tx) && gone == {}
    else if |all| >= g.capacity && Undercut(locals, all, tx, local) then err == Some(Underpriced) && gone == {}
    else
      && (if |all| >= g.capacity then Discarded(all, locals, gone, |all| - g.capacity + 1) else gone == {})
      && err == if Outbid(all - gone, tx, g.bump) then None else Some(ReplaceUnderpriced)
  }

  /** So, by prices: a transaction that only a rival can stop is accepted exactly if it outpays the
      rival that is left, and is refused for that alone otherwise. */
  lemma VerdictByPrice(g: Gate, locals: set<Addr>, all: set<Tx>, tx: Tx, local: bool, gone: set<Tx>, err: Option<Error>)
    requires Verdict(g, locals, all, tx, local, gone, err)
    ensures err.None? <==> Enters(g, locals, all, tx, local) && Outpays(all - gone, tx, g.bump)
    ensures err == Some(ReplaceUnderpriced) <==> Enters(g, locals, all, tx, local) && !Outpays(all - gone, tx, g.bump)
  {
    OutbidIs(all - gone, tx, g.bump);
  }

  /** The lookup then: an accepted transaction takes the place of its rival. */
  ghost function Afterwards(all: set<Tx>, tx: Tx, gone: set<Tx>, err: Option<Error>): set<Tx> {
    if err.Some? then all - gone else all - gone - Rival(all - gone, tx) + {tx}
  }

  /** A refused transaction costs others their place exactly if the pool is full, nothing but
      its rival stands against it, there are remote transactions, and the rival stays and is
      not outbid. */
  lemma CostlyRefusal(g: Gate, locals: set<Addr>, all: set<Tx>, tx: Tx, local: bool, gone: set<Tx>, err: Option<Error>)
    requires Verdict(g, locals, all, tx, local, gone, err)
    ensures err.Some? && Afterwards(all, tx, gone, err) != all <==>
              && |all| >= g.capacity && Enters(g, locals, all, tx, local) && Priced.Remote(all, locals) != {}
              && !Outbid(all - gone, tx, g.bump)
  {
    if gone != {} {
      var t :| t in gone;
      assert t in Priced.Remote(all, locals) && t !in all - gone;
    } else {
      assert all - gone == all;
    }
  }

  /** Who stays when room is made, told from the heap before: a local transaction, or one with
      enough heap entries of cheaper remote ones before it. */
  lemma StaysIf(items: seq<Tx>, all: set<Tx>, locals: set<Addr>, gone: set<Tx>, count: nat, r: Tx)
    requires Discarded(all, locals, gone, count) && Priced.Chosen(items, all, locals, gone, count)
    requires r in all && Priced.NoTies(all, locals, r)
    ensures r !in gone <==> Priced.IsLocal(locals, r) || |Priced.Ahead(items, all, locals, r)| >= count
  {
  }

  /** The same as CostlyRefusal, by what is known before the call: without a tie with a rival,
      a refusal costs others their place exactly if also some rival is not outbid and is local
      or has as many entries of cheaper ones before it in the heap as are to go. */
  lemma RefusalForeseen(g: Gate, items: seq<Tx>, locals: set<Addr>, all: set<Tx>, tx: Tx, local: bool, gone: set<Tx>,
                        err: Option<Error>)
    requires Verdict(g, locals, all, tx, local, gone, err)
    requires |all| >= g.capacity && Enters(g, locals, all, tx, local) ==>
               Priced.Chosen(items, all, locals, gone, |all| - g.capacity + 1)
    requires forall r :: r in Rival(all, tx) ==> Priced.NoTies(all, locals, r)
    ensures err.Some? && Afterwards(all, tx, gone, err) != all <==>
              && |all| >= g.capacity && Enters(g, locals, all, tx, local) && Priced.Remote(all, locals) != {}
              && exists r :: r in Rival(all, tx) && !Outbids(r, tx, g.bump)
                    && (Priced.IsLocal(locals, r) || |Priced.Ahead(items, all, locals, r)| > |all| - g.capacity)
  {
    CostlyRefusal(g, locals, all, tx, local, gone, err);
    if |all| >= g.capacity && Enters(g, locals, all, tx, local) {
      forall r | r in Rival(all, tx)
        ensures r in Rival(all - gone, tx) <==>
                  Priced.IsLocal(locals, r) || |Priced.Ahead(items, all, locals, r)| > |all| - g.capacity
      {
        StaysIf(items, all, locals, gone, |all| - g.capacity + 1, r);
      }
    }
  }

  // ----- How crowded the pool gets -----

  /** Over its capacity the pool holds at most one remote transaction. */
  ghost predicate Uncrowded(capacity: nat, all: set<Tx>, locals: set<Addr>) {
    |all| > capacity ==> |Priced.Remote(all, locals)| <= 1
  }

  lemma UncrowdedShrinks(capacity: nat, all: set<Tx>, all': set<Tx>, locals: set<Addr>)
    requires Uncrowded(capacity, all, locals) && all' <= all
    ensures Uncrowded(capacity, all', locals)
  {
    Priced.Subset(all', all);
    Priced.Subset(Priced.Remote(all', locals), Priced.Remote(all, locals));
  }

  /** So as many leave as are over the capacity and one more, or all remote ones, whatever
      entries the price heap has. */
  lemma RoomExact(all: set<Tx>, locals: set<Addr>, gone: set<Tx>, capacity: nat)
    requires |all| >= capacity && Uncrowded(capacity, all, locals) && Discarded(all, locals, gone, |all| - capacity + 1)
    ensures |gone| == Priced.Fewer(|all| - capacity + 1, |Priced.Remote(all, locals)|)
  {
    Priced.Subset(gone, Priced.Remote(all, locals));
  }

  /** How many leave a full pool, and who: as many as are over the capacity and one more, or all
      remote ones, if the pool is uncrowded or no transaction has two entries in the price heap;
      and those with fewer heap entries before them. */
  ghost predicate Leaves(capacity: nat, items: seq<Tx>, all: set<Tx>, locals: set<Addr>, gone: set<Tx>)
    requires |all| >= capacity
  {
    var count := |all| - capacity + 1;
    && (Uncrowded(capacity, all, locals) || Priced.Single(items, all) ==>
          |gone| == Priced.Fewer(count, |Priced.Remote(all, locals)|))
    && Priced.Chosen(items, all, locals, gone, count)
  }

  lemma DropDiscarded(before: seq<Tx>, after: seq<Tx>, drop: seq<Tx>, all: set<Tx>, locals: set<Addr>, count: nat)
    requires Priced.Discards(before, after, drop, all, locals, count) && Priced.Covers(before, all) && count > 0
    ensures |drop| < count ==> forall tx :: tx in Priced.Remote(all, locals) ==> tx in drop
    ensures Discarded(all, locals, Elems(drop), count)
  {
    forall t | t in Priced.Remote(all, locals) && t !in drop ensures t in after {
      assert Priced.Entry(before, t) && t in multiset(before) && t !in multiset(drop);
      assert t in multiset(after);
    }
    ElemsSize(drop);
    if drop != [] { assert drop[0] in Elems(drop); }
  }

  ghost function Elems(s: seq<Tx>): set<Tx> { set tx | tx in s }

  lemma {:induction false} ElemsSize(s: seq<Tx>)
    ensures |Elems(s)| <= |s|
  {
    if s != [] {
      var n := |s| - 1;
      ElemsSize(s[..n]);
      assert s == s[..n] + [s[n]];
      assert Elems(s) == Elems(s[..n]) + {s[n]};
    }
  }

  lemma DropLeaves(before: seq<Tx>, after: seq<Tx>, drop: seq<Tx>, all: set<Tx>, locals: set<Addr>, capacity: nat)
    requires |all| >= capacity && Priced.Covers(before, all)
    requires Priced.Discards(before, after, drop, all, locals, |all| - capacity + 1)
    ensures Leaves(capacity, before, all, locals, Elems(drop))
    ensures Discarded(all, locals, Elems(drop), |all| - capacity + 1)
  {
    var count := |all| - capacity + 1;
    DropDiscarded(before, after, drop, all, locals, count);
    Priced.ChoosesFront(before, after, drop, all, locals, count);
    if Priced.Single(before, all) { Priced.DiscardExact(before, after, drop, all, locals, count); }
    if Uncrowded(capacity, all, locals) { RoomExact(all, locals, Elems(drop), capacity); }
  }

  lemma LeavesSame(capacity: nat, items: seq<Tx>, items': seq<Tx>, all: set<Tx>, locals: set<Addr>, gone: set<Tx>)
    requires |all| >= capacity && Priced.Conserved(items, items', [], all) && Leaves(capacity, items', all, locals, gone)
    ensures Leaves(capacity, items, all, locals, gone)
  {
    Priced.ChosenSame(items, items', all, locals, gone, |all| - capacity + 1);
    if Priced.Single(items, all) { assert Priced.Single(items', all); }
  }

  lemma AdditionUncrowded(all: set<Tx>, locals: set<Addr>, tx: Tx, gone: set<Tx>, all': set<Tx>, locals': set<Addr>,
                          capacity: nat)
    requires Uncrowded(capacity, all, locals) && locals <= locals' && all' <= all - gone + {tx}
    requires if |all| >= capacity then Discarded(all, locals, gone, |all| - capacity + 1) else gone == {}
    ensures Uncrowded(capacity, all', locals')
  {
    var remote, remote' := Priced.Remote(all, locals), Priced.Remote(all', locals');
    Priced.Subset(all', all - gone + {tx});
    assert remote' <= remote - gone + {tx};
    Priced.Subset(remote', remote - gone + {tx});
    if gone != {} { Priced.Subset(gone, remote); }
    assert |all - gone| == |all| - |gone|;
    assert |remote - gone| == |remote| - |gone|;
  }

  // ----- Making room, and the whole addition -----

  /** Still pending once `gone` has left: a removed pending transaction takes along the place
      of everything behind it. */
  ghost predicate StillPending(p: Items, gone: set<Tx>, a: Addr, n: nat) {
    n in p && forall t {:trigger Has(p, t)} :: t in gone && t.from == a && Has(p, t) ==> n < t.nonce
  }

  ghost predicate CutShort(p0: Lists, p1: Lists, gone: set<Tx>) {
    forall a, n {:trigger ShortAt(p0, p1, gone, a, n)} :: ShortAt(p0, p1, gone, a, n)
  }

  ghost predicate ShortAt(p0: Lists, p1: Lists, gone: set<Tx>, a: Addr, n: nat) {
    n in Of(p1, a) <==> StillPending(Of(p0, a), gone, a, n)
  }

  ghost predicate SameTxs(p0: Lists, p1: Lists) {
    forall a {:trigger Of(p1, a)} :: Part(Of(p1, a), Of(p0, a))
  }

  lemma CutShortStarts(p: Lists)
    ensures CutShort(p, p, {}) && SameTxs(p, p)
  {
  }

  /** One more transaction is removed. */
  lemma CutShortStep(p0: Lists, p1: Lists, queue: Lists, all: set<Tx>, gone: set<Tx>, p2: Lists, tx: Tx)
    requires CutShort(p0, p1, gone) && SameTxs(p0, p1) && Parted(p1, queue, all) && OnlyAt(p1, p2, tx.from)
    requires tx in all || tx in gone
    requires tx in all && Has(Of(p1, tx.from), tx) ==> Of(p2, tx.from) == Below(Of(p1, tx.from), tx.nonce)
    requires !(tx in all && Has(Of(p1, tx.from), tx)) ==> p2 == p1
    ensures CutShort(p0, p2, gone + {tx}) && SameTxs(p0, p2)
  {
    var b := tx.from;
    forall a ensures Part(Of(p2, a), Of(p0, a)) {
      assert Part(Of(p1, a), Of(p0, a));
      if a != b { assert SameAt(p1, p2, a); }
    }
    forall a, n ensures ShortAt(p0, p2, gone + {tx}, a, n) {
      assert ShortAt(p0, p1, gone, a, n);
      if a != b {
        assert SameAt(p1, p2, a);
      } else if tx in all {
        CutShortAt(Of(p0, b), Of(p1, b), p0, p1, gone, tx, n);
      } else {
        assert gone + {tx} == gone;
      }
    }
  }

  lemma CutShortAt(m0: Items, m1: Items, p0: Lists, p1: Lists, gone: set<Tx>, tx: Tx, n: nat)
    requires m0 == Of(p0, tx.from) && m1 == Of(p1, tx.from) && CutShort(p0, p1, gone) && Part(m1, m0)
    ensures StillPending(m0, gone + {tx}, tx.from, n) <==> n in m1 && (Has(m1, tx) ==> n < tx.nonce)
  {
    assert ShortAt(p0, p1, gone, tx.from, n) && ShortAt(p0, p1, gone, tx.from, tx.nonce);
    if Has(m0, tx) && !Has(m1, tx) {
      var t :| t in gone && t.from == tx.from && Has(m0, t) && t.nonce <= tx.nonce;
    }
  }

  /** A virtual nonce falls to the lowest pending nonce that went, if that is lower. */
  ghost predicate ShrunkAt(head: Head, p0: Lists, n0: map<Addr, nat>, p1: Lists, n1: map<Addr, nat>, a: Addr) {
    var m0, m1, v0, v1 := Of(p0, a), Of(p1, a), Virtual(head, n0, a), Virtual(head, n1, a);
    && (forall k :: k in m1 ==> k in m0) && v1 <= v0
    && (forall k :: k in m0 && k !in m1 ==> v1 <= k)
    && (v1 == v0 || (v1 in m0 && v1 !in m1))
  }

  ghost predicate Shrunk(head: Head, p0: Lists, n0: map<Addr, nat>, p1: Lists, n1: map<Addr, nat>) {
    forall a {:trigger ShrunkAt(head, p0, n0, p1, n1, a)} :: ShrunkAt(head, p0, n0, p1, n1, a)
  }

  lemma ShrunkStarts(head: Head, p: Lists, n: map<Addr, nat>)
    ensures Shrunk(head, p, n, p, n)
  {
  }

  lemma ShrunkTrans(head: Head, p0: Lists, n0: map<Addr, nat>, p1: Lists, n1: map<Addr, nat>, p2: Lists, n2: map<Addr, nat>)
    requires Shrunk(head, p0, n0, p1, n1) && Shrunk(head, p1, n1, p2, n2)
    ensures Shrunk(head, p0, n0, p2, n2)
  {
    forall a ensures ShrunkAt(head, p0, n0, p2, n2, a) {
      assert ShrunkAt(head, p0, n0, p1, n1, a) && ShrunkAt(head, p1, n1, p2, n2, a);
    }
  }

  /** An account's list is cut below a pending nonce. */
  lemma ShrunkBelow(head: Head, p0: Lists, n0: map<Addr, nat>, p1: Lists, n1: map<Addr, nat>, a: Addr, n: nat)
    requires OnlyAt(p0, p1, a) && n in Of(p0, a) && Of(p1, a) == Below(Of(p0, a), n)
    requires n1 == if Virtual(head, n0, a) > n then n0[a := n] else n0
    ensures Shrunk(head, p0, n0, p1, n1)
  {
    forall b ensures ShrunkAt(head, p0, n0, p1, n1, b) {
      if b != a { assert SameAt(p0, p1, b); }
    }
  }

  /** An account that has nothing pending any more loses its heartbeat. */
  ghost predicate BeatsAt(p0: Lists, b0: map<Addr, nat>, p1: Lists, b1: map<Addr, nat>, a: Addr) {
    Entry(b1, a) == if Of(p0, a) != map[] && Of(p1, a) == map[] then None else Entry(b0, a)
  }

  ghost predicate BeatsCut(p0: Lists, b0: map<Addr, nat>, p1: Lists, b1: map<Addr, nat>) {
    forall a {:trigger BeatsAt(p0, b0, p1, b1, a)} :: BeatsAt(p0, b0, p1, b1, a)
  }

  lemma BeatsStep(p0: Lists, b0: map<Addr, nat>, p1: Lists, b1: map<Addr, nat>, p2: Lists, b2: map<Addr, nat>, a: Addr)
    requires BeatsCut(p0, b0, p1, b1) && SameTxs(p0, p1) && OnlyAt(p1, p2, a)
    requires SameTxs(p1, p2) && b2 == (if Of(p1, a) != map[] && Of(p2, a) == map[] then b1 - {a} else b1)
    ensures BeatsCut(p0, b0, p2, b2)
  {
    forall b ensures BeatsAt(p0, b0, p2, b2, b) {
      assert BeatsAt(p0, b0, p1, b1, b);
      assert Part(Of(p1, b), Of(p0, b)) && Part(Of(p2, b), Of(p1, b));
      if b != a { assert SameAt(p1, p2, b); }
    }
  }

  predicate KeysAt(p0: Lists, p1: Lists, a: Addr) { Of(p1, a).Keys == Of(p0, a).Keys }

  /** Every account has the same nonces pending. */
  ghost predicate SamePlaces(p0: Lists, p1: Lists) {
    forall a {:trigger KeysAt(p0, p1, a)} :: KeysAt(p0, p1, a)
  }

  lemma PlacesKept(head: Head, p0: Lists, n0: map<Addr, nat>, b0: map<Addr, nat>, p1: Lists, n1: map<Addr, nat>,
                   b1: map<Addr, nat>, p2: Lists, gone: set<Tx>)
    requires CutShort(p0, p1, gone) && Shrunk(head, p0, n0, p1, n1) && BeatsCut(p0, b0, p1, b1) && SamePlaces(p1, p2)
    ensures CutShort(p0, p2, gone) && Shrunk(head, p0, n0, p2, n1) && BeatsCut(p0, b0, p2, b1)
  {
    forall a, n ensures ShortAt(p0, p2, gone, a, n) {
      assert ShortAt(p0, p1, gone, a, n) && KeysAt(p1, p2, a);
      assert n in Of(p2, a) <==> n in Of(p2, a).Keys;
    }
    forall a ensures ShrunkAt(head, p0, n0, p2, n1, a) {
      assert ShrunkAt(head, p0, n0, p1, n1, a) && KeysAt(p1, p2, a);
      assert forall k :: k in Of(p2, a) <==> k in Of(p1, a).Keys;
    }
    forall a ensures BeatsAt(p0, b0, p2, b1, a) {
      assert BeatsAt(p0, b0, p1, b1, a) && KeysAt(p1, p2, a);
    }
  }

  // ----- Nothing executable waits -----

  /** The account's next nonce is not in its queue. */
  predicate IdleAt(head: Head, queue: Lists, nonces: map<Addr, nat>, a: Addr) {
    Virtual(head, nonces, a) !in Of(queue, a)
  }

  ghost predicate Idle(head: Head, queue: Lists, nonces: map<Addr, nat>) { Waiting(head, queue, nonces, {}) }

  /** At most these accounts have executable transactions in their queues. */
  ghost predicate Waiting(head: Head, queue: Lists, nonces: map<Addr, nat>, accounts: set<Addr>) {
    forall a {:trigger IdleAt(head, queue, nonces, a)} :: a !in accounts ==> IdleAt(head, queue, nonces, a)
  }

  ghost predicate IdleBut(head: Head, q0: Lists, n0: map<Addr, nat>, q1: Lists, n1: map<Addr, nat>, but: set<Addr>) {
    forall a {:trigger IdleAt(head, q1, n1, a)} :: IdleAt(head, q0, n0, a) && a !in but ==> IdleAt(head, q1, n1, a)
  }

  ghost predicate StaysIdle(head: Head, q0: Lists, n0: map<Addr, nat>, q1: Lists, n1: map<Addr, nat>) {
    IdleBut(head, q0, n0, q1, n1, {})
  }

  lemma IdleOn(head: Head, q0: Lists, n0: map<Addr, nat>, q1: Lists, n1: map<Addr, nat>, q2: Lists, n2: map<Addr, nat>,
               but: set<Addr>)
    requires StaysIdle(head, q0, n0, q1, n1) && IdleBut(head, q1, n1, q2, n2, but)
    ensures IdleBut(head, q0, n0, q2, n2, but)
  {
    forall a | IdleAt(head, q0, n0, a) && a !in but ensures IdleAt(head, q2, n2, a) {
      assert IdleAt(head, q1, n1, a);
    }
  }

  lemma WaitingOn(head: Head, q0: Lists, n0: map<Addr, nat>, q1: Lists, n1: map<Addr, nat>, accounts: set<Addr>,
                  but: set<Addr>)
    requires Waiting(head, q0, n0, accounts) && IdleBut(head, q0, n0, q1, n1, but)
    ensures Waiting(head, q1, n1, accounts + but)
  {
    forall a | a !in accounts + but ensures IdleAt(head, q1, n1, a) {
      assert IdleAt(head, q0, n0, a);
    }
  }

  /** Shrinking pending lists lowers a virtual nonce only to one that is not queued. */
  lemma ShrunkIdle(head: Head, p0: Lists, queue: Lists, all: set<Tx>, n0: map<Addr, nat>, p1: Lists, n1: map<Addr, nat>)
    requires Parted(p0, queue, all) && Shrunk(head, p0, n0, p1, n1)
    ensures StaysIdle(head, queue, n0, queue, n1)
  {
    forall a | IdleAt(head, queue, n0, a) ensures IdleAt(head, queue, n1, a) {
      assert ShrunkAt(head, p0, n0, p1, n1, a) && AccountOk(Of(p0, a), Of(queue, a), all, a);
      assert Apart(Of(p0, a), Of(queue, a), Virtual(head, n1, a));
    }
  }

  /** Removing one transaction, pending or queued. */
  lemma RemovedIdle(head: Head, p0: Lists, q0: Lists, all: set<Tx>, n0: map<Addr, nat>, q1: Lists, n1: map<Addr, nat>,
                    a: Addr, n: nat)
    requires Parted(p0, q0, all) && OnlyAt(q0, q1, a)
    requires if n in Of(p0, a)
             then Of(q1, a) == Of(q0, a) + From(Of(p0, a), n + 1)
                  && n1 == (if Virtual(head, n0, a) > n then n0[a := n] else n0)
             else Of(q1, a) == Of(q0, a) - {n} && n1 == n0
    ensures StaysIdle(head, q0, n0, q1, n1)
  {
    forall b | IdleAt(head, q0, n0, b) ensures IdleAt(head, q1, n1, b) {
      if b != a { assert SameAt(q0, q1, b); }
      assert AccountOk(Of(p0, a), Of(q0, a), all, a) && Apart(Of(p0, a), Of(q0, a), n);
    }
  }

  /** Queues that only lose transactions. */
  lemma TrimmedIdle(head: Head, q0: Lists, q1: Lists, nonces: map<Addr, nat>)
    requires forall a {:trigger Of(q1, a)} :: Of(q1, a).Keys <= Of(q0, a).Keys
    ensures StaysIdle(head, q0, nonces, q1, nonces)
  {
    forall a | IdleAt(head, q0, nonces, a) ensures IdleAt(head, q1, nonces, a) {
      assert Of(q1, a).Keys <= Of(q0, a).Keys;
    }
  }

  // ----- promoteExecutables -----

  function Entry(m: map<Addr, nat>, a: Addr): Option<nat> { if a in m then Some(m[a]) else None }

  predicate UntouchedAt(s0: Snap, s1: Snap, a: Addr) {
    && SameAt(s0.pending, s1.pending, a) && SameAt(s0.queue, s1.queue, a)
    && Entry(s0.nonces, a) == Entry(s1.nonces, a) && Entry(s0.beats, a) == Entry(s1.beats, a)
  }

  /** An account's state, as far as promotion touches it. */
  datatype Account = Account(pending: Items, queue: Items, nonce: Option<nat>, beat: Option<nat>)

  function At(s: Snap, a: Addr): Account {
    Account(Of(s.pending, a), Of(s.queue, a), Entry(s.nonces, a), Entry(s.beats, a))
  }

  /** What is ready at virtual nonce `v` among the eligible transactions moves up, and the queue
      limit applies to the rest. */
  ghost predicate MovedUp(fit: Items, v: nat, local: bool, limit: nat, now: nat, x: Account, y: Account) {
    var e := ReadyEnd(fit, v);
    && y.pending == x.pending + Below(fit, e)
    && y.queue == (if local then From(fit, e) else CutTo(From(fit, e), limit))
    && (if Below(fit, e) == map[] then y.nonce == x.nonce && y.beat == x.beat
        else y.nonce == Some(e) && y.beat == Some(now))
  }

  /** The account's lists once what is ready was promoted and the queue limit applied. */
  ghost predicate PromotedTo(head: Head, limit: nat, now: nat, s0: Snap, s1: Snap, a: Addr) {
    if a !in s0.queue then UntouchedAt(s0, s1, a)
    else MovedUp(Eligible(head, s0.queue[a], a).items, Virtual(head, s0.nonces, a), a in s0.locals, limit, now,
                 At(s0, a), At(s1, a))
  }

  /** A promoted account is within its queue limit unless local, and if pending nonces are runs,
      nothing executable is left in its queue. */
  ghost predicate PromotedAt(head: Head, limit: nat, runs: bool, s: Snap, a: Addr) {
    (a !in s.locals ==> |Of(s.queue, a)| <= limit) && (runs ==> IdleAt(head, s.queue, s.nonces, a))
  }

  ghost predicate Limited(head: Head, limit: nat, runs: bool, s: Snap, accounts: seq<Addr>) {
    forall a {:trigger PromotedAt(head, limit, runs, s, a)} :: a in accounts ==> PromotedAt(head, limit, runs, s, a)
  }

  ghost predicate OthersSame(s0: Snap, s1: Snap, accounts: seq<Addr>) {
    forall a {:trigger UntouchedAt(s0, s1, a)} :: a !in accounts ==> UntouchedAt(s0, s1, a)
  }

  ghost predicate EachPromoted(head: Head, limit: nat, now: nat, s0: Snap, s1: Snap, accounts: seq<Addr>) {
    forall a {:trigger PromotedTo(head, limit, now, s0, s1, a)} :: a in accounts ==> PromotedTo(head, limit, now, s0, s1, a)
  }

  /** The accounts were promoted one after the other, and no others. */
  ghost predicate Promotion(head: Head, limit: nat, now: nat, s0: Snap, s1: Snap, accounts: seq<Addr>) {
    match s0 case Snap(pending, queue, nonces, beats, locals, all) =>
      && s1.locals == locals
      && Limited(head, limit, Runs(head, pending, nonces), s1, accounts)
      && OthersSame(s0, s1, accounts)
      && (Distinct(accounts) ==> EachPromoted(head, limit, now, s0, s1, accounts))
  }

  lemma PromotionStarts(head: Head, limit: nat, now: nat, s: Snap)
    ensures Promotion(head, limit, now, s, s, [])
  {
  }

  ghost predicate Elsewhere(s1: Snap, s2: Snap, a: Addr) {
    s2.locals == s1.locals && forall b {:trigger UntouchedAt(s1, s2, b)} :: b != a ==> UntouchedAt(s1, s2, b)
  }

  lemma PromotedTwice(head: Head, limit: nat, now: nat, s0: Snap, s1: Snap, s2: Snap, a: Addr)
    requires s1.locals == s0.locals
    ensures PromotedTo(head, limit, now, s0, s1, a) && UntouchedAt(s1, s2, a) ==> PromotedTo(head, limit, now, s0, s2, a)
    ensures UntouchedAt(s0, s1, a) && PromotedTo(head, limit, now, s1, s2, a) ==> PromotedTo(head, limit, now, s0, s2, a)
  {
    assert UntouchedAt(s1, s2, a) ==> At(s1, a) == At(s2, a);
    assert UntouchedAt(s0, s1, a) ==> At(s0, a) == At(s1, a) && Virtual(head, s0.nonces, a) == Virtual(head, s1.nonces, a);
  }

  lemma DistinctFront(s: seq<Addr>, a: Addr)
    requires Distinct(s + [a])
    ensures Distinct(s) && a !in s
  {
    var longer := s + [a];
    assert longer[|s|] == a && forall i :: 0 <= i < |s| ==> longer[i] == s[i];
  }

  lemma LimitedStep(head: Head, limit: nat, runs: bool, s1: Snap, s2: Snap, accounts: seq<Addr>, a: Addr)
    requires Limited(head, limit, runs, s1, accounts) && Elsewhere(s1, s2, a) && PromotedAt(head, limit, runs, s2, a)
    ensures Limited(head, limit, runs, s2, accounts + [a])
  {
    forall b | b in accounts + [a] ensures PromotedAt(head, limit, runs, s2, b) {
      if b != a { assert PromotedAt(head, limit, runs, s1, b) && UntouchedAt(s1, s2, b); }
    }
  }

  lemma OthersStep(s0: Snap, s1: Snap, s2: Snap, accounts: seq<Addr>, a: Addr)
    requires OthersSame(s0, s1, accounts) && Elsewhere(s1, s2, a)
    ensures OthersSame(s0, s2, accounts + [a])
  {
    forall b | b !in accounts + [a] ensures UntouchedAt(s0, s2, b) {
      assert UntouchedAt(s0, s1, b) && UntouchedAt(s1, s2, b);
    }
  }

  lemma EachStep(head: Head, limit: nat, now: nat, s0: Snap, s1: Snap, s2: Snap, accounts: seq<Addr>, a: Addr)
    requires EachPromoted(head, limit, now, s0, s1, accounts) && OthersSame(s0, s1, accounts) && Elsewhere(s1, s2, a)
    requires s1.locals == s0.locals && a !in accounts && PromotedTo(head, limit, now, s1, s2, a)
    ensures EachPromoted(head, limit, now, s0, s2, accounts + [a])
  {
    forall b | b in accounts + [a] ensures PromotedTo(head, limit, now, s0, s2, b) {
      PromotedTwice(head, limit, now, s0, s1, s2, b);
      if b == a {
        assert UntouchedAt(s0, s1, a);
      } else {
        assert PromotedTo(head, limit, now, s0, s1, b) && UntouchedAt(s1, s2, b);
      }
    }
  }

  lemma PromotionStep(head: Head, limit: nat, now: nat, s0: Snap, s1: Snap, s2: Snap, accounts: seq<Addr>, a: Addr)
    requires Promotion(head, limit, now, s0, s1, accounts) && Elsewhere(s1, s2, a)
    requires PromotedAt(head, limit, Runs(head, s0.pending, s0.nonces), s2, a) && PromotedTo(head, limit, now, s1, s2, a)
    ensures Promotion(head, limit, now, s0, s2, accounts + [a])
  {
    LimitedStep(head, limit, Runs(head, s0.pending, s0.nonces), s1, s2, accounts, a);
    OthersStep(s0, s1, s2, accounts, a);
    if Distinct(accounts + [a]) {
      DistinctFront(accounts, a);
      EachStep(head, limit, now, s0, s1, s2, accounts, a);
    }
  }

  /** The promotions one by one, whatever accounts are given, also twice. */
  ghost predicate Climb(head: Head, limit: nat, now: nat, trail: seq<Snap>, accounts: seq<Addr>) {
    && |trail| == |accounts| + 1
    && forall i {:trigger ClimbAt(head, limit, now, trail, accounts, i)} :: ClimbAt(head, limit, now, trail, accounts, i)
  }

  ghost predicate ClimbAt(head: Head, limit: nat, now: nat, trail: seq<Snap>, accounts: seq<Addr>, i: nat)
    requires |trail| == |accounts| + 1
  {
    i < |accounts| ==>
      PromotedTo(head, limit, now, trail[i], trail[i + 1], accounts[i]) && Elsewhere(trail[i], trail[i + 1], accounts[i])
  }

  lemma ClimbOn(head: Head, limit: nat, now: nat, trail: seq<Snap>, accounts: seq<Addr>, s: Snap, a: Addr)
    requires Climb(head, limit, now, trail, accounts)
    requires PromotedTo(head, limit, now, trail[|accounts|], s, a) && Elsewhere(trail[|accounts|], s, a)
    ensures Climb(head, limit, now, trail + [s], accounts + [a])
  {
    var longer, more := trail + [s], accounts + [a];
    forall i: nat ensures ClimbAt(head, limit, now, longer, more, i) {
      if i < |accounts| { assert ClimbAt(head, limit, now, trail, accounts, i); }
    }
  }

  /** The lists of accounts that are not local are cut at one level: never below the guaranteed
      slots, low enough for the total to fit unless the guaranteed slots alone exceed it, and
      no lower than that. */
  ghost predicate LevelsOff(config: Config, locals: set<Addr>, p0: Lists, p1: Lists, level: nat) {
    && IsLevel(p1, p0, locals, level) && level >= config.accountSlots
    && (Total(p1) <= config.globalSlots || level == config.accountSlots)
    && Tight(p0, locals, level, config.globalSlots)
  }

  /** Exactly the excess of the queue is gone, or everything that is not local. */
  ghost predicate Truncates(config: Config, locals: set<Addr>, beats: map<Addr, nat>, q0: Lists, q1: Lists) {
    && (Total(q0) <= config.globalQueue ==> q1 == q0)
    && (Total(q0) > config.globalQueue ==>
          Total(q1) == config.globalQueue || (Total(q1) > config.globalQueue && forall a :: a in q1 ==> a in locals))
    && exists todo, partial :: Trimming(q0, q1, locals, beats, todo, partial)
  }

  /** When the oldest go first: see OldestFirstIff. */
  ghost predicate TakesOldest(config: Config, locals: set<Addr>, beats: map<Addr, nat>, q0: Lists) {
    || Total(q0) <= config.globalQueue
    || Total(q0) - config.globalQueue >= Total(Others(q0, locals))
    || OneBeat(q0, locals, beats)
  }

  lemma TruncatesOldest(config: Config, locals: set<Addr>, beats: map<Addr, nat>, q0: Lists, q1: Lists)
    requires Truncates(config, locals, beats, q0, q1) && ListsOk(q1, false)
    ensures OldestFirst(q0, q1, locals, beats) <==> TakesOldest(config, locals, beats, q0)
  {
    var todo, partial :| Trimming(q0, q1, locals, beats, todo, partial);
    OldestFirstIff(q0, q1, locals, beats, todo, partial, config.globalQueue);
  }

  /** promoteExecutables in its three phases, with `mid` after the first. */
  ghost predicate PromotesVia(config: Config, head: Head, now: nat, s0: Snap, mid: Snap, s1: Snap, level: nat,
                              accounts: seq<Addr>) {
    match mid case Snap(pending, queue, nonces, beats, locals, _) =>
      && Promotion(head, config.accountQueue, now, s0, mid, accounts)
      && LevelsOff(config, locals, pending, s1.pending, level)
      && Shrunk(head, pending, nonces, s1.pending, s1.nonces)
      && Truncates(config, locals, beats, queue, s1.queue)
      && s1.beats == beats && s1.locals == locals
      && Sane(mid) && s1.all <= mid.all <= s0.all
  }

  /** promoteExecutables for a set of accounts, in some order. */
  ghost predicate Promotes(config: Config, head: Head, now: nat, s0: Snap, s1: Snap, accounts: set<Addr>) {
    exists order, mid, level: nat {:trigger PromotesVia(config, head, now, s0, mid, s1, level, order)} ::
      Distinct(order) && Members(order) == accounts && PromotesVia(config, head, now, s0, mid, s1, level, order)
  }

  /** The accounts are promoted, if there are any. */
  ghost predicate Settles(config: Config, head: Head, now: nat, s0: Snap, s1: Snap, dirty: set<Addr>) {
    if dirty == {} then s1 == s0 else Promotes(config, head, now, s0, s1, dirty)
  }

  /** After the promotion of every account that was not idle, all are. */
  lemma PromotedIdle(head: Head, limit: nat, now: nat, s0: Snap, mid: Snap, q1: Lists, n1: map<Addr, nat>, accounts: seq<Addr>)
    requires Promotion(head, limit, now, s0, mid, accounts) && StaysIdle(head, mid.queue, mid.nonces, q1, n1)
    requires Runs(head, s0.pending, s0.nonces)
    requires Waiting(head, s0.queue, s0.nonces, Members(accounts))
    ensures Idle(head, q1, n1)
  {
    forall a ensures IdleAt(head, q1, n1, a) {
      if a in accounts {
        assert PromotedAt(head, limit, true, mid, a);
      } else {
        assert UntouchedAt(s0, mid, a) && IdleAt(head, s0.queue, s0.nonces, a);
      }
      assert IdleAt(head, mid.queue, mid.nonces, a);
    }
  }

  lemma OnlyThere(s1: Snap, s2: Snap, a: Addr, nonce: nat, beat: nat)
    requires OnlyAt(s1.pending, s2.pending, a) && OnlyAt(s1.queue, s2.queue, a) && s2.locals == s1.locals
    requires s2.nonces == s1.nonces || s2.nonces == s1.nonces[a := nonce]
    requires s2.beats == s1.beats || s2.beats == s1.beats[a := beat]
    ensures Elsewhere(s1, s2, a)
  {
    forall b | b != a ensures UntouchedAt(s1, s2, b) {
      assert SameAt(s1.pending, s2.pending, b) && SameAt(s1.queue, s2.queue, b);
    }
  }

  lemma TruncatedLocals(config: Config, locals: set<Addr>, beats: map<Addr, nat>, q0: Lists, q1: Lists)
    requires Truncates(config, locals, beats, q0, q1)
    ensures forall a {:trigger a in locals} :: a in locals ==> SameAt(q0, q1, a)
  {
    var todo, partial :| Trimming(q0, q1, locals, beats, todo, partial);
    LocalQueues(q0, q1, locals, beats, todo, partial);
  }

  // ----- Additions in a row -----

  lemma ReplacedPlaces(p0: Lists, p1: Lists, tx: Tx)
    requires OnlyAt(p0, p1, tx.from) && tx.nonce in Of(p0, tx.from)
    requires Of(p1, tx.from) == Of(p0, tx.from)[tx.nonce := tx]
    ensures SamePlaces(p0, p1)
  {
    forall a ensures KeysAt(p0, p1, a) {
      if a != tx.from { assert SameAt(p0, p1, a); }
    }
  }

  /** A queued transaction lets only its own account have executable ones queued, unless it
      took a queued one's place. */
  lemma QueuedIdle(head: Head, q0: Lists, q1: Lists, nonces: map<Addr, nat>, a: Addr, but: set<Addr>)
    requires OnlyAt(q0, q1, a) && (a !in but ==> KeysAt(q0, q1, a))
    ensures IdleBut(head, q0, nonces, q1, nonces, but)
  {
    forall b | IdleAt(head, q0, nonces, b) && b !in but ensures IdleAt(head, q1, nonces, b) {
      if b != a { assert SameAt(q0, q1, b); } else { assert Virtual(head, nonces, b) !in Of(q0, b).Keys; }
    }
  }

  /** What an addition does to the transactions that were pending; with the lookup this tells
      every account's lists. */
  ghost predicate Bystanders(g: Gate, s0: Snap, s1: Snap, gone: set<Tx>) {
    && Sane(s1) && CutShort(s0.pending, s1.pending, gone) && BeatsCut(s0.pending, s0.beats, s1.pending, s1.beats)
    && Shrunk(g.head, s0.pending, s0.nonces, s1.pending, s1.nonces)
  }

  /** One addition: the verdict, the lookup, who is pending, and who became local. An account is
      marked as local only when its transaction goes to the queue. */
  ghost predicate Outcome(g: Gate, s0: Snap, s1: Snap, tx: Tx, local: bool, gone: set<Tx>, err: Option<Error>) {
    match err
    case Some(_) =>
      && Verdict(g, s0.locals, s0.all, tx, local, gone, err) && Bystanders(g, s0, s1, gone)
      && s1.all == s0.all - gone && s1.locals == s0.locals && (gone == {} ==> s1 == s0)
    case None =>
      && Verdict(g, s0.locals, s0.all, tx, local, gone, err) && Bystanders(g, s0, s1, gone)
      && s1.all == s0.all - gone - Rival(s0.all - gone, tx) + {tx}
      && s1.locals == s0.locals + (if local && !StillPending(Of(s0.pending, tx.from), gone, tx.from, tx.nonce)
                                   then {tx.from} else {})
  }

  /** Exactly the accounts with pending transactions have a heartbeat. */
  ghost predicate Beating(s: Snap) {
    forall a {:trigger BeatsOn(s, a)} :: BeatsOn(s, a)
  }

  predicate BeatsOn(s: Snap, a: Addr) { a in s.beats <==> a in s.pending }

  /** What every run from an empty pool keeps besides soundness. */
  ghost predicate Steady(capacity: nat, s: Snap) { Uncrowded(capacity, s.all, s.locals) && Beating(s) }

  lemma CutBeating(s0: Snap, s1: Snap, gone: set<Tx>)
    requires Sane(s0) && Sane(s1) && Beating(s0) && CutShort(s0.pending, s1.pending, gone)
    requires BeatsCut(s0.pending, s0.beats, s1.pending, s1.beats)
    ensures Beating(s1)
  {
    forall a ensures BeatsOn(s1, a) {
      assert BeatsOn(s0, a) && BeatsAt(s0.pending, s0.beats, s1.pending, s1.beats, a);
      assert ListAt(s0.pending, true, a) && ListAt(s1.pending, true, a);
      if a in s1.pending {
        var n :| n in Of(s1.pending, a);
        assert ShortAt(s0.pending, s1.pending, gone, a, n);
      }
    }
  }

  lemma OutcomeSteady(g: Gate, s0: Snap, s1: Snap, tx: Tx, local: bool, gone: set<Tx>, err: Option<Error>)
    requires Outcome(g, s0, s1, tx, local, gone, err) && Sane(s0) && Steady(g.capacity, s0)
    ensures Steady(g.capacity, s1)
  {
    CutBeating(s0, s1, gone);
    if Enters(g, s0.locals, s0.all, tx, local) {
      AdditionUncrowded(s0.all, s0.locals, tx, gone, s1.all, s1.locals, g.capacity);
    } else {
      assert s1.all == s0.all;
    }
  }

  lemma PromotedBeatsOn(head: Head, limit: nat, now: nat, s0: Snap, mid: Snap, a: Addr)
    requires ListsOk(s0.pending, true) && BeatsOn(s0, a)
    requires PromotedTo(head, limit, now, s0, mid, a) || UntouchedAt(s0, mid, a)
    ensures a in mid.beats <==> Of(mid.pending, a) != map[]
  {
    assert ListAt(s0.pending, true, a);
    if a in s0.queue && !UntouchedAt(s0, mid, a) {
      var fit := Eligible(head, s0.queue[a], a).items;
      var e := ReadyEnd(fit, Virtual(head, s0.nonces, a));
      var up := Below(fit, e);
      assert At(mid, a).pending == At(s0, a).pending + up;
      if up != map[] {
        var n :| n in up;
        assert n in Of(mid.pending, a);
      } else {
        assert At(s0, a).pending + up == At(s0, a).pending;
      }
    }
  }

  lemma PromotesBeating(config: Config, head: Head, now: nat, s0: Snap, s1: Snap, accounts: set<Addr>)
    requires Promotes(config, head, now, s0, s1, accounts) && Sane(s0) && Sane(s1) && Beating(s0)
    ensures Beating(s1)
  {
    var order, mid, level: nat :| Distinct(order) && Members(order) == accounts
                                  && PromotesVia(config, head, now, s0, mid, s1, level, order);
    forall a ensures BeatsOn(s1, a) {
      assert BeatsOn(s0, a);
      assert a in order ==> PromotedTo(head, config.accountQueue, now, s0, mid, a);
      assert a !in order ==> UntouchedAt(s0, mid, a);
      PromotedBeatsOn(head, config.accountQueue, now, s0, mid, a);
      LevelPlaces(config, mid.locals, mid.pending, s1.pending, level, a);
    }
  }

  lemma LevelPlaces(config: Config, locals: set<Addr>, p0: Lists, p1: Lists, level: nat, a: Addr)
    requires LevelsOff(config, locals, p0, p1, level) && ListsOk(p1, true)
    ensures a in p1 <==> Of(p0, a) != map[]
  {
    assert CutAt(p1, p0, locals, level, a) && ListAt(p1, true, a);
    if a in p1 {
      CutPart(p0[a].items, level);
      var n :| n in Of(p1, a);
      assert n in Of(p0, a);
    }
  }

  lemma SettlesSteady(config: Config, head: Head, now: nat, s0: Snap, s1: Snap, dirty: set<Addr>, capacity: nat)
    requires Settles(config, head, now, s0, s1, dirty) && Sane(s0) && Sane(s1) && s1.all <= s0.all && Steady(capacity, s0)
    ensures Steady(capacity, s1)
  {
    if dirty != {} {
      PromotesBeating(config, head, now, s0, s1, dirty);
      UncrowdedShrinks(capacity, s0.all, s1.all, s0.locals);
    }
  }

  lemma Refused(g: Gate, s: Snap, tx: Tx, local: bool, err: Option<Error>)
    requires err.Some? && Verdict(g, s.locals, s.all, tx, local, {}, err) && Sane(s)
    ensures Outcome(g, s, s, tx, local, {}, err)
  {
    CutShortStarts(s.pending);
    ShrunkStarts(g.head, s.pending, s.nonces);
    assert s.all - {} == s.all;
  }

  /** The state once room was made, if the pool was full. */
  ghost predicate Roomed(g: Gate, s0: Snap, s1: Snap, gone: set<Tx>) {
    match s0 case Snap(pending, queue, nonces, beats, locals, all) =>
      && (if |all| >= g.capacity then Discarded(all, locals, gone, |all| - g.capacity + 1) else gone == {})
      && s1.all == all - gone && s1.locals == locals
      && CutShort(pending, s1.pending, gone) && BeatsCut(pending, beats, s1.pending, s1.beats)
      && Shrunk(g.head, pending, nonces, s1.pending, s1.nonces)
      && (gone == {} ==> s1 == s0)
  }

  lemma NoRoomNeeded(g: Gate, s: Snap)
    requires |s.all| < g.capacity
    ensures Roomed(g, s, s, {})
  {
    CutShortStarts(s.pending);
    ShrunkStarts(g.head, s.pending, s.nonces);
  }

  /** The second half of add. */
  ghost predicate Inserted(g: Gate, s0: Snap, s1: Snap, tx: Tx, local: bool, err: Option<Error>) {
    match s0 case Snap(pending, queue, nonces, beats, locals, all) =>
      && err == (if Outbid(all, tx, g.bump) then None else Some(ReplaceUnderpriced))
      && (err.Some? ==> s1 == s0)
      && (err.None? ==> s1.all == all - Rival(all, tx) + {tx})
      && s1.locals == locals + (if err.None? && local && tx.nonce !in Of(pending, tx.from) then {tx.from} else {})
      && SamePlaces(pending, s1.pending) && s1.nonces == nonces && s1.beats == beats
  }

  lemma VerdictIs(g: Gate, s0: Snap, mid: Snap, s1: Snap, tx: Tx, local: bool, gone: set<Tx>, err: Option<Error>)
    requires Enters(g, s0.locals, s0.all, tx, local) && Roomed(g, s0, mid, gone) && Inserted(g, mid, s1, tx, local, err)
    ensures Verdict(g, s0.locals, s0.all, tx, local, gone, err) && s1.all == Afterwards(s0.all, tx, gone, err)
  {
  }

  lemma Arrived(g: Gate, s0: Snap, mid: Snap, s1: Snap, tx: Tx, local: bool, gone: set<Tx>, err: Option<Error>)
    requires Enters(g, s0.locals, s0.all, tx, local) && Roomed(g, s0, mid, gone) && Inserted(g, mid, s1, tx, local, err)
    requires Sane(s1)
    ensures Outcome(g, s0, s1, tx, local, gone, err)
  {
    VerdictIs(g, s0, mid, s1, tx, local, gone, err);
    PlacesKept(g.head, s0.pending, s0.nonces, s0.beats, mid.pending, mid.nonces, mid.beats, s1.pending, gone);
    assert ShortAt(s0.pending, mid.pending, gone, tx.from, tx.nonce);
  }

  ghost predicate Fresh(s0: Snap, tx: Tx, gone: set<Tx>, err: Option<Error>) {
    err.None? && Rival(s0.all - gone, tx) == {}
  }

  ghost predicate AddedAt(g: Gate, trail: seq<Snap>, gones: seq<set<Tx>>, txs: seq<Tx>, local: bool,
                          errs: seq<Option<Error>>, i: nat)
    requires |txs| >= |errs| == |gones| && |trail| == |errs| + 1
  {
    i < |errs| ==> Outcome(g, trail[i], trail[i + 1], txs[i], local, gones[i], errs[i])
  }

  /** A batch, one transaction after the other. */
  ghost predicate Trail(g: Gate, trail: seq<Snap>, gones: seq<set<Tx>>, txs: seq<Tx>, local: bool,
                        errs: seq<Option<Error>>) {
    && |txs| >= |errs| == |gones| && |trail| == |errs| + 1
    && forall i {:trigger AddedAt(g, trail, gones, txs, local, errs, i)} :: AddedAt(g, trail, gones, txs, local, errs, i)
  }

  /** The senders of the transactions that replaced nothing. */
  ghost function Dirty(trail: seq<Snap>, gones: seq<set<Tx>>, txs: seq<Tx>, errs: seq<Option<Error>>): set<Addr>
    requires |txs| >= |errs| == |gones| && |trail| == |errs| + 1
  {
    set i | 0 <= i < |errs| && Fresh(trail[i], txs[i], gones[i], errs[i]) :: txs[i].from
  }

  lemma TrailGrows(g: Gate, trail: seq<Snap>, gones: seq<set<Tx>>, txs: seq<Tx>, local: bool,
                   errs: seq<Option<Error>>, s: Snap, gone: set<Tx>, err: Option<Error>)
    requires Trail(g, trail, gones, txs, local, errs) && |errs| < |txs|
    requires Outcome(g, trail[|errs|], s, txs[|errs|], local, gone, err)
    ensures Trail(g, trail + [s], gones + [gone], txs, local, errs + [err])
    ensures Dirty(trail + [s], gones + [gone], txs, errs + [err]) ==
              Dirty(trail, gones, txs, errs) + (if Fresh(trail[|errs|], txs[|errs|], gone, err) then {txs[|errs|].from} else {})
  {
    var n, trail', gones', errs' := |errs|, trail + [s], gones + [gone], errs + [err];
    forall i: nat ensures AddedAt(g, trail', gones', txs, local, errs', i) {
      if i < n { assert AddedAt(g, trail, gones, txs, local, errs, i); }
    }
    DirtyGrows(trail, gones, txs, errs, s, gone, err);
  }

  lemma DirtyGrows(trail: seq<Snap>, gones: seq<set<Tx>>, txs: seq<Tx>, errs: seq<Option<Error>>, s: Snap,
                   gone: set<Tx>, err: Option<Error>)
    requires |txs| > |errs| == |gones| && |trail| == |errs| + 1
    ensures Dirty(trail + [s], gones + [gone], txs, errs + [err]) ==
              Dirty(trail, gones, txs, errs) + (if Fresh(trail[|errs|], txs[|errs|], gone, err) then {txs[|errs|].from} else {})
  {
    var n, trail', gones', errs' := |errs|, trail + [s], gones + [gone], errs + [err];
    var senders := if Fresh(trail[n], txs[n], gone, err) then {txs[n].from} else {};
    forall a ensures a in Dirty(trail', gones', txs, errs') <==> a in Dirty(trail, gones, txs, errs) + senders {
      if a in Dirty(trail, gones, txs, errs) {
        var i :| 0 <= i < n && Fresh(trail[i], txs[i], gones[i], errs[i]) && txs[i].from == a;
        assert Fresh(trail'[i], txs[i], gones'[i], errs'[i]);
      }
      if a in senders { assert Fresh(trail'[n], txs[n], gones'[n], errs'[n]); }
    }
  }

  /** addTxsLocked: the additions, then one promotion if any of them replaced nothing. */
  ghost predicate Batch(config: Config, g: Gate, now: nat, txs: seq<Tx>, local: bool, trail: seq<Snap>,
                        gones: seq<set<Tx>>, errs: seq<Option<Error>>, s: Snap) {
    match g case Gate(head, _, _, _) =>
      && Trail(g, trail, gones, txs, local, errs) && |errs| == |txs|
      && Settles(config, head, now, trail[|txs|], s, Dirty(trail, gones, txs, errs))
  }

  // ----- demoteUnexecutables -----

  /** The account's lists once the old and unpayable are gone and what they invalidate, or a
      missing first nonce, went back to the queue. */
  ghost predicate DemotedTo(head: Head, s0: Snap, s1: Snap, a: Addr) {
    if a !in s0.pending then
      SameAt(s0.pending, s1.pending, a) && SameAt(s0.queue, s1.queue, a) && Entry(s0.beats, a) == Entry(s1.beats, a)
    else
      var forward := s0.pending[a].(items := From(Of(s0.pending, a), head.nonce(a)));
      var pay := Payable(forward.items, head.balance(a), head.maxGas);
      var left := Filtered(forward, head.balance(a), head.maxGas).items;
      var kept := if head.nonce(a) in left then left else map[];
      && Of(s1.pending, a) == kept && Of(s1.queue, a) == Of(s0.queue, a) + (pay - kept.Keys)
      && (if kept == map[] then a !in s1.beats else Entry(s0.beats, a) == Entry(s1.beats, a))
  }

  predicate ListsSameAt(s0: Snap, s1: Snap, a: Addr) {
    SameAt(s0.pending, s1.pending, a) && SameAt(s0.queue, s1.queue, a) && Entry(s0.beats, a) == Entry(s1.beats, a)
  }

  ghost predicate DemotedBut(head: Head, s0: Snap, s1: Snap, todo: set<Addr>) {
    && (forall a {:trigger ListsSameAt(s0, s1, a)} :: a in todo ==> ListsSameAt(s0, s1, a))
    && (forall a {:trigger DemotedTo(head, s0, s1, a)} :: a !in todo ==> DemotedTo(head, s0, s1, a))
  }

  lemma DemotedStarts(head: Head, s: Snap)
    ensures DemotedBut(head, s, s, s.pending.Keys)
  {
  }

  lemma DemotedTwice(head: Head, s0: Snap, s1: Snap, s2: Snap, a: Addr)
    ensures DemotedTo(head, s0, s1, a) && ListsSameAt(s1, s2, a) ==> DemotedTo(head, s0, s2, a)
    ensures ListsSameAt(s0, s1, a) && DemotedTo(head, s1, s2, a) ==> DemotedTo(head, s0, s2, a)
  {
  }

  lemma DemotedStep(head: Head, s0: Snap, s1: Snap, s2: Snap, todo: set<Addr>, a: Addr)
    requires DemotedBut(head, s0, s1, todo) && a in todo && DemotedTo(head, s1, s2, a)
    requires forall b {:trigger ListsSameAt(s1, s2, b)} :: b != a ==> ListsSameAt(s1, s2, b)
    ensures DemotedBut(head, s0, s2, todo - {a})
  {
    forall b | b in todo - {a} ensures ListsSameAt(s0, s2, b) {
      assert ListsSameAt(s0, s1, b) && ListsSameAt(s1, s2, b);
    }
    forall b | b !in todo - {a} ensures DemotedTo(head, s0, s2, b) {
      DemotedTwice(head, s0, s1, s2, b);
      if b == a {
        assert ListsSameAt(s0, s1, a);
      } else {
        assert ListsSameAt(s1, s2, b) && DemotedTo(head, s0, s1, b);
      }
    }
  }

  /** The virtual nonce is one past the last pending nonce, if there is any. */
  ghost predicate FollowedAt(pending: Lists, n0: map<Addr, nat>, n1: map<Addr, nat>, a: Addr) {
    if Of(pending, a) != map[] then a in n1 && n1[a] == Greatest(Of(pending, a).Keys) + 1 else Entry(n0, a) == Entry(n1, a)
  }

  /** Demotion under a new head, and the virtual nonces that follow. */
  ghost predicate Demotion(head: Head, s0: Snap, s1: Snap) {
    match s0 case Snap(_, _, nonces, _, locals, _) =>
    && s1.locals == locals
    && (forall a {:trigger DemotedTo(head, s0, s1, a)} :: DemotedTo(head, s0, s1, a))
    && (forall a {:trigger FollowedAt(s1.pending, nonces, s1.nonces, a)} :: FollowedAt(s1.pending, nonces, s1.nonces, a))
  }

  lemma Followed(head: Head, pending: Lists, nonces: map<Addr, nat>)
    requires forall a {:trigger SettledAt(head, pending, a)} :: SettledAt(head, pending, a)
    requires forall a {:trigger FollowedAt(pending, map[], nonces, a)} :: FollowedAt(pending, map[], nonces, a)
    ensures Runs(head, pending, nonces)
  {
    forall a ensures FollowsAt(pending, nonces, a) { assert FollowedAt(pending, map[], nonces, a); }
    SettledRuns(head, pending, nonces);
  }

  /** No gap in what is pending; with nothing pending, no virtual nonce from before. */
  ghost predicate GaplessAt(head: Head, pending: Lists, n0: map<Addr, nat>, a: Addr) {
    var p := Of(pending, a);
    if p == map[] then Virtual(head, n0, a) == head.nonce(a)
    else forall n :: head.nonce(a) <= n <= Greatest(p.Keys) ==> n in p
  }

  ghost predicate Gapless(head: Head, pending: Lists, n0: map<Addr, nat>) {
    forall a {:trigger GaplessAt(head, pending, n0, a)} :: GaplessAt(head, pending, n0, a)
  }

  /** What is still pending is payable and starts at the head's nonce. */
  lemma DemotedFits(head: Head, s0: Snap, s1: Snap, a: Addr)
    requires ListsOk(s0.pending, true) && DemotedTo(head, s0, s1, a)
    ensures var p := Of(s1.pending, a);
      forall n :: n in p ==> head.nonce(a) in p && n >= head.nonce(a) && !Over(p[n], head.balance(a), head.maxGas)
  {
    if a in s0.pending {
      assert ListAt(s0.pending, true, a);
      var forward := s0.pending[a].(items := From(Of(s0.pending, a), head.nonce(a)));
      PartOk(s0.pending[a], a, true, forward.items);
      FilterExact(forward, head.balance(a), head.maxGas);
    }
  }

  lemma DemotedRunsAt(head: Head, s0: Snap, s1: Snap, a: Addr)
    requires ListsOk(s0.pending, true) && DemotedTo(head, s0, s1, a) && FollowedAt(s1.pending, s0.nonces, s1.nonces, a)
    ensures RunsAt(head, s1.pending, s1.nonces, a) <==> GaplessAt(head, s1.pending, s0.nonces, a)
  {
    var p, s, v := Of(s1.pending, a), head.nonce(a), Virtual(head, s1.nonces, a);
    DemotedFits(head, s0, s1, a);
    if p == map[] {
      if v > s { assert !RunAt(p, s, v, head.balance(a), head.maxGas, s); }
    } else if GaplessAt(head, s1.pending, s0.nonces, a) {
      assert s in p;
    } else {
      var n :| s <= n <= Greatest(p.Keys) && n !in p;
      assert !RunAt(p, s, v, head.balance(a), head.maxGas, n);
    }
  }

  /** After a demotion the pending transactions can be executed in nonce order if and only if
      no account has a gap. */
  lemma DemotedRuns(head: Head, s0: Snap, s1: Snap)
    requires ListsOk(s0.pending, true) && Demotion(head, s0, s1)
    ensures Runs(head, s1.pending, s1.nonces) <==> Gapless(head, s1.pending, s0.nonces)
  {
    forall a ensures RunsAt(head, s1.pending, s1.nonces, a) <==> GaplessAt(head, s1.pending, s0.nonces, a) {
      assert DemotedTo(head, s0, s1, a) && FollowedAt(s1.pending, s0.nonces, s1.nonces, a);
      DemotedRunsAt(head, s0, s1, a);
    }
    assert forall a :: RunsAt(head, s1.pending, s1.nonces, a) <==> GaplessAt(head, s1.pending, s0.nonces, a);
  }

  /** Virtual nonces play no part in what the lists become. */
  lemma Redirected(head: Head, s0: Snap, s1: Snap, s2: Snap)
    requires forall a {:trigger DemotedTo(head, s0, s1, a)} :: DemotedTo(head, s0, s1, a)
    requires s1.nonces == s0.nonces && s1.locals == s0.locals && s2 == s1.(nonces := s2.nonces)
    requires forall a {:trigger FollowedAt(s1.pending, s0.nonces, s2.nonces, a)} :: FollowedAt(s1.pending, s0.nonces, s2.nonces, a)
    ensures Demotion(head, s0, s2)
  {
    forall a ensures DemotedTo(head, s0, s2, a) {
      DemotedTwice(head, s0, s1, s2, a);
      assert DemotedTo(head, s0, s1, a) && ListsSameAt(s1, s2, a);
    }
  }

  lemma NoneElsewhere(head: Head, queue: Lists, nonces: map<Addr, nat>)
    ensures Waiting(head, queue, nonces, queue.Keys)
  {
  }

  lemma EmptyBatch(config: Config, g: Gate, now: nat, local: bool, trail: seq<Snap>, gones: seq<set<Tx>>,
                   errs: seq<Option<Error>>, s: Snap)
    requires Batch(config, g, now, [], local, trail, gones, errs, s)
    ensures s == trail[0]
  {
    assert Dirty(trail, gones, [], errs) == {};
  }

  lemma DemotionSteady(head: Head, s0: Snap, s1: Snap, capacity: nat)
    requires Demotion(head, s0, s1) && Sane(s0) && Sane(s1) && s1.all <= s0.all && Steady(capacity, s0)
    ensures Steady(capacity, s1)
  {
    UncrowdedShrinks(capacity, s0.all, s1.all, s0.locals);
    forall a ensures BeatsOn(s1, a) {
      assert BeatsOn(s0, a) && DemotedTo(head, s0, s1, a);
      assert ListAt(s0.pending, true, a) && ListAt(s1.pending, true, a);
    }
  }
}
