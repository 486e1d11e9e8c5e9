/** core/blockchain.go: fork choice, reorganisation and the transaction lookup. */
module BlockChain {
  import opened Chain

  type Tx = nat
  datatype Entry = Entry(hash: Hash, number: nat, index: nat)
  type Bodies = map<Key, seq<Tx>>
  type Lookup = map<Tx, Entry>

  datatype Block = Block(header: Header, txs: seq<Tx>)
  datatype Option<T> = None | Some(value: T)

  function Elems(s: seq<Tx>): set<Tx> { set x | x in s }

  /** The transactions on the path from the genesis to a block. */
  ghost function TxsTo(headers: Store, bodies: Bodies, k: Key): set<Tx>
    decreases k.number
  {
    (if k in bodies then Elems(bodies[k]) else {})
    + if k.number == 0 || k !in headers then {} else TxsTo(headers, bodies, Key(headers[k].parent, k.number - 1))
  }

  /** A transaction occurs at most once on a path: not twice in the block, and not
      below it. */
  ghost predicate Once(headers: Store, bodies: Bodies, k: Key)
    requires k in headers
  {
    k in bodies && (forall i, j :: 0 <= i < j < |bodies[k]| ==> bodies[k][i] != bodies[k][j])
    && (k.number > 0 ==> Elems(bodies[k]) !! TxsTo(headers, bodies, Key(headers[k].parent, k.number - 1)))
  }

  ghost predicate AllOnce(headers: Store, bodies: Bodies) {
    bodies.Keys == headers.Keys
    && forall k {:trigger Once(headers, bodies, k)} :: k in headers ==> Once(headers, bodies, k)
  }

  ghost predicate Injective(headers: Store) {
    forall k, q {:trigger SameHash(headers, k, q)} :: SameHash(headers, k, q) ==> k == q
  }

  ghost predicate SameHash(headers: Store, k: Key, q: Key) {
    k in headers && q in headers && k.hash == q.hash
  }

  /** The entry names a block of the index up to `limit` and the position in it. */
  ghost predicate Located(canon: Index, bodies: Bodies, limit: nat, tx: Tx, e: Entry) {
    && e.number <= limit && e.number in canon && canon[e.number] == e.hash
    && Key(e.hash, e.number) in bodies
    && e.index < |bodies[Key(e.hash, e.number)]| && bodies[Key(e.hash, e.number)][e.index] == tx
  }

  /** The lookup covers a path and is right about it. */
  ghost predicate Covers(headers: Store, bodies: Bodies, canon: Index, lookup: Lookup, head: Header) {
    forall tx :: tx in TxsTo(headers, bodies, KeyOf(head)) ==>
      tx in lookup && Located(canon, bodies, head.number, tx, lookup[tx])
  }

  /** The blocks of a chain from `top` down to just above `bottom`. */
  ghost predicate Down(headers: Store, chain: seq<Header>, top: Header, bottom: Header) {
    if chain == [] then top == bottom
    else
      var h := chain[|chain| - 1];
      && KeyOf(h) in headers && headers[KeyOf(h)] == h
      && h.number == bottom.number + 1 && h.parent == bottom.hash
      && Down(headers, chain[..|chain| - 1], top, h)
  }

  ghost function TxsOf(bodies: Bodies, chain: seq<Header>): set<Tx> {
    if chain == [] then {}
    else
      var h := chain[|chain| - 1];
      TxsOf(bodies, chain[..|chain| - 1]) + if KeyOf(h) in bodies then Elems(bodies[KeyOf(h)]) else {}
  }

  /** One parent link down a path. */
  lemma OneDown(headers: Store, bodies: Bodies, tds: Tds, genesis: Header, h: Header)
    requires Tree(headers, tds, genesis) && AllOnce(headers, bodies)
    requires KeyOf(h) in headers && headers[KeyOf(h)] == h && h.number > 0
    ensures var k := Key(h.parent, h.number - 1);
            && k in headers && KeyOf(headers[k]) == k && KeyOf(h) in bodies
            && TxsTo(headers, bodies, KeyOf(h)) == TxsTo(headers, bodies, k) + Elems(bodies[KeyOf(h)])
            && TxsTo(headers, bodies, k) !! Elems(bodies[KeyOf(h)])
  {
    var k := Key(h.parent, h.number - 1);
    assert Linked(headers, tds, genesis, KeyOf(h)) && Once(headers, bodies, KeyOf(h));
    assert Linked(headers, tds, genesis, k);
  }

  lemma {:induction false} ChainTxs(headers: Store, bodies: Bodies, tds: Tds, genesis: Header,
                                    chain: seq<Header>, top: Header, bottom: Header)
    requires Tree(headers, tds, genesis) && AllOnce(headers, bodies) && Down(headers, chain, top, bottom)
    ensures TxsTo(headers, bodies, KeyOf(top)) == TxsTo(headers, bodies, KeyOf(bottom)) + TxsOf(bodies, chain)
  {
    if chain != [] {
      var h := chain[|chain| - 1];
      ChainTxs(headers, bodies, tds, genesis, chain[..|chain| - 1], top, h);
      OneDown(headers, bodies, tds, genesis, h);
    }
  }

  /** types.TxDifference */
  method TxDifference(a: seq<Tx>, b: seq<Tx>) returns (keep: seq<Tx>, ghost at: seq<nat>)
    ensures Kept(a, b, |a|, keep, at) && Elems(keep) == Elems(a) - Elems(b)
  {
    var remove := Elems(b);
    keep, at := [], [];
    for i := 0 to |a|
      invariant Kept(a, b, i, keep, at) && Elems(keep) == Elems(a[..i]) - Elems(b)
    {
      assert Elems(a[..i + 1]) == Elems(a[..i]) + {a[i]};
      if a[i] !in remove {
        assert Elems(keep + [a[i]]) == Elems(keep) + {a[i]};
        keep, at := keep + [a[i]], at + [i];
      }
    }
    assert a[..|a|] == a;
  }

  /** `keep` holds, in order, the elements of `a` at the positions `at`, which are exactly
      the positions below `n` whose transaction is not in `b`. */
  ghost predicate Kept(a: seq<Tx>, b: seq<Tx>, n: nat, keep: seq<Tx>, at: seq<nat>) {
    && n <= |a| && |keep| == |at|
    && (forall i :: 0 <= i < |at| ==> at[i] < n && keep[i] == a[at[i]])
    && (forall i, j :: 0 <= i < j < |at| ==> at[i] < at[j])
    && (forall k: nat :: k < n ==> (k in at <==> a[k] !in b))
  }

  lemma {:induction false} TxsMonotone(headers: Store, bodies: Bodies, tds: Tds, genesis: Header, canon: Index,
                                       lo: nat, hi: nat)
    requires Tree(headers, tds, genesis) && AllOnce(headers, bodies) && lo <= hi && Path(headers, canon, lo, hi)
    ensures On(headers, canon, lo) && On(headers, canon, hi)
    ensures TxsTo(headers, bodies, Key(canon[lo], lo)) <= TxsTo(headers, bodies, Key(canon[hi], hi))
    decreases hi
  {
    assert On(headers, canon, lo) && On(headers, canon, hi);
    if lo < hi {
      TxsMonotone(headers, bodies, tds, genesis, canon, lo, hi - 1);
      assert Steps(headers, canon, hi - 1);
      assert Linked(headers, tds, genesis, Key(canon[hi], hi));
      OneDown(headers, bodies, tds, genesis, headers[Key(canon[hi], hi)]);
    }
  }

  /** An entry for a transaction at or below `low` names a block at or below it. */
  lemma LocatedLow(headers: Store, bodies: Bodies, tds: Tds, genesis: Header, canon: Index,
                   low: nat, high: nat, tx: Tx, e: Entry)
    requires Tree(headers, tds, genesis) && AllOnce(headers, bodies) && low <= high && Path(headers, canon, 0, high)
    requires On(headers, canon, low) && tx in TxsTo(headers, bodies, Key(canon[low], low))
    requires Located(canon, bodies, high, tx, e)
    ensures Located(canon, bodies, low, tx, e)
  {
    var n := e.number;
    if low < n {
      assert Path(headers, canon, low, n - 1);
      TxsMonotone(headers, bodies, tds, genesis, canon, low, n - 1);
      assert Steps(headers, canon, n - 1) && On(headers, canon, n);
      assert Linked(headers, tds, genesis, Key(canon[n], n));
      OneDown(headers, bodies, tds, genesis, headers[Key(canon[n], n)]);
    }
  }

  /** A transaction has at most one place on an indexed path. */
  lemma OnePlace(headers: Store, bodies: Bodies, tds: Tds, genesis: Header, canon: Index, head: Header,
                 tx: Tx, e: Entry, f: Entry)
    requires Tree(headers, tds, genesis) && AllOnce(headers, bodies) && Canonical(headers, canon, head)
    requires Located(canon, bodies, head.number, tx, e) && Located(canon, bodies, head.number, tx, f)
    ensures e == f
  {
    var lo, hi := if e.number <= f.number then e else f, if e.number <= f.number then f else e;
    assert On(headers, canon, lo.number) && On(headers, canon, hi.number);
    assert Once(headers, bodies, Key(canon[lo.number], lo.number));
    if lo.number < hi.number {
      assert tx in TxsTo(headers, bodies, Key(canon[lo.number], lo.number));
      LocatedLow(headers, bodies, tds, genesis, canon, lo.number, head.number, tx, hi);
    }
  }

  /** Storing more blocks does not change the transactions on stored paths. */
  lemma {:induction false} TxsGrow(headers: Store, bodies: Bodies, tds: Tds, genesis: Header,
                                   headers': Store, bodies': Bodies, k: Key)
    requires Tree(headers, tds, genesis) && bodies.Keys == headers.Keys && k in headers
    requires Extends(headers, headers') && forall q :: q in bodies ==> q in bodies' && bodies'[q] == bodies[q]
    ensures TxsTo(headers', bodies', k) == TxsTo(headers, bodies, k)
    decreases k.number
  {
    assert Linked(headers, tds, genesis, k);
    if k.number > 0 {
      TxsGrow(headers, bodies, tds, genesis, headers', bodies', Key(headers[k].parent, k.number - 1));
    }
  }

  lemma InjectiveGrows(headers: Store, h: Header)
    requires Injective(headers) && forall k :: k in headers && k.hash == h.hash ==> k == KeyOf(h)
    ensures Injective(headers[KeyOf(h) := h])
  {
    var more := headers[KeyOf(h) := h];
    forall k, q | SameHash(more, k, q) ensures k == q {
      if k != KeyOf(h) && q != KeyOf(h) { assert SameHash(headers, k, q); }
    }
  }

  lemma AllOnceGrows(headers: Store, bodies: Bodies, tds: Tds, genesis: Header, h: Header, txs: seq<Tx>)
    requires Tree(headers, tds, genesis) && AllOnce(headers, bodies) && ParentKey(h) in headers && h.number > 0
    requires KeyOf(h) !in headers
    requires forall i, j :: 0 <= i < j < |txs| ==> txs[i] != txs[j]
    requires Elems(txs) !! TxsTo(headers, bodies, ParentKey(h))
    ensures AllOnce(headers[KeyOf(h) := h], bodies[KeyOf(h) := txs])
  {
    var headers', bodies' := headers[KeyOf(h) := h], bodies[KeyOf(h) := txs];
    forall k | k in headers' ensures Once(headers', bodies', k) {
      if k == KeyOf(h) {
        TxsGrow(headers, bodies, tds, genesis, headers', bodies', ParentKey(h));
      } else {
        assert Once(headers, bodies, k) && Linked(headers, tds, genesis, k);
        if k.number > 0 {
          TxsGrow(headers, bodies, tds, genesis, headers', bodies', Key(headers[k].parent, k.number - 1));
        }
      }
    }
  }

  class BlockChain {
    var headers: Store
    var bodies: Bodies
    var tds: Tds
    var canon: Index
    var current: Header
    var lookup: Lookup
    const genesis: Header

    ghost predicate Stored()
      reads this
    {
      Tree(headers, tds, genesis) && AllOnce(headers, bodies)
    }

    ghost predicate Known(h: Header)
      reads this
    {
      KeyOf(h) in headers && headers[KeyOf(h)] == h
    }

    /** No stored block is heavier than the head, and none as heavy has a lower number. */
    ghost predicate Heaviest()
      reads this
    {
      KeyOf(current) in tds && forall k :: k in tds ==>
        tds[k] < tds[KeyOf(current)] || (tds[k] == tds[KeyOf(current)] && current.number <= k.number)
    }

    /** The index up to the head is the head's path, and the lookup holds exactly the
        transactions on it, each at its own place. */
    ghost predicate Valid()
      reads this
    {
      && Stored() && Injective(headers) && Known(current) && Canonical(headers, canon, current)
      && Covers(headers, bodies, canon, lookup, current)
      && lookup.Keys == TxsTo(headers, bodies, KeyOf(current))
    }

    constructor (g: Header, td: int)
      requires g.number == 0 && g.hash != EMPTY
      ensures Valid() && Heaviest() && current == g && genesis == g
    {
      genesis, current := g, g;
      headers, bodies, tds := map[KeyOf(g) := g], map[KeyOf(g) := []], map[KeyOf(g) := td];
      canon, lookup := map[0 := g.hash], map[];
    }

    /** GetBlock */
    function GetHeader(hash: Hash, number: nat): (r: Option<Header>)
      reads this
      ensures r.Some? <==> Key(hash, number) in headers
    {
      if Key(hash, number) in headers then Some(headers[Key(hash, number)]) else None
    }

    /** insert */
    method Insert(h: Header)
      modifies `canon, `current
      ensures canon == old(canon)[h.number := h.hash] && current == h
    {
      canon := canon[h.number := h.hash];
      current := h;
    }

    /** rawdb.WriteTxLookupEntries */
    method WriteLookup(h: Header, txs: seq<Tx>)
      modifies `lookup
      ensures lookup.Keys == old(lookup).Keys + Elems(txs)
      ensures forall tx :: tx in lookup ==>
                if tx in txs then exists i :: 0 <= i < |txs| && txs[i] == tx && lookup[tx] == Entry(h.hash, h.number, i)
                else lookup[tx] == old(lookup)[tx]
    {
      for i := 0 to |txs|
        invariant lookup.Keys == old(lookup).Keys + Elems(txs[..i])
        invariant forall tx :: tx in lookup ==>
                    if tx in txs[..i] then exists j :: 0 <= j < i && txs[j] == tx && lookup[tx] == Entry(h.hash, h.number, j)
                    else tx in old(lookup) && lookup[tx] == old(lookup)[tx]
      {
        assert txs[..i + 1] == txs[..i] + [txs[i]];
        lookup := lookup[txs[i] := Entry(h.hash, h.number, i)];
      }
      assert txs[..|txs|] == txs;
    }

    /** `o` is on the indexed path of the old head, and `deleted` holds what is above it. */
    ghost predicate OldSide(oldHead: Header, o: Header, deleted: seq<Tx>)
      reads this
    {
      && Known(o) && o.number <= oldHead.number && o.number in canon && canon[o.number] == o.hash
      && TxsTo(headers, bodies, KeyOf(oldHead)) == TxsTo(headers, bodies, KeyOf(o)) + Elems(deleted)
      && TxsTo(headers, bodies, KeyOf(o)) !! Elems(deleted)
    }

    lemma OldDown(oldHead: Header, o: Header, deleted: seq<Tx>)
      requires Stored() && Canonical(headers, canon, oldHead) && OldSide(oldHead, o, deleted) && o.number > 0
      ensures var up := GetHeader(o.parent, o.number - 1);
              up.Some? && KeyOf(o) in bodies && up.value.number == o.number - 1
              && OldSide(oldHead, up.value, deleted + bodies[KeyOf(o)])
    {
      OneDown(headers, bodies, tds, genesis, o);
      assert Steps(headers, canon, o.number - 1);
      assert Elems(deleted + bodies[KeyOf(o)]) == Elems(deleted) + Elems(bodies[KeyOf(o)]);
    }

    lemma NewDown(newHead: Header, n: Header, newChain: seq<Header>)
      requires Stored() && Known(n) && n.number > 0 && Down(headers, newChain, newHead, n)
      ensures var up := GetHeader(n.parent, n.number - 1);
              up.Some? && Known(up.value) && up.value.number == n.number - 1
              && Down(headers, newChain + [n], newHead, up.value)
    {
      OneDown(headers, bodies, tds, genesis, n);
      assert (newChain + [n])[..|newChain|] == newChain;
    }

    lemma GenesisOnly(o: Header, n: Header)
      requires Stored() && Known(o) && Known(n) && o.number == n.number == 0
      ensures o == n
    {
      assert Linked(headers, tds, genesis, KeyOf(o)) && Linked(headers, tds, genesis, KeyOf(n));
    }

    /** The first half of reorg: the higher head is walked down, then both, to a common
        block. The error returns for missing blocks are not reached. */
    method FindCommon(oldHead: Header, newHead: Header)
      returns (ok: bool, newChain: seq<Header>, deleted: seq<Tx>, common: Header)
      requires Stored() && Known(oldHead) && Known(newHead) && Canonical(headers, canon, oldHead)
      ensures ok && OldSide(oldHead, common, deleted) && Down(headers, newChain, newHead, common)
    {
      newChain, deleted := [], [];
      var o, n := Some(oldHead), Some(newHead);
      if oldHead.number > newHead.number {
        while o.Some? && o.value.number != newHead.number
          invariant o.Some? && OldSide(oldHead, o.value, deleted) && o.value.number >= newHead.number
          decreases o.value.number
        {
          OldDown(oldHead, o.value, deleted);
          deleted := deleted + bodies[KeyOf(o.value)];
          o := GetHeader(o.value.parent, o.value.number - 1);
        }
      } else {
        while n.Some? && n.value.number != oldHead.number
          invariant n.Some? && Known(n.value) && Down(headers, newChain, newHead, n.value)
          invariant n.value.number >= oldHead.number
          decreases n.value.number
        {
          NewDown(newHead, n.value, newChain);
          newChain := newChain + [n.value];
          n := GetHeader(n.value.parent, n.value.number - 1);
        }
      }
      if o.None? || n.None? {
        return false, newChain, deleted, oldHead;
      }
      while o.value.hash != n.value.hash
        invariant o.Some? && OldSide(oldHead, o.value, deleted)
        invariant n.Some? && Known(n.value) && Down(headers, newChain, newHead, n.value)
        invariant o.value.number == n.value.number
        decreases o.value.number
      {
        if o.value.number == 0 { GenesisOnly(o.value, n.value); }
        OldDown(oldHead, o.value, deleted);
        NewDown(newHead, n.value, newChain);
        deleted := deleted + bodies[KeyOf(o.value)];
        newChain := newChain + [n.value];
        o, n := GetHeader(o.value.parent, o.value.number - 1), GetHeader(n.value.parent, n.value.number - 1);
        if o.None? || n.None? {
          return false, newChain, deleted, oldHead;
        }
      }
      return true, newChain, deleted, o.value;
    }

    /** The lookup is right for every block on the indexed path of the head. */
    lemma CoversLower(head: Header, low: Header)
      requires Stored() && Canonical(headers, canon, head) && Covers(headers, bodies, canon, lookup, head)
      requires Known(low) && low.number <= head.number && low.number in canon && canon[low.number] == low.hash
      requires TxsTo(headers, bodies, KeyOf(low)) <= TxsTo(headers, bodies, KeyOf(head))
      ensures Canonical(headers, canon, low) && Covers(headers, bodies, canon, lookup, low)
    {
      PathPrefix(headers, canon, 0, low.number, head.number);
      forall tx | tx in TxsTo(headers, bodies, KeyOf(low))
        ensures tx in lookup && Located(canon, bodies, low.number, tx, lookup[tx])
      {
        assert On(headers, canon, low.number);
        LocatedLow(headers, bodies, tds, genesis, canon, low.number, head.number, tx, lookup[tx]);
      }
    }

    /** One block on top of the indexed path: index, head and lookup move together. */
    method Extend(h: Header, ghost at: Header)
      requires Stored() && Known(h) && Known(at) && h.number == at.number + 1 && h.parent == at.hash
      requires Canonical(headers, canon, at) && Covers(headers, bodies, canon, lookup, at)
      modifies `canon, `current, `lookup
      ensures current == h && Canonical(headers, canon, h) && Covers(headers, bodies, canon, lookup, h)
      ensures KeyOf(h) in bodies && lookup.Keys == old(lookup).Keys + Elems(bodies[KeyOf(h)])
    {
      OneDown(headers, bodies, tds, genesis, h);
      PathUp(headers, canon, h);
      Insert(h);
      WriteLookup(h, bodies[KeyOf(h)]);
      forall tx | tx in TxsTo(headers, bodies, KeyOf(h))
        ensures tx in lookup && Located(canon, bodies, h.number, tx, lookup[tx])
      {
        if tx !in bodies[KeyOf(h)] {
          assert tx in TxsTo(headers, bodies, KeyOf(at));
          assert Located(old(canon), bodies, at.number, tx, old(lookup)[tx]);
        }
      }
    }

    /** The second half of reorg: adopt the new chain from its oldest block on. */
    method Adopt(newChain: seq<Header>, ghost top: Header, ghost common: Header) returns (added: seq<Tx>)
      requires Stored() && Known(common) && Down(headers, newChain, top, common)
      requires Canonical(headers, canon, common) && Covers(headers, bodies, canon, lookup, common)
      modifies `canon, `current, `lookup
      ensures Known(top) && Canonical(headers, canon, top) && Covers(headers, bodies, canon, lookup, top)
      ensures lookup.Keys == old(lookup).Keys + Elems(added) && Elems(added) == TxsOf(bodies, newChain)
      ensures newChain != [] ==> current == top
    {
      added := [];
      ghost var at := common;
      var i := |newChain|;
      ghost var rest := newChain;
      while i > 0
        invariant 0 <= i <= |newChain| && rest == newChain[..i]
        invariant Known(at) && Down(headers, rest, top, at)
        invariant Canonical(headers, canon, at) && Covers(headers, bodies, canon, lookup, at)
        invariant lookup.Keys == old(lookup).Keys + Elems(added)
        invariant TxsOf(bodies, newChain) == TxsOf(bodies, rest) + Elems(added)
        invariant i < |newChain| ==> current == at
      {
        i := i - 1;
        var h := newChain[i];
        Extend(h, at);
        assert Elems(added + bodies[KeyOf(h)]) == Elems(added) + Elems(bodies[KeyOf(h)]);
        added := added + bodies[KeyOf(h)];
        assert rest[..i] == newChain[..i];
        rest, at := newChain[..i], h;
      }
    }

    /** reorg */
    method Reorg(oldHead: Header, newHead: Header) returns (ok: bool)
      requires Stored() && Known(oldHead) && Canonical(headers, canon, oldHead) && Known(newHead)
      requires Covers(headers, bodies, canon, lookup, oldHead) && lookup.Keys == TxsTo(headers, bodies, KeyOf(oldHead))
      modifies `canon, `current, `lookup
      ensures ok && Canonical(headers, canon, newHead) && Covers(headers, bodies, canon, lookup, newHead)
      ensures lookup.Keys == TxsTo(headers, bodies, KeyOf(newHead))
    {
      var newChain, deleted, common;
      ok, newChain, deleted, common := FindCommon(oldHead, newHead);
      if !ok {
        return;
      }
      CoversLower(oldHead, common);
      ChainTxs(headers, bodies, tds, genesis, newChain, newHead, common);
      var added := Adopt(newChain, newHead, common);
      ghost var full := lookup;
      DeleteStale(deleted, added);
      forall tx | tx in TxsTo(headers, bodies, KeyOf(newHead))
        ensures tx in lookup && Located(canon, bodies, newHead.number, tx, lookup[tx])
      {
        assert Located(canon, bodies, newHead.number, tx, full[tx]);
      }
    }

    /** The entries of transactions that did not move to the new chain go. */
    method DeleteStale(deleted: seq<Tx>, added: seq<Tx>)
      modifies `lookup
      ensures lookup.Keys == old(lookup).Keys - (Elems(deleted) - Elems(added))
      ensures forall tx :: tx in lookup ==> lookup[tx] == old(lookup)[tx]
    {
      var diff, _ := TxDifference(deleted, added);
      DeleteLookup(diff);
    }

    /** rawdb.DeleteTxLookupEntry for each transaction */
    method DeleteLookup(diff: seq<Tx>)
      modifies `lookup
      ensures lookup.Keys == old(lookup).Keys - Elems(diff)
      ensures forall tx :: tx in lookup ==> lookup[tx] == old(lookup)[tx]
    {
      for i := 0 to |diff|
        invariant lookup.Keys == old(lookup).Keys - Elems(diff[..i])
        invariant forall tx :: tx in lookup ==> lookup[tx] == old(lookup)[tx]
      {
        assert diff[..i + 1] == diff[..i] + [diff[i]];
        lookup := lookup - {diff[i]};
      }
      assert diff[..|diff|] == diff;
    }

    /** Store a block and its total difficulty; the head's path is not affected. */
    method AddBlock(block: Block)
      requires Valid() && ParentKey(block.header) in headers
      requires block.header.hash != EMPTY && block.header.number < MAX_UINT64
      requires forall k :: k in headers && k.hash == block.header.hash ==> headers[k] == block.header && bodies[k] == block.txs
      requires forall i, j :: 0 <= i < j < |block.txs| ==> block.txs[i] != block.txs[j]
      requires Elems(block.txs) !! TxsTo(headers, bodies, ParentKey(block.header))
      modifies `headers, `bodies, `tds
      ensures Valid() && Known(block.header) && block.header.number > 0
      ensures headers == old(headers)[KeyOf(block.header) := block.header]
      ensures bodies == old(bodies)[KeyOf(block.header) := block.txs]
      ensures tds == old(tds)[KeyOf(block.header) := old(tds)[ParentKey(block.header)] + block.header.difficulty]
      ensures forall k :: k in old(tds) ==> tds[k] == old(tds)[k]
    {
      var h := block.header;
      AddHeader(headers, tds, genesis, h);
      forall k | k in headers && k.hash == h.hash ensures k == KeyOf(h) {
        assert Linked(headers, tds, genesis, k);
      }
      InjectiveGrows(headers, h);
      if KeyOf(h) in headers {
        assert headers[KeyOf(h) := h] == headers && bodies[KeyOf(h) := block.txs] == bodies;
      } else {
        AllOnceGrows(headers, bodies, tds, genesis, h, block.txs);
        PathGrows(headers, headers[KeyOf(h) := h], canon, 0, current.number);
        TxsGrow(headers, bodies, tds, genesis, headers[KeyOf(h) := h], bodies[KeyOf(h) := block.txs], KeyOf(current));
      }
      tds := tds[KeyOf(h) := h.difficulty + tds[ParentKey(h)]];
      headers := headers[KeyOf(h) := h];
      bodies := bodies[KeyOf(h) := block.txs];
    }

    /** The lookup entries and the head of a block whose parent, or which itself, ends the
        indexed path. */
    method Finish(h: Header, ghost at: Header)
      requires Stored() && Known(h) && h.number > 0 && Known(at)
      requires Canonical(headers, canon, at) && Covers(headers, bodies, canon, lookup, at)
      requires lookup.Keys == TxsTo(headers, bodies, KeyOf(at))
      requires at == h || KeyOf(at) == ParentKey(h)
      modifies `canon, `current, `lookup
      ensures current == h && Canonical(headers, canon, h) && Covers(headers, bodies, canon, lookup, h)
      ensures lookup.Keys == TxsTo(headers, bodies, KeyOf(h))
    {
      OneDown(headers, bodies, tds, genesis, h);
      if at == h {
        assert canon[h.number := h.hash] == canon;
        assert Elems(bodies[KeyOf(h)]) <= TxsTo(headers, bodies, KeyOf(h));
      } else {
        PathUp(headers, canon, h);
      }
      WriteLookup(h, bodies[KeyOf(h)]);
      Insert(h);
      forall tx | tx in TxsTo(headers, bodies, KeyOf(h))
        ensures tx in lookup && Located(canon, bodies, h.number, tx, lookup[tx])
      {
        if tx !in bodies[KeyOf(h)] {
          assert tx in TxsTo(headers, bodies, KeyOf(at));
          assert Located(old(canon), bodies, at.number, tx, old(lookup)[tx]);
        }
      }
    }

    /** WriteBlockWithState, the fork choice. `coin` is the random draw between blocks of
        the same number and total difficulty. The block goes to the database in a batch
        that nothing reads before it is written. */
    method WriteBlockWithState(block: Block, coin: bool) returns (ok: bool, canonical: bool)
      requires Valid()
      requires block.header.hash != EMPTY && block.header.number < MAX_UINT64
      requires forall k :: k in headers && k.hash == block.header.hash ==> headers[k] == block.header && bodies[k] == block.txs
      requires ParentKey(block.header) in headers ==>
                 && (forall i, j :: 0 <= i < j < |block.txs| ==> block.txs[i] != block.txs[j])
                 && Elems(block.txs) !! TxsTo(headers, bodies, ParentKey(block.header))
      modifies this
      ensures Valid() && (old(Heaviest()) ==> Heaviest())
      ensures ok <==> ParentKey(block.header) in old(headers)
      ensures !ok ==> headers == old(headers) && current == old(current) && canon == old(canon) && lookup == old(lookup)
      ensures ok ==> headers == old(headers)[KeyOf(block.header) := block.header]
      ensures ok ==> bodies == old(bodies)[KeyOf(block.header) := block.txs]
      ensures current == if canonical then block.header else old(current)
      ensures ok ==> tds == old(tds)[KeyOf(block.header) := old(tds)[ParentKey(block.header)] + block.header.difficulty]
      ensures ok ==> (canonical <==>
                var td, local := tds[KeyOf(block.header)], old(tds)[KeyOf(old(current))];
                || td > local
                || (td == local && block.header.number < old(current).number)
                || (td == local && block.header.number == old(current).number && coin))
      ensures !canonical ==> canon == old(canon) && lookup == old(lookup)
    {
      var h := block.header;
      if ParentKey(h) !in tds {
        return false, false;
      }
      var localTd := tds[KeyOf(current)];
      var externTd := h.difficulty + tds[ParentKey(h)];
      AddBlock(block);
      var reorg := externTd > localTd;
      if !reorg && externTd == localTd {
        reorg := h.number < current.number || (h.number == current.number && coin);
      }
      if reorg {
        ghost var at := current;
        assert h.parent == current.hash ==> SameHash(headers, KeyOf(current), ParentKey(h));
        if h.parent != current.hash {
          var done := Reorg(current, h);
          if !done {
            return false, false;
          }
          at := h;
        }
        Finish(h, at);
      }
      return true, reorg;
    }
  }
}
