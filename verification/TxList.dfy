/** txList of core/tx_list.go: one account's transactions, strict for pending and loose
    for queued ones, with the cost and gas caps that let Filter return early. The pool
    works on the values; the class updates them in place. */
module TxList {
  import opened TxTypes
  import SortedMap

  const MAX_UINT64: nat := 0xFFFF_FFFF_FFFF_FFFF

  datatype List = List(strict: bool, items: Items, costcap: int, gascap: nat)

  function NewList(strict: bool): List { List(strict, map[], 0, 0) }

  /** The caps bound everything in the list. */
  ghost predicate CapsOk(l: List) {
    forall n {:trigger Capped(l, n)} :: Capped(l, n)
  }

  predicate Capped(l: List, n: nat) {
    n in l.items ==> l.items[n].cost <= l.costcap && l.items[n].gas <= l.gascap
  }

  // ----- Add -----

  /** A replacement pays more, and at least `bump` percent more, rounded down. */
  predicate Outbids(was: Tx, tx: Tx, bump: nat) {
    was.price < tx.price && was.price * (100 + bump) / 100 <= tx.price
  }

  /** The threshold in whole numbers: the new price is higher, and one more than it is more than
      the old price and `bump` hundredths of it. */
  lemma OutbidsIs(was: Tx, tx: Tx, bump: nat)
    ensures Outbids(was, tx, bump) <==> tx.price > was.price && 100 * (tx.price + 1) > was.price * (100 + bump)
  {
    var x := was.price * (100 + bump);
    assert x == 100 * (x / 100) + x % 100;
  }

  predicate Accepts(l: List, tx: Tx, bump: nat) {
    tx.nonce in l.items ==> Outbids(l.items[tx.nonce], tx, bump)
  }

  function Added(l: List, tx: Tx): List {
    List(l.strict, l.items[tx.nonce := tx],
         if l.costcap < tx.cost then tx.cost else l.costcap,
         if l.gascap < tx.gas then tx.gas else l.gascap)
  }

  lemma AddedCaps(l: List, tx: Tx)
    requires CapsOk(l)
    ensures CapsOk(Added(l, tx))
  {
    forall n ensures Capped(Added(l, tx), n) { assert Capped(l, n); }
  }

  lemma PartCaps(l: List, items: Items)
    requires CapsOk(l) && Part(items, l.items)
    ensures CapsOk(l.(items := items))
  {
    forall n ensures Capped(l.(items := items), n) { assert Capped(l, n); }
  }

  // ----- Filter -----

  predicate Over(tx: Tx, cost: int, gas: nat) { tx.cost > cost || tx.gas > gas }

  function Payable(m: Items, cost: int, gas: nat): Items { Without(m, tx => Over(tx, cost, gas)) }

  /** What Filter leaves: the payable ones, on a strict list only below the first other. */
  function Kept(strict: bool, m: Items, cost: int, gas: nat): Items {
    var keep := Payable(m, cost, gas);
    if strict && m.Keys - keep.Keys != {} then Below(keep, Least(m.Keys - keep.Keys)) else keep
  }

  /** Filter, with its short circuit on the caps. */
  function Filtered(l: List, cost: int, gas: nat): List {
    if l.costcap <= cost && l.gascap <= gas then l
    else List(l.strict, Kept(l.strict, l.items, cost, gas), cost, gas)
  }

  /** The short circuit never misses anything. A loose list loses exactly the transactions
      over a limit; a strict one keeps exactly those with nothing over a limit at or below
      their nonce. */
  lemma FilterExact(l: List, cost: int, gas: nat)
    requires CapsOk(l)
    ensures Filtered(l, cost, gas).items == Kept(l.strict, l.items, cost, gas)
    ensures CapsOk(Filtered(l, cost, gas)) && Filtered(l, cost, gas).strict == l.strict
    ensures forall n :: n in Filtered(l, cost, gas).items <==>
              n in l.items && !Over(l.items[n], cost, gas)
              && (l.strict ==> forall k :: k in l.items && k < n ==> !Over(l.items[k], cost, gas))
    ensures Part(Filtered(l, cost, gas).items, l.items)
  {
    var m := l.items;
    var keep := Payable(m, cost, gas);
    var bad := m.Keys - keep.Keys;
    assert forall k :: k in bad <==> k in m && Over(m[k], cost, gas);
    if l.costcap <= cost && l.gascap <= gas {
      assert forall k :: k in m ==> Capped(l, k);
      assert bad == {};
      assert keep == m;
    }
    forall n | n in keep && l.strict
      ensures n in Kept(l.strict, m, cost, gas) <==> forall k :: k in m && k < n ==> !Over(m[k], cost, gas)
    {
      if bad != {} {
        var least := Least(bad);
        if n < least {
          forall k | k in m && k < n ensures !Over(m[k], cost, gas) { assert k !in bad; }
        } else {
          assert least in m && least < n;
        }
      }
    }
  }

  /** The removed transactions, seen through their nonces. */
  lemma RemovedAre(m: Items, keep: Items, removed: seq<Tx>)
    requires ByNonce(m) && Part(keep, m) && multiset(removed) == multiset(Txs(m) - Txs(keep))
    ensures forall tx :: tx in removed ==> tx.nonce in m.Keys - keep.Keys && m[tx.nonce] == tx
    ensures forall n :: n in m.Keys - keep.Keys ==> m[n] in removed
    ensures removed == [] <==> m.Keys - keep.Keys == {}
  {
    assert forall n :: n in keep ==> keep[n] in Txs(keep);
    forall tx | tx in removed ensures tx.nonce in m.Keys - keep.Keys && m[tx.nonce] == tx {
      assert tx in multiset(removed);
    }
    forall n | n in m.Keys - keep.Keys ensures m[n] in removed {
      assert m[n] in Txs(m) && m[n] !in Txs(keep);
      assert m[n] in multiset(removed);
    }
    if removed != [] { assert removed[0] in removed; }
  }

  /** Filtering above the lowest removed nonce leaves what Kept says. */
  lemma AboveLowest(m: Items, cost: int, gas: nat, removed: seq<Tx>, lowest: nat)
    requires ByNonce(m) && removed != []
    requires multiset(removed) == multiset(Txs(m) - Txs(Payable(m, cost, gas)))
    requires (exists tx :: tx in removed && tx.nonce == lowest) && forall tx :: tx in removed ==> lowest <= tx.nonce
    ensures Without(Payable(m, cost, gas), (tx: Tx) => tx.nonce > lowest) == Kept(true, m, cost, gas)
  {
    var keep := Payable(m, cost, gas);
    RemovedAre(m, keep, removed);
    var tx :| tx in removed && tx.nonce == lowest;
    assert lowest in m.Keys - keep.Keys;
    forall k | k in m.Keys - keep.Keys ensures lowest <= k { assert m[k] in removed; }
    assert IsLeast(m.Keys - keep.Keys, lowest);
    assert Least(m.Keys - keep.Keys) == lowest;
    assert forall n :: n in keep ==> keep[n].nonce == n && n != lowest;
  }

  lemma NothingOver(l: List, cost: int, gas: nat)
    requires CapsOk(l) && l.costcap <= cost && l.gascap <= gas
    ensures Payable(l.items, cost, gas) == l.items
  {
    assert forall k :: k in l.items ==> Capped(l, k);
  }

  // ----- Remove -----

  function Removed(l: List, nonce: nat): List {
    l.(items := if l.strict then Below(l.items, nonce) else l.items - {nonce})
  }

  lemma RemovedAbove(m: Items, nonce: nat)
    requires ByNonce(m)
    ensures Without(m - {nonce}, (tx: Tx) => tx.nonce > nonce) == Below(m, nonce)
    ensures nonce !in m ==> m - {nonce} == m
    ensures Part(Below(m, nonce), m) && Part(m - {nonce}, m) && Txs(m - {nonce}) - Txs(m - {nonce}) == {}
  {
    assert forall n :: n in m ==> m[n].nonce == n;
  }

  // ----- The list updated in place -----

  ghost predicate InRange(m: Items) {
    forall n :: n in m ==> n <= MAX_UINT64
  }

  class TxList {
    const strict: bool
    const txs: SortedMap.SortedMap
    var costcap: int
    var gascap: nat

    ghost predicate Valid()
      reads this, txs
    {
      txs.Valid() && InRange(txs.items) && CapsOk(View())
    }

    ghost function View(): List
      reads this, txs
    {
      List(strict, txs.items, costcap, gascap)
    }

    constructor (strict: bool)
      ensures Valid() && View() == NewList(strict) && fresh(txs)
    {
      this.strict, costcap, gascap := strict, 0, 0;
      txs := new SortedMap.SortedMap();
    }

    method Add(tx: Tx, priceBump: nat) returns (inserted: bool, was: Option<Tx>)
      requires Valid() && tx.nonce <= MAX_UINT64
      modifies this, txs
      ensures Valid() && inserted == Accepts(old(View()), tx, priceBump)
      ensures inserted <==> (tx.nonce in old(txs.items) ==>
                var price := old(txs.items)[tx.nonce].price;
                tx.price > price && 100 * (tx.price + 1) > price * (100 + priceBump))
      ensures View() == if inserted then Added(old(View()), tx) else old(View())
      ensures was == if inserted && tx.nonce in old(txs.items) then Some(old(txs.items)[tx.nonce]) else None
    {
      if tx.nonce in txs.items {
        var present := txs.items[tx.nonce];
        OutbidsIs(present, tx, priceBump);
        var threshold := present.price * (100 + priceBump) / 100;
        if present.price >= tx.price || threshold > tx.price {
          return false, None;
        }
        was := Some(present);
      } else {
        was := None;
      }
      AddedCaps(View(), tx);
      txs.Put(tx);
      if costcap < tx.cost { costcap := tx.cost; }
      if gascap < tx.gas { gascap := tx.gas; }
      inserted := true;
    }

    method Forward(threshold: nat) returns (removed: seq<Tx>)
      requires Valid()
      modifies txs
      ensures Valid() && View() == old(View()).(items := From(old(txs.items), threshold))
      ensures removed == Listed(Below(old(txs.items), threshold))
    {
      PartCaps(View(), From(txs.items, threshold));
      removed := txs.Forward(threshold);
    }

    /** The lowest nonce among the removed transactions. */
    method Lowest(removed: seq<Tx>) returns (lowest: nat)
      requires removed != [] && forall tx :: tx in removed ==> tx.nonce <= MAX_UINT64
      ensures (exists tx :: tx in removed && tx.nonce == lowest) && forall tx :: tx in removed ==> lowest <= tx.nonce
    {
      lowest := MAX_UINT64;
      for i := 0 to |removed|
        invariant lowest == MAX_UINT64 || exists tx :: tx in removed[..i] && tx.nonce == lowest
        invariant lowest <= MAX_UINT64 && forall tx :: tx in removed[..i] ==> lowest <= tx.nonce
      {
        if lowest > removed[i].nonce { lowest := removed[i].nonce; }
        assert removed[..i + 1] == removed[..i] + [removed[i]];
      }
      assert removed[..|removed|] == removed && removed[0] in removed;
    }

    method Filter(costLimit: int, gasLimit: nat) returns (removed: seq<Tx>, invalids: seq<Tx>)
      requires Valid()
      modifies this, txs
      ensures Valid() && View() == Filtered(old(View()), costLimit, gasLimit)
      ensures multiset(removed) == multiset(Txs(old(txs.items)) - Txs(Payable(old(txs.items), costLimit, gasLimit)))
      ensures multiset(invalids) == multiset(Txs(Payable(old(txs.items), costLimit, gasLimit)) - Txs(txs.items))
    {
      removed, invalids := [], [];
      FilterExact(View(), costLimit, gasLimit);
      if costcap <= costLimit && gascap <= gasLimit {
        NothingOver(View(), costLimit, gasLimit);
        return;
      }
      costcap, gascap := costLimit, gasLimit;
      removed := txs.Filter(tx => Over(tx, costLimit, gasLimit));
      ghost var keep := txs.items;
      RemovedAre(old(txs.items), keep, removed);
      if strict && removed != [] {
        var lowest := Lowest(removed);
        AboveLowest(old(txs.items), costLimit, gasLimit, removed, lowest);
        invalids := txs.Filter((tx: Tx) => tx.nonce > lowest);
      }
    }

    method Cap(threshold: nat) returns (drops: seq<Tx>)
      requires Valid()
      modifies txs
      ensures Valid() && View() == old(View()).(items := CutTo(old(txs.items), threshold))
      ensures Listed(old(txs.items)) == Listed(txs.items) + SortedMap.Reversed(drops)
    {
      CutPart(txs.items, threshold);
      PartCaps(View(), CutTo(txs.items, threshold));
      drops := txs.Cap(threshold);
    }

    /** Remove looks at the nonce only; on a strict list everything above leaves too. */
    method Remove(tx: Tx) returns (found: bool, invalids: seq<Tx>)
      requires Valid()
      modifies txs
      ensures Valid() && found == (tx.nonce in old(txs.items))
      ensures View() == if found then Removed(old(View()), tx.nonce) else old(View())
      ensures multiset(invalids) == multiset(Txs(old(txs.items) - {tx.nonce}) - Txs(txs.items))
    {
      invalids := [];
      var nonce := tx.nonce;
      RemovedAbove(txs.items, nonce);
      PartCaps(View(), Removed(View(), nonce).items);
      found := txs.Remove(nonce);
      if found && strict {
        invalids := txs.Filter((tx: Tx) => tx.nonce > nonce);
      }
    }

    method Ready(start: nat) returns (ready: seq<Tx>)
      requires Valid()
      modifies txs
      ensures Valid()
      ensures View() == old(View()).(items := From(old(txs.items), SortedMap.ReadyEnd(old(txs.items), start)))
      ensures ready == Listed(Below(old(txs.items), SortedMap.ReadyEnd(old(txs.items), start)))
    {
      PartCaps(View(), From(txs.items, SortedMap.ReadyEnd(txs.items, start)));
      ready := txs.Ready(start);
    }

    method Flatten() returns (sorted: seq<Tx>)
      requires Valid()
      modifies txs
      ensures Valid() && View() == old(View()) && sorted == Listed(txs.items)
    {
      sorted := txs.Flatten();
    }
  }
}
