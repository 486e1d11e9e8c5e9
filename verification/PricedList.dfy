/** txPricedList of core/tx_list.go: a price heap that is cleaned lazily, so it may hold
    stale entries. The lookup of live transactions is the pool's; it is passed in. */
module PricedList {
  import opened TxTypes
  import Heap

  /** Cheaper first; at one price the higher nonce is worse. */
  predicate PriceLess(a: Tx, b: Tx) {
    a.price < b.price || (a.price == b.price && a.nonce > b.nonce)
  }

  /** `a` goes no later than `b`. */
  predicate NoDearer(a: Tx, b: Tx) { Heap.Le(PriceLess, a, b) }

  lemma PriceOrder()
    ensures Heap.Order(PriceLess)
  {
  }

  predicate IsLocal(locals: set<Addr>, tx: Tx) { tx.signed && tx.from in locals }

  ghost function Remote(all: set<Tx>, locals: set<Addr>): set<Tx> {
    set tx | tx in all && !IsLocal(locals, tx)
  }

  function Fewer(a: nat, b: nat): nat { if a <= b then a else b }

  /** Every live transaction has an entry. */
  ghost predicate Covers(items: seq<Tx>, all: set<Tx>) {
    forall tx {:trigger Entry(items, tx)} :: tx in all ==> Entry(items, tx)
  }

  predicate Entry(items: seq<Tx>, tx: Tx) { tx in items }

  /** No live entry is lost: each is either still in the heap or among the dropped. */
  ghost predicate Conserved(before: seq<Tx>, after: seq<Tx>, drop: seq<Tx>, all: set<Tx>) {
    forall tx :: tx in all ==> multiset(before)[tx] == multiset(after)[tx] + multiset(drop)[tx]
  }

  lemma ConservedCovers(before: seq<Tx>, after: seq<Tx>, drop: seq<Tx>, all: set<Tx>, gone: set<Tx>)
    requires Conserved(before, after, drop, all) && Covers(before, all - gone)
    ensures Covers(after, all - gone - set tx | tx in drop)
  {
    forall tx | tx in all - gone - set t | t in drop ensures Entry(after, tx) {
      assert Entry(before, tx);
      assert tx in multiset(before) && tx !in multiset(drop);
      assert tx in multiset(after);
    }
  }

  /** Where the entries popped so far went. */
  ghost predicate Split(before: seq<Tx>, items: seq<Tx>, drop: seq<Tx>, save: seq<Tx>, all: set<Tx>) {
    forall tx :: tx in all ==>
      multiset(before)[tx] == multiset(items)[tx] + multiset(drop)[tx] + multiset(save)[tx]
  }

  lemma SplitStep(before: seq<Tx>, items: seq<Tx>, items': seq<Tx>, drop: seq<Tx>, save: seq<Tx>, all: set<Tx>, tx: Tx)
    requires Split(before, items, drop, save, all) && multiset(items) == multiset(items') + multiset{tx}
    ensures tx !in all ==> Split(before, items', drop, save, all)
    ensures Split(before, items', drop + [tx], save, all) && Split(before, items', drop, save + [tx], all)
  {
  }

  /** Every popped entry went before everything still in the heap. */
  ghost predicate Before(popped: seq<Tx>, items: seq<Tx>) {
    forall d, t :: d in popped && t in items ==> NoDearer(d, t)
  }

  lemma BeforeStep(popped: seq<Tx>, items: seq<Tx>, items': seq<Tx>, tx: Tx)
    requires Before(popped, items) && multiset(items) == multiset(items') + multiset{tx}
    requires forall t :: t in items ==> NoDearer(tx, t)
    ensures Before(popped, items') && Before(popped + [tx], items') && |items'| < |items|
  {
    forall t | t in items' ensures t in items {
      assert t in multiset(items');
      assert t in multiset(items);
    }
    assert |multiset(items)| == |multiset(items')| + 1;
  }

  /** One more entry. */
  ghost predicate Grown(items: seq<Tx>, stales: int, items': seq<Tx>, stales': int, tx: Tx) {
    multiset(items') == multiset(items) + multiset{tx} && stales' == stales
  }

  /** After `n` removals nothing but the stale counter has changed, unless there were too many. */
  ghost predicate Lazy(items: seq<Tx>, stales: int, n: int, items': seq<Tx>, stales': int) {
    stales + n <= |items| / 4 ==> items' == items && stales' == stales + n
  }

  /** No live transaction has two entries. */
  ghost predicate Single(items: seq<Tx>, all: set<Tx>) {
    forall tx :: tx in all ==> multiset(items)[tx] <= 1
  }

  /** With one entry per live transaction, the dropped ones are distinct and as many as asked
      for, or all remote ones if there are fewer. */
  lemma DiscardExact(before: seq<Tx>, after: seq<Tx>, drop: seq<Tx>, all: set<Tx>, locals: set<Addr>, count: nat)
    requires Conserved(before, after, drop, all) && Single(before, all)
    requires forall tx :: tx in drop ==> tx in all && !IsLocal(locals, tx)
    requires |drop| <= count
    requires |drop| < count ==> forall tx :: tx in all && !IsLocal(locals, tx) ==> tx in drop
    ensures |set tx | tx in drop| == |drop| == Fewer(count, |Remote(all, locals)|)
  {
    var remote := Remote(all, locals);
    var dropped := set tx | tx in drop;
    forall tx ensures multiset(drop)[tx] == multiset(dropped)[tx] {
      if tx in drop {
        assert tx in multiset(drop);
      } else {
        assert tx !in multiset(drop);
      }
    }
    assert multiset(drop) == multiset(dropped);
    assert |multiset(drop)| == |drop| && |multiset(dropped)| == |dropped|;
    Subset(dropped, remote);
    if |drop| < count { assert dropped == remote; }
  }

  lemma {:induction false} Subset(a: set<Tx>, b: set<Tx>)
    requires a <= b
    ensures |a| <= |b|
  {
    if a != {} {
      var x :| x in a;
      Subset(a - {x}, b - {x});
    }
  }

  // ----- Who is discarded, told from the heap before -----

  /** The heap entries of remote live transactions that go before this one. */
  ghost function Ahead(items: seq<Tx>, all: set<Tx>, locals: set<Addr>, t: Tx): multiset<Tx> {
    if items == [] then multiset{}
    else
      var n := |items| - 1;
      var rest := Ahead(items[..n], all, locals, t);
      if items[n] in Remote(all, locals) && PriceLess(items[n], t) then rest + multiset{items[n]} else rest
  }

  lemma {:induction false} AheadIs(items: seq<Tx>, all: set<Tx>, locals: set<Addr>, t: Tx, u: Tx)
    ensures Ahead(items, all, locals, t)[u] ==
              if u in Remote(all, locals) && PriceLess(u, t) then multiset(items)[u] else 0
  {
    if items != [] {
      var n := |items| - 1;
      AheadIs(items[..n], all, locals, t, u);
      assert items == items[..n] + [items[n]];
    }
  }

  /** The entries of live transactions decide, so stale ones do not matter. */
  lemma AheadSame(items: seq<Tx>, items': seq<Tx>, all: set<Tx>, locals: set<Addr>, t: Tx)
    requires forall u :: u in all ==> multiset(items)[u] == multiset(items')[u]
    ensures Ahead(items, all, locals, t) == Ahead(items', all, locals, t)
  {
    forall u ensures Ahead(items, all, locals, t)[u] == Ahead(items', all, locals, t)[u] {
      AheadIs(items, all, locals, t, u);
      AheadIs(items', all, locals, t, u);
    }
  }

  /** No other remote transaction has its price and nonce. */
  ghost predicate NoTies(all: set<Tx>, locals: set<Addr>, r: Tx) {
    forall t :: t in Remote(all, locals) && t != r ==> PriceLess(t, r) || PriceLess(r, t)
  }

  /** What Discard promises. */
  ghost predicate Discards(before: seq<Tx>, after: seq<Tx>, drop: seq<Tx>, all: set<Tx>, locals: set<Addr>, count: nat) {
    && Conserved(before, after, drop, all) && |drop| <= count
    && (forall tx :: tx in drop ==> tx in Remote(all, locals))
    && (|drop| < count ==> forall tx :: tx in after ==> tx !in Remote(all, locals))
    && (forall d, t {:trigger NoDearer(d, t)} :: d in drop && t in after && t in Remote(all, locals) ==> NoDearer(d, t))
  }

  /** Everything before a dropped entry is dropped. */
  lemma DroppedRank(before: seq<Tx>, after: seq<Tx>, drop: seq<Tx>, all: set<Tx>, locals: set<Addr>, count: nat, t: Tx)
    requires Discards(before, after, drop, all, locals, count) && t in drop
    ensures |Ahead(before, all, locals, t)| < count
  {
    var ahead := Ahead(before, all, locals, t);
    forall u ensures (ahead + multiset{t})[u] <= multiset(drop)[u] {
      AheadIs(before, all, locals, t, u);
      if u in Remote(all, locals) && PriceLess(u, t) {
        assert u in multiset(after) ==> u in after;
        assert !NoDearer(t, u);
      }
      assert t in multiset(drop);
    }
    Smaller(ahead + multiset{t}, multiset(drop));
  }

  lemma Smaller(a: multiset<Tx>, b: multiset<Tx>)
    requires forall u :: a[u] <= b[u]
    ensures |a| <= |b|
  {
    assert b == a + (b - a);
  }

  /** What stays has a full count of entries before it. */
  lemma KeptRank(before: seq<Tx>, after: seq<Tx>, drop: seq<Tx>, all: set<Tx>, locals: set<Addr>, count: nat, t: Tx)
    requires Discards(before, after, drop, all, locals, count) && Covers(before, all)
    requires t in Remote(all, locals) && t !in drop && NoTies(all, locals, t)
    ensures |Ahead(before, all, locals, t)| >= count
  {
    var ahead := Ahead(before, all, locals, t);
    assert Entry(before, t) && t in multiset(before) && t !in multiset(drop);
    assert t in multiset(after) && t in after;
    forall u ensures multiset(drop)[u] <= ahead[u] {
      AheadIs(before, all, locals, t, u);
      if u in multiset(drop) {
        assert u in drop && NoDearer(u, t);
      }
    }
    Smaller(multiset(drop), ahead);
  }

  /** Who is in `gone`, told from the heap before. */
  ghost predicate Chosen(items: seq<Tx>, all: set<Tx>, locals: set<Addr>, gone: set<Tx>, count: nat) {
    forall r {:trigger NoTies(all, locals, r)} :: r in Remote(all, locals) && NoTies(all, locals, r) ==>
      (r in gone <==> |Ahead(items, all, locals, r)| < count)
  }

  lemma ChoosesFront(before: seq<Tx>, after: seq<Tx>, drop: seq<Tx>, all: set<Tx>, locals: set<Addr>, count: nat)
    requires Discards(before, after, drop, all, locals, count) && Covers(before, all)
    ensures Chosen(before, all, locals, (set tx | tx in drop), count)
  {
    forall r | r in Remote(all, locals) && NoTies(all, locals, r)
      ensures r in drop <==> |Ahead(before, all, locals, r)| < count
    {
      if r in drop {
        DroppedRank(before, after, drop, all, locals, count, r);
      } else {
        KeptRank(before, after, drop, all, locals, count, r);
      }
    }
  }

  lemma ChosenSame(items: seq<Tx>, items': seq<Tx>, all: set<Tx>, locals: set<Addr>, gone: set<Tx>, count: nat)
    requires Conserved(items, items', [], all) && Chosen(items', all, locals, gone, count)
    ensures Chosen(items, all, locals, gone, count)
  {
    forall r | r in Remote(all, locals) && NoTies(all, locals, r)
      ensures r in gone <==> |Ahead(items, all, locals, r)| < count
    {
      AheadSame(items, items', all, locals, r);
    }
  }

  /** The remote transactions with fewer than `count` entries before them. */
  ghost function Front(items: seq<Tx>, all: set<Tx>, locals: set<Addr>, count: nat): set<Tx> {
    set t | t in Remote(all, locals) && |Ahead(items, all, locals, t)| < count
  }

  ghost predicate Ranked(all: set<Tx>, locals: set<Addr>) {
    forall t {:trigger NoTies(all, locals, t)} :: t in Remote(all, locals) ==> NoTies(all, locals, t)
  }

  /** Without ties exactly the front is dropped, whatever entries there are. */
  lemma DropsFront(before: seq<Tx>, after: seq<Tx>, drop: seq<Tx>, all: set<Tx>, locals: set<Addr>, count: nat)
    requires Discards(before, after, drop, all, locals, count) && Covers(before, all) && Ranked(all, locals)
    ensures (set tx | tx in drop) == Front(before, all, locals, count)
  {
    ChoosesFront(before, after, drop, all, locals, count);
    forall t ensures t in drop <==> t in Front(before, all, locals, count) {
      assert t in Remote(all, locals) ==> NoTies(all, locals, t);
    }
  }

  ghost function Under(s: set<Tx>, t: Tx): set<Tx> { set u | u in s && PriceLess(u, t) }

  /** The remote transactions that go before this one. */
  ghost function Cheaper(all: set<Tx>, locals: set<Addr>, r: Tx): set<Tx> { Under(Remote(all, locals), r) }

  /** A transaction has more entries than transactions before it exactly if one of those has
      two entries. */
  lemma RankAndEntries(items: seq<Tx>, all: set<Tx>, locals: set<Addr>, v: Tx)
    requires Covers(items, all)
    ensures |Ahead(items, all, locals, v)| >= |Cheaper(all, locals, v)|
    ensures |Ahead(items, all, locals, v)| == |Cheaper(all, locals, v)| <==>
              forall u :: u in Cheaper(all, locals, v) ==> multiset(items)[u] == 1
  {
    var ahead, cheaper := Ahead(items, all, locals, v), multiset(Cheaper(all, locals, v));
    forall u ensures ahead[u] == if u in Cheaper(all, locals, v) then multiset(items)[u] else 0
             ensures u in Cheaper(all, locals, v) ==> multiset(items)[u] >= 1 {
      AheadIs(items, all, locals, v, u);
      if u in Cheaper(all, locals, v) { assert Entry(items, u) && u in multiset(items); }
    }
    assert ahead == cheaper + (ahead - cheaper);
    assert |ahead| == |cheaper| + |ahead - cheaper|;
    if |ahead| == |cheaper| {
      assert ahead - cheaper == multiset{};
      forall u | u in Cheaper(all, locals, v) ensures multiset(items)[u] == 1 { assert cheaper[u] == 1; }
    }
    assert (forall u :: u in Cheaper(all, locals, v) ==> multiset(items)[u] == 1) ==> ahead == cheaper;
  }

  ghost predicate Total(s: set<Tx>) {
    forall t, u {:trigger PriceLess(t, u)} :: t in s && u in s && t != u ==> PriceLess(t, u) || PriceLess(u, t)
  }

  lemma {:induction false} Dearest(s: set<Tx>) returns (m: Tx)
    requires s != {} && Total(s)
    ensures m in s && forall t :: t in s && t != m ==> PriceLess(t, m)
  {
    var x :| x in s;
    if s == {x} {
      m := x;
    } else {
      m := Dearest(s - {x});
      assert PriceLess(m, x) || PriceLess(x, m);
      assert forall t :: t in s && t != x ==> t in s - {x};
      if PriceLess(m, x) { m := x; }
    }
  }

  /** In a total order `k` elements have fewer than `k` below them, or all of them. */
  lemma {:induction false} FirstOnes(s: set<Tx>, k: nat)
    requires Total(s)
    ensures |First(s, k)| == Fewer(k, |s|)
  {
    if s != {} {
      var m := Dearest(s);
      var rest := s - {m};
      FirstOnes(rest, k);
      FirstStep(s, k, m);
    }
  }

  ghost function First(s: set<Tx>, k: nat): set<Tx> { set t | t in s && |Under(s, t)| < k }

  lemma FirstStep(s: set<Tx>, k: nat, m: Tx)
    requires m in s && forall t :: t in s && t != m ==> PriceLess(t, m)
    ensures First(s, k) == First(s - {m}, k) + if |s| <= k then {m} else {}
  {
    var rest := s - {m};
    assert Under(s, m) == rest;
    forall t | t in rest ensures Under(s, t) == Under(rest, t) {}
  }

  /** Without ties Discard drops as many transactions as asked for, or all remote ones, for
      every count, exactly if no remote transaction with two entries has a dearer one. */
  lemma NumberExact(items: seq<Tx>, all: set<Tx>, locals: set<Addr>)
    requires Covers(items, all) && Ranked(all, locals)
    ensures (forall count: nat :: RightNumber(items, all, locals, count)) <==> OnlyDearestTwice(items, all, locals)
  {
    if OnlyDearestTwice(items, all, locals) {
      forall count: nat ensures RightNumber(items, all, locals, count) { NumberRight(items, all, locals, count); }
    } else {
      var u, v :| u in Remote(all, locals) && v in Remote(all, locals) && PriceLess(u, v) && multiset(items)[u] != 1;
      NumberWrong(items, all, locals, u, v);
    }
  }

  ghost predicate RightNumber(items: seq<Tx>, all: set<Tx>, locals: set<Addr>, count: nat) {
    |Front(items, all, locals, count)| == Fewer(count, |Remote(all, locals)|)
  }

  ghost predicate OnlyDearestTwice(items: seq<Tx>, all: set<Tx>, locals: set<Addr>) {
    forall u, v {:trigger PriceLess(u, v)} ::
      u in Remote(all, locals) && v in Remote(all, locals) && PriceLess(u, v) ==> multiset(items)[u] == 1
  }

  lemma NumberRight(items: seq<Tx>, all: set<Tx>, locals: set<Addr>, count: nat)
    requires Covers(items, all) && Ranked(all, locals) && OnlyDearestTwice(items, all, locals)
    ensures RightNumber(items, all, locals, count)
  {
    var remote := Remote(all, locals);
    forall t ensures t in Front(items, all, locals, count) <==> t in First(remote, count) {
      RankAndEntries(items, all, locals, t);
      assert t in remote ==> forall u :: u in Cheaper(all, locals, t) ==> PriceLess(u, t);
    }
    RankedTotal(all, locals);
    FirstOnes(remote, count);
    assert Front(items, all, locals, count) == First(remote, count);
  }

  lemma RankedTotal(all: set<Tx>, locals: set<Addr>)
    requires Ranked(all, locals)
    ensures Total(Remote(all, locals))
  {
    forall t, u | t in Remote(all, locals) && u in Remote(all, locals) && t != u ensures PriceLess(t, u) || PriceLess(u, t) {
      assert NoTies(all, locals, u);
    }
  }

  /** Asking for the entries before `v` drops only the transactions before it. */
  lemma NumberWrong(items: seq<Tx>, all: set<Tx>, locals: set<Addr>, u: Tx, v: Tx)
    requires Covers(items, all) && Ranked(all, locals)
    requires u in Remote(all, locals) && v in Remote(all, locals) && PriceLess(u, v) && multiset(items)[u] != 1
    ensures !RightNumber(items, all, locals, |Ahead(items, all, locals, v)|)
  {
    var count, remote, cheaper := |Ahead(items, all, locals, v)|, Remote(all, locals), Cheaper(all, locals, v);
    RankAndEntries(items, all, locals, v);
    assert u in cheaper && |cheaper| < count;
    forall t | t in Front(items, all, locals, count) ensures t in cheaper {
      if !PriceLess(t, v) {
        assert NoTies(all, locals, v);
        RankGrows(items, all, locals, v, t);
      }
    }
    Subset(Front(items, all, locals, count), cheaper);
    Subset(cheaper + {v}, remote);
  }

  lemma RankGrows(items: seq<Tx>, all: set<Tx>, locals: set<Addr>, v: Tx, t: Tx)
    requires !PriceLess(t, v)
    ensures |Ahead(items, all, locals, v)| <= |Ahead(items, all, locals, t)|
  {
    forall u ensures Ahead(items, all, locals, v)[u] <= Ahead(items, all, locals, t)[u] {
      AheadIs(items, all, locals, v, u);
      AheadIs(items, all, locals, t, u);
    }
    Smaller(Ahead(items, all, locals, v), Ahead(items, all, locals, t));
  }

  class PricedList {
    var items: seq<Tx>
    var stales: int

    ghost predicate Valid()
      reads this
    {
      Heap.IsHeap(PriceLess, items)
    }

    constructor ()
      ensures Valid() && items == [] && stales == 0
    {
      items, stales := [], 0;
    }

    method Put(tx: Tx)
      requires Valid()
      modifies `items
      ensures Valid() && multiset(items) == multiset(old(items)) + multiset{tx}
    {
      PriceOrder();
      items := Heap.Push(PriceLess, items, tx);
    }

    method PopItem() returns (tx: Tx)
      requires Valid() && items != []
      modifies `items
      ensures Valid() && tx == old(items)[0] && multiset(old(items)) == multiset(items) + multiset{tx}
      ensures forall t :: t in old(items) ==> NoDearer(tx, t)
    {
      PriceOrder();
      tx, items := Heap.Pop(PriceLess, items);
    }

    method PutBack(save: seq<Tx>)
      requires Valid()
      modifies `items
      ensures Valid() && multiset(items) == multiset(old(items)) + multiset(save)
    {
      for i := 0 to |save|
        invariant Valid() && multiset(items) == multiset(old(items)) + multiset(save[..i])
      {
        assert save[..i + 1] == save[..i] + [save[i]];
        Put(save[i]);
      }
      assert save[..|save|] == save;
    }

    /** Removed: the heap is rebuilt when more than a quarter of it may be stale. */
    method Removed(all: set<Tx>)
      requires Valid()
      modifies this
      ensures Valid()
      ensures if old(stales) + 1 <= |old(items)| / 4
              then items == old(items) && stales == old(stales) + 1
              else multiset(items) == multiset(all) && stales == 0
    {
      stales := stales + 1;
      if stales <= |items| / 4 { return; }
      PriceOrder();
      var live, todo := [], all;
      while todo != {}
        invariant todo <= all && multiset(live) + multiset(todo) == multiset(all)
      {
        var tx :| tx in todo;
        assert multiset(todo) == multiset(todo - {tx}) + multiset{tx};
        live, todo := live + [tx], todo - {tx};
      }
      items := Heap.Heapify(PriceLess, live);
      stales := 0;
    }

    /** Cap: exactly the remote live transactions below the threshold are dropped. */
    method Cap(threshold: nat, locals: set<Addr>, all: set<Tx>) returns (drop: seq<Tx>)
      requires Valid() && Covers(items, all)
      modifies this
      ensures Valid() && Conserved(old(items), items, drop, all)
      ensures forall tx :: tx in drop <==> tx in all && tx.price < threshold && !IsLocal(locals, tx)
    {
      var save: seq<Tx>;
      drop, save := [], [];
      while items != []
        invariant Valid() && Split(old(items), items, drop, save, all)
        invariant forall tx :: tx in drop ==> tx in all && tx.price < threshold && !IsLocal(locals, tx)
        invariant forall tx :: tx in save ==> tx.price < threshold ==> IsLocal(locals, tx)
        decreases |items|
      {
        ghost var was := items;
        var tx := PopItem();
        SplitStep(old(items), was, items, drop, save, all, tx);
        BeforeStep([], was, items, tx);
        assert Before([tx], items);
        if tx !in all {
          stales := stales - 1;
          continue;
        }
        if tx.price >= threshold {
          save := save + [tx];
          assert forall t :: t in items ==> t.price >= threshold by {
            assert forall t :: t in items ==> NoDearer(tx, t);
          }
          break;
        }
        if IsLocal(locals, tx) {
          save := save + [tx];
        } else {
          drop := drop + [tx];
        }
      }
      ghost var left := items;
      PutBack(save);
      assert Conserved(old(items), items, drop, all);
      forall tx | tx in all && tx.price < threshold && !IsLocal(locals, tx) ensures tx in drop {
        assert Entry(old(items), tx);
        assert tx in multiset(old(items));
        assert tx !in left;
        assert tx !in save;
      }
    }

    /** Underpriced: the stale head is skipped, so the answer is about the true minimum of
        the live transactions. */
    method Underpriced(tx: Tx, locals: set<Addr>, all: set<Tx>) returns (under: bool)
      requires Valid() && Covers(items, all)
      modifies this
      ensures Valid() && Conserved(old(items), items, [], all)
      ensures under <==> !IsLocal(locals, tx) && all != {} && forall t :: t in all ==> tx.price <= t.price
    {
      if IsLocal(locals, tx) { return false; }
      while items != [] && items[0] !in all
        invariant Valid() && Split(old(items), items, [], [], all)
        decreases |items|
      {
        ghost var was := items;
        var head := PopItem();
        SplitStep(old(items), was, items, [], [], all, head);
        BeforeStep([], was, items, head);
        stales := stales - 1;
      }
      forall t | t in all ensures t in items {
        assert Entry(old(items), t);
        assert t in multiset(old(items));
        assert t in multiset(items);
      }
      if items == [] { return false; }
      PriceOrder();
      var cheapest := items[0];
      forall t | t in all ensures cheapest.price <= t.price {
        var i :| 0 <= i < |items| && items[i] == t;
        Heap.HeadIsLeast(PriceLess, items, i);
        assert NoDearer(cheapest, t);
      }
      under := cheapest.price >= tx.price;
    }

    /** Discard: up to `count` remote live entries leave, and no remote entry that stays goes
        before one that left. Fewer leave only if no remote transaction stays. */
    method Discard(count: nat, locals: set<Addr>, all: set<Tx>) returns (drop: seq<Tx>)
      requires Valid() && Covers(items, all)
      modifies this
      ensures Valid() && Conserved(old(items), items, drop, all)
      ensures forall tx :: tx in drop ==> tx in all && !IsLocal(locals, tx)
      ensures |drop| <= count
      ensures |drop| < count ==> forall tx :: tx in all && !IsLocal(locals, tx) ==> tx in drop
      ensures forall d, t :: d in drop && t in all && t !in drop && !IsLocal(locals, t) ==> NoDearer(d, t)
      ensures Discards(old(items), items, drop, all, locals, count)
    {
      var save: seq<Tx>;
      drop, save := [], [];
      var left := count;
      while items != [] && left > 0
        invariant Valid() && Split(old(items), items, drop, save, all) && Before(drop, items)
        invariant left == count - |drop|
        invariant forall tx :: tx in drop ==> tx in all && !IsLocal(locals, tx)
        invariant forall tx :: tx in save ==> IsLocal(locals, tx)
        decreases |items|
      {
        ghost var was := items;
        var tx := PopItem();
        SplitStep(old(items), was, items, drop, save, all, tx);
        BeforeStep(drop, was, items, tx);
        if tx !in all {
          stales := stales - 1;
          continue;
        }
        if IsLocal(locals, tx) {
          save := save + [tx];
        } else {
          drop := drop + [tx];
          left := left - 1;
        }
      }
      ghost var rest := items;
      PutBack(save);
      assert Conserved(old(items), items, drop, all);
      forall t | t in all && t !in drop && !IsLocal(locals, t) ensures t in rest {
        assert Entry(old(items), t);
        assert t in multiset(old(items));
        assert t !in save;
        assert t in multiset(rest);
      }
      forall t | t in items && !IsLocal(locals, t) ensures t in rest {
        assert t in multiset(items) && t !in save;
        assert t in multiset(rest);
      }
    }
  }

  /** Two entries for the cheaper of two transactions: both count, so when two have to go the
      dearer one stays. */
  method DuplicateExample() returns (list: PricedList, cheap: Tx, dear: Tx, drop: seq<Tx>)
    ensures list.Valid() && cheap != dear && multiset(drop) == multiset{cheap, cheap} && dear in list.items
  {
    cheap, dear := Tx(0, 0, 0, 1, 1, 1, 0, 0, 1, true), Tx(1, 1, 0, 2, 1, 2, 0, 0, 1, true);
    list := new PricedList();
    list.Put(cheap);
    list.Put(cheap);
    list.Put(dear);
    ghost var before := list.items;
    assert multiset(before) == multiset{cheap, cheap, dear};
    forall tx | tx in {cheap, dear} ensures Entry(before, tx) { assert tx in multiset(before); }
    drop := list.Discard(2, {}, {cheap, dear});
    BothCheap(before, list.items, drop, cheap, dear);
  }

  lemma BothCheap(before: seq<Tx>, after: seq<Tx>, drop: seq<Tx>, cheap: Tx, dear: Tx)
    requires cheap.price < dear.price && multiset(before) == multiset{cheap, cheap, dear}
    requires Conserved(before, after, drop, {cheap, dear}) && |drop| <= 2 && forall tx :: tx in drop ==> tx in {cheap, dear}
    requires |drop| < 2 ==> cheap in drop && dear in drop
    requires forall d, t :: d in drop && t in after && t in {cheap, dear} ==> NoDearer(d, t)
    ensures multiset(drop) == multiset{cheap, cheap} && dear in after
  {
    var m := multiset(drop);
    assert multiset(before)[cheap] == 2 && multiset(before)[dear] == 1;
    assert forall tx :: tx in m ==> tx in drop;
    assert m == multiset{}[cheap := m[cheap]][dear := m[dear]];
    assert |drop| == |m| == m[cheap] + m[dear];
    assert !NoDearer(dear, cheap) && (cheap in multiset(after) ==> cheap in after);
    assert dear in multiset(after);
  }

  /** Among transactions of one account whose prices do not rise with the nonce, the dropped ones
      are the last: none is dropped while a later one stays. */
  lemma LastFirst(before: seq<Tx>, after: seq<Tx>, drop: seq<Tx>, all: set<Tx>, locals: set<Addr>, count: nat, d: Tx, t: Tx)
    requires Discards(before, after, drop, all, locals, count) && Covers(before, all)
    requires d in drop && t in Remote(all, locals) && d.nonce < t.nonce && t.price <= d.price
    ensures t in drop
  {
    assert Entry(before, t) && PriceLess(t, d) && !NoDearer(d, t);
    assert multiset(before)[t] == multiset(after)[t] + multiset(drop)[t];
  }
}
