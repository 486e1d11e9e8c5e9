/** txSortedMap of core/tx_list.go: a nonce map with a heap of its keys and a cache of
    its sorted contents. */
module SortedMap {
  import opened TxTypes
  import Heap

  predicate NonceLess(a: nat, b: nat) { a < b }
  predicate TxLess(a: Tx, b: Tx) { a.nonce < b.nonce }

  lemma NonceOrder()
    ensures Heap.Order(NonceLess) && Heap.Order(TxLess)
  {
  }

  /** The heap holds each key of the map once. */
  ghost predicate Indexed(items: Items, index: seq<nat>) {
    Heap.IsHeap(NonceLess, index) && multiset(index) == multiset(items.Keys)
  }

  lemma HeadIsLeastKey(items: Items, index: seq<nat>)
    requires Indexed(items, index) && index != []
    ensures IsLeast(items.Keys, index[0])
  {
    NonceOrder();
    assert index[0] in multiset(index);
    forall k | k in items.Keys ensures index[0] <= k {
      assert k in multiset(index);
      var i :| 0 <= i < |index| && index[i] == k;
      Heap.HeadIsLeast(NonceLess, index, i);
      assert Heap.Le(NonceLess, index[0], index[i]);
    }
  }

  lemma EmptyTogether(items: Items, index: seq<nat>)
    requires Indexed(items, index)
    ensures index == [] <==> items == map[]
    ensures |index| == |items|
  {
    assert |multiset(index)| == |index|;
    assert |multiset(items.Keys)| == |items.Keys|;
  }

  lemma KeyRemoved(items: Items, index: seq<nat>, rest: seq<nat>, n: nat)
    requires multiset(index) == multiset(items.Keys) && n in items
    requires multiset(index) == multiset(rest) + multiset{n}
    ensures multiset(rest) == multiset((items - {n}).Keys)
  {
    assert (items - {n}).Keys == items.Keys - {n};
    assert multiset(items.Keys) == multiset(items.Keys - {n}) + multiset{n};
    assert multiset(rest) == (multiset(rest) + multiset{n}) - multiset{n};
    assert multiset(items.Keys - {n}) == (multiset(items.Keys - {n}) + multiset{n}) - multiset{n};
  }

  /** Where Ready stops; 0 when it takes nothing. */
  function ReadyEnd(m: Items, start: nat): nat {
    if m == map[] || Least(m.Keys) > start then 0 else RunEnd(m.Keys, Least(m.Keys))
  }

  function Reversed(s: seq<Tx>): seq<Tx> { if s == [] then [] else [s[|s| - 1]] + Reversed(s[..|s| - 1]) }

  lemma {:induction false} ReversedLength(s: seq<Tx>)
    ensures |Reversed(s)| == |s|
  {
    if s != [] { ReversedLength(s[..|s| - 1]); }
  }

  /** What is left of the listing decides what is left. */
  lemma CutIs(all: Items, items: Items, rest: seq<Tx>, k: nat)
    requires ByNonce(all) && ByNonce(items) && |items| == k <= |all|
    requires Listed(all) == Listed(items) + rest
    ensures items == CutTo(all, k)
  {
    ListedCut(all, k);
    ListedLength(items);
    ListedLength(CutTo(all, k));
    assert Listed(items) == Listed(all)[..k];
    ListedInjective(items, CutTo(all, k));
  }

  lemma PutBack(total: seq<Tx>, front: seq<Tx>, x: Tx, drops: seq<Tx>)
    requires total == (front + [x]) + Reversed(drops)
    ensures total == front + Reversed(drops + [x])
  {
    assert (drops + [x])[..|drops|] == drops;
  }

  /** The last of the sorted keys is the greatest, and the others index the rest. */
  lemma LastKey(items: Items, index: seq<nat>)
    requires Heap.Sorted(NonceLess, index) && index != [] && multiset(items.Keys) == multiset(index)
    ensures var n := index[|index| - 1];
      n in items && (forall k :: k in items ==> k <= n) && multiset((items - {n}).Keys) == multiset(index[..|index| - 1])
  {
    var n := index[|index| - 1];
    assert n in multiset(index);
    forall k | k in items ensures k <= n {
      assert k in multiset(index);
      var i :| 0 <= i < |index| && index[i] == k;
      assert i < |index| - 1 ==> Heap.Le(NonceLess, index[i], n);
    }
    Heap.DropLast(index);
    KeyRemoved(items, index, index[..|index| - 1], n);
  }

  /** What the first `size` sorted keys and the drops say about the original contents. */
  ghost predicate Cut(all: Items, items: Items, index: seq<nat>, size: nat, drops: seq<Tx>)
    requires size <= |index|
  {
    && ByNonce(items) && multiset(items.Keys) == multiset(index[..size])
    && Listed(all) == Listed(items) + Reversed(drops)
  }

  lemma CutStep(all: Items, items: Items, index: seq<nat>, size: nat, drops: seq<Tx>)
    requires Heap.Sorted(NonceLess, index) && size < |index| && Cut(all, items, index, size + 1, drops)
    ensures index[size] in items
    ensures Cut(all, items - {index[size]}, index, size, drops + [items[index[size]]])
  {
    LastKey(items, index[..size + 1]);
    assert index[..size + 1][..size] == index[..size];
    ListedLast(items, index[size]);
    PutBack(Listed(all), Listed(items - {index[size]}), items[index[size]], drops);
  }

  function Only(m: Items, keys: set<nat>): Items { map n | n in m && n in keys :: m[n] }

  lemma TxsWithout(all: Items, m: Items, n: nat)
    requires ByNonce(all) && n in m && Part(m, all)
    ensures multiset(Txs(m)) == multiset(Txs(m - {n})) + multiset{m[n]}
    ensures multiset(Txs(all) - Txs(m - {n})) == multiset(Txs(all) - Txs(m)) + multiset{m[n]}
  {
    var rest := m - {n};
    assert forall k :: k in rest ==> rest[k] == m[k] && m[k].nonce == k && k != n;
    assert m[n] in Txs(m);
    forall tx | tx in Txs(m) ensures tx in Txs(rest) + {m[n]} {
      var k :| k in m && m[k] == tx;
      assert k != n ==> k in rest && rest[k] == tx;
    }
    assert Txs(m) == Txs(rest) + {m[n]};
    assert m[n] in Txs(all) by { assert all[n] == m[n]; }
    assert Txs(all) - Txs(rest) == (Txs(all) - Txs(m)) + {m[n]};
  }

  /** Filter's progress: what is left when the nonces in `todo` are still to be looked at. */
  function Sifted(m: Items, todo: set<nat>, p: Tx -> bool): Items {
    map n | n in m && (n in todo || !p(m[n])) :: m[n]
  }

  lemma SiftedStep(m: Items, todo: set<nat>, p: Tx -> bool, n: nat)
    requires ByNonce(m) && n in todo && n in m
    ensures n in Sifted(m, todo, p) && Sifted(m, todo, p)[n] == m[n]
    ensures Sifted(m, todo - {n}, p) == if p(m[n]) then Sifted(m, todo, p) - {n} else Sifted(m, todo, p)
    ensures multiset(Txs(m) - Txs(Sifted(m, todo, p) - {n})) == multiset(Txs(m) - Txs(Sifted(m, todo, p))) + multiset{m[n]}
  {
    TxsWithout(m, Sifted(m, todo, p), n);
  }

  lemma SiftedEnds(m: Items, p: Tx -> bool)
    requires ByNonce(m)
    ensures Sifted(m, m.Keys, p) == m && Sifted(m, {}, p) == Without(m, p) && ByNonce(Without(m, p))
    ensures Txs(m) - Txs(m) == {}
  {
  }

  /** The first of the sorted contents has the least nonce. */
  lemma FirstSorted(m: Items, r: seq<Tx>, n: nat)
    requires ByNonce(m) && Heap.Sorted(TxLess, r) && multiset(r) == multiset(Txs(m)) && IsLeast(m.Keys, n)
    ensures r != [] && r[0] == m[n]
  {
    assert m[n] in multiset(Txs(m));
    var i :| 0 <= i < |r| && r[i] == m[n];
    assert r[0] in multiset(r);
    var k :| k in m && m[k] == r[0];
    assert i > 0 ==> Heap.Le(TxLess, r[0], r[i]);
    assert !TxLess(r[i], r[0]) && k <= n;
  }

  lemma DropFirst(r: seq<Tx>, s: multiset<Tx>)
    requires r != [] && multiset(r) == s + multiset{r[0]}
    ensures multiset(r[1..]) == s
  {
    assert r == [r[0]] + r[1..];
    assert multiset(r) == multiset(r[1..]) + multiset{r[0]};
    assert multiset(r[1..]) == multiset(r) - multiset{r[0]} && s == multiset(r) - multiset{r[0]};
  }

  /** A sorted arrangement of the contents is the listing. */
  lemma {:induction false} SortedIsListed(m: Items, r: seq<Tx>)
    requires ByNonce(m) && Heap.Sorted(TxLess, r) && multiset(r) == multiset(Txs(m))
    ensures r == Listed(m)
    decreases |m|
  {
    if m == map[] {
      assert |multiset(r)| == |r|;
    } else {
      var n := Least(m.Keys);
      ListedHead(m, n);
      FirstSorted(m, r, n);
      TxsWithout(m, m, n);
      DropFirst(r, multiset(Txs(m - {n})));
      SortedIsListed(m - {n}, r[1..]);
    }
  }

  lemma RunStep(m: Items, next: nat)
    requires next in m
    ensures RunEnd((m - {next}).Keys, next + 1) == RunEnd(m.Keys, next)
    ensures From(m - {next}, RunEnd(m.Keys, next)) == From(m, RunEnd(m.Keys, next))
  {
    var e, keys := RunEnd(m.Keys, next), (m - {next}).Keys;
    assert forall k :: k in keys <==> k in m && k != next;
    RunEndIs(keys, next + 1, e);
  }

  lemma RunEndIs(keys: set<nat>, n: nat, e: nat)
    requires n <= e && e !in keys && forall k :: n <= k < e ==> k in keys
    ensures RunEnd(keys, n) == e
  {
  }

  lemma Shift(total: seq<Tx>, done: seq<Tx>, x: Tx, rest: seq<Tx>)
    requires total == done + ([x] + rest)
    ensures total == (done + [x]) + rest
  {
  }

  method SortKeys(keys: seq<nat>) returns (r: seq<nat>)
    ensures Heap.Sorted(NonceLess, r) && multiset(r) == multiset(keys) && |r| == |keys|
  {
    NonceOrder();
    r := Heap.Sort(NonceLess, keys);
    assert |multiset(r)| == |multiset(keys)|;
  }

  method HeapKeys(keys: seq<nat>) returns (r: seq<nat>)
    ensures Heap.IsHeap(NonceLess, r) && multiset(r) == multiset(keys) && |r| == |keys|
  {
    NonceOrder();
    r := Heap.Heapify(NonceLess, keys);
    assert |multiset(r)| == |multiset(keys)|;
  }

  method PushKey(keys: seq<nat>, x: nat) returns (r: seq<nat>)
    requires Heap.IsHeap(NonceLess, keys)
    ensures Heap.IsHeap(NonceLess, r) && multiset(r) == multiset(keys) + multiset{x}
  {
    NonceOrder();
    r := Heap.Push(NonceLess, keys, x);
  }

  method PopKey(keys: seq<nat>) returns (x: nat, r: seq<nat>)
    requires Heap.IsHeap(NonceLess, keys) && keys != []
    ensures x == keys[0] && Heap.IsHeap(NonceLess, r) && multiset(keys) == multiset(r) + multiset{x}
  {
    NonceOrder();
    x, r := Heap.Pop(NonceLess, keys);
  }

  method RemoveKey(keys: seq<nat>, i: nat) returns (r: seq<nat>)
    requires Heap.IsHeap(NonceLess, keys) && i < |keys|
    ensures Heap.IsHeap(NonceLess, r) && multiset(keys) == multiset(r) + multiset{keys[i]}
  {
    NonceOrder();
    r := Heap.RemoveAt(NonceLess, keys, i);
  }

  lemma KeyPut(items: Items, tx: Tx)
    ensures multiset(items[tx.nonce := tx].Keys) ==
      if tx.nonce in items then multiset(items.Keys) else multiset(items.Keys) + multiset{tx.nonce}
  {
    if tx.nonce in items {
      assert items[tx.nonce := tx].Keys == items.Keys;
    } else {
      assert items[tx.nonce := tx].Keys == items.Keys + {tx.nonce};
      assert multiset(items.Keys + {tx.nonce}) == multiset(items.Keys) + multiset{tx.nonce};
    }
  }

  class SortedMap {
    var items: Items
    var index: seq<nat>
    var cache: Option<seq<Tx>>

    ghost predicate Valid()
      reads this
    {
      && ByNonce(items) && Indexed(items, index)
      && (cache.Some? ==> cache.value == Listed(items))
    }

    constructor ()
      ensures Valid() && items == map[]
    {
      items, index, cache := map[], [], None;
    }

    /** Put */
    method Put(tx: Tx)
      requires Valid()
      modifies this
      ensures Valid() && items == old(items)[tx.nonce := tx]
    {
      if tx.nonce !in items {
        index := PushKey(index, tx.nonce);
      }
      KeyPut(items, tx);
      items, cache := items[tx.nonce := tx], None;
    }

    /** One heap.Pop with the deletion that follows it. */
    method PopLeast() returns (tx: Tx)
      requires ByNonce(items) && Indexed(items, index) && index != []
      modifies `items, `index
      ensures ByNonce(items) && Indexed(items, index)
      ensures tx.nonce == old(index[0]) && tx.nonce in old(items) && tx == old(items)[tx.nonce]
      ensures items == old(items) - {tx.nonce} && |items| == |old(items)| - 1
      ensures IsLeast(old(items).Keys, tx.nonce) && Listed(old(items)) == [tx] + Listed(items)
    {
      HeadIsLeastKey(items, index);
      ListedHead(items, index[0]);
      ghost var was := index;
      var nonce;
      nonce, index := PopKey(index);
      KeyRemoved(items, was, index, nonce);
      tx := items[nonce];
      items := items - {nonce};
    }

    /** Pop off heap items until the threshold is reached. */
    method PopBelow(threshold: nat) returns (removed: seq<Tx>)
      requires Valid()
      modifies `items, `index
      ensures ByNonce(items) && Indexed(items, index)
      ensures items == From(old(items), threshold) && Listed(old(items)) == removed + Listed(items)
    {
      removed := [];
      while index != [] && index[0] < threshold
        invariant ByNonce(items) && Indexed(items, index)
        invariant From(items, threshold) == From(old(items), threshold)
        invariant Listed(old(items)) == removed + Listed(items)
        decreases |items|
      {
        ghost var was := items;
        var tx := PopLeast();
        assert From(items, threshold) == From(was, threshold);
        Shift(Listed(old(items)), removed, tx, Listed(items));
        removed := removed + [tx];
      }
      EmptyTogether(items, index);
      if index != [] { HeadIsLeastKey(items, index); }
      assert items == From(items, threshold);
    }

    /** Forward: everything below the threshold leaves, in nonce order, and a cache is only
        sliced. */
    method Forward(threshold: nat) returns (removed: seq<Tx>)
      requires Valid()
      modifies this
      ensures Valid() && items == From(old(items), threshold)
      ensures removed == Listed(Below(old(items), threshold))
      ensures cache.Some? <==> old(cache).Some?
    {
      removed := PopBelow(threshold);
      ListedSplit(old(items), threshold);
      SamePrefix(removed, Listed(Below(old(items), threshold)), Listed(items));
      if cache.Some? {
        cache := Some(cache.value[|removed|..]);
      }
    }

    /** heap.Init over the remaining keys, taken in any order. */
    method Reindex()
      modifies `index
      ensures Indexed(items, index)
    {
      var keys, todo := [], items.Keys;
      while todo != {}
        invariant todo <= items.Keys && multiset(keys) + multiset(todo) == multiset(items.Keys)
      {
        var n :| n in todo;
        assert multiset(todo) == multiset(todo - {n}) + multiset{n};
        keys, todo := keys + [n], todo - {n};
      }
      index := HeapKeys(keys);
    }

    /** Filter: exactly the transactions that satisfy the predicate leave, each once. */
    method Filter(p: Tx -> bool) returns (removed: seq<Tx>)
      requires Valid()
      modifies this
      ensures Valid() && items == Without(old(items), p)
      ensures multiset(removed) == multiset(Txs(old(items)) - Txs(items))
    {
      removed := [];
      var todo := items.Keys;
      SiftedEnds(items, p);
      while todo != {}
        invariant todo <= items.Keys && items == Sifted(old(items), todo, p)
        invariant multiset(removed) == multiset(Txs(old(items)) - Txs(items))
        invariant removed == [] ==> items == old(items)
        modifies `items
      {
        var n :| n in todo;
        SiftedStep(old(items), todo, p, n);
        todo := todo - {n};
        if p(items[n]) {
          removed := removed + [items[n]];
          items := items - {n};
        }
      }
      if removed != [] {
        Reindex();
        cache := None;
      }
    }

    /** Remove, with the linear search for the heap position. */
    method Remove(nonce: nat) returns (found: bool)
      requires Valid()
      modifies this
      ensures Valid() && found == (nonce in old(items)) && items == old(items) - {nonce}
    {
      found := nonce in items;
      if !found { return; }
      assert nonce in multiset(index);
      var i := 0;
      while index[i] != nonce
        invariant 0 <= i < |index| && nonce in index[i..]
        decreases |index| - i
      {
        i := i + 1;
      }
      ghost var was := index;
      index := RemoveKey(index, i);
      KeyRemoved(items, was, index, nonce);
      items, cache := items - {nonce}, None;
    }

    /** The loop that gathers and drops the highest nonces. */
    method DropItems(threshold: nat, sorted: seq<nat>) returns (drops: seq<Tx>)
      requires Heap.Sorted(NonceLess, sorted) && threshold <= |sorted|
      requires ByNonce(items) && multiset(items.Keys) == multiset(sorted)
      modifies `items
      ensures Cut(old(items), items, sorted, threshold, drops)
    {
      drops := [];
      var size := |sorted|;
      assert sorted[..size] == sorted && Listed(items) + [] == Listed(items);
      while size > threshold
        invariant threshold <= size <= |sorted| && Cut(old(items), items, sorted, size, drops)
      {
        size := size - 1;
        CutStep(old(items), items, sorted, size, drops);
        drops := drops + [items[sorted[size]]];
        items := items - {sorted[size]};
      }
    }

    /** Sorting the index, dropping, and making the rest a heap again. */
    method DropAbove(threshold: nat) returns (drops: seq<Tx>)
      requires ByNonce(items) && Indexed(items, index) && threshold <= |index|
      modifies `items, `index
      ensures ByNonce(items) && Indexed(items, index) && |items| == threshold
      ensures Listed(old(items)) == Listed(items) + Reversed(drops)
    {
      index := SortKeys(index);
      drops := DropItems(threshold, index);
      index := HeapKeys(index[..threshold]);
      EmptyTogether(items, index);
    }

    /** Cap: the highest nonces leave, highest first. */
    method Cap(threshold: nat) returns (drops: seq<Tx>)
      requires Valid()
      modifies this
      ensures Valid() && items == CutTo(old(items), threshold)
      ensures Listed(old(items)) == Listed(items) + Reversed(drops)
    {
      drops := [];
      ListedLength(items);
      EmptyTogether(items, index);
      if |items| > threshold {
        drops := DropAbove(threshold);
        CutIs(old(items), items, Reversed(drops), threshold);
        ListedLength(items);
        ReversedLength(drops);
        if cache.Some? {
          cache := Some(cache.value[..|cache.value| - |drops|]);
        }
      }
    }

    /** The accumulation of incremental transactions. */
    method PopRun() returns (ready: seq<Tx>)
      requires ByNonce(items) && Indexed(items, index) && index != []
      modifies `items, `index
      ensures ByNonce(items) && Indexed(items, index) && old(index) != []
      ensures items == From(old(items), RunEnd(old(items).Keys, old(index[0])))
      ensures Listed(old(items)) == ready + Listed(items)
    {
      HeadIsLeastKey(items, index);
      var next := index[0];
      ghost var e := RunEnd(items.Keys, next);
      ready := [];
      while index != [] && index[0] == next
        invariant ByNonce(items) && Indexed(items, index)
        invariant RunEnd(items.Keys, next) == e && From(items, e) == From(old(items), e)
        invariant forall k :: k in items ==> next <= k
        invariant Listed(old(items)) == ready + Listed(items)
        decreases |items|
      {
        ghost var was := items;
        var tx := PopLeast();
        RunStep(was, next);
        Shift(Listed(old(items)), ready, tx, Listed(items));
        ready := ready + [tx];
        next := next + 1;
      }
      EmptyTogether(items, index);
      if index != [] { HeadIsLeastKey(items, index); }
      assert items == From(items, e);
    }

    /** Ready: the run of consecutive nonces at the front leaves, unless it starts too late. */
    method Ready(start: nat) returns (ready: seq<Tx>)
      requires Valid()
      modifies this
      ensures Valid() && items == From(old(items), ReadyEnd(old(items), start))
      ensures ready == Listed(Below(old(items), ReadyEnd(old(items), start)))
    {
      EmptyTogether(items, index);
      if index != [] { HeadIsLeastKey(items, index); }
      if index == [] || index[0] > start {
        ready := [];
        assert items == From(items, 0) && Below(items, 0) == map[];
        return;
      }
      ready := PopRun();
      cache := None;
      ListedSplit(old(items), ReadyEnd(old(items), start));
      SamePrefix(ready, Listed(Below(old(items), ReadyEnd(old(items), start))), Listed(items));
    }

    /** Flatten: the contents in nonce order, from the cache when there is one. */
    method Flatten() returns (txs: seq<Tx>)
      requires Valid()
      modifies `cache
      ensures Valid() && txs == Listed(items)
    {
      if cache.None? {
        NonceOrder();
        var all, todo := [], items.Keys;
        assert Only(items, todo) == items;
        while todo != {}
          invariant todo <= items.Keys
          invariant multiset(all) + multiset(Txs(Only(items, todo))) == multiset(Txs(items))
        {
          var n :| n in todo;
          TxsWithout(items, Only(items, todo), n);
          assert Only(items, todo) - {n} == Only(items, todo - {n});
          all, todo := all + [items[n]], todo - {n};
        }
        all := Heap.Sort(TxLess, all);
        SortedIsListed(items, all);
        cache := Some(all);
      }
      txs := cache.value;
    }
  }

  lemma SamePrefix(a: seq<Tx>, b: seq<Tx>, c: seq<Tx>)
    requires a + c == b + c
    ensures a == b
  {
    assert |a| == |b|;
    assert (a + c)[..|a|] == a && (b + c)[..|b|] == b;
  }

  /** The part below a threshold comes first. */
  lemma {:induction false} ListedSplit(m: Items, t: nat)
    ensures Listed(m) == Listed(Below(m, t)) + Listed(From(m, t))
    decreases |m|
  {
    if m == map[] {
      assert Below(m, t) == map[] && From(m, t) == map[];
    } else {
      var n := Least(m.Keys);
      ListedHead(m, n);
      ListedSplit(m - {n}, t);
      if n < t {
        assert IsLeast(Below(m, t).Keys, n);
        ListedHead(Below(m, t), n);
        assert Below(m, t) - {n} == Below(m - {n}, t) && From(m, t) == From(m - {n}, t);
      } else {
        assert Below(m, t) == map[] && From(m, t) == m;
      }
    }
  }
}
