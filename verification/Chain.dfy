/** Headers in the database, linked by parent hashes, and the number index over them. */
module Chain {

  /** Hashes are injective identifiers; EMPTY is the zero hash. */
  type Hash = nat
  const EMPTY: Hash := 0
  const MAX_UINT64: nat := 0xffff_ffff_ffff_ffff

  datatype Header = Header(hash: Hash, parent: Hash, number: nat, difficulty: int)

  /** Database keys hold the hash and the number. */
  datatype Key = Key(hash: Hash, number: nat)

  type Store = map<Key, Header>
  type Tds = map<Key, int>
  type Index = map<nat, Hash>

  function KeyOf(h: Header): Key { Key(h.hash, h.number) }

  /** number - 1 on uint64. */
  function Pred(n: nat): nat { if n == 0 then MAX_UINT64 else n - 1 }

  function ParentKey(h: Header): Key { Key(h.parent, Pred(h.number)) }

  // ----- The stored headers form one tree over the genesis -----

  ghost predicate Linked(store: Store, tds: Tds, genesis: Header, k: Key)
    requires k in store
  {
    && KeyOf(store[k]) == k && k.hash != EMPTY && k.number < MAX_UINT64
    && k in tds
    && (if k.number == 0 then store[k] == genesis
        else ParentKey(store[k]) in store && ParentKey(store[k]) in tds
             && tds[k] == tds[ParentKey(store[k])] + store[k].difficulty)
  }

  ghost predicate Tree(store: Store, tds: Tds, genesis: Header) {
    && genesis.number == 0 && KeyOf(genesis) in store
    && tds.Keys == store.Keys
    && forall k {:trigger Linked(store, tds, genesis, k)} :: k in store ==> Linked(store, tds, genesis, k)
  }

  /** The block `n` parent links above block `k`. */
  ghost function Walk(store: Store, k: Key, n: nat): (r: Key)
    requires n <= k.number
    ensures r.number == k.number - n
    decreases n
  {
    if n == 0 then k
    else Walk(store, Key(if k in store then store[k].parent else EMPTY, k.number - 1), n - 1)
  }

  // ----- The number index -----

  ghost predicate On(store: Store, canon: Index, n: nat) {
    n in canon && Key(canon[n], n) in store
  }

  /** Entry `n` of the index is the parent of entry `n + 1`. */
  ghost predicate Steps(store: Store, canon: Index, n: nat) {
    On(store, canon, n) && On(store, canon, n + 1) && store[Key(canon[n + 1], n + 1)].parent == canon[n]
  }

  /** The index over lo..hi is a path of parent links. */
  ghost predicate Path(store: Store, canon: Index, lo: nat, hi: nat) {
    && (forall n: nat :: lo <= n <= hi ==> On(store, canon, n))
    && forall n: nat :: lo <= n < hi ==> Steps(store, canon, n)
  }

  /** The index is the head's ancestor path at every height up to the head. */
  ghost predicate Canonical(store: Store, canon: Index, head: Header) {
    head.number in canon && canon[head.number] == head.hash && Path(store, canon, 0, head.number)
  }

  /** A path in the index is what following parent links gives. */
  lemma {:induction false} PathIsWalk(store: Store, canon: Index, lo: nat, hi: nat, n: nat)
    requires Path(store, canon, lo, hi) && n <= hi && lo <= hi - n
    ensures On(store, canon, hi) && On(store, canon, hi - n)
    ensures Walk(store, Key(canon[hi], hi), n) == Key(canon[hi - n], hi - n)
  {
    assert On(store, canon, hi) && On(store, canon, hi - n);
    if n > 0 {
      assert Steps(store, canon, hi - 1);
      assert Path(store, canon, lo, hi - 1);
      PathIsWalk(store, canon, lo, hi - 1, n - 1);
    }
  }

  /** The index is the head's ancestor path, entry by entry. */
  lemma IndexIsHeadPath(store: Store, canon: Index, head: Header, n: nat)
    requires Canonical(store, canon, head) && n <= head.number
    ensures n in canon && Walk(store, KeyOf(head), head.number - n) == Key(canon[n], n)
  {
    PathIsWalk(store, canon, 0, head.number, head.number - n);
  }

  ghost predicate Extends(store: Store, more: Store) {
    forall q :: q in store ==> q in more && more[q] == store[q]
  }

  lemma PathGrows(store: Store, more: Store, canon: Index, lo: nat, hi: nat)
    requires Path(store, canon, lo, hi) && Extends(store, more)
    ensures Path(more, canon, lo, hi)
  {
    forall n: nat | lo <= n <= hi ensures On(more, canon, n) {
      assert On(store, canon, n);
    }
    forall n: nat | lo <= n < hi ensures Steps(more, canon, n) {
      assert Steps(store, canon, n);
    }
  }

  /** Indices that agree on a range have the same paths there. */
  lemma PathSame(store: Store, canon: Index, other: Index, lo: nat, hi: nat)
    requires Path(store, canon, lo, hi)
    requires forall n: nat :: lo <= n <= hi ==> n in other && n in canon && other[n] == canon[n]
    ensures Path(store, other, lo, hi)
  {
    forall n: nat | lo <= n <= hi ensures On(store, other, n) {
      assert On(store, canon, n);
    }
    forall n: nat | lo <= n < hi ensures Steps(store, other, n) {
      assert Steps(store, canon, n);
    }
  }

  lemma PathJoin(store: Store, canon: Index, lo: nat, mid: nat, hi: nat)
    requires lo <= mid < hi && Path(store, canon, lo, mid) && Path(store, canon, mid + 1, hi)
    requires Steps(store, canon, mid)
    ensures Path(store, canon, lo, hi)
  {
  }

  lemma PathPrefix(store: Store, canon: Index, lo: nat, mid: nat, hi: nat)
    requires Path(store, canon, lo, hi) && mid <= hi
    ensures Path(store, canon, lo, mid)
  {
  }

  /** A new head on top of a path. */
  lemma PathUp(store: Store, canon: Index, head: Header)
    requires head.number > 0 && KeyOf(head) in store && store[KeyOf(head)] == head
    requires Path(store, canon, 0, head.number - 1)
    requires head.number - 1 in canon && canon[head.number - 1] == head.parent
    ensures Canonical(store, canon[head.number := head.hash], head)
  {
    var c, n := canon[head.number := head.hash], head.number;
    forall m: nat | 0 <= m <= n - 1 ensures m in canon {
      assert On(store, canon, m);
    }
    PathSame(store, canon, c, 0, n - 1);
    assert On(store, c, n - 1) && On(store, c, n) && Steps(store, c, n - 1);
    assert Path(store, c, n, n);
    PathJoin(store, c, 0, n - 1, n);
  }

  /** Setting the entry under a path to the parent of its lowest block extends it. */
  lemma PathDown(store: Store, canon: Index, n: nat, hash: Hash, hi: nat)
    requires n < hi && Path(store, canon, n + 1, hi) && Key(hash, n) in store
    requires On(store, canon, n + 1) && store[Key(canon[n + 1], n + 1)].parent == hash
    ensures Path(store, canon[n := hash], n, hi)
  {
    var c := canon[n := hash];
    forall m: nat | n + 1 <= m <= hi ensures m in canon {
      assert On(store, canon, m);
    }
    PathSame(store, canon, c, n + 1, hi);
    assert On(store, c, n) && On(store, c, n + 1);
    assert Path(store, c, n, n);
    PathJoin(store, c, n, n, hi);
  }

  /** A header whose parent is known keeps the stored headers a tree. */
  lemma AddHeader(store: Store, tds: Tds, genesis: Header, h: Header)
    requires Tree(store, tds, genesis) && ParentKey(h) in tds
    requires h.hash != EMPTY && h.number < MAX_UINT64
    requires forall k :: k in store && k.hash == h.hash ==> store[k] == h
    ensures h.number > 0
    ensures var store', tds' := store[KeyOf(h) := h], tds[KeyOf(h) := tds[ParentKey(h)] + h.difficulty];
            && Tree(store', tds', genesis) && Extends(store, store')
            && forall k :: k in tds ==> tds'[k] == tds[k]
  {
    assert Linked(store, tds, genesis, ParentKey(h));
    var store', tds' := store[KeyOf(h) := h], tds[KeyOf(h) := tds[ParentKey(h)] + h.difficulty];
    if KeyOf(h) in store {
      assert Linked(store, tds, genesis, KeyOf(h));
      assert store' == store && tds' == tds;
    } else {
      forall k | k in store' ensures Linked(store', tds', genesis, k) {
        if k != KeyOf(h) { assert Linked(store, tds, genesis, k); }
      }
    }
  }

  lemma BottomIsGenesis(store: Store, tds: Tds, genesis: Header, canon: Index)
    requires Tree(store, tds, genesis) && On(store, canon, 0)
    ensures canon[0] == genesis.hash
  {
    assert Linked(store, tds, genesis, Key(canon[0], 0));
  }

  /** Total difficulty is the sum of the difficulties on the path to the genesis. */
  ghost function PathDifficulty(store: Store, k: Key): int
    decreases k.number
  {
    if k !in store then 0
    else if k.number == 0 then 0
    else PathDifficulty(store, Key(store[k].parent, k.number - 1)) + store[k].difficulty
  }

  lemma {:induction false} TdIsPathDifficulty(store: Store, tds: Tds, genesis: Header, k: Key)
    requires Tree(store, tds, genesis) && k in store
    ensures KeyOf(genesis) in tds && k in tds && tds[k] == tds[KeyOf(genesis)] + PathDifficulty(store, k)
    decreases k.number
  {
    assert Linked(store, tds, genesis, k);
    if k.number > 0 { TdIsPathDifficulty(store, tds, genesis, ParentKey(store[k])); }
  }
}
