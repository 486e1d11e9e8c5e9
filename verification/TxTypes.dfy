/** Transactions as the pool sees them. */
module TxTypes {
  type Addr = nat
  datatype Option<T> = None | Some(value: T)

  /** `cost` is value plus gas price times gas limit, `intrinsic` the intrinsic gas, and
      `signed` whether a sender can be recovered. Hashes are injective, so a transaction
      stands for its own hash. */
  datatype Tx = Tx(id: nat, from: Addr, nonce: nat, price: nat, gas: nat, cost: int, value: int,
                   size: nat, intrinsic: nat, signed: bool)

  /** Transactions of one account by nonce. */
  type Items = map<nat, Tx>

  ghost predicate ByNonce(m: Items) {
    forall n :: n in m ==> m[n].nonce == n
  }

  function Below(m: Items, t: nat): Items { map n | n in m && n < t :: m[n] }
  function From(m: Items, t: nat): Items { map n | n in m && n >= t :: m[n] }

  function Without(m: Items, p: Tx -> bool): Items { map n | n in m && !p(m[n]) :: m[n] }
  function Txs(m: Items): set<Tx> { set n | n in m :: m[n] }

  ghost predicate Part(r: Items, m: Items) {
    forall n :: n in r ==> n in m && r[n] == m[n]
  }

  function Onward(keys: set<nat>, n: nat): set<nat> { set k | k in keys && k >= n }

  lemma OnwardShrinks(keys: set<nat>, n: nat)
    requires n in keys
    ensures |Onward(keys, n + 1)| < |Onward(keys, n)|
  {
    assert Onward(keys, n) == Onward(keys, n + 1) + {n};
  }

  /** The first absent nonce from `n` on. */
  function RunEnd(keys: set<nat>, n: nat): (e: nat)
    ensures n <= e && e !in keys && forall k :: n <= k < e ==> k in keys
    decreases |Onward(keys, n)|
  {
    if n !in keys then n
    else
      OnwardShrinks(keys, n);
      RunEnd(keys, n + 1)
  }

  // ----- The contents in nonce order -----

  predicate IsLeast(s: set<nat>, n: nat) { n in s && forall k :: k in s ==> n <= k }

  lemma LeastExists(s: set<nat>)
    requires s != {}
    ensures exists n :: IsLeast(s, n)
  {
    var x :| x in s;
    var below := set k | k in s && k < x;
    if below == {} {
      forall k | k in s ensures x <= k { assert k !in below; }
      assert IsLeast(s, x);
    } else {
      assert x !in below && below < s;
      LeastExists(below);
      var n :| IsLeast(below, n);
      forall k | k in s ensures n <= k { assert k < x ==> k in below; }
      assert IsLeast(s, n);
    }
  }

  function Least(s: set<nat>): (n: nat)
    requires s != {}
    ensures IsLeast(s, n)
  {
    LeastExists(s);
    var n :| IsLeast(s, n);
    n
  }

  /** The transactions in increasing nonce order. */
  ghost function Listed(m: Items): seq<Tx>
    decreases |m|
  {
    if m == map[] then []
    else
      var n := Least(m.Keys);
      assert (m - {n}).Keys == m.Keys - {n};
      [m[n]] + Listed(m - {n})
  }

  lemma ListedHead(m: Items, n: nat)
    requires IsLeast(m.Keys, n)
    ensures Listed(m) == [m[n]] + Listed(m - {n}) && |m - {n}| == |m| - 1
  {
    assert Least(m.Keys) == n;
    assert (m - {n}).Keys == m.Keys - {n};
  }

  lemma {:induction false} ListedLength(m: Items)
    ensures |Listed(m)| == |m|
    decreases |m|
  {
    if m != map[] {
      var n := Least(m.Keys);
      ListedHead(m, n);
      ListedLength(m - {n});
    }
  }

  /** Listed holds exactly the contents. */
  lemma {:induction false} ListedContents(m: Items)
    requires ByNonce(m)
    ensures forall tx :: tx in Listed(m) <==> tx.nonce in m && m[tx.nonce] == tx
    decreases |m|
  {
    if m != map[] {
      var n := Least(m.Keys);
      ListedHead(m, n);
      ListedContents(m - {n});
    }
  }

  /** It is in strictly increasing nonce order. */
  lemma {:induction false} ListedIncreasing(m: Items, i: nat, j: nat)
    requires ByNonce(m) && i < j < |Listed(m)|
    ensures Listed(m)[i].nonce < Listed(m)[j].nonce
    decreases |m|
  {
    var n := Least(m.Keys);
    ListedHead(m, n);
    if i == 0 {
      ListedContents(m - {n});
      assert Listed(m)[j] in Listed(m - {n});
    } else {
      ListedIncreasing(m - {n}, i - 1, j - 1);
    }
  }

  /** Taking out the greatest nonce drops the last element. */
  lemma {:induction false} ListedLast(m: Items, x: nat)
    requires x in m && forall k :: k in m ==> k <= x
    ensures Listed(m) == Listed(m - {x}) + [m[x]]
    decreases |m|
  {
    var n := Least(m.Keys);
    ListedHead(m, n);
    if n == x {
      assert m.Keys == {x};
      assert (m - {x}).Keys == {};
    } else {
      var rest := m - {n};
      ListedLast(rest, x);
      assert IsLeast((m - {x}).Keys, n);
      ListedHead(m - {x}, n);
      assert m - {x} - {n} == rest - {x};
    }
  }

  lemma ListedInjective(a: Items, b: Items)
    requires ByNonce(a) && ByNonce(b) && Listed(a) == Listed(b)
    ensures a == b
  {
    ListedContents(a);
    ListedContents(b);
    assert forall n :: n in a ==> a[n] in Listed(a) && a[n] in Listed(b) && n in b;
    assert forall n :: n in b ==> b[n] in Listed(b) && b[n] in Listed(a) && n in a;
  }

  // ----- Keeping the lowest nonces -----

  predicate IsGreatest(s: set<nat>, n: nat) { n in s && forall k :: k in s ==> k <= n }

  lemma GreatestExists(s: set<nat>)
    requires s != {}
    ensures exists n :: IsGreatest(s, n)
  {
    var x :| x in s;
    if s == {x} {
      assert IsGreatest(s, x);
    } else {
      assert s - {x} != {};
      GreatestExists(s - {x});
      var n :| IsGreatest(s - {x}, n);
      assert forall k :: k in s ==> k == x || k in s - {x};
      assert IsGreatest(s, if n < x then x else n);
    }
  }

  function Greatest(s: set<nat>): (n: nat)
    requires s != {}
    ensures IsGreatest(s, n)
  {
    GreatestExists(s);
    var n :| IsGreatest(s, n);
    n
  }

  function DropGreatest(m: Items): (r: Items)
    requires m != map[]
    ensures |r| == |m| - 1
  {
    assert (m - {Greatest(m.Keys)}).Keys == m.Keys - {Greatest(m.Keys)};
    m - {Greatest(m.Keys)}
  }

  /** The `k` lowest nonces. */
  function CutTo(m: Items, k: nat): (r: Items)
    ensures |r| == if |m| <= k then |m| else k
    decreases |m|
  {
    if |m| <= k then m else CutTo(DropGreatest(m), k)
  }

  lemma {:induction false} CutPart(m: Items, k: nat)
    ensures Part(CutTo(m, k), m)
    decreases |m|
  {
    if |m| > k { CutPart(DropGreatest(m), k); }
  }

  /** Everything kept is below everything dropped. */
  lemma {:induction false} CutLowest(m: Items, k: nat, i: nat, j: nat)
    requires i in CutTo(m, k) && j in m && j !in CutTo(m, k)
    ensures i < j
    decreases |m|
  {
    var n := Greatest(m.Keys);
    if j == n {
      CutPart(DropGreatest(m), k);
      assert i in DropGreatest(m);
    } else {
      CutLowest(DropGreatest(m), k, i, j);
    }
  }

  lemma {:induction false} CutFurther(m: Items, k: nat)
    requires k < |m|
    ensures CutTo(m, k) == DropGreatest(CutTo(m, k + 1))
    decreases |m|
  {
    if |m| > k + 1 { CutFurther(DropGreatest(m), k); }
  }

  lemma {:induction false} ListedCut(m: Items, k: nat)
    requires ByNonce(m)
    ensures ByNonce(CutTo(m, k))
    ensures |Listed(m)| == |m|
    ensures Listed(CutTo(m, k)) == if |m| <= k then Listed(m) else Listed(m)[..k]
    decreases |m|
  {
    ListedLength(m);
    if |m| > k {
      ListedLast(m, Greatest(m.Keys));
      ListedCut(DropGreatest(m), k);
    }
  }
}
