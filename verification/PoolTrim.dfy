/** Truncating the queue: accounts are emptied by heartbeat, the latest first, and at most
    one of them keeps a part. */
module PoolTrim {
  import opened TxTypes
  import opened L = TxList
  import opened PoolState
  import opened PoolLevels
  import Heap

  /** The last heartbeat of an account; the zero time when there is none. */
  function Beat(beats: map<Addr, nat>, a: Addr): nat { if a in beats then beats[a] else 0 }

  /** Some lowest nonces are kept. */
  ghost predicate Cutback(m0: Items, m: Items) { exists k: nat :: m == CutTo(m0, k) }

  /** What may be left of an account's queue: the locals and those in `todo` are untouched, and
      of the others only one in `partial` has anything left. */
  ghost predicate LeftAt(q0: Lists, q: Lists, locals: set<Addr>, todo: set<Addr>, partial: set<Addr>, a: Addr) {
    && (a in locals || a in todo ==> SameAt(q0, q, a))
    && (a in q ==> a in q0 && (a in locals || a in todo || a in partial) && Cutback(Of(q0, a), Of(q, a)))
  }

  predicate Popped(q0: Lists, locals: set<Addr>, todo: set<Addr>, a: Addr) {
    a in q0 && a !in locals && a !in todo
  }

  ghost predicate Trimming(q0: Lists, q: Lists, locals: set<Addr>, beats: map<Addr, nat>, todo: set<Addr>,
                           partial: set<Addr>) {
    && (forall a {:trigger LeftAt(q0, q, locals, todo, partial, a)} :: LeftAt(q0, q, locals, todo, partial, a))
    && (forall a, b {:trigger Popped(q0, locals, todo, a), Beat(beats, b)} ::
          Popped(q0, locals, todo, a) && (b in todo || b in partial) ==> Beat(beats, b) <= Beat(beats, a))
    && (forall a :: a in todo ==> a in q0 && a !in locals)
    && (forall a :: a in partial ==> Popped(q0, locals, todo, a))
  }

  lemma TrimStarts(q0: Lists, locals: set<Addr>, beats: map<Addr, nat>, todo: set<Addr>)
    requires forall a :: a in todo <==> a in q0 && a !in locals
    ensures Trimming(q0, q0, locals, beats, todo, {})
  {
    forall a ensures LeftAt(q0, q0, locals, todo, {}, a) {
      if a in q0 { assert q0[a].items == CutTo(q0[a].items, |q0[a].items|); }
    }
  }

  /** The next account, with the latest heartbeat, loses everything or, as the last one, all
      but some lowest nonces. */
  lemma TrimStep(q0: Lists, q: Lists, q': Lists, locals: set<Addr>, beats: map<Addr, nat>, todo: set<Addr>, a: Addr)
    requires Trimming(q0, q, locals, beats, todo, {}) && a in todo && OnlyAt(q, q', a)
    requires forall b :: b in todo ==> Beat(beats, b) <= Beat(beats, a)
    requires a in q' ==> Cutback(Of(q, a), Of(q', a))
    ensures Trimming(q0, q', locals, beats, todo - {a}, if a in q' then {a} else {})
  {
    var partial := if a in q' then {a} else {};
    assert LeftAt(q0, q, locals, todo, {}, a);
    assert SameAt(q0, q, a);
    forall b ensures LeftAt(q0, q', locals, todo - {a}, partial, b) {
      assert LeftAt(q0, q, locals, todo, {}, b);
      if b != a { assert SameAt(q, q', b); }
    }
    forall b, c | Popped(q0, locals, todo - {a}, b) && (c in todo - {a} || c in partial) ensures Beat(beats, c) <= Beat(beats, b) {
      if b != a { assert Popped(q0, locals, todo, b); }
    }
  }

  /** If an account lost anything, every account with a later heartbeat lost everything. */
  lemma LatestFirst(q0: Lists, q: Lists, locals: set<Addr>, beats: map<Addr, nat>, todo: set<Addr>,
                    partial: set<Addr>, a: Addr, b: Addr)
    requires Trimming(q0, q, locals, beats, todo, partial)
    requires a in q0 && b in q0 && b !in locals && Beat(beats, a) < Beat(beats, b) && !SameAt(q0, q, a)
    ensures a !in locals && b !in q
  {
    assert LeftAt(q0, q, locals, todo, partial, a) && LeftAt(q0, q, locals, todo, partial, b);
    assert Popped(q0, locals, todo, a);
  }

  lemma LocalQueues(q0: Lists, q: Lists, locals: set<Addr>, beats: map<Addr, nat>, todo: set<Addr>, partial: set<Addr>)
    requires Trimming(q0, q, locals, beats, todo, partial)
    ensures forall a {:trigger a in locals} :: a in locals ==> SameAt(q0, q, a)
  {
    forall a | a in locals ensures SameAt(q0, q, a) { assert LeftAt(q0, q, locals, todo, partial, a); }
  }

  // ----- When the oldest go first after all -----

  /** If a remote account lost anything, every remote account with an earlier heartbeat lost
      everything. */
  ghost predicate OldestFirst(q0: Lists, q: Lists, locals: set<Addr>, beats: map<Addr, nat>) {
    forall a, b {:trigger Beat(beats, a), Beat(beats, b)} ::
      a in Others(q0, locals) && b in Others(q0, locals) && Beat(beats, b) < Beat(beats, a) && !SameAt(q0, q, a) ==> b !in q
  }

  function Sharing(ls: Lists, locals: set<Addr>): Lists { map a | a in ls && a in locals :: ls[a] }

  function Others(ls: Lists, locals: set<Addr>): Lists { map a | a in ls && a !in locals :: ls[a] }

  lemma TotalSplit(ls: Lists, locals: set<Addr>)
    ensures Total(ls) == Total(Sharing(ls, locals)) + Total(Others(ls, locals))
  {
    var x, y := Sharing(ls, locals), Others(ls, locals);
    assert Slots(ls) == Slots(x) + Slots(y) && Slots(x) !! Slots(y);
  }

  /** All remote queues have the same heartbeat. */
  ghost predicate OneBeat(ls: Lists, locals: set<Addr>, beats: map<Addr, nat>) {
    forall a, b {:trigger Beat(beats, a), Beat(beats, b)} ::
      a in Others(ls, locals) && b in Others(ls, locals) ==> Beat(beats, a) == Beat(beats, b)
  }

  lemma {:induction false} Extremes(accounts: set<Addr>, beats: map<Addr, nat>) returns (x: Addr, y: Addr)
    requires accounts != {}
    ensures x in accounts && y in accounts
    ensures forall a :: a in accounts ==> Beat(beats, x) <= Beat(beats, a) <= Beat(beats, y)
  {
    var a :| a in accounts;
    if accounts == {a} {
      x, y := a, a;
    } else {
      x, y := Extremes(accounts - {a}, beats);
      if Beat(beats, a) < Beat(beats, x) { x := a; }
      if Beat(beats, a) > Beat(beats, y) { y := a; }
      assert forall b :: b in accounts ==> b == a || b in accounts - {a};
    }
  }

  lemma NoSlots(ls: Lists)
    requires ListsOk(ls, false)
    ensures Total(ls) == 0 <==> ls == map[]
  {
    if ls != map[] {
      var a :| a in ls;
      assert ListAt(ls, false, a);
      var n :| n in ls[a].items;
      assert (a, n) in Slots(ls);
    }
  }

  /** The remote part of a queue that was truncated to `size`. */
  lemma RemoteLeft(q0: Lists, q: Lists, locals: set<Addr>, size: nat)
    requires ListsOk(q, false) && Total(q) == size && Total(q0) > size
    requires (forall a {:trigger a in locals} :: a in locals ==> SameAt(q0, q, a)) && forall a :: a in q ==> a in q0
    ensures Others(q, locals) == map[] <==> Total(q0) - size >= Total(Others(q0, locals))
    ensures exists a :: a in q0 && a !in locals && !SameAt(q0, q, a)
  {
    TotalSplit(q0, locals);
    TotalSplit(q, locals);
    assert Sharing(q, locals) == Sharing(q0, locals) by {
      assert forall a :: a in locals ==> SameAt(q0, q, a);
    }
    forall a ensures ListAt(Others(q, locals), false, a) { assert ListAt(q, false, a); }
    NoSlots(Others(q, locals));
    if forall a :: a in q0 ==> SameAt(q0, q, a) { NothingLost(q0, q); }
  }

  lemma NothingLost(q0: Lists, q: Lists)
    requires (forall a :: a in q0 ==> SameAt(q0, q, a)) && forall a :: a in q ==> a in q0
    ensures Total(q) == Total(q0)
  {
    assert q == q0;
  }

  /** A lost account with the latest heartbeat, and a remaining one with the earliest. */
  lemma Outer(q0: Lists, q: Lists, locals: set<Addr>, beats: map<Addr, nat>, todo: set<Addr>, partial: set<Addr>,
              lost: Addr, left: Addr) returns (a: Addr, b: Addr)
    requires Trimming(q0, q, locals, beats, todo, partial)
    requires lost in Others(q0, locals) && !SameAt(q0, q, lost) && left in Others(q0, locals) && left in q
    ensures a in Others(q0, locals) && !SameAt(q0, q, a) && b in Others(q0, locals) && b in q
    ensures forall c :: c in Others(q0, locals) ==> Beat(beats, b) <= Beat(beats, c) <= Beat(beats, a)
  {
    var x, y := Extremes(Others(q0, locals).Keys, beats);
    a, b := lost, left;
    if Beat(beats, lost) < Beat(beats, y) {
      LatestFirst(q0, q, locals, beats, todo, partial, lost, y);
      a := y;
    }
    if Beat(beats, x) < Beat(beats, left) {
      if x !in q {
        LatestFirst(q0, q, locals, beats, todo, partial, x, left);
      }
      b := x;
    }
  }

  /** Truncating to `size` takes the oldest first exactly if there is nothing to take, everything
      remote is taken, or all remote heartbeats are equal. */
  lemma OldestFirstIff(q0: Lists, q: Lists, locals: set<Addr>, beats: map<Addr, nat>, todo: set<Addr>,
                       partial: set<Addr>, size: nat)
    requires Trimming(q0, q, locals, beats, todo, partial) && ListsOk(q, false)
    requires Total(q0) <= size ==> q == q0
    requires Total(q0) > size ==> Total(q) == size || (Total(q) > size && forall a :: a in q ==> a in locals)
    ensures OldestFirst(q0, q, locals, beats) <==>
              Total(q0) <= size || Total(q0) - size >= Total(Others(q0, locals)) || OneBeat(q0, locals, beats)
  {
    LocalQueues(q0, q, locals, beats, todo, partial);
    if Total(q0) > size {
      if Total(q) == size {
        Subsumed(q0, q, locals, beats, todo, partial);
        RemoteLeft(q0, q, locals, size);
        if Others(q, locals) != map[] {
          var lost :| lost in q0 && lost !in locals && !SameAt(q0, q, lost);
          var left :| left in Others(q, locals);
          var a, b := Outer(q0, q, locals, beats, todo, partial, lost, left);
          OuterDecides(q0, q, locals, beats, a, b);
        } else {
          assert forall b :: b in Others(q0, locals) && b in q ==> b in Others(q, locals);
        }
      } else {
        OnlySharing(q0, q, locals, size);
      }
    }
  }

  lemma Subsumed(q0: Lists, q: Lists, locals: set<Addr>, beats: map<Addr, nat>, todo: set<Addr>, partial: set<Addr>)
    requires Trimming(q0, q, locals, beats, todo, partial)
    ensures forall a :: a in q ==> a in q0
  {
    forall a | a in q ensures a in q0 { assert LeftAt(q0, q, locals, todo, partial, a); }
  }

  lemma OuterDecides(q0: Lists, q: Lists, locals: set<Addr>, beats: map<Addr, nat>, a: Addr, b: Addr)
    requires a in Others(q0, locals) && !SameAt(q0, q, a) && b in Others(q0, locals) && b in q
    requires forall c :: c in Others(q0, locals) ==> Beat(beats, b) <= Beat(beats, c) <= Beat(beats, a)
    ensures OldestFirst(q0, q, locals, beats) <==> OneBeat(q0, locals, beats)
  {
  }

  lemma OnlySharing(q0: Lists, q: Lists, locals: set<Addr>, size: nat)
    requires Total(q0) > size && Total(q) > size && forall a :: a in q ==> a in locals
    requires forall a {:trigger a in locals} :: a in locals ==> SameAt(q0, q, a)
    ensures Total(q0) - size >= Total(Others(q0, locals))
  {
    TotalSplit(q0, locals);
    assert Sharing(q0, locals) == q by {
      assert forall a :: a in locals ==> SameAt(q0, q, a);
    }
  }

  /** Queues only lose transactions. */
  lemma TrimmedKeys(q0: Lists, q: Lists, locals: set<Addr>, beats: map<Addr, nat>, todo: set<Addr>, partial: set<Addr>)
    requires Trimming(q0, q, locals, beats, todo, partial)
    ensures forall a {:trigger Of(q, a)} :: Of(q, a).Keys <= Of(q0, a).Keys
  {
    forall a ensures Of(q, a).Keys <= Of(q0, a).Keys {
      assert LeftAt(q0, q, locals, todo, partial, a);
      if a in q {
        var k: nat :| Of(q, a) == CutTo(Of(q0, a), k);
        CutPart(Of(q0, a), k);
      }
    }
  }

  // ----- Sorting by heartbeat -----

  type Address = (Addr, nat)

  predicate BeatLess(x: Address, y: Address) { x.1 < y.1 }

  lemma BeatOrder()
    ensures Heap.Order(BeatLess)
  {
  }

  /** The accounts of `s`, each once, with their heartbeats in increasing order. */
  ghost predicate ByBeat(s: seq<Address>, beats: map<Addr, nat>, accounts: set<Addr>) {
    && (forall i, j :: 0 <= i < j < |s| ==> s[i].1 <= s[j].1 && s[i].0 != s[j].0)
    && (forall i :: 0 <= i < |s| ==> s[i].1 == Beat(beats, s[i].0) && s[i].0 in accounts)
    && (forall a {:trigger (a, Beat(beats, a)) in s} :: a in accounts ==> (a, Beat(beats, a)) in s)
  }

  lemma LastBeat(s: seq<Address>, beats: map<Addr, nat>, accounts: set<Addr>)
    requires ByBeat(s, beats, accounts) && s != []
    ensures var last := s[|s| - 1];
      && last.0 in accounts && ByBeat(s[..|s| - 1], beats, accounts - {last.0})
      && forall b :: b in accounts ==> Beat(beats, b) <= Beat(beats, last.0)
  {
    var last := s[|s| - 1];
    forall a | a in accounts ensures Beat(beats, a) <= Beat(beats, last.0) {
      assert (a, Beat(beats, a)) in s;
    }
    forall a | a in accounts - {last.0} ensures (a, Beat(beats, a)) in s[..|s| - 1] {
      assert (a, Beat(beats, a)) in s;
    }
  }

  lemma OnlyLocals(q0: Lists, q: Lists, locals: set<Addr>, beats: map<Addr, nat>, todo: set<Addr>,
                   addresses: seq<Address>)
    requires Trimming(q0, q, locals, beats, todo, {}) && ByBeat(addresses, beats, todo) && addresses == []
    ensures forall a :: a in q ==> a in locals
  {
    forall a | a in q ensures a in locals {
      assert LeftAt(q0, q, locals, todo, {}, a);
      assert a in todo ==> (a, Beat(beats, a)) in addresses;
    }
  }

  method SortByBeat(accounts: set<Addr>, beats: map<Addr, nat>) returns (s: seq<Address>)
    ensures ByBeat(s, beats, accounts)
  {
    BeatOrder();
    var list: seq<Address>, todo := [], accounts;
    while todo != {}
      invariant todo <= accounts && multiset(list) == multiset(Tagged(beats, accounts - todo))
    {
      var a :| a in todo;
      assert Tagged(beats, accounts - (todo - {a})) == Tagged(beats, accounts - todo) + {(a, Beat(beats, a))};
      list, todo := list + [(a, Beat(beats, a))], todo - {a};
    }
    assert accounts - {} == accounts;
    s := Heap.Sort(BeatLess, list);
    SortedTagged(s, beats, accounts);
  }

  ghost function Tagged(beats: map<Addr, nat>, accounts: set<Addr>): set<Address> {
    set a | a in accounts :: (a, Beat(beats, a))
  }

  lemma SortedTagged(s: seq<Address>, beats: map<Addr, nat>, accounts: set<Addr>)
    requires Heap.Sorted(BeatLess, s) && multiset(s) == multiset(Tagged(beats, accounts))
    ensures ByBeat(s, beats, accounts)
  {
    forall i | 0 <= i < |s| ensures s[i] in Tagged(beats, accounts) { assert s[i] in multiset(s); }
    forall i, j | 0 <= i < j < |s| ensures s[i].1 <= s[j].1 && s[i].0 != s[j].0 {
      assert Heap.Le(BeatLess, s[i], s[j]);
      if s[i] == s[j] { Repeated(s, i, j); }
    }
    forall a | a in accounts ensures (a, Beat(beats, a)) in s {
      assert (a, Beat(beats, a)) in Tagged(beats, accounts);
      assert (a, Beat(beats, a)) in multiset(s);
    }
  }

  lemma Repeated(s: seq<Address>, i: nat, j: nat)
    requires i < j < |s| && s[i] == s[j]
    ensures multiset(s)[s[i]] >= 2
  {
    assert s == s[..j] + [s[j]] + s[j + 1..];
    assert s[i] in s[..j];
    assert s[i] in multiset(s[..j]);
  }
}
