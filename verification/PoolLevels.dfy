/** Equalizing the pending lists: the state is always the original lists cut at one level. */
module PoolLevels {
  import opened TxTypes
  import opened L = TxList
  import opened PoolState

  /** The places taken by transactions. */
  function Slots(ls: Lists): set<(Addr, nat)> {
    set a, n | a in ls && n in ls[a].items :: (a, n)
  }

  /** The number of transactions in all lists. */
  function Total(ls: Lists): nat { |Slots(ls)| }

  function Row(a: Addr, keys: set<nat>): set<(Addr, nat)> { set n | n in keys :: (a, n) }

  lemma {:induction false} Paired(a: Addr, keys: set<nat>)
    ensures |Row(a, keys)| == |keys|
  {
    if keys != {} {
      var x :| x in keys;
      Paired(a, keys - {x});
      assert Row(a, keys) == Row(a, keys - {x}) + {(a, x)} && (a, x) !in Row(a, keys - {x});
    }
  }

  lemma TotalAt(ls: Lists, a: Addr)
    requires a in ls
    ensures Total(ls) == |ls[a].items| + Total(ls - {a})
  {
    var keys, rest := ls[a].items.Keys, ls - {a};
    Paired(a, keys);
    forall s ensures s in Slots(ls) <==> s in Row(a, keys) || s in Slots(rest) {
      assert s.0 != a && s.0 in ls ==> s.0 in rest && rest[s.0] == ls[s.0];
    }
    assert Slots(ls) == Row(a, keys) + Slots(rest) && Row(a, keys) !! Slots(rest);
  }

  /** A change to one list. */
  lemma TotalOnlyAt(ls: Lists, ls': Lists, a: Addr)
    requires OnlyAt(ls, ls', a)
    ensures Total(ls') + |Of(ls, a)| == Total(ls) + |Of(ls', a)|
  {
    if a in ls { TotalAt(ls, a); }
    if a in ls' { TotalAt(ls', a); }
    assert ls - {a} == ls' - {a} by {
      forall b | b != a ensures SameAt(ls, ls', b) {}
      assert forall b :: b in ls || b in ls' ==> b == a || SameAt(ls, ls', b);
    }
    assert a !in ls ==> ls - {a} == ls;
    assert a !in ls' ==> ls' - {a} == ls';
  }

  /** The counting loop. */
  method Count(ls: Lists) returns (total: nat)
    ensures total == Total(ls)
  {
    total := 0;
    var left := ls;
    assert ls - {} == ls;
    while left != map[]
      invariant Total(ls) == total + Total(left)
      decreases |left|
    {
      var a :| a in left;
      TotalAt(left, a);
      assert (left - {a}).Keys == left.Keys - {a};
      total := total + |left[a].items|;
      left := left - {a};
    }
  }

  lemma TotalUpdate(ls: Lists, a: Addr, l: List)
    requires a in ls
    ensures Total(ls[a := l]) == Total(ls) - |ls[a].items| + |l.items|
  {
    TotalAt(ls, a);
    TotalAt(ls[a := l], a);
    assert ls[a := l] - {a} == ls - {a};
  }

  /** Every list that is not local cut to the `k` lowest nonces. */
  function Leveled(ls: Lists, locals: set<Addr>, k: nat): Lists {
    map a | a in ls :: Cut(ls[a], a in locals, k)
  }

  function Cut(l: List, local: bool, k: nat): List {
    if local then l else l.(items := CutTo(l.items, k))
  }

  predicate CutAt(now: Lists, ls: Lists, locals: set<Addr>, k: nat, a: Addr) {
    (a in now <==> a in ls) && (a in ls ==> now[a] == Cut(ls[a], a in locals, k))
  }

  ghost predicate IsLevel(now: Lists, ls: Lists, locals: set<Addr>, k: nat) {
    forall a {:trigger CutAt(now, ls, locals, k, a)} :: CutAt(now, ls, locals, k, a)
  }

  lemma LevelIs(now: Lists, ls: Lists, locals: set<Addr>, k: nat)
    requires IsLevel(now, ls, locals, k)
    ensures now == Leveled(ls, locals, k)
  {
    assert forall a :: a in now || a in ls ==> CutAt(now, ls, locals, k, a);
  }

  function Goal(k: nat, done: set<Addr>, a: Addr): nat { if a in done then k else k + 1 }

  /** In the middle of a round: the lists in `done` are at level `k`, the others at `k` + 1. */
  ghost predicate Midway(now: Lists, ls: Lists, locals: set<Addr>, k: nat, done: set<Addr>) {
    forall a {:trigger CutAt(now, ls, locals, Goal(k, done, a), a)} ::
      CutAt(now, ls, locals, Goal(k, done, a), a)
  }

  lemma MidwayStep(now: Lists, ls: Lists, locals: set<Addr>, k: nat, done: set<Addr>, a: Addr)
    requires Midway(now, ls, locals, k, done) && Exceeds(ls, locals, k, a) && a !in done
    ensures a in now && |now[a].items| == k + 1
    ensures Midway(now[a := now[a].(items := DropGreatest(now[a].items))], ls, locals, k, done + {a})
  {
    assert CutAt(now, ls, locals, Goal(k, done, a), a);
    CutFurther(ls[a].items, k);
    var now' := now[a := now[a].(items := DropGreatest(now[a].items))];
    forall b ensures CutAt(now', ls, locals, Goal(k, done + {a}, b), b) {
      assert CutAt(now, ls, locals, Goal(k, done, b), b);
    }
  }

  /** A round over every list longer than `k` ends at level `k`. */
  lemma RoundDone(now: Lists, ls: Lists, locals: set<Addr>, k: nat, s: seq<Addr>)
    requires Midway(now, ls, locals, k, Members(s)) && Exactly(s, ls, locals, k)
    ensures IsLevel(now, ls, locals, k)
  {
    forall a ensures CutAt(now, ls, locals, k, a) {
      assert CutAt(now, ls, locals, Goal(k, Members(s), a), a);
      assert a in s <==> Exceeds(ls, locals, k, a);
    }
  }

  lemma RoundStarts(now: Lists, ls: Lists, locals: set<Addr>, k: nat)
    requires IsLevel(now, ls, locals, k + 1)
    ensures Midway(now, ls, locals, k, Members([]))
  {
    forall a ensures CutAt(now, ls, locals, Goal(k, Members([]), a), a) {
      assert a !in Members([]) && CutAt(now, ls, locals, k + 1, a);
    }
  }

  /** At this level the total is still too large. */
  ghost predicate Crowded(ls: Lists, locals: set<Addr>, k: nat, slots: nat) {
    exists now :: IsLevel(now, ls, locals, k) && Total(now) > slots
  }

  lemma CrowdedIs(ls: Lists, locals: set<Addr>, k: nat, slots: nat)
    requires Crowded(ls, locals, k, slots)
    ensures Total(Leveled(ls, locals, k)) > slots
  {
    var now :| IsLevel(now, ls, locals, k) && Total(now) > slots;
    LevelIs(now, ls, locals, k);
  }

  predicate Exceeds(ls: Lists, locals: set<Addr>, k: nat, a: Addr) {
    a in ls && a !in locals && k < |ls[a].items|
  }

  /** `s` lists, each once, the accounts that are not local and have more than `k`. */
  ghost predicate Exactly(s: seq<Addr>, ls: Lists, locals: set<Addr>, k: nat) {
    Distinct(s) && forall a {:trigger Exceeds(ls, locals, k, a)} :: a in s <==> Exceeds(ls, locals, k, a)
  }

  ghost predicate Distinct(s: seq<Addr>) { forall i, j :: 0 <= i < j < |s| ==> s[i] != s[j] }

  ghost function Members(s: seq<Addr>): set<Addr> { set a | a in s }

  lemma MembersStep(s: seq<Addr>, i: nat)
    requires Distinct(s) && i < |s|
    ensures s[i] !in Members(s[..i]) && Members(s[..i + 1]) == Members(s[..i]) + {s[i]}
  {
    assert s[..i + 1] == s[..i] + [s[i]];
  }

  lemma LevelLength(now: Lists, ls: Lists, locals: set<Addr>, k: nat, a: Addr)
    requires IsLevel(now, ls, locals, k) && a in ls && a !in locals
    ensures a in now && |now[a].items| == if |ls[a].items| <= k then |ls[a].items| else k
  {
    assert CutAt(now, ls, locals, k, a);
  }

  lemma LevelAbove(ls: Lists, locals: set<Addr>, k: nat)
    requires forall a: Addr :: !Exceeds(ls, locals, k, a)
    ensures IsLevel(ls, ls, locals, k)
  {
    forall a ensures CutAt(ls, ls, locals, k, a) { assert !Exceeds(ls, locals, k, a); }
  }

  ghost predicate NoneExceeds(ls: Lists, locals: set<Addr>, k: nat) {
    forall a {:trigger Exceeds(ls, locals, k, a)} :: !Exceeds(ls, locals, k, a)
  }

  /** Nothing was cut without need: one level higher, the total would still be too large. */
  ghost predicate Tight(ls: Lists, locals: set<Addr>, k: nat, slots: nat) {
    NoneExceeds(ls, locals, k) || Crowded(ls, locals, k + 1, slots)
  }

  // ----- The order in which offenders are found -----

  /** The priority queue holds the accounts over their guaranteed slots that were not popped
      yet, none of which is longer than the last one popped. */
  ghost predicate Hunt(offenders: seq<Addr>, spammers: map<Addr, nat>, ls: Lists, locals: set<Addr>, slots: nat) {
    && Distinct(offenders)
    && (forall a {:trigger Exceeds(ls, locals, slots, a)} :: Exceeds(ls, locals, slots, a) <==> a in offenders || a in spammers)
    && (forall a :: a in spammers ==> a !in offenders && a in ls && spammers[a] == |ls[a].items|)
    && (offenders != [] ==> LeastSoFar(offenders, spammers, ls))
  }

  ghost predicate LeastSoFar(offenders: seq<Addr>, spammers: map<Addr, nat>, ls: Lists)
    requires offenders != []
  {
    var last := offenders[|offenders| - 1];
    && last in ls
    && (forall a :: a in spammers && a in ls ==> |ls[a].items| <= |ls[last].items|)
    && (forall a :: a in offenders && a in ls ==> |ls[last].items| <= |ls[a].items|)
  }

  ghost predicate IsMax(spammers: map<Addr, nat>, a: Addr) {
    a in spammers && forall b :: b in spammers ==> spammers[b] <= spammers[a]
  }

  lemma MaxExists(spammers: map<Addr, nat>)
    requires spammers != map[]
    ensures exists a :: IsMax(spammers, a)
    decreases |spammers|
  {
    var a :| a in spammers;
    var rest := spammers - {a};
    assert rest.Keys == spammers.Keys - {a};
    assert forall b :: b in spammers && b != a ==> b in rest;
    if rest == map[] {
      assert IsMax(spammers, a);
    } else {
      MaxExists(rest);
      var m :| IsMax(rest, m);
      assert IsMax(spammers, if spammers[a] <= spammers[m] then m else a);
    }
  }

  lemma HuntNext(offenders: seq<Addr>, spammers: map<Addr, nat>, ls: Lists, locals: set<Addr>, slots: nat, a: Addr)
    requires Hunt(offenders, spammers, ls, locals, slots) && IsMax(spammers, a)
    ensures Hunt(offenders + [a], spammers - {a}, ls, locals, slots)
  {
    assert Exceeds(ls, locals, slots, a);
  }

  lemma HuntStep(offenders: seq<Addr>, spammers: map<Addr, nat>, ls: Lists, locals: set<Addr>, slots: nat, a: Addr)
    requires Hunt(offenders, spammers, ls, locals, slots) && IsMax(spammers, a)
    ensures a in ls && a !in locals && slots < |ls[a].items|
    ensures offenders == [] ==> NoneExceeds(ls, locals, |ls[a].items|)
    ensures offenders != [] ==>
      var last := offenders[|offenders| - 1];
      && last in ls && last !in locals && |ls[a].items| <= |ls[last].items|
      && forall k {:trigger Exactly(offenders, ls, locals, k)} ::
           |ls[a].items| <= k < |ls[last].items| ==> Exactly(offenders, ls, locals, k)
  {
    assert Exceeds(ls, locals, slots, a);
    forall b, k: nat | k >= |ls[a].items| && Exceeds(ls, locals, k, b) ensures b in offenders {
      assert Exceeds(ls, locals, slots, b);
    }
    if offenders != [] {
      var last := offenders[|offenders| - 1];
      assert last in offenders && Exceeds(ls, locals, slots, last);
      forall k: nat | |ls[a].items| <= k < |ls[last].items| ensures Exactly(offenders, ls, locals, k) {
        forall b ensures b in offenders <==> Exceeds(ls, locals, k, b) {
          if b in offenders { assert Exceeds(ls, locals, slots, b); }
        }
      }
    }
  }

  /** When the queue is empty, the offenders are exactly the accounts above each level down to
      the guaranteed slots. */
  lemma HuntDone(offenders: seq<Addr>, ls: Lists, locals: set<Addr>, slots: nat, k: nat)
    requires Hunt(offenders, map[], ls, locals, slots) && offenders != []
    ensures var last := offenders[|offenders| - 1];
      last in ls && last !in locals && (slots <= k < |ls[last].items| ==> Exactly(offenders, ls, locals, k))
  {
    var last := offenders[|offenders| - 1];
    assert last in offenders && Exceeds(ls, locals, slots, last);
    if slots <= k < |ls[last].items| {
      forall b ensures b in offenders <==> Exceeds(ls, locals, k, b) {
        assert b in offenders <==> Exceeds(ls, locals, slots, b);
      }
    }
  }

  lemma HuntStarts(ls: Lists, locals: set<Addr>, slots: nat, spammers: map<Addr, nat>)
    requires spammers == map a | a in ls && a !in locals && |ls[a].items| > slots :: |ls[a].items|
    ensures Hunt([], spammers, ls, locals, slots)
  {
  }

  lemma LastExceeds(offenders: seq<Addr>, spammers: map<Addr, nat>, ls: Lists, locals: set<Addr>, slots: nat)
    requires Hunt(offenders, spammers, ls, locals, slots) && offenders != []
    ensures Exceeds(ls, locals, slots, offenders[|offenders| - 1])
  {
    assert offenders[|offenders| - 1] in offenders;
  }

  lemma NoneLeft(ls: Lists, locals: set<Addr>, slots: nat)
    requires Hunt([], map[], ls, locals, slots)
    ensures NoneExceeds(ls, locals, slots) && IsLevel(ls, ls, locals, slots)
  {
    LevelAbove(ls, locals, slots);
  }

  lemma AllWithin(ls: Lists, locals: set<Addr>, k: nat)
    requires Total(ls) <= k
    ensures NoneExceeds(ls, locals, k) && IsLevel(ls, ls, locals, k)
  {
    forall a ensures !Exceeds(ls, locals, k, a) { if a in ls { TotalAt(ls, a); } }
    LevelAbove(ls, locals, k);
  }

  /** Locals are untouched, and at the guaranteed level nobody else exceeds it. */
  lemma LevelLimits(ls: Lists, now: Lists, locals: set<Addr>, k: nat, slots: nat)
    requires IsLevel(now, ls, locals, k)
    ensures forall a {:trigger a in locals} :: a in locals ==> SameAt(ls, now, a)
    ensures k == slots ==> NoneExceeds(now, locals, slots)
  {
    forall a ensures a in locals ==> SameAt(ls, now, a)
             ensures k == slots ==> !Exceeds(now, locals, slots, a) {
      assert CutAt(now, ls, locals, k, a);
    }
  }

  /** What cutting at one level means for the accounts: locals keep everything, no list is cut
      below the level, all lists that lost something end equally long, and no list that kept
      everything is longer than one that did not. */
  lemma LevelIsFair(ls: Lists, locals: set<Addr>, k: nat, a: Addr, b: Addr)
    requires a in ls && b in ls
    ensures a in locals ==> Leveled(ls, locals, k)[a] == ls[a]
    ensures var cut := Leveled(ls, locals, k);
      && Part(cut[a].items, ls[a].items)
      && (cut[a] != ls[a] ==> |cut[a].items| == k < |ls[a].items|)
      && (cut[a] != ls[a] && b !in locals ==> |cut[b].items| <= |cut[a].items|)
      && forall i, j :: i in cut[a].items && j in ls[a].items && j !in cut[a].items ==> i < j
  {
    CutPart(ls[a].items, k);
    forall i, j | i in CutTo(ls[a].items, k) && j in ls[a].items && j !in CutTo(ls[a].items, k) ensures i < j {
      CutLowest(ls[a].items, k, i, j);
    }
  }
}
