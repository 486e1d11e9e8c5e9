/** les/randselect.go: the weighted selection tree. */
module RandSelect {

  type Item = nat
  datatype Option<T> = None | Some(value: T)

  const BRANCHES := 8

  datatype Slot = Empty | Leaf(item: Item) | Sub(node: Node)
  datatype Node = Node(items: seq<Slot>, weights: seq<nat>, sumWeight: nat, level: nat, itemCnt: nat, maxItems: nat)

  /** A stored item with its weight. */
  datatype Entry = Entry(item: Item, weight: nat)
  /** The tree's contents by item index. */
  type Flat = seq<Option<Entry>>

  // ----- Flat contents -----

  function Pow8(k: nat): (p: nat)
    ensures p >= 1
  {
    if k == 0 then 1 else 8 * Pow8(k - 1)
  }

  /** Index of the first item of branch `b`, at `w` items a branch. */
  function Off(w: nat, b: nat): nat {
    if b == 0 then 0 else Off(w, b - 1) + w
  }

  lemma {:induction false} OffIsProduct(w: nat, b: nat)
    ensures Off(w, b) == w * b
  {
    if b > 0 {
      OffIsProduct(w, b - 1);
      assert w * b == w * (b - 1) + w;
    }
  }

  function Weight(e: Option<Entry>): nat { if e.Some? then e.value.weight else 0 }

  ghost function Sum(f: Flat): nat {
    if f == [] then 0 else Weight(f[0]) + Sum(f[1..])
  }

  ghost function Count(f: Flat): nat {
    if f == [] then 0 else (if f[0].Some? then 1 else 0) + Count(f[1..])
  }

  /** A flat prefix-sum scan: the entry whose share of the weights holds `val`. */
  ghost function Pick(f: Flat, val: nat): Entry
    requires val < Sum(f)
  {
    if val < Weight(f[0]) then f[0].value else Pick(f[1..], val - Weight(f[0]))
  }

  ghost function Blank(n: nat): Flat { seq(n, _ => None) }

  /** The contents of one branch. */
  ghost function Part(n: Node, b: nat): Flat
    requires b < |n.items| && b < |n.weights|
    decreases n, 0, b
  {
    match n.items[b]
    case Empty => Blank(Pow8(n.level))
    case Leaf(item) => if n.level == 0 then [Some(Entry(item, n.weights[b]))] else Blank(Pow8(n.level))
    case Sub(c) => FlatFrom(c, 0)
  }

  /** The contents of the branches from `b` on. */
  ghost function FlatFrom(n: Node, b: nat): Flat
    decreases n, 1, |n.items| - b
  {
    if b < |n.items| && b < |n.weights| then Part(n, b) + FlatFrom(n, b + 1) else []
  }

  // ----- Valid trees -----

  ghost predicate SlotOk(n: Node, b: nat)
    requires b < |n.items| && b < |n.weights|
    decreases n, 0
  {
    && n.weights[b] == Sum(Part(n, b)) && |Part(n, b)| == Pow8(n.level)
    && match n.items[b]
       case Empty => true
       case Leaf(_) => n.level == 0 && n.weights[b] > 0
       case Sub(c) => n.level > 0 && c.level == n.level - 1 && Valid(c)
  }

  /** Every node's sum and item count are those of its subtree. */
  ghost predicate Valid(n: Node)
    decreases n, 1
  {
    && |n.items| == |n.weights| == BRANCHES && n.maxItems == Pow8(n.level + 1)
    && (forall b :: 0 <= b < BRANCHES ==> SlotOk(n, b))
    && n.sumWeight == Sum(FlatFrom(n, 0)) && n.itemCnt == Count(FlatFrom(n, 0))
  }

  // ----- Lemmas on flat contents -----

  lemma {:induction false} SumConcat(f: Flat, g: Flat)
    ensures Sum(f + g) == Sum(f) + Sum(g) && Count(f + g) == Count(f) + Count(g)
  {
    if f == [] {
      assert f + g == g;
    } else {
      assert (f + g)[1..] == f[1..] + g;
      SumConcat(f[1..], g);
    }
  }

  lemma {:induction false} SumUpdate(f: Flat, i: nat, e: Option<Entry>)
    requires i < |f|
    ensures Sum(f[i := e]) == Sum(f) - Weight(f[i]) + Weight(e)
    ensures Count(f[i := e]) == Count(f) - (if f[i].Some? then 1 else 0) + (if e.Some? then 1 else 0)
  {
    if i == 0 {
      assert f[0 := e][1..] == f[1..];
    } else {
      assert f[i := e][1..] == f[1..][i - 1 := e];
      SumUpdate(f[1..], i - 1, e);
    }
  }

  lemma {:induction false} BlankSum(n: nat)
    ensures Sum(Blank(n)) == 0 && Count(Blank(n)) == 0
  {
    if n > 0 {
      assert Blank(n)[1..] == Blank(n - 1);
      BlankSum(n - 1);
    }
  }

  lemma {:induction false} CountBound(f: Flat)
    ensures Count(f) <= |f|
  {
    if f != [] { CountBound(f[1..]); }
  }

  /** The scan over a concatenation continues in the second part with the rest. */
  lemma {:induction false} PickConcat(f: Flat, g: Flat, val: nat)
    requires val < Sum(f + g)
    ensures Sum(f + g) == Sum(f) + Sum(g)
    ensures Pick(f + g, val) == if val < Sum(f) then Pick(f, val) else Pick(g, val - Sum(f))
  {
    SumConcat(f, g);
    if f == [] {
      assert f + g == g;
    } else {
      assert (f + g)[1..] == f[1..] + g;
      if val >= Weight(f[0]) { PickConcat(f[1..], g, val - Weight(f[0])); }
    }
  }

  /** Where a branch sits in the flat contents. */
  lemma {:induction false} FlatLength(n: Node, b: nat)
    requires |n.items| == |n.weights| == BRANCHES && b <= BRANCHES
    requires forall i :: 0 <= i < BRANCHES ==> |Part(n, i)| == Pow8(n.level)
    ensures |FlatFrom(n, b)| == Off(Pow8(n.level), BRANCHES - b)
    decreases BRANCHES - b
  {
    if b < BRANCHES { FlatLength(n, b + 1); }
  }

  /** Replacing one entry of one branch replaces one entry of the whole. */
  lemma {:induction false} FlatUpdate(n: Node, n': Node, a: nat, b: nat, k: nat, e: Option<Entry>)
    requires |n.items| == |n.weights| == |n'.items| == |n'.weights| == BRANCHES && a <= b < BRANCHES
    requires forall i :: a <= i < BRANCHES ==> |Part(n, i)| == Pow8(n.level)
    requires forall i :: a <= i < BRANCHES && i != b ==> Part(n', i) == Part(n, i)
    requires k < Pow8(n.level) && Part(n', b) == Part(n, b)[k := e]
    ensures var at, f := Off(Pow8(n.level), b - a) + k, FlatFrom(n, a);
            at < |f| && FlatFrom(n', a) == f[at := e] && f[at] == Part(n, b)[k]
    decreases b - a
  {
    if a == b {
      FlatSame(n, n', a + 1);
      UpdateLeft(Part(n, a), FlatFrom(n, a + 1), k, e);
    } else {
      FlatUpdate(n, n', a + 1, b, k, e);
      UpdateRight(Part(n, a), FlatFrom(n, a + 1), Off(Pow8(n.level), b - a - 1) + k, e);
    }
  }

  lemma UpdateLeft(f: Flat, g: Flat, k: nat, e: Option<Entry>)
    requires k < |f|
    ensures (f + g)[k := e] == f[k := e] + g
  {
  }

  lemma UpdateRight(f: Flat, g: Flat, k: nat, e: Option<Entry>)
    requires k < |g|
    ensures (f + g)[|f| + k := e] == f + g[k := e]
  {
  }

  lemma {:induction false} FlatSame(n: Node, n': Node, a: nat)
    requires |n.items| == |n.weights| == |n'.items| == |n'.weights| == BRANCHES && a <= BRANCHES
    requires forall i :: a <= i < BRANCHES ==> Part(n', i) == Part(n, i)
    ensures FlatFrom(n', a) == FlatFrom(n, a)
    decreases BRANCHES - a
  {
    if a < BRANCHES { FlatSame(n, n', a + 1); }
  }

  /** Nodes that differ in one branch, there by one entry. */
  ghost predicate Differs(n: Node, n': Node, b: nat, k: nat, e: Option<Entry>) {
    && Valid(n) && b < BRANCHES && k < Pow8(n.level)
    && |n'.items| == |n'.weights| == BRANCHES && n'.level == n.level && n'.maxItems == n.maxItems
    && (forall i :: 0 <= i < BRANCHES && i != b ==> n'.items[i] == n.items[i] && n'.weights[i] == n.weights[i])
    && |Part(n, b)| == Pow8(n.level) && Part(n', b) == Part(n, b)[k := e]
  }

  lemma SlotFlat(n: Node, n': Node, b: nat, k: nat, e: Option<Entry>)
    requires Differs(n, n', b, k, e)
    ensures var at, f := Off(Pow8(n.level), b) + k, FlatFrom(n, 0);
      && at < |f| && FlatFrom(n', 0) == f[at := e] && f[at] == Part(n, b)[k]
      && Sum(FlatFrom(n', 0)) == Sum(f) - Weight(f[at]) + Weight(e)
      && Count(FlatFrom(n', 0)) == Count(f) - (if f[at].Some? then 1 else 0) + (if e.Some? then 1 else 0)
    ensures forall i :: 0 <= i < BRANCHES && i != b ==> SlotOk(n', i)
  {
    forall i | 0 <= i < BRANCHES && i != b ensures Part(n', i) == Part(n, i) && SlotOk(n', i) {
      assert SlotOk(n, i);
      SameSlot(n, n', i);
    }
    forall i | 0 <= i < BRANCHES ensures |Part(n, i)| == Pow8(n.level) { assert SlotOk(n, i); }
    FlatUpdate(n, n', 0, b, k, e);
    SumUpdate(FlatFrom(n, 0), Off(Pow8(n.level), b) + k, e);
  }

  /** One entry changes in branch `b`: the node stays valid and so does its contents. */
  lemma SlotChange(n: Node, n': Node, b: nat, k: nat, e: Option<Entry>)
    requires Differs(n, n', b, k, e) && SlotOk(n', b)
    requires n'.sumWeight == n.sumWeight - Weight(Part(n, b)[k]) + Weight(e)
    requires n'.itemCnt == n.itemCnt - (if Part(n, b)[k].Some? then 1 else 0) + (if e.Some? then 1 else 0)
    ensures Valid(n')
    ensures var at, f := Off(Pow8(n.level), b) + k, FlatFrom(n, 0);
            at < |f| && FlatFrom(n', 0) == f[at := e] && f[at] == Part(n, b)[k]
  {
    SlotFlat(n, n', b, k, e);
  }

  lemma SameSlot(n: Node, n': Node, i: nat)
    requires i < |n.items| && i < |n.weights| && i < |n'.items| && i < |n'.weights| && SlotOk(n, i)
    requires n'.level == n.level && n'.items[i] == n.items[i] && n'.weights[i] == n.weights[i]
    ensures Part(n', i) == Part(n, i) && SlotOk(n', i)
  {
  }

  function NewNode(level: nat): Node {
    Node(seq(BRANCHES, _ => Empty), seq(BRANCHES, _ => 0), 0, level, 0, Pow8(level + 1))
  }

  lemma {:induction false} BlankParts(n: Node, b: nat)
    requires |n.items| == |n.weights| == BRANCHES && b <= BRANCHES
    requires forall i :: b <= i < BRANCHES ==> n.items[i] == Empty
    ensures FlatFrom(n, b) == Blank(Off(Pow8(n.level), BRANCHES - b))
    decreases BRANCHES - b
  {
    if b < BRANCHES { BlankParts(n, b + 1); }
  }

  lemma NewNodeValid(level: nat)
    ensures Valid(NewNode(level)) && FlatFrom(NewNode(level), 0) == Blank(Pow8(level + 1))
  {
    var n := NewNode(level);
    BlankSum(Pow8(level));
    BlankParts(n, 0);
    OffIsProduct(Pow8(level), BRANCHES);
    BlankSum(Pow8(level + 1));
  }

  /** If the first branches are full, their count is that of their capacity. */
  lemma {:induction false} FullCount(n: Node, b: nat)
    requires Valid(n) && b <= BRANCHES
    requires forall i :: b <= i < BRANCHES ==> Count(Part(n, i)) == Pow8(n.level)
    ensures Count(FlatFrom(n, b)) == Off(Pow8(n.level), BRANCHES - b)
    decreases BRANCHES - b
  {
    if b < BRANCHES {
      FullCount(n, b + 1);
      SumConcat(Part(n, b), FlatFrom(n, b + 1));
    }
  }

  /** The search of insert: a branch with room exists, so the source's panic is not
      reached. */
  method FindBranch(n: Node) returns (branch: nat)
    requires Valid(n) && n.itemCnt < n.maxItems
    ensures branch < BRANCHES
    ensures match n.items[branch]
            case Empty => true
            case Leaf(_) => false
            case Sub(c) => n.level > 0 && Valid(c) && c.level == n.level - 1 && c.itemCnt < c.maxItems
  {
    branch := 0;
    while !n.items[branch].Empty? && (n.level == 0 || (n.items[branch].Sub? && n.items[branch].node.itemCnt == n.items[branch].node.maxItems))
      invariant branch < BRANCHES
      invariant forall i :: 0 <= i < branch ==> Count(Part(n, i)) == Pow8(n.level)
      decreases BRANCHES - branch
    {
      BranchFull(n, branch);
      if branch + 1 == BRANCHES {
        FullCount(n, 0);
        OffIsProduct(Pow8(n.level), BRANCHES);
        assert false;
      }
      branch := branch + 1;
    }
    assert SlotOk(n, branch);
    if n.items[branch].Sub? {
      var c := n.items[branch].node;
      ItemsBounded(c);
    }
  }

  lemma ItemsBounded(n: Node)
    requires Valid(n)
    ensures n.itemCnt <= n.maxItems && |FlatFrom(n, 0)| == n.maxItems
  {
    forall i | 0 <= i < BRANCHES ensures |Part(n, i)| == Pow8(n.level) { assert SlotOk(n, i); }
    FlatLength(n, 0);
    OffIsProduct(Pow8(n.level), BRANCHES);
    CountBound(FlatFrom(n, 0));
  }

  lemma BranchFull(n: Node, b: nat)
    requires Valid(n) && b < BRANCHES && !n.items[b].Empty?
    requires n.level == 0 || (n.items[b].Sub? && n.items[b].node.itemCnt == n.items[b].node.maxItems)
    ensures Count(Part(n, b)) == Pow8(n.level)
  {
    assert SlotOk(n, b);
    if n.level == 0 {
      var f := Part(n, b);
      assert |f| == 1 && f[0].Some? && f[1..] == [];
      assert Count(f) == 1 + Count(f[1..]);
    } else {
      var c := n.items[b].node;
      assert Valid(c) && c.level + 1 == n.level;
      assert Part(n, b) == FlatFrom(c, 0) && c.itemCnt == Count(FlatFrom(c, 0));
    }
  }

  /** insert: the item lands in a free index and nothing else changes. */
  method Insert(n: Node, item: Item, weight: nat) returns (n': Node, idx: nat)
    requires Valid(n) && n.itemCnt < n.maxItems && weight > 0
    ensures Valid(n') && n'.level == n.level && idx < |FlatFrom(n, 0)|
    ensures FlatFrom(n, 0)[idx] == None && FlatFrom(n', 0) == FlatFrom(n, 0)[idx := Some(Entry(item, weight))]
    decreases n.level
  {
    var branch := FindBranch(n);
    assert SlotOk(n, branch);
    var weights := n.weights[branch := n.weights[branch] + weight];
    n' := n.(itemCnt := n.itemCnt + 1, sumWeight := n.sumWeight + weight, weights := weights);
    if n.level == 0 {
      n' := n'.(items := n.items[branch := Leaf(item)]);
      idx := branch;
      LeafInserted(n, n', branch, item, weight);
      return;
    }
    var sub := if n.items[branch].Empty? then NewNode(n.level - 1) else n.items[branch].node;
    NewNodeValid(n.level - 1);
    ItemsBounded(sub);
    assert FlatFrom(sub, 0) == Part(n, branch);
    var sub', subIdx := Insert(sub, item, weight);
    n' := n'.(items := n.items[branch := Sub(sub')]);
    SubInserted(n, n', branch, sub', subIdx, Some(Entry(item, weight)));
    idx := sub.maxItems * branch + subIdx;
  }

  lemma LeafInserted(n: Node, n': Node, b: nat, item: Item, weight: nat)
    requires Valid(n) && n.level == 0 && b < BRANCHES && n.items[b].Empty? && weight > 0
    requires n' == n.(itemCnt := n.itemCnt + 1, sumWeight := n.sumWeight + weight,
                      weights := n.weights[b := n.weights[b] + weight], items := n.items[b := Leaf(item)])
    ensures Valid(n') && b < |FlatFrom(n, 0)| && FlatFrom(n, 0)[b] == None
    ensures FlatFrom(n', 0) == FlatFrom(n, 0)[b := Some(Entry(item, weight))]
  {
    var e := Some(Entry(item, weight));
    OffIsProduct(1, b);
    LeafParts(n, n', b, e);
    SlotChange(n, n', b, 0, e);
  }

  lemma LeafParts(n: Node, n': Node, b: nat, e: Option<Entry>)
    requires b < |n.items| && b < |n.weights| && b < |n'.items| && b < |n'.weights| && SlotOk(n, b)
    requires n.level == n'.level == 0 && n.items[b].Empty? && e.Some? && e.value.weight > 0
    requires n'.items[b] == Leaf(e.value.item) && n'.weights[b] == n.weights[b] + e.value.weight
    ensures Part(n, b) == [None] && Part(n', b) == [e] && SlotOk(n', b)
  {
    assert Part(n, b) == [None];
    SumUpdate([None], 0, e);
    assert Sum([None]) == 0 by { BlankSum(1); assert Blank(1) == [None]; }
    assert [None][0 := e] == [e];
  }

  lemma SubInserted(n: Node, n': Node, b: nat, sub: Node, k: nat, e: Option<Entry>)
    requires Valid(n) && n.level > 0 && b < BRANCHES && e.Some? && Valid(sub) && sub.level == n.level - 1
    requires |Part(n, b)| == Pow8(n.level) && k < Pow8(n.level) && Part(n, b)[k] == None
    requires FlatFrom(sub, 0) == Part(n, b)[k := e]
    requires n' == n.(itemCnt := n.itemCnt + 1, sumWeight := n.sumWeight + e.value.weight,
                      weights := n.weights[b := n.weights[b] + e.value.weight], items := n.items[b := Sub(sub)])
    ensures Valid(n')
    ensures var at, f := Pow8(n.level) * b + k, FlatFrom(n, 0);
      at < |f| && f[at] == None && FlatFrom(n', 0) == f[at := e]
  {
    assert SlotOk(n, b);
    OffIsProduct(Pow8(n.level), b);
    SumUpdate(Part(n, b), k, e);
    SlotChange(n, n', b, k, e);
  }

  /** Index arithmetic of setWeight. */
  lemma IndexSplit(idx: nat, w: nat)
    requires w > 0 && idx < Off(w, BRANCHES)
    ensures 0 <= idx / w < BRANCHES && 0 <= idx - idx / w * w < w
    ensures idx == Off(w, idx / w) + (idx - idx / w * w)
  {
    var q := idx / w;
    assert idx == q * w + idx % w && 0 <= idx % w < w;
    OffIsProduct(w, q);
    OffIsProduct(w, BRANCHES);
    if q >= BRANCHES { Product(BRANCHES, q, w); }
  }

  lemma Product(a: nat, b: nat, w: nat)
    requires a <= b
    ensures a * w <= b * w
  {
  }

  /** The entry at an index is the entry of its branch. */
  lemma FlatAt(n: Node, b: nat, k: nat)
    requires Valid(n) && b < BRANCHES && k < Pow8(n.level)
    ensures |Part(n, b)| == Pow8(n.level)
    ensures var at := Off(Pow8(n.level), b) + k; at < |FlatFrom(n, 0)| && FlatFrom(n, 0)[at] == Part(n, b)[k]
  {
    forall i | 0 <= i < BRANCHES ensures |Part(n, i)| == Pow8(n.level) { assert SlotOk(n, i); }
    FlatUpdate(n, n, 0, b, k, Part(n, b)[k]);
  }

  function Reweighted(e: Option<Entry>, weight: nat): Option<Entry> {
    if weight == 0 || e.None? then None else Some(Entry(e.value.item, weight))
  }

  /** setWeight: the item at `idx` gets the weight, or leaves when it is zero. */
  method SetWeight(n: Node, idx: nat, weight: nat) returns (n': Node, diff: int)
    requires Valid(n) && idx < |FlatFrom(n, 0)| && FlatFrom(n, 0)[idx].Some?
    ensures Valid(n') && n'.level == n.level
    ensures FlatFrom(n', 0) == FlatFrom(n, 0)[idx := Reweighted(FlatFrom(n, 0)[idx], weight)]
    ensures diff == weight - Weight(FlatFrom(n, 0)[idx])
    decreases n.level
  {
    ItemsBounded(n);
    OffIsProduct(Pow8(n.level), BRANCHES);
    IndexSplit(idx, Pow8(n.level));
    if n.level == 0 {
      n', diff := SetLeaf(n, idx, weight);
      return;
    }
    var branchItems := n.maxItems / BRANCHES;
    var branch := idx / branchItems;
    var k := idx - branch * branchItems;
    FlatAt(n, branch, k);
    assert SlotOk(n, branch);
    ghost var e := Reweighted(Part(n, branch)[k], weight);
    var sub := n.items[branch].node;
    var sub';
    sub', diff := SetWeight(sub, k, weight);
    SumUpdate(Part(n, branch), k, e);
    SumUpdate(FlatFrom(n, 0), idx, e);
    n' := n.(items := n.items[branch := Sub(sub')], weights := n.weights[branch := n.weights[branch] + diff],
             sumWeight := n.sumWeight + diff, itemCnt := if weight == 0 then n.itemCnt - 1 else n.itemCnt);
    SlotChange(n, n', branch, k, e);
  }

  method SetLeaf(n: Node, idx: nat, weight: nat) returns (n': Node, diff: int)
    requires Valid(n) && n.level == 0 && idx < BRANCHES && idx < |FlatFrom(n, 0)| && FlatFrom(n, 0)[idx].Some?
    ensures Valid(n') && n'.level == 0
    ensures FlatFrom(n', 0) == FlatFrom(n, 0)[idx := Reweighted(FlatFrom(n, 0)[idx], weight)]
    ensures diff == weight - Weight(FlatFrom(n, 0)[idx])
  {
    OffIsProduct(1, idx);
    FlatAt(n, idx, 0);
    assert SlotOk(n, idx);
    ghost var e := Reweighted(Part(n, idx)[0], weight);
    SumUpdate(FlatFrom(n, 0), idx, e);
    var oldWeight := n.weights[idx];
    diff := weight - oldWeight;
    assert Part(n, idx)[1..] == [];
    n' := n.(weights := n.weights[idx := weight], sumWeight := n.sumWeight + diff);
    if weight == 0 {
      n' := n'.(items := n.items[idx := Empty], itemCnt := n.itemCnt - 1);
    }
    assert Part(n', idx) == [e] && Part(n', idx)[1..] == [];
    SlotChange(n, n', idx, 0, e);
  }

  /** choose: the tree descent picks what a flat prefix-sum scan picks. */
  method ChooseNode(n: Node, val: nat) returns (item: Item, weight: nat)
    requires Valid(n) && val < n.sumWeight
    ensures Entry(item, weight) == Pick(FlatFrom(n, 0), val)
    decreases n.level
  {
    var v: nat, i: nat := val, 0;
    while true
      invariant i <= BRANCHES && v < Sum(FlatFrom(n, i))
      invariant Pick(FlatFrom(n, i), v) == Pick(FlatFrom(n, 0), val)
      decreases BRANCHES - i
    {
      assert FlatFrom(n, BRANCHES) == [];
      assert SlotOk(n, i);
      PickConcat(Part(n, i), FlatFrom(n, i + 1), v);
      var w := n.weights[i];
      if v < w {
        BranchNonempty(n, i);
        if n.level == 0 {
          return n.items[i].item, w;
        }
        item, weight := ChooseNode(n.items[i].node, v);
        return;
      }
      v := v - w;
      i := i + 1;
    }
  }

  lemma BranchNonempty(n: Node, b: nat)
    requires Valid(n) && b < BRANCHES && n.weights[b] > 0
    ensures if n.level == 0 then n.items[b].Leaf? && Part(n, b) == [Some(Entry(n.items[b].item, n.weights[b]))]
            else n.items[b].Sub? && Part(n, b) == FlatFrom(n.items[b].node, 0)
  {
    assert SlotOk(n, b);
    if n.items[b].Empty? { BlankSum(Pow8(n.level)); }
  }

  // ----- weightedRandomSelect -----

  /** A new root above a full one. */
  function Grown(n: Node): Node {
    Node([Sub(n)] + seq(BRANCHES - 1, _ => Empty), [n.sumWeight] + seq(BRANCHES - 1, _ => 0),
         n.sumWeight, n.level + 1, n.itemCnt, n.maxItems * BRANCHES)
  }

  /** Adding a level leaves every index where it was. */
  lemma GrownValid(n: Node)
    requires Valid(n)
    ensures Valid(Grown(n)) && Grown(n).itemCnt <= n.maxItems < Grown(n).maxItems
    ensures FlatFrom(Grown(n), 0) == FlatFrom(n, 0) + Blank(Off(Pow8(n.level + 1), BRANCHES - 1))
  {
    var g := Grown(n);
    ItemsBounded(n);
    BlankParts(g, 1);
    BlankSum(Pow8(g.level));
    var blanks := Off(Pow8(g.level), BRANCHES - 1);
    BlankSum(blanks);
    assert Part(g, 0) == FlatFrom(n, 0);
    assert FlatFrom(g, 0) == Part(g, 0) + FlatFrom(g, 1);
    SumConcat(FlatFrom(n, 0), Blank(blanks));
    forall b | 0 <= b < BRANCHES ensures SlotOk(g, b) {
      if b > 0 { assert Part(g, b) == Blank(Pow8(g.level)); }
    }
  }

  /** The index map names exactly the occupied indices, each by its item. */
  ghost predicate IndexOk(f: Flat, idx: map<Item, nat>) {
    && (forall x :: x in idx ==> idx[x] < |f| && f[idx[x]].Some? && f[idx[x]].value.item == x)
    && forall i :: 0 <= i < |f| && f[i].Some? ==> f[i].value.item in idx && idx[f[i].value.item] == i
  }

  ghost function WeightIn(f: Flat, idx: map<Item, nat>, x: Item): nat
    requires IndexOk(f, idx)
  {
    if x in idx then Weight(f[idx[x]]) else 0
  }

  lemma IndexSet(f: Flat, idx: map<Item, nat>, item: Item, weight: nat)
    requires IndexOk(f, idx) && item in idx
    ensures var f', idx' := f[idx[item] := Reweighted(f[idx[item]], weight)], if weight == 0 then idx - {item} else idx;
            && IndexOk(f', idx') && WeightIn(f', idx', item) == weight
            && forall x :: x != item ==> WeightIn(f', idx', x) == WeightIn(f, idx, x)
  {
  }

  lemma IndexAdd(f: Flat, idx: map<Item, nat>, item: Item, at: nat, weight: nat)
    requires IndexOk(f, idx) && item !in idx && at < |f| && f[at] == None
    ensures var f', idx' := f[at := Some(Entry(item, weight))], idx[item := at];
            && IndexOk(f', idx') && WeightIn(f', idx', item) == weight
            && forall x :: x != item ==> WeightIn(f', idx', x) == WeightIn(f, idx, x)
  {
  }

  lemma IndexGrow(f: Flat, idx: map<Item, nat>, k: nat)
    requires IndexOk(f, idx)
    ensures IndexOk(f + Blank(k), idx) && forall x :: WeightIn(f + Blank(k), idx, x) == WeightIn(f, idx, x)
  {
  }

  /** The index of the entry that a draw picks. */
  ghost function PickAt(f: Flat, val: nat): (i: nat)
    requires val < Sum(f)
    ensures i < |f| && f[i] == Some(Pick(f, val)) && Pick(f, val).weight > 0
  {
    if val < Weight(f[0]) then 0 else 1 + PickAt(f[1..], val - Weight(f[0]))
  }

  // ----- Chances -----

  /** How many of the draws below `n` pick the item. */
  ghost function Ways(f: Flat, n: nat, x: Item): nat
    requires n <= Sum(f)
  {
    if n == 0 then 0 else Ways(f, n - 1, x) + if Pick(f, n - 1).item == x then 1 else 0
  }

  lemma {:induction false} WaysFirst(f: Flat, n: nat, x: Item)
    requires f != [] && n <= Weight(f[0])
    ensures Ways(f, n, x) == if f[0].Some? && f[0].value.item == x then n else 0
  {
    if n > 0 { WaysFirst(f, n - 1, x); }
  }

  lemma {:induction false} WaysRest(f: Flat, n: nat, x: Item)
    requires f != [] && Weight(f[0]) <= n <= Sum(f)
    ensures Ways(f, n, x) == Ways(f, Weight(f[0]), x) + Ways(f[1..], n - Weight(f[0]), x)
  {
    if n > Weight(f[0]) { WaysRest(f, n - 1, x); }
  }

  /** The weight of the item in the list. */
  ghost function Share(f: Flat, x: Item): nat {
    if f == [] then 0 else (if f[0].Some? && f[0].value.item == x then f[0].value.weight else 0) + Share(f[1..], x)
  }

  lemma {:induction false} WaysShare(f: Flat, x: Item)
    ensures Ways(f, Sum(f), x) == Share(f, x)
  {
    if f != [] {
      WaysFirst(f, Weight(f[0]), x);
      WaysRest(f, Sum(f), x);
      WaysShare(f[1..], x);
    }
  }

  ghost predicate Lacks(f: Flat, x: Item) { forall i :: 0 <= i < |f| && f[i].Some? ==> f[i].value.item != x }

  lemma {:induction false} ShareNone(f: Flat, x: Item)
    requires Lacks(f, x)
    ensures Share(f, x) == 0
  {
    if f != [] {
      assert forall i :: 0 <= i < |f[1..]| ==> f[1..][i] == f[i + 1];
      ShareNone(f[1..], x);
    }
  }

  lemma {:induction false} ShareOne(f: Flat, x: Item, at: nat)
    requires at < |f| && Lacks(f[..at], x) && Lacks(f[at + 1..], x) && f[at].Some? && f[at].value.item == x
    ensures Share(f, x) == f[at].value.weight
  {
    if at == 0 {
      ShareNone(f[1..], x);
    } else {
      assert f[..at][0] == f[0] && f[1..][..at - 1] == f[..at][1..] && f[1..][at..] == f[at + 1..];
      assert forall i :: 0 <= i < |f[..at][1..]| ==> f[..at][1..][i] == f[..at][i + 1];
      ShareOne(f[1..], x, at - 1);
    }
  }

  /** Of all draws below the total, exactly as many pick an item as its weight says. */
  lemma FairPick(f: Flat, idx: map<Item, nat>, x: Item)
    requires IndexOk(f, idx)
    ensures Ways(f, Sum(f), x) == WeightIn(f, idx, x)
  {
    WaysShare(f, x);
    if x in idx {
      ShareOne(f, x, idx[x]);
    } else {
      ShareNone(f, x);
    }
  }

  /** The `k`-th random number, below a bound. */
  type Draw = (nat, nat) -> nat

  ghost predicate Random(draw: Draw) { forall k, n {:trigger draw(k, n)} :: n > 0 ==> draw(k, n) < n }

  /** The list with the current weight of the item at an index. */
  ghost function Refreshed(f: Flat, at: nat, w: nat): Flat
    requires at < |f|
  {
    if Weight(f[at]) == w then f else f[at := Reweighted(f[at], w)]
  }

  /** One round after the other: a draw by the stored weights, the update of the stored weight, and
      a second draw if the item has become lighter. */
  ghost function Rounds(f: Flat, weight: Item -> nat, draw: Draw, k: nat): (r: (Option<Item>, Flat))
    requires Random(draw)
    decreases Sum(f)
  {
    if Sum(f) == 0 then (None, f)
    else
      var at := PickAt(f, draw(k, Sum(f)));
      var e := f[at].value;
      var w := weight(e.item);
      SumUpdate(f, at, Reweighted(f[at], w));
      if w >= e.weight || draw(k + 1, e.weight) < w then (Some(e.item), Refreshed(f, at, w))
      else Rounds(Refreshed(f, at, w), weight, draw, k + 2)
  }

  class WeightedRandomSelect {
    var root: Node
    var idx: map<Item, nat>

    ghost predicate IsValid()
      reads this
    {
      Valid(root) && IndexOk(FlatFrom(root, 0), idx)
    }

    /** The weight the set holds for an item, zero for an absent one. */
    ghost function Stored(x: Item): nat
      requires IsValid()
      reads this
    {
      WeightIn(FlatFrom(root, 0), idx, x)
    }

    constructor ()
      ensures IsValid() && idx == map[] && root.sumWeight == 0
    {
      root := NewNode(0);
      idx := map[];
      new;
      NewNodeValid(0);
      BlankSum(Pow8(1));
    }

    /** setWeight */
    method SetItem(item: Item, weight: nat)
      requires IsValid()
      modifies this
      ensures IsValid() && Stored(item) == weight && (item in idx <==> weight != 0)
      ensures forall x :: x != item ==> (x in idx <==> x in old(idx)) && Stored(x) == old(Stored(x))
      ensures root.sumWeight == old(root.sumWeight) - old(Stored(item)) + weight
      ensures item in old(idx) ==>
                var f, at := old(FlatFrom(root, 0)), old(idx)[item];
                FlatFrom(root, 0) == f[at := Reweighted(f[at], weight)]
    {
      if item in idx {
        ghost var f := FlatFrom(root, 0);
        var diff;
        root, diff := SetWeight(root, idx[item], weight);
        IndexSet(f, idx, item, weight);
        SumUpdate(f, idx[item], Reweighted(f[idx[item]], weight));
        if weight == 0 {
          idx := idx - {item};
        }
      } else if weight != 0 {
        AddItem(item, weight);
      }
    }

    method AddItem(item: Item, weight: nat)
      requires IsValid() && item !in idx && weight > 0
      modifies this
      ensures IsValid() && Stored(item) == weight && idx.Keys == old(idx).Keys + {item}
      ensures forall x :: x != item ==> Stored(x) == old(Stored(x))
      ensures root.sumWeight == old(root.sumWeight) + weight
    {
      if root.itemCnt == root.maxItems {
        GrownValid(root);
        IndexGrow(FlatFrom(root, 0), idx, Off(Pow8(root.level + 1), BRANCHES - 1));
        root := Grown(root);
      }
      ItemsBounded(root);
      ghost var g := FlatFrom(root, 0);
      var at;
      root, at := Insert(root, item, weight);
      IndexAdd(g, idx, item, at, weight);
      SumUpdate(g, at, Some(Entry(item, weight)));
      idx := idx[item := at];
    }

    /** choose. `weight` gives the items' current weights, `draw` the random numbers. Each retry
        lowers the total, so the loop ends. */
    method Choose(weight: Item -> nat, draw: Draw) returns (choice: Option<Item>)
      requires IsValid() && Random(draw)
      modifies this
      ensures IsValid() && (choice, FlatFrom(root, 0)) == Rounds(old(FlatFrom(root, 0)), weight, draw, 0)
      ensures choice == None ==> root.sumWeight == 0
      ensures choice.Some? ==> choice.value in old(idx) && Stored(choice.value) == weight(choice.value) > 0
      ensures forall x :: Stored(x) == old(Stored(x)) || Stored(x) == weight(x)
    {
      var k := 0;
      while true
        invariant Rounds(FlatFrom(root, 0), weight, draw, k) == Rounds(old(FlatFrom(root, 0)), weight, draw, 0)
        invariant IsValid() && idx.Keys <= old(idx).Keys
        invariant forall x :: Stored(x) == old(Stored(x)) || Stored(x) == weight(x)
        decreases root.sumWeight
      {
        if root.sumWeight == 0 {
          return None;
        }
        var val := draw(k, root.sumWeight);
        var item, last := ChooseNode(root, val);
        ghost var at := PickAt(FlatFrom(root, 0), val);
        var w := weight(item);
        if w != last {
          SetItem(item, w);
        }
        if w >= last || draw(k + 1, last) < w {
          return Some(item);
        }
        k := k + 2;
      }
    }
  }
}
