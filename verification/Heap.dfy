/** container/heap on a slice: the operations tx_list.go uses, for an order given as the
    Less comparator. */
module Heap {

  /** Not-greater-than: what Less leaves open. */
  predicate Le<T>(less: (T, T) -> bool, a: T, b: T) { !less(b, a) }

  /** Less comes from a total preorder. */
  ghost predicate Order<T(!new)>(less: (T, T) -> bool) {
    && (forall a, b {:trigger Le(less, a, b)} :: Le(less, a, b) || Le(less, b, a))
    && forall a, b, c {:trigger Le(less, a, b), Le(less, b, c)} :: Le(less, a, b) && Le(less, b, c) ==> Le(less, a, c)
  }

  function Up(k: nat): nat
    requires k > 0
  {
    (k - 1) / 2
  }

  /** Among the first `n`, every element whose parent is at or after `lo` is not less than
      it, except for the links into and out of `hole`. */
  ghost predicate HeapBut<T(!new)>(less: (T, T) -> bool, h: seq<T>, lo: nat, n: nat, hole: nat)
    requires n <= |h|
  {
    && (forall k :: 0 < k < n && lo <= Up(k) && Up(k) != hole && k != hole ==> Le(less, h[Up(k)], h[k]))
    && (forall k :: 0 < k < n && Up(k) == hole && 0 < hole && lo <= Up(hole) ==> Le(less, h[Up(hole)], h[k]))
  }

  ghost predicate IsHeap<T(!new)>(less: (T, T) -> bool, h: seq<T>) {
    forall k :: 0 < k < |h| ==> Le(less, h[Up(k)], h[k])
  }

  /** The head of a heap is a least element. */
  lemma {:induction false} HeadIsLeast<T(!new)>(less: (T, T) -> bool, h: seq<T>, k: nat)
    requires Order(less) && IsHeap(less, h) && k < |h|
    ensures Le(less, h[0], h[k])
  {
    if k == 0 {
      assert Le(less, h[k], h[k]);
    } else {
      HeadIsLeast(less, h, Up(k));
      assert Le(less, h[Up(k)], h[k]);
    }
  }

  function Swap<T>(h: seq<T>, i: nat, j: nat): (r: seq<T>)
    requires i < |h| && j < |h|
    ensures |r| == |h| && multiset(r) == multiset(h)
  {
    h[i := h[j]][j := h[i]]
  }

  /** heap.up from the last element. */
  method SiftUp<T(!new)>(less: (T, T) -> bool, h0: seq<T>, j0: nat) returns (h: seq<T>)
    requires Order(less) && j0 < |h0| && Rising(less, h0, j0)
    ensures IsHeap(less, h) && multiset(h) == multiset(h0)
  {
    h := h0;
    var j := j0;
    while j > 0 && less(h[j], h[Up(j)])
      invariant 0 <= j < |h| == |h0| && multiset(h) == multiset(h0) && Rising(less, h, j)
      decreases j
    {
      Rise(less, h, j);
      h := Swap(h, j, Up(j));
      j := Up(j);
    }
    forall k | 0 < k < |h| ensures Le(less, h[Up(k)], h[k]) {
      assert k != j ==> RisingAt(less, h, j, k);
    }
  }

  /** Only the link from `j` to its parent may be out of order. */
  ghost predicate Rising<T(!new)>(less: (T, T) -> bool, h: seq<T>, j: nat)
    requires j < |h|
  {
    forall k {:trigger RisingAt(less, h, j, k)} :: RisingAt(less, h, j, k)
  }

  ghost predicate RisingAt<T(!new)>(less: (T, T) -> bool, h: seq<T>, j: nat, k: nat)
    requires j < |h|
  {
    && (0 < k < |h| && k != j ==> Le(less, h[Up(k)], h[k]))
    && (0 < k < |h| && j > 0 && Up(k) == j ==> Le(less, h[Up(j)], h[k]))
  }

  lemma Rise<T(!new)>(less: (T, T) -> bool, h: seq<T>, j: nat)
    requires Order(less) && 0 < j < |h| && Rising(less, h, j) && less(h[j], h[Up(j)])
    ensures Rising(less, Swap(h, j, Up(j)), Up(j))
  {
    var u, r := Up(j), Swap(h, j, Up(j));
    assert Le(less, h[j], h[u]) || Le(less, h[u], h[j]);
    assert u > 0 ==> RisingAt(less, h, j, u);
    forall k: nat ensures RisingAt(less, r, u, k) {
      assert RisingAt(less, h, j, k);
      if 0 < k < |h| && Up(k) == u && k != j { assert Le(less, h[u], h[k]) && Le(less, h[j], h[k]); }
      if u > 0 && k == j { assert Le(less, h[Up(u)], h[u]); }
    }
  }

  /** `j` is a least child of `i` among the first `n`. */
  ghost predicate LeastChild<T(!new)>(less: (T, T) -> bool, h: seq<T>, n: nat, i: nat, j: nat)
    requires n <= |h|
  {
    0 < j < n && Up(j) == i && forall k :: 0 < k < n && Up(k) == i ==> Le(less, h[j], h[k])
  }

  /** Swapping the hole with its least child moves the hole there. */
  lemma Sink<T(!new)>(less: (T, T) -> bool, h: seq<T>, lo: nat, n: nat, i: nat, j: nat)
    requires Order(less) && lo <= i < n <= |h| && HeapBut(less, h, lo, n, i)
    requires LeastChild(less, h, n, i, j) && less(h[j], h[i])
    ensures HeapBut(less, Swap(h, i, j), lo, n, j) && Le(less, Swap(h, i, j)[i], Swap(h, i, j)[j])
    ensures i > 0 && lo <= Up(i) ==> Le(less, Swap(h, i, j)[Up(i)], Swap(h, i, j)[i])
  {
    var r := Swap(h, i, j);
    assert Le(less, h[j], h[i]) || Le(less, h[i], h[j]);
    forall k | 0 < k < n && lo <= Up(k) && Up(k) != j && k != j ensures Le(less, r[Up(k)], r[k]) {
      if Up(k) == i { assert Le(less, h[j], h[k]); }
    }
    forall k | 0 < k < n && Up(k) == j ensures Le(less, r[Up(j)], r[k]) {
      assert Le(less, h[Up(k)], h[k]);
    }
  }

  lemma Settled<T(!new)>(less: (T, T) -> bool, h: seq<T>, lo: nat, n: nat, i: nat)
    requires Order(less) && lo <= i < n <= |h| && HeapBut(less, h, lo, n, i)
    requires 2 * i + 1 >= n || exists j: nat :: LeastChild(less, h, n, i, j) && !less(h[j], h[i])
    ensures forall k :: 0 < k < n && lo <= Up(k) && k != i ==> Le(less, h[Up(k)], h[k])
  {
    if 2 * i + 1 < n {
      var j: nat :| LeastChild(less, h, n, i, j) && !less(h[j], h[i]);
      forall k | 0 < k < n && Up(k) == i ensures Le(less, h[i], h[k]) {
        assert Le(less, h[i], h[j]) && Le(less, h[j], h[k]);
      }
    }
  }

  /** The choice of the smaller child. */
  method SmallerChild<T(!new)>(less: (T, T) -> bool, h: seq<T>, n: nat, i: nat) returns (j: nat)
    requires Order(less) && n <= |h| && 2 * i + 1 < n
    ensures LeastChild(less, h, n, i, j) && j > i
  {
    j := 2 * i + 1;
    if j + 1 < n && less(h[j + 1], h[j]) {
      j := j + 1;
      assert Le(less, h[j], h[j - 1]) || Le(less, h[j - 1], h[j]);
    }
    assert Le(less, h[j], h[j]);
    forall k | 0 < k < n && Up(k) == i ensures Le(less, h[j], h[k]) {
      assert k == 2 * i + 1 || k == 2 * i + 2;
    }
  }

  /** heap.down: the element at `i0` sinks; `moved` says whether it did. */
  method SiftDown<T(!new)>(less: (T, T) -> bool, h0: seq<T>, i0: nat, n: nat, ghost lo: nat)
    returns (h: seq<T>, moved: bool)
    requires Order(less) && lo <= i0 < n <= |h0| && HeapBut(less, h0, lo, n, i0)
    ensures |h| == |h0| && multiset(h) == multiset(h0) && h[n..] == h0[n..]
    ensures forall k :: 0 < k < n && lo <= Up(k) && (k != i0 || moved) ==> Le(less, h[Up(k)], h[k])
    ensures !moved ==> h == h0
  {
    h := h0;
    var i := i0;
    while 2 * i + 1 < n
      invariant i0 <= i < n && |h| == |h0| && multiset(h) == multiset(h0) && h[n..] == h0[n..]
      invariant HeapBut(less, h, lo, n, i)
      invariant i > i0 ==> lo <= Up(i) && Le(less, h[Up(i)], h[i])
      invariant i > i0 && i0 > 0 && lo <= Up(i0) ==> Le(less, h[Up(i0)], h[i0])
      invariant i == i0 ==> h == h0
      decreases n - i
    {
      var j := SmallerChild(less, h, n, i);
      if !less(h[j], h[i]) {
        break;
      }
      Sink(less, h, lo, n, i, j);
      h := Swap(h, i, j);
      i := j;
    }
    Settled(less, h, lo, n, i);
    moved := i > i0;
  }

  lemma DropLast<T>(h: seq<T>)
    requires h != []
    ensures multiset(h) == multiset(h[..|h| - 1]) + multiset{h[|h| - 1]}
  {
    assert h == h[..|h| - 1] + [h[|h| - 1]];
  }

  /** heap.Push */
  method Push<T(!new)>(less: (T, T) -> bool, h0: seq<T>, x: T) returns (h: seq<T>)
    requires Order(less) && IsHeap(less, h0)
    ensures IsHeap(less, h) && multiset(h) == multiset(h0) + multiset{x}
  {
    forall k: nat ensures RisingAt(less, h0 + [x], |h0|, k) {}
    h := SiftUp(less, h0 + [x], |h0|);
  }

  /** heap.Pop: a least element leaves. */
  method Pop<T(!new)>(less: (T, T) -> bool, h0: seq<T>) returns (x: T, h: seq<T>)
    requires Order(less) && IsHeap(less, h0) && h0 != []
    ensures x == h0[0] && IsHeap(less, h) && multiset(h0) == multiset(h) + multiset{x}
    ensures forall y :: y in h0 ==> Le(less, x, y)
  {
    forall k | 0 <= k < |h0| ensures Le(less, h0[0], h0[k]) { HeadIsLeast(less, h0, k); }
    var n, moved := |h0| - 1, false;
    h := Swap(h0, 0, n);
    if n > 0 {
      h, moved := SiftDown(less, h, 0, n, 0);
    }
    DropLast(h);
    x := h[n];
    h := h[..n];
  }

  /** The element at `i` finds its place: heap.down, and heap.up if it did not move. */
  method Fix<T(!new)>(less: (T, T) -> bool, h0: seq<T>, i: nat) returns (h: seq<T>)
    requires Order(less) && i < |h0| && HeapBut(less, h0, 0, |h0|, i)
    ensures IsHeap(less, h) && multiset(h) == multiset(h0)
  {
    var moved;
    h, moved := SiftDown(less, h0, i, |h0|, 0);
    if !moved {
      forall k: nat ensures RisingAt(less, h, i, k) {}
      h := SiftUp(less, h, i);
    }
  }

  /** heap.Remove: the last element takes the place of the removed one. */
  method RemoveAt<T(!new)>(less: (T, T) -> bool, h0: seq<T>, i: nat) returns (h: seq<T>)
    requires Order(less) && IsHeap(less, h0) && i < |h0|
    ensures IsHeap(less, h) && multiset(h0) == multiset(h) + multiset{h0[i]}
  {
    var n := |h0| - 1;
    DropLast(h0);
    h := h0[..n];
    if i != n {
      h := h[i := h0[n]];
      Replaced(less, h0, h, i, n);
      h := Fix(less, h, i);
    }
  }

  lemma Replaced<T(!new)>(less: (T, T) -> bool, h0: seq<T>, h: seq<T>, i: nat, n: nat)
    requires Order(less) && IsHeap(less, h0) && i < n == |h0| - 1 && h == h0[..n][i := h0[n]]
    ensures HeapBut(less, h, 0, n, i) && multiset(h0) == multiset(h) + multiset{h0[i]}
  {
    forall k | 0 < k < n && Up(k) == i && 0 < i ensures Le(less, h[Up(i)], h[k]) {
      assert Le(less, h0[Up(i)], h0[i]) && Le(less, h0[i], h0[k]);
    }
    DropLast(h0);
    assert multiset(h) == multiset(h0[..n]) - multiset{h0[i]} + multiset{h0[n]};
  }

  /** heap.Init */
  method Heapify<T(!new)>(less: (T, T) -> bool, h0: seq<T>) returns (h: seq<T>)
    requires Order(less)
    ensures IsHeap(less, h) && multiset(h) == multiset(h0)
  {
    h := h0;
    var n := |h0|;
    var i := n / 2;
    while i > 0
      invariant 0 <= i <= n / 2 && |h| == n && multiset(h) == multiset(h0)
      invariant forall k :: 0 < k < n && i <= Up(k) ==> Le(less, h[Up(k)], h[k])
    {
      i := i - 1;
      var moved;
      h, moved := SiftDown(less, h, i, n, i);
    }
  }

  ghost predicate Sorted<T(!new)>(less: (T, T) -> bool, s: seq<T>) {
    forall i, j :: 0 <= i < j < |s| ==> Le(less, s[i], s[j])
  }

  /** A stand-in for sort.Sort. */
  method Sort<T(!new)>(less: (T, T) -> bool, s: seq<T>) returns (r: seq<T>)
    requires Order(less)
    ensures Sorted(less, r) && multiset(r) == multiset(s)
  {
    var h := Heapify(less, s);
    r := [];
    while h != []
      invariant IsHeap(less, h) && multiset(r) + multiset(h) == multiset(s)
      invariant Sorted(less, r) && forall x, y :: x in r && y in h ==> Le(less, x, y)
      decreases |h|
    {
      ghost var was := h;
      var x;
      x, h := Pop(less, h);
      assert |multiset(was)| == |multiset(h)| + 1;
      assert forall y :: y in h ==> y in multiset(was);
      r := r + [x];
    }
  }
}
