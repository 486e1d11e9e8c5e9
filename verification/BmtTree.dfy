/** The concurrent tree hasher of bmt/bmt.go as a state machine: the caller's steps and
    one step at a time of any goroutine, in every order. */
module BmtTree {
  import opened BmtReference

  datatype Option<T> = None | Some(value: T)

  // ----- One chunk and the tree positions it uses -----

  /** A chunk to hash on a tree whose leaves are `depth` levels under the root. */
  datatype Job = Job(H: BaseHash, hs: nat, depth: nat, data: Bytes)

  ghost predicate Fits(job: Job) {
    job.hs > 0 && |job.data| <= Width(job.hs, job.depth)
  }

  /** `height` counts from the leaves: level == depth - height. */
  datatype Pos = Pos(height: nat, index: nat)

  function Parent(p: Pos): Pos { Pos(p.height + 1, p.index / 2) }

  /** Index of the ancestor of leaf `t` at height `k`. */
  function Anc(t: nat, k: nat): nat {
    if k == 0 then t else Anc(t, k - 1) / 2
  }

  /** Leaf of the final data segment (the cursor at Sum). */
  function Last(job: Job): nat
    requires job.hs > 0
  {
    LeafAt(2 * job.hs, |job.data|)
  }

  /** Leaves filled before byte `n` of a chunk is reached, at `w` bytes each. */
  function LeafAt(w: nat, n: nat): nat
    requires w > 0
  {
    if n <= w then 0 else 1 + LeafAt(w, n - w)
  }

  lemma {:induction false} LeafAtBound(w: nat, n: nat)
    requires w > 0
    ensures var q := LeafAt(w, n); n <= (q + 1) * w && (q > 0 ==> q * w < n)
  {
    if n > w {
      LeafAtBound(w, n - w);
      var q := LeafAt(w, n - w);
      assert (q + 2) * w == (q + 1) * w + w;
      assert (q + 1) * w == q * w + w;
    }
  }

  function Clip(d: Bytes, lo: nat, len: nat): Bytes {
    var a := if lo <= |d| then lo else |d|;
    var b := if lo + len <= |d| then lo + len else |d|;
    d[a..b]
  }

  /** The bytes under a node. */
  function Chunk(job: Job, k: nat, j: nat): Bytes {
    Clip(job.data, j * Width(job.hs, k), Width(job.hs, k))
  }

  function Value(job: Job, k: nat, j: nat): Bytes {
    NodeValue(job.H, job.hs, k, Chunk(job, k, j))
  }

  /** First height at or above `k` at which leaf `t` sits under the leftmost node. */
  function TopFrom(t: nat, k: nat): (r: nat)
    ensures r >= k && Anc(t, r) == 0
    decreases Anc(t, k)
  {
    if Anc(t, k) == 0 then k else TopFrom(t, k + 1)
  }

  lemma {:induction false} TopIsFirst(t: nat, k: nat, i: nat)
    requires k <= i < TopFrom(t, k)
    ensures Anc(t, i) > 0
    decreases i - k
  {
    if k < i { TopIsFirst(t, k + 1, i); }
  }

  /** Height of the root of the smallest tree that holds the chunk. */
  function Top(job: Job): nat
    requires job.hs > 0
  {
    TopFrom(Last(job), 0)
  }

  /** The final path cuts the data between index Anc and Anc + 1 at every height. */
  lemma {:induction false} LastBound(job: Job, k: nat)
    requires job.hs > 0
    ensures var a, w, n := Anc(Last(job), k), Width(job.hs, k), |job.data|;
            n <= (a + 1) * w && (a > 0 ==> a * w < n)
  {
    var n := |job.data|;
    if k == 0 {
      LeafAtBound(2 * job.hs, n);
    } else {
      LastBound(job, k - 1);
      HalveBound(Anc(Last(job), k - 1), Width(job.hs, k - 1), n);
    }
  }

  lemma HalveBound(a: nat, w: nat, n: nat)
    requires n <= (a + 1) * w && (a > 0 ==> a * w < n)
    ensures var b := a / 2; n <= (b + 1) * (2 * w) && (b > 0 ==> b * (2 * w) < n)
  {
    var b := a / 2;
    assert b * (2 * w) == (2 * b) * w;
    assert (b + 1) * (2 * w) == (2 * b + 2) * w;
    MulMonotone(2 * b, a, w);
    MulMonotone(a + 1, 2 * b + 2, w);
  }

  lemma TopWithinTree(job: Job)
    requires Fits(job)
    ensures Top(job) <= job.depth
  {
    var a, w := Anc(Last(job), job.depth), Width(job.hs, job.depth);
    LastBound(job, job.depth);
    if a > 0 {
      MulMonotone(1, a, w);
    }
    if Top(job) > job.depth {
      TopIsFirst(Last(job), 0, job.depth);
    }
  }

  // ----- What the values mean for their children -----

  lemma DoubleIndex(j: nat, w: nat)
    ensures j * (2 * w) == (2 * j) * w
    ensures (2 * j + 1) * w == (2 * j) * w + w
  {
  }

  /** No data under the right child: the value is the left child's. */
  lemma ValueUnary(job: Job, k: nat, j: nat)
    requires job.hs > 0 && k > 0 && Anc(Last(job), k - 1) == 2 * j
    ensures Value(job, k, j) == Value(job, k - 1, 2 * j)
  {
    ChunkLeftOnly(job, k, j);
    var c := Chunk(job, k, j);
    assert NodeValue(job.H, job.hs, k, c) == NodeValue(job.H, job.hs, k - 1, c);
  }

  lemma ChunkLeftOnly(job: Job, k: nat, j: nat)
    requires job.hs > 0 && k > 0 && Anc(Last(job), k - 1) == 2 * j
    ensures Chunk(job, k, j) == Chunk(job, k - 1, 2 * j)
    ensures |Chunk(job, k, j)| <= Width(job.hs, k - 1)
  {
    var w := Width(job.hs, k - 1);
    LastBound(job, k - 1);
    DoubleIndex(j, w);
    ClipWhole(job.data, (2 * j) * w, w);
  }

  lemma ClipWhole(d: Bytes, lo: nat, w: nat)
    requires |d| <= lo + w
    ensures Clip(d, lo, 2 * w) == Clip(d, lo, w) && |Clip(d, lo, w)| <= w
  {
  }

  lemma ValueBinary(job: Job, k: nat, j: nat)
    requires job.hs > 0 && k > 0 && Anc(Last(job), k - 1) >= 2 * j + 1
    ensures Value(job, k, j) == job.H(Value(job, k - 1, 2 * j) + Value(job, k - 1, 2 * j + 1))
  {
    ChunkHalves(job, k, j);
    var c, w := Chunk(job, k, j), Width(job.hs, k - 1);
    assert Value(job, k, j)
        == job.H(NodeValue(job.H, job.hs, k - 1, c[..w]) + NodeValue(job.H, job.hs, k - 1, c[w..])) by {
      NodeValueSplit(job.H, job.hs, k, c);
    }
  }

  lemma ChunkHalves(job: Job, k: nat, j: nat)
    requires job.hs > 0 && k > 0 && Anc(Last(job), k - 1) >= 2 * j + 1
    ensures var c, w := Chunk(job, k, j), Width(job.hs, k - 1);
            && |c| > w
            && c[..w] == Chunk(job, k - 1, 2 * j)
            && c[w..] == Chunk(job, k - 1, 2 * j + 1)
  {
    var a, w := Anc(Last(job), k - 1), Width(job.hs, k - 1);
    var lo := (2 * j) * w;
    assert lo + w < |job.data| by {
      LastBound(job, k - 1);
      MulMonotone(2 * j + 1, a, w);
      DoubleIndex(j, w);
    }
    ClipHalves(job.data, lo, w);
    assert Chunk(job, k, j) == Clip(job.data, lo, 2 * w) by { DoubleIndex(j, w); }
    assert Chunk(job, k - 1, 2 * j + 1) == Clip(job.data, lo + w, w) by { DoubleIndex(j, w); }
  }

  lemma ClipHalves(d: Bytes, lo: nat, w: nat)
    requires w > 0 && lo + w < |d|
    ensures var c := Clip(d, lo, 2 * w);
            |c| > w && c[..w] == Clip(d, lo, w) && c[w..] == Clip(d, lo + w, w)
  {
  }

  lemma ChunkOfTop(job: Job)
    requires job.hs > 0
    ensures Chunk(job, Top(job), 0) == job.data
  {
    LastBound(job, Top(job));
  }

  /** Every leaf before the last holds two full segments. */
  lemma FullLeaf(job: Job, j: nat)
    requires job.hs > 0 && j < Last(job)
    ensures |Chunk(job, 0, j)| == 2 * job.hs
  {
    LastBound(job, 0);
    var w := 2 * job.hs;
    MulMonotone(j + 1, Last(job), w);
    assert (j + 1) * w == j * w + w;
  }

  lemma LastLeafNonempty(job: Job)
    requires job.hs > 0
    ensures |Chunk(job, 0, Last(job))| <= 2 * job.hs
    ensures Last(job) > 0 ==> Chunk(job, 0, Last(job)) != []
    ensures Last(job) == 0 ==> Chunk(job, 0, 0) == job.data
  {
    LastBound(job, 0);
  }
}
