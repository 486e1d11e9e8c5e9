/** Hasher.Write of bmt/bmt.go: cutting the written bytes into the segments that the
    tree machine launches. */
module BmtHasher {
  import opened BmtReference
  import opened BmtTree
  import opened BmtMachine
  import opened BmtProof
  import opened BmtRuns

  /** depth: the levels above the leaves of a tree for `n` segments, two to a leaf. */
  method Depth(n: nat) returns (d: nat)
    ensures n <= 2 * Pow2(d)
    ensures d > 0 ==> 2 * Pow2(d - 1) < n
  {
    d := 0;
    var l := if n == 0 then 0 else (n - 1) / 2;
    ghost var q := l;
    while l > 0
      invariant l * Pow2(d) <= q < (l + 1) * Pow2(d)
      invariant d > 0 ==> Pow2(d - 1) <= q
    {
      ghost var h := l / 2;
      ghost var w := Pow2(d);
      HalfStep(l, w, q);
      assert w <= q by { MulMonotone(1, l, w); }
      l, d := l / 2, d + 1;
    }
  }

  lemma HalfStep(l: nat, w: nat, q: nat)
    requires l * w <= q < (l + 1) * w
    ensures (l / 2) * (2 * w) <= q < (l / 2 + 1) * (2 * w)
  {
    var h := l / 2;
    assert h * (2 * w) == (2 * h) * w;
    assert (h + 1) * (2 * w) == (2 * h + 2) * w;
    MulMonotone(2 * h, l, w);
    MulMonotone(l + 1, 2 * h + 2, w);
  }

  /** Byte offset of leaf `i`, at `w` bytes a leaf. */
  function Off(w: nat, i: nat): nat {
    if i == 0 then 0 else Off(w, i - 1) + w
  }

  lemma {:induction false} OffIsProduct(w: nat, i: nat)
    ensures Off(w, i) == i * w
  {
    if i > 0 {
      OffIsProduct(w, i - 1);
      assert i * w == (i - 1) * w + w;
    }
  }

  lemma {:induction false} OffMonotone(w: nat, i: nat, j: nat)
    requires i < j
    ensures Off(w, i) + w <= Off(w, j)
  {
    if i < j - 1 { OffMonotone(w, i, j - 1); }
  }

  lemma LeafAtUnique(w: nat, n: nat, q: nat)
    requires w > 0 && n <= Off(w, q) + w && (q > 0 ==> Off(w, q) < n)
    ensures LeafAt(w, n) == q
  {
    var r := LeafAt(w, n);
    if r < q {
      OffMonotone(w, r, q);
    } else if r > q {
      OffMonotone(w, q, r);
    }
    LeafAtOff(w, n);
  }

  lemma LeafAtOff(w: nat, n: nat)
    requires w > 0
    ensures var q := LeafAt(w, n); n <= Off(w, q) + w && (q > 0 ==> Off(w, q) < n)
  {
    var q := LeafAt(w, n);
    LeafAtBound(w, n);
    OffIsProduct(w, q);
    assert (q + 1) * w == q * w + w;
  }

  /** A call of writeSegment. */
  datatype Call = Call(leaf: nat, bytes: Bytes, d: nat)

  /** The calls cut the data into leaves, in order. */
  ghost predicate Cut(w: nat, depth: nat, data: Bytes, calls: seq<Call>) {
    forall j {:trigger CutAt(w, depth, data, calls, j)} :: CutAt(w, depth, data, calls, j)
  }

  predicate CutAt(w: nat, depth: nat, data: Bytes, calls: seq<Call>, j: nat) {
    j < |calls| ==> calls[j] == Call(j, Clip(data, Off(w, j), w), depth)
  }

  /** Leaves that are complete do not change when bytes are added behind them. */
  lemma CutGrows(w: nat, depth: nat, data: Bytes, more: Bytes, calls: seq<Call>)
    requires Cut(w, depth, data, calls) && Off(w, |calls|) <= |data|
    ensures Cut(w, depth, data + more, calls)
  {
    forall j: nat ensures CutAt(w, depth, data + more, calls, j) {
      assert CutAt(w, depth, data, calls, j);
      if j < |calls| {
        OffMonotone(w, j, |calls|);
        assert Clip(data, Off(w, j), w) == Clip(data + more, Off(w, j), w);
      }
    }
  }

  class Hasher {
    const H: BaseHash
    const size: nat
    const count: nat
    const depth: nat
    var cur: nat
    var segment: Bytes
    /** The goroutines launched so far, in order. */
    var calls: seq<Call>
    /** All bytes taken since the last reset. */
    ghost var written: Bytes

    ghost predicate Valid()
      reads this
    {
      size > 0 && count > 0 && cur < Leaves() && Represents(2 * size, depth, written, cur, segment, calls)
    }

    constructor (h: BaseHash, size: nat, count: nat, depth: nat)
      requires size > 0 && count > 0
      ensures Valid() && written == [] && this.size == size && this.count == count
      ensures H == h && this.depth == depth
    {
      H, this.size, this.count, this.depth := h, size, count, depth;
      cur, segment, calls, written := 0, [], [], [];
    }

    function Leaves(): nat { (count + 1) / 2 }

    /** More than the capacity is offered to a tree with an odd segment count, on top of
        earlier bytes and before the last leaf is reached. */
    ghost predicate Overfills(b: Bytes)
      reads this
    {
      count % 2 == 1 && written != [] && cur + 1 < Leaves() && |written| + |b| > Off(size, count)
    }

    /** Write takes the bytes in order and stops at the capacity, except that it
        overfills the last leaf exactly when Overfills says so. None is the panic on a
        negative slice bound: an overfilled hasher takes no further bytes. */
    method Write(b: Bytes) returns (r: Option<nat>)
      requires Valid()
      modifies this
      ensures Valid()
      ensures r.None? <==> b != [] && |old(written)| > Off(size, count)
      ensures r.Some? ==> r.value == |b|
      ensures r.None? ==> cur == old(cur) && segment == old(segment) && calls == old(calls) && written == old(written)
      ensures old(written) <= written <= old(written) + b
      ensures |written| == Kept(size, count, old(cur), |old(written)|, |b|)
      ensures |written| > Off(size, count) <==> old(Overfills(b)) || |old(written)| > Off(size, count)
    {
      r := Some(|b|);
      if |b| > 0 {
        var need, sz, rest := Measure(b);
        if rest < 0 { return None; }
        segment, cur, calls, written := Read(b, need, sz, rest);
      }
    }

    /** How much the tree and the open segment can still take. */
    method Measure(b: Bytes) returns (need: int, sz: nat, rest: int)
      requires Valid() && |b| > 0
      ensures rest < 0 <==> |written| > Off(size, count)
      ensures rest >= 0 ==> Measured(size, count, cur, |b|, |segment|, need, sz, rest)
    {
      need := count * size - cur * 2 * size;
      Start(size, count, cur, |written|);
      sz := size;
      if need > sz { sz := sz * 2; }
      if |b| < need { need := |b|; }
      rest := sz - |segment|;
      if need < rest { rest := need; }
    }

    /** The body of Write on a non-empty buffer. */
    method Read(b: Bytes, need0: int, sz: nat, rest0: nat)
      returns (s: Bytes, i: nat, launched: seq<Call>, ghost data: Bytes)
      requires Valid() && |written| <= Off(size, count) && |b| > 0
      requires Measured(size, count, cur, |b|, |segment|, need0, sz, rest0)
      ensures Represents(2 * size, depth, data, i, s, launched) && i < Leaves()
      ensures written <= data <= written + b
      ensures |data| == Kept(size, count, cur, |written|, |b|)
      ensures |data| > Off(size, count) <==> Overfills(b)
    {
      var need, rest;
      s := Complete(b, need0, sz, rest0);
      s, i, launched, need, rest := Fill(b, s, cur, calls, need0 - rest0, sz, rest0, written + b, |written|);
      data := Settle(2 * size, depth, written, b, rest, i, s, launched);
      Total(size, count, cur, i, |written|, |b|, |s|, need);
    }

    /** Complete the open segment. */
    method Complete(b: Bytes, need: int, sz: nat, rest: nat) returns (s: Bytes)
      requires Valid() && |written| <= Off(size, count) && |b| > 0
      requires Measured(size, count, cur, |b|, |segment|, need, sz, rest)
      ensures Opened(size, count, cur, |b|, |s|, need - rest, sz, rest)
      ensures Holds(2 * size, depth, written + b, |written| + rest, cur, s, calls)
      ensures (written + b)[|written|..] == b
    {
      s := segment + b[..rest];
      MeasuredOpens(size, count, cur, |written|, |b|, |segment|, need, sz, rest);
      CutGrows(2 * size, depth, written, b, calls);
      Concat(written, b, Off(2 * size, cur), rest);
      PieceIs(written + b, Off(2 * size, cur), s);
    }

    /** The loop of Write: push finished leaves, read the next ones from `b`. */
    method Fill(b: Bytes, s0: Bytes, i0: nat, calls0: seq<Call>, need0: int, sz0: nat, rest0: nat,
                ghost all: Bytes, ghost p: nat)
      returns (s: Bytes, i: nat, launched: seq<Call>, need: int, rest: nat)
      requires size > 0 && p + |b| == |all| && all[p..] == b
      requires Opened(size, count, i0, |b|, |s0|, need0, sz0, rest0)
      requires Holds(2 * size, depth, all, p + rest0, i0, s0, calls0)
      ensures rest <= |b| && Holds(2 * size, depth, all, p + rest, i, s, launched)
      ensures Stopped(size, count, i0, i, p, |b|, |s|, need)
    {
      var sz := sz0;
      s, i, launched, need, rest := s0, i0, calls0, need0, rest0;
      while need > 0 && i < Leaves() - 1
        invariant i0 <= i < Leaves()
        invariant Holds(2 * size, depth, all, p + rest, i, s, launched)
        invariant rest + (if need >= 0 then need else 0) == rest0 + need0
        invariant need > 0 ==> |s| == sz && (i0 < Leaves() - 1 ==> sz == 2 * size)
        invariant i0 == Leaves() - 1 ==> s == s0 && need == need0
      {
        need := need - sz;
        if need < 0 { sz := sz + need; }
        ghost var t, k, held, before := rest, i, s, launched;
        launched := launched + [Call(i, s, depth)];
        s := b[rest..rest + sz];
        rest := rest + sz;
        i := i + 1;
        Advance(2 * size, depth, all, b, p, t, rest, k, i, held, s, before, launched);
      }
      FillStopped(size, count, i0, i, p, |b|, |s0|, |s|, need0, need, rest0, rest, sz0);
    }
  }

  lemma Concat(a: Bytes, b: Bytes, x: nat, y: nat)
    requires x <= |a| && y <= |b|
    ensures (a + b)[x..|a| + y] == a[x..] + b[..y] && (a + b)[|a|..] == b
  {
  }

  /** The text has `s` at position `lo`. */
  ghost predicate Piece(all: Bytes, lo: nat, s: Bytes) {
    forall k {:trigger PieceAt(all, lo, s, k)} :: PieceAt(all, lo, s, k)
  }

  predicate PieceAt(all: Bytes, lo: nat, s: Bytes, k: nat) {
    k < |s| ==> lo + k < |all| && s[k] == all[lo + k]
  }

  lemma PieceIs(all: Bytes, lo: nat, s: Bytes)
    requires lo + |s| <= |all|
    ensures Piece(all, lo, s) <==> s == all[lo..lo + |s|]
  {
    var slice := all[lo..lo + |s|];
    if Piece(all, lo, s) {
      forall k: nat | k < |s| ensures s[k] == slice[k] { assert PieceAt(all, lo, s, k); }
      assert s == slice;
    }
  }

  /** The first `t` bytes, cut at leaf `i`. */
  ghost predicate Holds(w: nat, depth: nat, all: Bytes, t: nat, i: nat, s: Bytes, calls: seq<Call>) {
    && Off(w, i) + |s| == t <= |all| && Piece(all, Off(w, i), s) && |s| <= w && (i > 0 ==> s != [])
    && |calls| == i && Cut(w, depth, all, calls)
  }

  ghost predicate Represents(w: nat, depth: nat, data: Bytes, cur: nat, segment: Bytes, calls: seq<Call>) {
    && |data| == Off(w, cur) + |segment| && |segment| <= w && (cur > 0 ==> segment != [])
    && segment == data[Off(w, cur)..]
    && |calls| == cur && Cut(w, depth, data, calls)
  }

  /** Bounds on the cursor, and where the open leaf ends. */
  lemma Start(size: nat, count: nat, cur: nat, p: nat)
    requires size > 0 && count > 0 && cur < (count + 1) / 2
    requires Off(2 * size, cur) <= p <= Off(2 * size, cur) + 2 * size
    ensures var w, leaves := 2 * size, (count + 1) / 2;
            && cur * 2 * size == Off(w, cur) && count * size == Off(size, count)
            && Off(size, count) == (if count % 2 == 0 then Off(w, leaves) else Off(w, leaves) - size)
            && Off(w, cur) + w <= Off(w, leaves)
            && (cur < leaves - 1 ==> Off(w, cur) + 2 * w <= Off(w, leaves))
            && (cur == leaves - 1 ==> Off(w, cur) + w == Off(w, leaves))
            && (p > Off(size, count) <==> count % 2 == 1 && cur == leaves - 1 && p > Off(w, cur) + size)
  {
    var w, leaves := 2 * size, (count + 1) / 2;
    OffIsProduct(w, cur);
    OffIsProduct(size, count);
    assert cur * 2 * size == cur * w;
    OffMonotone(w, cur, leaves);
    if cur < leaves - 1 { OffMonotone(w, cur + 1, leaves); }
    Capacity(size, count);
  }

  /** Bytes held once `n` more are offered to `p`, with the cursor at leaf `cur`. */
  function Kept(size: nat, count: nat, cur: nat, p: nat, n: nat): nat {
    var cap, leaves := Off(size, count), (count + 1) / 2;
    if n == 0 || p > cap then p
    else if count % 2 == 1 && p > 0 && cur + 1 < leaves && p + n > cap then
      // The room of the tree is counted from the open leaf, not from the bytes in it.
      var more := if cap >= Off(2 * size, cur) && n > cap - Off(2 * size, cur) then cap - Off(2 * size, cur) else n;
      if p + more <= Off(2 * size, leaves) then p + more else Off(2 * size, leaves)
    else if p + n <= cap then p + n else cap
  }

  /** Write's `need`, `size` and `rest` before it touches the buffer. */
  ghost predicate Measured(size: nat, count: nat, cur: nat, n: nat, sl: nat, need: int, sz: nat, rest: int) {
    var room := Off(size, count) - Off(2 * size, cur);
    && sz == (if room > size then 2 * size else size)
    && need == (if n < room then n else room)
    && rest == (if need < sz - sl then need else sz - sl)
    && 0 <= rest <= n
  }

  /** The open segment took `rest` of `n` bytes and has `sl`; `need` more fit the tree. */
  ghost predicate Opened(size: nat, count: nat, cur: nat, n: nat, sl: nat, need: int, sz: nat, rest: nat) {
    var room, leaves := Off(size, count) - Off(2 * size, cur), (count + 1) / 2;
    && sz == (if room > size then 2 * size else size)
    && need + rest == (if n < room then n else room) && need + rest <= n
    && need >= 0 && rest <= n && sl <= sz && (need > 0 ==> sl == sz)
    && cur < leaves && (cur < leaves - 1 ==> sz == 2 * size)
  }

  lemma MeasuredOpens(size: nat, count: nat, cur: nat, p: nat, n: nat, sl: nat, need: int, sz: nat, rest: nat)
    requires size > 0 && count > 0 && cur < (count + 1) / 2 && p <= Off(size, count)
    requires p == Off(2 * size, cur) + sl && sl <= 2 * size && (cur > 0 ==> sl > 0)
    requires Measured(size, count, cur, n, sl, need, sz, rest)
    ensures Opened(size, count, cur, n, sl + rest, need - rest, sz, rest) && sl + rest <= 2 * size
  {
    Start(size, count, cur, p);
  }

  /** The loop of Write stopped at leaf `i` with `sl` bytes in it and `need` to go. */
  ghost predicate Stopped(size: nat, count: nat, cur: nat, i: nat, p: nat, n: nat, sl: nat, need: int) {
    var w, leaves, room := 2 * size, (count + 1) / 2, Off(size, count) - Off(2 * size, cur);
    var full := if room > size then w else size;
    && cur <= i < leaves && sl <= w
    && (need <= 0 || i == leaves - 1)
    && Off(w, i) + sl - p + (if need >= 0 then need else 0) == (if n < room then n else room)
    && (cur < leaves - 1 ==> (need > 0 ==> sl == w))
    && (cur == leaves - 1 ==> sl <= full && (need > 0 ==> sl == full))
  }

  lemma FillStopped(size: nat, count: nat, cur: nat, i: nat, p: nat, n: nat, sl0: nat, sl: nat, need0: int, need: int,
                    rest0: nat, rest: nat, sz: nat)
    requires Opened(size, count, cur, n, sl0, need0, sz, rest0)
    requires var leaves := (count + 1) / 2;
      && cur <= i < leaves && (cur == leaves - 1 ==> sl == sl0 && need == need0)
      && rest + (if need >= 0 then need else 0) == rest0 + need0
      && (need <= 0 || i == leaves - 1) && (need > 0 && cur < leaves - 1 ==> sl == 2 * size)
      && sl <= 2 * size && Off(2 * size, i) + sl == p + rest
    ensures Stopped(size, count, cur, i, p, n, sl, need)
  {
  }

  /** So many bytes are held then. */
  lemma Total(size: nat, count: nat, cur: nat, i: nat, p: nat, n: nat, sl: nat, need: int)
    requires size > 0 && count > 0 && p <= Off(size, count) && 0 < n && cur < (count + 1) / 2
    requires Off(2 * size, cur) <= p <= Off(2 * size, cur) + 2 * size && (cur > 0 ==> Off(2 * size, cur) < p)
    requires Stopped(size, count, cur, i, p, n, sl, need)
    ensures var total, cap := Off(2 * size, i) + sl, Off(size, count);
            && total == Kept(size, count, cur, p, n)
            && (total > cap <==> count % 2 == 1 && p > 0 && cur + 1 < (count + 1) / 2 && p + n > cap)
  {
    Start(size, count, cur, p);
    OffMonotone(2 * size, i, (count + 1) / 2);
    if i < (count + 1) / 2 - 1 { OffMonotone(2 * size, i + 1, (count + 1) / 2); }
  }

  lemma {:induction false} Capacity(size: nat, count: nat)
    ensures var leaves := (count + 1) / 2;
            Off(size, count) == if count % 2 == 0 then Off(2 * size, leaves) else Off(2 * size, leaves) - size
  {
    if count >= 2 {
      Capacity(size, count - 2);
      assert Off(size, count) == Off(size, count - 2) + 2 * size;
    }
  }

  /** The loop body: a full leaf is launched and the next one opened. */
  lemma Advance(w: nat, depth: nat, all: Bytes, b: Bytes, p: nat, rest: nat, rest': nat, i: nat, i': nat,
                s: Bytes, s': Bytes, calls: seq<Call>, calls': seq<Call>)
    requires Holds(w, depth, all, p + rest, i, s, calls) && |s| == w && i' == i + 1
    requires p <= |all| && b == all[p..] && rest < rest' <= rest + w && rest' <= |b|
    requires s' == b[rest..rest'] && calls' == calls + [Call(i, s, depth)]
    ensures Holds(w, depth, all, p + rest', i', s', calls')
  {
    PieceIs(all, Off(w, i), s);
    assert s == Clip(all, Off(w, i), w);
    forall j: nat ensures CutAt(w, depth, all, calls', j) { assert CutAt(w, depth, all, calls, j); }
    SliceOf(all, p, rest, rest');
    PieceIs(all, p + rest, s');
  }

  lemma SliceOf(a: Bytes, p: nat, x: nat, y: nat)
    requires x <= y && p + y <= |a|
    ensures a[p..][x..y] == a[p + x..p + y]
  {
  }

  lemma Settle(w: nat, depth: nat, was: Bytes, b: Bytes, rest: nat, i: nat, s: Bytes, calls: seq<Call>)
    returns (data: Bytes)
    requires rest <= |b| && Holds(w, depth, was + b, |was| + rest, i, s, calls)
    ensures Represents(w, depth, data, i, s, calls)
    ensures was <= data <= was + b && |data| == |was| + rest
  {
    var all, t := was + b, |was| + rest;
    CutShrinks(w, depth, all, t, calls);
    PieceIs(all, Off(w, i), s);
    assert all[..t][Off(w, i)..] == all[Off(w, i)..t];
    data := all[..t];
  }

  lemma CutShrinks(w: nat, depth: nat, all: Bytes, t: nat, calls: seq<Call>)
    requires Cut(w, depth, all, calls) && Off(w, |calls|) <= t <= |all|
    ensures Cut(w, depth, all[..t], calls)
  {
    forall j: nat ensures CutAt(w, depth, all[..t], calls, j) {
      assert CutAt(w, depth, all, calls, j);
      if j < |calls| {
        OffMonotone(w, j, |calls|);
        assert Clip(all, Off(w, j), w) == Clip(all[..t], Off(w, j), w);
      }
    }
  }

  // ----- From written bytes to the tree machine -----

  /** The launched calls and the open segment are exactly the machine's plan. */
  lemma CallsAreThePlan(H: BaseHash, hs: nat, depth: nat, data: Bytes, cur: nat, segment: Bytes, calls: seq<Call>)
    requires hs > 0 && Represents(2 * hs, depth, data, cur, segment, calls)
    ensures var plan := PlanFor(Job(H, hs, depth, data));
            && |plan.segs| == cur + 1 && plan.segs[cur] == segment
            && forall j :: 0 <= j < cur ==> calls[j] == Call(j, plan.segs[j], depth)
  {
    var job, w := Job(H, hs, depth, data), 2 * hs;
    LeafAtUnique(w, |data|, cur);
    assert Last(job) == cur;
    OffIsProduct(w, cur);
    assert Chunk(job, 0, cur) == segment;
    forall j | 0 <= j < cur ensures calls[j] == Call(j, Chunk(job, 0, j), depth) {
      assert CutAt(w, depth, data, calls, j);
      OffIsProduct(w, j);
    }
  }

  lemma LeavesWithin(hs: nat, count: nat, k: nat)
    requires count <= 2 * Pow2(k)
    ensures Off(2 * hs, (count + 1) / 2) <= Width(hs, k)
  {
    OffIsProduct(2 * hs, (count + 1) / 2);
    WidthPow2(hs, k);
    MulMonotone((count + 1) / 2, Pow2(k), 2 * hs);
  }

  lemma SegmentsWithin(hs: nat, count: nat, k: nat)
    requires hs > 0 && count * hs <= Width(hs, k)
    ensures count <= 2 * Pow2(k)
  {
    var n := 2 * Pow2(k);
    WidthPow2(hs, k);
    assert n * hs == Width(hs, k);
    MulMonotone(n, count, hs);
  }

  /** A chunk that ends in some leaf of the tree fits the tree and the reference span,
      overfilled or not. */
  lemma LeavesFit(H: BaseHash, hs: nat, count: nat, depth: nat, data: Bytes, m: nat)
    requires hs > 0 && count <= 2 * Pow2(depth) && count * hs <= 2 * Width(hs, m)
    requires |data| <= Off(2 * hs, (count + 1) / 2)
    ensures Fits(Job(H, hs, depth, data)) && |data| <= 2 * Width(hs, m)
  {
    LeavesWithin(hs, count, depth);
    assert Width(hs, m + 1) == 2 * Width(hs, m);
    SegmentsWithin(hs, count, m + 1);
    LeavesWithin(hs, count, m + 1);
  }

  /** Hashing what Write has taken: the goroutines that Write launched and the one that
      Sum adds, run in any order on a clean tree, deliver the reference hash of all these
      bytes, also when they overfill the tree. */
  lemma SumIsRefHash(H: BaseHash, hs: nat, count: nat, depth: nat, data: Bytes, m: nat,
                     cur: nat, segment: Bytes, calls: seq<Call>, run: seq<State>)
    requires hs > 0 && count <= 2 * Pow2(depth) && count * hs <= 2 * Width(hs, m) && cur < (count + 1) / 2
    requires Represents(2 * hs, depth, data, cur, segment, calls)
    requires Run(Plan(H, hs, depth, seq(cur, j requires 0 <= j < cur => calls[j].bytes) + [segment]), run)
             && |calls| == cur
    ensures var s := run[|run| - 1];
            && (s.main.Released? ==> s.main.sum == RefHash(H, hs, data, m) && Clean(depth, s.nodes))
            && (s.main.Released? || exists s' :: Next(PlanFor(Job(H, hs, depth, data)), s, s'))
  {
    var job := Job(H, hs, depth, data);
    CallsAreThePlan(H, hs, depth, data, cur, segment, calls);
    OffMonotone(2 * hs, cur, (count + 1) / 2);
    LeavesFit(H, hs, count, depth, data, m);
    var segs := seq(cur, j requires 0 <= j < cur => calls[j].bytes) + [segment];
    assert PlanFor(job).segs == segs;
    HasherMatchesReference(job, m, run);
    var s := run[|run| - 1];
    if !s.main.Released? { var _ := SomeNext(PlanFor(job), s); }
  }

  lemma {:induction false} IdentityRefHash(hs: nat, d: Bytes, m: nat)
    requires hs > 0
    ensures RefHash((b: Bytes) => b, hs, d, m) == d
    decreases |d|
  {
    if |d| > 2 * hs {
      var r := Shrink(hs, m, |d|);
      var s := Width(hs, r);
      IdentityRefHash(hs, d[..s], r);
      IdentityRefHash(hs, d[s..], r);
      assert d == d[..s] + d[s..];
    }
  }

  /** The sum of an overfilled chunk and the hash that a RefHasher gives for the same bytes,
      cut at the capacity, agree under every base hash exactly if nothing was overfilled. */
  lemma OverfilledSumDiffers(hs: nat, cap: nat, data: Bytes, m: nat)
    requires hs > 0
    ensures (forall H: BaseHash :: Agrees(H, hs, cap, data, m)) <==> |data| <= cap
  {
    if |data| > cap {
      IdentityRefHash(hs, data, m);
      IdentityRefHash(hs, data[..cap], m);
      assert !Agrees((b: Bytes) => b, hs, cap, data, m);
    }
  }

  /** The sum of the chunk is what a RefHasher with this capacity gives for it. */
  ghost predicate Agrees(H: BaseHash, hs: nat, cap: nat, data: Bytes, m: nat)
    requires hs > 0
  {
    RefHash(H, hs, data, m) == RefHash(H, hs, if |data| <= cap then data else data[..cap], m)
  }

  /** The same for base hashes whose sums are a segment long, over all chunks of one length. */
  lemma OverfilledSizedSumDiffers(hs: nat, cap: nat, n: nat, m: nat)
    requires hs > 0
    ensures (forall H: BaseHash, data {:trigger Agrees(H, hs, cap, data, m)} ::
               Sized(H, hs) && |data| == n ==> Agrees(H, hs, cap, data, m)) <==> n <= cap
  {
    if n > cap {
      ChecksumSized(hs);
      LastByteCounts(hs, cap, n, m);
    }
  }

  lemma LastOne(n: nat)
    ensures Sum(Zeros(n) + [1]) == 1
  {
    assert (Zeros(n) + [1])[..n] == Zeros(n);
    SumZeros(n);
  }

  lemma SumsTell(hs: nat, d: Bytes, e: Bytes, m: nat)
    requires hs > 0 && Sum(d) == 1 && Sum(e) == 0
    ensures RefHash(Checksum(hs), hs, d, m) != RefHash(Checksum(hs), hs, e, m)
  {
    ChecksumRefHash(hs, d, m);
    ChecksumRefHash(hs, e, m);
    assert Checksum(hs)(d)[0] == 1 && Checksum(hs)(e)[0] == 0;
  }

  lemma LastByteCounts(hs: nat, cap: nat, n: nat, m: nat)
    requires hs > 0 && n > cap
    ensures !Agrees(Checksum(hs), hs, cap, Zeros(n - 1) + [1], m)
  {
    var data: Bytes := Zeros(n - 1) + [1];
    assert data[..cap] == Zeros(cap);
    LastOne(n - 1);
    SumZeros(cap);
    SumsTell(hs, data, data[..cap], m);
  }

  /** One byte, then three more, on a tree for three one-byte segments: four are kept,
      and the next byte panics. */
  method OverfillExample(h: BaseHash) returns (hasher: Hasher, next: Option<nat>)
    ensures fresh(hasher) && hasher.Valid() && hasher.count == 3 && hasher.size == 1
    ensures |hasher.written| == 4 && next == None
  {
    hasher := new Hasher(h, 1, 3, 1);
    OffIsProduct(1, 3);
    OffIsProduct(2, 2);
    next := hasher.Write([0]);
    assert |hasher.written| == 1 && hasher.cur == 0;
    next := hasher.Write([0, 0, 0]);
    next := hasher.Write([0]);
  }

  /** NewTree: level by level, from the root down. */
  method NewTree(depth: nat) returns (nodes: Nodes)
    ensures Clean(depth, nodes)
    ensures forall p :: p in nodes ==> NoHistory(nodes[p]) && nodes[p].state == 0
  {
    var blank := Node([], [], 0, false, false, None, None, false, false, None, false);
    nodes := map[Pos(depth, 0) := blank.(root := true)];
    var count := 2;
    for d := 1 to depth + 1
      invariant count == Pow2(d)
      invariant forall p :: p in nodes <==> depth - d < p.height && InTree(depth, p)
      invariant forall p :: p in nodes ==> nodes[p] == blank.(root := p.height == depth)
    {
      var before := nodes;
      for i := 0 to count
        invariant forall p :: p in nodes <==> p in before || (p.height == depth - d && p.index < i)
        invariant forall p :: p in nodes ==> nodes[p] == blank.(root := p.height == depth)
      {
        nodes := nodes[Pos(depth - d, i) := blank];
      }
      count := count * 2;
    }
  }
}
