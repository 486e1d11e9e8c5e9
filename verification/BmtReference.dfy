/** The recursive reference hasher of bmt/bmt_r.go, and the value each node of the
    binary Merkle tree stands for. */
module BmtReference {

  type Byte = x: int | 0 <= x < 256
  type Bytes = seq<Byte>
  /** The base hash: one Reset, some Writes and a Sum hash the concatenated input. */
  type BaseHash = Bytes -> Bytes

  function Pow2(k: nat): (p: nat)
    ensures p >= 1
  {
    if k == 0 then 1 else 2 * Pow2(k - 1)
  }

  /** Bytes covered by a node `k` levels above the leaves; a leaf holds two segments. */
  function Width(hs: nat, k: nat): (w: nat)
    ensures hs > 0 ==> w >= 2 * hs
  {
    if k == 0 then 2 * hs else 2 * Width(hs, k - 1)
  }

  /** The span loop `for ; s >= l; s /= 2`, on spans of the form Width(hs, m). */
  function Shrink(hs: nat, m: nat, l: nat): (r: nat)
    requires l > 2 * hs
    ensures r <= m && Width(hs, r) < l
    ensures r < m ==> l <= Width(hs, r + 1)
  {
    if Width(hs, m) >= l then Shrink(hs, m - 1, l) else m
  }

  /** The right half of a split: hashed unless it is a single segment. */
  function RefRight(H: BaseHash, hs: nat, d: Bytes, m: nat): Bytes
    requires hs > 0
  {
    if |d| > hs then RefHash(H, hs, d, m) else d
  }

  /** RefHasher.hash on a span of Width(hs, m) bytes. */
  function RefHash(H: BaseHash, hs: nat, d: Bytes, m: nat): Bytes
    requires hs > 0
    decreases |d|
  {
    if |d| <= 2 * hs then H(d)
    else
      var r := Shrink(hs, m, |d|);
      var s := Width(hs, r);
      H(RefHash(H, hs, d[..s], r) + if |d| - s > hs then RefHash(H, hs, d[s..], r) else d[s..])
  }

  lemma {:induction false} WidthDouble(hs: nat, a: nat, b: nat)
    requires a <= b
    ensures Width(hs, a) <= Width(hs, b)
    decreases b - a
  {
    if a < b { WidthDouble(hs, a, b - 1); }
  }

  lemma {:induction false} WidthPow2(hs: nat, k: nat)
    ensures Width(hs, k) == Pow2(k) * (2 * hs)
  {
    if k > 0 { WidthPow2(hs, k - 1); }
  }

  lemma MulMonotone(a: nat, b: nat, c: nat)
    ensures a <= b ==> a * c <= b * c
    ensures a < b && c > 0 ==> a * c < b * c
  {
    assert b * c == a * c + (b - a) * c;
  }

  /** The span loop of NewRefHasher, in segments. */
  method SpanSegments(count: nat) returns (c: nat, ghost level: nat)
    ensures c == 2 * Pow2(level)
    ensures count <= 2 * c
    ensures level > 0 ==> c < count
  {
    c, level := 2, 0;
    while c < count
      invariant c == 2 * Pow2(level)
      invariant level > 0 ==> Pow2(level) < count
    {
      c, level := c * 2, level + 1;
    }
    if c > 2 {
      c, level := c / 2, level - 1;
    }
  }

  class RefHasher {
    const H: BaseHash
    const hashSize: nat
    const span: nat
    const cap: nat
    ghost const level: nat

    ghost predicate Valid() {
      hashSize > 0 && span == Width(hashSize, level) && cap <= 2 * span
    }

    /** NewRefHasher: the span is the widest power-of-two number of segments, at
        least two, that is smaller than the segment count. */
    constructor (h: BaseHash, size: nat, count: nat)
      requires size > 0
      ensures Valid() && H == h && hashSize == size && cap == count * size
      ensures level > 0 ==> span < cap
    {
      var c, k := SpanSegments(count);
      WidthPow2(size, k);
      MulMonotone(count, 2 * c, size);
      MulMonotone(c, count, size);
      H, hashSize, span, cap, level := h, size, c * size, count * size, k;
    }

    /** RefHasher.Hash: longer input is cut to the capacity. */
    method Hash(d: Bytes) returns (r: Bytes)
      requires Valid()
      ensures r == RefHash(H, hashSize, if |d| <= cap then d else d[..cap], level)
    {
      r := HashSpan(if |d| > cap then d[..cap] else d, span, level);
    }

    /** RefHasher.hash */
    method HashSpan(d: Bytes, span: nat, ghost m: nat) returns (r: Bytes)
      requires hashSize > 0 && span == Width(hashSize, m)
      ensures r == RefHash(H, hashSize, d, m)
      decreases |d|
    {
      var left, right, s := d, [], span;
      ghost var k := m;
      if |d| > 2 * hashSize {
        while s >= |d|
          invariant s == Width(hashSize, k)
          invariant Shrink(hashSize, k, |d|) == Shrink(hashSize, m, |d|)
        {
          s, k := s / 2, k - 1;
        }
        left := HashSpan(d[..s], s, k);
        right := d[s..];
        if |d| - s > hashSize {
          right := HashSpan(right, s, k);
        }
      }
      r := H(left + right);
      assert |d| <= 2 * hashSize ==> left + right == d;
    }
  }

  // ----- The tree's own function -----

  /** What a non-root node `k` levels up hands to its parent, from the bytes `c` under
      it: at most one segment goes up raw, and a node whose right half is empty hands
      its left child's value on unchanged. */
  function NodeValue(H: BaseHash, hs: nat, k: nat, c: Bytes): Bytes
    decreases k
  {
    if |c| <= hs then c
    else if k == 0 then H(c)
    else if |c| <= Width(hs, k - 1) then NodeValue(H, hs, k - 1, c)
    else
      var w := Width(hs, k - 1);
      H(NodeValue(H, hs, k - 1, c[..w]) + NodeValue(H, hs, k - 1, c[w..]))
  }

  /** Above one segment the tree's value is the reference hash, for every tall enough
      tree and every wide enough span. */
  lemma {:induction false} NodeValueIsRefHash(H: BaseHash, hs: nat, k: nat, c: Bytes, m: nat)
    requires hs > 0
    requires hs < |c| <= Width(hs, k) && |c| <= 2 * Width(hs, m)
    ensures NodeValue(H, hs, k, c) == RefHash(H, hs, c, m)
    decreases k, 1
  {
    if k == 0 {
      assert NodeValue(H, hs, k, c) == H(c) == RefHash(H, hs, c, m);
    } else if |c| <= Width(hs, k - 1) {
      assert NodeValue(H, hs, k, c) == NodeValue(H, hs, k - 1, c);
      NodeValueIsRefHash(H, hs, k - 1, c, m);
    } else {
      var w := Width(hs, k - 1);
      var x, y := NodeValue(H, hs, k - 1, c[..w]), NodeValue(H, hs, k - 1, c[w..]);
      assert x == RefHash(H, hs, c[..w], k - 1) by {
        NodeValueIsRefHash(H, hs, k - 1, c[..w], k - 1);
      }
      assert y == RefRight(H, hs, c[w..], k - 1) by {
        NodeValueIsRefRight(H, hs, k, c[w..]);
      }
      assert RefHash(H, hs, c, m) == H(x + y) by { RefHashSplit(H, hs, c, m, k - 1); }
      assert NodeValue(H, hs, k, c) == H(x + y) by { NodeValueSplit(H, hs, k, c); }
    }
  }

  lemma {:induction false} NodeValueIsRefRight(H: BaseHash, hs: nat, k: nat, c: Bytes)
    requires hs > 0 && k > 0 && |c| <= Width(hs, k - 1)
    ensures NodeValue(H, hs, k - 1, c) == RefRight(H, hs, c, k - 1)
    decreases k, 0
  {
    if |c| > hs {
      NodeValueIsRefHash(H, hs, k - 1, c, k - 1);
    } else {
      assert NodeValue(H, hs, k - 1, c) == c;
    }
  }

  lemma NodeValueSplit(H: BaseHash, hs: nat, k: nat, c: Bytes)
    requires hs > 0 && k > 0 && Width(hs, k - 1) < |c|
    ensures var w := Width(hs, k - 1);
            NodeValue(H, hs, k, c)
            == H(NodeValue(H, hs, k - 1, c[..w]) + NodeValue(H, hs, k - 1, c[w..]))
  {
    WidthDouble(hs, 0, k - 1);
  }

  /** The reference splits above one leaf at the widest power of two below the length. */
  lemma RefHashSplit(H: BaseHash, hs: nat, c: Bytes, m: nat, k: nat)
    requires hs > 0 && Width(hs, k) < |c| <= Width(hs, k + 1)
    requires |c| <= 2 * Width(hs, m)
    ensures var w := Width(hs, k);
            RefHash(H, hs, c, m) == H(RefHash(H, hs, c[..w], k) + RefRight(H, hs, c[w..], k))
  {
    WidthDouble(hs, 0, k);
    ShrinkFinds(hs, m, |c|, k);
  }

  lemma {:induction false} ShrinkFinds(hs: nat, m: nat, l: nat, k: nat)
    requires hs > 0 && 2 * hs < l
    requires Width(hs, k) < l <= Width(hs, k + 1)
    requires l <= 2 * Width(hs, m)
    ensures Shrink(hs, m, l) == k
  {
    var r := Shrink(hs, m, l);
    if r < k {
      WidthDouble(hs, r + 1, k);
    } else if r > k {
      WidthDouble(hs, k + 1, r);
    }
  }

  // ----- A base hash of the right length -----

  ghost predicate Sized(H: BaseHash, hs: nat) {
    forall b :: |H(b)| == hs
  }

  function Sum(b: Bytes): nat {
    if b == [] then 0 else Sum(b[..|b| - 1]) + b[|b| - 1]
  }

  lemma {:induction false} SumConcat(a: Bytes, b: Bytes)
    ensures Sum(a + b) == Sum(a) + Sum(b)
  {
    if b == [] {
      assert a + b == a;
    } else {
      var n := |b| - 1;
      SumConcat(a, b[..n]);
      assert (a + b)[..|a| + n] == a + b[..n];
    }
  }

  function Zeros(n: nat): (z: Bytes)
    ensures |z| == n && forall i :: 0 <= i < n ==> z[i] == 0
  {
    seq(n, _ => 0)
  }

  lemma {:induction false} SumZeros(n: nat)
    ensures Sum(Zeros(n)) == 0
  {
    if n > 0 {
      SumZeros(n - 1);
      assert Zeros(n)[..n - 1] == Zeros(n - 1);
    }
  }

  /** The sum of the bytes modulo 256, in a segment of `hs` bytes. */
  function Checksum(hs: nat): BaseHash
    requires hs > 0
  {
    (b: Bytes) => [Sum(b) % 256] + Zeros(hs - 1)
  }

  lemma ChecksumSized(hs: nat)
    requires hs > 0
    ensures Sized(Checksum(hs), hs)
  {
  }

  lemma SumChecksum(hs: nat, b: Bytes)
    requires hs > 0
    ensures Sum(Checksum(hs)(b)) == Sum(b) % 256
  {
    SumConcat([Sum(b) % 256], Zeros(hs - 1));
    SumZeros(hs - 1);
    assert [Sum(b) % 256][..0] == [];
  }

  /** Checksums of the parts add up to the checksum of the whole. */
  lemma ChecksumJoins(hs: nat, x: Bytes, y: Bytes, hashed: bool)
    requires hs > 0
    ensures Checksum(hs)(Checksum(hs)(x) + if hashed then Checksum(hs)(y) else y) == Checksum(hs)(x + y)
  {
    var right := if hashed then Checksum(hs)(y) else y;
    SumChecksum(hs, x);
    SumChecksum(hs, y);
    var whole := Checksum(hs)(x) + right;
    SumConcat(x, y);
    SumConcat(Checksum(hs)(x), right);
    AddMod(Sum(x), Sum(y), Sum(right));
    assert Sum(whole) % 256 == Sum(x + y) % 256;
    assert Checksum(hs)(whole) == [Sum(whole) % 256] + Zeros(hs - 1);
    assert Checksum(hs)(x + y) == [Sum(x + y) % 256] + Zeros(hs - 1);
  }

  lemma AddMod(a: nat, b: nat, c: nat)
    requires c == b || c == b % 256
    ensures (a % 256 + c) % 256 == (a + b) % 256
  {
    assert a == 256 * (a / 256) + a % 256 && b == 256 * (b / 256) + b % 256;
  }

  lemma {:induction false} ChecksumRefHash(hs: nat, d: Bytes, m: nat)
    requires hs > 0
    ensures RefHash(Checksum(hs), hs, d, m) == Checksum(hs)(d)
    decreases |d|
  {
    if |d| > 2 * hs {
      var r := Shrink(hs, m, |d|);
      var s := Width(hs, r);
      ChecksumRefHash(hs, d[..s], r);
      ChecksumRefHash(hs, d[s..], r);
      ChecksumJoins(hs, d[..s], d[s..], |d| - s > hs);
      assert d == d[..s] + d[s..];
    }
  }
}
