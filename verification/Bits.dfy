/** Machine words as bit sequences, least significant bit first. */
module Bits {

  type Bitseq = seq<bool>

  function Pow2(n: nat): (r: nat)
    ensures r > 0
  {
    if n == 0 then 1 else 2 * Pow2(n - 1)
  }

  function ToNat(w: Bitseq): nat {
    if w == [] then 0 else (if w[0] then 1 else 0) + 2 * ToNat(w[1..])
  }

  /** The `n` low bits of `v`. */
  function FromNat(n: nat, v: nat): (w: Bitseq)
    ensures |w| == n
  {
    if n == 0 then [] else [v % 2 == 1] + FromNat(n - 1, v / 2)
  }

  lemma {:induction false} ToFromNat(n: nat, v: nat)
    requires v < Pow2(n)
    ensures ToNat(FromNat(n, v)) == v
  {
    if n > 0 { ToFromNat(n - 1, v / 2); }
  }

  lemma {:induction false} MulGap(m: nat, a: nat, q: nat)
    requires a > q
    ensures m * a >= m * q + m
    decreases a
  {
    assert m * a == m * (a - 1) + m;
    if a - 1 > q { MulGap(m, a - 1, q); }
  }

  /** Quotient and remainder are unique. */
  lemma DivModUnique(v: nat, m: nat, q: nat, r: nat)
    requires m > 0 && r < m && v == m * q + r
    ensures v / m == q && v % m == r
  {
    var a := v / m;
    if a > q {
      MulGap(m, a, q);
    } else if a < q {
      MulGap(m, q, a);
    }
  }

  lemma {:induction false} ToNatBound(w: Bitseq)
    ensures ToNat(w) < Pow2(|w|)
  {
    if w != [] { ToNatBound(w[1..]); }
  }

  // ----- the operators

  function Zeros(n: nat): (w: Bitseq)
    ensures |w| == n
  {
    seq(n, i => false)
  }

  function Ones(n: nat): (w: Bitseq)
    ensures |w| == n
  {
    seq(n, i => true)
  }

  /** `(1 << k) - 1` in `n` bits. */
  function Mask(n: nat, k: nat): (w: Bitseq)
    requires k <= n
    ensures |w| == n
  {
    Ones(k) + Zeros(n - k)
  }

  function ShiftRight(w: Bitseq, k: nat): (r: Bitseq)
    requires k <= |w|
    ensures |r| == |w|
  {
    w[k..] + Zeros(k)
  }

  function ShiftLeft(w: Bitseq, k: nat): (r: Bitseq)
    requires k <= |w|
    ensures |r| == |w|
  {
    Zeros(k) + w[..|w| - k]
  }

  function And(a: Bitseq, b: Bitseq): (r: Bitseq)
    requires |a| == |b|
    ensures |r| == |a|
  {
    seq(|a|, i requires 0 <= i < |a| => a[i] && b[i])
  }

  function Or(a: Bitseq, b: Bitseq): (r: Bitseq)
    requires |a| == |b|
    ensures |r| == |a|
  {
    seq(|a|, i requires 0 <= i < |a| => a[i] || b[i])
  }

  lemma {:induction false} ToNatZeros(n: nat)
    ensures ToNat(Zeros(n)) == 0
  {
    if n > 0 {
      ToNatZeros(n - 1);
      assert Zeros(n)[1..] == Zeros(n - 1);
    }
  }

  lemma {:induction false} ToNatMask(n: nat, k: nat)
    requires k <= n
    ensures ToNat(Mask(n, k)) == Pow2(k) - 1
  {
    if k == 0 {
      assert Mask(n, k) == Zeros(n);
      ToNatZeros(n);
    } else {
      ToNatMask(n - 1, k - 1);
      assert Mask(n, k)[1..] == Mask(n - 1, k - 1);
    }
  }

  /** Zeros on top do not count. */
  lemma {:induction false} ToNatPadded(w: Bitseq, n: nat)
    ensures ToNat(w + Zeros(n)) == ToNat(w)
  {
    if w == [] {
      ToNatZeros(n);
      assert w + Zeros(n) == Zeros(n);
    } else {
      ToNatPadded(w[1..], n);
      assert (w + Zeros(n))[1..] == w[1..] + Zeros(n);
    }
  }

  lemma {:induction false} FromToNat(w: Bitseq)
    ensures FromNat(|w|, ToNat(w)) == w
  {
    if w != [] { FromToNat(w[1..]); }
  }

  lemma {:induction false} ToNatJoin(a: Bitseq, b: Bitseq)
    ensures ToNat(a + b) == ToNat(a) + Pow2(|a|) * ToNat(b)
  {
    if a == [] {
      assert a + b == b;
    } else {
      ToNatJoin(a[1..], b);
      assert (a + b)[1..] == a[1..] + b;
      Twice(Pow2(|a| - 1), ToNat(b));
    }
  }

  lemma Twice(p: nat, n: nat)
    ensures 2 * (p * n) == (2 * p) * n
  {
  }

  /** A stretch of bits is a quotient and a remainder. */
  lemma {:induction false} SliceValue(w: Bitseq, p: nat, n: nat)
    requires p + n <= |w|
    ensures ToNat(w[p..p + n]) == ToNat(w) / Pow2(p) % Pow2(n)
  {
    var low, mid, high := w[..p], w[p..p + n], w[p + n..];
    assert w == low + (mid + high);
    ToNatJoin(low, mid + high);
    ToNatJoin(mid, high);
    ToNatBound(low);
    ToNatBound(mid);
    DivModUnique(ToNat(w), Pow2(p), ToNat(mid + high), ToNat(low));
    DivModUnique(ToNat(mid + high), Pow2(n), ToNat(high), ToNat(mid));
  }

  lemma SliceOfSlice(b: Bitseq, o: nat, w: nat, s: nat, n: nat)
    requires o + w <= |b| && s + n <= w
    ensures b[o..o + w][s..s + n] == b[o + s..o + s + n]
  {
    var l, r := b[o..o + w][s..s + n], b[o + s..o + s + n];
    assert |l| == |r| && forall i | 0 <= i < n :: l[i] == b[o + s + i] == r[i];
  }
}
