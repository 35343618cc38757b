/** Big-endian numbers, as both NBT readers take them from a byte buffer. */
module Bytes {

  type byte = x: int | 0 <= x < 256

  /** 256 to the power `n`. */
  function Pow256(n: nat): (r: nat)
    ensures r > 0
  {
    if n == 0 then 1 else 256 * Pow256(n - 1)
  }

  /** The `n` low bytes of `v`, most significant first. */
  function BE(n: nat, v: nat): (s: seq<byte>)
    ensures |s| == n
  {
    if n == 0 then [] else BE(n - 1, v / 256) + [v % 256]
  }

  /** The number written by `s`, most significant byte first. */
  function Val(s: seq<byte>): nat {
    if s == [] then 0 else 256 * Val(s[..|s| - 1]) + s[|s| - 1]
  }

  lemma {:induction false} ValOfBE(n: nat, v: nat)
    requires v < Pow256(n)
    ensures Val(BE(n, v)) == v
  {
    if n > 0 {
      ValOfBE(n - 1, v / 256);
      assert BE(n, v)[..n - 1] == BE(n - 1, v / 256);
    }
  }

  lemma {:induction false} BEOfVal(s: seq<byte>)
    ensures Val(s) < Pow256(|s|)
    ensures BE(|s|, Val(s)) == s
  {
    if s != [] {
      BEOfVal(s[..|s| - 1]);
      assert s == s[..|s| - 1] + [s[|s| - 1]];
    }
  }

  lemma PowValues()
    ensures Pow256(1) == 0x100 && Pow256(2) == 0x1_0000
    ensures Pow256(4) == 0x1_0000_0000 && Pow256(8) == 0x1_0000_0000_0000_0000
  {
    assert Pow256(3) == 256 * Pow256(2);
    assert Pow256(5) == 256 * Pow256(4);
    assert Pow256(6) == 256 * Pow256(5);
    assert Pow256(7) == 256 * Pow256(6);
  }

  /** `s` lies in `d` at offset `o`. */
  ghost predicate At(d: seq<byte>, o: nat, s: seq<byte>) {
    o + |s| <= |d| && d[o..o + |s|] == s
  }

  lemma AtConcat(d: seq<byte>, o: nat, a: seq<byte>, b: seq<byte>)
    ensures At(d, o, a + b) <==> At(d, o, a) && At(d, o + |a|, b)
  {
    if At(d, o, a + b) {
      assert d[o..o + |a|] == d[o..o + |a + b|][..|a|];
      assert d[o + |a|..o + |a| + |b|] == d[o..o + |a + b|][|a|..];
    }
    if At(d, o, a) && At(d, o + |a|, b) {
      assert d[o..o + |a + b|] == d[o..o + |a|] + d[o + |a|..o + |a| + |b|];
    }
  }

  /** Memory as the tree reader's iterators see it: every address can be
      dereferenced, and nothing is known about bytes past the buffer. */
  type Memory = nat -> byte

  function Slice(mem: Memory, pos: nat, n: nat): (s: seq<byte>)
    ensures |s| == n
  {
    seq(n, i requires 0 <= i => mem(pos + i))
  }

  /** `s` lies in memory at `pos`. */
  ghost predicate Has(mem: Memory, pos: nat, s: seq<byte>) {
    Slice(mem, pos, |s|) == s
  }

  lemma HasConcat(mem: Memory, pos: nat, a: seq<byte>, b: seq<byte>)
    ensures Has(mem, pos, a + b) <==> Has(mem, pos, a) && Has(mem, pos + |a|, b)
  {
    var whole := Slice(mem, pos, |a + b|);
    assert whole[..|a|] == Slice(mem, pos, |a|);
    assert whole[|a|..] == Slice(mem, pos + |a|, |b|);
    assert whole == whole[..|a|] + whole[|a|..];
    assert (a + b)[..|a|] == a && (a + b)[|a|..] == b;
  }
}
