/** `chunk::get_block`: the width of a packed id, and the id itself. */
module BlockStates {
  import opened Bits
  import opened Wrappers

  // ----- the width

  /** `log2` of a positive number, rounded down. */
  function Log2(v: nat): (b: nat)
    requires v > 0
    ensures Pow2(b) <= v < Pow2(b + 1)
  {
    if v == 1 then 0 else 1 + Log2(v / 2)
  }

  lemma {:induction false} Log2Exact(b: nat)
    ensures Log2(Pow2(b)) == b
  {
    if b > 0 { Log2Exact(b - 1); }
  }

  lemma {:induction false} Pow2Monotone(a: nat, b: nat)
    requires a <= b
    ensures Pow2(a) <= Pow2(b)
    decreases b - a
  {
    if a < b { Pow2Monotone(a, b - 1); }
  }

  function OrShift(w: Bitseq, k: nat): (r: Bitseq)
    requires k <= |w|
    ensures |r| == |w|
  {
    Or(w, ShiftRight(w, k))
  }

  /** The five smearing steps on a 32-bit word. */
  function Smear(w: Bitseq): (r: Bitseq)
    requires |w| == 32
    ensures |r| == 32
  {
    OrShift(OrShift(OrShift(OrShift(OrShift(w, 1), 2), 4), 8), 16)
  }

  datatype Width = Bits(n: nat) | Undefined

  /** The width of an id for a palette of `size` names.  The smearing is done in
      32 bits; when the incremented word wraps to zero its logarithm is not a
      number. */
  function BitWidth(size: nat): Width
    requires size > 0
  {
    if size - 1 <= 15 then Bits(4)
    else SmearedWidth(FromNat(32, size - 1))
  }

  function SmearedWidth(w: Bitseq): Width
    requires |w| == 32
  {
    var v := (ToNat(Smear(w)) + 1) % 0x1_0000_0000;
    if v == 0 then Undefined else Bits(Log2(v))
  }

  /** Some bit of `w` among the `k` from `i` on is set. */
  ghost predicate AnySet(w: Bitseq, i: nat, k: nat) {
    exists j :: i <= j < i + k && j < |w| && w[j]
  }

  ghost predicate Covers(c: Bitseq, w: Bitseq, k: nat) {
    |c| == |w| && forall i: nat :: i < |w| ==> (c[i] <==> AnySet(w, i, k))
  }

  /** One smearing step doubles the reach. */
  lemma CoverDoubles(c: Bitseq, w: Bitseq, k: nat)
    requires Covers(c, w, k) && k <= |w|
    ensures Covers(OrShift(c, k), w, 2 * k)
  {
    var r := OrShift(c, k);
    forall i: nat | i < |w| ensures r[i] <==> AnySet(w, i, 2 * k) {
      assert r[i] <==> c[i] || (i + k < |w| && c[i + k]);
      if AnySet(w, i, 2 * k) {
        var j :| i <= j < i + 2 * k && j < |w| && w[j];
        if j < i + k { assert AnySet(w, i, k); } else { assert AnySet(w, i + k, k); }
      }
    }
  }

  lemma SmearCovers(w: Bitseq)
    requires |w| == 32
    ensures Covers(Smear(w), w, 32)
  {
    assert Covers(w, w, 1);
    var a := OrShift(w, 1);
    CoverDoubles(w, w, 1);
    var b := OrShift(a, 2);
    CoverDoubles(a, w, 2);
    var c := OrShift(b, 4);
    CoverDoubles(b, w, 4);
    var d := OrShift(c, 8);
    CoverDoubles(c, w, 8);
    CoverDoubles(d, w, 16);
  }

  /** The number of bits up to the highest one set. */
  function TopBit(w: Bitseq): (n: nat)
    ensures n <= |w|
    ensures n > 0 ==> w[n - 1]
    ensures forall j :: n <= j < |w| ==> !w[j]
  {
    if w == [] then 0
    else if w[|w| - 1] then |w|
    else TopBit(w[..|w| - 1])
  }

  lemma {:induction false} TopBitBounds(w: Bitseq)
    ensures ToNat(w) < Pow2(TopBit(w))
    ensures TopBit(w) > 0 ==> Pow2(TopBit(w) - 1) <= ToNat(w)
  {
    var n := TopBit(w);
    assert w == w[..n] + Zeros(|w| - n);
    ToNatPadded(w[..n], |w| - n);
    ToNatBound(w[..n]);
    if n > 0 { HighBitCounts(w[..n]); }
  }

  lemma {:induction false} HighBitCounts(w: Bitseq)
    requires w != [] && w[|w| - 1]
    ensures ToNat(w) >= Pow2(|w| - 1)
  {
    if |w| > 1 { HighBitCounts(w[1..]); }
  }

  lemma CoverIsMask(c: Bitseq, w: Bitseq)
    requires Covers(c, w, |w|)
    ensures c == Mask(|w|, TopBit(w))
  {
    var n, m := TopBit(w), Mask(|w|, TopBit(w));
    forall i: nat | i < |w| ensures c[i] == m[i] {
      if i < n { assert w[n - 1]; assert AnySet(w, i, |w|); }
    }
  }

  /** Smearing and incrementing round a word up to a power of two. */
  lemma SmearRoundsUp(w: Bitseq)
    requires |w| == 32
    ensures ToNat(Smear(w)) + 1 == Pow2(TopBit(w))
  {
    SmearCovers(w);
    CoverIsMask(Smear(w), w);
    ToNatMask(|w|, TopBit(w));
  }

  /** The width is the position above the highest bit of `size - 1`, unless
      all 32 bits smear. */
  lemma WidthOfTop(w: Bitseq)
    requires |w| == 32
    ensures SmearedWidth(w) == if TopBit(w) == 32 then Undefined else Bits(TopBit(w))
  {
    SmearRoundsUp(w);
    LogOfWrapped(TopBit(w), ToNat(Smear(w)) + 1);
  }

  lemma LogOfWrapped(n: nat, v: nat)
    requires n <= 32 && v == Pow2(n)
    ensures if n == 32 then v % 0x1_0000_0000 == 0 else v % 0x1_0000_0000 == v && Log2(v) == n
  {
    if n < 32 {
      assert v <= 0x8000_0000 by { Pow2Values(); Pow2Monotone(n, 31); }
      Log2Exact(n);
    } else {
      Pow2Values();
    }
  }

  lemma WidthFits(size: nat)
    requires size > 0
    ensures BitWidth(size).Bits? ==> BitWidth(size).n <= 31
  {
    if size > 16 { WidthOfTop(FromNat(32, size - 1)); }
  }

  lemma Pow2Values()
    ensures Pow2(4) == 16 && Pow2(31) == 0x8000_0000 && Pow2(32) == 0x1_0000_0000
  {
    assert Pow2(8) == 0x100;
    assert Pow2(12) == 0x1000;
    assert Pow2(16) == 0x1_0000;
    assert Pow2(20) == 0x10_0000;
    assert Pow2(24) == 0x100_0000;
    assert Pow2(28) == 0x1000_0000;
  }

  /** `b` is the least width, never below 4, that holds every palette id. */
  ghost predicate LeastWidth(size: nat, b: nat) {
    b >= 4 && size <= Pow2(b) && (b > 4 ==> Pow2(b - 1) < size)
  }

  /** The computed width is the least one exactly for palettes of up to 2^31
      names, where the 32-bit arithmetic does not wrap. */
  lemma WidthIsLeast(size: nat)
    requires size > 0
    ensures (BitWidth(size).Bits? && LeastWidth(size, BitWidth(size).n)) <==> size <= 0x8000_0000
  {
    Pow2Values();
    if size > 16 {
      var w := FromNat(32, size - 1);
      var n := TopBit(w);
      WidthOfTop(w);
      TopBitBounds(w);
      if n < 32 { Pow2Monotone(n, 31); }
      if size <= 0x1_0000_0000 {
        ToFromNat(32, size - 1);
        if n < 5 { Pow2Monotone(n, 4); }
      }
    }
  }

  // ----- reading an id

  type Word = w: Bitseq | |w| == 64 witness Zeros(64)

  datatype Id = Id(n: nat) | NoWord | PastEnd

  /** The id of the given width in the stretched layout, where ids lie end to
      end, so that this one starts at bit `p`. */
  function StretchedFrom(words: seq<Word>, bits: nat, p: nat): Id
    requires 0 < bits <= 32
  {
    var state, shift := p / 64, p % 64;
    if state >= |words| then NoWord
    else if 64 - shift < bits then
      if state + 1 >= |words| then PastEnd
      else Id(ToNat(Joined(words[state], words[state + 1], shift, bits, Leftover(bits, state))))
    else OneWord(words[state], shift, bits)
  }

  function OneWord(w: Word, shift: nat, bits: nat): Id
    requires shift <= 64 && bits <= 64
  {
    Id(ToNat(And(ShiftRight(w, shift), Mask(64, bits))))
  }

  function StretchedAt(words: seq<Word>, bits: nat, index: nat): Id
    requires 0 < bits <= 32
  {
    StretchedFrom(words, bits, index * bits)
  }

  /** Bits of the id that lie in the word after `state`. */
  function Leftover(bits: nat, state: nat): (n: nat)
    requires 0 < bits
    ensures n < bits
  {
    (bits - (state + 1) * 64 % bits) % bits
  }

  function Joined(low: Word, high: Word, shift: nat, bits: nat, leftover: nat): (w: Word)
    requires shift <= 64 && leftover < bits <= 32
  {
    And(Or(ShiftLeft(And(high, Mask(64, leftover)), bits - leftover), ShiftRight(low, shift)), Mask(64, bits))
  }

  /** The id in the compact layout, where none crosses words. */
  function CompactAt(words: seq<Word>, bits: nat, index: nat): Id
    requires 0 < bits <= 32
  {
    var per := 64 / bits;
    if index / per >= |words| then NoWord else CompactIn(words[index / per], bits, index % per)
  }

  function CompactIn(w: Word, bits: nat, slot: nat): Id
    requires 0 < bits <= 32 && slot < 64 / bits
  {
    SlotFits(bits, slot);
    OneWord(w, slot * bits, bits)
  }

  lemma SlotFits(bits: nat, slot: nat)
    requires 0 < bits && slot < 64 / bits
    ensures slot * bits + bits <= 64
  {
    var per := 64 / bits;
    assert (slot + 1) * bits <= per * bits;
    assert per * bits <= 64;
  }

  // ----- ids as parts of one large number

  /** The number that words spell, the first one lowest. */
  function Value(words: seq<Word>): nat {
    if words == [] then 0 else ToNat(words[0]) + Pow2(64) * Value(words[1..])
  }

  function Bitstring(words: seq<Word>): Bitseq {
    if words == [] then [] else words[0] + Bitstring(words[1..])
  }

  lemma {:induction false} BitstringValue(words: seq<Word>)
    ensures ToNat(Bitstring(words)) == Value(words) && |Bitstring(words)| == 64 * |words|
  {
    if words != [] {
      BitstringValue(words[1..]);
      ToNatJoin(words[0], Bitstring(words[1..]));
    }
  }

  lemma {:induction false} ChunksBack(words: seq<Word>)
    ensures |Bitstring(words)| % 64 == 0 && Chunks(Bitstring(words)) == words
  {
    if words != [] {
      ChunksBack(words[1..]);
      BitstringValue(words[1..]);
      assert Bitstring(words)[..64] == words[0] && Bitstring(words)[64..] == Bitstring(words[1..]);
    }
  }

  /** What `get_block` reads from the stretched layout, whatever the words hold: the
      given bits of the one large number that they are. */
  lemma {:induction false} StretchedValue(words: seq<Word>, bits: nat, index: nat)
    requires 0 < bits <= 32 && index * bits + bits <= 64 * |words|
    ensures StretchedAt(words, bits, index) == Id(Value(words) / Pow2(index * bits) % Pow2(bits))
  {
    var b, p := Bitstring(words), index * bits;
    BitstringValue(words);
    ChunksBack(words);
    SliceValue(b, p, bits);
    var v := ToNat(b[p..p + bits]);
    FromToNat(b[p..p + bits]);
    ToNatBound(b[p..p + bits]);
    PackedReads(b, bits, index, p, v);
  }

  /** And from the compact one: bits of one word. */
  lemma {:induction false} CompactValue(words: seq<Word>, bits: nat, index: nat)
    requires 0 < bits <= 32 && index / (64 / bits) < |words|
    ensures CompactAt(words, bits, index)
         == Id(ToNat(words[index / (64 / bits)]) / Pow2(index % (64 / bits) * bits) % Pow2(bits))
  {
    var per := 64 / bits;
    var w, p := words[index / per], index % per * bits;
    SlotFits(bits, index % per);
    MaskedShift(w, p, bits);
    ToNatPadded(w[p..p + bits], 64 - bits);
    SliceValue(w, p, bits);
  }

  // ----- packing, the other way round

  /** Ids end to end, lowest first. */
  function Pack(bits: nat, ids: seq<nat>): Bitseq {
    if ids == [] then [] else FromNat(bits, ids[0]) + Pack(bits, ids[1..])
  }

  function Chunks(b: Bitseq): seq<Word>
    requires |b| % 64 == 0
  {
    if b == [] then [] else [b[..64]] + Chunks(b[64..])
  }

  /** The words of ids packed end to end, for a multiple of 64 ids. */
  function PackStretched(bits: nat, ids: seq<nat>): seq<Word>
    requires |ids| % 64 == 0
  {
    PackWhole(bits, ids);
    Chunks(Pack(bits, ids))
  }

  lemma {:induction false} PackWhole(bits: nat, ids: seq<nat>)
    requires |ids| % 64 == 0
    ensures |Pack(bits, ids)| % 64 == 0 && |Pack(bits, ids)| / 64 == |ids| / 64 * bits
  {
    PackLength(bits, ids);
    MulBy64(|ids|, bits, |Pack(bits, ids)|);
  }

  lemma {:induction false} MulBy64(n: nat, bits: nat, len: nat)
    requires n % 64 == 0 && len == n * bits
    ensures len % 64 == 0 && len / 64 == n / 64 * bits
  {
    var k := n / 64;
    var m := k * bits;
    assert len == 64 * m by {
      assert n == 64 * k;
      assert (64 * k) * bits == 64 * (k * bits);
    }
    DivBy64(m);
  }

  lemma {:induction false} DivBy64(m: nat)
    ensures (64 * m) % 64 == 0 && (64 * m) / 64 == m
  {
  }

  /** As many whole ids per word as fit, the rest of the word zero. */
  function PackCompact(bits: nat, ids: seq<nat>): seq<Word>
    requires 0 < bits <= 32
    decreases |ids|
  {
    var per := 64 / bits;
    if ids == [] then []
    else if |ids| <= per then [PackWord(bits, ids)]
    else [PackWord(bits, ids[..per])] + PackCompact(bits, ids[per..])
  }

  function PackWord(bits: nat, ids: seq<nat>): (w: Word)
    requires 0 < bits && |ids| <= 64 / bits
  {
    assert |Pack(bits, ids)| <= 64 by {
      PackLength(bits, ids);
      if ids != [] { SlotFits(bits, |ids| - 1); }
    }
    Pack(bits, ids) + Zeros(64 - |Pack(bits, ids)|)
  }

  lemma {:induction false} PackLength(bits: nat, ids: seq<nat>)
    ensures |Pack(bits, ids)| == |ids| * bits
  {
    if ids != [] {
      PackLength(bits, ids[1..]);
      assert |ids| * bits == (|ids| - 1) * bits + bits;
    }
  }

  lemma {:induction false} PackConcat(bits: nat, a: seq<nat>, b: seq<nat>)
    ensures Pack(bits, a + b) == Pack(bits, a) + Pack(bits, b)
  {
    if a == [] {
      assert a + b == b;
    } else {
      assert (a + b)[1..] == a[1..] + b;
      PackConcat(bits, a[1..], b);
    }
  }

  lemma PackAt(bits: nat, ids: seq<nat>, i: nat, p: nat)
    requires i < |ids| && p == i * bits
    ensures p + bits <= |Pack(bits, ids)|
    ensures Pack(bits, ids)[p..p + bits] == FromNat(bits, ids[i])
  {
    assert ids == ids[..i] + ids[i..];
    PackConcat(bits, ids[..i], ids[i..]);
    PackLength(bits, ids[..i]);
    assert Pack(bits, ids[i..]) == FromNat(bits, ids[i]) + Pack(bits, ids[i..][1..]);
  }

  lemma {:induction false} ChunkAt(b: Bitseq, k: nat)
    requires |b| % 64 == 0 && 64 * k < |b|
    ensures |Chunks(b)| == |b| / 64 && Chunks(b)[k] == b[64 * k..64 * k + 64]
    decreases k, |b|
  {
    ChunkCount(b);
    if k > 0 { ChunkAt(b[64..], k - 1); }
  }

  lemma {:induction false} ChunkCount(b: Bitseq)
    requires |b| % 64 == 0
    ensures |Chunks(b)| == |b| / 64
  {
    if b != [] { ChunkCount(b[64..]); }
  }

  // ----- the layouts refine indexing

  lemma ReadPadded(b: Bitseq, bits: nat, v: nat)
    requires bits <= 64 && b == FromNat(bits, v) + Zeros(64 - bits) && v < Pow2(bits)
    ensures ToNat(b) == v
  {
    ToNatPadded(FromNat(bits, v), 64 - bits);
    ToFromNat(bits, v);
  }

  lemma MaskedShift(w: Word, shift: nat, bits: nat)
    requires shift + bits <= 64
    ensures And(ShiftRight(w, shift), Mask(64, bits)) == w[shift..shift + bits] + Zeros(64 - bits)
  {
  }

  /** Two words joined: the end of one and the start of the next. */
  lemma JoinedIs(low: Word, high: Word, shift: nat, bits: nat)
    requires shift < 64 < shift + bits && bits <= 32
    ensures Joined(low, high, shift, bits, shift + bits - 64)
         == low[shift..] + high[..shift + bits - 64] + Zeros(64 - bits)
  {
  }

  lemma LeftoverIsRest(bits: nat, index: nat, state: nat, shift: nat)
    requires 0 < bits && index * bits == 64 * state + shift && shift < 64 && 64 - shift < bits
    ensures Leftover(bits, state) == shift + bits - 64
  {
    var end, r := (state + 1) * 64, 64 - shift;
    assert end == bits * index + r;
    DivModUnique(end, bits, index, r);
    DivModUnique(bits - r, bits, 0, bits - r);
  }

  lemma WithinWord(b: Bitseq, bits: nat, p: nat, v: nat)
    requires |b| % 64 == 0 && 0 < bits <= 32 && p + bits <= |b|
    requires b[p..p + bits] == FromNat(bits, v) && v < Pow2(bits)
    requires p % 64 + bits <= 64
    ensures p / 64 < |Chunks(b)| && OneWord(Chunks(b)[p / 64], p % 64, bits) == Id(v)
  {
    var state, shift := p / 64, p % 64;
    ChunkAt(b, state);
    var w := Chunks(b)[state];
    MaskedShift(w, shift, bits);
    SliceOfSlice(b, 64 * state, 64, shift, bits);
    ReadPadded(w[shift..shift + bits] + Zeros(64 - bits), bits, v);
  }

  /** The tail of one word and the front of the next are one stretch of bits. */
  lemma WordsJoin(b: Bitseq, state: nat, shift: nat, rest: nat)
    requires 64 * state + 128 <= |b| && shift < 64 && rest <= 64
    ensures b[64 * state..64 * state + 64][shift..] + b[64 * state + 64..64 * state + 128][..rest]
         == b[64 * state + shift..64 * state + 64 + rest]
  {
    SliceOfSlice(b, 64 * state, 64, shift, 64 - shift);
    SliceOfSlice(b, 64 * state + 64, 64, 0, rest);
  }

  lemma AcrossWords(b: Bitseq, bits: nat, p: nat, v: nat)
    requires |b| % 64 == 0 && 0 < bits <= 32 && p + bits <= |b|
    requires b[p..p + bits] == FromNat(bits, v) && v < Pow2(bits)
    requires p % 64 + bits > 64
    ensures p / 64 + 1 < |Chunks(b)|
    ensures ToNat(Joined(Chunks(b)[p / 64], Chunks(b)[p / 64 + 1], p % 64, bits, p % 64 + bits - 64)) == v
  {
    var state, shift := p / 64, p % 64;
    ChunkAt(b, state);
    ChunkAt(b, state + 1);
    JoinedReads(b, bits, state, shift, Chunks(b)[state], Chunks(b)[state + 1], v);
  }

  lemma {:induction false} JoinedReads(b: Bitseq, bits: nat, state: nat, shift: nat, low: Word, high: Word, v: nat)
    requires 0 < bits <= 32 && shift < 64 < shift + bits && 64 * state + 128 <= |b|
    requires low == b[64 * state..64 * state + 64] && high == b[64 * state + 64..64 * state + 128]
    requires b[64 * state + shift..64 * state + shift + bits] == FromNat(bits, v) && v < Pow2(bits)
    ensures ToNat(Joined(low, high, shift, bits, shift + bits - 64)) == v
  {
    var rest := shift + bits - 64;
    JoinedIs(low, high, shift, bits);
    WordsJoin(b, state, shift, rest);
    ReadPadded(low[shift..] + high[..rest] + Zeros(64 - bits), bits, v);
  }

  /** The stretched layout refines indexing: for every width and every sequence
      of ids packed end to end, `get_block` reads back the id at the position,
      also when it lies across two words, and the second word is there. */
  lemma {:induction false} StretchedRefines(bits: nat, ids: seq<nat>, index: nat)
    requires 0 < bits <= 32 && |ids| % 64 == 0 && index < |ids|
    requires ids[index] < Pow2(bits)
    ensures StretchedAt(PackStretched(bits, ids), bits, index) == Id(ids[index])
  {
    StretchedHolds(bits, ids, index, index * bits);
  }

  lemma {:induction false} StretchedHolds(bits: nat, ids: seq<nat>, index: nat, p: nat)
    requires 0 < bits <= 32 && |ids| % 64 == 0 && index < |ids| && p == index * bits
    requires ids[index] < Pow2(bits)
    ensures StretchedFrom(PackStretched(bits, ids), bits, p) == Id(ids[index])
  {
    WholeWords(bits, ids);
    PackAt(bits, ids, index, p);
    PackedReads(Pack(bits, ids), bits, index, p, ids[index]);
  }

  lemma {:induction false} WholeWords(bits: nat, ids: seq<nat>)
    requires |ids| % 64 == 0
    ensures |Pack(bits, ids)| % 64 == 0
  {
    PackWhole(bits, ids);
  }

  lemma {:induction false} PackedReads(b: Bitseq, bits: nat, index: nat, p: nat, v: nat)
    requires |b| % 64 == 0 && 0 < bits <= 32 && p == index * bits && p + bits <= |b|
    requires b[p..p + bits] == FromNat(bits, v) && v < Pow2(bits)
    ensures StretchedFrom(Chunks(b), bits, p) == Id(v)
  {
    if p % 64 + bits <= 64 {
      WithinWord(b, bits, p, v);
    } else {
      AcrossWords(b, bits, p, v);
      LeftoverIsRest(bits, index, p / 64, p % 64);
    }
  }

  lemma SlotReads(bits: nat, ids: seq<nat>, slot: nat)
    requires 0 < bits <= 32 && |ids| <= 64 / bits && slot < |ids| && ids[slot] < Pow2(bits)
    ensures CompactIn(PackWord(bits, ids), bits, slot) == Id(ids[slot])
  {
    var p, w := slot * bits, PackWord(bits, ids);
    SlotFits(bits, slot);
    PackAt(bits, ids, slot, p);
    MaskedShift(w, p, bits);
    assert w[p..p + bits] == Pack(bits, ids)[p..p + bits];
    ReadPadded(w[p..p + bits] + Zeros(64 - bits), bits, ids[slot]);
  }

  /** The compact layout refines indexing, for every width and any number of
      ids. */
  lemma {:induction false} CompactRefines(bits: nat, ids: seq<nat>, index: nat)
    requires 0 < bits <= 32 && index < |ids| && ids[index] < Pow2(bits)
    ensures CompactAt(PackCompact(bits, ids), bits, index) == Id(ids[index])
    decreases |ids|
  {
    var per := 64 / bits;
    if index < per {
      CompactFirst(PackCompact(bits, ids), bits, index);
      SlotReads(bits, if |ids| <= per then ids else ids[..per], index);
    } else {
      CompactRefines(bits, ids[per..], index - per);
      CompactStep(PackWord(bits, ids[..per]), PackCompact(bits, ids[per..]), bits, index);
    }
  }

  lemma CompactFirst(words: seq<Word>, bits: nat, index: nat)
    requires 0 < bits <= 32 && index < 64 / bits && words != []
    ensures CompactAt(words, bits, index) == CompactIn(words[0], bits, index)
  {
    DivModUnique(index, 64 / bits, 0, index);
  }

  lemma CompactStep(w: Word, rest: seq<Word>, bits: nat, index: nat)
    requires 0 < bits <= 32 && index >= 64 / bits
    ensures CompactAt([w] + rest, bits, index) == CompactAt(rest, bits, index - 64 / bits)
  {
    NextWord(index, 64 / bits);
  }

  lemma NextWord(index: nat, per: nat)
    requires 0 < per <= index
    ensures index / per == (index - per) / per + 1 && index % per == (index - per) % per
  {
    var q, r := (index - per) / per, (index - per) % per;
    assert index == per * (q + 1) + r by { assert index - per == per * q + r; }
    DivModUnique(index, per, q + 1, r);
  }

  /** When the width divides 64 no id crosses words, and the two branches read
      the same word at the same shift, whatever the words hold. */
  lemma LayoutsCoincide(words: seq<Word>, bits: nat, index: nat)
    requires 0 < bits <= 32 && 64 % bits == 0
    ensures StretchedAt(words, bits, index) == CompactAt(words, bits, index)
  {
    var per := 64 / bits;
    assert per * bits == 64;
    var q, r := index / per, index % per;
    assert index * bits == 64 * q + r * bits by {
      assert index == per * q + r;
      assert (per * q) * bits == (per * bits) * q;
    }
    SlotFits(bits, r);
    DivModUnique(index * bits, 64, q, r * bits);
  }

  // ----- the whole lookup

  datatype Section = Section(palette: seq<string>, words: seq<Word>)

  /** `Fault` stands for an undefined conversion, a division by zero or a read
      past the end of the words. */
  datatype Lookup = Name(name: string) | Fault

  const AIR := "minecraft:air"
  const NEED_STRETCH_DATA_VERSION_THRESHOLD := 2529

  function BlockIndex(x: nat, y: nat, z: nat): nat {
    y * 16 * 16 + z * 16 + x
  }

  function NameOf(palette: seq<string>, id: nat): string {
    if id == 0 || |palette| <= id then AIR else palette[id]
  }

  method SmearWord(w: Bitseq) returns (bits: Bitseq)
    requires |w| == 32
    ensures bits == Smear(w)
  {
    bits := OrShift(w, 1);
    bits := OrShift(bits, 2);
    bits := OrShift(bits, 4);
    bits := OrShift(bits, 8);
    bits := OrShift(bits, 16);
  }

  /** The first half of `get_block`. */
  method IdWidth(size: nat) returns (w: Width)
    requires size > 0
    ensures w == BitWidth(size) && (w.Bits? ==> w.n <= 31)
  {
    WidthFits(size);
    if size - 1 <= 15 {
      return Bits(4);
    }
    var bits := SmearWord(FromNat(32, size - 1));
    w := LogOfNext(ToNat(bits));
  }

  /** `log2` of the incremented 32-bit word. */
  method LogOfNext(bits: nat) returns (w: Width)
    ensures var next := (bits + 1) % 0x1_0000_0000; w == if next == 0 then Undefined else Bits(Log2(next))
  {
    var next := (bits + 1) % 0x1_0000_0000;
    w := if next == 0 then Undefined else Bits(Log2(next));
  }

  method GetBlock(sections: seq<Option<Section>>, dataVersion: int, x: int, y: int, z: int) returns (r: Lookup)
    requires |sections| == 16
    ensures !(0 <= x < 16 && 0 <= y < 256 && 0 <= z < 16) ==> r == Name("")
    ensures 0 <= x < 16 && 0 <= y < 256 && 0 <= z < 16 ==>
              r == BlockAt(sections[y / 16], dataVersion < 2529, y % 16 * 256 + z * 16 + x)
    ensures 0 <= x < 16 && 0 <= y < 256 && 0 <= z < 16 ==>
              Means(sections[y / 16], dataVersion < 2529, x, y % 16, z, r)
    ensures 0 <= x < 16 && 0 <= y < 256 && 0 <= z < 16 ==>
              (sections[y / 16].None? || sections[y / 16].value.palette == [] ==> r == Name("minecraft:air"))
  {
    if x < 0 || 15 < x || y < 0 || 255 < y || z < 0 || 15 < z {
      return Name("");
    }
    r := BlockOf(sections[y / 16], dataVersion < NEED_STRETCH_DATA_VERSION_THRESHOLD, x, y % 16, z);
  }

  method BlockOf(section: Option<Section>, stretches: bool, x: nat, y: nat, z: nat) returns (r: Lookup)
    requires x < 16 && y < 16 && z < 16
    ensures r == BlockAt(section, stretches, y * 256 + z * 16 + x) && Means(section, stretches, x, y, z, r)
    ensures section.None? || section.value.palette == [] ==> r == Name("minecraft:air")
  {
    var index := BlockIndex(x, y, z);
    r := BlockIn(section, stretches, index);
    SectionMeans(section, stretches, x, y, z, index, r);
  }

  /** The rest of `get_block`: the block at a position of one section. */
  method BlockIn(section: Option<Section>, stretches: bool, index: nat) returns (r: Lookup)
    ensures r == BlockAt(section, stretches, index)
  {
    if section.None? || section.value.palette == [] {
      return Name(AIR);
    }
    var Section(palette, states) := section.value;
    var width := IdWidth(|palette|);
    if width.Undefined? {
      return Fault;
    }
    var bits := width.n;
    if bits == 0 {
      return if stretches then Name(AIR) else Fault;
    }
    var id := if stretches then StretchedAt(states, bits, index) else CompactAt(states, bits, index);
    if id.NoWord? {
      return Name(AIR);
    }
    if id.PastEnd? {
      return Fault;
    }
    if id.n <= 0 || |palette| <= id.n {
      return Name(AIR);
    }
    return Name(palette[id.n]);
  }

  function BlockAt(section: Option<Section>, stretches: bool, index: nat): Lookup {
    if section.None? || section.value.palette == [] then Name(AIR)
    else
      var Section(palette, words) := section.value;
      WidthFits(|palette|);
      match BitWidth(|palette|)
      case Undefined => Fault
      case Bits(bits) =>
        if bits == 0 then if stretches then Name(AIR) else Fault
        else
          match if stretches then StretchedAt(words, bits, index) else CompactAt(words, bits, index)
          case NoWord => Name(AIR)
          case PastEnd => Fault
          case Id(id) => Name(NameOf(palette, id))
  }

  /** What a packed section means: for a palette of at most 2^31 names and 4096
      ids packed in the layout of its version at the least width, looking up a
      position gives the name of the id there, air for id 0 and for ids the
      palette does not have. */
  lemma BlockAtRefines(palette: seq<string>, ids: seq<nat>, stretches: bool, index: nat, bits: nat)
    requires 0 < |palette| <= 0x8000_0000 && |ids| == 4096 && index < 4096
    requires LeastWidth(|palette|, bits) && forall i | i in ids :: i < Pow2(bits)
    ensures bits <= 31
    ensures var words := if stretches then PackStretched(bits, ids) else PackCompact(bits, ids);
            BlockAt(Some(Section(palette, words)), stretches, index) == Name(NameOf(palette, ids[index]))
  {
    WidthIsLeast(|palette|);
    WidthFits(|palette|);
    LeastIsUnique(|palette|, bits, BitWidth(|palette|).n);
    assert ids[index] in ids;
    if stretches {
      StretchedRefines(bits, ids, index);
    } else {
      CompactRefines(bits, ids, index);
    }
  }

  /** A section with a palette of at most 2^31 names is read at the least width. */
  lemma {:induction false} BlockById(palette: seq<string>, words: seq<Word>, stretches: bool, index: nat, bits: nat)
    requires 0 < |palette| <= 0x8000_0000 && LeastWidth(|palette|, bits)
    ensures bits <= 31
    ensures BlockAt(Some(Section(palette, words)), stretches, index)
         == match if stretches then StretchedAt(words, bits, index) else CompactAt(words, bits, index)
            case NoWord => Name("minecraft:air")
            case PastEnd => Fault
            case Id(id) => Named(palette, id)
  {
    WidthIsLeast(|palette|);
    WidthFits(|palette|);
    LeastIsUnique(|palette|, bits, BitWidth(|palette|).n);
  }

  /** Any position of any stretched section, whatever its words hold: air where the words
      do not reach, nothing defined where the second of two words is missing, else the
      name of the number in its bits. */
  lemma {:induction false} StretchedBlock(palette: seq<string>, words: seq<Word>, index: nat, bits: nat, p: nat)
    requires 0 < |palette| <= 0x8000_0000 && LeastWidth(|palette|, bits) && p == index * bits
    ensures BlockAt(Some(Section(palette, words)), true, index)
         == if p / 64 >= |words| then Name("minecraft:air")
            else if p + bits > 64 * |words| then Fault
            else Named(palette, Value(words) / Pow2(p) % Pow2(bits))
  {
    BlockById(palette, words, true, index, bits);
    StretchedReach(words, bits, index, p);
    if p + bits <= 64 * |words| { StretchedValue(words, bits, index); }
  }

  /** And of any compact one. */
  lemma {:induction false} CompactBlock(palette: seq<string>, words: seq<Word>, index: nat, bits: nat, per: nat)
    requires 0 < |palette| <= 0x8000_0000 && LeastWidth(|palette|, bits) && per == 64 / bits
    ensures per > 0
    ensures BlockAt(Some(Section(palette, words)), false, index)
         == if index / per >= |words| then Name("minecraft:air")
            else Named(palette, ToNat(words[index / per]) / Pow2(index % per * bits) % Pow2(bits))
  {
    BlockById(palette, words, false, index, bits);
    if index / per < |words| { CompactValue(words, bits, index); }
  }

  function Named(palette: seq<string>, id: nat): Lookup {
    Name(if 0 < id < |palette| then palette[id] else "minecraft:air")
  }

  lemma {:induction false} StretchedReach(words: seq<Word>, bits: nat, index: nat, p: nat)
    requires 0 < bits <= 32 && p == index * bits
    ensures p / 64 >= |words| <==> StretchedFrom(words, bits, p) == NoWord
    ensures p / 64 < |words| && p + bits > 64 * |words| ==> StretchedFrom(words, bits, p) == PastEnd
  {
  }

  // ----- sections as they are built

  /** The ids of a section: sixteen layers, bottom up, of sixteen rows of sixteen. */
  type Layers = s: seq<seq<seq<nat>>> | IsLayers(s) witness seq(16, y => seq(16, z => seq(16, x => 0)))

  predicate IsLayers(s: seq<seq<seq<nat>>>) {
    |s| == 16 && forall y | 0 <= y < 16 :: |s[y]| == 16 && forall z | 0 <= z < 16 :: |s[y][z]| == 16
  }

  function Flat<T>(rows: seq<seq<T>>): seq<T> {
    if rows == [] then [] else rows[0] + Flat(rows[1..])
  }

  lemma {:induction false} FlatAt<T>(rows: seq<seq<T>>, n: nat, i: nat, j: nat, at: nat)
    requires i < |rows| && j < n && at == i * n + j && forall k | 0 <= k < |rows| :: |rows[k]| == n
    ensures at < |Flat(rows)| && Flat(rows)[at] == rows[i][j]
    decreases |rows|
  {
    if i > 0 {
      OneRow(i, n);
      FlatAt(rows[1..], n, i - 1, j, at - n);
    }
  }

  lemma {:induction false} FlatLength<T>(rows: seq<seq<T>>, n: nat)
    requires forall k | 0 <= k < |rows| :: |rows[k]| == n
    ensures |Flat(rows)| == |rows| * n
    decreases |rows|
  {
    if rows != [] {
      FlatLength(rows[1..], n);
      OneRow(|rows|, n);
    }
  }

  lemma {:induction false} OneRow(i: nat, n: nat)
    requires i > 0
    ensures i * n == n + (i - 1) * n
  {
  }

  /** The ids of a section in the order they are packed in. */
  function Ids(layers: Layers): seq<nat> {
    Flat(Flat(layers))
  }

  lemma {:induction false} IdAt(layers: Layers, x: nat, y: nat, z: nat)
    requires x < 16 && y < 16 && z < 16
    ensures |Ids(layers)| == 4096 && Ids(layers)[y * 256 + z * 16 + x] == layers[y][z][x]
  {
    FlatLength(layers, 16);
    forall k | 0 <= k < |Flat(layers)| ensures |Flat(layers)[k]| == 16 {
      FlatAt(layers, 16, k / 16, k % 16, k);
    }
    FlatLength(Flat(layers), 16);
    FlatAt(layers, 16, y, z, y * 16 + z);
    FlatAt(Flat(layers), 16, y * 16 + z, x, y * 256 + z * 16 + x);
  }

  /** The section holds these ids in the layout of its version, packed at the least
      width for its palette. */
  ghost predicate Packs(section: Option<Section>, stretches: bool, layers: Layers, palette: seq<string>, bits: nat) {
    && 0 < |palette| <= 0x8000_0000 && LeastWidth(|palette|, bits)
    && |Ids(layers)| == 4096 && (forall id | id in Ids(layers) :: id < Pow2(bits))
    && bits <= 32
    && section == Some(Section(palette, if stretches then PackStretched(bits, Ids(layers))
                                        else PackCompact(bits, Ids(layers))))
  }

  /** Whatever ids the section holds, `r` is the name of the one in layer `y`, row `z`
      and column `x`, air for id 0 and for ids the palette does not have. */
  ghost predicate Means(section: Option<Section>, stretches: bool, x: nat, y: nat, z: nat, r: Lookup)
    requires x < 16 && y < 16 && z < 16
  {
    forall layers: Layers, palette, bits | Packs(section, stretches, layers, palette, bits) ::
      var id := layers[y][z][x]; r == Name(if 0 < id < |palette| then palette[id] else "minecraft:air")
  }

  lemma {:induction false} SectionMeans(section: Option<Section>, stretches: bool, x: nat, y: nat, z: nat, index: nat,
                                        r: Lookup)
    requires x < 16 && y < 16 && z < 16 && index == y * 256 + z * 16 + x
    requires r == BlockAt(section, stretches, index)
    ensures Means(section, stretches, x, y, z, r)
  {
    forall layers: Layers, palette, bits | Packs(section, stretches, layers, palette, bits)
      ensures var id := layers[y][z][x]; r == Name(if 0 < id < |palette| then palette[id] else "minecraft:air")
    {
      IdAt(layers, x, y, z);
      BlockAtRefines(palette, Ids(layers), stretches, index, bits);
    }
  }

  lemma LeastIsUnique(size: nat, a: nat, b: nat)
    requires LeastWidth(size, a) && LeastWidth(size, b)
    ensures a == b
  {
    if a < b { Pow2Monotone(a, b - 1); }
    if b < a { Pow2Monotone(b, a - 1); }
  }
}
