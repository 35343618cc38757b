/** The embedded block colour table: the generator that writes it and the
    renderer that reads it back. */
module ColourTable {
  import opened Bytes
  import opened Color
  import opened Wrappers

  /** The generator refuses ids longer than 255 bytes. */
  type Id = s: seq<byte> | |s| <= 255

  datatype Entry = Entry(id: Id, color: Color)

  type Table = map<seq<byte>, nat>

  /** The generator keeps one entry per id. */
  ghost predicate Accepted(es: seq<Entry>) {
    forall j, k | 0 <= j < k < |es| :: es[j].id != es[k].id
  }

  // ----- the written form

  function RequiredPadding(id: seq<byte>): (n: nat)
    ensures n < 4 && (2 + |id| + n) % 4 == 0
  {
    var size := |id| + 2;
    if size % 4 == 0 then 0 else 4 - size % 4
  }

  function Zeros(n: nat): (s: seq<byte>)
    ensures |s| == n
  {
    if n == 0 then [] else Zeros(n - 1) + [0]
  }

  /** Least significant byte first, as a little-endian machine will load it. */
  function ColorBytes(c: Color): seq<byte> {
    [c.a, c.b, c.g, c.r]
  }

  /** What comes before the colour of an entry. */
  function Lead(e: Entry): seq<byte>
  {
    [|e.id|] + e.id + [RequiredPadding(e.id)] + Zeros(RequiredPadding(e.id))
  }

  function EntryBytes(e: Entry): seq<byte>
  {
    Lead(e) + ColorBytes(e.color)
  }

  function TableBytes(es: seq<Entry>): seq<byte>
  {
    if es == [] then [] else TableBytes(es[..|es| - 1]) + EntryBytes(es[|es| - 1])
  }

  /** An entry in figures: the length of the id, the id, the number of padding bytes,
      as many zeros, and the colour from alpha to red. */
  lemma {:induction false} EntryInFigures(e: Entry)
    ensures var n := if |e.id| % 4 == 0 then 2 else if |e.id| % 4 == 1 then 1 else if |e.id| % 4 == 2 then 0 else 3;
            EntryBytes(e) == [|e.id|] + e.id + [n] + [0, 0, 0][..n] + [e.color.a, e.color.b, e.color.g, e.color.r]
  {
    PaddingInFigures(|e.id|);
    ZerosInFigures();
  }

  lemma PaddingInFigures(n: nat)
    ensures (n + 2) % 4 == (if n % 4 == 0 then 2 else if n % 4 == 1 then 3 else if n % 4 == 2 then 0 else 1)
  {
  }

  lemma {:induction false} ZerosInFigures()
    ensures forall n: nat | n <= 3 :: Zeros(n) == [0, 0, 0][..n]
  {
    assert Zeros(0) == [] && Zeros(1) == [0] && Zeros(2) == [0, 0] && Zeros(3) == [0, 0, 0];
  }

  method WriteEntry(e: Entry, was: seq<byte>) returns (out: seq<byte>)
    ensures out == was + EntryBytes(e)
  {
    out := was + [|e.id|];
    for i := 0 to |e.id|
      invariant out == was + ([|e.id|] + e.id[..i])
    {
      out := out + [e.id[i]];
    }
    assert out == was + ([|e.id|] + e.id);
    out := out + [RequiredPadding(e.id)];
    for i := 0 to RequiredPadding(e.id)
      invariant out == was + ([|e.id|] + e.id + [RequiredPadding(e.id)] + Zeros(i))
    {
      out := out + [0];
    }
    var color := [e.color.r, e.color.g, e.color.b, e.color.a];
    var i := 3;
    while i >= 0
      invariant -1 <= i <= 3 && out == was + Lead(e) + ColorBytes(e.color)[..3 - i]
    {
      out := out + [color[i]];
      i := i - 1;
    }
  }

  method WriteContent(es: seq<Entry>) returns (out: seq<byte>)
    ensures out == TableBytes(es)
  {
    out := [];
    for k := 0 to |es|
      invariant out == TableBytes(es[..k])
    {
      assert es[..k + 1][..k] == es[..k];
      out := WriteEntry(es[k], out);
    }
    assert es[..|es|] == es;
  }

  // ----- the reader

  /** The word a little-endian machine loads from four bytes. */
  function Load(s: seq<byte>): nat
    requires |s| == 4
  {
    var b: seq<nat> := s;
    b[0] + b[1] * 0x100 + b[2] * 0x1_0000 + b[3] * 0x100_0000
  }

  /** The table read from `off` onwards; None when the reader runs out of bytes
      before it meets a zero length. */
  function Read(data: seq<byte>, off: nat, table: Table): Option<Table>
    decreases |data| - off
  {
    if off >= |data| then None else
    var len: nat := data[off];
    if len == 0 then Some(table) else
    var pad := off + 1 + len;
    if pad >= |data| then None else
    var color := pad + 1 + data[pad];
    if color + 4 > |data| then None else
    Read(data, color + 4, table[data[off + 1..pad] := Load(data[color..color + 4])])
  }

  method InitBlockList(data: seq<byte>) returns (result: Table)
    requires Read(data, 0, map[]).Some?
    ensures Some(result) == Read(data, 0, map[])
  {
    result := map[];
    var off: nat := 0;
    while true
      invariant Read(data, off, result) == Read(data, 0, map[])
      decreases |data| - off
    {
      var len: nat := data[off];
      off := off + 1;
      if len == 0 {
        break;
      }
      var name := data[off..off + len];
      off := off + len;
      off := off + 1 + data[off];
      var color := Load(data[off..off + 4]);
      result := result[name := color];
      off := off + 4;
    }
  }

  // ----- reading back what was written

  lemma LoadsWord(c: Color)
    ensures Load(ColorBytes(c)) == Word(c)
  {
  }

  lemma LastByte(x: nat, y: nat, a: byte, b: byte)
    requires x * 256 + a == y * 256 + b
    ensures x == y && a == b
  {
  }

  /** Equal words hold equal colours. */
  lemma WordInjective(c: Color, d: Color)
    requires Word(c) == Word(d)
    ensures c == d
  {
    LastByte(c.r * 65536 + c.g * 256 + c.b, d.r * 65536 + d.g * 256 + d.b, c.a, d.a);
    LastByte(c.r * 256 + c.g, d.r * 256 + d.g, c.b, d.b);
    LastByte(c.r, d.r, c.g, d.g);
  }

  lemma {:induction false} FrontEntry(es: seq<Entry>)
    requires es != []
    ensures TableBytes(es) == EntryBytes(es[0]) + TableBytes(es[1..])
  {
    var n := |es| - 1;
    if n > 0 {
      FrontEntry(es[..n]);
      assert es[..n][1..] == es[1..][..n - 1];
    }
  }

  lemma ByteAt(d: seq<byte>, off: nat, b: byte)
    requires At(d, off, [b])
    ensures d[off] == b
  {
    assert d[off] == d[off..off + 1][0];
  }

  lemma ReadParts(d: seq<byte>, off: nat, id: Id, pad: byte, color: seq<byte>, table: Table)
    requires At(d, off, [|id|]) && At(d, off + 1, id) && At(d, off + 1 + |id|, [pad])
    requires |color| == 4 && At(d, off + 2 + |id| + pad, color) && id != []
    ensures Read(d, off, table) == Read(d, off + 2 + |id| + pad + 4, table[id := Load(color)])
  {
    ByteAt(d, off, |id|);
    ByteAt(d, off + 1 + |id|, pad);
  }

  /** Reading one written entry. */
  lemma {:induction false} ReadEntry(d: seq<byte>, off: nat, e: Entry, table: Table)
    requires At(d, off, EntryBytes(e)) && e.id != []
    ensures Read(d, off, table) == Read(d, off + |EntryBytes(e)|, table[e.id := Word(e.color)])
  {
    EntryParts(d, off, e);
    EntryLength(e);
    LoadsWord(e.color);
    var pad, color := RequiredPadding(e.id), ColorBytes(e.color);
    ReadParts(d, off, e.id, pad, color, table);
    assert off + |EntryBytes(e)| == off + 2 + |e.id| + pad + 4;
  }

  lemma {:induction false} EntryLength(e: Entry)
    ensures |Lead(e)| == 2 + |e.id| + RequiredPadding(e.id) && |EntryBytes(e)| == |Lead(e)| + 4
  {
  }

  lemma {:induction false} EntryParts(d: seq<byte>, off: nat, e: Entry)
    requires At(d, off, EntryBytes(e))
    ensures var pad := RequiredPadding(e.id);
            && At(d, off, [|e.id|]) && At(d, off + 1, e.id) && At(d, off + 1 + |e.id|, [pad])
            && At(d, off + 2 + |e.id| + pad, ColorBytes(e.color))
  {
    var len, pad, zeros := [|e.id|], [RequiredPadding(e.id)], Zeros(RequiredPadding(e.id));
    AtConcat(d, off, Lead(e), ColorBytes(e.color));
    AtConcat(d, off, len + e.id + pad, zeros);
    AtConcat(d, off, len + e.id, pad);
    AtConcat(d, off, len, e.id);
  }

  lemma {:induction false} TwoThenZero(d: seq<byte>, off: nat, a: seq<byte>, b: seq<byte>)
    requires At(d, off, a + b + [0])
    ensures At(d, off, a) && At(d, off + |a|, b + [0])
  {
    AtConcat(d, off, a + b, [0]);
    AtConcat(d, off, a, b);
    AtConcat(d, off + |a|, b, [0]);
  }

  lemma {:induction false} EntryThenRest(d: seq<byte>, off: nat, es: seq<Entry>)
    requires es != [] && At(d, off, TableBytes(es) + [0])
    ensures At(d, off, EntryBytes(es[0])) && At(d, off + |EntryBytes(es[0])|, TableBytes(es[1..]) + [0])
  {
    FrontEntry(es);
    TwoThenZero(d, off, EntryBytes(es[0]), TableBytes(es[1..]));
  }

  function Stored(es: seq<Entry>, table: Table): Table
    decreases |es|
  {
    if es == [] then table else Stored(es[1..], table[es[0].id := Word(es[0].color)])
  }

  /** The entries before the first empty id. */
  function BeforeEmpty(es: seq<Entry>): seq<Entry> {
    if es == [] || es[0].id == [] then [] else [es[0]] + BeforeEmpty(es[1..])
  }

  lemma StoredStep(es: seq<Entry>, table: Table)
    requires es != [] && es[0].id != []
    ensures Stored(BeforeEmpty(es), table) == Stored(BeforeEmpty(es[1..]), table[es[0].id := Word(es[0].color)])
  {
    assert BeforeEmpty(es)[1..] == BeforeEmpty(es[1..]);
  }

  lemma {:induction false} ReadTable(d: seq<byte>, off: nat, es: seq<Entry>, table: Table)
    requires At(d, off, TableBytes(es) + [0])
    ensures Read(d, off, table) == Some(Stored(BeforeEmpty(es), table))
    decreases |es|
  {
    if es == [] {
      ByteAt(d, off, 0);
    } else {
      EntryThenRest(d, off, es);
      if es[0].id == [] {
        EntryParts(d, off, es[0]);
        ByteAt(d, off, 0);
      } else {
        ReadEntry(d, off, es[0], table);
        ReadTable(d, off + |EntryBytes(es[0])|, es[1..], table[es[0].id := Word(es[0].color)]);
        StoredStep(es, table);
      }
    }
  }

  /** The table maps the ids of the entries to their colours, red, green, blue and alpha
      from the highest byte down, and nothing else. */
  ghost predicate Holds(table: Table, es: seq<Entry>) {
    && (forall k | 0 <= k < |es| ::
          && es[k].id in table
          && var c := es[k].color; table[es[k].id] == c.r * 0x100_0000 + c.g * 0x1_0000 + c.b * 0x100 + c.a)
    && (forall id | id in table :: exists k | 0 <= k < |es| :: es[k].id == id)
  }

  lemma {:induction false} StoredOther(es: seq<Entry>, table: Table, id: seq<byte>)
    requires forall k | 0 <= k < |es| :: es[k].id != id
    ensures id in Stored(es, table) <==> id in table
    ensures id in table ==> Stored(es, table)[id] == table[id]
    decreases |es|
  {
    if es != [] {
      StoredOther(es[1..], table[es[0].id := Word(es[0].color)], id);
    }
  }

  lemma {:induction false} StoredAt(es: seq<Entry>, table: Table, k: nat)
    requires Accepted(es) && k < |es|
    ensures es[k].id in Stored(es, table) && Stored(es, table)[es[k].id] == Word(es[k].color)
    decreases |es|
  {
    var table' := table[es[0].id := Word(es[0].color)];
    if k == 0 {
      StoredOther(es[1..], table', es[0].id);
    } else {
      StoredAt(es[1..], table', k - 1);
    }
  }

  lemma StoredHolds(es: seq<Entry>)
    requires Accepted(es)
    ensures Holds(Stored(es, map[]), es)
  {
    forall k | 0 <= k < |es|
      ensures es[k].id in Stored(es, map[]) && Stored(es, map[])[es[k].id] == Word(es[k].color)
    {
      StoredAt(es, map[], k);
    }
    forall id | id in Stored(es, map[])
      ensures exists k | 0 <= k < |es| :: es[k].id == id
    {
      if forall k | 0 <= k < |es| :: es[k].id != id {
        StoredOther(es, map[], id);
      }
    }
  }

  lemma {:induction false} BeforeEmptyIsPrefix(es: seq<Entry>)
    ensures BeforeEmpty(es) <= es
    ensures forall k | 0 <= k < |BeforeEmpty(es)| :: es[k].id != []
    ensures |BeforeEmpty(es)| < |es| ==> es[|BeforeEmpty(es)|].id == []
    decreases |es|
  {
    if es != [] && es[0].id != [] {
      BeforeEmptyIsPrefix(es[1..]);
      var n := |BeforeEmpty(es)|;
      assert forall k | 1 <= k < n :: es[k] == es[1..][k - 1];
      assert BeforeEmpty(es) == [es[0]] + es[1..][..n - 1] == es[..n];
    }
  }

  /** For every accepted set of entries the renderer rebuilds exactly the map
      that was written, if and only if no id is empty.  An empty id writes a zero
      length, which reads as the end of the table. */
  lemma RoundTripIff(es: seq<Entry>, more: seq<byte>)
    requires Accepted(es)
    ensures var t := Read(TableBytes(es) + [0] + more, 0, map[]);
            t.Some? && (Holds(t.value, es) <==> forall k | 0 <= k < |es| :: es[k].id != [])
  {
    var p := BeforeEmpty(es);
    ReadTable(TableBytes(es) + [0] + more, 0, es, map[]);
    BeforeEmptyIsPrefix(es);
    if |p| < |es| {
      StoredOther(p, map[], es[|p|].id);
      assert es[|p|].id !in Stored(p, map[]);
    } else {
      assert p == es;
      StoredHolds(es);
    }
  }

  lemma EntryWhole(e: Entry)
    ensures |Lead(e)| % 4 == 0 && |EntryBytes(e)| % 4 == 0
  {
    EntryLength(e);
    Fours(|Lead(e)|, 4);
  }

  lemma Fours(x: nat, y: nat)
    requires x % 4 == 0 && y % 4 == 0
    ensures (x + y) % 4 == 0
  {
  }

  lemma {:induction false} TableWhole(es: seq<Entry>)
    ensures |TableBytes(es)| % 4 == 0
  {
    if es != [] {
      TableWhole(es[..|es| - 1]);
      EntryWhole(es[|es| - 1]);
      Fours(|TableBytes(es[..|es| - 1])|, |EntryBytes(es[|es| - 1])|);
    }
  }

  /** Where the colour of entry `k` starts. */
  function ColorStart(es: seq<Entry>, k: nat): nat
    requires k < |es|
  {
    |TableBytes(es[..k])| + |Lead(es[k])|
  }

  /** Every colour starts at a multiple of four. */
  lemma {:induction false} ColorsAligned(es: seq<Entry>, k: nat)
    requires k < |es|
    ensures ColorStart(es, k) % 4 == 0
    ensures At(TableBytes(es), ColorStart(es, k), ColorBytes(es[k].color))
  {
    TableWhole(es[..k]);
    LastColorAligned(TableBytes(es[..k]), es[k]);
    ColorAt(es, k, ColorStart(es, k));
  }

  lemma {:induction false} ColorAt(es: seq<Entry>, k: nat, at: nat)
    requires k < |es| && at == ColorStart(es, k)
    ensures At(TableBytes(es), at, ColorBytes(es[k].color))
  {
    var n := |es| - 1;
    var first := TableBytes(es[..n]);
    if k < n {
      assert es[..n][..k] == es[..k];
      ColorAt(es[..n], k, at);
      AtFront(first, EntryBytes(es[n]), at, ColorBytes(es[k].color));
    } else {
      LastColorAligned(first, es[k]);
    }
  }

  lemma {:induction false} LastColorAligned(first: seq<byte>, e: Entry)
    ensures |first| % 4 == 0 ==> (|first| + |Lead(e)|) % 4 == 0
    ensures At(first + EntryBytes(e), |first| + |Lead(e)|, ColorBytes(e.color))
  {
    EntryWhole(e);
    AtConcat(first + EntryBytes(e), 0, first, EntryBytes(e));
    AtConcat(first + EntryBytes(e), |first|, Lead(e), ColorBytes(e.color));
  }

  lemma AtFront(d: seq<byte>, more: seq<byte>, o: nat, s: seq<byte>)
    requires At(d, o, s)
    ensures At(d + more, o, s)
  {
    assert (d + more)[o..o + |s|] == d[o..o + |s|];
  }
}
