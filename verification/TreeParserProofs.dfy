/** The recursive-descent reader accepts exactly the encodings of the trees it
    can hold, and its verdict depends only on the bytes of the buffer. */
module TreeParserProofs {
  import opened Bytes
  import opened Tags
  import opened TreeParser

  /** Trees the reader can build: no list has Long_Array elements. */
  ghost predicate Readable(p: Payload)
    decreases p, 1
  {
    match p
    case List(elem, items) => elem < TAG_LONG_ARRAY && ReadableItems(items)
    case Compound(tags) => ReadableTags(tags)
    case _ => true
  }

  ghost predicate ReadableItems(items: seq<Payload>)
    decreases items, 0
  {
    items == [] || (Readable(items[0]) && ReadableItems(items[1..]))
  }

  ghost predicate ReadableTags(tags: seq<Tag>)
    decreases tags, 0
  {
    tags == [] || (Readable(tags[0].payload) && ReadableTags(tags[1..]))
  }

  // ----- leaf facts

  lemma BEHeld(mem: Memory, pos: nat, n: nat, v: nat)
    requires v < Pow256(n) && Has(mem, pos, BE(n, v))
    ensures ReadU(mem, pos, n) == v
  {
    ValOfBE(n, v);
  }

  lemma HeldBE(mem: Memory, pos: nat, n: nat)
    ensures ReadU(mem, pos, n) < Pow256(n)
    ensures Has(mem, pos, BE(n, ReadU(mem, pos, n)))
  {
    BEOfVal(Slice(mem, pos, n));
  }

  lemma {:induction false} NumbersHeld(mem: Memory, kind: TagId, pos: nat, n: nat)
    requires IsScalarKind(kind)
    ensures var vs := NumbersAt(mem, kind, pos, n);
            Has(mem, pos, Numbers(kind, vs)) && AllInRange(kind, vs)
    decreases n
  {
    if n > 0 {
      var w := Width(kind);
      NumberOfRead(kind, Slice(mem, pos, w));
      NumbersHeld(mem, kind, pos + w, n - 1);
      var vs := NumbersAt(mem, kind, pos, n);
      assert vs[1..] == NumbersAt(mem, kind, pos + w, n - 1);
      HasConcat(mem, pos, Number(kind, vs[0]), Numbers(kind, vs[1..]));
    }
  }

  lemma {:induction false} HeldNumbers(mem: Memory, kind: TagId, pos: nat, vs: seq<int>)
    requires IsScalarKind(kind) && AllInRange(kind, vs)
    requires Has(mem, pos, Numbers(kind, vs))
    ensures NumbersAt(mem, kind, pos, |vs|) == vs
    decreases |vs|
  {
    if vs != [] {
      HasConcat(mem, pos, Number(kind, vs[0]), Numbers(kind, vs[1..]));
      ReadOfNumber(kind, vs[0]);
      HeldNumbers(mem, kind, pos + Width(kind), vs[1..]);
    }
  }

  lemma NameHeld(mem: Memory, last: nat, pos: nat)
    requires var r := TypeAndName(mem, last, pos); r.Ok? && r.value.0 != TAG_END
    ensures var r := TypeAndName(mem, last, pos);
            var (id, name) := r.value;
            && |name| < 0x1_0000
            && Has(mem, pos, [id] + BE(2, |name|) + name)
            && r.next == pos + 3 + |name|
  {
    PowValues();
    HeldBE(mem, pos + 1, 2);
    var n := ReadU(mem, pos + 1, 2);
    var name := Slice(mem, pos + 3, n);
    HasConcat(mem, pos, [mem(pos)], BE(2, n));
    HasConcat(mem, pos, [mem(pos)] + BE(2, n), name);
  }

  lemma HeldName(mem: Memory, last: nat, pos: nat, t: Tag)
    requires WFTag(t) && Has(mem, pos, TagHeader(t)) && TypeOf(t.payload) != TAG_END
    requires pos + 3 + |t.name| <= last && pos + 3 < last && TypeOf(t.payload) <= 13
    ensures TypeAndName(mem, last, pos) == Ok((TypeOf(t.payload), t.name), pos + 3 + |t.name|)
  {
    PowValues();
    var id := TypeOf(t.payload);
    HasConcat(mem, pos, [id] + BE(2, |t.name|), t.name);
    HasConcat(mem, pos, [id], BE(2, |t.name|));
    assert mem(pos) == Slice(mem, pos, 1)[0] == id;
    BEHeld(mem, pos + 1, 2, |t.name|);
  }

  lemma ListHeaderHeld(mem: Memory, pos: nat)
    ensures Has(mem, pos, [mem(pos)] + BE(4, ReadU(mem, pos + 1, 4)))
    ensures ReadU(mem, pos + 1, 4) < 0x1_0000_0000
  {
    PowValues();
    HeldBE(mem, pos + 1, 4);
    HasConcat(mem, pos, [mem(pos)], BE(4, ReadU(mem, pos + 1, 4)));
  }

  lemma ItemsHeld(mem: Memory, pos: nat, item: Payload, rest: seq<Payload>)
    requires Has(mem, pos, Encode(item)) && Has(mem, pos + |Encode(item)|, EncodeItems(rest))
    ensures Has(mem, pos, EncodeItems([item] + rest))
    ensures |EncodeItems([item] + rest)| == |Encode(item)| + |EncodeItems(rest)|
  {
    assert ([item] + rest)[1..] == rest;
    HasConcat(mem, pos, Encode(item), EncodeItems(rest));
  }

  lemma TagsHeld(mem: Memory, pos: nat, t: Tag, rest: seq<Tag>)
    requires Has(mem, pos, EncodeTag(t)) && Has(mem, pos + |EncodeTag(t)|, EncodeTags(rest) + [TAG_END])
    ensures Has(mem, pos, EncodeTags([t] + rest) + [TAG_END])
    ensures |EncodeTags([t] + rest)| == |EncodeTag(t)| + |EncodeTags(rest)|
  {
    assert ([t] + rest)[1..] == rest;
    TagsUnfold([t] + rest);
    HasConcat(mem, pos, EncodeTag(t), EncodeTags(rest) + [TAG_END]);
  }

  // ----- soundness: what is accepted is what the encoder writes

  lemma LeafSound(mem: Memory, last: nat, kind: TagId, pos: nat)
    requires kind <= TAG_LONG_ARRAY && kind != TAG_LIST && kind != TAG_COMPOUND
    requires PayloadAt(mem, last, kind, pos).Ok?
    ensures var r := PayloadAt(mem, last, kind, pos);
            && WF(r.value) && TypeOf(r.value) == kind
            && !r.value.List? && !r.value.Compound?
            && Has(mem, pos, Encode(r.value))
            && r.next == pos + |Encode(r.value)|
  {
    PowValues();
    var p := PayloadAt(mem, last, kind, pos).value;
    if IsScalarKind(kind) {
      NumberOfRead(kind, Slice(mem, pos, Width(kind)));
      assert Encode(p) == Number(kind, p.value);
    } else if IsArrayKind(kind) {
      HeldBE(mem, pos, 4);
      NumbersHeld(mem, CellKind(kind), pos + 4, ReadU(mem, pos, 4));
      NumbersLength(CellKind(kind), p.values);
      HasConcat(mem, pos, Header(p), Body(p));
    } else if kind == TAG_STRING {
      HeldBE(mem, pos, 2);
      HasConcat(mem, pos, BE(2, |p.chars|), p.chars);
      assert Encode(p) == BE(2, |p.chars|) + p.chars;
    }
  }

  /** An accepted payload re-encodes to exactly the bytes consumed, however far
      past `last` they may lie. */
  lemma {:induction false} PayloadSound(mem: Memory, last: nat, kind: TagId, pos: nat)
    requires kind <= TAG_LONG_ARRAY
    requires PayloadAt(mem, last, kind, pos).Ok?
    ensures var r := PayloadAt(mem, last, kind, pos);
            && WF(r.value) && Readable(r.value) && TypeOf(r.value) == kind
            && Has(mem, pos, Encode(r.value))
            && r.next == pos + |Encode(r.value)|
    decreases Left(last, pos), 2, 0
  {
    if kind == TAG_LIST {
      ListHeaderHeld(mem, pos);
      ItemsSound(mem, last, mem(pos), pos + 5, ReadU(mem, pos + 1, 4));
      var p := PayloadAt(mem, last, kind, pos).value;
      HasConcat(mem, pos, Header(p), Body(p));
    } else if kind == TAG_COMPOUND {
      TagsSound(mem, last, pos);
      var p := PayloadAt(mem, last, kind, pos).value;
      assert Encode(p) == EncodeTags(p.tags) + [TAG_END];
    } else {
      LeafSound(mem, last, kind, pos);
    }
  }

  lemma {:induction false} ItemsSound(mem: Memory, last: nat, kind: TagId, pos: nat, n: nat)
    requires kind < TAG_LONG_ARRAY
    requires ItemsAt(mem, last, kind, pos, n).Ok?
    ensures var r := ItemsAt(mem, last, kind, pos, n);
            && WFItems(kind, r.value) && ReadableItems(r.value)
            && Has(mem, pos, EncodeItems(r.value))
            && r.next == pos + |EncodeItems(r.value)|
    decreases Left(last, pos), 3, n
  {
    if n > 0 {
      PayloadSound(mem, last, kind, pos);
      var Ok(item, next) := PayloadAt(mem, last, kind, pos);
      ItemsSound(mem, last, kind, next, n - 1);
      var rest := ItemsAt(mem, last, kind, next, n - 1).value;
      ItemsHeld(mem, pos, item, rest);
    }
  }

  lemma {:induction false} TagSound(mem: Memory, last: nat, kind: TagId, pos: nat)
    requires TAG_END < kind <= TAG_LONG_ARRAY
    requires TagAt(mem, last, kind, pos).Ok?
    ensures var r := TagAt(mem, last, kind, pos);
            && WFTag(r.value) && Readable(r.value.payload) && TypeOf(r.value.payload) == kind
            && Has(mem, pos, EncodeTag(r.value))
            && r.next == pos + |EncodeTag(r.value)|
    decreases Left(last, pos), 0, 0
  {
    NameHeld(mem, last, pos);
    var next := TypeAndName(mem, last, pos).next;
    PayloadSound(mem, last, kind, next);
    var t := TagAt(mem, last, kind, pos).value;
    TagHeld(mem, pos, t, next);
  }

  lemma TagHeld(mem: Memory, pos: nat, t: Tag, next: nat)
    requires |t.name| < 0x1_0000 && next == pos + 3 + |t.name|
    requires Has(mem, pos, [TypeOf(t.payload)] + BE(2, |t.name|) + t.name) && Has(mem, next, Encode(t.payload))
    ensures Has(mem, pos, EncodeTag(t)) && pos + |EncodeTag(t)| == next + |Encode(t.payload)|
  {
    HasConcat(mem, pos, TagHeader(t), Encode(t.payload));
  }

  lemma {:induction false} TagsSound(mem: Memory, last: nat, pos: nat)
    requires TagsAt(mem, last, pos).Ok?
    ensures var r := TagsAt(mem, last, pos);
            && WFTags(r.value) && ReadableTags(r.value)
            && Has(mem, pos, EncodeTags(r.value) + [TAG_END])
            && r.next == pos + |EncodeTags(r.value)| + 1
    decreases Left(last, pos), 1, 0
  {
    if mem(pos) == TAG_END {
      assert EncodeTags([]) + [TAG_END] == [TAG_END];
    } else {
      TagSound(mem, last, mem(pos), pos);
      var Ok(t, next) := TagAt(mem, last, mem(pos), pos);
      TagsSound(mem, last, next);
      var rest := TagsAt(mem, last, next).value;
      TagsHeld(mem, pos, t, rest);
    }
  }

  // ----- completeness: what the encoder writes is accepted

  /** Room for the loose guards: one byte must follow everything but a
      compound, whose own closing byte does. */
  ghost predicate Fits(p: Payload, pos: nat, last: nat) {
    pos + |Encode(p)| + (if p.Compound? then 0 else 1) <= last
  }

  /** An array in memory is accepted exactly when it fits before `last`, except
      that an Int_Array also needs a byte to spare after its count and is not asked
      for the last four bytes of its cells. */
  lemma ArrayExact(mem: Memory, last: nat, pos: nat, p: Payload)
    requires WF(p) && p.Array? && Has(mem, pos, Encode(p))
    ensures ArrayAt(mem, last, p.kind, pos) == Ok(p, pos + |Encode(p)|)
       <==> if p.kind == TAG_INT_ARRAY then pos + 4 < last && pos + 4 * |p.values| <= last
            else pos + |Encode(p)| <= last
    ensures |Encode(p)| == 4 + Width(CellKind(p.kind)) * |p.values|
  {
    HasConcat(mem, pos, Header(p), Body(p));
    assert |p.values| < Pow256(4) by { PowValues(); }
    BEHeld(mem, pos, 4, |p.values|);
    HeldNumbers(mem, CellKind(p.kind), pos + 4, p.values);
    NumbersLength(CellKind(p.kind), p.values);
  }

  lemma StrComplete(mem: Memory, last: nat, pos: nat, cs: seq<byte>)
    requires |cs| < 0x1_0000 && Has(mem, pos, Encode(Str(cs))) && Fits(Str(cs), pos, last)
    ensures StrAt(mem, last, pos) == Ok(Str(cs), pos + |Encode(Str(cs))|)
  {
    assert |cs| < Pow256(2) by { PowValues(); }
    assert Encode(Str(cs)) == BE(2, |cs|) + cs;
    HasConcat(mem, pos, BE(2, |cs|), cs);
    BEHeld(mem, pos, 2, |cs|);
  }

  lemma ScalarComplete(mem: Memory, last: nat, pos: nat, kind: TagId, v: int)
    requires IsScalarKind(kind) && InRange(kind, v)
    requires Has(mem, pos, Number(kind, v)) && pos + Width(kind) <= last
    ensures ScalarAt(mem, last, kind, pos) == Ok(Scalar(kind, v), pos + Width(kind))
  {
    ReadOfNumber(kind, v);
  }

  lemma HeldListHeader(mem: Memory, pos: nat, elem: TagId, n: nat)
    requires n < 0x1_0000_0000 && Has(mem, pos, [elem] + BE(4, n))
    ensures mem(pos) == elem && ReadU(mem, pos + 1, 4) == n
  {
    PowValues();
    HasConcat(mem, pos, [elem], BE(4, n));
    assert mem(pos) == Slice(mem, pos, 1)[0] == elem;
    BEHeld(mem, pos + 1, 4, n);
  }

  lemma {:induction false} ListParts(mem: Memory, pos: nat, elem: TagId, items: seq<Payload>)
    requires var p := List(elem, items); WF(p) && Has(mem, pos, Encode(p))
    ensures mem(pos) == elem && ReadU(mem, pos + 1, 4) == |items| && Has(mem, pos + 5, EncodeItems(items))
    ensures |Encode(List(elem, items))| == 5 + |EncodeItems(items)|
  {
    var p := List(elem, items);
    HasConcat(mem, pos, Header(p), Body(p));
    HeldListHeader(mem, pos, elem, |items|);
  }

  lemma {:induction false} ListComplete(mem: Memory, last: nat, pos: nat, elem: TagId, items: seq<Payload>)
    requires elem < TAG_LONG_ARRAY && pos + 3 <= last
    requires mem(pos) == elem && ReadU(mem, pos + 1, 4) == |items|
    requires ItemsAt(mem, last, elem, pos + 5, |items|) == Ok(items, pos + 5 + |EncodeItems(items)|)
    ensures PayloadAt(mem, last, TAG_LIST, pos) == Ok(List(elem, items), pos + 5 + |EncodeItems(items)|)
  {
  }

  lemma {:induction false} PayloadComplete(mem: Memory, last: nat, pos: nat, p: Payload)
    requires WF(p) && Readable(p) && Has(mem, pos, Encode(p)) && Fits(p, pos, last)
    ensures PayloadAt(mem, last, TypeOf(p), pos) == Ok(p, pos + |Encode(p)|)
    decreases p, 1
  {
    match p
    case List(elem, items) =>
      ListParts(mem, pos, elem, items);
      ItemsComplete(mem, last, elem, pos + 5, items);
      ListComplete(mem, last, pos, elem, items);
    case Compound(tags) =>
      assert Encode(p) == EncodeTags(tags) + [TAG_END];
      TagsComplete(mem, last, pos, tags);
      CompoundComplete(mem, last, pos, tags);
    case _ =>
      LeafComplete(mem, last, pos, p);
  }

  lemma {:induction false} CompoundComplete(mem: Memory, last: nat, pos: nat, tags: seq<Tag>)
    requires TagsAt(mem, last, pos) == Ok(tags, pos + |EncodeTags(tags)| + 1)
    ensures PayloadAt(mem, last, TAG_COMPOUND, pos) == Ok(Compound(tags), pos + |EncodeTags(tags)| + 1)
  {
  }

  lemma {:induction false} LeafComplete(mem: Memory, last: nat, pos: nat, p: Payload)
    requires !p.List? && !p.Compound? && WF(p) && Has(mem, pos, Encode(p)) && Fits(p, pos, last)
    ensures PayloadAt(mem, last, TypeOf(p), pos) == Ok(p, pos + |Encode(p)|)
  {
    match p
    case Null =>
    case Scalar(_, _) => ScalarLeaf(mem, last, pos, p);
    case Array(_, _) => ArrayLeaf(mem, last, pos, p);
    case Str(_) => StrLeaf(mem, last, pos, p);
  }

  lemma {:induction false} ScalarLeaf(mem: Memory, last: nat, pos: nat, p: Payload)
    requires p.Scalar? && WF(p) && Has(mem, pos, Encode(p)) && Fits(p, pos, last)
    ensures PayloadAt(mem, last, TypeOf(p), pos) == Ok(p, pos + |Encode(p)|)
  {
    assert Encode(p) == Number(p.kind, p.value);
    ScalarComplete(mem, last, pos, p.kind, p.value);
  }

  lemma {:induction false} ArrayLeaf(mem: Memory, last: nat, pos: nat, p: Payload)
    requires p.Array? && WF(p) && Has(mem, pos, Encode(p)) && Fits(p, pos, last)
    ensures PayloadAt(mem, last, TypeOf(p), pos) == Ok(p, pos + |Encode(p)|)
  {
    ArrayExact(mem, last, pos, p);
  }

  lemma {:induction false} StrLeaf(mem: Memory, last: nat, pos: nat, p: Payload)
    requires p.Str? && WF(p) && Has(mem, pos, Encode(p)) && Fits(p, pos, last)
    ensures PayloadAt(mem, last, TypeOf(p), pos) == Ok(p, pos + |Encode(p)|)
  {
    StrComplete(mem, last, pos, p.chars);
  }

  lemma {:induction false} ItemsComplete(mem: Memory, last: nat, kind: TagId, pos: nat, items: seq<Payload>)
    requires kind <= TAG_LONG_ARRAY
    requires WFItems(kind, items) && ReadableItems(items)
    requires Has(mem, pos, EncodeItems(items)) && pos + |EncodeItems(items)| < last
    ensures ItemsAt(mem, last, kind, pos, |items|) == Ok(items, pos + |EncodeItems(items)|)
    decreases items, 0
  {
    if items != [] {
      var item, rest := items[0], items[1..];
      HeldItems(mem, pos, items);
      PayloadComplete(mem, last, pos, item);
      ItemsComplete(mem, last, kind, pos + |Encode(item)|, rest);
      assert items == [item] + rest;
    }
  }

  lemma {:induction false} TagComplete(mem: Memory, last: nat, pos: nat, t: Tag)
    requires WFTag(t) && Readable(t.payload) && Has(mem, pos, EncodeTag(t))
    requires Fits(t.payload, pos + |TagHeader(t)|, last)
    ensures 0 < TypeOf(t.payload) <= TAG_LONG_ARRAY
    ensures TagAt(mem, last, TypeOf(t.payload), pos) == Ok(t, pos + |EncodeTag(t)|)
    decreases t, 0
  {
    HasConcat(mem, pos, TagHeader(t), Encode(t.payload));
    PayloadNonEmpty(t.payload);
    HeldName(mem, last, pos, t);
    PayloadComplete(mem, last, pos + |TagHeader(t)|, t.payload);
  }

  lemma HeldItems(mem: Memory, pos: nat, items: seq<Payload>)
    requires items != [] && Has(mem, pos, EncodeItems(items))
    ensures var x, rest := items[0], items[1..];
            && Has(mem, pos, Encode(x)) && Has(mem, pos + |Encode(x)|, EncodeItems(rest))
            && |EncodeItems(items)| == |Encode(x)| + |EncodeItems(rest)|
  {
    HasConcat(mem, pos, Encode(items[0]), EncodeItems(items[1..]));
  }

  lemma HeldTags(mem: Memory, pos: nat, tags: seq<Tag>)
    requires tags != [] && Has(mem, pos, EncodeTags(tags) + [TAG_END])
    ensures var t, rest := tags[0], tags[1..];
            && Has(mem, pos, EncodeTag(t)) && mem(pos) == TypeOf(t.payload)
            && Has(mem, pos + |EncodeTag(t)|, EncodeTags(rest) + [TAG_END])
            && |EncodeTags(tags)| == |EncodeTag(t)| + |EncodeTags(rest)|
  {
    TagsUnfold(tags);
    HasConcat(mem, pos, EncodeTag(tags[0]), EncodeTags(tags[1..]) + [TAG_END]);
    assert mem(pos) == Slice(mem, pos, |EncodeTag(tags[0])|)[0];
  }

  lemma {:induction false} TagsComplete(mem: Memory, last: nat, pos: nat, tags: seq<Tag>)
    requires WFTags(tags) && ReadableTags(tags)
    requires Has(mem, pos, EncodeTags(tags) + [TAG_END]) && pos + |EncodeTags(tags)| + 1 <= last
    ensures TagsAt(mem, last, pos) == Ok(tags, pos + |EncodeTags(tags)| + 1)
    decreases tags, 0
  {
    if tags == [] {
      assert mem(pos) == Slice(mem, pos, 1)[0] == TAG_END;
    } else {
      var t, rest := tags[0], tags[1..];
      HeldTags(mem, pos, tags);
      TagComplete(mem, last, pos, t);
      TagsComplete(mem, last, pos + |EncodeTag(t)|, rest);
      assert tags == [t] + rest;
    }
  }

  // ----- main results

  /** Soundness of acceptance: an accepted root re-encodes to exactly the
      consumed bytes, all of them inside the buffer. */
  lemma RootSound(mem: Memory, first: nat, last: nat)
    requires RootAt(mem, first, last).Ok?
    ensures var r := RootAt(mem, first, last);
            && WFTag(r.value) && r.value.payload.Compound? && Readable(r.value.payload)
            && Has(mem, first, EncodeTag(r.value))
            && r.next == first + |EncodeTag(r.value)| <= last
  {
    TagSound(mem, last, TAG_COMPOUND, first);
    var t := TagAt(mem, last, TAG_COMPOUND, first).value;
    assert TypeOf(t.payload) == TAG_COMPOUND;
  }

  /** Round trip, in full: of all root compounds, written anywhere in a buffer
      and followed by anything, exactly those without lists of Long_Array are
      read back, and reading stops at the end of the encoding. */
  lemma RootRoundTrip(mem: Memory, first: nat, last: nat, t: Tag)
    requires WFTag(t) && t.payload.Compound?
    requires Has(mem, first, EncodeTag(t)) && first + |EncodeTag(t)| <= last
    ensures RootAt(mem, first, last) == Ok(t, first + |EncodeTag(t)|) <==> Readable(t.payload)
  {
    if Readable(t.payload) {
      TagComplete(mem, last, first, t);
    }
    if RootAt(mem, first, last) == Ok(t, first + |EncodeTag(t)|) {
      RootSound(mem, first, last);
    }
  }

  /** Two memories that agree on the buffer get the same verdict, although the
      factories may read past its end on the way. */
  lemma RootReadsOnlyBuffer(m1: Memory, m2: Memory, first: nat, last: nat)
    requires forall i | first <= i < last :: m1(i) == m2(i)
    ensures RootAt(m1, first, last) == RootAt(m2, first, last)
  {
    if RootAt(m1, first, last).Ok? {
      AcceptedElsewhere(m1, m2, first, last);
    } else if RootAt(m2, first, last).Ok? {
      AcceptedElsewhere(m2, m1, first, last);
    }
  }

  lemma AcceptedElsewhere(m1: Memory, m2: Memory, first: nat, last: nat)
    requires forall i | first <= i < last :: m1(i) == m2(i)
    requires RootAt(m1, first, last).Ok?
    ensures RootAt(m1, first, last) == RootAt(m2, first, last)
  {
    RootSound(m1, first, last);
    var t := RootAt(m1, first, last).value;
    assert Slice(m1, first, |EncodeTag(t)|) == Slice(m2, first, |EncodeTag(t)|);
    RootRoundTrip(m2, first, last, t);
  }

  /** Encodings are prefix-free on readable roots: two roots that lie at the
      same place in one memory are the same root. */
  lemma EncodingUnique(mem: Memory, first: nat, s: Tag, t: Tag)
    requires WFTag(s) && s.payload.Compound? && Readable(s.payload) && Has(mem, first, EncodeTag(s))
    requires WFTag(t) && t.payload.Compound? && Readable(t.payload) && Has(mem, first, EncodeTag(t))
    ensures s == t
  {
    var last := first + |EncodeTag(s)| + |EncodeTag(t)|;
    RootRoundTrip(mem, first, last, s);
    RootRoundTrip(mem, first, last, t);
  }

  /** The memories that hold the same buffer. */
  ghost predicate SameBuffer(m1: Memory, m2: Memory, first: nat, last: nat) {
    forall i | first <= i < last :: m1(i) == m2(i)
  }

  lemma HeldByte(mem: Memory, pos: nat, s: seq<byte>, k: nat)
    requires Has(mem, pos, s) && k < |s|
    ensures mem(pos + k) == s[k]
  {
    assert Slice(mem, pos, |s|)[k] == mem(pos + k);
  }

  lemma EndsWithEnd(t: Tag)
    requires t.payload.Compound?
    ensures |EncodeTag(t)| > 0 && EncodeTag(t)[|EncodeTag(t)| - 1] == TAG_END
  {
    var body := Body(t.payload);
    assert body[|body| - 1] == TAG_END;
    assert EncodeTag(t) == (TagHeader(t) + Header(t.payload)) + body;
  }

  lemma LastByteIsEnd(mem: Memory, last: nat, first: nat)
    requires TagAt(mem, last, TAG_COMPOUND, first).Ok?
    ensures mem(TagAt(mem, last, TAG_COMPOUND, first).next - 1) == TAG_END
  {
    TagSound(mem, last, TAG_COMPOUND, first);
    var t := TagAt(mem, last, TAG_COMPOUND, first).value;
    EndsWithEnd(t);
    HeldByte(mem, first, EncodeTag(t), |EncodeTag(t)| - 1);
  }

  /** When the tag-level reader, used without the root reader's last test, goes by
      the buffer alone: what it accepts is accepted alike for every continuation
      of the buffer if and only if it ends inside the buffer. */
  lemma TagReadsOnlyBufferIff(mem: Memory, first: nat, last: nat)
    requires TagAt(mem, last, TAG_COMPOUND, first).Ok?
    ensures (forall m2: Memory | SameBuffer(mem, m2, first, last) ::
               TagAt(m2, last, TAG_COMPOUND, first) == TagAt(mem, last, TAG_COMPOUND, first))
       <==> TagAt(mem, last, TAG_COMPOUND, first).next <= last
  {
    var r := TagAt(mem, last, TAG_COMPOUND, first);
    if r.next <= last {
      forall m2: Memory | SameBuffer(mem, m2, first, last)
        ensures TagAt(m2, last, TAG_COMPOUND, first) == r
      {
        RootReadsOnlyBuffer(mem, m2, first, last);
      }
    } else {
      var m2: Memory := (i: nat) => if i == r.next - 1 then 13 else mem(i);
      assert SameBuffer(mem, m2, first, last);
      if TagAt(m2, last, TAG_COMPOUND, first) == r {
        LastByteIsEnd(m2, last, first);
      }
    }
  }

  /** The same for a buffer rather than one reading of it: the bytes after a buffer
      make no difference if and only if none of them gets it accepted past its
      end. */
  lemma BufferDecidesIff(mem: Memory, first: nat, last: nat)
    ensures (forall m1: Memory, m2: Memory | SameBuffer(mem, m1, first, last) && SameBuffer(mem, m2, first, last) ::
               TagAt(m1, last, TAG_COMPOUND, first) == TagAt(m2, last, TAG_COMPOUND, first))
       <==> (forall m: Memory | SameBuffer(mem, m, first, last) ::
               TagAt(m, last, TAG_COMPOUND, first).Ok? ==> TagAt(m, last, TAG_COMPOUND, first).next <= last)
  {
    forall m: Memory | SameBuffer(mem, m, first, last) && TagAt(m, last, TAG_COMPOUND, first).Ok?
      ensures (forall m2: Memory | SameBuffer(mem, m2, first, last) ::
                 TagAt(m2, last, TAG_COMPOUND, first) == TagAt(m, last, TAG_COMPOUND, first))
         <==> TagAt(m, last, TAG_COMPOUND, first).next <= last
    {
      assert forall m2: Memory :: SameBuffer(mem, m2, first, last) <==> SameBuffer(m, m2, first, last);
      TagReadsOnlyBufferIff(m, first, last);
    }
  }

  /** A root compound whose single Byte child reaches the end of the buffer. */
  const TRUNCATED: seq<byte> := [10, 0, 0, 1, 0, 0, 7]

  /** Without the final test the claim above is false: on this buffer the tag
      reader itself succeeds or fails with the byte that follows the buffer. */
  lemma TagReadsPastEnd(m1: Memory, m2: Memory)
    requires Has(m1, 0, TRUNCATED) && m1(7) == 0
    requires Has(m2, 0, TRUNCATED) && m2(7) == 13
    ensures TagAt(m1, 7, TAG_COMPOUND, 0).Ok? && TagAt(m1, 7, TAG_COMPOUND, 0).next == 8
    ensures TagAt(m2, 7, TAG_COMPOUND, 0).Fail?
    ensures RootAt(m1, 0, 7).Fail? && RootAt(m2, 0, 7).Fail?
  {
    TruncatedUpToChild(m1);
    TruncatedUpToChild(m2);
  }

  lemma TruncatedUpToChild(mem: Memory)
    requires Has(mem, 0, TRUNCATED)
    ensures TagAt(mem, 7, TAG_COMPOUND, 0) ==
            match TagsAt(mem, 7, 7)
            case Fail => Fail
            case Ok(ts, end) => Ok(Tag([], Compound([Tag([], Scalar(1, 7))] + ts)), end)
  {
    forall i | 0 <= i < 7 ensures mem(i) == TRUNCATED[i] {
      assert Slice(mem, 0, 7)[i] == TRUNCATED[i];
    }
    EmptyNameAt(mem, 7, 0);
    EmptyNameAt(mem, 7, 3);
    ByteAt(mem, 7, 6);
    assert TagAt(mem, 7, TAG_BYTE, 3) == Ok(Tag([], Scalar(1, 7)), 7);
  }

  lemma EmptyNameAt(mem: Memory, last: nat, pos: nat)
    requires pos + 3 < last && 0 < mem(pos) <= 13 && mem(pos + 1) == 0 && mem(pos + 2) == 0
    ensures TypeAndName(mem, last, pos) == Ok((mem(pos), []), pos + 3)
  {
    var s := Slice(mem, pos + 1, 2);
    assert s[..1] == [0] && s[..1][..0] == [];
    assert Val(s[..1]) == 256 * Val(s[..1][..0]);
  }

  lemma ByteAt(mem: Memory, last: nat, pos: nat)
    requires pos <= last
    ensures PayloadAt(mem, last, TAG_BYTE, pos) == Ok(Scalar(TAG_BYTE, mem(pos)), pos + 1)
  {
    var s := Slice(mem, pos, 1);
    assert s[..0] == [];
    assert Val(s) == mem(pos);
  }
}
