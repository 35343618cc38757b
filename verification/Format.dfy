/** The tag format in figures: ids, widths, signs and positions of everything the
    two readers take from bytes, with the numbers written out. */
module Format {
  import opened Bytes
  import opened Tags
  import opened TreeParser
  import opened PullMachine

  // ----- numbers

  /** One, two, four and eight bytes, most significant first. */
  lemma {:induction false} BigEndian(s: seq<byte>)
    ensures |s| == 1 ==> Val(s) == s[0]
    ensures |s| == 2 ==> Val(s) == (s[0] as int) * 256 + s[1]
    ensures |s| == 4 ==> Val(s) == (s[0] as int) * 0x100_0000 + (s[1] as int) * 0x1_0000 + (s[2] as int) * 256 + s[3]
    ensures |s| == 8 ==> Val(s) == Val(s[..4]) * 0x1_0000_0000 + Val(s[4..])
  {
    if |s| == 1 {
      assert Val([]) == 0;
    } else if |s| == 2 {
      BigEndian(s[..1]);
    } else if |s| == 4 {
      BigEndian(s[..3][..2]);
      assert s[..3][..2] == s[..2];
    } else if |s| == 8 {
      HalfAt(s, 4);
    }
  }

  lemma {:induction false} HalfAt(s: seq<byte>, k: nat)
    requires 4 <= |s| <= 8 && k == |s| - 4
    ensures Val(s) == Val(s[..4]) * Pow256(k) + Val(s[4..])
  {
    if k > 0 {
      var front := s[..|s| - 1];
      HalfAt(front, k - 1);
      assert front[..4] == s[..4] && front[4..] == s[4..][..k - 1] && s[4..][k - 1] == s[|s| - 1];
      Shifted(Val(s[..4]), Pow256(k - 1));
    } else {
      assert s[..4] == s;
    }
    PowValues();
  }

  lemma Shifted(a: nat, p: nat)
    ensures 256 * (a * p) == a * (256 * p)
  {
  }

  /** Two's complement in 16 and 32 bits. */
  function Signed16(u: nat): int {
    if u < 0x8000 then u else u - 0x1_0000
  }

  function Signed32(u: nat): int {
    if u < 0x8000_0000 then u else u - 0x1_0000_0000
  }

  /** How many bytes a number of scalar kind 1 to 6 takes. */
  function Size(kind: TagId): nat
    requires 1 <= kind <= 6
  {
    [1, 2, 4, 8, 4, 8][kind - 1]
  }

  /** The number that bytes spell: kind 2 is signed in 16 bits, kind 3 in 32, and the
      others are held unsigned. */
  function Spelled(kind: TagId, u: nat): int {
    if kind == 2 then Signed16(u) else if kind == 3 then Signed32(u) else u
  }

  lemma {:induction false} WidthInFigures(kind: TagId)
    requires 1 <= kind <= 6
    ensures Width(kind) == Size(kind)
  {
  }

  lemma {:induction false} NumberInFigures(kind: TagId, s: seq<byte>)
    requires 1 <= kind <= 6 && |s| == Size(kind)
    ensures Width(kind) == Size(kind) && ReadNumber(kind, s) == Spelled(kind, Val(s))
  {
    PowValues();
    BEOfVal(s);
  }

  /** Kind of the cells of an array, by the id of the array: 7, 11 or 12. */
  function Cells(kind: TagId): TagId {
    if kind == 7 then 1 else if kind == 11 then 3 else 4
  }

  predicate IsArray(kind: TagId) {
    kind == 7 || kind == 11 || kind == 12
  }

  lemma {:induction false} CellsInFigures(kind: TagId)
    requires IsArray(kind)
    ensures IsArrayKind(kind) && CellKind(kind) == Cells(kind)
    ensures Width(CellKind(kind)) == if kind == 7 then 1 else if kind == 11 then 4 else 8
  {
  }

  // ----- the tree reader

  /** A number is read if the guard of its factory lets it: 0, 2, 4, 4, 4 or 8 bytes
      before the end. */
  lemma {:induction false} ScalarInFigures(mem: Memory, last: nat, kind: TagId, pos: nat)
    requires 1 <= kind <= 6
    ensures var r := PayloadAt(mem, last, kind, pos);
            && (r.Ok? <==> pos + [0, 2, 4, 4, 4, 8][kind - 1] <= last)
            && (r.Ok? ==> r.next == pos + Size(kind)
                          && r.value == Scalar(kind, Spelled(kind, Val(Slice(mem, pos, Size(kind))))))
  {
    NumberInFigures(kind, Slice(mem, pos, Size(kind)));
  }

  /** The count and the cells of an array: its cells take 1, 4 or 8 bytes each. */
  lemma {:induction false} ArrayInFigures(mem: Memory, last: nat, kind: TagId, pos: nat)
    requires IsArray(kind)
    ensures var n, w := Val(Slice(mem, pos, 4)), if kind == 7 then 1 else if kind == 11 then 4 else 8;
            var r := PayloadAt(mem, last, kind, pos);
            && (r.Ok? <==> if kind == 11 then pos + 4 < last && pos + 4 * n <= last else pos + 4 + w * n <= last)
            && (r.Ok? ==> r.next == pos + 4 + w * n && r.value.Array? && r.value.kind == kind && |r.value.values| == n)
            && (r.Ok? ==> forall i {:trigger r.value.values[i]} | 0 <= i < n ::
                  r.value.values[i] == Spelled(Cells(kind), Val(Slice(mem, pos + 4 + w * i, w))))
  {
    var n, w := Val(Slice(mem, pos, 4)), if kind == 7 then 1 else if kind == 11 then 4 else 8;
    CellsInFigures(kind);
    Commute(n, w);
    forall i | 0 <= i < n
      ensures NumbersAt(mem, Cells(kind), pos + 4, n)[i] == Spelled(Cells(kind), Val(Slice(mem, pos + 4 + w * i, w)))
    {
      CellInFigures(mem, Cells(kind), pos + 4, n, i, w * i);
      NumberInFigures(Cells(kind), Slice(mem, pos + 4 + w * i, w));
    }
  }

  lemma Commute(n: nat, w: nat)
    ensures n * w == w * n
  {
  }

  lemma {:induction false} CellInFigures(mem: Memory, cell: TagId, pos: nat, n: nat, i: nat, at: nat)
    requires 1 <= cell <= 6 && i < n && at == Width(cell) * i
    ensures NumbersAt(mem, cell, pos, n)[i] == ReadNumber(cell, Slice(mem, pos + at, Width(cell)))
    decreases i
  {
    if i > 0 {
      OneLess(Width(cell), i);
      CellInFigures(mem, cell, pos + Width(cell), n - 1, i - 1, at - Width(cell));
    }
  }

  lemma OneLess(w: nat, i: nat)
    requires i > 0
    ensures w * i == w * (i - 1) + w
  {
  }

  /** A string: two bytes of length and that many characters. */
  lemma {:induction false} StringInFigures(mem: Memory, last: nat, pos: nat)
    ensures var n, r := (mem(pos) as int) * 256 + mem(pos + 1), PayloadAt(mem, last, 8, pos);
            && (r.Ok? <==> pos + 2 + n <= last)
            && (r.Ok? ==> r.next == pos + 2 + n && r.value == Str(Slice(mem, pos + 2, n)))
  {
    BigEndian(Slice(mem, pos, 2));
  }

  /** A list: a type id below 12, four bytes of count, and elements of that type, one
      behind the other; a compound: named tags up to a zero byte.  Nothing is read for
      type 0. */
  lemma {:induction false} ContainersInFigures(mem: Memory, last: nat, pos: nat)
    ensures PayloadAt(mem, last, 0, pos) == Ok(Null, pos)
    ensures var r := PayloadAt(mem, last, 9, pos);
            && (r.Ok? ==> pos + 3 <= last && mem(pos) < 12 && r.value.List? && r.value.elem == mem(pos))
            && (r.Ok? ==> |r.value.items| == Val(Slice(mem, pos + 1, 4)))
            && (pos + 3 <= last && mem(pos) < 12 ==>
                  var items := ItemsAt(mem, last, mem(pos), pos + 5, Val(Slice(mem, pos + 1, 4)));
                  r == if items.Ok? then Ok(List(mem(pos), items.value), items.next) else Fail)
    ensures var r, tags := PayloadAt(mem, last, 10, pos), TagsAt(mem, last, pos);
            r == if tags.Ok? then Ok(Compound(tags.value), tags.next) else Fail
  {
  }

  /** A named tag: its id, two bytes of length, the name and the payload, and more than
      three bytes before the end; for type 0 the id alone. */
  lemma {:induction false} TagInFigures(mem: Memory, last: nat, kind: TagId, pos: nat)
    requires kind <= 12
    ensures kind == 0 ==>
              TagAt(mem, last, 0, pos) == if pos + 3 < last && mem(pos) == 0 then Ok(Tag([], Null), pos + 1) else Fail
    ensures kind > 0 ==>
            var n := (mem(pos + 1) as int) * 256 + mem(pos + 2);
            var p, r := PayloadAt(mem, last, kind, pos + 3 + n), TagAt(mem, last, kind, pos);
            r == if pos + 3 < last && mem(pos) == kind && pos + 3 + n <= last && p.Ok?
                 then Ok(Tag(Slice(mem, pos + 3, n), p.value), p.next) else Fail
  {
    BigEndian(Slice(mem, pos + 1, 2));
  }

  /** A root has type 10 and ends inside the buffer. */
  lemma {:induction false} RootInFigures(mem: Memory, first: nat, last: nat)
    ensures var r := TagAt(mem, last, 10, first);
            RootAt(mem, first, last) == if r.Ok? && r.next <= last then r else Fail
  {
  }

  // ----- the written form

  /** Sixteen and thirty-two bits, most significant byte first. */
  function Two(n: nat): seq<byte> {
    [n / 256 % 256, n % 256]
  }

  function Four(n: nat): seq<byte> {
    [n / 0x100_0000 % 256, n / 0x1_0000 % 256, n / 256 % 256, n % 256]
  }

  lemma {:induction false} CountsInFigures(n: nat)
    ensures BE(2, n) == Two(n) && BE(4, n) == Four(n)
  {
    assert BE(1, n / 256) == [n / 256 % 256];
    assert BE(1, n / 0x1_0000 / 256) == [n / 0x1_0000 / 256 % 256];
    assert BE(2, n / 0x1_0000) == [n / 0x1_0000 / 256 % 256, n / 0x1_0000 % 256];
    Quotients(n);
    assert BE(2, n / 256 / 256) == BE(2, n / 0x1_0000);
    assert BE(3, n / 256) == BE(2, n / 256 / 256) + [n / 256 % 256];
  }

  lemma Quotients(n: nat)
    ensures n / 256 / 256 == n / 0x1_0000 && n / 0x1_0000 / 256 == n / 0x100_0000
  {
  }

  /** The bytes of every well-formed payload. */
  lemma {:induction false} PayloadBytes(p: Payload)
    requires WF(p)
    ensures match p
            case Null => TypeOf(p) == 0 && Encode(p) == []
            case Scalar(kind, v) =>
              && 1 <= kind <= 6 && TypeOf(p) == kind
              && |Encode(p)| == Size(kind) && Spelled(kind, Val(Encode(p))) == v
            case Array(kind, vs) =>
              && IsArray(kind) && TypeOf(p) == kind
              && Encode(p) == Four(|vs|) + Numbers(Cells(kind), vs)
            case Str(cs) => TypeOf(p) == 8 && Encode(p) == Two(|cs|) + cs
            case List(elem, items) => TypeOf(p) == 9 && Encode(p) == [elem] + Four(|items|) + EncodeItems(items)
            case Compound(tags) => TypeOf(p) == 10 && Encode(p) == EncodeTags(tags) + [0]
  {
    match p
    case Scalar(kind, v) =>
      WidthInFigures(kind);
      assert Encode(p) == Number(kind, v);
      NumberInFigures(kind, Encode(p));
      ReadOfNumber(kind, v);
    case Array(kind, vs) =>
      CellsInFigures(kind);
      CountsInFigures(|vs|);
    case Str(cs) => CountsInFigures(|cs|);
    case List(_, items) => CountsInFigures(|items|);
    case _ =>
  }

  /** A named tag, elements and cells lie one behind the other. */
  lemma {:induction false} SequenceBytes(t: Tag, tags: seq<Tag>, x: Payload, items: seq<Payload>)
    requires WFTag(t)
    ensures EncodeTag(t) == [TypeOf(t.payload)] + Two(|t.name|) + t.name + Encode(t.payload)
    ensures EncodeTags([]) == [] && EncodeTags([t] + tags) == EncodeTag(t) + EncodeTags(tags)
    ensures EncodeItems([]) == [] && EncodeItems([x] + items) == Encode(x) + EncodeItems(items)
  {
    CountsInFigures(|t.name|);
    assert ([t] + tags)[1..] == tags && ([x] + items)[1..] == items;
  }

  lemma {:induction false} CellBytes(kind: TagId, v: int, vs: seq<int>)
    requires 1 <= kind <= 6 && InRange(kind, v)
    ensures Numbers(kind, []) == [] && Numbers(kind, [v] + vs) == Number(kind, v) + Numbers(kind, vs)
    ensures |Number(kind, v)| == Size(kind) && Spelled(kind, Val(Number(kind, v))) == v
  {
    assert ([v] + vs)[1..] == vs;
    NumberInFigures(kind, Number(kind, v));
    ReadOfNumber(kind, v);
  }

  // ----- the event reader

  /** A number is one datum of 1, 2, 4, 8, 4 or 8 bytes. */
  lemma {:induction false} DatumInFigures(d: seq<byte>, s: State)
    requires s.stacks.types.Push? && 1 <= s.stacks.types.top <= 6
    ensures var kind, o := s.stacks.types.top, s.offset;
            var r := Switch(d, s);
            && (r.Went? <==> o + Size(kind) <= |d|)
            && (r.Went? ==> r.s == s.(offset := o + Size(kind), tagEnded := true, current := TagData,
                                      datum := Num(Spelled(kind, Val(d[o..o + Size(kind)])))))
  {
    var kind, o := s.stacks.types.top, s.offset;
    if o + Size(kind) <= |d| { NumberInFigures(kind, d[o..o + Size(kind)]); }
  }

  /** A cell of an array of type 7, 11 or 12 is a datum of 1, 4 or 8 bytes and counts
      one. */
  lemma {:induction false} CellDatumInFigures(d: seq<byte>, s: State)
    requires s.stacks.types.Push? && IsArray(s.stacks.types.top)
    requires s.stacks.indices.Push? && s.stacks.lengths.Push? && s.stacks.indices.top < s.stacks.lengths.top
    ensures var kind, o, st := s.stacks.types.top, s.offset, s.stacks;
            var w := if kind == 7 then 1 else if kind == 11 then 4 else 8;
            var r := Switch(d, s);
            && (r.Went? <==> o + w <= |d|)
            && (r.Went? ==> r.s == s.(offset := o + w, current := TagData,
                                      datum := Num(Spelled(Cells(kind), Val(d[o..o + w]))),
                                      stacks := st.(indices := Push(st.indices.top + 1, st.indices.below))))
  {
    var kind, o := s.stacks.types.top, s.offset;
    CellsInFigures(kind);
    var w := Size(Cells(kind));
    if o + w <= |d| { NumberInFigures(Cells(kind), d[o..o + w]); }
  }

  /** A string is one datum: two bytes of signed length and the characters. */
  lemma {:induction false} TextInFigures(d: seq<byte>, s: State)
    requires s.stacks.types.Push? && s.stacks.types.top == 8
    ensures var o, r := s.offset, Switch(d, s);
            if o + 2 > |d| then r.Threw? && r.cause == BufferExhausted
            else
              var n := Signed16((d[o] as int) * 256 + d[o + 1]);
              if n < 0 then r.Threw? && r.cause == NegativeLength
              else if o + 2 + n > |d| then r.Threw? && r.cause == BufferExhausted
              else r == Went(s.(offset := o + 2 + n, tagEnded := true, current := TagData,
                                datum := Text(d[o + 2..o + 2 + n])))
  {
    var o := s.offset;
    if o + 2 <= |d| {
      LengthInFigures(d[o..o + 2]);
    }
  }

  lemma {:induction false} LengthInFigures(s: seq<byte>)
    requires |s| == 2
    ensures ReadNumber(TAG_SHORT, s) == Signed16((s[0] as int) * 256 + s[1])
  {
    NumberInFigures(2, s);
    BigEndian(s);
  }

  /** What follows a START: four bytes of signed count for the arrays, a type and four
      bytes for a list, nothing for the other types. */
  lemma {:induction false} HeaderInFigures(d: seq<byte>, s: State, kind: TagId)
    ensures var o, st, r := s.offset, s.stacks, KindHeader(d, s, kind);
            if IsArray(kind) then
              && (r.Went? <==> o + 4 <= |d|)
              && (r.Went? ==> r.s == s.(offset := o + 4, stacks := st.(
                    indices := Push(0, st.indices), lengths := Push(Signed32(Val(d[o..o + 4])), st.lengths))))
            else if kind == 9 then
              && (r.Went? <==> o + 5 <= |d|)
              && (r.Went? ==> r.s == s.(offset := o + 5, stacks := st.(
                    indices := Push(0, st.indices), lengths := Push(Signed32(Val(d[o + 1..o + 5])), st.lengths),
                    payloadTypes := Push(d[o], st.payloadTypes))))
            else r == Went(s)
  {
    var o := s.offset;
    if o + 4 <= |d| { NumberInFigures(3, d[o..o + 4]); }
    if o + 5 <= |d| { NumberInFigures(3, d[o + 1..o + 5]); }
  }

  /** A named header: the id 0 closes a tag; another id is followed by two bytes of
      signed length and the name, with at least one byte after it. */
  lemma {:induction false} NameInFigures(d: seq<byte>, s: State)
    requires s.offset < |d|
    ensures var o, st, r := s.offset, s.stacks, TagHeaderStep(d, s);
            if d[o] == 0 then
              if st.types.Empty? || st.names.Empty? then r.Threw? && r.cause == TooManyClosing
              else r == Went(s.(offset := o + 1, tagEnded := true, endEmitted := true, current := TagEnd,
                                lastName := st.names.top, lastType := st.types.top,
                                stacks := st.(names := st.names.below, types := st.types.below)))
            else if o + 3 > |d| then r.Threw? && r.cause == BufferExhausted
            else
              var n := Signed16((d[o + 1] as int) * 256 + d[o + 2]);
              if n < 0 then r.Threw? && r.cause == NegativeLength
              else if o + 3 + n >= |d| then r.Threw? && r.cause == BufferExhausted
              else
                var named := s.(offset := o + 3 + n, stacks := st.(
                               types := Push(d[o], st.types), names := Push(d[o + 3..o + 3 + n], st.names)));
                var h := KindHeader(d, named, d[o]);
                if h.Threw? then r == Threw(h.s, h.cause)
                else r == Went(h.s.(tagEnded := false, current := TagStart))
  {
    var o := s.offset;
    if o + 3 <= |d| { LengthInFigures(d[o + 1..o + 3]); }
  }

  /** The other types of the switch: 9 is a list, 10 a compound, and ids it does not
      know report DATA. */
  lemma {:induction false} SwitchInFigures(d: seq<byte>, s: State)
    requires s.stacks.types.Push?
    ensures s.stacks.types.top == 9 ==> Switch(d, s) == ListStep(d, s)
    ensures s.stacks.types.top == 10 ==> Switch(d, s) == TagHeaderStep(d, s)
    ensures s.stacks.types.top == 0 || s.stacks.types.top > 12 ==> Switch(d, s) == Went(s.(current := TagData))
  {
  }
}
