/** The tag tree, its encoding and its flattening into parser events. */
module Tags {
  import opened Bytes

  type TagId = byte

  const TAG_END: TagId := 0
  const TAG_BYTE: TagId := 1
  const TAG_SHORT: TagId := 2
  const TAG_INT: TagId := 3
  const TAG_LONG: TagId := 4
  const TAG_FLOAT: TagId := 5
  const TAG_DOUBLE: TagId := 6
  const TAG_BYTE_ARRAY: TagId := 7
  const TAG_STRING: TagId := 8
  const TAG_LIST: TagId := 9
  const TAG_COMPOUND: TagId := 10
  const TAG_INT_ARRAY: TagId := 11
  const TAG_LONG_ARRAY: TagId := 12

  /** Scalar stands for the six number payloads and Array for the three array
      payloads; `kind` is the tag id.  Floats and doubles are held as the
      unsigned number their bytes spell. */
  datatype Payload =
    | Null
    | Scalar(kind: TagId, value: int)
    | Array(kind: TagId, values: seq<int>)
    | Str(chars: seq<byte>)
    | List(elem: TagId, items: seq<Payload>)
    | Compound(tags: seq<Tag>)

  datatype Tag = Tag(name: seq<byte>, payload: Payload)

  function TypeOf(p: Payload): TagId {
    match p
    case Null => TAG_END
    case Scalar(kind, _) => kind
    case Array(kind, _) => kind
    case Str(_) => TAG_STRING
    case List(_, _) => TAG_LIST
    case Compound(_) => TAG_COMPOUND
  }

  predicate IsScalarKind(kind: TagId) {
    TAG_BYTE <= kind <= TAG_DOUBLE
  }

  predicate IsArrayKind(kind: TagId) {
    kind == TAG_BYTE_ARRAY || kind == TAG_INT_ARRAY || kind == TAG_LONG_ARRAY
  }

  /** The scalar kind of an array's cells. */
  function CellKind(kind: TagId): (k: TagId)
    ensures IsScalarKind(k)
  {
    if kind == TAG_BYTE_ARRAY then TAG_BYTE
    else if kind == TAG_INT_ARRAY then TAG_INT
    else TAG_LONG
  }

  /** Bytes taken by a number of the given kind. */
  function Width(kind: TagId): (w: nat)
    ensures IsScalarKind(kind) ==> w == 1 || w == 2 || w == 4 || w == 8
  {
    if kind == TAG_BYTE then 1
    else if kind == TAG_SHORT then 2
    else if kind == TAG_INT || kind == TAG_FLOAT then 4
    else if kind == TAG_LONG || kind == TAG_DOUBLE then 8
    else 0
  }

  predicate IsSigned(kind: TagId) {
    kind == TAG_SHORT || kind == TAG_INT
  }

  predicate InRange(kind: TagId, v: int) {
    var m := Pow256(Width(kind));
    if IsSigned(kind) then 0 <= 2 * v + m < 2 * m else 0 <= v < m
  }

  ghost predicate AllInRange(kind: TagId, vs: seq<int>) {
    vs == [] || (InRange(kind, vs[0]) && AllInRange(kind, vs[1..]))
  }

  /** Two's complement and back. */
  function Raw(kind: TagId, v: int): nat {
    if v >= 0 then v else if v + Pow256(Width(kind)) >= 0 then v + Pow256(Width(kind)) else 0
  }

  function Unraw(kind: TagId, u: nat): int {
    var m := Pow256(Width(kind));
    if IsSigned(kind) && 2 * u >= m then u - m else u
  }

  lemma RawUnraw(kind: TagId, v: int)
    requires IsScalarKind(kind) && InRange(kind, v)
    ensures Raw(kind, v) < Pow256(Width(kind))
    ensures Unraw(kind, Raw(kind, v)) == v
  {
    PowValues();
  }

  lemma UnrawRaw(kind: TagId, u: nat)
    requires IsScalarKind(kind) && u < Pow256(Width(kind))
    ensures InRange(kind, Unraw(kind, u))
    ensures Raw(kind, Unraw(kind, u)) == u
  {
    PowValues();
  }

  function Number(kind: TagId, v: int): (s: seq<byte>)
    ensures |s| == Width(kind)
  {
    BE(Width(kind), Raw(kind, v))
  }

  /** The number that `s` spells for a reader of the given kind. */
  function ReadNumber(kind: TagId, s: seq<byte>): int {
    Unraw(kind, Val(s))
  }

  lemma ReadOfNumber(kind: TagId, v: int)
    requires IsScalarKind(kind) && InRange(kind, v)
    ensures ReadNumber(kind, Number(kind, v)) == v
  {
    RawUnraw(kind, v);
    ValOfBE(Width(kind), Raw(kind, v));
  }

  lemma NumberOfRead(kind: TagId, s: seq<byte>)
    requires IsScalarKind(kind) && |s| == Width(kind)
    ensures InRange(kind, ReadNumber(kind, s))
    ensures Number(kind, ReadNumber(kind, s)) == s
  {
    BEOfVal(s);
    UnrawRaw(kind, Val(s));
  }

  /** Trees whose lengths and numbers the encoding can hold. */
  ghost predicate WF(p: Payload)
    decreases p, 1
  {
    match p
    case Null => true
    case Scalar(kind, v) => IsScalarKind(kind) && InRange(kind, v)
    case Array(kind, vs) =>
      IsArrayKind(kind) && |vs| < 0x1_0000_0000 && AllInRange(CellKind(kind), vs)
    case Str(cs) => |cs| < 0x1_0000
    case List(elem, items) =>
      elem <= TAG_LONG_ARRAY && |items| < 0x1_0000_0000 && WFItems(elem, items)
    case Compound(tags) => WFTags(tags)
  }

  ghost predicate WFItems(elem: TagId, items: seq<Payload>)
    decreases items, 0
  {
    items == [] || (TypeOf(items[0]) == elem && WF(items[0]) && WFItems(elem, items[1..]))
  }

  ghost predicate WFTag(t: Tag)
    decreases t, 0
  {
    |t.name| < 0x1_0000 && t.payload != Null && WF(t.payload)
  }

  ghost predicate WFTags(tags: seq<Tag>)
    decreases tags, 0
  {
    tags == [] || (WFTag(tags[0]) && WFTags(tags[1..]))
  }

  // ----- encoding

  function Header(p: Payload): seq<byte> {
    match p
    case Array(_, vs) => BE(4, |vs|)
    case List(elem, items) => [elem] + BE(4, |items|)
    case _ => []
  }

  function Numbers(kind: TagId, vs: seq<int>): seq<byte> {
    if vs == [] then [] else Number(kind, vs[0]) + Numbers(kind, vs[1..])
  }

  lemma {:induction false} NumbersLength(kind: TagId, vs: seq<int>)
    ensures |Numbers(kind, vs)| == |vs| * Width(kind)
  {
    if vs != [] {
      NumbersLength(kind, vs[1..]);
      assert |vs| * Width(kind) == (|vs| - 1) * Width(kind) + Width(kind);
    }
  }

  function Body(p: Payload): seq<byte>
    decreases p, 1
  {
    match p
    case Null => []
    case Scalar(kind, v) => Number(kind, v)
    case Array(kind, vs) => Numbers(CellKind(kind), vs)
    case Str(cs) => BE(2, |cs|) + cs
    case List(_, items) => EncodeItems(items)
    case Compound(tags) => EncodeTags(tags) + [TAG_END]
  }

  function Encode(p: Payload): seq<byte>
    decreases p, 2
  {
    Header(p) + Body(p)
  }

  function EncodeItems(items: seq<Payload>): seq<byte>
    decreases items, 0
  {
    if items == [] then [] else Encode(items[0]) + EncodeItems(items[1..])
  }

  function EncodeTag(t: Tag): seq<byte>
    decreases t, 0
  {
    TagHeader(t) + Encode(t.payload)
  }

  function TagHeader(t: Tag): seq<byte> {
    [TypeOf(t.payload)] + BE(2, |t.name|) + t.name
  }

  function EncodeTags(tags: seq<Tag>): seq<byte>
    decreases tags, 0
  {
    if tags == [] then [] else EncodeTag(tags[0]) + EncodeTags(tags[1..])
  }

  /** Every payload but Null takes at least one byte. */
  lemma PayloadNonEmpty(p: Payload)
    requires WF(p) && p != Null
    ensures |Encode(p)| > 0
    ensures 0 < TypeOf(p) <= TAG_LONG_ARRAY
  {
    PowValues();
  }

  lemma ItemsNonEmpty(elem: TagId, items: seq<Payload>)
    requires items != [] && elem != TAG_END && WFItems(elem, items)
    ensures items[0] != Null && |EncodeItems(items)| > 0
  {
    PayloadNonEmpty(items[0]);
  }

  /** A compound's body, split after its first child. */
  lemma TagsUnfold(tags: seq<Tag>)
    requires tags != []
    ensures EncodeTags(tags) + [TAG_END] == EncodeTag(tags[0]) + (EncodeTags(tags[1..]) + [TAG_END])
  {
  }

  // ----- flattening

  datatype Datum = Num(value: int) | Text(chars: seq<byte>)

  datatype Event =
    | Start(kind: TagId, name: seq<byte>)
    | Data(kind: TagId, name: seq<byte>, datum: Datum)
    | End(kind: TagId, name: seq<byte>)
    | DocumentEnd

  function DataEvents(kind: TagId, name: seq<byte>, vs: seq<int>): (es: seq<Event>)
    ensures |es| == |vs|
  {
    if vs == [] then [] else [Data(kind, name, Num(vs[0]))] + DataEvents(kind, name, vs[1..])
  }

  /** What lies between a tag's START and its END. */
  function Inner(name: seq<byte>, p: Payload): seq<Event>
    decreases p, 1
  {
    match p
    case Null => []
    case Scalar(kind, v) => [Data(kind, name, Num(v))]
    case Array(kind, vs) => DataEvents(kind, name, vs)
    case Str(cs) => [Data(TAG_STRING, name, Text(cs))]
    case List(_, items) => ItemEvents(items)
    case Compound(tags) => TagsEvents(tags)
  }

  /** START, contents, END; a Null payload is not a tag and has no events. */
  function Events(name: seq<byte>, p: Payload): seq<Event>
    decreases p, 2
  {
    if p.Null? then []
    else [Start(TypeOf(p), name)] + (Inner(name, p) + [End(TypeOf(p), name)])
  }

  function ItemEvents(items: seq<Payload>): seq<Event>
    decreases items, 0
  {
    if items == [] then [] else Events([], items[0]) + ItemEvents(items[1..])
  }

  function TagEvents(t: Tag): seq<Event> {
    Events(t.name, t.payload)
  }

  function TagsEvents(tags: seq<Tag>): seq<Event>
    decreases tags, 0
  {
    if tags == [] then [] else Events(tags[0].name, tags[0].payload) + TagsEvents(tags[1..])
  }

  lemma ItemEventsThen(items: seq<Payload>, es: seq<Event>)
    requires items != []
    ensures ItemEvents(items) + es == Events([], items[0]) + (ItemEvents(items[1..]) + es)
  {
  }

  lemma EventsThen(name: seq<byte>, p: Payload, es: seq<Event>)
    requires p != Null
    ensures Events(name, p) + es == [Start(TypeOf(p), name)] + (Inner(name, p) + ([End(TypeOf(p), name)] + es))
  {
  }
}
