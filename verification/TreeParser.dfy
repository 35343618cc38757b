/** The recursive-descent reader: what each factory accepts, as functions over
    memory.  The bounds tests are the source's own, loose where they are loose,
    so some of these reads lie past `last`. */
module TreeParser {
  import opened Bytes
  import opened Tags

  datatype Parsed<T> = Ok(value: T, next: nat) | Fail

  /** Bytes that must precede `last` for a number factory to go ahead.  Byte
      asks for none and Long for half of what it reads. */
  function ScalarGuard(kind: TagId): nat {
    if kind == TAG_BYTE then 0
    else if kind == TAG_SHORT then 2
    else if kind == TAG_DOUBLE then 8
    else 4
  }

  function ReadU(mem: Memory, pos: nat, n: nat): nat {
    Val(Slice(mem, pos, n))
  }

  /** The six number factories. */
  function ScalarAt(mem: Memory, last: nat, kind: TagId, pos: nat): Parsed<Payload> {
    if last < pos + ScalarGuard(kind) then Fail
    else Ok(Scalar(kind, ReadNumber(kind, Slice(mem, pos, Width(kind)))), pos + Width(kind))
  }

  /** `parse_type_and_name`: the type id and name, and where they end. */
  function TypeAndName(mem: Memory, last: nat, pos: nat): Parsed<(TagId, seq<byte>)> {
    if last <= pos + 3 then Fail
    else if 13 < mem(pos) then Fail
    else if mem(pos) == TAG_END then Ok((TAG_END, []), pos + 1)
    else
      var n := ReadU(mem, pos + 1, 2);
      if last < pos + 3 + n then Fail
      else Ok((mem(pos), Slice(mem, pos + 3, n)), pos + 3 + n)
  }

  function NumbersAt(mem: Memory, kind: TagId, pos: nat, n: nat): (vs: seq<int>)
    ensures |vs| == n
    decreases n
  {
    if n == 0 then []
    else [ReadNumber(kind, Slice(mem, pos, Width(kind)))] + NumbersAt(mem, kind, pos + Width(kind), n - 1)
  }

  /** The three array factories; Int_Array asks for one byte after its count
      and measures its cells from the count, not from after it. */
  function ArrayAt(mem: Memory, last: nat, kind: TagId, pos: nat): (r: Parsed<Payload>)
    ensures r.Ok? ==> r.next >= pos + 4
  {
    var w := Width(CellKind(kind));
    if last < pos + 4 || (kind == TAG_INT_ARRAY && last == pos + 4) then Fail
    else
      var n := ReadU(mem, pos, 4);
      if last < pos + (if kind == TAG_INT_ARRAY then 0 else 4) + n * w then Fail
      else Ok(Array(kind, NumbersAt(mem, CellKind(kind), pos + 4, n)), pos + 4 + n * w)
  }

  function StrAt(mem: Memory, last: nat, pos: nat): Parsed<Payload> {
    if last < pos + 2 then Fail
    else
      var n := ReadU(mem, pos, 2);
      if last < pos + 2 + n then Fail
      else Ok(Str(Slice(mem, pos + 2, n)), pos + 2 + n)
  }

  /** Bytes from `pos` to the end of the buffer: the recursion's measure. */
  function Left(last: nat, pos: nat): nat {
    if pos <= last then last - pos + 1 else 0
  }

  /** `payload_factories[kind]`. */
  function PayloadAt(mem: Memory, last: nat, kind: TagId, pos: nat): (r: Parsed<Payload>)
    requires kind <= TAG_LONG_ARRAY
    ensures r.Ok? ==> r.next >= pos
    ensures r.Ok? && kind != TAG_END ==> r.next > pos
    decreases Left(last, pos), 2, 0
  {
    if kind == TAG_END then Ok(Null, pos)
    else if IsScalarKind(kind) then ScalarAt(mem, last, kind, pos)
    else if IsArrayKind(kind) then ArrayAt(mem, last, kind, pos)
    else if kind == TAG_STRING then StrAt(mem, last, pos)
    else if kind == TAG_LIST then
      if last < pos + 3 || TAG_LONG_ARRAY <= mem(pos) then Fail
      else
        match ItemsAt(mem, last, mem(pos), pos + 5, ReadU(mem, pos + 1, 4))
        case Fail => Fail
        case Ok(items, next) => Ok(List(mem(pos), items), next)
    else
      match TagsAt(mem, last, pos)
      case Fail => Fail
      case Ok(tags, next) => Ok(Compound(tags), next)
  }

  function ItemsAt(mem: Memory, last: nat, kind: TagId, pos: nat, n: nat): (r: Parsed<seq<Payload>>)
    requires kind <= TAG_LONG_ARRAY
    ensures r.Ok? ==> r.next >= pos && |r.value| == n
    decreases Left(last, pos), 3, n
  {
    if n == 0 then Ok([], pos)
    else
      match PayloadAt(mem, last, kind, pos)
      case Fail => Fail
      case Ok(item, next) =>
        match ItemsAt(mem, last, kind, next, n - 1)
        case Fail => Fail
        case Ok(items, end) => Ok([item] + items, end)
  }

  /** `basic_tag<kind>::parse_buffer`. */
  function TagAt(mem: Memory, last: nat, kind: TagId, pos: nat): (r: Parsed<Tag>)
    requires kind <= TAG_LONG_ARRAY
    ensures r.Ok? ==> r.next > pos
    decreases Left(last, pos), 0, 0
  {
    match TypeAndName(mem, last, pos)
    case Fail => Fail
    case Ok((id, name), next) =>
      if id != kind then Fail
      else
        match PayloadAt(mem, last, kind, next)
        case Fail => Fail
        case Ok(p, end) => Ok(Tag(name, p), end)
  }

  function TagsAt(mem: Memory, last: nat, pos: nat): (r: Parsed<seq<Tag>>)
    ensures r.Ok? ==> r.next > pos
    decreases Left(last, pos), 1, 0
  {
    if last < pos || TAG_LONG_ARRAY < mem(pos) then Fail
    else if mem(pos) == TAG_END then Ok([], pos + 1)
    else
      match TagAt(mem, last, mem(pos), pos)
      case Fail => Fail
      case Ok(t, next) =>
        match TagsAt(mem, last, next)
        case Fail => Fail
        case Ok(ts, end) => Ok([t] + ts, end)
  }

  /** `nbt::parse_buffer`: a root compound that does not end past `last`. */
  function RootAt(mem: Memory, first: nat, last: nat): Parsed<Tag> {
    match TagAt(mem, last, TAG_COMPOUND, first)
    case Fail => Fail
    case Ok(t, next) => if last < next then Fail else Ok(t, next)
  }
}
