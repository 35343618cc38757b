/** The recursive-descent reader as it runs: the array, list and compound
    factories loop, advancing an iterator and pushing into a vector, and `Nbt`
    keeps the root.  Each is proved to compute the functions of TreeParser. */
module TreeReader {
  import opened Bytes
  import opened Tags
  import opened TreeParser
  import TreeParserProofs

  method MakeArrayPayload(mem: Memory, last: nat, kind: TagId, first: nat) returns (r: Parsed<Payload>)
    ensures r == ArrayAt(mem, last, kind, first)
  {
    var cell := CellKind(kind);
    var w := Width(cell);
    if last < first + 4 || (kind == TAG_INT_ARRAY && last == first + 4) {
      return Fail;
    }
    var len := ReadU(mem, first, 4);
    var itr := first + 4;
    if last < (if kind == TAG_INT_ARRAY then first else itr) + len * w {
      return Fail;
    }
    var values: seq<int>;
    values, itr := ReadCells(mem, cell, itr, len);
    return Ok(Array(kind, values), itr);
  }

  method ReadCells(mem: Memory, cell: TagId, first: nat, len: nat) returns (values: seq<int>, itr: nat)
    requires IsScalarKind(cell)
    ensures values == NumbersAt(mem, cell, first, len)
    ensures itr == first + len * Width(cell)
  {
    var w := Width(cell);
    values, itr := [], first;
    for i := 0 to len
      invariant itr == first + i * w
      invariant values + NumbersAt(mem, cell, itr, len - i) == NumbersAt(mem, cell, first, len)
    {
      var item := ReadNumber(cell, Slice(mem, itr, w));
      assert values + ([item] + NumbersAt(mem, cell, itr + w, len - i - 1))
          == values + [item] + NumbersAt(mem, cell, itr + w, len - i - 1);
      assert (i + 1) * w == i * w + w;
      values, itr := values + [item], itr + w;
    }
    assert values == values + [];
  }

  method MakeListPayload(mem: Memory, last: nat, first: nat) returns (r: Parsed<Payload>)
    ensures r == PayloadAt(mem, last, TAG_LIST, first)
    decreases Left(last, first), 1, 0
  {
    if last < first + 3 {
      return Fail;
    }
    var payloadType := mem(first);
    if TAG_LONG_ARRAY <= payloadType {
      return Fail;
    }
    var len := ReadU(mem, first + 1, 4);
    var itr := first + 5;
    var items: seq<Payload> := [];
    PrependNone(ItemsAt(mem, last, payloadType, itr, len));
    for i := 0 to len
      invariant itr >= first + 5
      invariant ItemsAt(mem, last, payloadType, first + 5, len)
             == Prepend(items, ItemsAt(mem, last, payloadType, itr, len - i))
    {
      var one := MakePayload(mem, last, payloadType, itr);
      if one.Fail? {
        return Fail;
      }
      PrependOne(items, one.value, ItemsAt(mem, last, payloadType, one.next, len - i - 1));
      items := items + [one.value];
      itr := one.next;
    }
    assert items == items + [];
    return Ok(List(payloadType, items), itr);
  }

  method MakeCompoundPayload(mem: Memory, last: nat, first: nat) returns (r: Parsed<Payload>)
    ensures r == PayloadAt(mem, last, TAG_COMPOUND, first)
    decreases Left(last, first), 1, 0
  {
    var itr := first;
    var tags: seq<Tag> := [];
    PrependNone(TagsAt(mem, last, itr));
    while true
      invariant itr >= first
      invariant TagsAt(mem, last, first) == Prepend(tags, TagsAt(mem, last, itr))
      decreases Left(last, itr)
    {
      if last < itr {
        return Fail;
      }
      var id := mem(itr);
      if TAG_LONG_ARRAY < id {
        return Fail;
      }
      if id == TAG_END {
        assert tags == tags + [];
        return Ok(Compound(tags), itr + 1);
      }
      var one := MakeTag(mem, last, id, itr);
      if one.Fail? {
        return Fail;
      }
      PrependOne(tags, one.value, TagsAt(mem, last, one.next));
      tags := tags + [one.value];
      itr := one.next;
    }
  }

  /** `payload_factories[kind](first, last)`. */
  method MakePayload(mem: Memory, last: nat, kind: TagId, first: nat) returns (r: Parsed<Payload>)
    requires kind <= TAG_LONG_ARRAY
    ensures r == PayloadAt(mem, last, kind, first)
    decreases Left(last, first), 2, 0
  {
    if kind == TAG_LIST {
      r := MakeListPayload(mem, last, first);
    } else if kind == TAG_COMPOUND {
      r := MakeCompoundPayload(mem, last, first);
    } else if IsArrayKind(kind) {
      r := MakeArrayPayload(mem, last, kind, first);
    } else if kind == TAG_STRING {
      r := StrAt(mem, last, first);
    } else if kind == TAG_END {
      r := Ok(Null, first);
    } else {
      r := ScalarAt(mem, last, kind, first);
    }
  }

  /** `tag_factories[kind](first, last)`. */
  method MakeTag(mem: Memory, last: nat, kind: TagId, first: nat) returns (r: Parsed<Tag>)
    requires kind <= TAG_LONG_ARRAY
    ensures r == TagAt(mem, last, kind, first)
    decreases Left(last, first), 0, 0
  {
    var hdr := TypeAndName(mem, last, first);
    if hdr.Fail? || hdr.value.0 != kind {
      return Fail;
    }
    var p := MakePayload(mem, last, kind, hdr.next);
    if p.Fail? {
      return Fail;
    }
    return Ok(Tag(hdr.value.1, p.value), p.next);
  }

  /** A vector already built, followed by what is still to be read. */
  function Prepend<T>(done: seq<T>, r: Parsed<seq<T>>): Parsed<seq<T>> {
    match r
    case Fail => Fail
    case Ok(rest, next) => Ok(done + rest, next)
  }

  lemma PrependNone<T>(r: Parsed<seq<T>>)
    ensures Prepend([], r) == r
  {
    if r.Ok? {
      assert [] + r.value == r.value;
    }
  }

  lemma PrependOne<T>(done: seq<T>, x: T, r: Parsed<seq<T>>)
    ensures Prepend(done, Prepend([x], r)) == Prepend(done + [x], r)
  {
    if r.Ok? {
      assert done + ([x] + r.value) == done + [x] + r.value;
    }
  }

  class Nbt {
    var root: Parsed<Tag>

    constructor ()
      ensures root.Fail?
    {
      root := Fail;
    }

    /** Accepts a root compound and keeps it, or leaves the object alone.  What
        is kept was encoded inside the buffer, and the verdict is a function
        of the buffer's bytes alone. */
    method ParseBuffer(mem: Memory, first: nat, last: nat) returns (ok: bool)
      modifies this
      ensures ok <==> RootAt(mem, first, last).Ok?
      ensures root == if ok then RootAt(mem, first, last) else old(root)
      ensures ok ==> Has(mem, first, EncodeTag(root.value)) && first + |EncodeTag(root.value)| <= last
      ensures forall other: Memory | (forall i | first <= i < last :: other(i) == mem(i)) ::
                RootAt(other, first, last) == RootAt(mem, first, last)
    {
      var r := MakeTag(mem, last, TAG_COMPOUND, first);
      forall other: Memory | (forall i | first <= i < last :: other(i) == mem(i))
        ensures RootAt(other, first, last) == RootAt(mem, first, last)
      {
        TreeParserProofs.RootReadsOnlyBuffer(other, mem, first, last);
      }
      if r.Fail? || last < r.next {
        return false;
      }
      root := r;
      TreeParserProofs.RootSound(mem, first, last);
      return true;
    }
  }
}
