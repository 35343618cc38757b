/** `nbt_pull_parser`: the object whose fields each call of `next()` updates. */
module PullReader {
  import opened Bytes
  import opened Tags
  import opened PullMachine
  import opened Wrappers
  import PullInvariant

  class NbtPullParser {
    const data: seq<byte>
    var offset: nat
    var currentEvent: ParserEvent
    var tagEnded: bool
    var endEmitted: bool
    var indices: Stack<int>
    var lengths: Stack<int>
    var types: Stack<TagId>
    var payloadTypes: Stack<TagId>
    var names: Stack<seq<byte>>
    var lastTagName: seq<byte>
    var lastTagType: TagId
    var tagData: Datum

    /** The object as a state of the machine. */
    ghost function View(): State
      reads this
    {
      State(offset, tagEnded, endEmitted, Stacks(indices, lengths, types, payloadTypes, names),
            lastTagName, lastTagType, tagData, currentEvent)
    }

    /** The invariant of every object that has not thrown. */
    ghost predicate Valid()
      reads this
    {
      PullInvariant.Aligned(data, View())
    }

    constructor (data: seq<byte>)
      ensures this.data == data && View() == INITIAL && Valid()
    {
      this.data := data;
      offset, tagEnded, endEmitted, currentEvent := 0, true, true, DocStart;
      indices, lengths, types, payloadTypes, names := Empty, Empty, Empty, Empty, Empty;
      lastTagName, lastTagType, tagData := [], 0, Num(0);
    }

    method HandleTagEnd() returns (thrown: Option<Cause>)
      modifies this
      ensures Outcome(thrown) == PullMachine.HandleTagEnd(old(View()))
    {
      if names.Empty? || types.Empty? {
        return Some(Undefined);
      }
      lastTagName := names.top;
      names := names.below;
      lastTagType := types.top;
      types := types.below;
      endEmitted := true;
      currentEvent := TagEnd;
      return None;
    }

    method ParseArrayHeader() returns (thrown: Option<Cause>)
      modifies this
      ensures Outcome(thrown) == ArrayHeader(data, old(View()))
    {
      if offset + 4 > |data| {
        return Some(BufferExhausted);
      }
      lengths := Push(ReadNumber(TAG_INT, data[offset..offset + 4]), lengths);
      offset := offset + 4;
      indices := Push(0, indices);
      return None;
    }

    method ParseListHeader() returns (thrown: Option<Cause>)
      modifies this
      ensures Outcome(thrown) == ListHeader(data, old(View()))
    {
      if offset + 1 > |data| {
        return Some(BufferExhausted);
      }
      payloadTypes := Push(data[offset], payloadTypes);
      offset := offset + 1;
      thrown := ParseArrayHeader();
    }

    method ParseKindHeader(kind: TagId) returns (thrown: Option<Cause>)
      modifies this
      ensures Outcome(thrown) == KindHeader(data, old(View()), kind)
    {
      if IsArrayKind(kind) {
        thrown := ParseArrayHeader();
      } else if kind == TAG_LIST {
        thrown := ParseListHeader();
      } else {
        thrown := None;
      }
    }

    method ParseTagHeader() returns (thrown: Option<Cause>)
      modifies this
      ensures Outcome(thrown) == TagHeaderStep(data, old(View()))
    {
      if offset + 1 > |data| {
        return Some(BufferExhausted);
      }
      var kind := data[offset];
      offset := offset + 1;
      if kind == TAG_END {
        if types.Empty? || names.Empty? {
          return Some(TooManyClosing);
        }
        tagEnded := true;
        thrown := HandleTagEnd();
        return;
      }
      types := Push(kind, types);
      thrown := ParseName(kind);
    }

    method ParseName(kind: TagId) returns (thrown: Option<Cause>)
      modifies this
      ensures Outcome(thrown) == NameStep(data, old(View()), kind)
    {
      if offset + 2 > |data| {
        return Some(BufferExhausted);
      }
      var nameLen := ReadNumber(TAG_SHORT, data[offset..offset + 2]);
      offset := offset + 2;
      if nameLen < 0 {
        return Some(NegativeLength);
      }
      if offset + nameLen >= |data| {
        return Some(BufferExhausted);
      }
      names := Push(data[offset..offset + nameLen], names);
      offset := offset + nameLen;
      ghost var named := View();
      assert NameStep(data, old(View()), kind)
          == match KindHeader(data, named, kind)
             case Threw(t, cause) => Threw(t, cause)
             case Went(t) => Went(t.(tagEnded := false, current := TagStart));
      thrown := ParseKindHeader(kind);
      if thrown.None? {
        tagEnded := false;
        currentEvent := TagStart;
      }
    }

    method ParseListData() returns (thrown: Option<Cause>)
      modifies this
      ensures Outcome(thrown) == ListData(data, old(View()))
    {
      if indices.Empty? {
        return Some(Undefined);
      }
      indices := Push(indices.top + 1, indices.below);
      if payloadTypes.Empty? {
        return Some(Corrupted);
      }
      var kind := payloadTypes.top;
      if kind == TAG_END {
        tagEnded := true;
        payloadTypes := payloadTypes.below;
        thrown := HandleTagEnd();
        return;
      }
      types := Push(kind, types);
      names := Push([], names);
      thrown := ParseKindHeader(kind);
      if thrown.None? {
        currentEvent := TagStart;
      }
    }

    /** The branch shared by arrays and lists whose index has reached its
        length. */
    method EndCounted() returns (thrown: Option<Cause>)
      requires indices.Push? && lengths.Push?
      modifies this
      ensures Outcome(thrown) == CountedEnd(old(View()))
    {
      tagEnded := true;
      indices := indices.below;
      lengths := lengths.below;
      if types.Push? && types.top == TAG_LIST {
        if payloadTypes.Empty? {
          return Some(Undefined);
        }
        payloadTypes := payloadTypes.below;
      }
      thrown := HandleTagEnd();
    }

    /** The state and the throw, if any, in which a call has ended. */
    ghost function Outcome(thrown: Option<Cause>): Step
      reads this
    {
      if thrown.None? then Went(View()) else Threw(View(), thrown.value)
    }

    /** One call of `next()`.  On success it is exactly one step of the machine
        and keeps the invariant; otherwise it reports why it throws, which is
        never a corrupted stack. */
    method Next() returns (thrown: Option<Cause>)
      requires Valid()
      modifies this
      ensures Outcome(thrown) == PullMachine.Next(data, old(View()))
      ensures thrown.None? ==> Valid()
      ensures thrown.Some? ==> thrown.value in {BufferExhausted, NegativeLength, TooManyClosing}
    {
      ghost var before := View();
      thrown := Dispatch();
      if thrown.None? {
        PullInvariant.AlignedNext(data, before);
      } else {
        PullInvariant.ThrowsOnlyOnInput(data, before);
      }
    }

    method Dispatch() returns (thrown: Option<Cause>)
      modifies this
      ensures Outcome(thrown) == PullMachine.Next(data, old(View()))
    {
      if offset >= |data| {
        if names.Push? {
          thrown := HandleTagEnd();
          return;
        }
        currentEvent := DocEnd;
        return None;
      }
      if tagEnded {
        if !endEmitted {
          thrown := HandleTagEnd();
          return;
        }
        tagEnded := false;
        endEmitted := false;
        if types.Empty? || types.top != TAG_LIST {
          thrown := ParseTagHeader();
          return;
        }
      }
      thrown := SwitchOnType();
    }

    method SwitchOnType() returns (thrown: Option<Cause>)
      modifies this
      ensures Outcome(thrown) == Switch(data, old(View()))
    {
      if types.Empty? {
        return Some(HeaderMissing);
      }
      var kind := types.top;
      if IsScalarKind(kind) {
        var w := Width(kind);
        if offset + w > |data| {
          return Some(BufferExhausted);
        }
        tagData := Num(ReadNumber(kind, data[offset..offset + w]));
        offset := offset + w;
        tagEnded := true;
      } else if IsArrayKind(kind) || kind == TAG_LIST {
        if indices.Empty? || lengths.Empty? {
          return Some(Corrupted);
        }
        if indices.top >= lengths.top {
          thrown := EndCounted();
          return;
        }
        if kind == TAG_LIST {
          thrown := ParseListData();
          return;
        }
        var w := Width(CellKind(kind));
        if offset + w > |data| {
          return Some(BufferExhausted);
        }
        tagData := Num(ReadNumber(CellKind(kind), data[offset..offset + w]));
        offset := offset + w;
        indices := Push(indices.top + 1, indices.below);
      } else if kind == TAG_STRING {
        if offset + 2 > |data| {
          return Some(BufferExhausted);
        }
        var n := ReadNumber(TAG_SHORT, data[offset..offset + 2]);
        offset := offset + 2;
        if n < 0 {
          return Some(NegativeLength);
        }
        if offset + n > |data| {
          return Some(BufferExhausted);
        }
        tagData := Text(data[offset..offset + n]);
        offset := offset + n;
        tagEnded := true;
      } else if kind == TAG_COMPOUND {
        thrown := ParseTagHeader();
        return;
      }
      currentEvent := TagData;
      return None;
    }
  }
}
