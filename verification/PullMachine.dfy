/** The pull reader as a step function over values: `Next` is one call of
    `next()`, branch by branch. */
module PullMachine {
  import opened Bytes
  import opened Tags
  import opened Wrappers

  datatype Stack<T> = Empty | Push(top: T, below: Stack<T>) {
    function Depth(): nat {
      if Empty? then 0 else 1 + below.Depth()
    }
  }

  /** The five parallel stacks. */
  datatype Stacks = Stacks(
    indices: Stack<int>,
    lengths: Stack<int>,
    types: Stack<TagId>,
    payloadTypes: Stack<TagId>,
    names: Stack<seq<byte>>)

  const NO_STACKS := Stacks(Empty, Empty, Empty, Empty, Empty)

  datatype ParserEvent = DocStart | TagStart | TagData | TagEnd | DocEnd

  datatype State = State(
    offset: nat,
    tagEnded: bool,
    endEmitted: bool,
    stacks: Stacks,
    lastName: seq<byte>,
    lastType: TagId,
    datum: Datum,
    current: ParserEvent)

  const INITIAL := State(0, true, true, NO_STACKS, [], 0, Num(0), DocStart)

  /** Why a call throws.  `Undefined` stands for using the top of an empty
      stack, which throws nothing but has no meaning. */
  datatype Cause = BufferExhausted | NegativeLength | TooManyClosing | HeaderMissing | Corrupted | Undefined

  datatype Step = Went(s: State) | Threw(s: State, cause: Cause)

  /** `handle_tag_end`, with the event that each of its callers then sets. */
  function HandleTagEnd(s: State): Step {
    if s.stacks.names.Empty? || s.stacks.types.Empty? then Threw(s, Undefined)
    else
      Went(s.(lastName := s.stacks.names.top, lastType := s.stacks.types.top,
              stacks := s.stacks.(names := s.stacks.names.below, types := s.stacks.types.below),
              endEmitted := true, current := TagEnd))
  }

  function ArrayHeader(d: seq<byte>, s: State): Step {
    if s.offset + 4 > |d| then Threw(s, BufferExhausted)
    else
      Went(s.(offset := s.offset + 4,
              stacks := s.stacks.(
                lengths := Push(ReadNumber(TAG_INT, d[s.offset..s.offset + 4]), s.stacks.lengths),
                indices := Push(0, s.stacks.indices))))
  }

  function ListHeader(d: seq<byte>, s: State): Step {
    if s.offset + 1 > |d| then Threw(s, BufferExhausted)
    else
      ArrayHeader(d, s.(offset := s.offset + 1,
                        stacks := s.stacks.(payloadTypes := Push(d[s.offset], s.stacks.payloadTypes))))
  }

  /** What follows a START: an array's count, a list's type and count. */
  function KindHeader(d: seq<byte>, s: State, kind: TagId): Step {
    if IsArrayKind(kind) then ArrayHeader(d, s)
    else if kind == TAG_LIST then ListHeader(d, s)
    else Went(s)
  }

  /** `parse_tag_header`. */
  function TagHeaderStep(d: seq<byte>, s: State): Step {
    if s.offset + 1 > |d| then Threw(s, BufferExhausted)
    else
      var kind := d[s.offset];
      var s1 := s.(offset := s.offset + 1);
      if kind == TAG_END then
        if s.stacks.types.Empty? || s.stacks.names.Empty? then Threw(s1, TooManyClosing)
        else HandleTagEnd(s1.(tagEnded := true))
      else NameStep(d, s1.(stacks := s.stacks.(types := Push(kind, s.stacks.types))), kind)
  }

  /** The name and the rest of the header, once the type has been pushed. */
  function NameStep(d: seq<byte>, s: State, kind: TagId): Step {
    if s.offset + 2 > |d| then Threw(s, BufferExhausted)
    else
      var n := ReadNumber(TAG_SHORT, d[s.offset..s.offset + 2]);
      var s1 := s.(offset := s.offset + 2);
      if n < 0 then Threw(s1, NegativeLength)
      else if s1.offset + n >= |d| then Threw(s1, BufferExhausted)
      else
        var name := d[s1.offset..s1.offset + n];
        var s2 := s1.(offset := s1.offset + n, stacks := s1.stacks.(names := Push(name, s1.stacks.names)));
        match KindHeader(d, s2, kind)
        case Threw(t, cause) => Threw(t, cause)
        case Went(t) => Went(t.(tagEnded := false, current := TagStart))
  }

  /** `parse_list_data`. */
  function ListData(d: seq<byte>, s: State): Step {
    if s.stacks.indices.Empty? then Threw(s, Undefined)
    else
      var st := s.stacks.(indices := Push(s.stacks.indices.top + 1, s.stacks.indices.below));
      if st.payloadTypes.Empty? then Threw(s.(stacks := st), Corrupted)
      else
        var kind := st.payloadTypes.top;
        if kind == TAG_END then
          HandleTagEnd(s.(tagEnded := true, stacks := st.(payloadTypes := st.payloadTypes.below)))
        else
          var s1 := s.(stacks := st.(types := Push(kind, st.types), names := Push([], st.names)));
          match KindHeader(d, s1, kind)
          case Threw(t, cause) => Threw(t, cause)
          case Went(t) => Went(t.(current := TagStart))
  }

  function ScalarStep(d: seq<byte>, s: State, kind: TagId): Step {
    var w := Width(kind);
    if s.offset + w > |d| then Threw(s, BufferExhausted)
    else
      Went(s.(offset := s.offset + w, tagEnded := true, current := TagData,
              datum := Num(ReadNumber(kind, d[s.offset..s.offset + w]))))
  }

  function StringStep(d: seq<byte>, s: State): Step {
    if s.offset + 2 > |d| then Threw(s, BufferExhausted)
    else
      var n := ReadNumber(TAG_SHORT, d[s.offset..s.offset + 2]);
      var s1 := s.(offset := s.offset + 2);
      if n < 0 then Threw(s1, NegativeLength)
      else if s1.offset + n > |d| then Threw(s1, BufferExhausted)
      else
        Went(s1.(offset := s1.offset + n, tagEnded := true, current := TagData,
                 datum := Text(d[s1.offset..s1.offset + n])))
  }

  /** The end of an array or a list whose index has reached its length. */
  function CountedEnd(s: State): Step
    requires s.stacks.indices.Push? && s.stacks.lengths.Push?
  {
    var st := s.stacks.(indices := s.stacks.indices.below, lengths := s.stacks.lengths.below);
    var s1 := s.(tagEnded := true, stacks := st);
    if st.types.Push? && st.types.top == TAG_LIST then
      if st.payloadTypes.Empty? then Threw(s1, Undefined)
      else HandleTagEnd(s1.(stacks := st.(payloadTypes := st.payloadTypes.below)))
    else HandleTagEnd(s1)
  }

  function ArrayStep(d: seq<byte>, s: State, kind: TagId): Step {
    var st, w := s.stacks, Width(CellKind(kind));
    if st.indices.Empty? || st.lengths.Empty? then Threw(s, Corrupted)
    else if st.indices.top >= st.lengths.top then CountedEnd(s)
    else if s.offset + w > |d| then Threw(s, BufferExhausted)
    else
      Went(s.(offset := s.offset + w, current := TagData,
              datum := Num(ReadNumber(CellKind(kind), d[s.offset..s.offset + w])),
              stacks := st.(indices := Push(st.indices.top + 1, st.indices.below))))
  }

  function ListStep(d: seq<byte>, s: State): Step {
    var st := s.stacks;
    if st.indices.Empty? || st.lengths.Empty? then Threw(s, Corrupted)
    else if st.indices.top >= st.lengths.top then CountedEnd(s)
    else ListData(d, s)
  }

  /** The switch on the type of the open tag; an id it does not know falls
      through and reports DATA. */
  function Switch(d: seq<byte>, s: State): Step {
    if s.stacks.types.Empty? then Threw(s, HeaderMissing)
    else
      var kind := s.stacks.types.top;
      if IsScalarKind(kind) then ScalarStep(d, s, kind)
      else if IsArrayKind(kind) then ArrayStep(d, s, kind)
      else if kind == TAG_STRING then StringStep(d, s)
      else if kind == TAG_LIST then ListStep(d, s)
      else if kind == TAG_COMPOUND then TagHeaderStep(d, s)
      else Went(s.(current := TagData))
  }

  /** One call of `next()`. */
  function Next(d: seq<byte>, s: State): Step {
    var types := s.stacks.types;
    if s.offset >= |d| then
      if s.stacks.names.Push? then HandleTagEnd(s) else Went(s.(current := DocEnd))
    else if s.tagEnded then
      if !s.endEmitted then HandleTagEnd(s)
      else
        var s1 := s.(tagEnded := false, endEmitted := false);
        if types.Empty? || types.top != TAG_LIST then TagHeaderStep(d, s1) else Switch(d, s1)
    else Switch(d, s)
  }

  /** What a caller learns after a call from `get_event_type`, `get_tag_type`,
      `get_tag_name` and the getter for the type. */
  function Observed(s: State): Option<Event> {
    match s.current
    case DocStart => None
    case DocEnd => Some(DocumentEnd)
    case TagEnd => Some(End(s.lastType, s.lastName))
    case _ =>
      if s.stacks.types.Empty? || s.stacks.names.Empty? then None
      else if s.current == TagStart then Some(Start(s.stacks.types.top, s.stacks.names.top))
      else Some(Data(s.stacks.types.top, s.stacks.names.top, s.datum))
  }

  /** One call of `next()` from `s` that reports `e` and leaves `t`. */
  ghost predicate Call(d: seq<byte>, s: State, e: Event, t: State) {
    Next(d, s) == Went(t) && Observed(t) == Some(e)
  }

  ghost predicate Link(d: seq<byte>, ss: seq<State>, es: seq<Event>, i: nat)
    requires i < |es| && |ss| == |es| + 1
  {
    Call(d, ss[i], es[i], ss[i + 1])
  }

  ghost predicate Path(d: seq<byte>, ss: seq<State>, es: seq<Event>) {
    |ss| == |es| + 1 && forall i: nat {:trigger Link(d, ss, es, i)} | i < |es| :: Link(d, ss, es, i)
  }

  /** |es| calls of `next()` from `s` succeed, report `es` and leave `t`. */
  ghost predicate Runs(d: seq<byte>, s: State, es: seq<Event>, t: State) {
    exists ss: seq<State> :: Path(d, ss, es) && ss[0] == s && ss[|es|] == t
  }

  /** A new reader on `d` reports `es` first. */
  ghost predicate Reports(d: seq<byte>, es: seq<Event>) {
    exists u :: Runs(d, INITIAL, es, u)
  }

  lemma RunsNone(d: seq<byte>, s: State)
    ensures Runs(d, s, [], s)
  {
    assert Path(d, [s], []);
  }

  lemma RunsOne(d: seq<byte>, s: State, e: Event, t: State)
    requires Call(d, s, e, t)
    ensures Runs(d, s, [e], t)
  {
    var ss := [s, t];
    assert Link(d, ss, [e], 0);
    assert Path(d, ss, [e]);
  }

  lemma RunsJoin(d: seq<byte>, s: State, a: seq<Event>, m: State, b: seq<Event>, t: State)
    requires Runs(d, s, a, m) && Runs(d, m, b, t)
    ensures Runs(d, s, a + b, t)
  {
    var ss: seq<State> :| Path(d, ss, a) && ss[0] == s && ss[|a|] == m;
    var tt: seq<State> :| Path(d, tt, b) && tt[0] == m && tt[|b|] == t;
    var all := ss + tt[1..];
    forall i: nat | i < |a + b| ensures Link(d, all, a + b, i) {
      if i < |a| { assert Link(d, ss, a, i); } else { assert Link(d, tt, b, i - |a|); }
    }
    assert Path(d, all, a + b);
  }

  lemma RunsSplit(d: seq<byte>, s: State, a: seq<Event>, b: seq<Event>, t: State) returns (m: State)
    requires Runs(d, s, a + b, t)
    ensures Runs(d, s, a, m) && Runs(d, m, b, t)
  {
    var all: seq<State> :| Path(d, all, a + b) && all[0] == s && all[|a + b|] == t;
    var ss, tt := all[..|a| + 1], all[|a|..];
    m := all[|a|];
    forall i: nat | i < |a| ensures Link(d, ss, a, i) { assert Link(d, all, a + b, i); }
    forall i: nat | i < |b| ensures Link(d, tt, b, i) { assert Link(d, all, a + b, i + |a|); }
    assert Path(d, ss, a) && Path(d, tt, b);
  }

  lemma RunsFirst(d: seq<byte>, s: State, e: Event, es: seq<Event>, t: State) returns (m: State)
    requires Runs(d, s, [e] + es, t)
    ensures Call(d, s, e, m) && Runs(d, m, es, t)
  {
    m := RunsSplit(d, s, [e], es, t);
    var ss: seq<State> :| Path(d, ss, [e]) && ss[0] == s && ss[1] == m;
    assert Link(d, ss, [e], 0);
  }

  /** The reader is deterministic: as many calls report the same events. */
  lemma {:induction false} SameEvents(d: seq<byte>, s: State, es: seq<Event>, t: State, fs: seq<Event>, u: State)
    requires Runs(d, s, es, t) && Runs(d, s, fs, u) && |es| == |fs|
    ensures es == fs && t == u
    decreases |es|
  {
    if es == [] {
      RunsFunctional(d, s, [], t, u);
    } else {
      assert es == [es[0]] + es[1..] && fs == [fs[0]] + fs[1..];
      var m := RunsFirst(d, s, es[0], es[1..], t);
      var n := RunsFirst(d, s, fs[0], fs[1..], u);
      SameEvents(d, m, es[1..], t, fs[1..], u);
    }
  }

  /** A run's events fix its last state. */
  lemma {:induction false} RunsFunctional(d: seq<byte>, s: State, es: seq<Event>, t: State, u: State)
    requires Runs(d, s, es, t) && Runs(d, s, es, u)
    ensures t == u
    decreases |es|
  {
    if es == [] {
      var ss: seq<State> :| Path(d, ss, es) && ss[0] == s && ss[0] == t;
      var tt: seq<State> :| Path(d, tt, es) && tt[0] == s && tt[0] == u;
    } else {
      assert es == [es[0]] + es[1..];
      var m := RunsFirst(d, s, es[0], es[1..], t);
      var n := RunsFirst(d, s, es[0], es[1..], u);
      RunsFunctional(d, m, es[1..], t, u);
    }
  }
}
