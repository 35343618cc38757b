/** From a run back to a tree: whatever the event reader reports without meeting
    one of its known faults is the flattening of trees whose encodings are the
    bytes it consumed. */
module PullSound {
  import opened Bytes
  import opened Tags
  import opened PullMachine
  import opened PullProofs
  import opened PullInvariant

  // ----- tidy runs

  /** The ids pushed last are known and the count is not negative. */
  ghost predicate Sound(st: Stacks) {
    && (st.types.Push? ==> st.types.top <= TAG_LONG_ARRAY)
    && (st.payloadTypes.Push? ==> st.payloadTypes.top <= TAG_LONG_ARRAY)
    && (st.lengths.Push? ==> st.lengths.top >= 0)
  }

  /** A call with bytes left that meets no End list expecting elements, no unknown
      id and no negative count. */
  ghost predicate Tidy(d: seq<byte>, s: State, e: Event, t: State) {
    Call(d, s, e, t) && s.offset < |d| && !EndListDue(s) && Sound(t.stacks)
  }

  ghost predicate TidyAt(d: seq<byte>, ss: seq<State>, es: seq<Event>, i: nat)
    requires i < |es| && |ss| == |es| + 1
  {
    Tidy(d, ss[i], es[i], ss[i + 1])
  }

  /** The states `ss` of a run that reports `es` by tidy calls. */
  ghost predicate TidyPath(d: seq<byte>, ss: seq<State>, es: seq<Event>) {
    |ss| == |es| + 1 && forall i: nat {:trigger TidyAt(d, ss, es, i)} | i < |es| :: TidyAt(d, ss, es, i)
  }

  lemma {:induction false} TidyPathRuns(d: seq<byte>, ss: seq<State>, es: seq<Event>)
    requires TidyPath(d, ss, es)
    ensures Runs(d, ss[0], es, ss[|es|])
  {
    forall i: nat {:trigger Link(d, ss, es, i)} | i < |es|
      ensures Link(d, ss, es, i)
    {
      assert TidyAt(d, ss, es, i);
    }
    assert Path(d, ss, es);
  }

  // ----- the trees of tidy runs

  /** Within the limits, and with no list typed End but empty ones. */
  ghost predicate Strict(p: Payload)
    decreases p, 1
  {
    match p
    case Array(_, vs) => |vs| < 0x8000_0000
    case Str(cs) => |cs| < 0x8000
    case List(elem, items) =>
      |items| < 0x8000_0000 && (elem == TAG_END ==> items == []) && StrictItems(items)
    case Compound(tags) => StrictTags(tags)
    case _ => true
  }

  ghost predicate StrictItems(items: seq<Payload>)
    decreases items, 0
  {
    items == [] || (Strict(items[0]) && StrictItems(items[1..]))
  }

  ghost predicate StrictTag(t: Tag)
    decreases t, 0
  {
    |t.name| < 0x8000 && Strict(t.payload)
  }

  ghost predicate StrictTags(tags: seq<Tag>)
    decreases tags, 0
  {
    tags == [] || (StrictTag(tags[0]) && StrictTags(tags[1..]))
  }

  lemma {:induction false} StrictIsWithin(p: Payload)
    requires Strict(p)
    ensures InLimits(p)
    decreases p, 1
  {
    match p
    case List(_, items) => StrictItemsWithin(items);
    case Compound(tags) => StrictTagsWithin(tags);
    case _ =>
  }

  lemma {:induction false} StrictItemsWithin(items: seq<Payload>)
    requires StrictItems(items)
    ensures InLimitsItems(items)
    decreases items, 0
  {
    if items != [] {
      StrictIsWithin(items[0]);
      StrictItemsWithin(items[1..]);
    }
  }

  lemma {:induction false} StrictTagsWithin(tags: seq<Tag>)
    requires StrictTags(tags)
    ensures InLimitsTags(tags)
    decreases tags, 0
  {
    if tags != [] {
      StrictIsWithin(tags[0].payload);
      StrictTagsWithin(tags[1..]);
    }
  }

  // ----- what a START has pushed

  /** Kind, and count and element type where the kind has them. */
  datatype Shape = Plain(kind: TagId) | Counted(kind: TagId, n: nat) | Listed(elem: TagId, n: nat)

  function KindOf(h: Shape): TagId {
    if h.Listed? then TAG_LIST else h.kind
  }

  ghost predicate GoodShape(h: Shape) {
    match h
    case Plain(kind) => IsScalarKind(kind) || kind == TAG_STRING || kind == TAG_COMPOUND
    case Counted(kind, n) => IsArrayKind(kind) && n < 0x8000_0000
    case Listed(elem, n) => elem <= TAG_LONG_ARRAY && n < 0x8000_0000
  }

  function ShapeBytes(h: Shape): seq<byte> {
    match h
    case Plain(_) => []
    case Counted(_, n) => BE(4, n)
    case Listed(elem, n) => [elem] + BE(4, n)
  }

  function OpenedAs(base: Stacks, name: seq<byte>, h: Shape): Stacks {
    var st := base.(types := Push(KindOf(h), base.types), names := Push(name, base.names));
    match h
    case Plain(_) => st
    case Counted(_, n) => st.(indices := Push(0, st.indices), lengths := Push(n, st.lengths))
    case Listed(elem, n) =>
      st.(indices := Push(0, st.indices), lengths := Push(n, st.lengths), payloadTypes := Push(elem, st.payloadTypes))
  }

  /** `p` is a payload of that shape, within the limits. */
  ghost predicate HasShape(p: Payload, h: Shape) {
    && WF(p) && Strict(p) && p != Null && TypeOf(p) == KindOf(h) && Header(p) == ShapeBytes(h)
  }

  lemma {:induction false} CountBytes(d: seq<byte>, o: nat)
    requires o + 4 <= |d| && ReadNumber(TAG_INT, d[o..o + 4]) >= 0
    ensures var n := ReadNumber(TAG_INT, d[o..o + 4]); n < 0x8000_0000 && At(d, o, BE(4, n))
  {
    PowValues();
    NumberOfRead(TAG_INT, d[o..o + 4]);
  }

  lemma {:induction false} LengthBytes(d: seq<byte>, o: nat)
    requires o + 2 <= |d| && ReadNumber(TAG_SHORT, d[o..o + 2]) >= 0
    ensures var n := ReadNumber(TAG_SHORT, d[o..o + 2]); n < 0x8000 && At(d, o, BE(2, n))
  {
    PowValues();
    NumberOfRead(TAG_SHORT, d[o..o + 2]);
  }

  lemma {:induction false} ListedBytes(d: seq<byte>, o: nat, elem: TagId, n: nat)
    requires o < |d| && d[o] == elem && At(d, o + 1, BE(4, n))
    ensures At(d, o, [elem] + BE(4, n))
  {
    assert d[o..o + 1] == [elem];
    AtConcat(d, o, [elem], BE(4, n));
  }

  /** What a successful kind header read. */
  lemma {:induction false} ShapeRead(d: seq<byte>, s: State, kind: TagId) returns (h: Shape)
    requires s.offset <= |d| && 0 < kind <= TAG_LONG_ARRAY
    requires KindHeader(d, s, kind).Went? && Sound(KindHeader(d, s, kind).s.stacks)
    ensures GoodShape(h) && KindOf(h) == kind && At(d, s.offset, ShapeBytes(h))
    ensures KindHeader(d, s, kind).s ==
              s.(offset := s.offset + |ShapeBytes(h)|,
                 stacks := OpenedAs(s.stacks, [], h).(types := s.stacks.types, names := s.stacks.names))
  {
    var o := s.offset;
    if IsArrayKind(kind) {
      CountBytes(d, o);
      h := Counted(kind, ReadNumber(TAG_INT, d[o..o + 4]));
    } else if kind == TAG_LIST {
      CountBytes(d, o + 1);
      h := Listed(d[o], ReadNumber(TAG_INT, d[o + 1..o + 5]));
      ListedBytes(d, o, d[o], h.n);
    } else {
      h := Plain(kind);
    }
  }

  // ----- single calls, read backwards

  lemma {:induction false} HeaderAt(d: seq<byte>, o: nat, kind: TagId, len: seq<byte>, name: seq<byte>,
                                    tail: seq<byte>)
    requires o < |d| && d[o] == kind && |len| == 2 && At(d, o + 1, len) && At(d, o + 3, name)
    requires At(d, o + 3 + |name|, tail)
    ensures At(d, o, [kind] + len + name + tail)
  {
    assert d[o..o + 1] == [kind];
    FourParts(d, o, [kind], len, name, tail);
  }

  lemma {:induction false} FourParts(d: seq<byte>, o: nat, a: seq<byte>, b: seq<byte>, c: seq<byte>, e: seq<byte>)
    requires At(d, o, a) && At(d, o + |a|, b) && At(d, o + |a| + |b|, c) && At(d, o + |a| + |b| + |c|, e)
    ensures At(d, o, a + b + c + e)
  {
    AtConcat(d, o, a, b);
    AtConcat(d, o, a + b, c);
    AtConcat(d, o, a + b + c, e);
  }

  function KindRead(s: State, kind: TagId): State {
    s.(offset := s.offset + 1, stacks := s.stacks.(types := Push(kind, s.stacks.types)))
  }

  function NameAdded(s: State, name: seq<byte>): State {
    s.(offset := s.offset + 2 + |name|, stacks := s.stacks.(names := Push(name, s.stacks.names)))
  }

  lemma {:induction false} HeaderIsNamed(d: seq<byte>, s: State, t: State)
    requires s.offset < |d| && TagHeaderStep(d, s) == Went(t) && t.current == TagStart
    ensures d[s.offset] != TAG_END && NameStep(d, KindRead(s, d[s.offset]), d[s.offset]) == Went(t)
  {
  }

  lemma {:induction false} NameParts(d: seq<byte>, s: State, t: State, kind: TagId) returns (name: seq<byte>)
    requires NameStep(d, s, kind) == Went(t)
    ensures s.offset + 2 + |name| < |d|
    ensures ReadNumber(TAG_SHORT, d[s.offset..s.offset + 2]) == |name|
    ensures At(d, s.offset + 2, name)
    ensures var k := KindHeader(d, NameAdded(s, name), kind);
            k.Went? && t == k.s.(tagEnded := false, current := TagStart)
  {
    var n := ReadNumber(TAG_SHORT, d[s.offset..s.offset + 2]);
    name := d[s.offset + 2..s.offset + 2 + n];
  }

  lemma {:induction false} NameBack(d: seq<byte>, s: State, t: State, kind: TagId) returns (h: Shape, name: seq<byte>)
    requires s.offset < |d| && d[s.offset] == kind != TAG_END && !s.endEmitted
    requires NameStep(d, KindRead(s, kind), kind) == Went(t) && Sound(t.stacks)
    ensures GoodShape(h) && KindOf(h) == kind && |name| < 0x8000
    ensures At(d, s.offset, [kind] + BE(2, |name|) + name + ShapeBytes(h))
    ensures Open(t, s.offset + 3 + |name| + |ShapeBytes(h)|, OpenedAs(s.stacks, name, h))
    ensures t.current == TagStart
  {
    name := NameParts(d, KindRead(s, kind), t, kind);
    LengthBytes(d, s.offset + 1);
    h := KindBack(d, s, t, kind, name);
    HeaderAt(d, s.offset, kind, BE(2, |name|), name, ShapeBytes(h));
  }

  lemma {:induction false} KindBack(d: seq<byte>, s: State, t: State, kind: TagId, name: seq<byte>)
    returns (h: Shape)
    requires s.offset + 3 + |name| <= |d| && !s.endEmitted && kind != TAG_END
    requires var k := KindHeader(d, NameAdded(KindRead(s, kind), name), kind);
             k.Went? && t == k.s.(tagEnded := false, current := TagStart)
    requires Sound(t.stacks)
    ensures GoodShape(h) && KindOf(h) == kind && At(d, s.offset + 3 + |name|, ShapeBytes(h))
    ensures Open(t, s.offset + 3 + |name| + |ShapeBytes(h)|, OpenedAs(s.stacks, name, h))
  {
    var r := NameAdded(KindRead(s, kind), name);
    HeaderKind(d, r, kind);
    h := ShapeRead(d, r, kind);
  }

  lemma {:induction false} HeaderKind(d: seq<byte>, s: State, kind: TagId)
    requires KindHeader(d, s, kind).Went?
    ensures KindHeader(d, s, kind).s.stacks.types == s.stacks.types
    ensures KindHeader(d, s, kind).s.endEmitted == s.endEmitted
  {
  }

  /** START of a named tag. */
  lemma {:induction false} StartBack(d: seq<byte>, s: State, e: Event, t: State, o: nat, base: Stacks)
    returns (h: Shape, name: seq<byte>)
    requires Tidy(d, s, e, t) && Ready(s, o, base) && e.Start?
    ensures GoodShape(h) && |name| < 0x8000 && e == Start(KindOf(h), name)
    ensures At(d, o, [KindOf(h)] + BE(2, |name|) + name + ShapeBytes(h))
    ensures Open(t, o + 3 + |name| + |ShapeBytes(h)|, OpenedAs(base, name, h))
  {
    var s1 := s.(tagEnded := false, endEmitted := false);
    assert Next(d, s) == TagHeaderStep(d, s1);
    HeaderIsNamed(d, s1, t);
    h, name := NameBack(d, s1, t, d[o]);
  }

  /** START of a list element: one was to come, of the list's type. */
  lemma {:induction false} ItemStartBack(d: seq<byte>, s: State, e: Event, t: State, o: nat, st: Stacks)
    returns (h: Shape)
    requires Tidy(d, s, e, t) && InList(s, o, st) && e.Start?
    ensures st.payloadTypes.Push? && ElementDue(s, o, st, st.payloadTypes.top) && st.payloadTypes.top != TAG_END
    ensures GoodShape(h) && KindOf(h) == st.payloadTypes.top && e == Start(KindOf(h), [])
    ensures At(d, o, ShapeBytes(h)) && Open(t, o + |ShapeBytes(h)|, OpenedAs(Bumped(st, 1), [], h))
  {
    var s1 := s.(tagEnded := false, endEmitted := false);
    assert Next(d, s) == ListStep(d, s1);
    var st1 := Bumped(st, 1);
    var elem := st.payloadTypes.top;
    var r := s1.(stacks := st1.(types := Push(elem, st1.types), names := Push([], st1.names)));
    assert KindHeader(d, r, elem).Went? && t == KindHeader(d, r, elem).s.(current := TagStart);
    HeaderKind(d, r, elem);
    h := ShapeRead(d, r, elem);
  }

  /** END of a list: all its elements are read. */
  lemma {:induction false} ListEndBack(d: seq<byte>, s: State, e: Event, t: State, o: nat, base: Stacks,
                                       name: seq<byte>, i: int, n: int, elem: TagId)
    requires Tidy(d, s, e, t) && !e.Start?
    requires InList(s, o, Stacks(Push(i, base.indices), Push(n, base.lengths), Push(TAG_LIST, base.types),
                                 Push(elem, base.payloadTypes), Push(name, base.names)))
    ensures i >= n && e == End(TAG_LIST, name) && Gap(t, o, base)
  {
  }

  lemma {:induction false} CompoundEndBack(d: seq<byte>, s: State, e: Event, t: State, o: nat, base: Stacks,
                                           name: seq<byte>)
    requires Tidy(d, s, e, t) && !e.Start?
    requires Ready(s, o, base.(types := Push(TAG_COMPOUND, base.types), names := Push(name, base.names)))
    ensures e == End(TAG_COMPOUND, name) && Gap(t, o + 1, base) && At(d, o, [TAG_END])
  {
    var s1 := s.(tagEnded := false, endEmitted := false);
    assert Next(d, s) == TagHeaderStep(d, s1);
    assert d[o] == TAG_END;
    assert d[o..o + 1] == [TAG_END];
  }

  /** With no tag open nothing can be reported but a START. */
  lemma {:induction false} RootStartBack(d: seq<byte>, s: State, e: Event, t: State, o: nat)
    requires Tidy(d, s, e, t) && Ready(s, o, NO_STACKS)
    ensures e.Start?
  {
    var s1 := s.(tagEnded := false, endEmitted := false);
    assert Next(d, s) == TagHeaderStep(d, s1);
  }

  lemma {:induction false} DatumEndBack(d: seq<byte>, s: State, e: Event, t: State, o: nat, base: Stacks,
                                        name: seq<byte>, kind: TagId)
    requires Tidy(d, s, e, t) && EndDue(s, o, base, name, kind)
    ensures e == End(kind, name) && Gap(t, o, base)
  {
  }

  lemma {:induction false} ScalarNext(d: seq<byte>, s: State, kind: TagId)
    requires s.offset < |d| && !s.tagEnded && s.stacks.types.Push? && s.stacks.types.top == kind && IsScalarKind(kind)
    ensures Next(d, s) == ScalarStep(d, s, kind)
  {
  }

  lemma {:induction false} ScalarRead(d: seq<byte>, s: State, t: State, kind: TagId) returns (v: int)
    requires IsScalarKind(kind) && ScalarStep(d, s, kind) == Went(t)
    ensures InRange(kind, v) && At(d, s.offset, Number(kind, v))
    ensures t == s.(offset := s.offset + Width(kind), tagEnded := true, current := TagData, datum := Num(v))
  {
    var w := Width(kind);
    v := ReadNumber(kind, d[s.offset..s.offset + w]);
    NumberOfRead(kind, d[s.offset..s.offset + w]);
  }

  lemma {:induction false} ScalarBack(d: seq<byte>, s: State, e: Event, t: State, o: nat, base: Stacks,
                                      name: seq<byte>, kind: TagId)
    returns (v: int)
    requires Tidy(d, s, e, t) && IsScalarKind(kind) && Open(s, o, OpenedAs(base, name, Plain(kind)))
    ensures InRange(kind, v) && At(d, o, Number(kind, v)) && e == Data(kind, name, Num(v))
    ensures EndDue(t, o + Width(kind), base, name, kind)
  {
    ScalarNext(d, s, kind);
    v := ScalarRead(d, s, t, kind);
  }

  lemma {:induction false} StrBack(d: seq<byte>, s: State, e: Event, t: State, o: nat, base: Stacks,
                                   name: seq<byte>)
    returns (cs: seq<byte>)
    requires Tidy(d, s, e, t) && Open(s, o, OpenedAs(base, name, Plain(TAG_STRING)))
    ensures |cs| < 0x8000 && At(d, o, BE(2, |cs|) + cs) && e == Data(TAG_STRING, name, Text(cs))
    ensures EndDue(t, o + 2 + |cs|, base, name, TAG_STRING)
  {
    assert Next(d, s) == StringStep(d, s);
    LengthBytes(d, o);
    cs := d[o + 2..o + 2 + ReadNumber(TAG_SHORT, d[o..o + 2])];
    AtConcat(d, o, BE(2, |cs|), cs);
  }

  lemma {:induction false} CellBack(d: seq<byte>, s: State, e: Event, t: State, o: nat, st: Stacks, kind: TagId,
                                    name: seq<byte>, left: nat)
    returns (v: int)
    requires Tidy(d, s, e, t) && InArray(s, o, st, kind, name, left) && left > 0
    ensures InRange(CellKind(kind), v) && At(d, o, Number(CellKind(kind), v)) && e == Data(kind, name, Num(v))
    ensures InArray(t, o + Width(CellKind(kind)), Bumped(st, 1), kind, name, left - 1)
  {
    ArrayNext(d, s, kind);
    v := CellRead(d, s, t, kind);
  }

  lemma {:induction false} ArrayNext(d: seq<byte>, s: State, kind: TagId)
    requires s.offset < |d| && !s.tagEnded && s.stacks.types.Push? && s.stacks.types.top == kind && IsArrayKind(kind)
    ensures Next(d, s) == ArrayStep(d, s, kind)
  {
  }

  lemma {:induction false} CellRead(d: seq<byte>, s: State, t: State, kind: TagId) returns (v: int)
    requires IsArrayKind(kind) && ArrayStep(d, s, kind) == Went(t)
    requires s.stacks.indices.Push? && s.stacks.lengths.Push? && s.stacks.indices.top < s.stacks.lengths.top
    ensures InRange(CellKind(kind), v) && At(d, s.offset, Number(CellKind(kind), v))
    ensures t == s.(offset := s.offset + Width(CellKind(kind)), current := TagData, datum := Num(v),
                    stacks := Bumped(s.stacks, 1))
  {
    var w := Width(CellKind(kind));
    v := ReadNumber(CellKind(kind), d[s.offset..s.offset + w]);
    NumberOfRead(CellKind(kind), d[s.offset..s.offset + w]);
  }

  lemma {:induction false} ArrayEndBack(d: seq<byte>, s: State, e: Event, t: State, o: nat, base: Stacks,
                                        name: seq<byte>, kind: TagId, n: int)
    requires Tidy(d, s, e, t) && IsArrayKind(kind)
    requires Open(s, o, base.(types := Push(kind, base.types), names := Push(name, base.names),
                              indices := Push(n, base.indices), lengths := Push(n, base.lengths)))
    ensures e == End(kind, name) && Gap(t, o, base)
  {
    ArrayNext(d, s, kind);
  }

  // ----- whole tags, read backwards

  ghost predicate Deeper(ss: seq<State>, st: Stacks) {
    |ss| > 0 && ss[|ss| - 1].stacks.types.Depth() < st.types.Depth()
  }

  /** As long as a tag is open the run goes on. */
  lemma {:induction false} GoesOn(d: seq<byte>, ss: seq<State>, es: seq<Event>, i: nat, st: Stacks)
    requires TidyPath(d, ss, es) && i <= |es| && ss[i].stacks.types == st.types && Deeper(ss, st)
    ensures i < |es| && ss[i].offset < |d|
  {
    if i < |es| {
      assert TidyAt(d, ss, es, i);
    }
  }

  lemma {:induction false} CellsBack(d: seq<byte>, ss: seq<State>, es: seq<Event>, i: nat, o: nat, st: Stacks,
                                     kind: TagId, name: seq<byte>, left: nat)
    returns (j: nat, vs: seq<int>)
    requires TidyPath(d, ss, es) && i <= |es| && InArray(ss[i], o, st, kind, name, left) && Deeper(ss, st)
    ensures i <= j < |es| && |vs| == left && AllInRange(CellKind(kind), vs)
    ensures At(d, o, Numbers(CellKind(kind), vs)) && es[i..j] == DataEvents(kind, name, vs)
    ensures Open(ss[j], o + |Numbers(CellKind(kind), vs)|, Bumped(st, left))
    decreases left
  {
    GoesOn(d, ss, es, i, st);
    if left == 0 {
      j, vs := i, [];
    } else {
      assert TidyAt(d, ss, es, i);
      var cell := CellKind(kind);
      var v := CellBack(d, ss[i], es[i], ss[i + 1], o, st, kind, name, left);
      var rest;
      j, rest := CellsBack(d, ss, es, i + 1, o + Width(cell), Bumped(st, 1), kind, name, left - 1);
      vs := [v] + rest;
      assert vs[1..] == rest;
      AtConcat(d, o, Number(cell, v), Numbers(cell, rest));
      assert es[i..j] == [es[i]] + es[i + 1..j];
    }
  }

  /** The rest of a tag that has been opened, up to its END. */
  lemma {:induction false} BodyBack(d: seq<byte>, ss: seq<State>, es: seq<Event>, i: nat, o: nat, base: Stacks,
                                    name: seq<byte>, h: Shape)
    returns (j: nat, p: Payload)
    requires TidyPath(d, ss, es) && i <= |es| && GoodShape(h) && Open(ss[i], o, OpenedAs(base, name, h))
    requires Deeper(ss, OpenedAs(base, name, h))
    ensures i < j <= |es| && HasShape(p, h) && At(d, o, Body(p)) && Gap(ss[j], o + |Body(p)|, base)
    ensures es[i..j] == Inner(name, p) + [End(KindOf(h), name)]
    decreases |es| - i, 1, 0
  {
    match h
    case Counted(kind, n) =>
      j, p := ArrayBack(d, ss, es, i, o, base, name, kind, n);
    case Listed(elem, n) =>
      j, p := ListBack(d, ss, es, i, o, base, name, elem, n);
    case Plain(kind) =>
      if kind == TAG_COMPOUND {
        j, p := CompoundBack(d, ss, es, i, o, base, name);
      } else {
        j, p := DatumBack(d, ss, es, i, o, base, name, kind);
      }
  }

  lemma {:induction false} DatumBack(d: seq<byte>, ss: seq<State>, es: seq<Event>, i: nat, o: nat, base: Stacks,
                                     name: seq<byte>, kind: TagId)
    returns (j: nat, p: Payload)
    requires TidyPath(d, ss, es) && i <= |es| && (IsScalarKind(kind) || kind == TAG_STRING)
    requires Open(ss[i], o, OpenedAs(base, name, Plain(kind))) && Deeper(ss, OpenedAs(base, name, Plain(kind)))
    ensures i < j <= |es| && HasShape(p, Plain(kind)) && At(d, o, Body(p)) && Gap(ss[j], o + |Body(p)|, base)
    ensures es[i..j] == Inner(name, p) + [End(kind, name)]
  {
    var st := OpenedAs(base, name, Plain(kind));
    GoesOn(d, ss, es, i, st);
    assert TidyAt(d, ss, es, i);
    if kind == TAG_STRING {
      var cs := StrBack(d, ss[i], es[i], ss[i + 1], o, base, name);
      p := Str(cs);
    } else {
      var v := ScalarBack(d, ss[i], es[i], ss[i + 1], o, base, name, kind);
      p := Scalar(kind, v);
    }
    GoesOn(d, ss, es, i + 1, st);
    assert TidyAt(d, ss, es, i + 1);
    DatumEndBack(d, ss[i + 1], es[i + 1], ss[i + 2], o + |Body(p)|, base, name, kind);
    j := i + 2;
    assert es[i..j] == [es[i]] + [es[i + 1]];
  }

  lemma {:induction false} ArrayBack(d: seq<byte>, ss: seq<State>, es: seq<Event>, i: nat, o: nat, base: Stacks,
                                     name: seq<byte>, kind: TagId, n: nat)
    returns (j: nat, p: Payload)
    requires TidyPath(d, ss, es) && i <= |es| && GoodShape(Counted(kind, n))
    requires Open(ss[i], o, OpenedAs(base, name, Counted(kind, n)))
    requires Deeper(ss, OpenedAs(base, name, Counted(kind, n)))
    ensures i < j <= |es| && HasShape(p, Counted(kind, n)) && At(d, o, Body(p)) && Gap(ss[j], o + |Body(p)|, base)
    ensures es[i..j] == Inner(name, p) + [End(kind, name)]
  {
    var st := OpenedAs(base, name, Counted(kind, n));
    var k, vs := CellsBack(d, ss, es, i, o, st, kind, name, n);
    p := Array(kind, vs);
    GoesOn(d, ss, es, k, st);
    assert TidyAt(d, ss, es, k);
    ArrayEndBack(d, ss[k], es[k], ss[k + 1], o + |Body(p)|, base, name, kind, n);
    j := k + 1;
    EndLast(es, i, k);
  }

  lemma {:induction false} ListBack(d: seq<byte>, ss: seq<State>, es: seq<Event>, i: nat, o: nat, base: Stacks,
                                    name: seq<byte>, elem: TagId, n: nat)
    returns (j: nat, p: Payload)
    requires TidyPath(d, ss, es) && i <= |es| && GoodShape(Listed(elem, n))
    requires Open(ss[i], o, OpenedAs(base, name, Listed(elem, n))) && Deeper(ss, OpenedAs(base, name, Listed(elem, n)))
    ensures i < j <= |es| && HasShape(p, Listed(elem, n)) && At(d, o, Body(p)) && Gap(ss[j], o + |Body(p)|, base)
    ensures es[i..j] == Inner(name, p) + [End(TAG_LIST, name)]
    decreases |es| - i, 0, 2
  {
    var st := OpenedAs(base, name, Listed(elem, n));
    var k, items := ItemsBack(d, ss, es, i, o, st, n);
    p := List(elem, items);
    ListCloses(d, ss, es, k, o + |EncodeItems(items)|, base, name, elem, n);
    j := k + 1;
    EndLast(es, i, k);
  }

  lemma {:induction false} ListCloses(d: seq<byte>, ss: seq<State>, es: seq<Event>, k: nat, o: nat, base: Stacks,
                                      name: seq<byte>, elem: TagId, n: nat)
    requires TidyPath(d, ss, es) && k < |es| && !es[k].Start?
    requires InList(ss[k], o, Bumped(OpenedAs(base, name, Listed(elem, n)), n))
    ensures es[k] == End(TAG_LIST, name) && Gap(ss[k + 1], o, base)
  {
    assert TidyAt(d, ss, es, k);
    ListEndBack(d, ss[k], es[k], ss[k + 1], o, base, name, n, n, elem);
  }

  /** The elements of a list that counts on its own counter. */
  lemma {:induction false} ItemsBack(d: seq<byte>, ss: seq<State>, es: seq<Event>, i: nat, o: nat, st: Stacks,
                                     left: nat)
    returns (j: nat, items: seq<Payload>)
    requires TidyPath(d, ss, es) && i <= |es| && InList(ss[i], o, st) && Deeper(ss, st)
    requires st.payloadTypes.Push? && st.names.Push?
    requires st.indices.Push? && st.lengths.Push? && st.indices.top + left == st.lengths.top
    ensures i <= j < |es| && !es[j].Start?
    ensures ItemsRead(d, es, i, j, o, st, left, items, ss[j])
    decreases |es| - i, 0, 1
  {
    GoesOn(d, ss, es, i, st);
    if es[i].Start? {
      var k, x := ItemBack(d, ss, es, i, o, st);
      var rest;
      j, rest := ItemsBack(d, ss, es, k, o + |Encode(x)|, Bumped(st, 1), left - 1);
      items := [x] + rest;
      OneMore(d, es, i, k, j, o, st, left, x, rest, ss[j]);
    } else {
      ListStops(d, ss, es, i, o, st);
      j, items := i, [];
    }
  }

  /** `left` elements have been read, and the reader is behind them in `s`. */
  ghost predicate ItemsRead(d: seq<byte>, es: seq<Event>, i: nat, j: nat, o: nat, st: Stacks, left: nat,
                            items: seq<Payload>, s: State)
    requires i <= j <= |es| && st.payloadTypes.Push? && st.indices.Push?
  {
    && |items| == left && WFItems(st.payloadTypes.top, items) && StrictItems(items)
    && (left > 0 ==> st.payloadTypes.top != TAG_END)
    && At(d, o, EncodeItems(items)) && es[i..j] == ItemEvents(items)
    && InList(s, o + |EncodeItems(items)|, Bumped(st, left))
  }

  lemma {:induction false} OneMore(d: seq<byte>, es: seq<Event>, i: nat, k: nat, j: nat, o: nat, st: Stacks, left: nat,
                                   x: Payload, rest: seq<Payload>, s: State)
    requires i <= k <= j <= |es| && st.payloadTypes.Push? && st.indices.Push? && left > 0
    requires WF(x) && Strict(x) && TypeOf(x) == st.payloadTypes.top != TAG_END
    requires At(d, o, Encode(x)) && es[i..k] == Events([], x)
    requires ItemsRead(d, es, k, j, o + |Encode(x)|, Bumped(st, 1), left - 1, rest, s)
    ensures ItemsRead(d, es, i, j, o, st, left, [x] + rest, s)
  {
    ItemsJoin(d, es, i, k, j, o, st.payloadTypes.top, x, rest);
  }

  lemma {:induction false} ListStops(d: seq<byte>, ss: seq<State>, es: seq<Event>, i: nat, o: nat, st: Stacks)
    requires TidyPath(d, ss, es) && i < |es| && !es[i].Start? && InList(ss[i], o, st)
    requires st.payloadTypes.Push? && st.names.Push? && st.indices.Push? && st.lengths.Push?
    ensures st.indices.top >= st.lengths.top
  {
    var base := Stacks(st.indices.below, st.lengths.below, st.types.below, st.payloadTypes.below, st.names.below);
    assert TidyAt(d, ss, es, i);
    ListEndBack(d, ss[i], es[i], ss[i + 1], o, base, st.names.top, st.indices.top, st.lengths.top,
                st.payloadTypes.top);
  }

  lemma {:induction false} ItemOpens(d: seq<byte>, ss: seq<State>, es: seq<Event>, i: nat, o: nat, st: Stacks)
    returns (h: Shape)
    requires TidyPath(d, ss, es) && i < |es| && InList(ss[i], o, st) && es[i].Start?
    ensures st.payloadTypes.Push? && st.indices.Push? && st.lengths.Push? && st.indices.top < st.lengths.top
    ensures st.payloadTypes.top != TAG_END
    ensures GoodShape(h) && KindOf(h) == st.payloadTypes.top && es[i] == Start(KindOf(h), [])
    ensures At(d, o, ShapeBytes(h)) && Open(ss[i + 1], o + |ShapeBytes(h)|, OpenedAs(Bumped(st, 1), [], h))
  {
    assert TidyAt(d, ss, es, i);
    h := ItemStartBack(d, ss[i], es[i], ss[i + 1], o, st);
  }

  lemma {:induction false} ItemBack(d: seq<byte>, ss: seq<State>, es: seq<Event>, i: nat, o: nat, st: Stacks)
    returns (j: nat, x: Payload)
    requires TidyPath(d, ss, es) && i < |es| && InList(ss[i], o, st) && Deeper(ss, st)
    requires es[i].Start?
    ensures st.payloadTypes.Push? && st.indices.Push? && st.lengths.Push? && st.indices.top < st.lengths.top
    ensures st.payloadTypes.top != TAG_END
    ensures i < j <= |es| && WF(x) && Strict(x) && TypeOf(x) == st.payloadTypes.top && At(d, o, Encode(x))
    ensures es[i..j] == Events([], x) && Gap(ss[j], o + |Encode(x)|, Bumped(st, 1))
    decreases |es| - i, 0, 0
  {
    var h := ItemOpens(d, ss, es, i, o, st);
    j, x := BodyBack(d, ss, es, i + 1, o + |ShapeBytes(h)|, Bumped(st, 1), [], h);
    ItemParts(d, o, x, h);
    StartFirst(es, i, j);
  }

  lemma {:induction false} ItemsCons(elem: TagId, x: Payload, rest: seq<Payload>)
    requires WF(x) && Strict(x) && TypeOf(x) == elem && WFItems(elem, rest) && StrictItems(rest)
    ensures var items := [x] + rest;
            && WFItems(elem, items) && StrictItems(items)
            && EncodeItems(items) == Encode(x) + EncodeItems(rest)
            && ItemEvents(items) == Events([], x) + ItemEvents(rest)
  {
    assert ([x] + rest)[1..] == rest;
  }

  lemma {:induction false} TagsCons(t: Tag, rest: seq<Tag>)
    requires WFTag(t) && StrictTag(t) && WFTags(rest) && StrictTags(rest)
    ensures var tags := [t] + rest;
            && WFTags(tags) && StrictTags(tags)
            && EncodeTags(tags) == EncodeTag(t) + EncodeTags(rest)
            && TagsEvents(tags) == TagEvents(t) + TagsEvents(rest)
  {
    assert ([t] + rest)[1..] == rest;
  }

  lemma {:induction false} Slices(es: seq<Event>, i: nat, k: nat, j: nat)
    requires i <= k <= j <= |es|
    ensures es[i..j] == es[i..k] + es[k..j]
  {
  }

  lemma {:induction false} ShapeEvents(t: Tag, h: Shape)
    requires HasShape(t.payload, h) && |t.name| < 0x8000
    ensures WFTag(t) && StrictTag(t)
    ensures TagEvents(t) == [Start(KindOf(h), t.name)] + (Inner(t.name, t.payload) + [End(KindOf(h), t.name)])
  {
  }

  lemma {:induction false} ItemsJoin(d: seq<byte>, es: seq<Event>, i: nat, k: nat, j: nat, o: nat, elem: TagId,
                                     x: Payload, rest: seq<Payload>)
    requires i <= k <= j <= |es| && es[i..k] == Events([], x) && es[k..j] == ItemEvents(rest)
    requires WF(x) && Strict(x) && TypeOf(x) == elem && WFItems(elem, rest) && StrictItems(rest)
    requires At(d, o, Encode(x)) && At(d, o + |Encode(x)|, EncodeItems(rest))
    ensures var items := [x] + rest;
            && WFItems(elem, items) && StrictItems(items) && es[i..j] == ItemEvents(items)
            && At(d, o, EncodeItems(items)) && |EncodeItems(items)| == |Encode(x)| + |EncodeItems(rest)|
  {
    ItemsCons(elem, x, rest);
    AtBoth(d, o, Encode(x), EncodeItems(rest), EncodeItems([x] + rest));
    Slices(es, i, k, j);
  }

  lemma {:induction false} AtBoth(d: seq<byte>, o: nat, a: seq<byte>, b: seq<byte>, both: seq<byte>)
    requires At(d, o, a) && At(d, o + |a|, b) && both == a + b
    ensures At(d, o, both) && |both| == |a| + |b|
  {
    AtConcat(d, o, a, b);
  }

  lemma {:induction false} TagsJoin(d: seq<byte>, es: seq<Event>, i: nat, k: nat, j: nat, o: nat, t: Tag,
                                    rest: seq<Tag>)
    requires i <= k <= j <= |es| && es[i..k] == TagEvents(t) && es[k..j] == TagsEvents(rest)
    requires WFTag(t) && StrictTag(t) && WFTags(rest) && StrictTags(rest)
    requires At(d, o, EncodeTag(t)) && At(d, o + |EncodeTag(t)|, EncodeTags(rest))
    ensures var tags := [t] + rest;
            && WFTags(tags) && StrictTags(tags) && es[i..j] == TagsEvents(tags)
            && At(d, o, EncodeTags(tags)) && |EncodeTags(tags)| == |EncodeTag(t)| + |EncodeTags(rest)|
  {
    TagsCons(t, rest);
    AtBoth(d, o, EncodeTag(t), EncodeTags(rest), EncodeTags([t] + rest));
    Slices(es, i, k, j);
  }

  lemma {:induction false} TagJoin(d: seq<byte>, es: seq<Event>, i: nat, j: nat, o: nat, t: Tag, h: Shape)
    requires i < j <= |es| && es[i] == Start(KindOf(h), t.name)
    requires es[i + 1..j] == Inner(t.name, t.payload) + [End(KindOf(h), t.name)]
    requires HasShape(t.payload, h) && |t.name| < 0x8000
    requires At(d, o, [KindOf(h)] + BE(2, |t.name|) + t.name + ShapeBytes(h))
    requires At(d, o + 3 + |t.name| + |ShapeBytes(h)|, Body(t.payload))
    ensures WFTag(t) && StrictTag(t) && es[i..j] == TagEvents(t)
    ensures At(d, o, EncodeTag(t)) && |EncodeTag(t)| == 3 + |t.name| + |ShapeBytes(h)| + |Body(t.payload)|
  {
    TagParts(d, o, t, h);
    StartFirst(es, i, j);
    ShapeEvents(t, h);
  }

  lemma {:induction false} StartFirst(es: seq<Event>, i: nat, j: nat)
    requires i < j <= |es|
    ensures es[i..j] == [es[i]] + es[i + 1..j]
  {
  }

  lemma {:induction false} ItemParts(d: seq<byte>, o: nat, x: Payload, h: Shape)
    requires HasShape(x, h) && At(d, o, ShapeBytes(h)) && At(d, o + |ShapeBytes(h)|, Body(x))
    ensures At(d, o, Encode(x)) && |Encode(x)| == |ShapeBytes(h)| + |Body(x)|
  {
    AtConcat(d, o, Header(x), Body(x));
  }

  lemma {:induction false} TagParts(d: seq<byte>, o: nat, t: Tag, h: Shape)
    requires HasShape(t.payload, h)
    requires At(d, o, [KindOf(h)] + BE(2, |t.name|) + t.name + ShapeBytes(h))
    requires At(d, o + 3 + |t.name| + |ShapeBytes(h)|, Body(t.payload))
    ensures At(d, o, EncodeTag(t)) && |EncodeTag(t)| == 3 + |t.name| + |ShapeBytes(h)| + |Body(t.payload)|
  {
    var p := t.payload;
    HeaderThenBody(d, o, TagHeader(t), Header(p), Body(p));
  }

  lemma {:induction false} HeaderThenBody(d: seq<byte>, o: nat, a: seq<byte>, b: seq<byte>, c: seq<byte>)
    requires At(d, o, a + b) && At(d, o + |a| + |b|, c)
    ensures At(d, o, a + (b + c))
  {
    AtConcat(d, o, a, b);
    AtConcat(d, o + |a|, b, c);
    AtConcat(d, o, a, b + c);
  }

  lemma {:induction false} EndLast(es: seq<Event>, i: nat, k: nat)
    requires i <= k < |es|
    ensures es[i..k + 1] == es[i..k] + [es[k]]
  {
  }

  lemma {:induction false} CompoundParts(d: seq<byte>, o: nat, tags: seq<Tag>)
    requires WFTags(tags) && StrictTags(tags) && At(d, o, EncodeTags(tags))
    requires At(d, o + |EncodeTags(tags)|, [TAG_END])
    ensures var p := Compound(tags);
            && HasShape(p, Plain(TAG_COMPOUND)) && At(d, o, Body(p)) && |Body(p)| == |EncodeTags(tags)| + 1
  {
    AtConcat(d, o, EncodeTags(tags), [TAG_END]);
  }

  lemma {:induction false} CompoundBack(d: seq<byte>, ss: seq<State>, es: seq<Event>, i: nat, o: nat, base: Stacks,
                                        name: seq<byte>)
    returns (j: nat, p: Payload)
    requires TidyPath(d, ss, es) && i <= |es|
    requires Open(ss[i], o, OpenedAs(base, name, Plain(TAG_COMPOUND)))
    requires Deeper(ss, OpenedAs(base, name, Plain(TAG_COMPOUND)))
    ensures i < j <= |es| && HasShape(p, Plain(TAG_COMPOUND)) && At(d, o, Body(p)) && Gap(ss[j], o + |Body(p)|, base)
    ensures es[i..j] == Inner(name, p) + [End(TAG_COMPOUND, name)]
    decreases |es| - i, 0, 2
  {
    var st := OpenedAs(base, name, Plain(TAG_COMPOUND));
    var k, tags := TagsBack(d, ss, es, i, o, st);
    p := Compound(tags);
    assert TidyAt(d, ss, es, k);
    CompoundEndBack(d, ss[k], es[k], ss[k + 1], o + |EncodeTags(tags)|, base, name);
    CompoundParts(d, o, tags);
    j := k + 1;
    EndLast(es, i, k);
  }

  /** The children of a compound, before its closing byte. */
  lemma {:induction false} TagsBack(d: seq<byte>, ss: seq<State>, es: seq<Event>, i: nat, o: nat, st: Stacks)
    returns (j: nat, tags: seq<Tag>)
    requires TidyPath(d, ss, es) && i <= |es| && Ready(ss[i], o, st) && Deeper(ss, st)
    ensures i <= j < |es| && !es[j].Start?
    ensures WFTags(tags) && StrictTags(tags) && At(d, o, EncodeTags(tags)) && es[i..j] == TagsEvents(tags)
    ensures Ready(ss[j], o + |EncodeTags(tags)|, st)
    decreases |es| - i, 0, 1
  {
    GoesOn(d, ss, es, i, st);
    if es[i].Start? {
      var k, t := TagBack(d, ss, es, i, o, st);
      var rest;
      j, rest := TagsBack(d, ss, es, k, o + |EncodeTag(t)|, st);
      tags := [t] + rest;
      TagsJoin(d, es, i, k, j, o, t, rest);
    } else {
      j, tags := i, [];
    }
  }

  lemma {:induction false} TagOpens(d: seq<byte>, ss: seq<State>, es: seq<Event>, i: nat, o: nat, base: Stacks)
    returns (h: Shape, name: seq<byte>)
    requires TidyPath(d, ss, es) && i < |es| && Ready(ss[i], o, base) && es[i].Start?
    ensures GoodShape(h) && |name| < 0x8000 && es[i] == Start(KindOf(h), name)
    ensures At(d, o, [KindOf(h)] + BE(2, |name|) + name + ShapeBytes(h))
    ensures Open(ss[i + 1], o + 3 + |name| + |ShapeBytes(h)|, OpenedAs(base, name, h))
  {
    assert TidyAt(d, ss, es, i);
    h, name := StartBack(d, ss[i], es[i], ss[i + 1], o, base);
  }

  lemma {:induction false} TagBack(d: seq<byte>, ss: seq<State>, es: seq<Event>, i: nat, o: nat, base: Stacks)
    returns (j: nat, t: Tag)
    requires TidyPath(d, ss, es) && i < |es| && Ready(ss[i], o, base) && es[i].Start?
    requires ss[|es|].stacks.types.Depth() <= base.types.Depth()
    ensures i < j <= |es| && WFTag(t) && StrictTag(t) && At(d, o, EncodeTag(t)) && es[i..j] == TagEvents(t)
    ensures Gap(ss[j], o + |EncodeTag(t)|, base)
    decreases |es| - i, 0, 0
  {
    var h, name := TagOpens(d, ss, es, i, o, base);
    var p;
    j, p := BodyBack(d, ss, es, i + 1, o + 3 + |name| + |ShapeBytes(h)|, base, name, h);
    t := Tag(name, p);
    TagJoin(d, es, i, j, o, t, h);
  }

  lemma {:induction false} RootsBack(d: seq<byte>, ss: seq<State>, es: seq<Event>, i: nat, o: nat)
    returns (ts: seq<Tag>)
    requires TidyPath(d, ss, es) && i <= |es| && Gap(ss[i], o, NO_STACKS) && ss[|es|].stacks.types.Empty?
    requires o <= |d|
    ensures WFTags(ts) && StrictTags(ts) && At(d, o, EncodeTags(ts)) && es[i..] == TagsEvents(ts)
    ensures ss[|es|].offset == o + |EncodeTags(ts)|
    decreases |es| - i
  {
    if i == |es| {
      ts := [];
    } else {
      RootStarts(d, ss, es, i, o);
      var j, t := TagBack(d, ss, es, i, o, NO_STACKS);
      var rest := RootsBack(d, ss, es, j, o + |EncodeTag(t)|);
      ts := [t] + rest;
      ToTheEnd(es, i);
      ToTheEnd(es, j);
      TagsJoin(d, es, i, j, |es|, o, t, rest);
    }
  }

  lemma {:induction false} RootStarts(d: seq<byte>, ss: seq<State>, es: seq<Event>, i: nat, o: nat)
    requires TidyPath(d, ss, es) && i < |es| && Gap(ss[i], o, NO_STACKS)
    ensures es[i].Start?
  {
    assert TidyAt(d, ss, es, i);
    RootStartBack(d, ss[i], es[i], ss[i + 1], o);
  }

  lemma {:induction false} ToTheEnd(es: seq<Event>, i: nat)
    requires i <= |es|
    ensures es[i..] == es[i..|es|]
  {
  }

  // ----- main result

  /** From a run back to trees: a run from the start that ends with every tag closed
      and meets no End list expecting elements, no unknown id, no negative count and
      no end of the buffer, reports the flattening of some tags within the limits,
      and the bytes it consumed are exactly their encodings. */
  lemma {:induction false} RunSound(d: seq<byte>, ss: seq<State>, es: seq<Event>) returns (ts: seq<Tag>)
    requires TidyPath(d, ss, es) && ss[0] == INITIAL && ss[|es|].stacks.types.Empty?
    ensures WFTags(ts) && StrictTags(ts) && InLimitsTags(ts) && es == TagsEvents(ts)
    ensures ss[|es|].offset == |EncodeTags(ts)| <= |d| && d[..ss[|es|].offset] == EncodeTags(ts)
    ensures Runs(d, INITIAL, TagsEvents(ts), ss[|es|])
  {
    TidyPathRuns(d, ss, es);
    ts := RootsBack(d, ss, es, 0, 0);
    assert es[0..] == es;
    StrictTagsWithin(ts);
  }
}
