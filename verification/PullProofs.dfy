/** On the encoding of a tree within its limits, the pull reader emits exactly
    the tree's flattening. */
module PullProofs {
  import opened Bytes
  import opened Tags
  import opened PullMachine

  /** What the signed 16-bit and 32-bit length fields can carry, plus the one
      family whose END forgets to pop: End lists of positive signed count. */
  ghost predicate InLimits(p: Payload)
    decreases p, 1
  {
    match p
    case Array(_, vs) => |vs| < 0x8000_0000
    case Str(cs) => |cs| < 0x8000
    case List(elem, items) =>
      if elem == TAG_END then |items| == 0 || |items| >= 0x8000_0000
      else |items| < 0x8000_0000 && InLimitsItems(items)
    case Compound(tags) => InLimitsTags(tags)
    case _ => true
  }

  ghost predicate InLimitsItems(items: seq<Payload>)
    decreases items, 0
  {
    items == [] || (InLimits(items[0]) && InLimitsItems(items[1..]))
  }

  ghost predicate InLimitsTag(t: Tag)
    decreases t, 0
  {
    |t.name| < 0x8000 && InLimits(t.payload)
  }

  ghost predicate InLimitsTags(tags: seq<Tag>)
    decreases tags, 0
  {
    tags == [] || (InLimitsTag(tags[0]) && InLimitsTags(tags[1..]))
  }

  // ----- shapes of states

  /** The count field as the reader sees it: signed. */
  function SignedCount(n: nat): int {
    Unraw(TAG_INT, n)
  }

  /** The stacks just after the START of `p` over `base`. */
  function Opened(base: Stacks, name: seq<byte>, p: Payload): Stacks {
    var st := base.(types := Push(TypeOf(p), base.types), names := Push(name, base.names));
    match p
    case Array(_, vs) =>
      st.(indices := Push(0, st.indices), lengths := Push(SignedCount(|vs|), st.lengths))
    case List(elem, items) =>
      st.(indices := Push(0, st.indices), lengths := Push(SignedCount(|items|), st.lengths),
          payloadTypes := Push(elem, st.payloadTypes))
    case _ => st
  }

  ghost predicate Open(s: State, o: nat, st: Stacks) {
    s.offset == o && s.stacks == st && !s.tagEnded && !s.endEmitted
  }

  /** Between tags: an END has just been reported. */
  ghost predicate Gap(s: State, o: nat, st: Stacks) {
    s.offset == o && s.stacks == st && s.tagEnded && s.endEmitted
  }

  /** The next call reads a tag header. */
  ghost predicate Ready(s: State, o: nat, st: Stacks) {
    || (Gap(s, o, st) && (st.types.Empty? || st.types.top != TAG_LIST))
    || (Open(s, o, st) && st.types.Push? && st.types.top == TAG_COMPOUND)
  }

  /** The next call reads a list element or the list's end. */
  ghost predicate InList(s: State, o: nat, st: Stacks) {
    (Gap(s, o, st) || Open(s, o, st)) && st.types.Push? && st.types.top == TAG_LIST
  }

  /** Bump the index of the innermost counted tag. */
  function Bumped(st: Stacks, n: nat): Stacks
    requires st.indices.Push?
  {
    st.(indices := Push(st.indices.top + n, st.indices.below))
  }

  // ----- single calls

  lemma ReadCount(d: seq<byte>, o: nat, n: nat)
    requires n < 0x1_0000_0000 && At(d, o, BE(4, n))
    ensures o + 4 <= |d| && ReadNumber(TAG_INT, d[o..o + 4]) == SignedCount(n)
  {
    PowValues();
    ValOfBE(4, n);
  }

  lemma CountIsSelf(n: nat)
    requires n < 0x8000_0000
    ensures SignedCount(n) == n
  {
    PowValues();
  }

  lemma CountWraps(n: nat)
    requires 0x8000_0000 <= n < 0x1_0000_0000
    ensures SignedCount(n) < 0
  {
    PowValues();
  }

  lemma ReadLength(d: seq<byte>, o: nat, n: nat)
    requires n < 0x1_0000 && At(d, o, BE(2, n))
    ensures o + 2 <= |d|
    ensures ReadNumber(TAG_SHORT, d[o..o + 2]) == if n < 0x8000 then n else n - 0x1_0000
  {
    PowValues();
    ValOfBE(2, n);
  }

  lemma HeaderRun(d: seq<byte>, s: State, p: Payload)
    requires WF(p) && At(d, s.offset, Header(p))
    ensures KindHeader(d, s, TypeOf(p)).Went?
    ensures var st := s.stacks.(types := Push(TypeOf(p), s.stacks.types), names := Push([], s.stacks.names));
            KindHeader(d, s, TypeOf(p)).s ==
              s.(offset := s.offset + |Header(p)|,
                 stacks := Opened(s.stacks, [], p).(types := s.stacks.types, names := s.stacks.names))
  {
    match p
    case Array(kind, vs) =>
      ReadCount(d, s.offset, |vs|);
    case List(elem, items) =>
      AtConcat(d, s.offset, [elem], BE(4, |items|));
      assert d[s.offset] == d[s.offset..s.offset + 1][0] == elem;
      ReadCount(d, s.offset + 1, |items|);
    case _ =>
  }

  lemma TagHeaderRead(d: seq<byte>, o: nat, t: Tag)
    requires |t.name| < 0x1_0000 && At(d, o, TagHeader(t))
    ensures var n := |t.name|;
            && o + 3 + n <= |d| && d[o] == TypeOf(t.payload)
            && ReadNumber(TAG_SHORT, d[o + 1..o + 3]) == (if n < 0x8000 then n else n - 0x1_0000)
            && d[o + 3..o + 3 + n] == t.name
  {
    var kind, n := TypeOf(t.payload), |t.name|;
    AtConcat(d, o, [kind] + BE(2, n), t.name);
    AtConcat(d, o, [kind], BE(2, n));
    assert d[o] == d[o..o + 1][0] == kind;
    ReadLength(d, o + 1, n);
  }

  /** The header of a named tag. */
  lemma HeaderStart(d: seq<byte>, s: State, t: Tag)
    requires WFTag(t) && |t.name| < 0x8000 && !s.endEmitted
    requires At(d, s.offset, TagHeader(t) + Header(t.payload)) && s.offset + |TagHeader(t)| < |d|
    ensures var r := TagHeaderStep(d, s);
            && r.Went?
            && Open(r.s, s.offset + |TagHeader(t) + Header(t.payload)|, Opened(s.stacks, t.name, t.payload))
            && r.s.current == TagStart
  {
    var o, kind, n := s.offset, TypeOf(t.payload), |t.name|;
    AtConcat(d, o, TagHeader(t), Header(t.payload));
    TagHeaderRead(d, o, t);
    PayloadNonEmpty(t.payload);
    HeaderRun(d, NameRead(s, kind, t.name), t.payload);
    HeaderDecoded(d, s, kind, t.name);
  }

  /** The state in which a tag's kind and name have been pushed. */
  function NameRead(s: State, kind: TagId, name: seq<byte>): State {
    s.(offset := s.offset + 3 + |name|,
       stacks := s.stacks.(types := Push(kind, s.stacks.types), names := Push(name, s.stacks.names)))
  }

  lemma HeaderDecoded(d: seq<byte>, s: State, kind: TagId, name: seq<byte>)
    requires kind != TAG_END && s.offset + 3 + |name| < |d| && d[s.offset] == kind
    requires ReadNumber(TAG_SHORT, d[s.offset + 1..s.offset + 3]) == |name|
    requires d[s.offset + 3..s.offset + 3 + |name|] == name
    requires KindHeader(d, NameRead(s, kind, name), kind).Went?
    ensures TagHeaderStep(d, s) ==
            Went(KindHeader(d, NameRead(s, kind, name), kind).s.(tagEnded := false, current := TagStart))
  {
  }

  /** START of a named tag. */
  lemma NamedStart(d: seq<byte>, s: State, o: nat, base: Stacks, t: Tag) returns (u: State)
    requires WFTag(t) && |t.name| < 0x8000 && Ready(s, o, base)
    requires At(d, o, TagHeader(t) + Header(t.payload)) && o + |TagHeader(t)| < |d|
    ensures Runs(d, s, [Start(TypeOf(t.payload), t.name)], u)
    ensures Open(u, o + |TagHeader(t) + Header(t.payload)|, Opened(base, t.name, t.payload))
  {
    var s1 := s.(tagEnded := false, endEmitted := false);
    HeaderStart(d, s1, t);
    assert Next(d, s) == TagHeaderStep(d, s1);
    u := Next(d, s).s;
    RunsOne(d, s, Start(TypeOf(t.payload), t.name), u);
  }

  /** The reader is in a list of the given type with an element to come. */
  ghost predicate ElementDue(s: State, o: nat, st: Stacks, elem: TagId) {
    && InList(s, o, st)
    && st.indices.Push? && st.lengths.Push? && st.indices.top < st.lengths.top
    && st.payloadTypes.Push? && st.payloadTypes.top == elem
  }

  /** START of a list element. */
  lemma ItemStart(d: seq<byte>, s: State, o: nat, st: Stacks, p: Payload) returns (u: State)
    requires WF(p) && p != Null && ElementDue(s, o, st, TypeOf(p)) && o < |d| && At(d, o, Header(p))
    ensures Runs(d, s, [Start(TypeOf(p), [])], u)
    ensures Open(u, o + |Header(p)|, Opened(Bumped(st, 1), [], p))
  {
    PayloadNonEmpty(p);
    var s1 := ElementPushed(s, st, TypeOf(p));
    HeaderRun(d, s1, p);
    ElementCall(d, s, o, st, TypeOf(p));
    u := KindHeader(d, s1, TypeOf(p)).s.(current := TagStart);
    RunsOne(d, s, Start(TypeOf(p), []), u);
  }

  /** The state in which a list's next element has been counted and pushed. */
  function ElementPushed(s: State, st: Stacks, elem: TagId): State
    requires st.indices.Push?
  {
    var st1 := Bumped(st, 1);
    s.(tagEnded := false, endEmitted := false,
       stacks := st1.(types := Push(elem, st1.types), names := Push([], st1.names)))
  }

  lemma {:induction false} ElementCall(d: seq<byte>, s: State, o: nat, st: Stacks, elem: TagId)
    requires ElementDue(s, o, st, elem) && elem != TAG_END && o < |d|
    requires KindHeader(d, ElementPushed(s, st, elem), elem).Went?
    ensures Next(d, s) == Went(KindHeader(d, ElementPushed(s, st, elem), elem).s.(current := TagStart))
  {
  }

  /** END of a list whose elements are all read. */
  lemma ListEnd(d: seq<byte>, s: State, o: nat, base: Stacks, name: seq<byte>, i: int, n: int, elem: TagId)
    returns (u: State)
    requires o < |d| && i >= n
    requires InList(s, o, Stacks(Push(i, base.indices), Push(n, base.lengths), Push(TAG_LIST, base.types),
                                 Push(elem, base.payloadTypes), Push(name, base.names)))
    ensures Runs(d, s, [End(TAG_LIST, name)], u) && Gap(u, o, base)
  {
    u := Next(d, s).s;
    RunsOne(d, s, End(TAG_LIST, name), u);
  }

  /** END of a compound: the closing byte. */
  lemma CompoundEnd(d: seq<byte>, s: State, o: nat, base: Stacks, name: seq<byte>) returns (u: State)
    requires Ready(s, o, base.(types := Push(TAG_COMPOUND, base.types), names := Push(name, base.names)))
    requires At(d, o, [TAG_END])
    ensures Runs(d, s, [End(TAG_COMPOUND, name)], u) && Gap(u, o + 1, base)
  {
    assert d[o] == d[o..o + 1][0];
    u := Next(d, s).s;
    RunsOne(d, s, End(TAG_COMPOUND, name), u);
  }

  // ----- whole tags

  /** A single datum has been read and its END is due. */
  ghost predicate EndDue(s: State, o: nat, base: Stacks, name: seq<byte>, kind: TagId) {
    && s.offset == o && s.tagEnded && !s.endEmitted
    && s.stacks == base.(types := Push(kind, base.types), names := Push(name, base.names))
  }

  lemma DatumEnd(d: seq<byte>, s: State, o: nat, base: Stacks, name: seq<byte>, kind: TagId) returns (u: State)
    requires EndDue(s, o, base, name, kind) && o < |d|
    ensures Runs(d, s, [End(kind, name)], u) && Gap(u, o, base)
  {
    u := Next(d, s).s;
    RunsOne(d, s, End(kind, name), u);
  }

  lemma ScalarRun(d: seq<byte>, s: State, o: nat, base: Stacks, name: seq<byte>, kind: TagId, v: int)
    returns (u: State)
    requires IsScalarKind(kind) && InRange(kind, v) && At(d, o, Number(kind, v))
    requires Open(s, o, Opened(base, name, Scalar(kind, v)))
    ensures Runs(d, s, [Data(kind, name, Num(v))], u)
    ensures EndDue(u, o + Width(kind), base, name, kind)
  {
    ReadOfNumber(kind, v);
    u := Next(d, s).s;
    RunsOne(d, s, Data(kind, name, Num(v)), u);
  }

  /** A length and characters, as the reader decodes them. */
  ghost predicate StrHeld(d: seq<byte>, o: nat, cs: seq<byte>) {
    && o + 2 + |cs| <= |d|
    && ReadNumber(TAG_SHORT, d[o..o + 2]) == |cs|
    && d[o + 2..o + 2 + |cs|] == cs
  }

  lemma StrDecoded(d: seq<byte>, o: nat, cs: seq<byte>)
    requires |cs| < 0x8000 && At(d, o, Body(Str(cs)))
    ensures StrHeld(d, o, cs)
  {
    AtConcat(d, o, BE(2, |cs|), cs);
    ReadLength(d, o, |cs|);
  }

  lemma StrRun(d: seq<byte>, s: State, o: nat, base: Stacks, name: seq<byte>, cs: seq<byte>) returns (u: State)
    requires StrHeld(d, o, cs)
    requires Open(s, o, Opened(base, name, Str(cs)))
    ensures Runs(d, s, [Data(TAG_STRING, name, Text(cs))], u)
    ensures EndDue(u, o + 2 + |cs|, base, name, TAG_STRING)
  {
    assert Next(d, s) == StringStep(d, s);
    u := Next(d, s).s;
    RunsOne(d, s, Data(TAG_STRING, name, Text(cs)), u);
  }

  /** Cells of an array are due: the open tag is an array with room left. */
  ghost predicate InArray(s: State, o: nat, st: Stacks, kind: TagId, name: seq<byte>, left: nat) {
    && Open(s, o, st) && IsArrayKind(kind)
    && st.types.Push? && st.types.top == kind
    && st.names.Push? && st.names.top == name
    && st.indices.Push? && st.lengths.Push? && st.indices.top + left == st.lengths.top
  }

  /** One cell of an array. */
  lemma CellStep(d: seq<byte>, s: State, o: nat, st: Stacks, kind: TagId, name: seq<byte>, left: nat, v: int)
    returns (u: State)
    requires InArray(s, o, st, kind, name, left) && left > 0
    requires InRange(CellKind(kind), v) && At(d, o, Number(CellKind(kind), v))
    ensures Runs(d, s, [Data(kind, name, Num(v))], u)
    ensures InArray(u, o + Width(CellKind(kind)), Bumped(st, 1), kind, name, left - 1)
  {
    ReadOfNumber(CellKind(kind), v);
    u := Next(d, s).s;
    RunsOne(d, s, Data(kind, name, Num(v)), u);
  }

  lemma CellsSplit(d: seq<byte>, o: nat, cell: TagId, vs: seq<int>)
    requires vs != [] && At(d, o, Numbers(cell, vs))
    ensures At(d, o, Number(cell, vs[0])) && At(d, o + Width(cell), Numbers(cell, vs[1..]))
    ensures |Numbers(cell, vs)| == Width(cell) + |Numbers(cell, vs[1..])|
  {
    AtConcat(d, o, Number(cell, vs[0]), Numbers(cell, vs[1..]));
  }

  lemma {:induction false} CellsGlue(kind: TagId, name: seq<byte>, vs: seq<int>, st: Stacks)
    requires vs != [] && st.indices.Push?
    ensures DataEvents(kind, name, vs) == [Data(kind, name, Num(vs[0]))] + DataEvents(kind, name, vs[1..])
    ensures Bumped(Bumped(st, 1), |vs[1..]|) == Bumped(st, |vs|)
  {
  }

  /** The cells of an array, which may reach the end of the buffer. */
  lemma {:induction false} CellsRun(d: seq<byte>, s: State, o: nat, st: Stacks, kind: TagId, name: seq<byte>,
                                    vs: seq<int>) returns (u: State)
    requires InArray(s, o, st, kind, name, |vs|)
    requires AllInRange(CellKind(kind), vs)
    requires At(d, o, Numbers(CellKind(kind), vs))
    ensures Runs(d, s, DataEvents(kind, name, vs), u)
    ensures Open(u, o + |Numbers(CellKind(kind), vs)|, Bumped(st, |vs|))
    decreases |vs|
  {
    if vs == [] {
      u := s;
      RunsNone(d, s);
    } else {
      var v, rest := vs[0], vs[1..];
      CellsSplit(d, o, CellKind(kind), vs);
      var t := CellStep(d, s, o, st, kind, name, |vs|, v);
      u := CellsRun(d, t, o + Width(CellKind(kind)), Bumped(st, 1), kind, name, rest);
      CellsGlue(kind, name, vs, st);
      RunsJoin(d, s, [Data(kind, name, Num(v))], t, DataEvents(kind, name, rest), u);
    }
  }

  /** END of an array whose cells are all read. */
  lemma ArrayEnd(d: seq<byte>, s: State, o: nat, base: Stacks, name: seq<byte>, kind: TagId, i: int, n: int)
    returns (u: State)
    requires IsArrayKind(kind) && o < |d| && i >= n
    requires Open(s, o, base.(types := Push(kind, base.types), names := Push(name, base.names),
                              indices := Push(i, base.indices), lengths := Push(n, base.lengths)))
    ensures Runs(d, s, [End(kind, name)], u) && Gap(u, o, base)
  {
    u := Next(d, s).s;
    RunsOne(d, s, End(kind, name), u);
  }

  lemma ArrayRun(d: seq<byte>, s: State, o: nat, base: Stacks, name: seq<byte>, p: Payload)
    returns (m: State, u: State)
    requires p.Array? && WF(p) && InLimits(p)
    requires Open(s, o, Opened(base, name, p)) && At(d, o, Body(p)) && o + |Body(p)| < |d|
    ensures Runs(d, s, DataEvents(p.kind, name, p.values), m)
    ensures Runs(d, m, [End(p.kind, name)], u) && Gap(u, o + |Body(p)|, base)
  {
    var n := |p.values|;
    CountIsSelf(n);
    m := CellsRun(d, s, o, Opened(base, name, p), p.kind, name, p.values);
    u := ArrayEnd(d, m, o + |Body(p)|, base, name, p.kind, n, n);
  }

  lemma {:induction false} ListRun(d: seq<byte>, s: State, o: nat, base: Stacks, name: seq<byte>, p: Payload)
    returns (m: State, u: State)
    requires p.List? && WF(p) && InLimits(p)
    requires Open(s, o, Opened(base, name, p)) && At(d, o, Body(p)) && o + |Body(p)| < |d|
    ensures Runs(d, s, ItemEvents(p.items), m)
    ensures Runs(d, m, [End(TAG_LIST, name)], u) && Gap(u, o + |Body(p)|, base)
    decreases p.items, 1
  {
    var List(elem, items) := p;
    if elem == TAG_END {
      m := s;
      u := EndListRun(d, s, o, base, name, items);
    } else {
      ListOpened(s, o, base, name, p);
      m := ItemsRun(d, s, o, Opened(base, name, p), items);
      u := ListClosed(d, m, o + |EncodeItems(items)|, base, name, p);
    }
  }

  /** An End list that is empty or counts as negative. */
  lemma {:induction false} EndListRun(d: seq<byte>, s: State, o: nat, base: Stacks, name: seq<byte>,
                                      items: seq<Payload>) returns (u: State)
    requires var p := List(TAG_END, items); WF(p) && InLimits(p) && Open(s, o, Opened(base, name, p))
    requires o < |d|
    ensures ItemEvents(items) == [] && EncodeItems(items) == [] && Runs(d, s, [], s)
    ensures Runs(d, s, [End(TAG_LIST, name)], u) && Gap(u, o, base)
  {
    NullItems(items);
    if items != [] { CountWraps(|items|); } else { CountIsSelf(0); }
    RunsNone(d, s);
    u := ListEnd(d, s, o, base, name, 0, SignedCount(|items|), TAG_END);
  }

  lemma {:induction false} ListOpened(s: State, o: nat, base: Stacks, name: seq<byte>, p: Payload)
    requires p.List? && p.elem != TAG_END && WF(p) && |p.items| < 0x8000_0000
    requires Open(s, o, Opened(base, name, p))
    ensures Expects(s, o, Opened(base, name, p), p.items)
  {
    CountIsSelf(|p.items|);
  }

  lemma {:induction false} ListClosed(d: seq<byte>, s: State, o: nat, base: Stacks, name: seq<byte>, p: Payload)
    returns (u: State)
    requires p.List? && |p.items| < 0x8000_0000 && o < |d|
    requires InList(s, o, Bumped(Opened(base, name, p), |p.items|))
    ensures Runs(d, s, [End(TAG_LIST, name)], u) && Gap(u, o, base)
  {
    var n := |p.items|;
    CountIsSelf(n);
    u := ListEnd(d, s, o, base, name, n, n, p.elem);
  }

  /** Contents and END of a tag already opened, with something after it unless
      it is a compound: the contents' events lead to `m`, the END to `u`. */
  lemma {:induction false} BodyRun(d: seq<byte>, s: State, o: nat, base: Stacks, name: seq<byte>, p: Payload)
    returns (m: State, u: State)
    requires WF(p) && InLimits(p) && p != Null
    requires Open(s, o, Opened(base, name, p)) && At(d, o, Body(p))
    requires o + |Body(p)| + (if p.Compound? then 0 else 1) <= |d|
    ensures Runs(d, s, Inner(name, p), m)
    ensures Runs(d, m, [End(TypeOf(p), name)], u) && Gap(u, o + |Body(p)|, base)
    decreases p, 0
  {
    match p
    case Scalar(kind, v) =>
      m := ScalarRun(d, s, o, base, name, kind, v);
      u := DatumEnd(d, m, o + |Body(p)|, base, name, kind);
    case Str(cs) =>
      StrDecoded(d, o, cs);
      m := StrRun(d, s, o, base, name, cs);
      u := DatumEnd(d, m, o + |Body(p)|, base, name, TAG_STRING);
    case Array(kind, vs) =>
      m, u := ArrayRun(d, s, o, base, name, p);
    case List(elem, items) =>
      m, u := ListRun(d, s, o, base, name, p);
    case Compound(tags) =>
      m := TagsRun(d, s, o, Opened(base, name, p), tags);
      AtConcat(d, o, EncodeTags(tags), [TAG_END]);
      u := CompoundEnd(d, m, o + |EncodeTags(tags)|, base, name);
  }

  lemma OnlyNull(p: Payload)
    requires WF(p)
    ensures TypeOf(p) == TAG_END ==> p == Null
  {
  }

  lemma {:induction false} NullItems(items: seq<Payload>)
    requires WFItems(TAG_END, items)
    ensures EncodeItems(items) == [] && ItemEvents(items) == []
  {
    if items != [] {
      OnlyNull(items[0]);
      NullItems(items[1..]);
    }
  }

  lemma {:induction false} ItemsSplit(d: seq<byte>, o: nat, items: seq<Payload>)
    requires items != [] && At(d, o, EncodeItems(items))
    ensures At(d, o, Encode(items[0])) && At(d, o + |Encode(items[0])|, EncodeItems(items[1..]))
    ensures |EncodeItems(items)| == |Encode(items[0])| + |EncodeItems(items[1..])|
  {
    AtConcat(d, o, Encode(items[0]), EncodeItems(items[1..]));
  }

  /** The reader is in a list with exactly `items` still to come. */
  ghost predicate Expects(s: State, o: nat, st: Stacks, items: seq<Payload>) {
    && InList(s, o, st)
    && st.indices.Push? && st.lengths.Push? && st.indices.top + |items| == st.lengths.top
    && st.payloadTypes.Push? && st.payloadTypes.top != TAG_END
    && WFItems(st.payloadTypes.top, items)
  }

  /** The remaining elements of a list, with something after them. */
  lemma {:induction false} ItemsRun(d: seq<byte>, s: State, o: nat, st: Stacks, items: seq<Payload>)
    returns (u: State)
    requires Expects(s, o, st, items) && InLimitsItems(items)
    requires At(d, o, EncodeItems(items)) && o + |EncodeItems(items)| < |d|
    ensures Runs(d, s, ItemEvents(items), u)
    ensures InList(u, o + |EncodeItems(items)|, Bumped(st, |items|))
    decreases items, 0
  {
    if items == [] {
      u := s;
      RunsNone(d, s);
    } else {
      var x, rest := items[0], items[1..];
      ItemsSplit(d, o, items);
      var t := ItemRun(d, s, o, st, x);
      u := ItemsRun(d, t, o + |Encode(x)|, Bumped(st, 1), rest);
      ItemsGlue(items, st);
      RunsJoin(d, s, Events([], x), t, ItemEvents(rest), u);
    }
  }

  lemma {:induction false} ItemsGlue(items: seq<Payload>, st: Stacks)
    requires items != [] && st.indices.Push?
    ensures ItemEvents(items) == Events([], items[0]) + ItemEvents(items[1..])
    ensures EncodeItems(items) == Encode(items[0]) + EncodeItems(items[1..])
    ensures Bumped(Bumped(st, 1), |items[1..]|) == Bumped(st, |items|)
  {
  }

  lemma {:induction false} ItemRun(d: seq<byte>, s: State, o: nat, st: Stacks, x: Payload) returns (u: State)
    requires WF(x) && InLimits(x) && x != Null && ElementDue(s, o, st, TypeOf(x))
    requires At(d, o, Encode(x)) && o + |Encode(x)| < |d|
    ensures Runs(d, s, Events([], x), u)
    ensures Gap(u, o + |Encode(x)|, Bumped(st, 1))
    decreases x, 2
  {
    AtConcat(d, o, Header(x), Body(x));
    var t := ItemStart(d, s, o, st, x);
    var m;
    m, u := BodyRun(d, t, o + |Header(x)|, Bumped(st, 1), [], x);
    RunsTag(d, s, [], x, t, m, u);
  }

  /** START, contents and END make up a tag's events. */
  lemma RunsTag(d: seq<byte>, s: State, name: seq<byte>, p: Payload, t: State, m: State, u: State)
    requires p != Null && Runs(d, s, [Start(TypeOf(p), name)], t)
    requires Runs(d, t, Inner(name, p), m) && Runs(d, m, [End(TypeOf(p), name)], u)
    ensures Runs(d, s, Events(name, p), u)
  {
    RunsJoin(d, t, Inner(name, p), m, [End(TypeOf(p), name)], u);
    RunsJoin(d, s, [Start(TypeOf(p), name)], t, Inner(name, p) + [End(TypeOf(p), name)], u);
  }

  /** A named tag, with something after it unless it is a compound. */
  lemma {:induction false} TagRun(d: seq<byte>, s: State, o: nat, base: Stacks, t: Tag) returns (u: State)
    requires WFTag(t) && InLimitsTag(t) && Ready(s, o, base)
    requires At(d, o, EncodeTag(t))
    requires o + |EncodeTag(t)| + (if t.payload.Compound? then 0 else 1) <= |d|
    ensures Runs(d, s, TagEvents(t), u)
    ensures Gap(u, o + |EncodeTag(t)|, base)
    decreases t, 0
  {
    TagSplit(d, o, t);
    var v := NamedStart(d, s, o, base, t);
    var m;
    m, u := BodyRun(d, v, o + |TagHeader(t) + Header(t.payload)|, base, t.name, t.payload);
    RunsTag(d, s, t.name, t.payload, v, m, u);
  }

  lemma TagSplit(d: seq<byte>, o: nat, t: Tag)
    requires WFTag(t) && At(d, o, EncodeTag(t))
    ensures var h := TagHeader(t) + Header(t.payload);
            && At(d, o, h) && At(d, o + |h|, Body(t.payload))
            && |EncodeTag(t)| == |h| + |Body(t.payload)|
            && o + |TagHeader(t)| < |d|
  {
    var p := t.payload;
    PayloadNonEmpty(p);
    assert EncodeTag(t) == (TagHeader(t) + Header(p)) + Body(p);
    AtConcat(d, o, TagHeader(t) + Header(p), Body(p));
  }

  lemma TagsSplit(d: seq<byte>, o: nat, tags: seq<Tag>)
    requires tags != [] && At(d, o, EncodeTags(tags) + [TAG_END])
    ensures At(d, o, EncodeTag(tags[0])) && At(d, o + |EncodeTag(tags[0])|, EncodeTags(tags[1..]) + [TAG_END])
    ensures |EncodeTags(tags)| == |EncodeTag(tags[0])| + |EncodeTags(tags[1..])|
  {
    TagsUnfold(tags);
    AtConcat(d, o, EncodeTag(tags[0]), EncodeTags(tags[1..]) + [TAG_END]);
  }

  /** The children of a compound, before its closing byte. */
  lemma {:induction false} TagsRun(d: seq<byte>, s: State, o: nat, st: Stacks, tags: seq<Tag>) returns (u: State)
    requires WFTags(tags) && InLimitsTags(tags)
    requires st.types.Push? && st.types.top == TAG_COMPOUND && Ready(s, o, st)
    requires At(d, o, EncodeTags(tags) + [TAG_END])
    ensures Runs(d, s, TagsEvents(tags), u)
    ensures Ready(u, o + |EncodeTags(tags)|, st)
    decreases tags, 0
  {
    if tags == [] {
      u := s;
      RunsNone(d, s);
    } else {
      var t, rest := tags[0], tags[1..];
      TagsSplit(d, o, tags);
      var v := TagRun(d, s, o, st, t);
      u := TagsRun(d, v, o + |EncodeTag(t)|, st, rest);
      RunsJoin(d, s, TagEvents(t), v, TagsEvents(rest), u);
    }
  }
}
