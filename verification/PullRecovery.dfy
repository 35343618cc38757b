/** From a whole run on any buffer back to the tags it is a part of, also when the
    end of the buffer has closed some of them. */
module PullRecovery {
  import opened Bytes
  import opened Tags
  import opened PullMachine
  import opened Wrappers
  import opened PullProofs
  import opened PullInvariant
  import opened PullSound
  import opened PullTruncation

  // ----- tidy runs

  /** Tidy calls that report `es` lead from `s` to `t`. */
  ghost predicate TidyRuns(d: seq<byte>, s: State, es: seq<Event>, t: State) {
    exists ss :: TidyPath(d, ss, es) && ss[0] == s && ss[|es|] == t
  }

  lemma {:induction false} TidyNone(d: seq<byte>, s: State)
    ensures TidyRuns(d, s, [], s)
  {
    assert TidyPath(d, [s], []);
  }

  /** A single call known from its run. */
  lemma {:induction false} TidyOne(d: seq<byte>, s: State, e: Event, t: State)
    requires Runs(d, s, [e], t) && s.offset < |d| && !EndListDue(s) && Sound(t.stacks)
    ensures TidyRuns(d, s, [e], t)
  {
    OneCall(d, s, e, t);
    var ss := [s, t];
    assert TidyAt(d, ss, [e], 0);
    assert TidyPath(d, ss, [e]);
  }

  lemma {:induction false} TidyJoin(d: seq<byte>, s: State, a: seq<Event>, m: State, b: seq<Event>, t: State)
    requires TidyRuns(d, s, a, m) && TidyRuns(d, m, b, t)
    ensures TidyRuns(d, s, a + b, t)
  {
    var ss :| TidyPath(d, ss, a) && ss[0] == s && ss[|a|] == m;
    var tt :| TidyPath(d, tt, b) && tt[0] == m && tt[|b|] == t;
    var all := ss + tt[1..];
    forall i: nat {:trigger TidyAt(d, all, a + b, i)} | i < |a + b| ensures TidyAt(d, all, a + b, i) {
      if i < |a| { assert TidyAt(d, ss, a, i); } else { assert TidyAt(d, tt, b, i - |a|); }
    }
    assert TidyPath(d, all, a + b);
  }

  /** On a longer buffer the same calls are tidy. */
  lemma {:induction false} TidyLonger(d: seq<byte>, k: nat, ss: seq<State>, es: seq<Event>)
    requires k <= |d| && TidyPath(d[..k], ss, es)
    ensures TidyPath(d, ss, es)
  {
    forall i: nat {:trigger TidyAt(d, ss, es, i)} | i < |es| ensures TidyAt(d, ss, es, i) {
      assert TidyAt(d[..k], ss, es, i);
      CutCall(d, k, ss[i]);
    }
  }

  // ----- what tidy calls keep

  ghost predicate Counts(lengths: Stack<int>) {
    lengths.Push? ==> lengths.top >= 0 && Counts(lengths.below)
  }

  /** Only the innermost list can be typed End: the others hold an open element. */
  ghost predicate ElemsFine(st: Stacks) {
    if st.types.Push? && st.types.top == TAG_LIST && st.payloadTypes.Push?
    then st.payloadTypes.top <= TAG_LONG_ARRAY && AllKnown(st.payloadTypes.below)
    else AllKnown(st.payloadTypes)
  }

  ghost predicate Steady(st: Stacks) {
    AllKnown(st.types) && Counts(st.lengths) && ElemsFine(st)
  }

  lemma {:induction false} SteadyByHeaderOf(d: seq<byte>, s: State, kind: TagId)
    requires KindHeader(d, s, kind).Went? && s.stacks.types.Push? && s.stacks.types.top == kind
    requires Counts(s.stacks.lengths) && AllKnown(s.stacks.payloadTypes) && Sound(KindHeader(d, s, kind).s.stacks)
    ensures Counts(KindHeader(d, s, kind).s.stacks.lengths) && ElemsFine(KindHeader(d, s, kind).s.stacks)
  {
  }

  /** Counts and element types after one call. */
  ghost predicate CountersSteady(t: State) {
    Counts(t.stacks.lengths) && ElemsFine(t.stacks)
  }

  lemma {:induction false} SteadyByHeader(d: seq<byte>, s: State)
    requires Steady(s.stacks) && (s.stacks.types.Empty? || s.stacks.types.top == TAG_COMPOUND)
    requires TagHeaderStep(d, s).Went? && Sound(TagHeaderStep(d, s).s.stacks)
    ensures CountersSteady(TagHeaderStep(d, s).s)
  {
    var kind := d[s.offset];
    if kind != TAG_END {
      var n := ReadNumber(TAG_SHORT, d[s.offset + 1..s.offset + 3]);
      var name := d[s.offset + 3..s.offset + 3 + n];
      HeaderDecoded(d, s, kind, name);
      SteadyByHeaderOf(d, NameRead(s, kind, name), kind);
    }
  }

  lemma {:induction false} SteadyByList(d: seq<byte>, s: State)
    requires Steady(s.stacks) && s.stacks.types.Push? && s.stacks.types.top == TAG_LIST && !EndListDue(s)
    requires !s.tagEnded && ListStep(d, s).Went? && Sound(ListStep(d, s).s.stacks)
    ensures CountersSteady(ListStep(d, s).s)
  {
    var st := s.stacks;
    if st.indices.top < st.lengths.top {
      var base, kind := Advanced(st), st.payloadTypes.top;
      SteadyByHeaderOf(d, s.(stacks := base.(types := Push(kind, base.types), names := Push([], base.names))), kind);
    }
  }

  lemma {:induction false} SteadyBySwitch(d: seq<byte>, s: State)
    requires Steady(s.stacks) && !EndListDue(s) && !s.tagEnded
    requires Switch(d, s).Went? && Sound(Switch(d, s).s.stacks)
    ensures CountersSteady(Switch(d, s).s)
  {
    var kind := s.stacks.types.top;
    if kind == TAG_COMPOUND { SteadyByHeader(d, s); }
    else if kind == TAG_LIST { SteadyByList(d, s); }
  }

  lemma {:induction false} SteadyNext(d: seq<byte>, s: State, e: Event, t: State)
    requires Aligned(d, s) && Steady(s.stacks) && Tidy(d, s, e, t)
    ensures Steady(t.stacks)
  {
    var s1 := s.(tagEnded := false, endEmitted := false);
    WorkDrops(d, s);
    if !s.tagEnded {
      SteadyBySwitch(d, s);
    } else if s.endEmitted {
      if s.stacks.types.Empty? || s.stacks.types.top != TAG_LIST {
        SteadyByHeader(d, s1);
      } else {
        SteadyBySwitch(d, s1);
      }
    }
  }

  /** The state a tidy run from the start has come to, on a buffer that goes on. */
  lemma {:induction false} TidyKeeps(d: seq<byte>, ss: seq<State>, es: seq<Event>)
    requires TidyPath(d, ss, es) && ss[0] == INITIAL
    ensures Aligned(d, ss[|es|]) && Matched(ss[|es|].stacks, 0) && Steady(ss[|es|].stacks)
    decreases |es|
  {
    var n := |es|;
    if n > 0 {
      TidyFront(d, ss, es);
      TidyKeeps(d, ss[..n], es[..n - 1]);
      assert ss[..n][n - 1] == ss[n - 1];
      TidyLink(d, ss, es, n - 1);
    }
  }

  lemma {:induction false} TidyLink(d: seq<byte>, ss: seq<State>, es: seq<Event>, i: nat)
    requires TidyPath(d, ss, es) && i < |es|
    requires Aligned(d, ss[i]) && Matched(ss[i].stacks, 0) && Steady(ss[i].stacks)
    ensures Aligned(d, ss[i + 1]) && Matched(ss[i + 1].stacks, 0) && Steady(ss[i + 1].stacks)
  {
    assert TidyAt(d, ss, es, i);
    MatchedStep(d, ss[i], es[i], ss[i + 1], 0);
    SteadyNext(d, ss[i], es[i], ss[i + 1]);
  }

  lemma {:induction false} TidyFront(d: seq<byte>, ss: seq<State>, es: seq<Event>)
    requires TidyPath(d, ss, es) && es != []
    ensures TidyPath(d, ss[..|es|], es[..|es| - 1])
  {
    var n := |es|;
    forall i: nat {:trigger TidyAt(d, ss[..n], es[..n - 1], i)} | i < n - 1
      ensures TidyAt(d, ss[..n], es[..n - 1], i)
    {
      assert TidyAt(d, ss, es, i);
    }
  }

  // ----- open tags that can be completed

  function Popped<T>(s: Stack<T>): Stack<T> {
    if s.Empty? then s else s.below
  }

  /** The stacks once the innermost tag is closed. */
  function Base(st: Stacks): Stacks
    requires st.types.Push?
  {
    var own, kind := st.(types := st.types.below, names := Popped(st.names)), st.types.top;
    if kind == TAG_LIST then
      own.(indices := Popped(st.indices), lengths := Popped(st.lengths), payloadTypes := Popped(st.payloadTypes))
    else if IsArrayKind(kind) then own.(indices := Popped(st.indices), lengths := Popped(st.lengths))
    else own
  }

  predicate HasCounter(kind: TagId) {
    kind == TAG_LIST || IsArrayKind(kind)
  }

  /** The innermost tag has a known kind and what its kind asks for. */
  ghost predicate TopFine(st: Stacks) {
    && st.types.Push? && 0 < st.types.top <= TAG_LONG_ARRAY && st.names.Push?
    && (HasCounter(st.types.top) ==>
          st.indices.Push? && st.lengths.Push? && 0 <= st.indices.top <= st.lengths.top)
    && (st.types.top == TAG_LIST ==>
          && st.payloadTypes.Push? && st.payloadTypes.top <= TAG_LONG_ARRAY
          && (st.indices.top < st.lengths.top ==> st.payloadTypes.top != TAG_END))
  }

  /** And so have all the others, each of which is a container. */
  ghost predicate Whole(st: Stacks)
    decreases st.types
  {
    if st.types.Empty? then st == NO_STACKS
    else TopFine(st) && Containers(st.types.below) && Whole(Base(st))
  }

  /** The innermost tag is no End list that still expects elements. */
  ghost predicate NotDue(st: Stacks) {
    st.types.Push? && st.types.top == TAG_LIST && st.payloadTypes.Push? && st.payloadTypes.top == TAG_END ==>
      st.indices.Push? && st.lengths.Push? && st.indices.top >= st.lengths.top
  }

  lemma {:induction false} WholeFrom(st: Stacks)
    requires Matched(st, 0) && Steady(st) && (st.types.Push? ==> Containers(st.types.below))
    requires NotDue(st)
    ensures Whole(st)
    decreases st.types
  {
    if st.types.Push? {
      WholeTop(st);
      WholeFrom(Base(st));
    }
  }

  lemma {:induction false} WholeTop(st: Stacks)
    requires Matched(st, 0) && Steady(st) && st.types.Push? && Containers(st.types.below)
    requires NotDue(st)
    ensures TopFine(st)
    ensures var base := Base(st);
            && Matched(base, 0) && Steady(base) && (base.types.Push? ==> Containers(base.types.below))
            && NotDue(base)
  {
  }

  lemma {:induction false} WholeSound(st: Stacks)
    requires Whole(st)
    ensures Sound(st)
    decreases st.types
  {
    if st.types.Push? { WholeSound(Base(st)); }
  }

  // ----- encodings are read by tidy calls

  /** The START of a strict payload keeps the stacks sound and meets no End list due. */
  lemma {:induction false} OpenedSound(base: Stacks, name: seq<byte>, p: Payload)
    requires WF(p) && Strict(p) && p != Null && Sound(base)
    ensures Sound(Opened(base, name, p)) && NotDue(Opened(base, name, p))
  {
    PayloadNonEmpty(p);
    match p
    case Array(_, vs) => CountIsSelf(|vs|);
    case List(_, items) => CountIsSelf(|items|);
    case _ =>
  }

  lemma {:induction false} TidyCells(d: seq<byte>, s: State, o: nat, st: Stacks, kind: TagId, name: seq<byte>,
                                     vs: seq<int>) returns (u: State)
    requires InArray(s, o, st, kind, name, |vs|) && Sound(st) && AllInRange(CellKind(kind), vs)
    requires At(d, o, Numbers(CellKind(kind), vs)) && o + |Numbers(CellKind(kind), vs)| < |d|
    ensures TidyRuns(d, s, DataEvents(kind, name, vs), u)
    ensures Open(u, o + |Numbers(CellKind(kind), vs)|, Bumped(st, |vs|))
    decreases |vs|
  {
    if vs == [] {
      u := s;
      TidyNone(d, s);
    } else {
      var v, rest := vs[0], vs[1..];
      CellsSplit(d, o, CellKind(kind), vs);
      var m := CellStep(d, s, o, st, kind, name, |vs|, v);
      TidyOne(d, s, Data(kind, name, Num(v)), m);
      u := TidyCells(d, m, o + Width(CellKind(kind)), Bumped(st, 1), kind, name, rest);
      CellsGlue(kind, name, vs, st);
      TidyJoin(d, s, [Data(kind, name, Num(v))], m, DataEvents(kind, name, rest), u);
    }
  }

  /** A number or a string, and its END. */
  lemma {:induction false} TidyDatum(d: seq<byte>, s: State, o: nat, base: Stacks, name: seq<byte>, p: Payload)
    returns (u: State)
    requires (p.Scalar? || p.Str?) && WF(p) && Strict(p) && Sound(base)
    requires Open(s, o, Opened(base, name, p)) && At(d, o, Body(p)) && o + |Body(p)| < |d|
    ensures TidyRuns(d, s, Inner(name, p) + [End(TypeOf(p), name)], u) && Gap(u, o + |Body(p)|, base)
  {
    var e, m := DatumOf(d, s, o, base, name, p);
    u := DatumEnd(d, m, o + |Body(p)|, base, name, TypeOf(p));
    OpenedSound(base, name, p);
    TidyOne(d, s, e, m);
    TidyOne(d, m, End(TypeOf(p), name), u);
    TidyJoin(d, s, [e], m, [End(TypeOf(p), name)], u);
  }

  lemma {:induction false} DatumOf(d: seq<byte>, s: State, o: nat, base: Stacks, name: seq<byte>, p: Payload)
    returns (e: Event, m: State)
    requires (p.Scalar? || p.Str?) && WF(p) && Strict(p)
    requires Open(s, o, Opened(base, name, p)) && At(d, o, Body(p))
    ensures Inner(name, p) == [e] && Runs(d, s, [e], m) && EndDue(m, o + |Body(p)|, base, name, TypeOf(p))
  {
    match p
    case Scalar(kind, v) =>
      e := Data(kind, name, Num(v));
      m := ScalarRun(d, s, o, base, name, kind, v);
    case Str(cs) =>
      StrDecoded(d, o, cs);
      e := Data(TAG_STRING, name, Text(cs));
      m := StrRun(d, s, o, base, name, cs);
  }

  lemma {:induction false} TidyArray(d: seq<byte>, s: State, o: nat, base: Stacks, name: seq<byte>, p: Payload)
    returns (u: State)
    requires p.Array? && WF(p) && Strict(p) && Sound(base)
    requires Open(s, o, Opened(base, name, p)) && At(d, o, Body(p)) && o + |Body(p)| < |d|
    ensures TidyRuns(d, s, Inner(name, p) + [End(TypeOf(p), name)], u) && Gap(u, o + |Body(p)|, base)
  {
    var Array(kind, vs) := p;
    CountIsSelf(|vs|);
    OpenedSound(base, name, p);
    var m := TidyCells(d, s, o, Opened(base, name, p), kind, name, vs);
    u := ArrayEnd(d, m, o + |Body(p)|, base, name, kind, |vs|, |vs|);
    TidyOne(d, m, End(kind, name), u);
    TidyJoin(d, s, DataEvents(kind, name, vs), m, [End(kind, name)], u);
  }

  lemma {:induction false} TidyList(d: seq<byte>, s: State, o: nat, base: Stacks, name: seq<byte>, p: Payload)
    returns (u: State)
    requires p.List? && WF(p) && Strict(p) && Sound(base)
    requires Open(s, o, Opened(base, name, p)) && At(d, o, Body(p)) && o + |Body(p)| < |d|
    ensures TidyRuns(d, s, Inner(name, p) + [End(TypeOf(p), name)], u) && Gap(u, o + |Body(p)|, base)
    decreases p.items, 1
  {
    var List(elem, items) := p;
    var n := |items|;
    CountIsSelf(n);
    OpenedSound(base, name, p);
    var m := TidyItems(d, s, o, Opened(base, name, p), items);
    u := ListEnd(d, m, o + |Body(p)|, base, name, n, n, elem);
    TidyOne(d, m, End(TAG_LIST, name), u);
    TidyJoin(d, s, ItemEvents(items), m, [End(TAG_LIST, name)], u);
  }

  lemma {:induction false} TidyCompound(d: seq<byte>, s: State, o: nat, base: Stacks, name: seq<byte>, p: Payload)
    returns (u: State)
    requires p.Compound? && WF(p) && Strict(p) && Sound(base)
    requires Open(s, o, Opened(base, name, p)) && At(d, o, Body(p)) && o + |Body(p)| < |d|
    ensures TidyRuns(d, s, Inner(name, p) + [End(TypeOf(p), name)], u) && Gap(u, o + |Body(p)|, base)
    decreases p.tags, 1
  {
    var tags := p.tags;
    OpenedSound(base, name, p);
    AtConcat(d, o, EncodeTags(tags), [TAG_END]);
    var m := TidyTags(d, s, o, Opened(base, name, p), tags);
    u := CompoundEnd(d, m, o + |EncodeTags(tags)|, base, name);
    TidyOne(d, m, End(TAG_COMPOUND, name), u);
    TidyJoin(d, s, TagsEvents(tags), m, [End(TAG_COMPOUND, name)], u);
  }

  /** Contents and END of a tag just opened. */
  lemma {:induction false} TidyBody(d: seq<byte>, s: State, o: nat, base: Stacks, name: seq<byte>, p: Payload)
    returns (u: State)
    requires p != Null && WF(p) && Strict(p) && Sound(base)
    requires Open(s, o, Opened(base, name, p)) && At(d, o, Body(p)) && o + |Body(p)| < |d|
    ensures TidyRuns(d, s, Inner(name, p) + [End(TypeOf(p), name)], u) && Gap(u, o + |Body(p)|, base)
    decreases p, 0
  {
    if p.List? { u := TidyList(d, s, o, base, name, p); }
    else if p.Compound? { u := TidyCompound(d, s, o, base, name, p); }
    else if p.Array? { u := TidyArray(d, s, o, base, name, p); }
    else { u := TidyDatum(d, s, o, base, name, p); }
  }

  /** The remaining elements of a list. */
  lemma {:induction false} TidyItems(d: seq<byte>, s: State, o: nat, st: Stacks, items: seq<Payload>)
    returns (u: State)
    requires InList(s, o, st) && Sound(st) && st.payloadTypes.Push? && (items != [] ==> st.payloadTypes.top != TAG_END)
    requires st.indices.Push? && st.lengths.Push? && st.indices.top + |items| == st.lengths.top
    requires WFItems(st.payloadTypes.top, items) && StrictItems(items)
    requires At(d, o, EncodeItems(items)) && o + |EncodeItems(items)| < |d|
    ensures TidyRuns(d, s, ItemEvents(items), u) && InList(u, o + |EncodeItems(items)|, Bumped(st, |items|))
    decreases items, 0
  {
    if items == [] {
      u := s;
      TidyNone(d, s);
    } else {
      var x, rest := items[0], items[1..];
      ItemsSplit(d, o, items);
      var m := TidyItem(d, s, o, st, x);
      u := TidyItems(d, m, o + |Encode(x)|, Bumped(st, 1), rest);
      ItemsGlue(items, st);
      TidyJoin(d, s, Events([], x), m, ItemEvents(rest), u);
    }
  }

  lemma {:induction false} TidyItem(d: seq<byte>, s: State, o: nat, st: Stacks, x: Payload) returns (u: State)
    requires WF(x) && Strict(x) && x != Null && ElementDue(s, o, st, TypeOf(x)) && Sound(st)
    requires At(d, o, Encode(x)) && o + |Encode(x)| < |d|
    ensures TidyRuns(d, s, Events([], x), u) && Gap(u, o + |Encode(x)|, Bumped(st, 1))
    decreases x, 2
  {
    AtConcat(d, o, Header(x), Body(x));
    PayloadNonEmpty(x);
    var t := ItemStart(d, s, o, st, x);
    OpenedSound(Bumped(st, 1), [], x);
    TidyOne(d, s, Start(TypeOf(x), []), t);
    u := TidyBody(d, t, o + |Header(x)|, Bumped(st, 1), [], x);
    TidyJoin(d, s, [Start(TypeOf(x), [])], t, Inner([], x) + [End(TypeOf(x), [])], u);
  }

  lemma {:induction false} TidyTag(d: seq<byte>, s: State, o: nat, base: Stacks, t: Tag) returns (u: State)
    requires WFTag(t) && StrictTag(t) && Ready(s, o, base) && Sound(base)
    requires At(d, o, EncodeTag(t)) && o + |EncodeTag(t)| < |d|
    ensures TidyRuns(d, s, TagEvents(t), u) && Gap(u, o + |EncodeTag(t)|, base)
    decreases t, 0
  {
    var p, name := t.payload, t.name;
    TagSplit(d, o, t);
    var m := NamedStart(d, s, o, base, t);
    OpenedSound(base, name, p);
    TidyOne(d, s, Start(TypeOf(p), name), m);
    u := TidyBody(d, m, o + |TagHeader(t) + Header(p)|, base, name, p);
    TidyJoin(d, s, [Start(TypeOf(p), name)], m, Inner(name, p) + [End(TypeOf(p), name)], u);
  }

  /** Named tags, one after the other. */
  lemma {:induction false} TidyTags(d: seq<byte>, s: State, o: nat, st: Stacks, tags: seq<Tag>) returns (u: State)
    requires WFTags(tags) && StrictTags(tags) && Ready(s, o, st) && Sound(st)
    requires At(d, o, EncodeTags(tags)) && o + |EncodeTags(tags)| < |d|
    ensures TidyRuns(d, s, TagsEvents(tags), u) && Ready(u, o + |EncodeTags(tags)|, st)
    decreases tags, 0
  {
    if tags == [] {
      u := s;
      TidyNone(d, s);
    } else {
      FirstTag(d, o, tags);
      var m := TidyTag(d, s, o, st, tags[0]);
      u := TidyTags(d, m, o + |EncodeTag(tags[0])|, st, tags[1..]);
      TidyJoin(d, s, TagEvents(tags[0]), m, TagsEvents(tags[1..]), u);
    }
  }

  // ----- what is missing

  /** The least payload of a kind. */
  function Blank(kind: TagId): Payload {
    if IsScalarKind(kind) then Scalar(kind, 0)
    else if IsArrayKind(kind) then Array(kind, [])
    else if kind == TAG_STRING then Str([])
    else if kind == TAG_LIST then List(TAG_BYTE, [])
    else if kind == TAG_COMPOUND then Compound([])
    else Null
  }

  lemma {:induction false} BlankFine(kind: TagId)
    requires 0 < kind <= TAG_LONG_ARRAY
    ensures var p := Blank(kind); WF(p) && Strict(p) && p != Null && TypeOf(p) == kind
  {
    PowValues();
  }

  function Blanks(kind: TagId, n: nat): (items: seq<Payload>)
    ensures |items| == n
  {
    if n == 0 then [] else [Blank(kind)] + Blanks(kind, n - 1)
  }

  lemma {:induction false} BlanksFine(kind: TagId, n: nat)
    requires n > 0 ==> 0 < kind <= TAG_LONG_ARRAY
    ensures WFItems(kind, Blanks(kind, n)) && StrictItems(Blanks(kind, n))
  {
    if n > 0 {
      BlankFine(kind);
      BlanksFine(kind, n - 1);
    }
  }

  function Zeros(n: nat): seq<int> {
    seq(n, i => 0)
  }

  lemma {:induction false} ZerosFine(kind: TagId, n: nat)
    requires IsScalarKind(kind)
    ensures AllInRange(kind, Zeros(n))
  {
    PowValues();
    if n > 0 {
      ZerosFine(kind, n - 1);
      assert Zeros(n)[1..] == Zeros(n - 1);
    }
  }

  /** Bytes that complete the innermost tag. */
  ghost function Missing(st: Stacks): seq<byte>
    requires TopFine(st)
  {
    var kind := st.types.top;
    if kind == TAG_LIST then EncodeItems(Blanks(st.payloadTypes.top, st.lengths.top - st.indices.top))
    else if IsArrayKind(kind) then Numbers(CellKind(kind), Zeros(st.lengths.top - st.indices.top))
    else Body(Blank(kind))
  }

  ghost function AllMissing(st: Stacks): seq<byte>
    requires Whole(st)
    decreases st.types
  {
    if st.types.Empty? then [] else Missing(st) + AllMissing(Base(st))
  }

  // ----- completing the open tags

  /** The state between two calls, inside an open tag. */
  ghost predicate Inside(s: State, o: nat, st: Stacks) {
    st.types.Push? && (Open(s, o, st) || (Gap(s, o, st) && IsContainer(st.types.top)))
  }

  lemma {:induction false} CompleteList(d: seq<byte>, s: State, o: nat, st: Stacks) returns (es: seq<Event>, u: State)
    requires TopFine(st) && st.types.top == TAG_LIST && Inside(s, o, st) && Sound(st) && Sound(Base(st))
    requires At(d, o, Missing(st)) && o + |Missing(st)| < |d|
    ensures TidyRuns(d, s, es, u) && Gap(u, o + |Missing(st)|, Base(st))
  {
    var n, name := st.lengths.top, st.names.top;
    var items := Blanks(st.payloadTypes.top, n - st.indices.top);
    BlanksFine(st.payloadTypes.top, n - st.indices.top);
    var m := TidyItems(d, s, o, st, items);
    u := ListEnd(d, m, o + |Missing(st)|, Base(st), name, n, n, st.payloadTypes.top);
    TidyOne(d, m, End(TAG_LIST, name), u);
    TidyJoin(d, s, ItemEvents(items), m, [End(TAG_LIST, name)], u);
    es := ItemEvents(items) + [End(TAG_LIST, name)];
  }

  lemma {:induction false} CompleteArray(d: seq<byte>, s: State, o: nat, st: Stacks) returns (es: seq<Event>, u: State)
    requires TopFine(st) && IsArrayKind(st.types.top) && Inside(s, o, st) && Sound(st) && Sound(Base(st))
    requires At(d, o, Missing(st)) && o + |Missing(st)| < |d|
    ensures TidyRuns(d, s, es, u) && Gap(u, o + |Missing(st)|, Base(st))
  {
    var n, name, kind := st.lengths.top, st.names.top, st.types.top;
    var vs := Zeros(n - st.indices.top);
    ZerosFine(CellKind(kind), n - st.indices.top);
    var m := TidyCells(d, s, o, st, kind, name, vs);
    u := ArrayEnd(d, m, o + |Missing(st)|, Base(st), name, kind, n, n);
    TidyOne(d, m, End(kind, name), u);
    TidyJoin(d, s, DataEvents(kind, name, vs), m, [End(kind, name)], u);
    es := DataEvents(kind, name, vs) + [End(kind, name)];
  }

  /** The innermost tag is completed and closed. */
  lemma {:induction false} CompleteTop(d: seq<byte>, s: State, o: nat, st: Stacks) returns (es: seq<Event>, u: State)
    requires TopFine(st) && Inside(s, o, st) && Sound(st) && Sound(Base(st))
    requires At(d, o, Missing(st)) && o + |Missing(st)| < |d|
    ensures TidyRuns(d, s, es, u) && Gap(u, o + |Missing(st)|, Base(st))
  {
    var kind, name, base := st.types.top, st.names.top, Base(st);
    if kind == TAG_LIST {
      es, u := CompleteList(d, s, o, st);
    } else if IsArrayKind(kind) {
      es, u := CompleteArray(d, s, o, st);
    } else if kind == TAG_COMPOUND {
      u := CompoundEnd(d, s, o, base, name);
      es := [End(kind, name)];
      TidyOne(d, s, End(kind, name), u);
    } else {
      var p := Blank(kind);
      BlankFine(kind);
      u := TidyBody(d, s, o, base, name, p);
      es := Inner(name, p) + [End(kind, name)];
    }
  }

  /** And then all the tags around it. */
  lemma {:induction false} CompleteAll(d: seq<byte>, s: State, o: nat, st: Stacks) returns (es: seq<Event>, u: State)
    requires Whole(st) && (Inside(s, o, st) || (st.types.Empty? && s.offset == o && s.stacks == st))
    requires At(d, o, AllMissing(st)) && o + |AllMissing(st)| < |d|
    ensures TidyRuns(d, s, es, u) && u.offset == o + |AllMissing(st)| && u.stacks == NO_STACKS
    decreases st.types
  {
    if st.types.Empty? {
      es, u := [], s;
      TidyNone(d, s);
    } else {
      WholeSound(st);
      WholeSound(Base(st));
      AtConcat(d, o, Missing(st), AllMissing(Base(st)));
      var a, m := CompleteTop(d, s, o, st);
      var b;
      b, u := CompleteAll(d, m, o + |Missing(st)|, Base(st));
      TidyJoin(d, s, a, m, b, u);
      es := a + b;
    }
  }

  // ----- the state at the end of the buffer

  /** The stacks that are left to complete: those of a number or a string that has
      been read only lack its END. */
  ghost function Unfinished(s: State): Stacks {
    if s.tagEnded && !s.endEmitted && s.stacks.types.Push? then Base(s.stacks) else s.stacks
  }

  /** From any state that a tidy run can come to, the missing bytes and one more let
      the reader close all open tags by tidy calls. */
  lemma {:induction false} CompleteFrom(d: seq<byte>, s: State) returns (es: seq<Event>, u: State)
    requires s.offset < |d| && Aligned(d, s) && Whole(s.stacks) && Whole(Unfinished(s))
    requires At(d, s.offset, AllMissing(Unfinished(s))) && s.offset + |AllMissing(Unfinished(s))| < |d|
    ensures TidyRuns(d, s, es, u) && u.offset == s.offset + |AllMissing(Unfinished(s))| && u.stacks == NO_STACKS
  {
    var o, st := s.offset, s.stacks;
    if s.tagEnded && !s.endEmitted {
      var kind, name := st.types.top, st.names.top;
      var m := DatumEnd(d, s, o, Base(st), name, kind);
      WholeSound(Base(st));
      TidyOne(d, s, End(kind, name), m);
      es, u := CompleteAll(d, m, o, Base(st));
      TidyJoin(d, s, [End(kind, name)], m, es, u);
      es := [End(kind, name)] + es;
    } else {
      es, u := CompleteAll(d, s, o, st);
    }
  }

  /** Where a tidy run comes to the end of the buffer, the open tags can be completed. */
  lemma {:induction false} WholeAtEnd(d: seq<byte>, ss: seq<State>, es: seq<Event>)
    requires TidyPath(d, ss, es) && ss[0] == INITIAL && ss[|es|].offset < |d| && !EndListDue(ss[|es|])
    ensures Aligned(d, ss[|es|]) && Whole(ss[|es|].stacks) && Whole(Unfinished(ss[|es|]))
  {
    TidyKeeps(d, ss, es);
    WholeFrom(ss[|es|].stacks);
  }

  /** Any buffer on which a tidy run uses up all bytes begins the encodings of some
      strict tags. */
  lemma {:induction false} BeginsEncoding(d: seq<byte>, ss: seq<State>, es: seq<Event>) returns (ts: seq<Tag>)
    requires TidyPath(d, ss, es) && ss[0] == INITIAL && ss[|es|].offset == |d| && !EndListDue(ss[|es|])
    ensures WFTags(ts) && StrictTags(ts) && d <= EncodeTags(ts)
  {
    var m := ss[|es|];
    var one := d + [0];
    assert one[..|d|] == d;
    TidyLonger(one, |d|, ss, es);
    WholeAtEnd(one, ss, es);
    var missing := AllMissing(Unfinished(m));
    var whole := d + missing + [0];
    assert whole[..|d|] == d;
    TidyLonger(whole, |d|, ss, es);
    TidyKeeps(whole, ss, es);
    assert whole[|d|..|d| + |missing|] == missing;
    var more, u := CompleteFrom(whole, m);
    assert TidyRuns(whole, INITIAL, es, m);
    TidyJoin(whole, INITIAL, es, m, more, u);
    var all :| TidyPath(whole, all, es + more) && all[0] == INITIAL && all[|es + more|] == u;
    ts := RunSound(whole, all, es + more);
    assert EncodeTags(ts) == whole[..|d| + |missing|] == d + missing;
  }

  // ----- sound runs to the end of the document

  /** A call, with or without bytes left, that meets no End list expecting elements,
      no unknown id and no negative count. */
  ghost predicate SoundAt(d: seq<byte>, ss: seq<State>, es: seq<Event>, i: nat)
    requires i < |es| && |ss| == |es| + 1
  {
    Call(d, ss[i], es[i], ss[i + 1]) && !EndListDue(ss[i]) && Sound(ss[i + 1].stacks)
  }

  ghost predicate SoundPath(d: seq<byte>, ss: seq<State>, es: seq<Event>) {
    |ss| == |es| + 1 && forall i: nat {:trigger SoundAt(d, ss, es, i)} | i < |es| :: SoundAt(d, ss, es, i)
  }

  /** Such calls from the start report `es` and then, for the first time, the end of
      the document. */
  ghost predicate SoundlyRead(d: seq<byte>, es: seq<Event>) {
    DocumentEnd !in es
    && exists ss :: SoundPath(d, ss, es + [DocumentEnd]) && ss[0] == INITIAL
  }

  lemma {:induction false} SoundRuns(d: seq<byte>, ss: seq<State>, es: seq<Event>)
    requires SoundPath(d, ss, es)
    ensures Runs(d, ss[0], es, ss[|es|])
  {
    forall i: nat {:trigger Link(d, ss, es, i)} | i < |es| ensures Link(d, ss, es, i) {
      assert SoundAt(d, ss, es, i);
    }
    assert Path(d, ss, es);
  }

  /** The first call that finds the buffer used up; up to it the calls are tidy. */
  lemma {:induction false} UsedUp(d: seq<byte>, ss: seq<State>, es: seq<Event>, i: nat) returns (j: nat)
    requires SoundPath(d, ss, es) && es != [] && es[|es| - 1] == DocumentEnd && i < |es|
    requires forall k | 0 <= k < i :: ss[k].offset < |d|
    ensures j < |es| && ss[j].offset >= |d| && forall k | 0 <= k < j :: ss[k].offset < |d|
    decreases |es| - i
  {
    if ss[i].offset >= |d| {
      j := i;
    } else {
      assert SoundAt(d, ss, es, i);
      EndsAtEnd(d, ss[i], es[i], ss[i + 1]);
      j := UsedUp(d, ss, es, i + 1);
    }
  }

  lemma {:induction false} EndsAtEnd(d: seq<byte>, s: State, e: Event, t: State)
    requires Call(d, s, e, t) && s.offset < |d|
    ensures e != DocumentEnd
  {
  }

  lemma {:induction false} TidyUntil(d: seq<byte>, ss: seq<State>, es: seq<Event>, j: nat)
    requires SoundPath(d, ss, es) && j < |es| && forall k | 0 <= k < j :: ss[k].offset < |d|
    ensures TidyPath(d, ss[..j + 1], es[..j])
  {
    forall i: nat {:trigger TidyAt(d, ss[..j + 1], es[..j], i)} | i < j
      ensures TidyAt(d, ss[..j + 1], es[..j], i)
    {
      assert SoundAt(d, ss, es, i);
    }
  }

  // ----- flattenings hold no end of the document

  lemma {:induction false} NoEndIn(name: seq<byte>, p: Payload)
    ensures DocumentEnd !in Events(name, p)
    decreases p, 2
  {
    if p != Null { NoEndInside(name, p); }
  }

  lemma {:induction false} NoEndInside(name: seq<byte>, p: Payload)
    ensures DocumentEnd !in Inner(name, p)
    decreases p, 1
  {
    match p
    case Array(kind, vs) => NoEndInData(kind, name, vs);
    case List(_, items) => NoEndInItems(items);
    case Compound(tags) => NoEndInTags(tags);
    case _ =>
  }

  lemma {:induction false} NoEndInData(kind: TagId, name: seq<byte>, vs: seq<int>)
    ensures DocumentEnd !in DataEvents(kind, name, vs)
    decreases |vs|
  {
    if vs != [] { NoEndInData(kind, name, vs[1..]); }
  }

  lemma {:induction false} NoEndInItems(items: seq<Payload>)
    ensures DocumentEnd !in ItemEvents(items)
    decreases items, 0
  {
    if items != [] {
      NoEndIn([], items[0]);
      NoEndInItems(items[1..]);
    }
  }

  lemma {:induction false} NoEndInTags(tags: seq<Tag>)
    ensures DocumentEnd !in TagsEvents(tags)
    decreases tags, 0
  {
    if tags != [] {
      NoEndIn(tags[0].name, tags[0].payload);
      NoEndInTags(tags[1..]);
    }
  }

  /** Two runs up to the first end of the document report the same events. */
  lemma {:induction false} SameUntilEnd(d: seq<byte>, a: seq<Event>, t: State, b: seq<Event>, u: State)
    requires Runs(d, INITIAL, a + [DocumentEnd], t) && Runs(d, INITIAL, b + [DocumentEnd], u)
    requires DocumentEnd !in a && DocumentEnd !in b && |a| <= |b|
    ensures a == b
  {
    var all, n := b + [DocumentEnd], |a| + 1;
    assert |a| < |b| ==> all[|a|] == b[|a|] != DocumentEnd;
    assert all == all[..n] + all[n..];
    var m := RunsSplit(d, INITIAL, all[..n], all[n..], u);
    SameEvents(d, INITIAL, a + [DocumentEnd], t, all[..n], m);
    assert all[..n][|a|] == all[|a|] == DocumentEnd;
    assert a == all[..n][..|a|];
  }

  // ----- the cuts of encodings

  /** `d` is the beginning of the encodings of `ts`, and `es` flattens what it leaves
      of them. */
  ghost predicate IsCutOf(d: seq<byte>, es: seq<Event>, ts: seq<Tag>) {
    && WFTags(ts) && StrictTags(ts) && d <= EncodeTags(ts)
    && PruneTags(ts, |d|).Some? && es == TagsEvents(PruneTags(ts, |d|).value)
  }

  lemma {:induction false} SoundIsCut(d: seq<byte>, es: seq<Event>) returns (ts: seq<Tag>)
    requires SoundlyRead(d, es)
    ensures IsCutOf(d, es, ts)
  {
    var all := es + [DocumentEnd];
    var ss :| SoundPath(d, ss, all) && ss[0] == INITIAL;
    var j := UsedUp(d, ss, all, 0);
    TidyUntil(d, ss, all, j);
    TidyKeeps(d, ss[..j + 1], all[..j]);
    assert SoundAt(d, ss, all, j);
    ts := BeginsEncoding(d, ss[..j + 1], all[..j]);
    SoundRuns(d, ss, all);
    CutReports(d, es, ts, ss[|all|]);
  }

  lemma {:induction false} CutReports(d: seq<byte>, es: seq<Event>, ts: seq<Tag>, t: State)
    requires WFTags(ts) && StrictTags(ts) && d <= EncodeTags(ts)
    requires Runs(d, INITIAL, es + [DocumentEnd], t) && DocumentEnd !in es
    ensures IsCutOf(d, es, ts)
  {
    StrictTagsWithin(ts);
    TruncatedRun(ts, |d|);
    assert d == EncodeTags(ts)[..|d|];
    match PruneTags(ts, |d|)
    case None =>
      LastIsEnd(d, INITIAL, es, t);
      NotBoth(d, TagsEvents(ts), es);
    case Some(us) =>
      var u :| Runs(d, INITIAL, TagsEvents(us) + [DocumentEnd], u);
      NoEndInTags(us);
      if |es| <= |TagsEvents(us)| {
        SameUntilEnd(d, es, t, TagsEvents(us), u);
      } else {
        SameUntilEnd(d, TagsEvents(us), u, es, t);
      }
  }

  lemma {:induction false} LastIsEnd(d: seq<byte>, s: State, es: seq<Event>, t: State)
    requires Runs(d, s, es + [DocumentEnd], t)
    ensures t.current == DocEnd
  {
    var m := RunsSplit(d, s, es, [DocumentEnd], t);
    OneCall(d, m, DocumentEnd, t);
  }

  // ----- and back

  /** At the end of the buffer: whatever is closed next, the stacks stay sound and no
      End list comes to be due. */
  ghost predicate Settled(d: seq<byte>, s: State) {
    var st := s.stacks;
    && s.offset >= |d| && AllKnown(st.types)
    && (st.lengths.Push? ==> st.lengths.top >= 0)
    && (st.payloadTypes.Push? ==> st.payloadTypes.top <= TAG_LONG_ARRAY)
    && (st.payloadTypes.Push? && st.payloadTypes.top == TAG_END && st.indices.Push? && st.lengths.Push? ==>
          st.indices.top >= st.lengths.top)
  }

  lemma {:induction false} SettledCall(d: seq<byte>, s: State, e: Event, t: State)
    requires Settled(d, s) && Call(d, s, e, t)
    ensures Settled(d, t) && !EndListDue(s) && Sound(t.stacks)
  {
  }

  lemma {:induction false} TidySettles(d: seq<byte>, k: nat, ss: seq<State>, es: seq<Event>, i: nat)
    requires k <= |d| && TidyPath(d, ss, es) && ss[0] == INITIAL && i <= |es|
    requires ss[|es|].stacks == NO_STACKS && ss[|es|].offset < |d| && ss[i].offset >= k
    ensures Settled(d[..k], ss[i])
  {
    TidyFirst(d, ss, es, i);
    TidyKeeps(d, ss[..i + 1], es[..i]);
    if i < |es| { assert TidyAt(d, ss, es, i); }
  }

  lemma {:induction false} TidyFirst(d: seq<byte>, ss: seq<State>, es: seq<Event>, i: nat)
    requires TidyPath(d, ss, es) && i <= |es|
    ensures TidyPath(d, ss[..i + 1], es[..i])
  {
    forall j: nat {:trigger TidyAt(d, ss[..i + 1], es[..i], j)} | j < i
      ensures TidyAt(d, ss[..i + 1], es[..i], j)
    {
      assert TidyAt(d, ss, es, j);
    }
  }

  /** The run on the shorter buffer goes along with that on the longer one until the
      cut, and is settled from then on. */
  ghost predicate Along(d: seq<byte>, k: nat, tt: seq<State>, s: State, i: nat)
    requires k <= |d|
  {
    (i < |tt| && s == tt[i]) || Settled(d[..k], s)
  }

  lemma {:induction false} AlongCall(d: seq<byte>, k: nat, tt: seq<State>, fs: seq<Event>, i: nat, s: State, e: Event,
                                     t: State)
    requires k <= |d| && TidyPath(d, tt, fs) && tt[0] == INITIAL
    requires tt[|fs|].stacks == NO_STACKS && k <= tt[|fs|].offset < |d|
    requires Along(d, k, tt, s, i) && Call(d[..k], s, e, t)
    ensures Along(d, k, tt, t, i + 1) && !EndListDue(s) && Sound(t.stacks)
  {
    if s.offset < k {
      assert i < |fs|;
      assert TidyAt(d, tt, fs, i);
      CutCall(d, k, s);
    } else {
      if !Settled(d[..k], s) { TidySettles(d, k, tt, fs, i); }
      SettledCall(d[..k], s, e, t);
    }
  }

  lemma {:induction false} AlongPath(d: seq<byte>, k: nat, tt: seq<State>, fs: seq<Event>, ss: seq<State>,
                                     es: seq<Event>, i: nat)
    requires k <= |d| && TidyPath(d, tt, fs) && tt[0] == INITIAL
    requires tt[|fs|].stacks == NO_STACKS && k <= tt[|fs|].offset < |d|
    requires Path(d[..k], ss, es) && ss[0] == INITIAL && i <= |es|
    ensures Along(d, k, tt, ss[i], i)
    ensures forall j: nat {:trigger SoundAt(d[..k], ss, es, j)} | j < i :: SoundAt(d[..k], ss, es, j)
    decreases i
  {
    if i > 0 {
      AlongPath(d, k, tt, fs, ss, es, i - 1);
      assert Link(d[..k], ss, es, i - 1);
      AlongCall(d, k, tt, fs, i - 1, ss[i - 1], es[i - 1], ss[i]);
    }
  }

  lemma {:induction false} CutIsSound(d: seq<byte>, es: seq<Event>, ts: seq<Tag>)
    requires IsCutOf(d, es, ts)
    ensures SoundlyRead(d, es)
  {
    var whole := EncodeTags(ts) + [0];
    assert At(whole, 0, EncodeTags(ts)) && whole[..|d|] == d == EncodeTags(ts)[..|d|];
    var u := TidyTags(whole, INITIAL, 0, NO_STACKS, ts);
    var tt :| TidyPath(whole, tt, TagsEvents(ts)) && tt[0] == INITIAL && tt[|TagsEvents(ts)|] == u;
    StrictTagsWithin(ts);
    TruncatedRun(ts, |d|);
    var v :| Runs(d, INITIAL, es + [DocumentEnd], v);
    var ss: seq<State> :| Path(d, ss, es + [DocumentEnd]) && ss[0] == INITIAL && ss[|es + [DocumentEnd]|] == v;
    AlongPath(whole, |d|, tt, TagsEvents(ts), ss, es + [DocumentEnd], |es| + 1);
    NoEndInTags(PruneTags(ts, |d|).value);
    assert SoundPath(d, ss, es + [DocumentEnd]);
  }

  // ----- main results

  /** From any buffer: it is read to the end of the document, reporting `es`, by calls
      that meet no End list expecting elements, no unknown id and no negative count, if
      and only if it is a beginning of the encodings of some strict tags, cut where a
      tree is left, and `es` is the flattening of what is left. */
  lemma {:induction false} SoundlyReadIff(d: seq<byte>, es: seq<Event>)
    ensures SoundlyRead(d, es) <==> exists ts :: IsCutOf(d, es, ts)
  {
    if SoundlyRead(d, es) {
      var ts := SoundIsCut(d, es);
    }
    if exists ts :: IsCutOf(d, es, ts) {
      var ts :| IsCutOf(d, es, ts);
      CutIsSound(d, es, ts);
    }
  }

  /** Such calls close all tags inside the buffer. */
  ghost predicate TidilyRead(d: seq<byte>, es: seq<Event>, n: nat) {
    exists u :: TidyRuns(d, INITIAL, es, u) && u.stacks.types.Empty? && u.offset == n
  }

  /** And a stretch of the buffer with bytes after it is read by tidy calls that close
      every tag if and only if it is the encodings of strict tags. */
  lemma {:induction false} TidilyReadIff(d: seq<byte>, es: seq<Event>, n: nat)
    requires n < |d|
    ensures TidilyRead(d, es, n)
            <==> exists ts :: WFTags(ts) && StrictTags(ts) && es == TagsEvents(ts) && d[..n] == EncodeTags(ts)
  {
    if TidilyRead(d, es, n) {
      var u :| TidyRuns(d, INITIAL, es, u) && u.stacks.types.Empty? && u.offset == n;
      var ss :| TidyPath(d, ss, es) && ss[0] == INITIAL && ss[|es|] == u;
      var ts := RunSound(d, ss, es);
    }
    if exists ts :: WFTags(ts) && StrictTags(ts) && es == TagsEvents(ts) && d[..n] == EncodeTags(ts) {
      var ts :| WFTags(ts) && StrictTags(ts) && es == TagsEvents(ts) && d[..n] == EncodeTags(ts);
      assert At(d, 0, EncodeTags(ts));
      var u := TidyTags(d, INITIAL, 0, NO_STACKS, ts);
    }
  }
}
