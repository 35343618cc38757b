/** What the pull reader makes of a buffer that has been cut short. */
module PullTruncation {
  import opened Bytes
  import opened Tags
  import opened PullMachine
  import opened Wrappers
  import opened PullProofs
  import opened PullTheorems
  import opened PullNesting

  // ----- one call, any buffer

  /** The call from `s` to `t` opened a named tag without an array or list header. */
  predicate PlainStart(s: State, t: State) {
    && t.current == TagStart && t.stacks.types.Push?
    && !IsArrayKind(t.stacks.types.top) && t.stacks.types.top != TAG_LIST
    && (s.stacks.types.Empty? || s.stacks.types.top != TAG_LIST)
  }

  /** How long the buffer has to be for the call from `s` to `t`: what it consumes,
      and one byte more after a name that no header follows. */
  function Reach(s: State, t: State): nat {
    t.offset + if PlainStart(s, t) then 1 else 0
  }

  ghost predicate Exhausted(d: seq<byte>, s: State) {
    Next(d, s).Threw? && Next(d, s).cause == BufferExhausted
  }

  /** `cut`, the step on the shorter buffer, is `whole` if that reaches no further
      than `k`, and out of bytes otherwise. */
  ghost predicate CutTo(k: nat, reach: nat, whole: Step, cut: Step) {
    if whole.Threw? then cut.Threw?
    else if reach <= k then cut == whole
    else cut.Threw? && cut.cause == BufferExhausted
  }

  lemma SliceCut(d: seq<byte>, k: nat, i: nat, n: nat)
    requires i + n <= k <= |d|
    ensures d[..k][i..i + n] == d[i..i + n]
  {
  }

  lemma CutKind(d: seq<byte>, k: nat, s: State, kind: TagId)
    requires s.offset <= k <= |d|
    ensures CutTo(k, KindHeader(d, s, kind).s.offset, KindHeader(d, s, kind), KindHeader(d[..k], s, kind))
  {
    if s.offset + 4 <= k { SliceCut(d, k, s.offset, 4); }
    if s.offset + 5 <= k { SliceCut(d, k, s.offset + 1, 4); }
  }

  lemma {:induction false} CutHeader(d: seq<byte>, k: nat, s: State)
    requires s.offset < k <= |d| && (s.stacks.types.Empty? || s.stacks.types.top != TAG_LIST)
    ensures CutTo(k, Reach(s, TagHeaderStep(d, s).s), TagHeaderStep(d, s), TagHeaderStep(d[..k], s))
  {
    var kind := d[s.offset];
    if kind == TAG_END {
      CutClosing(d, k, s);
    } else {
      var s1 := s.(offset := s.offset + 1, stacks := s.stacks.(types := Push(kind, s.stacks.types)));
      HeaderIs(d, s, kind, s1);
      HeaderIs(d[..k], s, kind, s1);
      CutName(d, k, s, s1, kind);
    }
  }

  lemma {:induction false} HeaderIs(d: seq<byte>, s: State, kind: TagId, s1: State)
    requires s.offset < |d| && d[s.offset] == kind && kind != TAG_END
    requires s1 == s.(offset := s.offset + 1, stacks := s.stacks.(types := Push(kind, s.stacks.types)))
    ensures TagHeaderStep(d, s) == NameStep(d, s1, kind)
  {
  }

  lemma {:induction false} CutClosing(d: seq<byte>, k: nat, s: State)
    requires s.offset < k <= |d| && d[s.offset] == TAG_END
    ensures CutTo(k, Reach(s, TagHeaderStep(d, s).s), TagHeaderStep(d, s), TagHeaderStep(d[..k], s))
  {
  }

  lemma {:induction false} CutName(d: seq<byte>, k: nat, s: State, s1: State, kind: TagId)
    requires s1.offset <= k <= |d| && (s.stacks.types.Empty? || s.stacks.types.top != TAG_LIST)
    requires s1.stacks.types.Push? && s1.stacks.types.top == kind
    ensures CutTo(k, Reach(s, NameStep(d, s1, kind).s), NameStep(d, s1, kind), NameStep(d[..k], s1, kind))
  {
    var o := s1.offset;
    if o + 2 <= k {
      SliceCut(d, k, o, 2);
      var n := ReadNumber(TAG_SHORT, d[o..o + 2]);
      if n >= 0 { CutNamed(d, k, s, s1, kind, n); }
    } else if NameStep(d, s1, kind).Went? {
      NameMoves(d, s1, kind);
    }
  }

  /** The step after a name of length `n`. */
  function AfterName(d: seq<byte>, s: State, kind: TagId, n: nat): Step {
    if s.offset + 2 + n >= |d| then Threw(s.(offset := s.offset + 2), BufferExhausted)
    else
      match KindHeader(d, NamePushed(d, s, n), kind)
      case Threw(t, cause) => Threw(t, cause)
      case Went(t) => Went(t.(tagEnded := false, current := TagStart))
  }

  function NamePushed(d: seq<byte>, s: State, n: nat): State
    requires s.offset + 2 + n <= |d|
  {
    s.(offset := s.offset + 2 + n,
       stacks := s.stacks.(names := Push(d[s.offset + 2..s.offset + 2 + n], s.stacks.names)))
  }

  lemma {:induction false} NameIs(d: seq<byte>, s: State, kind: TagId, n: nat)
    requires s.offset + 2 <= |d| && ReadNumber(TAG_SHORT, d[s.offset..s.offset + 2]) == n
    ensures NameStep(d, s, kind) == AfterName(d, s, kind, n)
  {
  }

  lemma {:induction false} CutNamed(d: seq<byte>, k: nat, s: State, s1: State, kind: TagId, n: nat)
    requires s1.offset + 2 <= k <= |d| && (s.stacks.types.Empty? || s.stacks.types.top != TAG_LIST)
    requires s1.stacks.types.Push? && s1.stacks.types.top == kind
    requires d[..k][s1.offset..s1.offset + 2] == d[s1.offset..s1.offset + 2]
    requires ReadNumber(TAG_SHORT, d[s1.offset..s1.offset + 2]) == n
    ensures CutTo(k, Reach(s, NameStep(d, s1, kind).s), NameStep(d, s1, kind), NameStep(d[..k], s1, kind))
  {
    NameIs(d, s1, kind, n);
    NameIs(d[..k], s1, kind, n);
    CutAfterName(d, k, s, s1, kind, n);
  }

  lemma {:induction false} CutAfterName(d: seq<byte>, k: nat, s: State, s1: State, kind: TagId, n: nat)
    requires s1.offset + 2 <= k <= |d| && (s.stacks.types.Empty? || s.stacks.types.top != TAG_LIST)
    requires s1.stacks.types.Push? && s1.stacks.types.top == kind
    ensures CutTo(k, Reach(s, AfterName(d, s1, kind, n).s), AfterName(d, s1, kind, n), AfterName(d[..k], s1, kind, n))
  {
    var end := s1.offset + 2 + n;
    if end < |d| { HeaderMoves(d, NamePushed(d, s1, n), kind); }
    if end < k {
      SliceCut(d, k, s1.offset + 2, n);
      CutKind(d, k, NamePushed(d, s1, n), kind);
    }
  }

  lemma HeaderMoves(d: seq<byte>, s: State, kind: TagId)
    ensures var t := KindHeader(d, s, kind).s;
            && t.offset >= s.offset && t.stacks.types == s.stacks.types
            && (KindHeader(d, s, kind).Went? && (IsArrayKind(kind) || kind == TAG_LIST) ==> t.offset > s.offset)
  {
  }

  lemma NameMoves(d: seq<byte>, s: State, kind: TagId)
    requires NameStep(d, s, kind).Went?
    ensures NameStep(d, s, kind).s.offset >= s.offset + 2
  {
  }

  lemma CutListData(d: seq<byte>, k: nat, s: State)
    requires s.offset < k <= |d| && s.stacks.types.Push? && s.stacks.types.top == TAG_LIST
    ensures CutTo(k, Reach(s, ListData(d, s).s), ListData(d, s), ListData(d[..k], s))
  {
    if s.stacks.indices.Push? && s.stacks.payloadTypes.Push? && s.stacks.payloadTypes.top != TAG_END {
      var st := s.stacks.(indices := Push(s.stacks.indices.top + 1, s.stacks.indices.below));
      var kind := st.payloadTypes.top;
      CutKind(d, k, s.(stacks := st.(types := Push(kind, st.types), names := Push([], st.names))), kind);
    }
  }

  lemma CutSwitch(d: seq<byte>, k: nat, s: State)
    requires s.offset < k <= |d|
    ensures CutTo(k, Reach(s, Switch(d, s).s), Switch(d, s), Switch(d[..k], s))
  {
    if s.stacks.types.Push? {
      var kind := s.stacks.types.top;
      if kind == TAG_COMPOUND { CutHeader(d, k, s); }
      else if kind == TAG_LIST { CutListData(d, k, s); }
      else if kind == TAG_STRING { CutString(d, k, s); }
      else if IsScalarKind(kind) { CutScalar(d, k, s, kind); }
      else if IsArrayKind(kind) { CutArray(d, k, s, kind); }
    }
  }

  lemma CutScalar(d: seq<byte>, k: nat, s: State, kind: TagId)
    requires s.offset < k <= |d|
    ensures CutTo(k, Reach(s, ScalarStep(d, s, kind).s), ScalarStep(d, s, kind), ScalarStep(d[..k], s, kind))
  {
    if s.offset + Width(kind) <= k { SliceCut(d, k, s.offset, Width(kind)); }
  }

  lemma CutString(d: seq<byte>, k: nat, s: State)
    requires s.offset < k <= |d|
    ensures CutTo(k, Reach(s, StringStep(d, s).s), StringStep(d, s), StringStep(d[..k], s))
  {
    var o := s.offset;
    if o + 2 <= k {
      SliceCut(d, k, o, 2);
      var n := ReadNumber(TAG_SHORT, d[o..o + 2]);
      if n >= 0 && o + 2 + n <= k { SliceCut(d, k, o + 2, n); }
    }
  }

  lemma CutArray(d: seq<byte>, k: nat, s: State, kind: TagId)
    requires s.offset < k <= |d| && IsArrayKind(kind) && s.stacks.types.Push? && s.stacks.types.top == kind
    ensures CutTo(k, Reach(s, ArrayStep(d, s, kind).s), ArrayStep(d, s, kind), ArrayStep(d[..k], s, kind))
  {
    if s.offset + Width(CellKind(kind)) <= k { SliceCut(d, k, s.offset, Width(CellKind(kind))); }
  }

  /** A reader that has not come to the cut does on the shorter buffer what it does
      on the whole one, as long as the call needs no byte beyond the cut; otherwise
      it throws. */
  lemma CutCall(d: seq<byte>, k: nat, s: State)
    requires s.offset < k <= |d|
    ensures CutTo(k, Reach(s, Next(d, s).s), Next(d, s), Next(d[..k], s))
  {
    var s1 := s.(tagEnded := false, endEmitted := false);
    if !s.tagEnded {
      CutSwitch(d, k, s);
    } else if s.endEmitted {
      if s.stacks.types.Empty? || s.stacks.types.top != TAG_LIST {
        CutHeader(d, k, s1);
      } else {
        CutSwitch(d, k, s1);
      }
    }
  }

  // ----- whole runs, any buffer

  /** From `s` the calls report `es` and the reader is at the end of the document. */
  ghost predicate Finishes(d: seq<byte>, s: State, es: seq<Event>) {
    exists u :: Runs(d, s, es, u) && u.current == DocEnd
  }

  /** After `seen` the reader is out of bytes. */
  ghost predicate Fails(d: seq<byte>, s: State, seen: seq<Event>) {
    exists t :: Runs(d, s, seen, t) && Exhausted(d, t)
  }

  /** From `s` the calls report some first part of the events `es`, and then the
      reader is out of bytes. */
  ghost predicate CutOff(d: seq<byte>, s: State, es: seq<Event>) {
    exists seen :: Fails(d, s, seen) && seen <= es
  }

  lemma {:induction false} ClosesAll(d: seq<byte>, s: State)
    requires s.offset >= |d| && Level(s)
    ensures Finishes(d, s, Closing(s.stacks.types, s.stacks.names))
  {
    var u := CloseAll(d, s);
  }

  lemma {:induction false} FinishesAfter(d: seq<byte>, s: State, a: seq<Event>, m: State, b: seq<Event>)
    requires Runs(d, s, a, m) && Finishes(d, m, b)
    ensures Finishes(d, s, a + b)
  {
    var u :| Runs(d, m, b, u) && u.current == DocEnd;
    RunsJoin(d, s, a, m, b, u);
  }

  /** Cutting any buffer short, at any place: of a run on the whole buffer, the
      shorter one reports the first events, up to where the run itself ends, or a
      call needs a byte beyond the cut and throws, or the cut is reached and every
      open tag is closed. */
  lemma {:induction false} CutRun(d: seq<byte>, k: nat, s: State, es: seq<Event>, t: State)
    returns (i: nat, m: State)
    requires Level(s) && s.offset <= k <= |d| && Runs(d, s, es, t)
    ensures i <= |es| && Runs(d[..k], s, es[..i], m)
    ensures || (i == |es| && m == t && t.offset < k)
            || (i < |es| && m.offset < k && Exhausted(d[..k], m))
            || (m.offset == k && Finishes(d[..k], m, Closing(m.stacks.types, m.stacks.names)))
    decreases |es|
  {
    i, m := 0, s;
    RunsNone(d[..k], s);
    if s.offset == k {
      ClosesAll(d[..k], s);
    } else if es == [] {
      RunsNone(d, s);
      RunsFunctional(d, s, [], s, t);
    } else {
      assert es == [es[0]] + es[1..];
      var s1 := RunsFirst(d, s, es[0], es[1..], t);
      CutCall(d, k, s);
      if Reach(s, s1) <= k {
        NestsNext(d, s);
        RunsOne(d[..k], s, es[0], s1);
        i, m := CutRun(d, k, s1, es[1..], t);
        RunsJoin(d[..k], s, [es[0]], s1, es[1..][..i], m);
        FirstEvents(es, i);
        i := i + 1;
      }
    }
  }

  lemma {:induction false} FirstEvents(es: seq<Event>, i: nat)
    requires i < |es|
    ensures es[..i + 1] == [es[0]] + es[1..][..i]
  {
  }

  // ----- what a cut leaves of a tree

  /** What is left of cells of width `w` when `r` bytes of them are there. */
  function PruneCells(w: nat, vs: seq<int>, r: nat): Option<seq<int>>
    decreases |vs|
  {
    if r == 0 || vs == [] then Some([])
    else if r < w then None
    else
      match PruneCells(w, vs[1..], r - w)
      case None => None
      case Some(us) => Some([vs[0]] + us)
  }

  /** What is left of a payload when only `r` bytes of its body are there: the
      complete parts and, inside them, what is left of the last one.  None if a
      number, a string or a header is cut in two, or a name is the last thing there
      that no array or list header follows. */
  function PruneBody(p: Payload, r: nat): (q: Option<Payload>)
    ensures q.Some? ==> TypeOf(q.value) == TypeOf(p)
    decreases p, 1
  {
    if r == |Body(p)| then Some(p)
    else
      match p
      case Array(kind, vs) =>
        (match PruneCells(Width(CellKind(kind)), vs, r)
         case None => None
         case Some(us) => Some(Array(kind, us)))
      case List(elem, items) =>
        (match PruneItems(items, r)
         case None => None
         case Some(xs) => Some(List(elem, xs)))
      case Compound(tags) =>
        (match PruneTags(tags, r)
         case None => None
         case Some(ts) => Some(Compound(ts)))
      case _ => None
  }

  function PruneItems(items: seq<Payload>, r: nat): Option<seq<Payload>>
    decreases items, 0
  {
    if r == 0 || items == [] then Some([])
    else
      var x, n := items[0], |Encode(items[0])|;
      if r > n then
        match PruneItems(items[1..], r - n)
        case None => None
        case Some(rest) => Some([x] + rest)
      else
        match PruneItem(x, r)
        case None => None
        case Some(y) => Some([y])
  }

  function PruneItem(x: Payload, r: nat): (q: Option<Payload>)
    ensures q.Some? ==> TypeOf(q.value) == TypeOf(x)
    decreases x, 2
  {
    if r < |Header(x)| then None else PruneBody(x, r - |Header(x)|)
  }

  /** The same for named tags. */
  function PruneTags(tags: seq<Tag>, r: nat): Option<seq<Tag>>
    decreases tags, 0
  {
    if r == 0 || tags == [] then Some([])
    else
      var t, n := tags[0], |EncodeTag(tags[0])|;
      if r > n then
        match PruneTags(tags[1..], r - n)
        case None => None
        case Some(rest) => Some([t] + rest)
      else
        match PruneTag(t, r)
        case None => None
        case Some(u) => Some([u])
  }

  /** A name without any byte after it does not make a START. */
  function PruneTag(t: Tag, r: nat): (u: Option<Tag>)
    ensures u.Some? ==> u.value.name == t.name && TypeOf(u.value.payload) == TypeOf(t.payload)
    decreases t, 0
  {
    if r <= |TagHeader(t)| || r < |TagHeader(t)| + |Header(t.payload)| then None
    else
      match PruneBody(t.payload, r - |TagHeader(t)| - |Header(t.payload)|)
      case None => None
      case Some(q) => Some(Tag(t.name, q))
  }

  // ----- runs on a cut encoding

  lemma {:induction false} CutOffAfter(d: seq<byte>, s: State, a: seq<Event>, m: State, b: seq<Event>)
    requires Runs(d, s, a, m) && CutOff(d, m, b)
    ensures CutOff(d, s, a + b)
  {
    var seen :| Fails(d, m, seen) && seen <= b;
    var t :| Runs(d, m, seen, t) && Exhausted(d, t);
    RunsJoin(d, s, a, m, seen, t);
    assert Fails(d, s, a + seen) && a + seen <= a + b;
  }

  lemma {:induction false} CutOffBefore(d: seq<byte>, s: State, a: seq<Event>, b: seq<Event>)
    requires CutOff(d, s, a)
    ensures CutOff(d, s, a + b)
  {
    var seen :| Fails(d, s, seen) && seen <= a;
    assert seen <= a + b;
  }

  lemma {:induction false} AtCut(d: seq<byte>, k: nat, o: nat, x: seq<byte>)
    requires At(d, o, x) && o + |x| <= k <= |d|
    ensures At(d[..k], o, x)
  {
    SliceCut(d, k, o, |x|);
  }

  lemma {:induction false} OneCall(d: seq<byte>, s: State, e: Event, u: State)
    requires Runs(d, s, [e], u)
    ensures Call(d, s, e, u)
  {
    assert [e] == [e] + [];
    var m := RunsFirst(d, s, e, [], u);
    RunsNone(d, m);
    RunsFunctional(d, m, [], m, u);
  }

  /** The whole buffer has a call here that reaches beyond the cut. */
  lemma {:induction false} CutHere(d: seq<byte>, k: nat, s: State, e: Event, u: State, es: seq<Event>)
    requires Runs(d, s, [e], u) && s.offset < k <= |d| && k < Reach(s, u)
    ensures CutOff(d[..k], s, es)
  {
    OneCall(d, s, e, u);
    CutCall(d, k, s);
    RunsNone(d[..k], s);
    assert Fails(d[..k], s, []) && [] <= es;
  }

  /** What is seen of an open tag's contents, by what is left of them. */
  ghost predicate BodySeen(d: seq<byte>, s: State, base: Stacks, name: seq<byte>, p: Payload, left: Option<Payload>) {
    match left
    case Some(q) => Finishes(d, s, Inner(name, q) + ([End(TypeOf(p), name)] + Closing(base.types, base.names)))
    case None => CutOff(d, s, Inner(name, p))
  }

  lemma {:induction false} BodyCut(d: seq<byte>, k: nat, s: State, o: nat, base: Stacks, name: seq<byte>, p: Payload)
    requires WF(p) && InLimits(p) && p != Null && base.types.Depth() == base.names.Depth()
    requires Open(s, o, Opened(base, name, p)) && At(d, o, Body(p)) && o <= k <= o + |Body(p)|
    requires Header(p) == [] ==> o < k
    ensures BodySeen(d[..k], s, base, name, p, PruneBody(p, k - o))
    decreases p, 1
  {
    if k == o + |Body(p)| {
      AtCut(d, k, o, Body(p));
      var u := TailRun(d[..k], s, o, base, name, p);
    } else {
      match p
      case Scalar(kind, v) =>
        var u := ScalarRun(d, s, o, base, name, kind, v);
        CutHere(d, k, s, Data(kind, name, Num(v)), u, Inner(name, p));
      case Str(cs) =>
        StrDecoded(d, o, cs);
        var u := StrRun(d, s, o, base, name, cs);
        CutHere(d, k, s, Data(TAG_STRING, name, Text(cs)), u, Inner(name, p));
      case Array(kind, vs) =>
        CountIsSelf(|vs|);
        CellsCut(d, k, s, o, Opened(base, name, p), kind, name, vs);
      case List(elem, items) =>
        ListCut(d, k, s, o, base, name, p);
      case Compound(tags) =>
        AtConcat(d, o, EncodeTags(tags), [TAG_END]);
        TagsCut(d, k, s, o, Opened(base, name, p), tags);
    }
  }

  /** What is seen of an array's cells, by what is left of them. */
  ghost predicate CellsSeen(d: seq<byte>, s: State, kind: TagId, name: seq<byte>, vs: seq<int>,
                            left: Option<seq<int>>, closing: seq<Event>) {
    match left
    case Some(us) => Finishes(d, s, DataEvents(kind, name, us) + closing)
    case None => CutOff(d, s, DataEvents(kind, name, vs))
  }

  lemma {:induction false} CellsCut(d: seq<byte>, k: nat, s: State, o: nat, st: Stacks, kind: TagId, name: seq<byte>,
                                    vs: seq<int>)
    requires InArray(s, o, st, kind, name, |vs|) && st.types.Depth() == st.names.Depth()
    requires AllInRange(CellKind(kind), vs)
    requires At(d, o, Numbers(CellKind(kind), vs)) && o <= k <= o + |Numbers(CellKind(kind), vs)|
    ensures CellsSeen(d[..k], s, kind, name, vs, PruneCells(Width(CellKind(kind)), vs, k - o),
                      Closing(st.types, st.names))
    decreases |vs|
  {
    var w, closing := Width(CellKind(kind)), Closing(st.types, st.names);
    if k == o {
      ClosedAt(d, k, s, st);
      NoCellsSeen(d[..k], s, kind, name, vs, w, closing);
    } else {
      var v, rest := vs[0], vs[1..];
      CellsSplit(d, o, CellKind(kind), vs);
      var t := CellCut(d, k, s, o, st, kind, name, vs);
      if k >= o + w {
        CellsCut(d, k, t, o + w, Bumped(st, 1), kind, name, rest);
        MoreCellsSeen(d[..k], s, kind, name, vs, t, w, k - o, closing);
      }
    }
  }

  lemma {:induction false} ClosedAt(d: seq<byte>, k: nat, s: State, st: Stacks)
    requires k <= |d| && s.offset == k && s.stacks == st && st.types.Depth() == st.names.Depth()
    ensures Finishes(d[..k], s, Closing(st.types, st.names))
  {
    ClosesAll(d[..k], s);
  }

  lemma {:induction false} NoCellsSeen(d: seq<byte>, s: State, kind: TagId, name: seq<byte>, vs: seq<int>, w: nat,
                                       closing: seq<Event>)
    requires Finishes(d, s, closing)
    ensures CellsSeen(d, s, kind, name, vs, PruneCells(w, vs, 0), closing)
  {
    assert DataEvents(kind, name, []) + closing == closing;
  }

  /** The first cell is read if it is there. */
  lemma {:induction false} CellCut(d: seq<byte>, k: nat, s: State, o: nat, st: Stacks, kind: TagId, name: seq<byte>,
                                   vs: seq<int>) returns (t: State)
    requires vs != [] && InArray(s, o, st, kind, name, |vs|) && InRange(CellKind(kind), vs[0])
    requires At(d, o, Number(CellKind(kind), vs[0])) && o < k <= |d|
    ensures var w := Width(CellKind(kind));
            if k < o + w then CutOff(d[..k], s, DataEvents(kind, name, vs))
            else Runs(d[..k], s, [Data(kind, name, Num(vs[0]))], t)
                 && InArray(t, o + w, Bumped(st, 1), kind, name, |vs| - 1)
  {
    if k < o + Width(CellKind(kind)) {
      t := CellStep(d, s, o, st, kind, name, |vs|, vs[0]);
      CutHere(d, k, s, Data(kind, name, Num(vs[0])), t, DataEvents(kind, name, vs));
    } else {
      AtCut(d, k, o, Number(CellKind(kind), vs[0]));
      t := CellStep(d[..k], s, o, st, kind, name, |vs|, vs[0]);
    }
  }

  lemma {:induction false} MoreCellsSeen(d: seq<byte>, s: State, kind: TagId, name: seq<byte>, vs: seq<int>, t: State,
                                         w: nat, r: nat, closing: seq<Event>)
    requires vs != [] && 0 < w <= r && Runs(d, s, [Data(kind, name, Num(vs[0]))], t)
    requires CellsSeen(d, t, kind, name, vs[1..], PruneCells(w, vs[1..], r - w), closing)
    ensures CellsSeen(d, s, kind, name, vs, PruneCells(w, vs, r), closing)
  {
    var first, left := [Data(kind, name, Num(vs[0]))], PruneCells(w, vs[1..], r - w);
    if left.Some? {
      FinishesAfter(d, s, first, t, DataEvents(kind, name, left.value) + closing);
      DataThen(kind, name, vs[0], left.value, closing);
    } else {
      CutOffAfter(d, s, first, t, DataEvents(kind, name, vs[1..]));
    }
  }

  lemma {:induction false} DataThen(kind: TagId, name: seq<byte>, v: int, us: seq<int>, es: seq<Event>)
    ensures DataEvents(kind, name, [v] + us) + es == [Data(kind, name, Num(v))] + (DataEvents(kind, name, us) + es)
  {
    assert ([v] + us)[1..] == us;
  }

  lemma {:induction false} ListCut(d: seq<byte>, k: nat, s: State, o: nat, base: Stacks, name: seq<byte>, p: Payload)
    requires p.List? && WF(p) && InLimits(p) && base.types.Depth() == base.names.Depth()
    requires Open(s, o, Opened(base, name, p)) && At(d, o, Body(p)) && o <= k < o + |Body(p)|
    ensures BodySeen(d[..k], s, base, name, p, PruneBody(p, k - o))
    decreases p.items, 3
  {
    if p.elem == TAG_END { NullItems(p.items); }
    ListOpened(s, o, base, name, p);
    ItemsCut(d, k, s, o, Opened(base, name, p), p.items);
  }

  /** What is seen of a list's elements, by what is left of them. */
  ghost predicate ItemsSeen(d: seq<byte>, s: State, items: seq<Payload>, left: Option<seq<Payload>>,
                            closing: seq<Event>) {
    match left
    case Some(xs) => Finishes(d, s, ItemEvents(xs) + closing)
    case None => CutOff(d, s, ItemEvents(items))
  }

  lemma {:induction false} ItemsCut(d: seq<byte>, k: nat, s: State, o: nat, st: Stacks, items: seq<Payload>)
    requires Expects(s, o, st, items) && InLimitsItems(items) && st.types.Depth() == st.names.Depth()
    requires At(d, o, EncodeItems(items)) && o <= k <= o + |EncodeItems(items)|
    ensures ItemsSeen(d[..k], s, items, PruneItems(items, k - o), Closing(st.types, st.names))
    decreases items, 2
  {
    var closing := Closing(st.types, st.names);
    if k == o {
      ClosedAt(d, k, s, st);
      NothingSeen(d[..k], s, items, [], closing);
    } else {
      ItemsSplit(d, o, items);
      if k <= o + |Encode(items[0])| {
        FirstItemCut(d, k, s, o, st, items);
      } else {
        OtherItemsCut(d, k, s, o, st, items, o + |Encode(items[0])|);
      }
    }
  }

  lemma {:induction false} OtherItemsCut(d: seq<byte>, k: nat, s: State, o: nat, st: Stacks, items: seq<Payload>,
                                         end: nat)
    requires items != [] && Expects(s, o, st, items) && InLimitsItems(items) && st.types.Depth() == st.names.Depth()
    requires end == o + |Encode(items[0])| && At(d, o, Encode(items[0])) && At(d, end, EncodeItems(items[1..]))
    requires end < k <= end + |EncodeItems(items[1..])|
    ensures ItemsSeen(d[..k], s, items, PruneItems(items, k - o), Closing(st.types, st.names))
    decreases items, 1
  {
    var t := ItemPassed(d, k, s, o, st, items);
    RestCut(d, k, s, end, Bumped(st, 1), items, t);
  }

  lemma {:induction false} RestCut(d: seq<byte>, k: nat, s: State, o: nat, st: Stacks, items: seq<Payload>, t: State)
    requires items != [] && Expects(t, o, st, items[1..]) && InLimitsItems(items[1..])
    requires st.types.Depth() == st.names.Depth()
    requires At(d, o, EncodeItems(items[1..])) && o < k <= o + |EncodeItems(items[1..])|
    requires Runs(d[..k], s, Events([], items[0]), t)
    ensures ItemsSeen(d[..k], s, items, PruneItems(items, |Encode(items[0])| + (k - o)), Closing(st.types, st.names))
    decreases items, 0
  {
    ItemsCut(d, k, t, o, st, items[1..]);
    MoreItemsSeen(d[..k], s, items, t, |Encode(items[0])| + (k - o), Closing(st.types, st.names));
  }

  lemma {:induction false} FirstDue(s: State, o: nat, st: Stacks, items: seq<Payload>)
    requires items != [] && Expects(s, o, st, items) && InLimitsItems(items)
    ensures var x := items[0]; WF(x) && InLimits(x) && x != Null && ElementDue(s, o, st, TypeOf(x))
  {
  }

  lemma {:induction false} RestDue(s: State, o: nat, st: Stacks, items: seq<Payload>, t: State, p: nat)
    requires items != [] && Expects(s, o, st, items) && InLimitsItems(items) && Gap(t, p, Bumped(st, 1))
    ensures Expects(t, p, Bumped(st, 1), items[1..]) && InLimitsItems(items[1..])
  {
  }

  lemma {:induction false} NothingSeen(d: seq<byte>, s: State, items: seq<Payload>, tags: seq<Tag>, closing: seq<Event>)
    requires Finishes(d, s, closing)
    ensures ItemsSeen(d, s, items, PruneItems(items, 0), closing) && TagsSeen(d, s, tags, PruneTags(tags, 0), closing)
  {
    assert ItemEvents([]) + closing == closing && TagsEvents([]) + closing == closing;
  }

  lemma {:induction false} FirstItemCut(d: seq<byte>, k: nat, s: State, o: nat, st: Stacks, items: seq<Payload>)
    requires items != [] && Expects(s, o, st, items) && InLimitsItems(items) && st.types.Depth() == st.names.Depth()
    requires At(d, o, Encode(items[0])) && o < k <= o + |Encode(items[0])|
    ensures ItemsSeen(d[..k], s, items, PruneItems(items, k - o), Closing(st.types, st.names))
    decreases items[0], 4
  {
    FirstDue(s, o, st, items);
    ItemCut(d, k, s, o, st, items[0]);
    LastItemSeen(d[..k], s, items, k - o, Closing(st.types, st.names));
  }

  lemma {:induction false} ItemPassed(d: seq<byte>, k: nat, s: State, o: nat, st: Stacks, items: seq<Payload>)
    returns (t: State)
    requires items != [] && Expects(s, o, st, items) && InLimitsItems(items)
    requires At(d, o, Encode(items[0])) && o + |Encode(items[0])| < k <= |d|
    ensures Runs(d[..k], s, Events([], items[0]), t)
    ensures Expects(t, o + |Encode(items[0])|, Bumped(st, 1), items[1..]) && InLimitsItems(items[1..])
    decreases items, 0
  {
    FirstDue(s, o, st, items);
    AtCut(d, k, o, Encode(items[0]));
    t := ItemRun(d[..k], s, o, st, items[0]);
    RestDue(s, o, st, items, t, o + |Encode(items[0])|);
  }

  /** What is seen of a tag or an element, START and END included. */
  ghost predicate EventsSeen(d: seq<byte>, s: State, name: seq<byte>, p: Payload, left: Option<Payload>,
                             closing: seq<Event>) {
    match left
    case Some(q) => Finishes(d, s, Events(name, q) + closing)
    case None => CutOff(d, s, Events(name, p))
  }

  lemma {:induction false} LastItemSeen(d: seq<byte>, s: State, items: seq<Payload>, r: nat, closing: seq<Event>)
    requires items != [] && 0 < r <= |Encode(items[0])|
    requires EventsSeen(d, s, [], items[0], PruneItem(items[0], r), closing)
    ensures ItemsSeen(d, s, items, PruneItems(items, r), closing)
  {
    var left := PruneItem(items[0], r);
    if left.Some? {
      assert ItemEvents([left.value]) == Events([], left.value);
    } else {
      CutOffBefore(d, s, Events([], items[0]), ItemEvents(items[1..]));
    }
  }

  lemma {:induction false} MoreItemsSeen(d: seq<byte>, s: State, items: seq<Payload>, t: State, r: nat,
                                         closing: seq<Event>)
    requires items != [] && r > |Encode(items[0])| && Runs(d, s, Events([], items[0]), t)
    requires ItemsSeen(d, t, items[1..], PruneItems(items[1..], r - |Encode(items[0])|), closing)
    ensures ItemsSeen(d, s, items, PruneItems(items, r), closing)
  {
    var left := PruneItems(items[1..], r - |Encode(items[0])|);
    if left.Some? {
      FinishesAfter(d, s, Events([], items[0]), t, ItemEvents(left.value) + closing);
      assert ([items[0]] + left.value)[1..] == left.value;
      ItemEventsThen([items[0]] + left.value, closing);
    } else {
      CutOffAfter(d, s, Events([], items[0]), t, ItemEvents(items[1..]));
    }
  }

  /** The element the cut falls into. */
  lemma {:induction false} ItemCut(d: seq<byte>, k: nat, s: State, o: nat, st: Stacks, x: Payload)
    requires WF(x) && InLimits(x) && x != Null && ElementDue(s, o, st, TypeOf(x))
    requires st.types.Depth() == st.names.Depth()
    requires At(d, o, Encode(x)) && o < k <= o + |Encode(x)|
    ensures EventsSeen(d[..k], s, [], x, PruneItem(x, k - o), Closing(st.types, st.names))
    decreases x, 3
  {
    var h := |Header(x)|;
    AtConcat(d, o, Header(x), Body(x));
    if k < o + h {
      var u := ItemStart(d, s, o, st, x);
      CutHere(d, k, s, Start(TypeOf(x), []), u, Events([], x));
    } else {
      AtCut(d, k, o, Header(x));
      var t := ItemStart(d[..k], s, o, st, x);
      ItemInside(d, k, s, o + h, Bumped(st, 1), x, k - o, t);
    }
  }

  lemma {:induction false} ItemInside(d: seq<byte>, k: nat, s: State, o: nat, st: Stacks, x: Payload, r: nat, t: State)
    requires WF(x) && InLimits(x) && x != Null && st.types.Depth() == st.names.Depth()
    requires r == |Header(x)| + (k - o) && r > 0
    requires k <= |d| && Runs(d[..k], s, [Start(TypeOf(x), [])], t)
    requires Open(t, o, Opened(st, [], x)) && At(d, o, Body(x)) && o <= k <= o + |Body(x)|
    ensures EventsSeen(d[..k], s, [], x, PruneItem(x, r), Closing(st.types, st.names))
    decreases x, 2
  {
    BodyCut(d, k, t, o, st, [], x);
    Started(d[..k], s, st, [], x, PruneBody(x, k - o), t);
  }

  /** The START of a tag and what is seen of its contents. */
  lemma {:induction false} Started(d: seq<byte>, s: State, base: Stacks, name: seq<byte>, p: Payload,
                                   left: Option<Payload>, t: State)
    requires p != Null && Runs(d, s, [Start(TypeOf(p), name)], t) && BodySeen(d, t, base, name, p, left)
    requires left.Some? ==> left.value != Null && TypeOf(left.value) == TypeOf(p)
    ensures EventsSeen(d, s, name, p, left, Closing(base.types, base.names))
  {
    var closing := Closing(base.types, base.names);
    match left
    case Some(q) =>
      EventsThen(name, q, closing);
      FinishesAfter(d, s, [Start(TypeOf(q), name)], t, Inner(name, q) + ([End(TypeOf(q), name)] + closing));
    case None =>
      CutOffBefore(d, t, Inner(name, p), [End(TypeOf(p), name)]);
      CutOffAfter(d, s, [Start(TypeOf(p), name)], t, Inner(name, p) + [End(TypeOf(p), name)]);
  }

  /** What is seen of named tags, by what is left of them. */
  ghost predicate TagsSeen(d: seq<byte>, s: State, tags: seq<Tag>, left: Option<seq<Tag>>, closing: seq<Event>) {
    match left
    case Some(ts) => Finishes(d, s, TagsEvents(ts) + closing)
    case None => CutOff(d, s, TagsEvents(tags))
  }

  lemma {:induction false} TagsCut(d: seq<byte>, k: nat, s: State, o: nat, st: Stacks, tags: seq<Tag>)
    requires WFTags(tags) && InLimitsTags(tags) && Ready(s, o, st) && st.types.Depth() == st.names.Depth()
    requires At(d, o, EncodeTags(tags)) && o <= k <= o + |EncodeTags(tags)|
    ensures TagsSeen(d[..k], s, tags, PruneTags(tags, k - o), Closing(st.types, st.names))
    decreases tags, 0
  {
    var closing := Closing(st.types, st.names);
    if k == o {
      ClosedAt(d, k, s, st);
      NothingSeen(d[..k], s, [], tags, closing);
    } else {
      FirstTag(d, o, tags);
      if k <= o + |EncodeTag(tags[0])| {
        TagCut(d, k, s, o, st, tags[0]);
        LastTagSeen(d[..k], s, tags, k - o, closing);
      } else {
        var v := TagPassed(d, k, s, o, st, tags[0]);
        TagsCut(d, k, v, o + |EncodeTag(tags[0])|, st, tags[1..]);
        MoreTagsSeen(d[..k], s, tags, v, k - o, closing);
      }
    }
  }

  lemma {:induction false} FirstTag(d: seq<byte>, o: nat, tags: seq<Tag>)
    requires tags != [] && At(d, o, EncodeTags(tags))
    ensures At(d, o, EncodeTag(tags[0])) && At(d, o + |EncodeTag(tags[0])|, EncodeTags(tags[1..]))
    ensures |EncodeTags(tags)| == |EncodeTag(tags[0])| + |EncodeTags(tags[1..])|
  {
    var first, rest := EncodeTag(tags[0]), EncodeTags(tags[1..]);
    assert EncodeTags(tags) == first + rest;
    AtConcat(d, o, first, rest);
  }

  lemma {:induction false} TagPassed(d: seq<byte>, k: nat, s: State, o: nat, st: Stacks, t: Tag) returns (v: State)
    requires WFTag(t) && InLimitsTag(t) && Ready(s, o, st)
    requires At(d, o, EncodeTag(t)) && o + |EncodeTag(t)| < k <= |d|
    ensures Runs(d[..k], s, TagEvents(t), v) && Ready(v, o + |EncodeTag(t)|, st)
  {
    AtCut(d, k, o, EncodeTag(t));
    v := TagRun(d[..k], s, o, st, t);
  }

  ghost predicate TagSeen(d: seq<byte>, s: State, t: Tag, left: Option<Tag>, closing: seq<Event>) {
    match left
    case Some(u) => Finishes(d, s, TagEvents(u) + closing)
    case None => CutOff(d, s, TagEvents(t))
  }

  lemma {:induction false} LastTagSeen(d: seq<byte>, s: State, tags: seq<Tag>, r: nat, closing: seq<Event>)
    requires tags != [] && 0 < r <= |EncodeTag(tags[0])| && TagSeen(d, s, tags[0], PruneTag(tags[0], r), closing)
    ensures TagsSeen(d, s, tags, PruneTags(tags, r), closing)
  {
    var left := PruneTag(tags[0], r);
    if left.Some? {
      assert TagsEvents([left.value]) == TagEvents(left.value);
    } else {
      CutOffBefore(d, s, TagEvents(tags[0]), TagsEvents(tags[1..]));
    }
  }

  lemma {:induction false} MoreTagsSeen(d: seq<byte>, s: State, tags: seq<Tag>, t: State, r: nat, closing: seq<Event>)
    requires tags != [] && r > |EncodeTag(tags[0])| && Runs(d, s, TagEvents(tags[0]), t)
    requires TagsSeen(d, t, tags[1..], PruneTags(tags[1..], r - |EncodeTag(tags[0])|), closing)
    ensures TagsSeen(d, s, tags, PruneTags(tags, r), closing)
  {
    var left := PruneTags(tags[1..], r - |EncodeTag(tags[0])|);
    if left.Some? {
      FinishesAfter(d, s, TagEvents(tags[0]), t, TagsEvents(left.value) + closing);
      TagsEventsThen(tags[0], left.value, closing);
    } else {
      CutOffAfter(d, s, TagEvents(tags[0]), t, TagsEvents(tags[1..]));
    }
  }

  lemma {:induction false} TagsEventsThen(t: Tag, ts: seq<Tag>, es: seq<Event>)
    ensures TagsEvents([t] + ts) + es == TagEvents(t) + (TagsEvents(ts) + es)
  {
    assert ([t] + ts)[1..] == ts;
  }

  /** The named tag the cut falls into. */
  lemma {:induction false} TagCut(d: seq<byte>, k: nat, s: State, o: nat, st: Stacks, t: Tag)
    requires WFTag(t) && InLimitsTag(t) && Ready(s, o, st) && st.types.Depth() == st.names.Depth()
    requires At(d, o, EncodeTag(t)) && o < k <= o + |EncodeTag(t)|
    ensures TagSeen(d[..k], s, t, PruneTag(t, k - o), Closing(st.types, st.names))
    decreases t, 1
  {
    var n, h := |TagHeader(t)|, |Header(t.payload)|;
    TagSplit(d, o, t);
    if k <= o + n || k < o + n + h {
      TagHeaderCut(d, k, s, o, st, t);
    } else {
      var v := TagOpened(d, k, s, o, st, t);
      TagInside(d, k, s, o + n + h, st, t, k - o, v);
    }
  }

  lemma {:induction false} TagHeaderCut(d: seq<byte>, k: nat, s: State, o: nat, st: Stacks, t: Tag)
    requires WFTag(t) && InLimitsTag(t) && Ready(s, o, st) && At(d, o, EncodeTag(t)) && o < k <= |d|
    requires k <= o + |TagHeader(t)| || k < o + |TagHeader(t)| + |Header(t.payload)|
    ensures TagSeen(d[..k], s, t, PruneTag(t, k - o), Closing(st.types, st.names))
  {
    TagSplit(d, o, t);
    var u := NamedStart(d, s, o, st, t);
    NamedReach(d, s, o, st, t, u);
    CutHere(d, k, s, Start(TypeOf(t.payload), t.name), u, TagEvents(t));
  }

  lemma {:induction false} TagOpened(d: seq<byte>, k: nat, s: State, o: nat, st: Stacks, t: Tag) returns (v: State)
    requires WFTag(t) && InLimitsTag(t) && Ready(s, o, st) && At(d, o, TagHeader(t) + Header(t.payload)) && k <= |d|
    requires o + |TagHeader(t)| < k && o + |TagHeader(t)| + |Header(t.payload)| <= k
    ensures Runs(d[..k], s, [Start(TypeOf(t.payload), t.name)], v)
    ensures Open(v, o + |TagHeader(t)| + |Header(t.payload)|, Opened(st, t.name, t.payload))
  {
    AtCut(d, k, o, TagHeader(t) + Header(t.payload));
    v := NamedStart(d[..k], s, o, st, t);
  }

  lemma {:induction false} TagInside(d: seq<byte>, k: nat, s: State, o: nat, st: Stacks, t: Tag, r: nat,
                                     v: State)
    requires WFTag(t) && InLimitsTag(t) && st.types.Depth() == st.names.Depth()
    requires r == |TagHeader(t)| + |Header(t.payload)| + (k - o) && r > |TagHeader(t)|
    requires k <= |d| && Runs(d[..k], s, [Start(TypeOf(t.payload), t.name)], v)
    requires Open(v, o, Opened(st, t.name, t.payload)) && At(d, o, Body(t.payload))
    requires o <= k <= o + |Body(t.payload)|
    ensures TagSeen(d[..k], s, t, PruneTag(t, r), Closing(st.types, st.names))
    decreases t, 0
  {
    BodyCut(d, k, v, o, st, t.name, t.payload);
    Started(d[..k], s, st, t.name, t.payload, PruneBody(t.payload, k - o), v);
  }

  lemma {:induction false} NamedReach(d: seq<byte>, s: State, o: nat, st: Stacks, t: Tag, u: State)
    requires WFTag(t) && Ready(s, o, st) && Runs(d, s, [Start(TypeOf(t.payload), t.name)], u)
    ensures u.stacks.types.Push? && u.stacks.types.top == TypeOf(t.payload)
    ensures Header(t.payload) == [] ==> PlainStart(s, u)
  {
    OneCall(d, s, Start(TypeOf(t.payload), t.name), u);
  }

  lemma {:induction false} WholeTagKept(t: Tag)
    requires WFTag(t)
    ensures PruneTag(t, |EncodeTag(t)|) == Some(t)
  {
    PayloadNonEmpty(t.payload);
    assert PruneBody(t.payload, |Body(t.payload)|) == Some(t.payload);
    assert |EncodeTag(t)| == |TagHeader(t)| + |Header(t.payload)| + |Body(t.payload)|;
  }

  /** A cut between two tags, or at the very end, keeps the tags before it as they
      are. */
  lemma {:induction false} WholeKept(ts: seq<Tag>, after: seq<Tag>)
    requires WFTags(ts)
    ensures PruneTags(ts + after, |EncodeTags(ts)|) == Some(ts)
  {
    if ts != [] {
      var t, rest := ts[0], ts[1..];
      assert WFTag(t) && WFTags(rest) && ts == [t] + rest;
      assert (ts + after)[0] == t && (ts + after)[1..] == rest + after;
      assert EncodeTags(ts) == EncodeTag(t) + EncodeTags(rest);
      WholeTagKept(t);
      if rest == [] {
        assert |EncodeTags(ts)| == |EncodeTag(t)| && ts == [t];
      } else {
        assert WFTag(rest[0]) && |EncodeTags(rest)| > 0;
        WholeKept(rest, after);
      }
    }
  }

  // ----- what is left is a tree again

  lemma {:induction false} CellsLeft(kind: TagId, vs: seq<int>, r: nat)
    requires AllInRange(kind, vs)
    ensures var us := PruneCells(Width(kind), vs, r);
            us.Some? ==> |us.value| <= |vs| && AllInRange(kind, us.value)
    decreases |vs|
  {
    if r >= Width(kind) && vs != [] { CellsLeft(kind, vs[1..], r - Width(kind)); }
  }

  /** Well formed and within the limits. */
  ghost predicate Fine(p: Payload) {
    WF(p) && InLimits(p) && p != Null
  }

  lemma {:induction false} BodyLeft(p: Payload, r: nat)
    requires Fine(p) && r <= |Body(p)|
    ensures var q := PruneBody(p, r); q.Some? ==> Fine(q.value)
    decreases p, 1
  {
    if r < |Body(p)| {
      match p
      case Array(kind, vs) => CellsLeft(CellKind(kind), vs, r);
      case List(elem, items) =>
        if elem == TAG_END { NullItems(items); }
        ItemsLeft(elem, items, r);
      case Compound(tags) => TagsLeft(tags, r);
      case _ =>
    }
  }

  lemma {:induction false} ItemsLeft(elem: TagId, items: seq<Payload>, r: nat)
    requires elem != TAG_END && WFItems(elem, items) && InLimitsItems(items)
    ensures var xs := PruneItems(items, r);
            xs.Some? ==> |xs.value| <= |items| && WFItems(elem, xs.value) && InLimitsItems(xs.value)
    decreases items, 0
  {
    if r > 0 && items != [] {
      var x := items[0];
      OnlyNull(x);
      if r > |Encode(x)| {
        ItemsLeft(elem, items[1..], r - |Encode(x)|);
        var rest := PruneItems(items[1..], r - |Encode(x)|);
        if rest.Some? { assert ([x] + rest.value)[1..] == rest.value; }
      } else if r >= |Header(x)| {
        BodyLeft(x, r - |Header(x)|);
      }
    }
  }

  lemma {:induction false} TagsLeft(tags: seq<Tag>, r: nat)
    requires WFTags(tags) && InLimitsTags(tags)
    ensures var ts := PruneTags(tags, r); ts.Some? ==> WFTags(ts.value) && InLimitsTags(ts.value)
    decreases tags, 0
  {
    if r > 0 && tags != [] {
      var t := tags[0];
      if r > |EncodeTag(t)| {
        TagsLeft(tags[1..], r - |EncodeTag(t)|);
        var rest := PruneTags(tags[1..], r - |EncodeTag(t)|);
        if rest.Some? { assert ([t] + rest.value)[1..] == rest.value; }
      } else {
        TagLeft(t, r);
      }
    }
  }

  lemma {:induction false} TagLeft(t: Tag, r: nat)
    requires WFTag(t) && InLimitsTag(t) && r <= |EncodeTag(t)|
    ensures var u := PruneTag(t, r); u.Some? ==> WFTag(u.value) && InLimitsTag(u.value)
    decreases t, 0
  {
    var n := |TagHeader(t)| + |Header(t.payload)|;
    assert |EncodeTag(t)| == n + |Body(t.payload)|;
    if r >= n { BodyLeft(t.payload, r - |TagHeader(t)| - |Header(t.payload)|); }
  }

  // ----- main results

  /** The encodings of any tags within the limits, cut short anywhere: the reader
      reports the flattening of what is left of them, every tag still open at the
      cut closed, and then the end of the document; or, if the cut goes through a
      header, a number or a string, or lies right after the name of a number, string
      or compound tag, it reports some first events of the flattening and throws.
      What is left is again within the limits, and its own encoding is
      read to the same events: the reader cannot tell a file cut there from a
      complete one. */
  lemma {:induction false} TruncatedRun(ts: seq<Tag>, k: nat)
    requires WFTags(ts) && InLimitsTags(ts) && k <= |EncodeTags(ts)|
    ensures match PruneTags(ts, k)
            case Some(us) =>
              && Finishes(EncodeTags(ts)[..k], INITIAL, TagsEvents(us) + [DocumentEnd])
              && WFTags(us) && InLimitsTags(us)
              && Finishes(EncodeTags(us), INITIAL, TagsEvents(us) + [DocumentEnd])
            case None => CutOff(EncodeTags(ts)[..k], INITIAL, TagsEvents(ts))
  {
    RootsCut(ts, k);
    TagsLeft(ts, k);
    match PruneTags(ts, k)
    case Some(us) => RootsWhole(us);
    case None =>
  }

  lemma {:induction false} RootsCut(ts: seq<Tag>, k: nat)
    requires WFTags(ts) && InLimitsTags(ts) && k <= |EncodeTags(ts)|
    ensures TagsSeen(EncodeTags(ts)[..k], INITIAL, ts, PruneTags(ts, k), [DocumentEnd])
  {
    assert At(EncodeTags(ts), 0, EncodeTags(ts));
    TagsCut(EncodeTags(ts), k, INITIAL, 0, NO_STACKS, ts);
  }

  /** The encodings of any number of tags, one after the other. */
  lemma {:induction false} RootsWhole(ts: seq<Tag>)
    requires WFTags(ts) && InLimitsTags(ts)
    ensures Finishes(EncodeTags(ts), INITIAL, TagsEvents(ts) + [DocumentEnd])
  {
    var d := EncodeTags(ts);
    RootsCut(ts, |d|);
    WholeKept(ts, []);
    assert ts + [] == ts && d[..|d|] == d;
  }

  /** A reader that runs out of bytes never comes to the end of the document. */
  lemma {:induction false} NotBoth(d: seq<byte>, es: seq<Event>, fs: seq<Event>)
    requires CutOff(d, INITIAL, es)
    ensures !Finishes(d, INITIAL, fs + [DocumentEnd])
  {
    var seen :| Fails(d, INITIAL, seen) && seen <= es;
    var t :| Runs(d, INITIAL, seen, t) && Exhausted(d, t);
    var n := |seen|;
    if Finishes(d, INITIAL, fs + [DocumentEnd]) {
      var u :| Runs(d, INITIAL, fs + [DocumentEnd], u);
      var m := RunsSplit(d, INITIAL, fs, [DocumentEnd], u);
      if n <= |fs| {
        assert fs + [DocumentEnd] == fs[..n] + (fs[n..] + [DocumentEnd]);
        var v := RunsSplit(d, INITIAL, fs[..n], fs[n..] + [DocumentEnd], u);
        SameEvents(d, INITIAL, seen, t, fs[..n], v);
        Continues(d, t, fs[n..] + [DocumentEnd], u);
      } else {
        RunsLonger(d, seen, t, fs, u);
      }
    }
  }

  lemma {:induction false} Continues(d: seq<byte>, s: State, es: seq<Event>, t: State)
    requires es != [] && Runs(d, s, es, t)
    ensures Next(d, s).Went?
  {
    assert es == [es[0]] + es[1..];
    var m := RunsFirst(d, s, es[0], es[1..], t);
  }

  /** After the end of the document no call throws. */
  lemma {:induction false} RunsLonger(d: seq<byte>, es: seq<Event>, t: State, fs: seq<Event>, u: State)
    requires Runs(d, INITIAL, es, t) && Runs(d, INITIAL, fs + [DocumentEnd], u) && |fs| < |es|
    ensures Next(d, t).Went?
  {
    var n := |fs|;
    assert es == es[..n + 1] + es[n + 1..];
    var v := RunsSplit(d, INITIAL, es[..n + 1], es[n + 1..], t);
    SameEvents(d, INITIAL, es[..n + 1], v, fs + [DocumentEnd], u);
    var m := RunsSplit(d, INITIAL, fs, [DocumentEnd], u);
    OneCall(d, m, DocumentEnd, u);
    DocumentEndRepeats(d, m, u, |es| - n - 1);
    SameEvents(d, u, es[n + 1..], t, seq(|es| - n - 1, i => DocumentEnd), u);
    DocumentEndCall(d, m, u);
  }

  /** So a truncated encoding is read to the end of the document exactly where no
      header, number or string is cut in two and no name of a number, string or
      compound tag is the last thing before the cut. */
  lemma {:induction false} TruncatedIff(ts: seq<Tag>, k: nat)
    requires WFTags(ts) && InLimitsTags(ts) && k <= |EncodeTags(ts)|
    ensures (exists es :: Finishes(EncodeTags(ts)[..k], INITIAL, es + [DocumentEnd])) <==> PruneTags(ts, k).Some?
  {
    var d := EncodeTags(ts)[..k];
    TruncatedRun(ts, k);
    if PruneTags(ts, k).None? {
      forall es ensures !Finishes(d, INITIAL, es + [DocumentEnd]) { NotBoth(d, TagsEvents(ts), es); }
    }
  }
}
