/** Which trees are reported right, stray counters and all: a count of what the
    index and length stacks hold, apart from every byte. */
module PullCounters {
  import opened Bytes
  import opened Tags
  import opened PullMachine
  import opened Wrappers
  import opened PullProofs
  import opened PullExact

  // ----- counting

  datatype Counters = Counters(indices: Stack<int>, lengths: Stack<int>)

  const NO_COUNTERS := Counters(Empty, Empty)

  function Of(st: Stacks): Counters {
    Counters(st.indices, st.lengths)
  }

  function With(st: Stacks, c: Counters): Stacks {
    st.(indices := c.indices, lengths := c.lengths)
  }

  function Entered(c: Counters, index: int, length: int): Counters {
    Counters(Push(index, c.indices), Push(length, c.lengths))
  }

  /** The innermost counter, whoever it belongs to, allows one more element. */
  predicate More(c: Counters) {
    c.indices.Push? && c.lengths.Push? && c.indices.top < c.lengths.top
  }

  predicate Spent(c: Counters) {
    c.indices.Push? && c.lengths.Push? && c.indices.top >= c.lengths.top
  }

  function OneMore(c: Counters): Counters
    requires More(c)
  {
    Counters(Push(c.indices.top + 1, c.indices.below), c.lengths)
  }

  /** The counters after `p` has been reported, if it can be: lists count on the
      innermost counter, and End lists with elements leave theirs behind. */
  function Tally(p: Payload, c: Counters): Option<Counters>
    decreases p, 1
  {
    match p
    case Array(_, vs) => if |vs| < 0x8000_0000 then Some(c) else None
    case Str(cs) => if |cs| < 0x8000 then Some(c) else None
    case List(elem, items) =>
      var n := SignedCount(|items|);
      if elem == TAG_END then Some(if n <= 0 then c else Entered(c, 1, n))
      else
        (match TallyItems(items, Entered(c, 0, n))
         case None => None
         case Some(after) =>
           if Spent(after) then Some(Counters(after.indices.below, after.lengths.below)) else None)
    case Compound(tags) => TallyTags(tags, c)
    case _ => Some(c)
  }

  function TallyItems(items: seq<Payload>, c: Counters): Option<Counters>
    decreases items, 0
  {
    if items == [] then Some(c)
    else if !More(c) then None
    else
      match Tally(items[0], OneMore(c))
      case None => None
      case Some(after) => TallyItems(items[1..], after)
  }

  function TallyTag(t: Tag, c: Counters): Option<Counters>
    decreases t, 0
  {
    if |t.name| < 0x8000 then Tally(t.payload, c) else None
  }

  function TallyTags(tags: seq<Tag>, c: Counters): Option<Counters>
    decreases tags, 0
  {
    if tags == [] then Some(c)
    else
      match TallyTag(tags[0], c)
      case None => None
      case Some(after) => TallyTags(tags[1..], after)
  }

  // ----- the count decides every run

  ghost predicate Never(d: seq<byte>, s: State, es: seq<Event>) {
    forall t :: !Runs(d, s, es, t)
  }

  lemma NeverThen(d: seq<byte>, s: State, a: seq<Event>, b: seq<Event>)
    requires Never(d, s, a)
    ensures Never(d, s, a + b)
  {
    forall t
      ensures !Runs(d, s, a + b, t)
    {
      if Runs(d, s, a + b, t) {
        var m := RunsSplit(d, s, a, b, t);
      }
    }
  }

  lemma NeverAfter(d: seq<byte>, s: State, a: seq<Event>, m: State, b: seq<Event>)
    requires Runs(d, s, a, m) && Never(d, m, b)
    ensures Never(d, s, a + b)
  {
    forall t
      ensures !Runs(d, s, a + b, t)
    {
      if Runs(d, s, a + b, t) {
        var m' := RunsSplit(d, s, a, b, t);
        RunsFunctional(d, s, a, m, m');
      }
    }
  }

  lemma NeverCall(d: seq<byte>, s: State, e: Event, es: seq<Event>)
    requires Next(d, s).Threw? || Observed(Next(d, s).s) != Some(e)
    ensures Never(d, s, [e] + es)
  {
    forall t
      ensures !Runs(d, s, [e] + es, t)
    {
      WrongCall(d, s, e, es, t);
    }
  }

  /** A list whose innermost counter allows no more elements starts none. */
  lemma NoStart(d: seq<byte>, s: State, o: nat, st: Stacks, kind: TagId, es: seq<Event>)
    requires InList(s, o, st) && o < |d| && !More(Of(st))
    ensures Never(d, s, [Start(kind, [])] + es)
  {
    NeverCall(d, s, Start(kind, []), es);
  }

  /** And one whose innermost counter allows more does not end. */
  lemma NoEnd(d: seq<byte>, s: State, o: nat, st: Stacks, name: seq<byte>)
    requires InList(s, o, st) && o < |d| && !Spent(Of(st))
    requires st.payloadTypes.Push? && st.payloadTypes.top != TAG_END
    ensures Never(d, s, [End(TAG_LIST, name)])
  {
    NeverCall(d, s, End(TAG_LIST, name), []);
    assert [End(TAG_LIST, name)] + [] == [End(TAG_LIST, name)];
  }

  /** Contents and END of an opened tag, by its count. */
  lemma {:induction false} BodyCounted(d: seq<byte>, s: State, o: nat, base: Stacks, name: seq<byte>, p: Payload)
    returns (m: State, u: State)
    requires WF(p) && p != Null
    requires Open(s, o, Opened(base, name, p)) && At(d, o, Body(p))
    requires o + |Body(p)| + (if p.Compound? then 0 else 1) <= |d|
    ensures var r := Tally(p, Of(base));
            if r.None? then Never(d, s, Inner(name, p) + [End(TypeOf(p), name)])
            else
              && Runs(d, s, Inner(name, p), m) && Runs(d, m, [End(TypeOf(p), name)], u)
              && Gap(u, o + |Body(p)|, With(base, r.value))
    decreases p, 1
  {
    m, u := s, s;
    match p
    case Array(kind, vs) =>
      if |vs| < 0x8000_0000 {
        m, u := BodyRun(d, s, o, base, name, p);
      } else {
        LongArrayNever(d, s, o, base, name, p);
      }
    case Str(cs) =>
      if |cs| < 0x8000 {
        m, u := BodyRun(d, s, o, base, name, p);
      } else {
        StrTooLong(d, s, o, base, name, cs);
        NeverCall(d, s, Data(TAG_STRING, name, Text(cs)), [End(TAG_STRING, name)]);
      }
    case List(elem, items) =>
      if elem == TAG_END {
        m, u := EndListCounted(d, s, o, base, name, p);
      } else {
        m, u := ListCounted(d, s, o, base, name, p);
      }
    case Compound(tags) =>
      var c := TallyTags(tags, Of(base));
      m := TagsCounted(d, s, o, Opened(base, name, p), tags);
      if c.Some? {
        AtConcat(d, o, EncodeTags(tags), [TAG_END]);
        u := CompoundEnd(d, m, o + |EncodeTags(tags)|, With(base, c.value), name);
      } else {
        NeverThen(d, s, TagsEvents(tags), [End(TAG_COMPOUND, name)]);
      }
    case Scalar(_, _) =>
      m, u := BodyRun(d, s, o, base, name, p);
  }

  lemma LongArrayNever(d: seq<byte>, s: State, o: nat, base: Stacks, name: seq<byte>, p: Payload)
    requires WF(p) && p.Array? && |p.values| >= 0x8000_0000 && o < |d|
    requires Open(s, o, Opened(base, name, p))
    ensures Never(d, s, Inner(name, p) + [End(TypeOf(p), name)])
  {
    var vs, kind, end := p.values, p.kind, [End(p.kind, name)];
    CountWraps(|vs|);
    var e, rest := Data(kind, name, Num(vs[0])), DataEvents(kind, name, vs[1..]);
    assert Inner(name, p) + end == [e] + (rest + end);
    NeverCall(d, s, e, rest + end);
  }

  lemma EndListCounted(d: seq<byte>, s: State, o: nat, base: Stacks, name: seq<byte>, p: Payload)
    returns (m: State, u: State)
    requires WF(p) && p.List? && p.elem == TAG_END && o < |d|
    requires Open(s, o, Opened(base, name, p))
    ensures Inner(name, p) == [] && Body(p) == [] && m == s
    ensures Runs(d, s, [], s) && Runs(d, m, [End(TAG_LIST, name)], u)
    ensures Gap(u, o, With(base, Tally(p, Of(base)).value))
  {
    var n := |p.items|;
    NullItems(p.items);
    m := s;
    RunsNone(d, s);
    if 0 < n < 0x8000_0000 {
      CountIsSelf(n);
      u := EndListLeak(d, s, o, base, name, p);
    } else {
      if n == 0 { CountIsSelf(0); } else { CountWraps(n); }
      u := ListEnd(d, s, o, base, name, 0, SignedCount(n), TAG_END);
    }
  }

  lemma {:induction false} ListCounted(d: seq<byte>, s: State, o: nat, base: Stacks, name: seq<byte>, p: Payload)
    returns (m: State, u: State)
    requires WF(p) && p.List? && p.elem != TAG_END
    requires Open(s, o, Opened(base, name, p)) && At(d, o, Body(p)) && o + |Body(p)| < |d|
    ensures var r := Tally(p, Of(base));
            if r.None? then Never(d, s, ItemEvents(p.items) + [End(TAG_LIST, name)])
            else
              && Runs(d, s, ItemEvents(p.items), m) && Runs(d, m, [End(TAG_LIST, name)], u)
              && Gap(u, o + |Body(p)|, With(base, r.value))
    decreases p, 0
  {
    var List(elem, items) := p;
    var st := Opened(base, name, p);
    var c := TallyItems(items, Of(st));
    assert Of(st) == Entered(Of(base), 0, SignedCount(|items|));
    u := s;
    m := ItemsCounted(d, s, o, st, items);
    if c.None? {
      NeverThen(d, s, ItemEvents(items), [End(TAG_LIST, name)]);
    } else if Spent(c.value) {
      var left := Counters(c.value.indices.below, c.value.lengths.below);
      u := ListEnd(d, m, o + |Body(p)|, With(base, left), name, c.value.indices.top, c.value.lengths.top, elem);
    } else {
      NoEnd(d, m, o + |Body(p)|, With(st, c.value), name);
      NeverAfter(d, s, ItemEvents(items), m, [End(TAG_LIST, name)]);
    }
  }

  /** The elements of a list, by their count. */
  lemma {:induction false} ItemsCounted(d: seq<byte>, s: State, o: nat, st: Stacks, items: seq<Payload>)
    returns (u: State)
    requires InList(s, o, st) && st.payloadTypes.Push? && st.payloadTypes.top != TAG_END
    requires WFItems(st.payloadTypes.top, items)
    requires At(d, o, EncodeItems(items)) && o + |EncodeItems(items)| < |d|
    ensures var r := TallyItems(items, Of(st));
            if r.None? then Never(d, s, ItemEvents(items))
            else Runs(d, s, ItemEvents(items), u) && InList(u, o + |EncodeItems(items)|, With(st, r.value))
    decreases items, 0
  {
    u := s;
    if items == [] {
      RunsNone(d, s);
    } else {
      var x, rest := items[0], items[1..];
      ItemsSplit(d, o, items);
      ItemsNonEmpty(st.payloadTypes.top, items);
      if !More(Of(st)) {
        ItemsStart(items);
        NoStart(d, s, o, st, TypeOf(x), (Inner([], x) + [End(TypeOf(x), [])]) + ItemEvents(rest));
      } else {
        var r := Tally(x, OneMore(Of(st)));
        var v := ItemCounted(d, s, o, st, x);
        if r.None? {
          NeverThen(d, s, Events([], x), ItemEvents(rest));
        } else {
          var st' := With(st, r.value);
          u := ItemsCounted(d, v, o + |Encode(x)|, st', rest);
          if TallyItems(rest, r.value).Some? {
            RunsJoin(d, s, Events([], x), v, ItemEvents(rest), u);
          } else {
            NeverAfter(d, s, Events([], x), v, ItemEvents(rest));
          }
        }
      }
    }
  }

  lemma ItemsStart(items: seq<Payload>)
    requires items != [] && items[0] != Null
    ensures var x := items[0];
            ItemEvents(items)
            == [Start(TypeOf(x), [])] + ((Inner([], x) + [End(TypeOf(x), [])]) + ItemEvents(items[1..]))
  {
  }

  lemma {:induction false} ItemCounted(d: seq<byte>, s: State, o: nat, st: Stacks, x: Payload) returns (u: State)
    requires WF(x) && x != Null && ElementDue(s, o, st, TypeOf(x))
    requires At(d, o, Encode(x)) && o + |Encode(x)| < |d|
    ensures var r := Tally(x, OneMore(Of(st)));
            if r.None? then Never(d, s, Events([], x))
            else Runs(d, s, Events([], x), u) && Gap(u, o + |Encode(x)|, With(st, r.value))
    decreases x, 2
  {
    AtConcat(d, o, Header(x), Body(x));
    var t := ItemStart(d, s, o, st, x);
    var m;
    assert Of(Bumped(st, 1)) == OneMore(Of(st));
    m, u := BodyCounted(d, t, o + |Header(x)|, Bumped(st, 1), [], x);
    if Tally(x, OneMore(Of(st))).Some? {
      RunsTag(d, s, [], x, t, m, u);
    } else {
      NeverAfter(d, s, [Start(TypeOf(x), [])], t, Inner([], x) + [End(TypeOf(x), [])]);
    }
  }

  lemma {:induction false} TagsCounted(d: seq<byte>, s: State, o: nat, st: Stacks, tags: seq<Tag>) returns (u: State)
    requires WFTags(tags) && st.types.Push? && st.types.top == TAG_COMPOUND && Ready(s, o, st)
    requires At(d, o, EncodeTags(tags) + [TAG_END])
    ensures var r := TallyTags(tags, Of(st));
            if r.None? then Never(d, s, TagsEvents(tags))
            else Runs(d, s, TagsEvents(tags), u) && Ready(u, o + |EncodeTags(tags)|, With(st, r.value))
    decreases tags, 0
  {
    u := s;
    if tags == [] {
      RunsNone(d, s);
    } else {
      var t, rest := tags[0], tags[1..];
      TagsSplit(d, o, tags);
      var r := TallyTag(t, Of(st));
      var v := TagCounted(d, s, o, st, t);
      if r.None? {
        NeverThen(d, s, TagEvents(t), TagsEvents(rest));
      } else {
        u := TagsCounted(d, v, o + |EncodeTag(t)|, With(st, r.value), rest);
        if TallyTags(rest, r.value).Some? {
          RunsJoin(d, s, TagEvents(t), v, TagsEvents(rest), u);
        } else {
          NeverAfter(d, s, TagEvents(t), v, TagsEvents(rest));
        }
      }
    }
  }

  lemma {:induction false} TagCounted(d: seq<byte>, s: State, o: nat, base: Stacks, t: Tag) returns (u: State)
    requires WFTag(t) && Ready(s, o, base) && At(d, o, EncodeTag(t))
    requires o + |EncodeTag(t)| + (if t.payload.Compound? then 0 else 1) <= |d|
    ensures var r := TallyTag(t, Of(base));
            if r.None? then Never(d, s, TagEvents(t))
            else Runs(d, s, TagEvents(t), u) && Gap(u, o + |EncodeTag(t)|, With(base, r.value))
    decreases t, 0
  {
    var p, start := t.payload, Start(TypeOf(t.payload), t.name);
    var rest := Inner(t.name, p) + [End(TypeOf(p), t.name)];
    u := s;
    TagSplit(d, o, t);
    if |t.name| >= 0x8000 {
      NameTooLong(d, s, o, base, t);
      NeverCall(d, s, start, rest);
    } else {
      var v := NamedStart(d, s, o, base, t);
      var m;
      m, u := BodyCounted(d, v, o + |TagHeader(t) + Header(p)|, base, t.name, p);
      if Tally(p, Of(base)).Some? {
        RunsTag(d, s, t.name, p, v, m, u);
      } else {
        NeverAfter(d, s, [start], v, rest);
      }
    }
  }

  // ----- main results

  /** When the events alone are right, End lists with elements included: a root
      compound, whatever follows it, is reported as its flattening if and only if
      its count comes out. */
  lemma RootEventsIff(d: seq<byte>, t: Tag)
    requires WFTag(t) && t.payload.Compound? && At(d, 0, EncodeTag(t))
    ensures Reports(d, TagEvents(t)) <==> TallyTag(t, NO_COUNTERS).Some?
  {
    var u := TagCounted(d, INITIAL, 0, NO_STACKS, t);
  }

  /** A tree within the limits counts out anywhere and leaves nothing behind. */
  lemma {:induction false} LimitsTally(p: Payload, c: Counters)
    requires WF(p) && InLimits(p)
    ensures Tally(p, c) == Some(c)
    decreases p, 1
  {
    match p
    case List(elem, items) =>
      if elem == TAG_END {
        if items == [] { CountIsSelf(0); } else { CountWraps(|items|); }
      } else {
        CountIsSelf(|items|);
        LimitsTallyItems(elem, items, Entered(c, 0, |items|));
      }
    case Compound(tags) => LimitsTallyTags(tags, c);
    case _ =>
  }

  lemma {:induction false} LimitsTallyItems(elem: TagId, items: seq<Payload>, c: Counters)
    requires WFItems(elem, items) && InLimitsItems(items)
    requires c.indices.Push? && c.lengths.Push? && c.indices.top + |items| <= c.lengths.top
    ensures TallyItems(items, c)
         == Some(Counters(Push(c.indices.top + |items|, c.indices.below), c.lengths))
    decreases items, 0
  {
    if items != [] {
      LimitsTally(items[0], OneMore(c));
      LimitsTallyItems(elem, items[1..], OneMore(c));
    }
  }

  lemma {:induction false} LimitsTallyTags(tags: seq<Tag>, c: Counters)
    requires WFTags(tags) && InLimitsTags(tags)
    ensures TallyTags(tags, c) == Some(c)
    decreases tags, 0
  {
    if tags != [] {
      LimitsTally(tags[0].payload, c);
      LimitsTallyTags(tags[1..], c);
    }
  }

  /** End lists with elements occur, if at all, outside every other list. */
  ghost predicate LeaksOutsideLists(p: Payload)
    decreases p, 1
  {
    match p
    case Compound(tags) => LeaksOutsideListsIn(tags)
    case List(elem, _) => elem == TAG_END || InLimits(p)
    case _ => InLimits(p)
  }

  ghost predicate LeaksOutsideListsIn(tags: seq<Tag>)
    decreases tags, 0
  {
    tags == [] || (|tags[0].name| < 0x8000 && LeaksOutsideLists(tags[0].payload) && LeaksOutsideListsIn(tags[1..]))
  }

  /** Under compounds alone a stray counter does no harm, however many there are. */
  lemma {:induction false} LeaksHarmless(p: Payload, c: Counters)
    requires WF(p) && LeaksOutsideLists(p)
    ensures Tally(p, c).Some?
    decreases p, 1
  {
    if p.Compound? {
      LeaksHarmlessIn(p.tags, c);
    } else if !(p.List? && p.elem == TAG_END) {
      LimitsTally(p, c);
    }
  }

  lemma {:induction false} LeaksHarmlessIn(tags: seq<Tag>, c: Counters)
    requires WFTags(tags) && LeaksOutsideListsIn(tags)
    ensures TallyTags(tags, c).Some?
    decreases tags, 0
  {
    if tags != [] {
      LeaksHarmless(tags[0].payload, c);
      LeaksHarmlessIn(tags[1..], TallyTag(tags[0], c).value);
    }
  }
}
