/** Exactly which trees the pull reader handles: the limits are not only
    sufficient but necessary. */
module PullExact {
  import opened Bytes
  import opened Tags
  import opened PullMachine
  import opened Wrappers
  import opened PullProofs

  // ----- left-over counters

  /** Open tags that own a counter. */
  function Counted(types: Stack<TagId>): nat {
    if types.Empty? then 0
    else (if types.top == TAG_LIST || IsArrayKind(types.top) then 1 else 0) + Counted(types.below)
  }

  /** Counters on the stack that no open tag owns. */
  function Excess(st: Stacks): int {
    st.indices.Depth() - Counted(st.types)
  }

  lemma HeaderExcess(d: seq<byte>, s: State, kind: TagId)
    requires KindHeader(d, s, kind).Went?
    ensures var st := KindHeader(d, s, kind).s.stacks;
            && st.types == s.stacks.types
            && st.indices.Depth() - s.stacks.indices.Depth()
               == (if kind == TAG_LIST || IsArrayKind(kind) then 1 else 0)
  {
  }

  lemma ExcessByEnd(s: State)
    requires HandleTagEnd(s).Went?
    ensures var st, was := HandleTagEnd(s).s.stacks, s.stacks;
            && st.types == was.types.below && st.indices == was.indices
            && Excess(st) == Excess(was) + Counted(was.types) - Counted(was.types.below)
  {
  }

  lemma ExcessByHeader(d: seq<byte>, s: State)
    requires TagHeaderStep(d, s).Went?
    ensures Excess(TagHeaderStep(d, s).s.stacks) >= Excess(s.stacks)
  {
    var kind := d[s.offset];
    if kind == TAG_END {
      ExcessByEnd(s.(offset := s.offset + 1, tagEnded := true));
    } else {
      ExcessByName(d, s.(offset := s.offset + 1, stacks := s.stacks.(types := Push(kind, s.stacks.types))), kind);
    }
  }

  lemma ExcessByName(d: seq<byte>, s: State, kind: TagId)
    requires NameStep(d, s, kind).Went? && s.stacks.types.Push? && s.stacks.types.top == kind
    ensures Excess(NameStep(d, s, kind).s.stacks) == s.stacks.indices.Depth() - Counted(s.stacks.types.below)
  {
    var n := ReadNumber(TAG_SHORT, d[s.offset..s.offset + 2]);
    var name := d[s.offset + 2..s.offset + 2 + n];
    HeaderExcess(d, s.(offset := s.offset + 2 + n, stacks := s.stacks.(names := Push(name, s.stacks.names))), kind);
  }

  lemma ExcessByList(d: seq<byte>, s: State)
    requires s.stacks.types.Push? && s.stacks.types.top == TAG_LIST && ListStep(d, s).Went?
    ensures Excess(ListStep(d, s).s.stacks) >= Excess(s.stacks)
  {
    var st := s.stacks;
    if st.indices.top >= st.lengths.top {
      ExcessByCount(s);
    } else if st.payloadTypes.top != TAG_END {
      var st1, kind := st.(indices := Push(st.indices.top + 1, st.indices.below)), st.payloadTypes.top;
      HeaderExcess(d, s.(stacks := st1.(types := Push(kind, st1.types), names := Push([], st1.names))), kind);
    }
  }

  lemma ExcessByCount(s: State)
    requires s.stacks.indices.Push? && s.stacks.lengths.Push? && CountedEnd(s).Went?
    requires s.stacks.types.Push? && (s.stacks.types.top == TAG_LIST || IsArrayKind(s.stacks.types.top))
    ensures Excess(CountedEnd(s).s.stacks) == Excess(s.stacks)
  {
  }

  lemma ExcessByArray(d: seq<byte>, s: State)
    requires s.stacks.types.Push? && IsArrayKind(s.stacks.types.top) && ArrayStep(d, s, s.stacks.types.top).Went?
    ensures Excess(ArrayStep(d, s, s.stacks.types.top).s.stacks) >= Excess(s.stacks)
  {
    if s.stacks.indices.top >= s.stacks.lengths.top {
      ExcessByCount(s);
    }
  }

  lemma ExcessBySwitch(d: seq<byte>, s: State)
    requires Switch(d, s).Went?
    ensures Excess(Switch(d, s).s.stacks) >= Excess(s.stacks)
  {
    var kind := s.stacks.types.top;
    if kind == TAG_COMPOUND { ExcessByHeader(d, s); }
    else if kind == TAG_LIST { ExcessByList(d, s); }
    else if IsArrayKind(kind) { ExcessByArray(d, s); }
  }

  /** No call ever removes a counter that no open tag owns. */
  lemma ExcessStays(d: seq<byte>, s: State)
    requires Next(d, s).Went?
    ensures Excess(Next(d, s).s.stacks) >= Excess(s.stacks)
  {
    var s1 := s.(tagEnded := false, endEmitted := false);
    if s.offset >= |d| {
      if s.stacks.names.Push? { ExcessByEnd(s); }
    } else if !s.tagEnded {
      ExcessBySwitch(d, s);
    } else if !s.endEmitted {
      ExcessByEnd(s);
    } else if s.stacks.types.Empty? || s.stacks.types.top != TAG_LIST {
      ExcessByHeader(d, s1);
    } else {
      ExcessBySwitch(d, s1);
    }
  }

  lemma {:induction false} RunExcess(d: seq<byte>, s: State, es: seq<Event>, t: State)
    requires Runs(d, s, es, t)
    ensures Excess(t.stacks) >= Excess(s.stacks)
    decreases |es|
  {
    if es == [] {
      RunsNone(d, s);
      RunsFunctional(d, s, [], s, t);
    } else {
      assert es == [es[0]] + es[1..];
      var m := RunsFirst(d, s, es[0], es[1..], t);
      ExcessStays(d, s);
      RunExcess(d, m, es[1..], t);
    }
  }

  lemma OpenedExcess(base: Stacks, name: seq<byte>, p: Payload)
    requires WF(p)
    ensures Excess(Opened(base, name, p)) == Excess(base)
  {
  }

  // ----- trees out of limits

  /** Some list typed End has a positive signed count. */
  ghost predicate HasEndItems(p: Payload)
    decreases p, 1
  {
    match p
    case List(elem, items) =>
      if elem == TAG_END then 0 < |items| < 0x8000_0000 else EndItemsIn(items)
    case Compound(tags) => EndItemsInTags(tags)
    case _ => false
  }

  ghost predicate EndItemsIn(items: seq<Payload>)
    decreases items, 0
  {
    items != [] && (HasEndItems(items[0]) || EndItemsIn(items[1..]))
  }

  ghost predicate EndItemsInTags(tags: seq<Tag>)
    decreases tags, 0
  {
    tags != [] && (HasEndItems(tags[0].payload) || EndItemsInTags(tags[1..]))
  }

  /** The verdict on a run that reports all of an out-of-limits tree's events:
      it met an End list with elements and left a counter behind. */
  ghost predicate Dirty(before: Stacks, after: Stacks, endItems: bool) {
    Excess(after) > Excess(before) && endItems
  }

  /** A call that throws or reports something else ends the run. */
  lemma WrongCall(d: seq<byte>, s: State, e: Event, es: seq<Event>, t: State)
    requires Next(d, s).Threw? || Observed(Next(d, s).s) != Some(e)
    ensures !Runs(d, s, [e] + es, t)
  {
    if Runs(d, s, [e] + es, t) {
      var m := RunsFirst(d, s, e, es, t);
    }
  }

  lemma {:induction false} BodyFails(d: seq<byte>, s: State, o: nat, base: Stacks, name: seq<byte>, p: Payload,
                                     t: State)
    requires WF(p) && !InLimits(p)
    requires Open(s, o, Opened(base, name, p)) && At(d, o, Body(p))
    requires o + |Body(p)| + (if p.Compound? then 0 else 1) <= |d|
    requires Runs(d, s, Inner(name, p) + [End(TypeOf(p), name)], t)
    ensures Dirty(base, t.stacks, HasEndItems(p))
    decreases p, 1
  {
    OpenedExcess(base, name, p);
    var end := [End(TypeOf(p), name)];
    match p
    case Array(kind, vs) =>
      CountWraps(|vs|);
      var e, rest := Data(kind, name, Num(vs[0])), DataEvents(kind, name, vs[1..]);
      assert Inner(name, p) + end == [e] + (rest + end);
      WrongCall(d, s, e, rest + end, t);
    case Str(cs) =>
      StrTooLong(d, s, o, base, name, cs);
      WrongCall(d, s, Data(TAG_STRING, name, Text(cs)), end, t);
    case List(elem, items) =>
      if elem == TAG_END {
        var u := EndListLeak(d, s, o, base, name, p);
        assert Inner(name, p) + end == end;
        RunsFunctional(d, s, end, t, u);
      } else if |items| >= 0x8000_0000 {
        CountWraps(|items|);
        var x := items[0];
        ItemsNonEmpty(elem, items);
        var after := ItemEvents(items[1..]) + end;
        ItemEventsThen(items, end);
        EventsThen([], x, after);
        WrongCall(d, s, Start(TypeOf(x), []), Inner([], x) + ([End(TypeOf(x), [])] + after), t);
      } else {
        CountIsSelf(|items|);
        var m := RunsSplit(d, s, ItemEvents(items), end, t);
        ItemsFail(d, s, o, Opened(base, name, p), items, m);
        RunExcess(d, m, end, t);
      }
    case Compound(tags) =>
      var m := RunsSplit(d, s, TagsEvents(tags), end, t);
      TagsFail(d, s, o, Opened(base, name, p), tags, m);
      RunExcess(d, m, end, t);
  }

  /** A string whose length reads as negative makes the reader throw. */
  lemma StrTooLong(d: seq<byte>, s: State, o: nat, base: Stacks, name: seq<byte>, cs: seq<byte>)
    requires 0x8000 <= |cs| < 0x1_0000 && At(d, o, Body(Str(cs)))
    requires Open(s, o, Opened(base, name, Str(cs)))
    ensures Next(d, s).Threw? && Next(d, s).cause == NegativeLength
  {
    AtConcat(d, o, BE(2, |cs|), cs);
    ReadLength(d, o, |cs|);
    assert Next(d, s) == StringStep(d, s);
  }

  /** An End list with elements is reported like an empty one, by one call, and
      that call leaves the list's index and length on the stacks. */
  lemma EndListLeak(d: seq<byte>, s: State, o: nat, base: Stacks, name: seq<byte>, p: Payload) returns (t: State)
    requires p.List? && p.elem == TAG_END && 0 < |p.items| < 0x8000_0000 && WF(p)
    requires Open(s, o, Opened(base, name, p)) && o < |d|
    ensures Inner(name, p) == [] && Runs(d, s, [End(TAG_LIST, name)], t)
    ensures Gap(t, o, base.(indices := Push(1, base.indices), lengths := Push(|p.items|, base.lengths)))
  {
    NullItems(p.items);
    CountIsSelf(|p.items|);
    t := Next(d, s).s;
    RunsOne(d, s, End(TAG_LIST, name), t);
  }

  lemma {:induction false} ItemsFail(d: seq<byte>, s: State, o: nat, st: Stacks, items: seq<Payload>, t: State)
    requires Expects(s, o, st, items) && !InLimitsItems(items)
    requires At(d, o, EncodeItems(items)) && o + |EncodeItems(items)| < |d|
    requires Runs(d, s, ItemEvents(items), t)
    ensures Dirty(st, t.stacks, EndItemsIn(items))
    decreases items, 0
  {
    var x, rest := items[0], items[1..];
    ItemsSplit(d, o, items);
    ItemsNonEmpty(st.payloadTypes.top, items);
    var m := RunsSplit(d, s, Events([], x), ItemEvents(rest), t);
    if InLimits(x) {
      var u := ItemRun(d, s, o, st, x);
      RunsFunctional(d, s, Events([], x), u, m);
      ItemsFail(d, m, o + |Encode(x)|, Bumped(st, 1), rest, t);
    } else {
      ItemFails(d, s, o, st, x, m);
      RunExcess(d, m, ItemEvents(rest), t);
    }
  }

  lemma {:induction false} ItemFails(d: seq<byte>, s: State, o: nat, st: Stacks, x: Payload, t: State)
    requires WF(x) && !InLimits(x) && x != Null && ElementDue(s, o, st, TypeOf(x))
    requires At(d, o, Encode(x)) && o + |Encode(x)| < |d|
    requires Runs(d, s, Events([], x), t)
    ensures Dirty(st, t.stacks, HasEndItems(x))
    decreases x, 2
  {
    AtConcat(d, o, Header(x), Body(x));
    var u := ItemStart(d, s, o, st, x);
    var m := RunsSplit(d, s, [Start(TypeOf(x), [])], Inner([], x) + [End(TypeOf(x), [])], t);
    RunsFunctional(d, s, [Start(TypeOf(x), [])], u, m);
    BodyFails(d, m, o + |Header(x)|, Bumped(st, 1), [], x, t);
  }

  lemma {:induction false} TagsFail(d: seq<byte>, s: State, o: nat, st: Stacks, tags: seq<Tag>, t: State)
    requires WFTags(tags) && !InLimitsTags(tags)
    requires st.types.Push? && st.types.top == TAG_COMPOUND && Ready(s, o, st)
    requires At(d, o, EncodeTags(tags) + [TAG_END])
    requires Runs(d, s, TagsEvents(tags), t)
    ensures Dirty(st, t.stacks, EndItemsInTags(tags))
    decreases tags, 0
  {
    var x, rest := tags[0], tags[1..];
    TagsSplit(d, o, tags);
    var m := RunsSplit(d, s, TagEvents(x), TagsEvents(rest), t);
    if InLimitsTag(x) {
      var u := TagRun(d, s, o, st, x);
      RunsFunctional(d, s, TagEvents(x), u, m);
      TagsFail(d, m, o + |EncodeTag(x)|, st, rest, t);
    } else {
      TagFails(d, s, o, st, x, m);
      RunExcess(d, m, TagsEvents(rest), t);
    }
  }

  lemma {:induction false} TagFails(d: seq<byte>, s: State, o: nat, base: Stacks, x: Tag, t: State)
    requires WFTag(x) && !InLimitsTag(x) && Ready(s, o, base)
    requires At(d, o, EncodeTag(x))
    requires o + |EncodeTag(x)| + (if x.payload.Compound? then 0 else 1) <= |d|
    requires Runs(d, s, TagEvents(x), t)
    ensures Dirty(base, t.stacks, HasEndItems(x.payload))
    decreases x, 0
  {
    var p, start := x.payload, Start(TypeOf(x.payload), x.name);
    var rest := Inner(x.name, p) + [End(TypeOf(p), x.name)];
    TagSplit(d, o, x);
    if |x.name| >= 0x8000 {
      NameTooLong(d, s, o, base, x);
      WrongCall(d, s, start, rest, t);
    } else {
      var u := NamedStart(d, s, o, base, x);
      var m := RunsSplit(d, s, [start], rest, t);
      RunsFunctional(d, s, [start], u, m);
      BodyFails(d, m, o + |TagHeader(x) + Header(p)|, base, x.name, p, t);
    }
  }

  /** A name whose length reads as negative makes the reader throw. */
  lemma NameTooLong(d: seq<byte>, s: State, o: nat, base: Stacks, x: Tag)
    requires WFTag(x) && |x.name| >= 0x8000 && Ready(s, o, base)
    requires At(d, o, TagHeader(x) + Header(x.payload))
    ensures Next(d, s).Threw? && Next(d, s).cause == NegativeLength
  {
    AtConcat(d, o, TagHeader(x), Header(x.payload));
    TagHeaderRead(d, o, x);
    PayloadNonEmpty(x.payload);
  }

  /** What the left-over counter does.  An End list of `n` elements, anywhere in
      another list, takes over the counting there: its index 1 and length `n` are
      on top, so the other list has `n` - 1 elements to come, whatever its own
      count says, and ends at once if and only if `n` is one. */
  lemma EndListEndsParent(d: seq<byte>, s: State, o: nat, st: Stacks, items: seq<Payload>) returns (t: State)
    requires ElementDue(s, o, st, TAG_LIST) && st.names.Push?
    requires WFItems(TAG_END, items) && 0 < |items| < 0x8000_0000
    requires var x := List(TAG_END, items); At(d, o, Encode(x)) && o + |Encode(x)| < |d|
    ensures Runs(d, s, Events([], List(TAG_END, items)), t)
    ensures Gap(t, o + |Encode(List(TAG_END, items))|,
                st.(indices := Push(1, Bumped(st, 1).indices), lengths := Push(|items|, st.lengths)))
    ensures (Next(d, t).Went? && Observed(Next(d, t).s) == Some(End(TAG_LIST, st.names.top))) <==> |items| == 1
  {
    var x := List(TAG_END, items);
    NullItems(items);
    AtConcat(d, o, Header(x), Body(x));
    var u := ItemStart(d, s, o, st, x);
    t := EndListLeak(d, u, o + |Header(x)|, Bumped(st, 1), [], x);
    RunsJoin(d, s, [Start(TAG_LIST, [])], u, [End(TAG_LIST, [])], t);
    assert Events([], x) == [Start(TAG_LIST, [])] + [End(TAG_LIST, [])];
    AfterLeak(d, t, o + |Encode(x)|, Bumped(st, 1), |items|);
  }

  lemma AfterLeak(d: seq<byte>, t: State, o: nat, st: Stacks, n: nat)
    requires o < |d| && st.types.Push? && st.types.top == TAG_LIST && st.names.Push?
    requires st.payloadTypes.Push? && st.payloadTypes.top == TAG_LIST
    requires Gap(t, o, st.(indices := Push(1, st.indices), lengths := Push(n, st.lengths)))
    ensures (Next(d, t).Went? && Observed(Next(d, t).s) == Some(End(TAG_LIST, st.names.top))) <==> n <= 1
  {
  }

  // ----- main results

  /** The exact condition.  Wherever a tag may start, with room after it, the
      reader reports its flattening and leaves its stacks as they were if and
      only if the tag is within the limits. */
  lemma TagExact(d: seq<byte>, s: State, o: nat, base: Stacks, t: Tag)
    requires WFTag(t) && Ready(s, o, base) && At(d, o, EncodeTag(t))
    requires o + |EncodeTag(t)| + (if t.payload.Compound? then 0 else 1) <= |d|
    ensures (exists u :: Runs(d, s, TagEvents(t), u) && Gap(u, o + |EncodeTag(t)|, base))
            <==> InLimitsTag(t)
  {
    if InLimitsTag(t) {
      var u := TagRun(d, s, o, base, t);
    } else {
      forall u | Runs(d, s, TagEvents(t), u) ensures u.stacks != base {
        TagFails(d, s, o, base, t, u);
      }
    }
  }

  /** Apart from End lists with elements, the events alone decide: a root
      compound, whatever follows it, is reported as its flattening if and only
      if it is within the limits. */
  lemma RootExact(d: seq<byte>, t: Tag)
    requires WFTag(t) && t.payload.Compound? && !HasEndItems(t.payload)
    requires At(d, 0, EncodeTag(t))
    ensures Reports(d, TagEvents(t)) <==> InLimitsTag(t)
  {
    if InLimitsTag(t) {
      var u := TagRun(d, INITIAL, 0, NO_STACKS, t);
    } else if Reports(d, TagEvents(t)) {
      var u :| Runs(d, INITIAL, TagEvents(t), u);
      TagFails(d, INITIAL, 0, NO_STACKS, t, u);
    }
  }
}
