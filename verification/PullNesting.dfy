/** Whatever the buffer, the events that are reported nest, and the reader's own
    stacks say which tags are open. */
module PullNesting {
  import opened Bytes
  import opened Tags
  import opened PullMachine
  import opened Wrappers
  import opened PullProofs

  /** A tag whose START has been reported and whose END has not. */
  datatype OpenTag = OpenTag(kind: TagId, name: seq<byte>)

  /** The open tags after one more event: DATA and END belong to the innermost one,
      and the document ends with none open. */
  function Follow(open: Stack<OpenTag>, e: Event): Option<Stack<OpenTag>> {
    match e
    case Start(kind, name) => Some(Push(OpenTag(kind, name), open))
    case Data(kind, name, _) => if open.Push? && open.top == OpenTag(kind, name) then Some(open) else None
    case End(kind, name) => if open.Push? && open.top == OpenTag(kind, name) then Some(open.below) else None
    case DocumentEnd => if open.Empty? then Some(open) else None
  }

  /** And after several, None if they do not nest. */
  function Nest(open: Stack<OpenTag>, es: seq<Event>): Option<Stack<OpenTag>>
    decreases |es|
  {
    if es == [] then Some(open)
    else
      match Follow(open, es[0])
      case None => None
      case Some(next) => Nest(next, es[1..])
  }

  lemma {:induction false} NestJoin(open: Stack<OpenTag>, a: seq<Event>, b: seq<Event>)
    requires Nest(open, a).Some?
    ensures Nest(open, a + b) == Nest(Nest(open, a).value, b)
    decreases |a|
  {
    if a == [] {
      assert a + b == b;
    } else {
      assert (a + b)[1..] == a[1..] + b;
      NestJoin(Follow(open, a[0]).value, a[1..], b);
    }
  }

  // ----- what is to be nested: flattenings

  /** The flattening of a tree nests and closes what it opens. */
  lemma {:induction false} EventsNest(open: Stack<OpenTag>, name: seq<byte>, p: Payload)
    ensures Nest(open, Events(name, p)) == Some(open)
    decreases p, 2
  {
    if p != Null {
      var inside := Push(OpenTag(TypeOf(p), name), open);
      InnerNests(open, name, p);
      NestJoin(inside, Inner(name, p), [End(TypeOf(p), name)]);
      NestJoin(open, [Start(TypeOf(p), name)], Inner(name, p) + [End(TypeOf(p), name)]);
    }
  }

  lemma {:induction false} InnerNests(open: Stack<OpenTag>, name: seq<byte>, p: Payload)
    ensures var inside := Push(OpenTag(TypeOf(p), name), open); Nest(inside, Inner(name, p)) == Some(inside)
    decreases p, 1
  {
    var inside := Push(OpenTag(TypeOf(p), name), open);
    match p
    case Array(kind, vs) => DataNests(open, kind, name, vs);
    case List(_, items) => ItemsNest(inside, items);
    case Compound(tags) => TagsNest(inside, tags);
    case _ =>
  }

  lemma {:induction false} DataNests(open: Stack<OpenTag>, kind: TagId, name: seq<byte>, vs: seq<int>)
    ensures var inside := Push(OpenTag(kind, name), open);
            Nest(inside, DataEvents(kind, name, vs)) == Some(inside)
    decreases |vs|
  {
    if vs != [] {
      DataNests(open, kind, name, vs[1..]);
      assert DataEvents(kind, name, vs)[1..] == DataEvents(kind, name, vs[1..]);
    }
  }

  lemma {:induction false} ItemsNest(open: Stack<OpenTag>, items: seq<Payload>)
    ensures Nest(open, ItemEvents(items)) == Some(open)
    decreases items, 0
  {
    if items != [] {
      EventsNest(open, [], items[0]);
      ItemsNest(open, items[1..]);
      NestJoin(open, Events([], items[0]), ItemEvents(items[1..]));
    }
  }

  lemma {:induction false} TagsNest(open: Stack<OpenTag>, tags: seq<Tag>)
    ensures Nest(open, TagsEvents(tags)) == Some(open)
    decreases tags, 0
  {
    if tags != [] {
      EventsNest(open, tags[0].name, tags[0].payload);
      TagsNest(open, tags[1..]);
      NestJoin(open, Events(tags[0].name, tags[0].payload), TagsEvents(tags[1..]));
    }
  }

  // ----- one call

  /** The open tags as the reader holds them. */
  function OpenTags(types: Stack<TagId>, names: Stack<seq<byte>>): Stack<OpenTag> {
    if types.Empty? || names.Empty? then Empty
    else Push(OpenTag(types.top, names.top), OpenTags(types.below, names.below))
  }

  function OpenIn(s: State): Stack<OpenTag> {
    OpenTags(s.stacks.types, s.stacks.names)
  }

  ghost predicate Level(s: State) {
    s.stacks.types.Depth() == s.stacks.names.Depth()
  }

  /** From `s`, the event seen in `t` nests and leaves open what `t` holds. */
  ghost predicate Nests(s: State, t: State) {
    Level(t) && Observed(t).Some? && Follow(OpenIn(s), Observed(t).value) == Some(OpenIn(t))
  }

  lemma NestsByEnd(s: State)
    requires Level(s) && HandleTagEnd(s).Went?
    ensures Nests(s, HandleTagEnd(s).s)
  {
  }

  lemma KindHeaderKeeps(d: seq<byte>, s: State, kind: TagId)
    requires KindHeader(d, s, kind).Went?
    ensures var t := KindHeader(d, s, kind).s;
            t.stacks.types == s.stacks.types && t.stacks.names == s.stacks.names
  {
  }

  /** A tag has been pushed and its kind header read. */
  lemma NestsByStart(s: State, kind: TagId, name: seq<byte>, t: State)
    requires Level(s) && t.current == TagStart
    requires t.stacks.types == Push(kind, s.stacks.types) && t.stacks.names == Push(name, s.stacks.names)
    ensures Nests(s, t)
  {
  }

  lemma NestsByHeader(d: seq<byte>, s: State)
    requires Level(s) && TagHeaderStep(d, s).Went?
    ensures Nests(s, TagHeaderStep(d, s).s)
  {
    var kind := d[s.offset];
    if kind == TAG_END {
      NestsByEnd(s.(offset := s.offset + 1, tagEnded := true));
    } else {
      var n := ReadNumber(TAG_SHORT, d[s.offset + 1..s.offset + 3]);
      var name := d[s.offset + 3..s.offset + 3 + n];
      HeaderDecoded(d, s, kind, name);
      KindHeaderKeeps(d, NameRead(s, kind, name), kind);
      NestsByStart(s, kind, name, TagHeaderStep(d, s).s);
    }
  }

  lemma NestsByCount(s: State)
    requires Level(s) && s.stacks.indices.Push? && s.stacks.lengths.Push? && CountedEnd(s).Went?
    ensures Nests(s, CountedEnd(s).s)
  {
  }

  lemma NestsByListData(d: seq<byte>, s: State)
    requires Level(s) && ListData(d, s).Went?
    ensures Nests(s, ListData(d, s).s)
  {
    var st := s.stacks.(indices := Push(s.stacks.indices.top + 1, s.stacks.indices.below));
    var kind := st.payloadTypes.top;
    if kind != TAG_END {
      KindHeaderKeeps(d, s.(stacks := st.(types := Push(kind, st.types), names := Push([], st.names))), kind);
      NestsByStart(s, kind, [], ListData(d, s).s);
    }
  }

  lemma NestsBySwitch(d: seq<byte>, s: State)
    requires Level(s) && Switch(d, s).Went?
    ensures Nests(s, Switch(d, s).s)
  {
    var st, kind := s.stacks, s.stacks.types.top;
    if kind == TAG_COMPOUND {
      NestsByHeader(d, s);
    } else if kind == TAG_LIST || IsArrayKind(kind) {
      if st.indices.top >= st.lengths.top { NestsByCount(s); }
      else if kind == TAG_LIST { NestsByListData(d, s); }
    }
  }

  lemma NestsNext(d: seq<byte>, s: State)
    requires Level(s) && Next(d, s).Went?
    ensures Nests(s, Next(d, s).s)
  {
    var s1 := s.(tagEnded := false, endEmitted := false);
    if s.offset >= |d| {
      if s.stacks.names.Push? { NestsByEnd(s); }
    } else if !s.tagEnded {
      NestsBySwitch(d, s);
    } else if !s.endEmitted {
      NestsByEnd(s);
    } else if s.stacks.types.Empty? || s.stacks.types.top != TAG_LIST {
      NestsByHeader(d, s1);
    } else {
      NestsBySwitch(d, s1);
    }
  }

  // ----- whole runs

  lemma {:induction false} RunNests(d: seq<byte>, s: State, es: seq<Event>, t: State)
    requires Level(s) && Runs(d, s, es, t)
    ensures Level(t) && Nest(OpenIn(s), es) == Some(OpenIn(t))
    decreases |es|
  {
    if es == [] {
      RunsNone(d, s);
      RunsFunctional(d, s, [], s, t);
    } else {
      assert es == [es[0]] + es[1..];
      var m := RunsFirst(d, s, es[0], es[1..], t);
      NestsNext(d, s);
      RunNests(d, m, es[1..], t);
    }
  }

  lemma {:induction false} DocumentEndEmpty(open: Stack<OpenTag>, es: seq<Event>)
    requires Nest(open, es).Some? && es != [] && es[|es| - 1] == DocumentEnd
    ensures Nest(open, es) == Some(Empty)
    decreases |es|
  {
    if |es| > 1 { DocumentEndEmpty(Follow(open, es[0]).value, es[1..]); }
  }

  /** For every buffer, also one that is no encoding at all, and every run from the
      start: each DATA and END carries the kind and name of the innermost open
      START, the tags left open are those of the two stacks, and a run up to the end
      of the document has closed them all. */
  lemma EventsOfRunNest(d: seq<byte>, es: seq<Event>, t: State)
    requires Runs(d, INITIAL, es, t)
    ensures Nest(Empty, es) == Some(OpenIn(t))
    ensures es != [] && es[|es| - 1] == DocumentEnd ==> Nest(Empty, es) == Some(Empty)
  {
    RunNests(d, INITIAL, es, t);
    if es != [] && es[|es| - 1] == DocumentEnd { DocumentEndEmpty(Empty, es); }
  }
}
