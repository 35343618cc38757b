/** What a whole run of the pull reader reports. */
module PullTheorems {
  import opened Bytes
  import opened Tags
  import opened PullMachine
  import opened Wrappers
  import opened PullProofs

  // ----- the end of the buffer

  /** At the end of the buffer every open tag is closed, innermost first. */
  function Closing(types: Stack<TagId>, names: Stack<seq<byte>>): seq<Event> {
    if types.Empty? || names.Empty? then [DocumentEnd]
    else [End(types.top, names.top)] + Closing(types.below, names.below)
  }

  lemma {:induction false} CloseAll(d: seq<byte>, s: State) returns (u: State)
    requires s.offset >= |d| && s.stacks.types.Depth() == s.stacks.names.Depth()
    ensures Runs(d, s, Closing(s.stacks.types, s.stacks.names), u)
    ensures u.offset >= |d| && u.stacks.types.Empty? && u.current == DocEnd
    decreases s.stacks.names.Depth()
  {
    var st, t := s.stacks, Next(d, s).s;
    if st.names.Push? {
      RunsOne(d, s, End(st.types.top, st.names.top), t);
      u := CloseAll(d, t);
      RunsJoin(d, s, [End(st.types.top, st.names.top)], t, Closing(st.types.below, st.names.below), u);
    } else {
      u := t;
      RunsOne(d, s, DocumentEnd, u);
    }
  }

  /** Contents of a tag that reaches the end of the buffer, and every END. */
  lemma {:induction false} TailRun(d: seq<byte>, s: State, o: nat, base: Stacks, name: seq<byte>, p: Payload)
    returns (u: State)
    requires WF(p) && InLimits(p) && p != Null && base.types.Depth() == base.names.Depth()
    requires Open(s, o, Opened(base, name, p)) && At(d, o, Body(p)) && o + |Body(p)| == |d|
    ensures Runs(d, s, Inner(name, p) + ([End(TypeOf(p), name)] + Closing(base.types, base.names)), u)
    ensures u.current == DocEnd
    decreases p, 1
  {
    var closing := [End(TypeOf(p), name)] + Closing(base.types, base.names);
    var m;
    match p {
      case Scalar(kind, v) =>
        m := ScalarRun(d, s, o, base, name, kind, v);
        u := CloseAll(d, m);
      case Str(cs) =>
        StrDecoded(d, o, cs);
        m := StrRun(d, s, o, base, name, cs);
        u := CloseAll(d, m);
      case Array(kind, vs) =>
        CountIsSelf(|vs|);
        m := CellsRun(d, s, o, Opened(base, name, p), kind, name, vs);
        u := CloseAll(d, m);
      case Compound(tags) =>
        m, u := TailCompound(d, s, o, base, name, p);
      case List(elem, items) =>
        m, u := TailList(d, s, o, base, name, p);
    }
    RunsJoin(d, s, Inner(name, p), m, closing, u);
  }

  lemma {:induction false} TailCompound(d: seq<byte>, s: State, o: nat, base: Stacks, name: seq<byte>, p: Payload)
    returns (m: State, u: State)
    requires p.Compound? && WF(p) && InLimits(p) && base.types.Depth() == base.names.Depth()
    requires Open(s, o, Opened(base, name, p)) && At(d, o, Body(p)) && o + |Body(p)| == |d|
    ensures Runs(d, s, Inner(name, p), m)
    ensures Runs(d, m, [End(TAG_COMPOUND, name)] + Closing(base.types, base.names), u) && u.current == DocEnd
  {
    var t;
    m, t := BodyRun(d, s, o, base, name, p);
    u := CloseAll(d, t);
    RunsJoin(d, m, [End(TAG_COMPOUND, name)], t, Closing(base.types, base.names), u);
  }

  lemma {:induction false} TailList(d: seq<byte>, s: State, o: nat, base: Stacks, name: seq<byte>, p: Payload)
    returns (m: State, u: State)
    requires p.List? && WF(p) && InLimits(p) && base.types.Depth() == base.names.Depth()
    requires Open(s, o, Opened(base, name, p)) && At(d, o, Body(p)) && o + |Body(p)| == |d|
    ensures Runs(d, s, Inner(name, p), m)
    ensures Runs(d, m, [End(TAG_LIST, name)] + Closing(base.types, base.names), u) && u.current == DocEnd
    decreases p.items, 1
  {
    var List(elem, items) := p;
    if elem == TAG_END || items == [] {
      if elem == TAG_END { NullItems(items); }
      m := s;
      RunsNone(d, s);
      u := CloseAll(d, s);
    } else {
      CountIsSelf(|items|);
      var closing := [End(TAG_LIST, name)] + Closing(base.types, base.names);
      u := TailItems(d, s, o, Opened(base, name, p), items);
      m := RunsSplit(d, s, ItemEvents(items), closing, u);
    }
  }

  lemma {:induction false} TailItems(d: seq<byte>, s: State, o: nat, st: Stacks, items: seq<Payload>)
    returns (u: State)
    requires items != [] && Expects(s, o, st, items) && InLimitsItems(items)
    requires st.types.Depth() == st.names.Depth()
    requires At(d, o, EncodeItems(items)) && o + |EncodeItems(items)| == |d|
    ensures Runs(d, s, ItemEvents(items) + Closing(st.types, st.names), u) && u.current == DocEnd
    decreases items, 0
  {
    var x, rest := items[0], items[1..];
    var closing := Closing(st.types, st.names);
    ItemsSplit(d, o, items);
    ItemEventsThen(items, closing);
    if rest == [] {
      assert ItemEvents(rest) + closing == closing;
      u := LastItem(d, s, o, st, x);
    } else {
      var t := NextItem(d, s, o, st, items);
      u := TailItems(d, t, o + |Encode(x)|, Bumped(st, 1), rest);
      RunsJoin(d, s, Events([], x), t, ItemEvents(rest) + closing, u);
    }
  }

  lemma {:induction false} NextItem(d: seq<byte>, s: State, o: nat, st: Stacks, items: seq<Payload>)
    returns (t: State)
    requires items != [] && items[1..] != [] && Expects(s, o, st, items) && InLimitsItems(items)
    requires At(d, o, Encode(items[0])) && o + |Encode(items[0])| + |EncodeItems(items[1..])| <= |d|
    ensures Runs(d, s, Events([], items[0]), t)
    ensures Expects(t, o + |Encode(items[0])|, Bumped(st, 1), items[1..])
    decreases items, 0
  {
    ItemsNonEmpty(st.payloadTypes.top, items[1..]);
    t := ItemRun(d, s, o, st, items[0]);
  }

  lemma {:induction false} LastItem(d: seq<byte>, s: State, o: nat, st: Stacks, x: Payload) returns (u: State)
    requires WF(x) && InLimits(x) && x != Null && ElementDue(s, o, st, TypeOf(x))
    requires st.types.Depth() == st.names.Depth()
    requires At(d, o, Encode(x)) && o + |Encode(x)| == |d|
    ensures Runs(d, s, Events([], x) + Closing(st.types, st.names), u) && u.current == DocEnd
    decreases x, 2
  {
    var closing := Closing(st.types, st.names);
    PayloadNonEmpty(x);
    AtConcat(d, o, Header(x), Body(x));
    var t := ItemStart(d, s, o, st, x);
    u := TailRun(d, t, o + |Header(x)|, Bumped(st, 1), [], x);
    EventsThen([], x, closing);
    RunsJoin(d, s, [Start(TypeOf(x), [])], t, Inner([], x) + ([End(TypeOf(x), [])] + closing), u);
  }

  // ----- main results

  /** A whole document: on the encoding of any tag within the limits, compound
      or not, the calls of `next()` report exactly its flattening and then the
      end of the document. */
  lemma DocumentRun(t: Tag)
    requires WFTag(t) && InLimitsTag(t)
    ensures Reports(EncodeTag(t), TagEvents(t) + [DocumentEnd])
  {
    var d, p, name := EncodeTag(t), t.payload, t.name;
    assert At(d, 0, d);
    TagSplit(d, 0, t);
    var s := NamedStart(d, INITIAL, 0, NO_STACKS, t);
    var u := TailRun(d, s, |TagHeader(t) + Header(p)|, NO_STACKS, name, p);
    EventsThen(name, p, [DocumentEnd]);
    RunsJoin(d, INITIAL, [Start(TypeOf(p), name)], s, Inner(name, p) + ([End(TypeOf(p), name)] + [DocumentEnd]), u);
  }

  lemma DocumentEndCall(d: seq<byte>, s: State, t: State)
    requires Call(d, s, DocumentEnd, t)
    ensures Next(d, t) == Went(t) && Observed(t) == Some(DocumentEnd)
  {
    assert t.current == DocEnd;
    DocumentEndState(d, s, t);
  }

  lemma DocumentEndState(d: seq<byte>, s: State, t: State)
    requires Next(d, s) == Went(t) && t.current == DocEnd
    ensures t.offset >= |d| && t.stacks.names.Empty?
  {
  }

  /** A reader that is asked on after the end of the document reports it again,
      any number of times, and stays as it is. */
  lemma {:induction false} DocumentEndRepeats(d: seq<byte>, s: State, t: State, n: nat)
    requires Call(d, s, DocumentEnd, t)
    ensures Runs(d, t, seq(n, i => DocumentEnd), t)
  {
    DocumentEndCall(d, s, t);
    if n == 0 {
      RunsNone(d, t);
    } else {
      DocumentEndRepeats(d, s, t, n - 1);
      RunsOne(d, t, DocumentEnd, t);
      RunsJoin(d, t, [DocumentEnd], t, seq(n - 1, i => DocumentEnd), t);
      assert [DocumentEnd] + seq(n - 1, i => DocumentEnd) == seq(n, i => DocumentEnd);
    }
  }

  /** After the end of the document nothing else is ever reported, in any run. */
  lemma DocumentEndLasts(d: seq<byte>, s: State, es: seq<Event>, t: State, i: nat, j: nat)
    requires Runs(d, s, es, t) && i <= j < |es| && es[i] == DocumentEnd
    ensures es[j] == DocumentEnd
  {
    var before, after := es[..i], es[i + 1..];
    assert es == before + ([DocumentEnd] + after);
    var m := RunsSplit(d, s, before, [DocumentEnd] + after, t);
    var u := RunsFirst(d, m, DocumentEnd, after, t);
    if j > i {
      DocumentEndRepeats(d, m, u, |after|);
      SameEvents(d, u, after, t, seq(|after|, k => DocumentEnd), u);
      assert es[j] == after[j - i - 1];
    }
  }
}
