/** What every call of the pull reader keeps, and how many calls there can be. */
module PullInvariant {
  import opened Bytes
  import opened Tags
  import opened PullMachine
  import opened PullProofs
  import opened PullExact

  function Lists(types: Stack<TagId>): nat {
    if types.Empty? then 0 else (if types.top == TAG_LIST then 1 else 0) + Lists(types.below)
  }

  predicate IsContainer(kind: TagId) {
    kind == TAG_LIST || kind == TAG_COMPOUND
  }

  ghost predicate Containers(types: Stack<TagId>) {
    types.Push? ==> IsContainer(types.top) && Containers(types.below)
  }

  /** Each index is at most its length when that is not negative. */
  ghost predicate Bounded(indices: Stack<int>, lengths: Stack<int>) {
    match (indices, lengths)
    case (Push(i, below), Push(n, rest)) => 0 <= i && (n >= 0 ==> i <= n) && Bounded(below, rest)
    case (Empty, Empty) => true
    case _ => false
  }

  /** The five stacks agree. */
  ghost predicate Balanced(st: Stacks) {
    && Bounded(st.indices, st.lengths)
    && Excess(st) >= 0
    && st.payloadTypes.Depth() == Lists(st.types)
    && (st.types.Push? ==> Containers(st.types.below))
  }

  /** The two end flags agree with the open tag. */
  ghost predicate FlagsAgree(s: State) {
    var types := s.stacks.types;
    if !s.tagEnded then !s.endEmitted && types.Push?
    else if s.endEmitted then Containers(types)
    else types.Push? && (IsScalarKind(types.top) || types.top == TAG_STRING)
  }

  ghost predicate Aligned(d: seq<byte>, s: State) {
    && s.offset <= |d|
    && s.stacks.types.Depth() == s.stacks.names.Depth()
    && (s.offset < |d| ==> Balanced(s.stacks) && FlagsAgree(s))
  }

  /** The next call meets an End list that still expects elements. */
  ghost predicate EndListDue(s: State) {
    var st := s.stacks;
    && !(s.tagEnded && !s.endEmitted)
    && st.types.Push? && st.types.top == TAG_LIST
    && st.indices.Push? && st.lengths.Push? && st.indices.top < st.lengths.top
    && st.payloadTypes.Push? && st.payloadTypes.top == TAG_END
  }

  /** What one call does to the stacks while bytes remain. */
  ghost predicate Kept(d: seq<byte>, s: State, t: State) {
    && s.offset <= t.offset <= |d|
    && t.stacks.types.Depth() == t.stacks.names.Depth()
    && Balanced(t.stacks)
    && FlagsAgree(t)
    && Excess(t.stacks) == Excess(s.stacks) + (if EndListDue(s) then 1 else 0)
  }

  lemma {:induction false} BoundedDepth(indices: Stack<int>, lengths: Stack<int>)
    requires Bounded(indices, lengths)
    ensures indices.Depth() == lengths.Depth()
  {
    if indices.Push? { BoundedDepth(indices.below, lengths.below); }
  }

  /** Opening a tag inside a container, header included. */
  lemma BalancedByStart(d: seq<byte>, s: State, base: Stacks, name: seq<byte>, kind: TagId)
    requires Balanced(base) && Containers(base.types) && s.offset <= |d|
    requires s.stacks == base.(types := Push(kind, base.types), names := Push(name, base.names))
    requires KindHeader(d, s, kind).Went?
    ensures var t := KindHeader(d, s, kind).s;
            && s.offset <= t.offset <= |d|
            && t.stacks.types == s.stacks.types && t.stacks.names == s.stacks.names
            && t == s.(offset := t.offset, stacks := t.stacks)
            && Balanced(t.stacks) && Excess(t.stacks) == Excess(base)
  {
  }

  lemma KeptByHeader(d: seq<byte>, s: State)
    requires s.offset < |d| && Balanced(s.stacks) && s.stacks.types.Depth() == s.stacks.names.Depth()
    requires s.stacks.types.Empty? || s.stacks.types.top == TAG_COMPOUND
    requires Containers(s.stacks.types)
    requires TagHeaderStep(d, s).Went? && !s.endEmitted
    ensures Kept(d, s, TagHeaderStep(d, s).s)
  {
    if d[s.offset] != TAG_END {
      var kind := d[s.offset];
      var n := ReadNumber(TAG_SHORT, d[s.offset + 1..s.offset + 3]);
      KeptByStart(d, s, kind, d[s.offset + 3..s.offset + 3 + n]);
    }
  }

  lemma KeptByStart(d: seq<byte>, s: State, kind: TagId, name: seq<byte>)
    requires Balanced(s.stacks) && s.stacks.types.Depth() == s.stacks.names.Depth()
    requires Containers(s.stacks.types) && !s.endEmitted
    requires s.stacks.types.Empty? || s.stacks.types.top == TAG_COMPOUND
    requires kind != TAG_END && s.offset + 3 + |name| < |d| && d[s.offset] == kind
    requires ReadNumber(TAG_SHORT, d[s.offset + 1..s.offset + 3]) == |name|
    requires d[s.offset + 3..s.offset + 3 + |name|] == name
    requires TagHeaderStep(d, s).Went?
    ensures Kept(d, s, TagHeaderStep(d, s).s)
  {
    var s4 := NameRead(s, kind, name);
    assert KindHeader(d, s4, kind).Went?;
    HeaderDecoded(d, s, kind, name);
    BalancedByStart(d, s4, s.stacks, name, kind);
  }

  /** Advancing a list's index. */
  function Advanced(st: Stacks): Stacks
    requires st.indices.Push?
  {
    st.(indices := Push(st.indices.top + 1, st.indices.below))
  }

  lemma KeptByList(d: seq<byte>, s: State)
    requires s.offset < |d| && Balanced(s.stacks) && s.stacks.types.Depth() == s.stacks.names.Depth()
    requires !s.tagEnded && !s.endEmitted
    requires s.stacks.types.Push? && s.stacks.types.top == TAG_LIST
    requires ListStep(d, s).Went?
    ensures Kept(d, s, ListStep(d, s).s)
  {
    var st := s.stacks;
    if st.indices.top < st.lengths.top {
      var base := Advanced(st);
      assert Balanced(base) && Excess(base) == Excess(st);
      var kind := st.payloadTypes.top;
      if kind != TAG_END {
        var s1 := s.(stacks := base.(types := Push(kind, base.types), names := Push([], base.names)));
        BalancedByStart(d, s1, base, [], kind);
      }
    }
  }

  lemma KeptByArray(d: seq<byte>, s: State)
    requires s.offset < |d| && Balanced(s.stacks) && s.stacks.types.Depth() == s.stacks.names.Depth()
    requires !s.tagEnded && !s.endEmitted
    requires s.stacks.types.Push? && IsArrayKind(s.stacks.types.top)
    requires ArrayStep(d, s, s.stacks.types.top).Went?
    ensures Kept(d, s, ArrayStep(d, s, s.stacks.types.top).s)
  {
  }

  lemma KeptBySwitch(d: seq<byte>, s: State)
    requires s.offset < |d| && Balanced(s.stacks) && s.stacks.types.Depth() == s.stacks.names.Depth()
    requires !s.tagEnded && !s.endEmitted && s.stacks.types.Push?
    requires Switch(d, s).Went?
    ensures Kept(d, s, Switch(d, s).s)
  {
    var kind := s.stacks.types.top;
    if kind == TAG_COMPOUND { KeptByHeader(d, s); }
    else if kind == TAG_LIST { KeptByList(d, s); }
    else if IsArrayKind(kind) { KeptByArray(d, s); }
  }

  // ----- main results

  /** While bytes remain, every successful call keeps the five stacks in step;
      the number of counters without an owner grows exactly at End lists that
      still expect elements. */
  lemma CallKeeps(d: seq<byte>, s: State)
    requires Aligned(d, s) && s.offset < |d| && Next(d, s).Went?
    ensures Kept(d, s, Next(d, s).s)
  {
    var s1 := s.(tagEnded := false, endEmitted := false);
    if !s.tagEnded {
      KeptBySwitch(d, s);
    } else if s.endEmitted {
      if s.stacks.types.Empty? || s.stacks.types.top != TAG_LIST {
        KeptByHeader(d, s1);
      } else {
        KeptBySwitch(d, s1);
      }
    }
  }

  /** The invariant of every run. */
  lemma AlignedNext(d: seq<byte>, s: State)
    requires Aligned(d, s) && Next(d, s).Went?
    ensures Aligned(d, Next(d, s).s)
  {
    if s.offset < |d| { CallKeeps(d, s); }
  }

  /** Calls of a run that met an End list still expecting elements. */
  ghost function EndListsMet(ss: seq<State>): nat {
    if ss == [] then 0 else EndListsMet(ss[..|ss| - 1]) + if EndListDue(ss[|ss| - 1]) then 1 else 0
  }

  /** The five stacks match, but for `n` counters no open tag owns. */
  ghost predicate Matched(st: Stacks, n: nat) {
    && Bounded(st.indices, st.lengths)
    && st.indices.Depth() == st.lengths.Depth() == Counted(st.types) + n
    && st.payloadTypes.Depth() == Lists(st.types)
    && st.names.Depth() == st.types.Depth()
  }

  lemma MatchedStep(d: seq<byte>, s: State, e: Event, t: State, n: nat)
    requires Aligned(d, s) && s.offset < |d| && Call(d, s, e, t) && Matched(s.stacks, n)
    ensures Aligned(d, t) && Matched(t.stacks, n + if EndListDue(s) then 1 else 0)
  {
    CallKeeps(d, s);
    BoundedDepth(t.stacks.indices, t.stacks.lengths);
  }

  /** The run-level equality: as long as bytes remain, the counters no open tag
      owns are exactly one for each End list met, so that without one there are as
      many indices, and lengths, as open lists and arrays, and as many element
      types as open lists. */
  lemma {:induction false} CountersMatch(d: seq<byte>, ss: seq<State>, es: seq<Event>)
    requires Path(d, ss, es) && ss[0] == INITIAL
    requires forall i | 0 <= i < |es| :: ss[i].offset < |d|
    ensures Aligned(d, ss[|es|]) && Matched(ss[|es|].stacks, EndListsMet(ss[..|es|]))
    decreases |es|
  {
    var n := |es|;
    if n > 0 {
      PathFront(d, ss, es);
      CountersMatch(d, ss[..n], es[..n - 1]);
      assert ss[..n][..n - 1] == ss[..n - 1] && ss[..n][n - 1] == ss[n - 1];
      MatchedLink(d, ss, es, n - 1, EndListsMet(ss[..n - 1]));
    }
  }

  lemma {:induction false} MatchedLink(d: seq<byte>, ss: seq<State>, es: seq<Event>, i: nat, n: nat)
    requires Path(d, ss, es) && i < |es| && ss[i].offset < |d|
    requires Aligned(d, ss[i]) && Matched(ss[i].stacks, n)
    ensures Aligned(d, ss[i + 1]) && Matched(ss[i + 1].stacks, n + if EndListDue(ss[i]) then 1 else 0)
  {
    assert Link(d, ss, es, i);
    MatchedStep(d, ss[i], es[i], ss[i + 1], n);
  }

  lemma PathFront(d: seq<byte>, ss: seq<State>, es: seq<Event>)
    requires Path(d, ss, es) && es != []
    ensures Path(d, ss[..|es|], es[..|es| - 1])
  {
    var n := |es|;
    forall i: nat {:trigger Link(d, ss[..n], es[..n - 1], i)} | i < n - 1
      ensures Link(d, ss[..n], es[..n - 1], i)
    {
      assert Link(d, ss, es, i);
    }
  }

  /** Of all its throws, an aligned reader can only meet those for a short
      buffer, a negative length and a closing byte too many; it never uses the
      top of an empty stack. */
  lemma ThrowsOnlyOnInput(d: seq<byte>, s: State)
    requires Aligned(d, s) && Next(d, s).Threw?
    ensures var c := Next(d, s).cause;
            c == BufferExhausted || c == NegativeLength || c == TooManyClosing
  {
    if s.offset < |d| {
      BoundedDepth(s.stacks.indices, s.stacks.lengths);
    }
  }

  // ----- how long a run can be

  ghost predicate AllKnown(types: Stack<TagId>) {
    types.Push? ==> 0 < types.top <= TAG_LONG_ARRAY && AllKnown(types.below)
  }

  /** The next call must consume a byte: a datum or a child is due. */
  predicate Hungry(d: seq<byte>, s: State) {
    && s.offset < |d| && !s.tagEnded
    && s.stacks.types.Push? && s.stacks.types.top != TAG_LIST && !IsArrayKind(s.stacks.types.top)
  }

  /** Calls that may still come before the end of the document. */
  function Work(d: seq<byte>, s: State): int {
    3 * (|d| - s.offset) + s.stacks.names.Depth() - (if Hungry(d, s) then 2 else 0)
  }

  /** A call that is neither the end of the document nor an unknown tag. */
  predicate Ordinary(e: Event) {
    match e
    case DocumentEnd => false
    case Start(kind, _) => kind <= TAG_LONG_ARRAY
    case _ => true
  }

  ghost predicate Progress(d: seq<byte>, s: State, t: State) {
    AllKnown(t.stacks.types) && Work(d, t) < Work(d, s)
  }

  /** A START that was reported had a known kind. */
  ghost predicate KnownStart(t: State) {
    t.current == TagStart ==> t.stacks.types.Push? && t.stacks.types.top <= TAG_LONG_ARRAY
  }

  lemma HeaderAdvances(d: seq<byte>, s: State, kind: TagId)
    requires KindHeader(d, s, kind).Went?
    ensures var t := KindHeader(d, s, kind).s;
            && t == s.(offset := t.offset, stacks := t.stacks)
            && t.stacks.types == s.stacks.types && t.stacks.names == s.stacks.names
            && t.offset >= s.offset + (if kind == TAG_LIST || IsArrayKind(kind) then 4 else 0)
  {
  }

  lemma ProgressByHeader(d: seq<byte>, s: State)
    requires s.offset < |d| && AllKnown(s.stacks.types) && TagHeaderStep(d, s).Went?
    requires KnownStart(TagHeaderStep(d, s).s)
    ensures Progress(d, s, TagHeaderStep(d, s).s)
  {
    if d[s.offset] != TAG_END {
      var kind := d[s.offset];
      var n := ReadNumber(TAG_SHORT, d[s.offset + 1..s.offset + 3]);
      var name := d[s.offset + 3..s.offset + 3 + n];
      HeaderDecoded(d, s, kind, name);
      HeaderAdvances(d, NameRead(s, kind, name), kind);
    }
  }

  lemma ProgressByList(d: seq<byte>, s: State)
    requires s.offset < |d| && AllKnown(s.stacks.types) && ListStep(d, s).Went?
    requires s.stacks.types.Push? && s.stacks.types.top == TAG_LIST && !s.tagEnded
    requires KnownStart(ListStep(d, s).s)
    ensures Progress(d, s, ListStep(d, s).s)
  {
    var st := s.stacks;
    if st.indices.top < st.lengths.top && st.payloadTypes.top != TAG_END {
      var kind := st.payloadTypes.top;
      var base := Advanced(st);
      HeaderAdvances(d, s.(stacks := base.(types := Push(kind, base.types), names := Push([], base.names))), kind);
    }
  }

  lemma ProgressByDatum(d: seq<byte>, s: State)
    requires s.offset < |d| && AllKnown(s.stacks.types) && Switch(d, s).Went? && !s.tagEnded
    requires s.stacks.types.Push? && s.stacks.types.top != TAG_LIST && s.stacks.types.top != TAG_COMPOUND
    requires s.stacks.types.top != TAG_END
    ensures Progress(d, s, Switch(d, s).s)
  {
    var kind := s.stacks.types.top;
    assert IsScalarKind(kind) || IsArrayKind(kind) || kind == TAG_STRING;
  }

  lemma ProgressBySwitch(d: seq<byte>, s: State)
    requires s.offset < |d| && AllKnown(s.stacks.types) && Switch(d, s).Went? && !s.tagEnded
    requires s.stacks.types.Push? && s.stacks.types.top != TAG_END
    requires KnownStart(Switch(d, s).s)
    ensures Progress(d, s, Switch(d, s).s)
  {
    var kind := s.stacks.types.top;
    if kind == TAG_COMPOUND { ProgressByHeader(d, s); }
    else if kind == TAG_LIST { ProgressByList(d, s); }
    else { ProgressByDatum(d, s); }
  }

  lemma WorkDrops(d: seq<byte>, s: State)
    requires Aligned(d, s) && AllKnown(s.stacks.types) && Next(d, s).Went?
    requires Next(d, s).s.current != DocEnd && KnownStart(Next(d, s).s)
    ensures Progress(d, s, Next(d, s).s)
  {
    var s1 := s.(tagEnded := false, endEmitted := false);
    if s.offset < |d| {
      if !s.tagEnded {
        ProgressBySwitch(d, s);
      } else if s.endEmitted {
        if s.stacks.types.Empty? || s.stacks.types.top != TAG_LIST {
          ProgressByHeader(d, s1);
        } else {
          ProgressBySwitch(d, s1);
        }
      }
    }
  }

  lemma {:induction false} RunUsesWork(d: seq<byte>, s: State, es: seq<Event>, t: State)
    requires Aligned(d, s) && AllKnown(s.stacks.types) && Runs(d, s, es, t)
    requires forall e | e in es :: Ordinary(e)
    ensures Aligned(d, t) && |es| + Work(d, t) <= Work(d, s)
    decreases |es|
  {
    if es == [] {
      RunsNone(d, s);
      RunsFunctional(d, s, [], s, t);
    } else {
      assert es == [es[0]] + es[1..];
      var m := RunsFirst(d, s, es[0], es[1..], t);
      assert Ordinary(es[0]);
      AlignedNext(d, s);
      WorkDrops(d, s);
      RunUsesWork(d, m, es[1..], t);
    }
  }

  /** Every run is aligned, and ends soon: among more than 3 * |d| calls that
      all succeed there is the end of the document or an unknown tag id, so a
      run over known ids is over, one way or the other, by call 3 * |d| + 1. */
  lemma RunBound(d: seq<byte>, es: seq<Event>, t: State)
    requires Runs(d, INITIAL, es, t)
    requires forall e | e in es :: Ordinary(e)
    ensures Aligned(d, t)
    ensures |es| <= 3 * |d|
  {
    RunUsesWork(d, INITIAL, es, t);
  }

  /** Every successful call of an aligned reader reports an event. */
  lemma AlwaysReports(d: seq<byte>, s: State)
    requires Aligned(d, s) && Next(d, s).Went?
    ensures Observed(Next(d, s).s).Some?
  {
    AlignedNext(d, s);
    if s.offset < |d| {
      CallKeeps(d, s);
    }
  }

  /** The outcome of `n` calls, or of those up to the first throw. */
  function Calls(d: seq<byte>, s: State, n: nat): Step
    decreases n
  {
    if n == 0 then Went(s)
    else
      match Next(d, s)
      case Threw(t, cause) => Threw(t, cause)
      case Went(t) => Calls(d, t, n - 1)
  }

  /** By the `n`th call the reader has thrown or reported the end of the document. */
  predicate Over(d: seq<byte>, n: nat) {
    Calls(d, INITIAL, n).Threw? || Calls(d, INITIAL, n).s.current == DocEnd
  }

  /** The `n`th call reports the START of a tag the reader does not know. */
  predicate MeetsUnknown(d: seq<byte>, n: nat) {
    var r := Calls(d, INITIAL, n);
    r.Went? && r.s.current == TagStart && r.s.stacks.types.Push? && r.s.stacks.types.top > TAG_LONG_ARRAY
  }

  lemma {:induction false} CallsJoin(d: seq<byte>, s: State, a: nat, b: nat)
    ensures Calls(d, s, a).Went? ==> Calls(d, s, a + b) == Calls(d, Calls(d, s, a).s, b)
    ensures Calls(d, s, a).Threw? ==> Calls(d, s, a + b) == Calls(d, s, a)
    decreases a
  {
    if a > 0 && Next(d, s).Went? {
      CallsJoin(d, Next(d, s).s, a - 1, b);
    }
  }

  lemma {:induction false} CallsAligned(d: seq<byte>, s: State, n: nat)
    requires Aligned(d, s) && Calls(d, s, n).Went?
    ensures Aligned(d, Calls(d, s, n).s)
    decreases n
  {
    if n > 0 {
      AlignedNext(d, s);
      CallsAligned(d, Next(d, s).s, n - 1);
    }
  }

  /** The bound does need known ids: below an unknown one the reader reports
      DATA for as long as it is asked. */
  lemma {:induction false} UnknownForever(d: seq<byte>, s: State, n: nat)
    requires s.offset < |d| && !s.tagEnded && s.current == TagData
    requires s.stacks.types.Push? && s.stacks.names.Push? && s.stacks.types.top > TAG_LONG_ARRAY
    ensures Runs(d, s, seq(n, i => Data(s.stacks.types.top, s.stacks.names.top, s.datum)), s)
  {
    var e := Data(s.stacks.types.top, s.stacks.names.top, s.datum);
    if n == 0 {
      RunsNone(d, s);
    } else {
      RunsOne(d, s, e, s);
      UnknownForever(d, s, n - 1);
      RunsJoin(d, s, [e], s, seq(n - 1, i => e), s);
      assert [e] + seq(n - 1, i => e) == seq(n, i => e);
    }
  }

  /** An open tag of a kind the reader does not know, with bytes left. */
  predicate InUnknown(d: seq<byte>, s: State) {
    && s.offset < |d| && !s.tagEnded && s.stacks.types.Push? && s.stacks.names.Push?
    && s.stacks.types.top > TAG_LONG_ARRAY && (s.current == TagStart || s.current == TagData)
  }

  /** A START of an unknown kind leaves such a tag open. */
  lemma UnknownStart(d: seq<byte>, s: State)
    requires Aligned(d, s) && Next(d, s).Went?
    requires var t := Next(d, s).s; t.current == TagStart && t.stacks.types.Push? && t.stacks.types.top > TAG_LONG_ARRAY
    ensures InUnknown(d, Next(d, s).s)
  {
    var s1 := s.(tagEnded := false, endEmitted := false);
    if s.offset < |d| {
      if s.tagEnded && s.endEmitted && (s.stacks.types.Empty? || s.stacks.types.top != TAG_LIST) {
        UnknownByHeader(d, s1);
      } else if s.tagEnded && s.endEmitted {
        UnknownBySwitch(d, s1);
      } else if !s.tagEnded {
        UnknownBySwitch(d, s);
      }
    }
  }

  lemma UnknownByHeader(d: seq<byte>, s: State)
    requires TagHeaderStep(d, s).Went?
    requires var t := TagHeaderStep(d, s).s;
             t.current == TagStart && t.stacks.types.Push? && t.stacks.types.top > TAG_LONG_ARRAY
    ensures InUnknown(d, TagHeaderStep(d, s).s)
  {
  }

  lemma UnknownBySwitch(d: seq<byte>, s: State)
    requires s.offset < |d| && !s.tagEnded && Switch(d, s).Went?
    requires var t := Switch(d, s).s;
             t.current == TagStart && t.stacks.types.Push? && t.stacks.types.top > TAG_LONG_ARRAY
    ensures InUnknown(d, Switch(d, s).s)
  {
    if s.stacks.types.top == TAG_COMPOUND {
      UnknownByHeader(d, s);
    }
  }

  lemma {:induction false} RunAligned(d: seq<byte>, s: State, es: seq<Event>, t: State)
    requires Aligned(d, s) && Runs(d, s, es, t)
    ensures Aligned(d, t)
    decreases |es|
  {
    if es == [] {
      RunsNone(d, s);
      RunsFunctional(d, s, [], s, t);
    } else {
      assert es == [es[0]] + es[1..];
      var m := RunsFirst(d, s, es[0], es[1..], t);
      AlignedNext(d, s);
      RunAligned(d, m, es[1..], t);
    }
  }

  lemma UnknownData(d: seq<byte>, t: State, kind: TagId, name: seq<byte>, n: nat) returns (u: State)
    requires InUnknown(d, t) && t.stacks.types.top == kind && t.stacks.names.top == name
    ensures Runs(d, t, seq(n, i => Data(kind, name, t.datum)), u)
  {
    u := t;
    if n == 0 {
      RunsNone(d, t);
    } else {
      u := t.(current := TagData);
      var e := Data(kind, name, t.datum);
      RunsOne(d, t, e, u);
      UnknownForever(d, u, n - 1);
      RunsJoin(d, t, [e], u, seq(n - 1, i => e), u);
      assert [e] + seq(n - 1, i => e) == seq(n, i => e);
    }
  }

  /** So it is in every run: once a START of an unknown kind has been reported, the
      reader goes on with DATA for as long as it is asked. */
  lemma UnknownRun(d: seq<byte>, es: seq<Event>, kind: TagId, name: seq<byte>, t: State, n: nat) returns (u: State)
    requires Runs(d, INITIAL, es + [Start(kind, name)], t) && kind > TAG_LONG_ARRAY
    ensures Runs(d, t, seq(n, i => Data(kind, name, t.datum)), u)
  {
    var m := RunsSplit(d, INITIAL, es, [Start(kind, name)], t);
    assert [Start(kind, name)] == [Start(kind, name)] + [];
    var t' := RunsFirst(d, m, Start(kind, name), [], t);
    RunsNone(d, t');
    RunsFunctional(d, t', [], t', t);
    RunAligned(d, INITIAL, es, m);
    UnknownStart(d, m);
    u := UnknownData(d, t, kind, name, n);
  }

  // ----- when the reader comes to an end

  lemma {:induction false} UnknownCalls(d: seq<byte>, s: State, n: nat)
    requires InUnknown(d, s)
    ensures Calls(d, s, n).Went? && InUnknown(d, Calls(d, s, n).s)
    decreases n
  {
    if n > 0 {
      assert Next(d, s) == Went(s.(current := TagData));
      UnknownCalls(d, Next(d, s).s, n - 1);
    }
  }

  /** The document ends only where the buffer does, with every tag closed. */
  lemma DocEndStep(d: seq<byte>, s: State)
    requires Next(d, s).Went? && Next(d, s).s.current == DocEnd
    ensures s.offset >= |d| && s.stacks.names.Empty? && Next(d, s).s == s.(current := DocEnd)
  {
  }

  lemma {:induction false} DocEndCalls(d: seq<byte>, s: State, n: nat)
    requires s.offset >= |d| && s.stacks.names.Empty? && s.current == DocEnd
    ensures Calls(d, s, n) == Went(s)
    decreases n
  {
    if n > 0 {
      assert Next(d, s) == Went(s);
      DocEndCalls(d, s, n - 1);
    }
  }

  lemma OverLasts(d: seq<byte>, a: nat, b: nat)
    requires Over(d, a) && a <= b
    ensures Calls(d, INITIAL, b) == Calls(d, INITIAL, a)
  {
    CallsJoin(d, INITIAL, a, b - a);
    if Calls(d, INITIAL, a).Went? {
      CallsJoin(d, INITIAL, a - 1, 1);
      DocEndStep(d, Calls(d, INITIAL, a - 1).s);
      DocEndCalls(d, Calls(d, INITIAL, a).s, b - a);
    }
  }

  lemma LastCall(d: seq<byte>, n: nat)
    requires Calls(d, INITIAL, n).Went?
    ensures Calls(d, INITIAL, n + 1) == Next(d, Calls(d, INITIAL, n).s)
  {
    CallsJoin(d, INITIAL, n, 1);
    assert Calls(d, Calls(d, INITIAL, n).s, 1) == Next(d, Calls(d, INITIAL, n).s);
  }

  lemma CallBefore(d: seq<byte>, n: nat) returns (s: State)
    requires n > 0 && Calls(d, INITIAL, n).Went?
    ensures Calls(d, INITIAL, n) == Next(d, s) && Aligned(d, s)
  {
    CallsJoin(d, INITIAL, n - 1, 1);
    LastCall(d, n - 1);
    s := Calls(d, INITIAL, n - 1).s;
    CallsAligned(d, INITIAL, n - 1);
  }

  lemma MeetsUnknownState(d: seq<byte>, n: nat)
    requires MeetsUnknown(d, n)
    ensures InUnknown(d, Calls(d, INITIAL, n).s)
  {
    var s := CallBefore(d, n);
    UnknownStart(d, s);
  }

  lemma UnknownNeverOver(d: seq<byte>, n: nat, m: nat)
    requires MeetsUnknown(d, n)
    ensures !Over(d, m)
  {
    MeetsUnknownState(d, n);
    if m <= n {
      if Over(d, m) {
        OverLasts(d, m, n);
      }
    } else {
      CallsJoin(d, INITIAL, n, m - n);
      UnknownCalls(d, Calls(d, INITIAL, n).s, m - n);
    }
  }

  lemma NextCall(d: seq<byte>, s: State, j: nat) returns (t: State)
    requires Calls(d, INITIAL, j) == Went(s) && Aligned(d, s) && AllKnown(s.stacks.types)
    ensures Over(d, j + 1) || MeetsUnknown(d, j + 1)
            || (Calls(d, INITIAL, j + 1) == Went(t) && Aligned(d, t) && Progress(d, s, t))
  {
    LastCall(d, j);
    t := Next(d, s).s;
    if Next(d, s).Went? {
      AlwaysReports(d, s);
      AlignedNext(d, s);
      if t.current != DocEnd && KnownStart(t) {
        WorkDrops(d, s);
      }
    }
  }

  lemma {:induction false} EndsWithin(d: seq<byte>, s: State, j: nat) returns (k: nat)
    requires Calls(d, INITIAL, j) == Went(s) && Aligned(d, s) && AllKnown(s.stacks.types)
    ensures j < k <= j + Work(d, s) + 1 && (Over(d, k) || MeetsUnknown(d, k))
    decreases Work(d, s)
  {
    k := j + 1;
    var t := NextCall(d, s, j);
    if !Over(d, k) && !MeetsUnknown(d, k) {
      k := EndsWithin(d, t, k);
    }
  }

  /** Among the first 3 * |d| + 1 calls there is a throw, the end of the document or
      the START of an unknown tag. */
  lemma EndsInTime(d: seq<byte>)
    ensures exists k :: 0 < k <= 3 * |d| + 1 && (Over(d, k) || MeetsUnknown(d, k))
  {
    var k := EndsWithin(d, INITIAL, 0);
  }

  /** When the reader comes to an end: on any buffer, if and only if no call reports
      the START of an unknown tag; and if it ends it has done so by call
      3 * |d| + 1. */
  lemma EndsIff(d: seq<byte>)
    ensures (exists n :: Over(d, n)) <==> !exists n :: MeetsUnknown(d, n)
    ensures (exists n :: Over(d, n)) <==> Over(d, 3 * |d| + 1)
  {
    EndsInTime(d);
    var k :| 0 < k <= 3 * |d| + 1 && (Over(d, k) || MeetsUnknown(d, k));
    if MeetsUnknown(d, k) {
      forall m: nat
        ensures !Over(d, m)
      {
        UnknownNeverOver(d, k, m);
      }
    } else {
      OverLasts(d, k, 3 * |d| + 1);
      forall n: nat
        ensures !MeetsUnknown(d, n)
      {
        if MeetsUnknown(d, n) {
          UnknownNeverOver(d, n, k);
        }
      }
    }
  }
}
