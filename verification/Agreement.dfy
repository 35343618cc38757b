/** The two readers of the same format tell the same story. */
module Agreement {
  import opened Bytes
  import opened Tags
  import opened TreeParser
  import opened TreeParserProofs
  import opened PullMachine
  import opened PullProofs
  import opened PullExact
  import opened PullSound

  /** `mem` holds the buffer `d` at address 0, and anything after it. */
  ghost predicate Holds(mem: Memory, d: seq<byte>) {
    forall i | 0 <= i < |d| :: mem(i) == d[i]
  }

  lemma HasIsAt(mem: Memory, d: seq<byte>, s: seq<byte>)
    requires Holds(mem, d) && |s| <= |d| && Has(mem, 0, s)
    ensures At(d, 0, s)
  {
    assert forall i | 0 <= i < |s| :: Slice(mem, 0, |s|)[i] == d[i];
  }

  /** If the tree reader accepts a buffer, the pull reader's first calls on it
      report the flattening of the accepted tree, and leave its stacks clean,
      if and only if that tree is within the pull reader's limits. */
  lemma ReadersAgree(mem: Memory, d: seq<byte>)
    requires Holds(mem, d) && RootAt(mem, 0, |d|).Ok?
    ensures var r := RootAt(mem, 0, |d|);
            (exists u :: Runs(d, INITIAL, TagEvents(r.value), u) && Gap(u, r.next, NO_STACKS))
            <==> InLimitsTag(r.value)
  {
    RootSound(mem, 0, |d|);
    var t := RootAt(mem, 0, |d|).value;
    HasIsAt(mem, d, EncodeTag(t));
    TagExact(d, INITIAL, 0, NO_STACKS, t);
  }

  lemma AtIsHas(mem: Memory, d: seq<byte>, s: seq<byte>)
    requires Holds(mem, d) && At(d, 0, s)
    ensures Bytes.Has(mem, 0, s)
  {
    assert forall i | 0 <= i < |s| :: Slice(mem, 0, |s|)[i] == d[..|s|][i];
  }

  lemma CompoundByType(t: Tag)
    requires WFTag(t) && TypeOf(t.payload) == TAG_COMPOUND
    ensures t.payload.Compound?
  {
    assert WF(t.payload);
  }

  /** And back: if a tidy run of the pull reader starts with a compound and closes
      all it opens, its events begin with the flattening of a tree that the tree
      reader finds in the same buffer if and only if no list of it is typed
      Long_Array. */
  lemma {:induction false} RunThenTree(mem: Memory, d: seq<byte>, ss: seq<State>, es: seq<Event>, name: seq<byte>)
    returns (t: Tag, rest: seq<Event>)
    requires Holds(mem, d) && TidyPath(d, ss, es) && ss[0] == INITIAL && ss[|es|].stacks.types.Empty?
    requires es != [] && es[0] == Start(TAG_COMPOUND, name)
    ensures es == TagEvents(t) + rest && InLimitsTag(t) && t.payload.Compound?
    ensures RootAt(mem, 0, |d|) == Ok(t, |EncodeTag(t)|) <==> Readable(t.payload)
  {
    var ts := RunSound(d, ss, es);
    t, rest := ts[0], TagsEvents(ts[1..]);
    assert es[0] == TagEvents(t)[0];
    CompoundByType(t);
    AtConcat(d, 0, EncodeTag(t), EncodeTags(ts[1..]));
    AtIsHas(mem, d, EncodeTag(t));
    RootRoundTrip(mem, 0, |d|, t);
  }
}
