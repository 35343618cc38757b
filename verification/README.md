# Pixel Terrain: verified core

A Dafny model of the parts of Pixel Terrain, a renderer of game worlds as map
tiles, in which branching, state and arithmetic meet, with proofs about them.
`dafny verify dfyconfig.toml` checks everything.

The modules follow the program:

- **Bytes, Tags** define the binary tag format once: the tree, `Encode`, and the
  flattening of a tree into START, DATA and END events. Floats and doubles are
  held as their 4 or 8 bytes. **Format** says the same format in figures, for both
  readers: every id, width, sign and position as a number.
- **TreeParser, TreeParserProofs, TreeReader** are the recursive-descent reader.
  Its functions keep every bounds test of the source, loose ones included, and
  read from a memory that does not end with the buffer; the methods with the
  source's loops are proved against them.
- **PullMachine, PullReader** are the event reader: a step function over its five
  stacks and two flags, and the class whose methods update them.
  **PullProofs, PullTheorems, PullExact, PullInvariant** prove what its runs
  report, for which trees, what every call keeps, and when a run ends.
  **PullCounters** decides which trees are reported right with stray counters on
  the stacks, and **PullSound** goes from a run back to the trees.
  **PullNesting** is about the runs on any buffer at all, **PullTruncation** about
  what remains of a run when the buffer is cut short, **PullRecovery** about which
  buffers are read to the end without a fault, and **Agreement** joins the two
  readers.
- **Wrappers** holds `Option`.
- **Bits, BlockStates** are the lookup of a block in packed 64-bit words.
- **JobPool** is the thread pool as a state machine: a producer, any number of
  workers and `finish`, one step for each stretch under a lock. A notification
  with nobody waiting is lost, and wake-ups may be spurious.
- **RegionScan** is the incremental scan of a region with its journal.
- **Color, PixelScan, Render** are the way from a column of blocks to a pixel.
- **ColourTable** is the embedded colour table, writer and reader.
- **RegetOpt** is the option parser that permutes argv in place; **RegetSpelling**
  proves that what it returns is what was written.
- **Request** is the line reader and parser of the tile server.

Where the code and what is said about it disagree, the model follows the code:

- The scan's comment (src/image/worker.cc:300-302) says every update is caught.
  Only rows below a dirty scan row are looked at; `RegionScan.GenerateRegion`
  states the exact set, `CatchesAllIff` when the comment is right, and
  `MissedUpdate` and `SquareExact` what is missed.
- A list typed End with a positive count ends without popping its index and
  length (src/nbt/pull_parser/nbt_pull_parser.cc:141-146). In another list these
  take over the counting: after an End list of n elements it goes on for n - 1
  more, whatever its own count. `PullCounters.RootEventsIff` says which trees are
  reported right all the same.
- The tag-level reader may read one payload past the buffer
  (src/nbt/tag.cc:250, :288, :372, :411, :452); only the test at
  src/nbt/nbt.cc:15 makes the verdict depend on the buffer alone, and
  src/nbt-to-xml.cc:104-105 goes without it. `TagReadsOnlyBufferIff` gives the
  exact condition under which that does no harm: the tag ends inside the buffer.
- The pool's wait (src/utils/threaded_worker.hh:59-60) does not look at the queue
  again, so a wake-up can be missed; `JobPool.FinishHangsIff` says exactly when
  that leaves `finish` hanging.
- A block of the all-zero colour, which the table has
  (block/minecraft/block_colors_b.tsv:22), counts as no block seen yet
  (src/image/worker.cc:77, :95). All the same its height stays when no other block
  follows, and darkens the pixel once slopes or light have brightened it;
  `Render.ClearEntriesDrawnIff` says exactly when it shows.
- A translucent block at height zero is mistaken for the opaque layer
  (src/image/worker.cc:121-123).
- An option given by its exact long name is refused as ambiguous when two longer
  names precede it in the table (subprojects/regetopt/regetopt.c:96-113).
- A header line without a colon is stored with itself as its value, because the
  position past the end wraps round (src/server/request.cc:103-112).
- The generator accepts an empty block id, which the decoder takes for the end of
  the table (tools/block_data_generator.cc:231-239, src/image/blocks.cc:23-27).

Conventions. A throw or an error return is a value. A name or string length that
reads as negative throws: the end test wraps round and fails, or the string is
built from a reversed range.
Using the top of an empty stack, an undefined conversion and a read past a vector
are values of their own (`Undefined`, `Fault`), and are proved unreachable where
the source's callers keep them so. Iterator arithmetic is over natural numbers.

## Model

| member | source | states |
|---|---|---|
| Tags.ReadOfNumber | src/nbt/pull_parser/nbt_pull_parser.cc:17-55 | Every number of every tag kind, written big-endian at its width, is read back as the same number, two's complement for the signed kinds |
| Tags.NumberOfRead | src/nbt/tag.cc:258-321 | The other direction: writing what was read gives the same bytes, so no two byte strings mean one number |
| Format.BigEndian | src/nbt/pull_parser/nbt_pull_parser.cc:17-55 | Numbers of one, two, four and eight bytes, most significant byte first |
| Format.ScalarInFigures | src/nbt/tag.cc:258-321 | The six number factories by type id 1 to 6: 1, 2, 4, 8, 4 or 8 bytes, the second and third signed, accepted if 0, 2, 4, 4, 4 or 8 bytes are left |
| Format.ArrayInFigures | src/nbt/tag.cc:323-346 | The array factories by type id 7, 11 and 12: four bytes of count, then cells of 1, 4 and 8 bytes, each cell and the end position in figures, accepted exactly where the loose bounds of the source allow |
| Format.StringInFigures | src/nbt/tag.cc:348-367 | A string, type id 8: two bytes of length and that many characters, accepted exactly if they end before the end |
| Format.ContainersInFigures | src/nbt/tag.cc:369-439 | A list, type id 9: an element type below 12, four bytes of count, the elements from the fifth byte on; a compound, type id 10: its tags; nothing for type id 0 |
| Format.TagInFigures | src/nbt/tag.hh:596-624 | A named tag: its id, two bytes of length, the name and the payload, accepted exactly if more than three bytes are left, the name fits and the payload is accepted |
| Format.RootInFigures | src/nbt/nbt.cc:11-23 | A root has type id 10 and ends inside the buffer |
| Format.PayloadBytes | src/nbt/tag.cc:240-491 | The written form of every well-formed payload byte by byte, by literal ids, widths and signs |
| Format.SequenceBytes | src/nbt/tag.cc:389-436 | Tags, elements and their headers lie one behind the other |
| Format.DatumInFigures | src/nbt/pull_parser/nbt_pull_parser.cc:199-255 | The event reader on an open number of type id 1 to 6: one datum of 1, 2, 4, 8, 4 or 8 bytes, and the whole new state, or a throw if they are not there |
| Format.CellDatumInFigures | src/nbt/pull_parser/nbt_pull_parser.cc:256-364 | On an array of type id 7, 11 or 12 with cells to come: one datum of 1, 4 or 8 bytes, and one more counted |
| Format.TextInFigures | src/nbt/pull_parser/nbt_pull_parser.cc:279-295 | On an open string: two bytes of signed length and the characters as one datum, a negative length and missing bytes as throws of their own |
| Format.HeaderInFigures | src/nbt/pull_parser/nbt_pull_parser.cc:73-133 | What follows a START: four bytes of signed count for type ids 7, 11 and 12, a type and four bytes for 9, nothing for the others |
| Format.NameInFigures | src/nbt/pull_parser/nbt_pull_parser.cc:82-119 | A named header: the zero byte closes a tag, another id is followed by two bytes of signed length and a name with a byte after it; the whole new state or the throw |
| TreeReader.MakeArrayPayload | src/nbt/tag.cc:323-346 | The array factories, loops and loose bounds included, compute the specified array and end position |
| TreeReader.ReadCells | src/nbt/tag.cc:457-462 | The cell loop reads exactly the specified numbers and advances by their total width |
| TreeReader.MakeListPayload | src/nbt/tag.cc:369-401 | The list loop computes the specified list, failing where a factory fails |
| TreeReader.MakeCompoundPayload | src/nbt/tag.cc:403-439 | The compound loop computes the specified children up to and including the End byte |
| TreeReader.MakePayload | src/nbt/tag.cc:323-491 | Dispatch on the type id, with a termination measure over the mutual recursion |
| TreeReader.MakeTag | src/nbt/tag.hh:596-624 | A tag is header plus payload; another type id or a failing payload fails |
| TreeReader.Nbt.ParseBuffer | src/nbt/nbt.cc:11-23 | Sets the root exactly when the buffer holds an acceptable root compound that ends inside it, and leaves the old root otherwise |
| TreeParserProofs.RootSound | src/nbt/nbt.cc:11-23 | Acceptance is sound: an accepted root is well formed, re-encodes to exactly the consumed bytes, and those lie inside the buffer, although several factories test their bounds loosely |
| TreeParserProofs.RootRoundTrip | src/nbt/nbt.cc:11-23 | Of all root compounds, anywhere in a buffer and followed by anything, exactly those without a list of Long_Array are read back whole, stopping at the end of the encoding |
| TreeParserProofs.RootReadsOnlyBuffer | src/nbt/nbt.cc:14-18 | Verdict, tree and end position depend only on the bytes of the buffer, whatever the factories read past it on the way |
| TreeParserProofs.EncodingUnique | src/nbt/nbt.cc:11-23 | Two readable roots written at the same place are the same root |
| TreeParserProofs.TagReadsOnlyBufferIff | src/nbt/nbt.cc:14-18 | When the tag-level reader, without the test of nbt.cc:15, goes by the buffer alone: what it accepts is accepted alike for every continuation of the buffer if and only if it ends inside the buffer |
| TreeParserProofs.BufferDecidesIff | src/nbt/nbt.cc:14-18 | The same for a buffer: the bytes after it make no difference if and only if none of them gets it accepted past its end |
| TreeParserProofs.TagReadsPastEnd | src/nbt-to-xml.cc:104-109 | A witness: one truncated buffer that the tag-level reader, which this caller uses, accepts or rejects by the byte after it, and that the root reader rejects |
| TreeParserProofs.PayloadSound | src/nbt/tag.cc:240-491 | Whatever a payload factory accepts is well formed, readable, of the asked type, and encodes to the bytes it consumed |
| TreeParserProofs.ItemsSound | src/nbt/tag.cc:389-398 | The same for the elements of a list, in order |
| TreeParserProofs.TagSound | src/nbt/tag.hh:596-624 | The same for a named tag |
| TreeParserProofs.TagsSound | src/nbt/tag.cc:410-436 | The same for the children of a compound with their End byte |
| TreeParserProofs.PayloadComplete | src/nbt/tag.cc:240-491 | Every readable payload that lies in memory, with the one byte the loose guards need after it, is accepted as itself |
| TreeParserProofs.ItemsComplete | src/nbt/tag.cc:389-398 | The same for list elements |
| TreeParserProofs.TagComplete | src/nbt/tag.hh:596-624 | The same for a named tag |
| TreeParserProofs.TagsComplete | src/nbt/tag.cc:410-436 | The same for compound children |
| TreeParserProofs.ArrayExact | src/nbt/tag.cc:323-491 | An array in memory is accepted exactly when it fits before the end, except that an Int_Array also needs a byte to spare after its count and is not asked for the last four bytes of its cells |
| PullReader.NbtPullParser.constructor | src/nbt/pull_parser/nbt_pull_parser.cc:70-71 | A new reader is the initial state and satisfies the invariant |
| PullReader.NbtPullParser.HandleTagEnd | src/nbt/pull_parser/nbt_pull_parser.cc:159-168 | Pops name and type into the last-tag fields; the whole new state |
| PullReader.NbtPullParser.ParseArrayHeader | src/nbt/pull_parser/nbt_pull_parser.cc:73-80 | Whole new state: count pushed, index zero pushed, or buffer exhausted |
| PullReader.NbtPullParser.ParseListHeader | src/nbt/pull_parser/nbt_pull_parser.cc:121-133 | Whole new state: element type, then count and index |
| PullReader.NbtPullParser.ParseTagHeader | src/nbt/pull_parser/nbt_pull_parser.cc:82-119 | Whole new state or throw, for an End byte and for a named tag |
| PullReader.NbtPullParser.ParseName | src/nbt/pull_parser/nbt_pull_parser.cc:100-118 | Whole new state or throw once the type is pushed: name, then the array or list header |
| PullReader.NbtPullParser.ParseListData | src/nbt/pull_parser/nbt_pull_parser.cc:135-157 | Whole new state or throw for the next list element, with the End-typed branch that pops no counter |
| PullReader.NbtPullParser.EndCounted | src/nbt/pull_parser/nbt_pull_parser.cc:302-309 | Whole new state when an array or list is finished |
| PullReader.NbtPullParser.SwitchOnType | src/nbt/pull_parser/nbt_pull_parser.cc:196-364 | Every branch of the switch, unknown ids falling through to DATA |
| PullReader.NbtPullParser.Dispatch | src/nbt/pull_parser/nbt_pull_parser.cc:170-195 | The part of a call before the switch, auto-closing open tags at the end of the buffer |
| PullReader.NbtPullParser.Next | src/nbt/pull_parser/nbt_pull_parser.cc:170-365 | One call is exactly one machine step; it keeps the stack invariant, and the only throws are a short buffer, a negative length or a closing byte too many |
| PullMachine.RunsSplit | src/nbt/pull_parser/nbt_pull_parser.cc:170-365 | A run over two stretches of events passes through a state between them |
| PullMachine.RunsFunctional | src/nbt/pull_parser/nbt_pull_parser.cc:170-365 | The reader is deterministic: the events of a run fix its last state |
| PullProofs.BodyRun | src/nbt/pull_parser/nbt_pull_parser.cc:170-365 | With a payload opened, the calls report its inner events, then its END, and pop exactly what it pushed |
| PullProofs.ItemsRun | src/nbt/pull_parser/nbt_pull_parser.cc:135-157 | All elements of a list are reported in order while the enclosing index counts them |
| PullProofs.ItemRun | src/nbt/pull_parser/nbt_pull_parser.cc:135-157 | One list element is reported as a nameless START, contents and END |
| PullProofs.TagRun | src/nbt/pull_parser/nbt_pull_parser.cc:82-119 | One named tag is reported as its flattening and leaves the stacks as it found them |
| PullProofs.TagsRun | src/nbt/pull_parser/nbt_pull_parser.cc:313-314 | All children of a compound are reported in order |
| PullTheorems.DocumentRun | src/nbt/pull_parser/nbt_pull_parser.cc:170-365 | For every tag tree within the limits, the calls of next() over its encoding report exactly its START/DATA/END flattening with the right names, types and values, then DOCUMENT_END |
| PullTheorems.TailRun | src/nbt/pull_parser/nbt_pull_parser.cc:171-179 | The same flattening when the payload reaches the end of the buffer, where the closing events come from auto-closing |
| PullTheorems.CloseAll | src/nbt/pull_parser/nbt_pull_parser.cc:171-179 | At the end of the buffer every open tag is closed innermost first, then the document ends |
| PullTheorems.DocumentEndRepeats | src/nbt/pull_parser/nbt_pull_parser.cc:171-178 | A reader asked on after DOCUMENT_END reports it again, any number of times, and stays as it is |
| PullTheorems.DocumentEndLasts | src/nbt/pull_parser/nbt_pull_parser.cc:171-178 | In any run, whatever is reported after a DOCUMENT_END is DOCUMENT_END |
| PullExact.TagExact | src/nbt/pull_parser/nbt_pull_parser.cc:73-365 | The limits are exact: wherever a tag may start, with one byte after it unless it is a compound, its flattening is reported and the stacks restored if and only if names and strings are below 2^15, counts below 2^31 and no End list expects elements |
| PullExact.RootExact | src/nbt/pull_parser/nbt_pull_parser.cc:73-365 | Apart from End lists with elements, the reported events alone decide: a root compound is reported as its flattening if and only if it is within the limits |
| PullExact.ExcessStays | src/nbt/pull_parser/nbt_pull_parser.cc:73-168 | No call ever removes a counter that no open tag owns |
| PullExact.BodyFails | src/nbt/pull_parser/nbt_pull_parser.cc:170-365 | A payload out of limits either cannot be reported as its flattening or leaves a stray counter behind |
| PullExact.NameTooLong | src/nbt/pull_parser/nbt_pull_parser.cc:103-107 | A name of 2^15 bytes or more makes the call throw |
| PullExact.StrTooLong | src/nbt/pull_parser/nbt_pull_parser.cc:285-292 | A string of 2^15 bytes or more makes the call throw |
| PullExact.EndListLeak | src/nbt/pull_parser/nbt_pull_parser.cc:141-146 | An End list with elements is reported like an empty one, by one call that leaves the list's index and length on the stacks |
| PullExact.EndListEndsParent | src/nbt/pull_parser/nbt_pull_parser.cc:141-146 | The consequence in another list, for an End list of n elements: its index 1 and length n take over the counting there, so the other list has n - 1 elements to come whatever its own count, and ends at once if and only if n is one |
| PullInvariant.CallKeeps | src/nbt/pull_parser/nbt_pull_parser.cc:73-365 | While bytes remain, a successful call keeps the five stacks and both flags in step; stray counters grow by one exactly at End lists that still expect elements |
| PullInvariant.AlignedNext | src/nbt/pull_parser/nbt_pull_parser.cc:170-365 | The stack alignment, with stray counters allowed, is kept by every successful call |
| PullInvariant.CountersMatch | src/nbt/pull_parser/nbt_pull_parser.cc:73-365 | On every run while bytes remain: as many indices, and lengths, as open lists and arrays plus exactly one for each End list met that still expected elements; as many element types as open lists, as many names as open tags; each index at most its length when that is not negative |
| PullInvariant.AlwaysReports | src/nbt/pull_parser/nbt_pull_parser.cc:170-365 | Every successful call of an aligned reader reports an event |
| PullInvariant.ThrowsOnlyOnInput | src/nbt/pull_parser/nbt_pull_parser.cc:170-365 | An aligned reader never meets a corrupted or empty stack: only three of its throws can happen |
| PullInvariant.WorkDrops | src/nbt/pull_parser/nbt_pull_parser.cc:170-365 | Every ordinary call uses up work, although element STARTs and ENDs consume no byte |
| PullInvariant.RunBound | src/nbt/pull_parser/nbt_pull_parser.cc:170-365 | A run over known tag ids makes at most 3 * length calls that succeed and are not the end of the document |
| PullInvariant.EndsInTime | src/nbt/pull_parser/nbt_pull_parser.cc:170-365 | On every buffer, among the first 3 * length + 1 calls there is a throw, the end of the document or the START of an unknown tag |
| PullInvariant.EndsIff | src/nbt/pull_parser/nbt_pull_parser.cc:170-365 | When the reader comes to an end: on every buffer, if and only if no call reports the START of an unknown tag, and then by call 3 * length + 1 |
| PullInvariant.UnknownRun | src/nbt/pull_parser/nbt_pull_parser.cc:198-364 | In every run that has reported the START of an unknown tag the reader goes on with as many DATA events as it is asked for |
| PullInvariant.UnknownForever | src/nbt/pull_parser/nbt_pull_parser.cc:198-364 | Inside an unknown tag a call that reports DATA changes nothing |
| PullCounters.RootEventsIff | src/nbt/pull_parser/nbt_pull_parser.cc:73-365 | When the events alone are right, End lists with elements included: a root compound, whatever follows it, is reported as its flattening if and only if its count of what is on the index and length stacks comes out |
| PullCounters.BodyCounted | src/nbt/pull_parser/nbt_pull_parser.cc:135-157 | For every payload and any counters below it: by its count the contents and END are reported and leave exactly the counted counters, or no run reports them |
| PullCounters.ItemsCounted | src/nbt/pull_parser/nbt_pull_parser.cc:135-157 | The same for list elements, which count on the innermost counter, whoever left it |
| PullCounters.LimitsTally | src/nbt/pull_parser/nbt_pull_parser.cc:73-157 | A tree within the limits counts out anywhere and leaves nothing behind |
| PullCounters.LeaksHarmless | src/nbt/pull_parser/nbt_pull_parser.cc:141-146 | End lists with elements that lie outside every other list never spoil the events |
| PullSound.RunSound | src/nbt/pull_parser/nbt_pull_parser.cc:73-365 | From a run back to trees: a run that closes all it opens and meets no End list expecting elements, no unknown id, no negative count and no end of the buffer reports the flattening of some tags within the limits whose End lists are empty, and the bytes it consumed are exactly their encodings; the calls over those events, from the start, end in the same state |
| PullSound.TagBack | src/nbt/pull_parser/nbt_pull_parser.cc:82-119 | In such a run a START begins the flattening of a tag whose encoding lies where the call began |
| PullSound.BodyBack | src/nbt/pull_parser/nbt_pull_parser.cc:170-365 | The same for the rest of an opened tag, which is a payload of the pushed kind, count and element type |
| PullSound.ItemsBack | src/nbt/pull_parser/nbt_pull_parser.cc:135-157 | The same for the remaining elements of a list, exactly as many as its counter allows |
| PullSound.TagsBack | src/nbt/pull_parser/nbt_pull_parser.cc:313-314 | The same for the children of a compound |
| PullNesting.NestsNext | src/nbt/pull_parser/nbt_pull_parser.cc:73-365 | One call, in any state with as many types as names: it reports an event, DATA and END with the kind and name of the innermost open tag, and the tags open after it are those of the types and names stacks |
| PullNesting.TagsNest | src/nbt/pull_parser/nbt_pull_parser.cc:73-365 | What nesting means: the flattening of any tags nests and leaves nothing open |
| PullNesting.EventsOfRunNest | src/nbt/pull_parser/nbt_pull_parser.cc:73-365 | For every buffer and every run from the start, with stray counters, negative counts, unknown ids or tags closed by the end of the buffer: each DATA and END carries the kind and name of the innermost open START, what is open is what the types and names stacks hold, and a run up to DOCUMENT_END has closed everything, as src/nbt-to-xml.cc:116-210 takes for granted |
| PullTruncation.CutCall | src/nbt/pull_parser/nbt_pull_parser.cc:73-365 | One call on any buffer and on the same buffer cut short behind the reader: it is the same call if it needs no byte past the cut, where a name without an array or list header needs one more byte than it consumes, and otherwise it throws for want of bytes |
| PullTruncation.CutRun | src/nbt/pull_parser/nbt_pull_parser.cc:170-365 | A whole run on any buffer, cut short anywhere: the shorter buffer gives the first events of the run, and then the run is over, or a call throws for want of bytes, or the cut is reached and the open tags are closed innermost first up to DOCUMENT_END |
| PullTruncation.TruncatedRun | src/nbt/pull_parser/nbt_pull_parser.cc:73-365 | The encodings of any tags within the limits, cut short anywhere: if no header, number or string is cut in two and the cut is not right after the name of a number, string or compound tag, exactly the flattening of what is left of the tags is reported and then DOCUMENT_END, the same as for the complete encoding of what is left, which is again within the limits; otherwise first events of the flattening and a throw |
| PullTruncation.TruncatedIff | src/nbt/pull_parser/nbt_pull_parser.cc:73-365 | A truncated encoding is read to DOCUMENT_END if and only if the cut leaves a tree, that is, goes through no header, number or string and does not come right after the name of a number, string or compound tag |
| PullTruncation.RootsWhole | src/nbt/pull_parser/nbt_pull_parser.cc:170-365 | Several root tags one after the other are reported as their flattenings in order, then DOCUMENT_END |
| PullTruncation.WholeKept | src/nbt/pull_parser/nbt_pull_parser.cc:171-179 | A cut between two tags leaves the tags before it whole, and a cut at the very end leaves everything |
| PullTruncation.TagsLeft | src/nbt/pull_parser/nbt_pull_parser.cc:73-157 | What a cut leaves of tags within the limits is well formed and within the limits |
| PullRecovery.SoundlyReadIff | src/nbt/pull_parser/nbt_pull_parser.cc:73-365 | For every buffer: it is read to DOCUMENT_END with given events, by calls that meet no End list expecting elements, no unknown id and no negative count, tags closed by the end of the buffer included, if and only if it is a beginning of the encodings of some tags within the limits whose End lists are empty, cut where a tree is left, and the events are the flattening of what is left |
| PullRecovery.SoundIsCut | src/nbt/pull_parser/nbt_pull_parser.cc:73-365 | One half: such a run gives the tags, with encodings that go on where the buffer ends |
| PullRecovery.CutIsSound | src/nbt/pull_parser/nbt_pull_parser.cc:73-365 | The other half: the run on such a beginning meets none of the three faults |
| PullRecovery.TidilyReadIff | src/nbt/pull_parser/nbt_pull_parser.cc:73-365 | For a stretch of a buffer with bytes after it: it is read by such calls that close every tag before the end of the buffer if and only if it is exactly the encodings of such tags, and the events are their flattening |
| PullRecovery.BeginsEncoding | src/nbt/pull_parser/nbt_pull_parser.cc:73-365 | A buffer that such calls use up, whatever is open then, begins the encodings of some tags: the open ones can be completed |
| PullRecovery.CompleteFrom | src/nbt/pull_parser/nbt_pull_parser.cc:170-365 | From any such state the missing elements, cells and closing bytes make the reader close every open tag |
| PullRecovery.TidyKeeps | src/nbt/pull_parser/nbt_pull_parser.cc:73-365 | What such calls keep: five stacks in step without a stray counter, counts not negative, ids known, and no list but the innermost typed End |
| PullRecovery.TidyTags | src/nbt/pull_parser/nbt_pull_parser.cc:73-365 | The encodings of such tags, inside any buffer, are read by such calls |
| Agreement.ReadersAgree | src/nbt/pull_parser/nbt_pull_parser.cc:170-365 | For every buffer the tree reader accepts, the pull reader's first calls report the flattening of the accepted tree and leave its stacks clean if and only if that tree is within the pull reader's limits |
| Agreement.RunThenTree | src/nbt/nbt.cc:11-23 | And back: if such a run starts with a compound, its events begin with the flattening of a tree that the tree reader finds in the same buffer, ending where the encoding does, if and only if no list of it is typed Long_Array |
| BlockStates.SmearRoundsUp | src/nbt/chunk.cc:493-498 | The five smearing steps turn a 32-bit word into one less than the power of two above it |
| BlockStates.WidthIsLeast | src/nbt/chunk.cc:486-501 | The width is the least one, never below 4, that holds every palette id, if and only if the palette has at most 2^31 names |
| BlockStates.StretchedRefines | src/nbt/chunk.cc:511-538 | For every width up to 32 and ids packed end to end, the stretched lookup returns the id at the position, ids across two words included, and the second word exists |
| BlockStates.CompactRefines | src/nbt/chunk.cc:513-528 | For every width and any number of ids, the compact lookup returns the id at the position |
| BlockStates.LayoutsCoincide | src/nbt/chunk.cc:509-528 | When the width divides 64 both branches read the same word at the same shift, whatever the words hold |
| BlockStates.BlockAtRefines | src/nbt/chunk.cc:468-549 | A packed section means its ids: for palettes up to 2^31 names, 4096 ids and either layout, a lookup gives the name of the id there, air for id 0 and for ids out of range |
| BlockStates.IdWidth | src/nbt/chunk.cc:486-501 | Computes the specified width, at most 31 when defined |
| BlockStates.GetBlock | src/nbt/chunk.cc:468-549 | The whole lookup: empty name out of range, air without a palette, otherwise the block at 256 (y mod 16) + 16 z + x of section y / 16, in the layout that data versions below 2529 have; for a section of packed layers, rows and columns that is the name of the id in layer y mod 16, row z and column x |
| BlockStates.SectionMeans | src/nbt/chunk.cc:478-540 | For sixteen layers of sixteen rows of sixteen ids, packed in either layout at the least width, the block at x, y, z is the name of the id in layer y, row z and column x, air for id 0 and ids the palette lacks |
| BlockStates.StretchedBlock | src/nbt/chunk.cc:507-530 | Any position of any stretched section, packed by whom ever: the name of the number in the position's bits of the one large number the words are, air past the words, undefined where the second of two words is missing |
| BlockStates.CompactBlock | src/nbt/chunk.cc:531-545 | Any position of any compact section: the name of the number in its bits of one word, air past the words |
| JobPool.InvStep | src/utils/threaded_worker.hh:50-127 | Every atomic step keeps order, conservation, the workers' hold on their own jobs, and that no worker leaves before the jobs queued before finish are taken |
| JobPool.InvRun | src/utils/threaded_worker.hh:50-127 | So does every interleaving |
| JobPool.Conservation | src/utils/threaded_worker.hh:50-113 | Every interleaving from a fresh pool: submitted jobs are the taken prefix plus the queue, and taken jobs are exactly those in flight or handled, as multisets |
| JobPool.FinishedMeansHandled | src/utils/threaded_worker.hh:109-127 | Once finish has returned with at least one worker, every job queued before it, and every later one taken, was handled exactly once, and the rest are still queued |
| JobPool.FinishHangsIff | src/utils/threaded_worker.hh:50-127 | When finish hangs: in any reachable pool, at its notify_all before joining worker k, it can come to hang on k if and only if k is then in the gap between releasing the queue's lock and waiting; the pool's own steps are then enough |
| JobPool.HangsOnlyIfParked | src/utils/threaded_worker.hh:57-63 | In every run: if finish hangs on worker k, notify_all was called for k in this run, as for each worker before it is joined, and k was parking at that moment |
| JobPool.AsleepHangs | src/utils/threaded_worker.hh:57-60 | From there the steps, without a new job or a spurious wake-up, that end with finish hung on k |
| JobPool.AwakeRun | src/utils/threaded_worker.hh:115-127 | A worker that is fetching, handling or gone when notified never comes to wait again: every run keeps it so until finish has passed it |
| JobPool.JobsAttended | src/utils/threaded_worker.hh:107-113 | Without a worker between looking at the queue and waiting when a job is queued, the wake-up is enough: wherever such a run leads, while a job is queued some worker is about to look at the queue, unless all have left |
| JobPool.StuckWhileJoining | src/utils/threaded_worker.hh:57-60 | What the hung state looks like: while finish joins a worker it has notified, nothing can move if and only if that worker waits and all others wait or have left |
| JobPool.MissedWakeup | src/utils/threaded_worker.hh:57-60 | Liveness does not hold: one concrete run loses the wake-up and ends with the job queued, the worker asleep and finish blocked |
| RegionScan.Scanner.constructor | src/image/worker.cc:293-303 | A scan starts with nothing looked at and nothing drawn |
| RegionScan.Scanner.Visit | src/nbt/region.cc:143-192 | One chunk is looked at once, drawn exactly when dirty, and its journal cell raised exactly then |
| RegionScan.Scanner.ScanNeighbours | src/image/worker.cc:364-394 | The three rows below the scan row are looked at for exactly the given columns |
| RegionScan.Scanner.ScanColumn | src/image/worker.cc:307-396 | The clipped column range adds exactly the chunks not looked at before |
| RegionScan.Scanner.ScanBand | src/image/worker.cc:304-397 | One band of four rows |
| RegionScan.Scanner.GenerateRegion | src/image/worker.cc:293-411 | For every dirty and missing pattern: each scan row entirely, and off it exactly the chunks within three columns of a dirty chunk on their band's scan row, each once; exactly the dirty ones are drawn, each once; the whole new journal; and all of it by place in the file and in figures |
| RegionScan.DirtyInFigures | src/nbt/region.cc:143-192 | Header entry and journal cell k belong to column k % 32 and row k / 32: that chunk is dirty if and only if the entry has a time later than the cell, or any time without a journal |
| RegionScan.ScanIsInFigures | src/image/worker.cc:293-411 | A scan by place in the file: looked at are rows divisible by four and what lies within three columns of a changed chunk of the row before that is; drawn are the changed ones of these; journal cell k takes the time of entry k if the tile of column k % 32 and row k / 32 was drawn, and stays else |
| RegionScan.JournalGrows | src/nbt/region.cc:180-189 | With a journal no cell ever goes down |
| RegionScan.JournalGrowsOverRuns | src/nbt/region.cc:180-189 | Nor over any number of scans of a file that changes between them |
| RegionScan.SecondScanDrawsNothing | src/nbt/region.cc:180-189 | With a journal a second scan of the same file draws nothing |
| RegionScan.CatchesAllIff | src/image/worker.cc:300-303 | Every update is caught if and only if each dirty chunk off the scan rows has a dirty chunk on its band's scan row within three columns |
| RegionScan.MissedUpdate | src/image/worker.cc:300-303 | The comment's claim is false: any single changed chunk off the scan rows is never looked at, however often the scan is run |
| RegionScan.SquareExact | src/image/worker.cc:300-303 | Even of a radius-three square of updates, exactly the rows from its first scan row down are drawn |
| RegetOpt.Parser.Reorder | subprojects/regetopt/regetopt.c:167-173 | Rotates the argument to the end of argv in place, all other elements accounted for |
| RegetOpt.Parser.MoveOperand | subprojects/regetopt/regetopt.c:201-206 | An operand goes behind the operands found before it; nothing else changes order |
| RegetOpt.Parser.RegetoptShort | subprojects/regetopt/regetopt.c:23-68 | One option character: value, argument, re_optarg, position and cluster index |
| RegetOpt.Parser.RegetoptLong | subprojects/regetopt/regetopt.c:80-165 | One long option: exact before ambiguous match, argument forms, re_optarg, errors, new position |
| RegetOpt.Parser.SkipOperands | subprojects/regetopt/regetopt.c:183-216 | Moving operands and passing exhausted clusters changes no reading of the command line and uses up work |
| RegetOpt.Parser.EndCall | subprojects/regetopt/regetopt.c:184-195 | The two ways to return -1 leave argv arranged by the reading, with "--" passed |
| RegetOpt.Parser.Regetopt | subprojects/regetopt/regetopt.c:175-222 | One call returns the next value of the reading of the whole line, sets re_optarg to its argument, leaves the reading of the rest and shrinks the work; at the end argv is arranged by that reading |
| RegetOpt.CallToEnd | subprojects/regetopt/regetopt.c:175-222 | All calls up to -1 or an error: the values of the reading of what is there, re_optarg as the last one leaves it, argv arranged |
| RegetOpt.ReadAll | subprojects/regetopt/regetopt.c:175-222 | The whole run: values returned are those of the left-to-right reading of the original line; without an error argv ends up as program name, options with their arguments, what came after "--", then the operands before it, each of these groups in its original order and all a permutation of the original argv; the last two together are in their original order if and only if both repeat one pattern, which without repeated arguments means one of them is empty |
| RegetSpelling.ShortInFigures | subprojects/regetopt/regetopt.c:23-68 | One option character: unknown if the option string lacks it, alone unless a colon follows its first place there, else with the rest of the argument, the next argument, or an error |
| RegetSpelling.LongInFigures | subprojects/regetopt/regetopt.c:80-165 | One long option by its text: the name before the first equals sign is looked up, the value is what follows it, or the next argument where one is required |
| RegetSpelling.ArgInFigures | subprojects/regetopt/regetopt.c:33-52 | re_optarg after each returned value: set to a given one, cleared for an optional one that is missing, else left alone |
| RegetSpelling.Spelled | subprojects/regetopt/regetopt.c:175-222 | What is returned is what was written: for every line read without an error the returned options and values, written out again, spell exactly the options and their arguments as they stand on the line |
| RegetSpelling.OptionIff | subprojects/regetopt/regetopt.c:197-209 | Which arguments are options, and which long ones |
| RegetOpt.ExactNameIff | subprojects/regetopt/regetopt.c:91-114 | The option with exactly the given name is chosen if and only if at most one longer name comes before it in the table; otherwise the name is ambiguous |
| RegetOpt.AbbreviationIff | subprojects/regetopt/regetopt.c:91-121 | Without an exact name: one extension is chosen, none is unknown, several are ambiguous |
| RegetOpt.PartitionIsPermutation | subprojects/regetopt/regetopt.c:167-173 | Options, what follows "--" and operands together are the arguments, as a multiset |
| RegetOpt.ReadPartitions | subprojects/regetopt/regetopt.c:175-222 | Without an error the reading is a stable partition of the arguments, and no operand is an option |
| RegetOpt.MergeIsPermutation | subprojects/regetopt/regetopt.c:167-173 | A stable partition is a permutation |
| RegetOpt.OrderKeptIff | subprojects/regetopt/regetopt.c:175-222 | On a line without repeated arguments and without an error, the operands as a whole end up in their original order if and only if there are none before "--" or nothing comes after it |
| RegetOpt.OrderKeptByPatternIff | subprojects/regetopt/regetopt.c:175-222 | On any line: if and only if both groups are repetitions of one pattern |
| RegetOpt.PatternFound | subprojects/regetopt/regetopt.c:175-222 | Two groups that can be swapped without a change are found to be repetitions of one pattern |
| RegetOpt.DashesReverse | subprojects/regetopt/regetopt.c:191-195 | A witness that "--" can reverse the order: with one operand before it and one argument after it, the operand ends up last |
| Request.NextLineIff | src/server/request.cc:44-91 | A line is read if and only if the stream starts with it and CR LF, it holds neither, and it fits the buffer with its terminator |
| Request.Request.Fill | src/server/request.cc:61-71 | A refill of any positive size changes nothing but what is buffered |
| Request.Request.Consume | src/server/request.cc:85-87 | Shifting the buffer drops exactly the bytes read |
| Request.Request.ReadRequestLine | src/server/request.cc:44-92 | Independent of chunking: for every way the stream is cut into pieces the outcome is that of the unread stream, and exactly the line and terminator are consumed |
| Request.Request.ParseSig | src/server/request.cc:8-42 | The three scanning loops compute the specified verdict and fields, earlier fields kept on failure |
| Request.ParseSigIff | src/server/request.cc:8-42 | Accepted request lines are exactly letters, space, anything without a slash, slash, digits and dots, and the three fields are those parts |
| Request.RefusedSig | src/server/request.cc:8-42 | What a refused request line leaves: nothing without a space behind its letters, the letters without a slash later, else the letters and what stands before the first slash |
| Request.Request.StoreField | src/server/request.cc:102-119 | One header line: an empty key refuses, otherwise the field is stored and more than five refuse |
| Request.Request.ParseHeaders | src/server/request.cc:101-121 | The header loop, on any chunking, is the specified function of the stream |
| Request.Request.ParseAll | src/server/request.cc:94-123 | Verdict, signature, fields and unread bytes depend only on the stream |
| Request.HeadersInFigures | src/server/request.cc:101-121 | The header loop line by line: it ends well where no line can be read or at an empty line, refuses a line that starts with a colon, stores every other and refuses when it holds more than five |
| Request.RequestRefused | src/server/request.cc:94-100 | A first line that cannot be read refuses and changes nothing; one that is refused leaves its parts and the bytes after it |
| Request.LineSplits | src/server/request.cc:102-112 | Key and value of every header line from the line alone: split at the first colon and one space after it; without a colon the line is the key and, but for one leading space, the value too |
| Request.HeadersRoundTrip | src/server/request.cc:101-121 | Written headers are accepted if and only if at most five distinct keys result; the map is then the one written and what follows stays unread |
| Request.RequestRoundTrip | src/server/request.cc:94-123 | A written request is read back whole under the same condition |
| Color.BlendInRange | src/graphics/color.cc:13-43 | Blending never divides by zero and never wraps: the new alpha is the exact cover, at least both alphas, and no channel exceeds the larger of the two |
| Color.ChannelAtMost | src/graphics/color.cc:31-38 | One blended channel is the exact quotient and bounded by the larger input |
| Color.BlendInFigures | src/graphics/color.cc:13-43 | Blending in figures: the new alpha is the sum of both less their product over 255, each channel the weighted sum divided by it, for all colours |
| Color.BrightenInFigures | src/graphics/color.cc:70-93 | Brightening in figures: each channel moved, 0 where it would be less and 255 where it would be more |
| Color.MixInFigures | src/graphics/color.cc:45-68 | Half-opacity mixing in figures, alpha kept |
| Color.BlendLaws | src/graphics/color.cc:13-43 | An opaque colour hides its backdrop, a clear one shows an opaque backdrop unchanged, and anything over an opaque backdrop is opaque |
| Color.MixChannel | src/graphics/color.cc:45-68 | Half-opacity mixing lies between the two channels, at their rounded-down average |
| Color.IncreaseBrightness | src/graphics/color.cc:70-93 | The two loops move all three channels with clamping and leave alpha alone |
| PixelScan.ScanColumn | src/image/worker.cc:33-128 | The downward scan of a column is the pile of its layers, where a layer is a noticed, coloured block that does not continue the one above it |
| PixelScan.AddLayer | src/image/worker.cc:77-112 | The three colour branches place one layer and stop exactly when the pixel is closed |
| PixelScan.PlaceKeeps | src/image/worker.cc:77-112 | A layer under an open pixel keeps the height order and never lowers the under-layer alpha |
| PixelScan.HeightsOrdered | src/image/worker.cc:33-128 | Every column: opaque height <= middle height <= top height, and an opaque background |
| PixelScan.PileSolid | src/image/worker.cc:77-112 | Layers of the all-zero colour leave no trace in a pixel but in its flags and in the heights and biome that go with a colour never set: top height and biome without a solid layer, middle height with fewer than two |
| PixelScan.FrontLayerIff | src/image/worker.cc:119-127 | For every list of layers: the topmost one that is not all zero survives as front colour if and only if it is translucent and above height zero; at height zero it is taken for the opaque layer and dropped |
| PixelScan.LayerInFigures | src/image/worker.cc:40-75 | Which blocks are layers, from the blocks alone: readable, none of the three kinds of air, in the nether with air above, in the palette, and not the same as the nearest block above that counts |
| PixelScan.LayersInFigures | src/image/worker.cc:40-90 | The layers of a column are exactly those blocks, topmost first, each with its height, the colour of its name, the biome at its height and its tint |
| PixelScan.NetherLimit | src/image/worker.cc:24-29 | In the nether the scan starts at height 127 |
| PixelScan.PileShows | src/image/worker.cc:77-112 | For every list of layers, of those that are not all zero: the first is the front colour and decides height and biome, the second is the middle colour, the background is the first opaque one of these or the blend of the rest down to the one that makes it opaque, whose height the background takes; without any the lowest layer decides height and biome; and the flags |
| PixelScan.BareLayers | src/image/worker.cc:66-75 | A column scanned with a palette that lacks the all-zero entries has exactly the layers that are not all zero |
| PixelScan.HiddenBlocksDoNotMatter | src/image/worker.cc:40-116 | Nothing below the block that closed a pixel can change it |
| Render.Tile.HandleBiomes | src/image/worker.cc:134-175 | Every cell is tinted as specified, heights untouched |
| Render.Tile.SlopeAlong | src/image/worker.cc:181-201 | The first pass over one row, each cell toned once by the slope as scanned |
| Render.Tile.SlopeAcross | src/image/worker.cc:203-224 | The second pass over one row |
| Render.Tile.HandleInclination | src/image/worker.cc:177-225 | The two in-place passes amount to one toning per direction taken from the scanned heights, whatever order the cells go in |
| Render.Tile.ScanChunk | src/image/worker.cc:33-131 | Every cell of the tile is its scanned column |
| Render.Tile.HandleBlockLight | src/image/worker.cc:227-237 | Every cell is brightened by five times its light level |
| Render.Tile.ProcessPipeline | src/image/worker.cc:239-245 | Tint, slopes and light together, in terms of the cells as scanned |
| Render.Tile.GenerateImage | src/image/worker.cc:247-273 | Draws the tile of the chunk and no other pixel |
| Render.ShownOpaque | src/image/worker.cc:257-269 | A pixel with an opaque background is drawn opaque |
| Render.SolidHidesClear | src/image/worker.cc:134-273 | Of a list with a solid layer nothing is drawn but the solid ones, after tint, every slope and every light; all that all-zero layers can do is to have the topmost solid one tinted |
| Render.NoSolidShown | src/image/worker.cc:134-273 | A list without a solid layer is drawn black as tint, slopes and light leave it, darkened by the height of its lowest layer |
| Render.ClearLayersShowIff | src/image/worker.cc:134-273 | When all-zero layers that bring in no tint of their own do not show after all passes, for every slope and light: if and only if there is a solid layer, or none at all, or the lowest is at height zero, or slopes and light have left the background black |
| Render.ClearLayersHiddenIff | src/image/worker.cc:134-273 | So at every slope and level of light if and only if there is a solid layer, or none at all, or the lowest is at height zero |
| Render.ClearEntriesDrawnIff | src/image/worker.cc:275-282 | The same for each drawn pixel of a chunk, drawn with all entries of the palette and without its all-zero ones |
| Render.UntintedSameTint | src/image/worker.cc:87-90 | All-zero layers bring in no tint where no all-zero entry is among the tinted names |
| Render.BarrierShows | block/minecraft/block_colors_b.tsv:22 | A witness that an all-zero block shows: at the foot of a slope and without light a barrier at height one is drawn (27, 27, 27), air there (30, 30, 30) |
| Render.OpaqueTopShowsItself | src/image/worker.cc:134-273 | A column topped by an opaque layer, all-zero ones aside, is drawn in that layer's colour after tint, slopes and light, with no darkening by height |
| Render.OpaqueTopDrawn | src/image/worker.cc:275-282 | The same for a drawn pixel of a chunk, with the slopes of its neighbours |
| Render.TranslucentTop | src/image/worker.cc:134-273 | What is drawn of every list whose topmost solid layer is translucent and above height zero: that layer, tinted, over the second if that is translucent, over the background of those below, each darkened by three for a block of depth |
| Render.TranslucentBottom | src/image/worker.cc:121-127 | The same at height zero, where that layer is taken for the background |
| Render.TranslucentOverOpaque | src/image/worker.cc:255-269 | Water over sand in figures: each drawn channel is the mean of the tinted front colour and the lit, darkened colour under it, weighed by the front's alpha in 255 parts |
| Render.LitInFigures | src/image/worker.cc:177-237 | The tones in figures: 30 along x, 10 along z, 5 for a level of light, kept between 0 and 255 at each step |
| Render.SlopesInFigures | src/image/worker.cc:181-224 | The slopes in figures: one for a rise of the background towards larger coordinates, minus one for a fall, from the cell before, at the edge from the cell after |
| Render.TintInFigures | src/image/worker.cc:142-167 | The tinting biomes and their colours |
| Render.TileInFigures | src/image/worker.cc:251-270 | A chunk's tile is the sixteen by sixteen pixels at its place |
| Render.Drawn | src/image/worker.cc:134-273 | After tint, slopes and light every pixel of every tile has alpha 255 |
| Render.GenerateChunk | src/image/worker.cc:275-282 | Scan, passes and drawing together: the tile and nothing else is drawn, all of it opaque |
| ColourTable.RequiredPadding | tools/block_data_generator.cc:84-90 | The padding makes length byte, id, padding count and padding a multiple of four |
| ColourTable.WriteContent | tools/block_data_generator.cc:259-294 | The writing loops produce the specified bytes of all entries |
| ColourTable.EntryInFigures | tools/block_data_generator.cc:259-289 | An entry byte by byte: length, id, number of padding bytes, zeros, and the colour from alpha to red |
| ColourTable.ColorsAligned | tools/block_data_generator.cc:84-94 | Every colour word starts at a multiple of four and holds its entry's colour |
| ColourTable.InitBlockList | src/image/blocks.cc:19-40 | The decoding loop computes the table the bytes stand for, whenever it stays inside them |
| ColourTable.RoundTripIff | src/image/blocks.cc:19-40 | For every set of entries with distinct ids the decoder rebuilds exactly the map that was written if and only if no id is empty; an empty id ends the table early |
| ColourTable.WordInjective | src/image/blocks.cc:34-36 | Equal colour words hold equal colours |

## Left out

- File mapping, zlib and gzip, libpng, sockets, signals, logging, directory walking and the option menus: I/O and foreign calls. A mapped file is a sequence, a connection is an object that hands over pieces of any positive size.
- A connection that fails in mid-stream: the model's connection ends only when its bytes do; an error return and an end of stream have the same outcome.
- NBT path compiling and querying (src/nbt/tag.cc:17-165, src/nbt/nbt-path.cc): the query of lists of compounds discards its recursive result, and compiling alone is simple.
- The older chunk loader and `init_fields` (src/nbt/chunk.cc:217-440): field plumbing over the readers modelled here; `GetBlock` takes palettes, words and data version directly.
- `get_biome`, `get_max_height`: a column comes with its biome numbers and at most 256 blocks.
- `is_biome_overridden` (src/image/blocks.cc:44-72): substring tests; the palette says which names are tinted.
- How the scan picks the light level of a pixel (src/image/worker.cc:114-117): the pass that uses it is proved for any levels.
- `png::fit`, `png::load` and `png::save`; the image is an array of colours, and a colour is its four channels rather than one packed word, so packing and unpacking are not repeated at every step.
- The flat array of pixel states is a two-dimensional one, so its index arithmetic is not modelled.
- Opening the output image, and the statistics: `RegionScan` logs which tiles are drawn, `Render` says what a tile is.
- The parse failures that `get_chunk_if_dirty` catches are one case, `Unreadable`.
- `resolve_block` and the rest of the server: plain division and dispatch.
- The `total_bytes` statistic of the generator, the text around the table and the quoting of its characters: the table is its bytes.
- `set_css_color` and the tab-separated input of the generator.
- `longindex`, the option's `flag` store and the error messages of the option parser: the index is in the returned value.
- The C locale is assumed by `Request.ParseSig`: letters are the ASCII letters.
- Ownership of the string of a String event and all deletes.
- `start` catching a failed thread, and the pool's destructor: a run may start any number of workers before `finish`.
- JobPool.FinishedMeansHandled: does not say that `finish` returns, because it need not; `FinishHangsIff` says when it may hang and `MissedWakeup` shows a run.
- PullInvariant.RunBound: is about calls that succeed; `EndsInTime` and `EndsIff` cover the others.
- PullSound.RunSound: leaves out runs whose last tags are closed by the end of the buffer; `PullRecovery.SoundlyReadIff` covers them.
- PullExact.TagExact: asks for a byte after a tag that is not a compound, because at the end of the buffer only names and types are popped, so that an array or a list leaves its counters behind; `PullTheorems.TailRun` says what is reported there.
- ColourTable.InitBlockList: requires that the decoder stays inside its data, which the source does not test; `RoundTripIff` shows it does on everything the generator writes.
