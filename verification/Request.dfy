/** The line reader and parser of the tile server's requests. */
module Request {
  import opened Bytes
  import opened Wrappers

  const CR: byte := 13
  const LF: byte := 10
  const IO_BUF_SIZE: nat := 2048

  // ----- what a line is

  /** First position of a CR or LF, or |s|. */
  function LineEnd(s: seq<byte>): (i: nat)
    ensures i <= |s| && (i < |s| ==> s[i] == CR || s[i] == LF)
    ensures forall k | 0 <= k < i :: s[k] != CR && s[k] != LF
  {
    if s == [] || s[0] == CR || s[0] == LF then 0 else 1 + LineEnd(s[1..])
  }

  /** The line a stream starts with, if the reader can read it. */
  function NextLine(s: seq<byte>): Option<seq<byte>> {
    var i := LineEnd(s);
    if i + 1 < |s| && i + 2 <= IO_BUF_SIZE && s[i] == CR && s[i + 1] == LF then Some(s[..i]) else None
  }

  ghost predicate StartsWithLine(s: seq<byte>, line: seq<byte>) {
    && line + [13, 10] <= s
    && 13 !in line && 10 !in line
    && |line| + 2 <= 2048
  }

  /** A line is read exactly when the stream starts with it, terminated by CR LF,
      free of either, and short enough for the buffer. */
  lemma NextLineIff(s: seq<byte>, line: seq<byte>)
    ensures NextLine(s) == Some(line) <==> StartsWithLine(s, line)
  {
    var i := LineEnd(s);
    if StartsWithLine(s, line) {
      var n := |line|;
      assert s[n] == (line + [CR, LF])[n] == CR && s[n + 1] == (line + [CR, LF])[n + 1] == LF;
      assert forall k | 0 <= k < n :: s[k] == (line + [CR, LF])[k] == line[k];
      assert i == n;
      assert s[..n] == line;
    }
    if NextLine(s) == Some(line) {
      assert s[..i + 2] == line + [CR, LF];
    }
  }

  // ----- the source of bytes

  /** A connection: each call hands over some of the bytes still to come, as
      many as it likes but at least one, and nothing once there are none. */
  class Reader {
    var stream: seq<byte>

    constructor (stream: seq<byte>)
      ensures this.stream == stream
    {
      this.stream := stream;
    }

    method FillBuffer(buf: array<byte>, off: nat) returns (n: int)
      requires off < buf.Length
      modifies this, buf
      ensures n <= 0 <==> old(stream) == []
      ensures n <= 0 ==> stream == [] && buf[..] == old(buf[..])
      ensures n > 0 ==> n <= |old(stream)| && off + n <= buf.Length
      ensures n > 0 ==> stream == old(stream)[n..] && buf[..off] == old(buf[..off])
      ensures n > 0 ==> buf[off..off + n] == old(stream)[..n]
    {
      if stream == [] {
        return 0;
      }
      var most := if |stream| < buf.Length - off then |stream| else buf.Length - off;
      n :| 1 <= n <= most;
      for i := 0 to n
        invariant buf[..off] == old(buf[..off]) && stream == old(stream)
        invariant buf[off..off + i] == stream[..i]
      {
        buf[off + i] := stream[i];
      }
      stream := stream[n..];
    }
  }

  // ----- the request line

  predicate Alpha(c: byte) {
    65 <= c <= 90 || 97 <= c <= 122
  }

  predicate NotSlash(c: byte) {
    c != 47
  }

  predicate VersionChar(c: byte) {
    48 <= c <= 57 || c == 46
  }

  /** First position from `i` on whose byte fails `p`, or |s|. */
  function Span(s: seq<byte>, p: byte -> bool, i: nat): (r: nat)
    requires i <= |s|
    ensures i <= r <= |s|
    ensures forall k | i <= k < r :: p(s[k])
    ensures r < |s| ==> !p(s[r])
    decreases |s| - i
  {
    if i < |s| && p(s[i]) then Span(s, p, i + 1) else i
  }

  datatype Signature = Signature(verb: seq<byte>, protocol: seq<byte>, version: seq<byte>)

  /** What the request line leaves in the three fields, and whether it is
      accepted; the parts before the failing one are kept. */
  function ParseSigOf(line: seq<byte>, was: Signature): (bool, Signature) {
    var a := Span(line, Alpha, 0);
    if a == |line| || line[a] != 32 then (false, was) else
    var sig := was.(verb := line[..a]);
    var b := Span(line, NotSlash, a + 1);
    if b == |line| then (false, sig) else
    var sig' := sig.(protocol := line[a + 1..b]);
    if Span(line, VersionChar, b + 1) != |line| then (false, sig') else
    (true, sig'.(version := line[b + 1..]))
  }

  ghost predicate All(s: seq<byte>, p: byte -> bool) {
    forall k | 0 <= k < |s| :: p(s[k])
  }

  function SigLine(sig: Signature): seq<byte> {
    sig.verb + [32] + sig.protocol + [47] + sig.version
  }

  ghost predicate WellFormedSig(sig: Signature) {
    && (forall c | c in sig.verb :: 65 <= c <= 90 || 97 <= c <= 122)
    && (forall c | c in sig.protocol :: c != 47)
    && (forall c | c in sig.version :: 48 <= c <= 57 || c == 46)
  }

  lemma {:induction false} SigParts(sig: Signature)
    ensures WellFormedSig(sig) <==> All(sig.verb, Alpha) && All(sig.protocol, NotSlash) && All(sig.version, VersionChar)
  {
    if WellFormedSig(sig) {
      assert forall k | 0 <= k < |sig.verb| :: sig.verb[k] in sig.verb;
      assert forall k | 0 <= k < |sig.protocol| :: sig.protocol[k] in sig.protocol;
      assert forall k | 0 <= k < |sig.version| :: sig.version[k] in sig.version;
    }
  }

  lemma {:induction false} SpanIs(s: seq<byte>, p: byte -> bool, i: nat, r: nat)
    requires i <= r <= |s| && (r < |s| ==> !p(s[r]))
    requires forall k | i <= k < r :: p(s[k])
    ensures Span(s, p, i) == r
    decreases r - i
  {
    if i < r {
      SpanIs(s, p, i + 1, r);
    }
  }

  lemma SpanOfPart(s: seq<byte>, p: byte -> bool, before: seq<byte>, part: seq<byte>, after: seq<byte>)
    requires s == before + part + after && All(part, p) && (after != [] ==> !p(after[0]))
    ensures Span(s, p, |before|) == |before| + |part|
    ensures s[|before|..|before| + |part|] == part && s[|before| + |part|..] == after
  {
    var r := |before| + |part|;
    forall k | |before| <= k < r
      ensures p(s[k])
    {
      assert s[k] == part[k - |before|];
    }
    SpanIs(s, p, |before|, r);
  }

  lemma CutTwice(line: seq<byte>, a: nat, b: nat)
    requires a < b < |line|
    ensures line == line[..a] + [line[a]] + line[a + 1..b] + [line[b]] + line[b + 1..]
  {
  }

  /** The accepted request lines are exactly the written-out signatures, and
      the three fields are then the three parts. */
  lemma ParseSigIff(line: seq<byte>, was: Signature, sig: Signature)
    ensures ParseSigOf(line, was) == (true, sig) <==> line == SigLine(sig) && WellFormedSig(sig)
  {
    if line == SigLine(sig) && WellFormedSig(sig) {
      SigLineParses(sig, was);
    }
    if ParseSigOf(line, was) == (true, sig) {
      ParsedIsSigLine(line, was, sig);
    }
  }

  lemma {:induction false} ParsedIsSigLine(line: seq<byte>, was: Signature, sig: Signature)
    requires ParseSigOf(line, was) == (true, sig)
    ensures line == SigLine(sig) && WellFormedSig(sig)
  {
    SigParts(sig);
    var a := Span(line, Alpha, 0);
    CutTwice(line, a, Span(line, NotSlash, a + 1));
  }

  lemma {:induction false} SigLineParses(sig: Signature, was: Signature)
    requires WellFormedSig(sig)
    ensures ParseSigOf(SigLine(sig), was) == (true, sig)
  {
    VerbSpan(sig);
    ProtocolSpan(sig);
    VersionSpan(sig);
  }

  lemma {:induction false} VerbSpan(sig: Signature)
    requires WellFormedSig(sig)
    ensures var line, a := SigLine(sig), |sig.verb|;
            Span(line, Alpha, 0) == a < |line| && line[..a] == sig.verb && line[a] == 32
  {
    var line, tail := SigLine(sig), [32] + (sig.protocol + [47] + sig.version);
    assert line == [] + sig.verb + tail;
    SigParts(sig);
    SpanOfPart(line, Alpha, [], sig.verb, tail);
  }

  lemma {:induction false} ProtocolSpan(sig: Signature)
    requires WellFormedSig(sig)
    ensures var line, a := SigLine(sig), |sig.verb| + 1;
            var b := a + |sig.protocol|;
            a <= |line| && Span(line, NotSlash, a) == b < |line| && line[a..b] == sig.protocol
  {
    var line, before, tail := SigLine(sig), sig.verb + [32], [47] + sig.version;
    assert line == before + sig.protocol + tail;
    SigParts(sig);
    SpanOfPart(line, NotSlash, before, sig.protocol, tail);
  }

  lemma {:induction false} VersionSpan(sig: Signature)
    requires WellFormedSig(sig)
    ensures var line, b := SigLine(sig), |sig.verb| + 2 + |sig.protocol|;
            b <= |line| && Span(line, VersionChar, b) == |line| && line[b..] == sig.version
  {
    var line, before := SigLine(sig), sig.verb + [32] + sig.protocol + [47];
    assert line == before + sig.version + [];
    SigParts(sig);
    SpanOfPart(line, VersionChar, before, sig.version, []);
    assert line[|before|..] == line[|before|..|line|];
  }

  /** A to Z and a to z. */
  predicate Letter(c: byte) {
    65 <= c <= 90 || 97 <= c <= 122
  }

  /** `n` is how many letters the line starts with. */
  ghost predicate Letters(line: seq<byte>, n: nat) {
    n <= |line| && (forall k | 0 <= k < n :: Letter(line[k])) && (n < |line| ==> !Letter(line[n]))
  }

  /** What a refused request line leaves in the three fields: nothing without a space
      behind its letters; the letters without a slash later; else the letters and what
      stands between the space and the first slash. */
  lemma {:induction false} RefusedSig(line: seq<byte>, was: Signature, n: nat)
    requires Letters(line, n) && !ParseSigOf(line, was).0
    ensures var sig := ParseSigOf(line, was).1;
            && (n == |line| || line[n] != 32 ==> sig == was)
            && (n < |line| && line[n] == 32 && 47 !in line[n + 1..] ==> sig == was.(verb := line[..n]))
            && (forall b | n < b < |line| && line[n] == 32 && line[b] == 47 && 47 !in line[n + 1..b] ::
                  sig == was.(verb := line[..n], protocol := line[n + 1..b]))
  {
    SpanIs(line, Alpha, 0, n);
    if n < |line| && line[n] == 32 {
      var b := Span(line, NotSlash, n + 1);
      assert forall k | n + 1 <= k < b :: line[k] != 47;
      if b < |line| { assert line[n + 1..][b - n - 1] == 47; }
      forall c | n < c < |line| && line[c] == 47 && 47 !in line[n + 1..c] ensures c == b {
        forall k | n + 1 <= k < c ensures NotSlash(line[k]) {
          assert line[k] in line[n + 1..c] by { assert line[n + 1..c][k - n - 1] == line[k]; }
        }
        SpanIs(line, NotSlash, n + 1, c);
      }
    }
  }

  // ----- the header lines

  const COLON: byte := 58
  const SPACE: byte := 32
  const MAX_FIELDS := 5

  type Fields = map<seq<byte>, seq<byte>>

  predicate NotColon(c: byte) {
    c != COLON
  }

  /** The key is what precedes the colon; with no colon it is the whole line. */
  function KeyOf(line: seq<byte>): seq<byte> {
    line[..Span(line, NotColon, 0)]
  }

  /** The value follows the colon and at most one space; with no colon the
      position wraps round and the value starts at the front of the line. */
  function ValueOf(line: seq<byte>): seq<byte> {
    var colon := Span(line, NotColon, 0);
    var start := if colon == |line| then 0 else colon + 1;
    if start < |line| && line[start] == SPACE then line[start + 1..] else line[start..]
  }

  ghost predicate NoLeadingSpace(s: seq<byte>) {
    s == [] || s[0] != 32
  }

  /** Key and value of every line, from the line alone: the first colon and one
      space after it separate them, and without a colon the whole line is the key
      and, but for one leading space, the value too. */
  lemma LineSplits(line: seq<byte>)
    ensures 58 !in KeyOf(line)
    ensures 58 in line ==>
              (line == KeyOf(line) + [58, 32] + ValueOf(line)
               || (line == KeyOf(line) + [58] + ValueOf(line) && NoLeadingSpace(ValueOf(line))))
    ensures 58 !in line ==>
              KeyOf(line) == line
              && (line == [32] + ValueOf(line) || (line == ValueOf(line) && NoLeadingSpace(line)))
  {
    var colon := Span(line, NotColon, 0);
    if colon == |line| {
      assert forall k | 0 <= k < |line| :: line[k] != COLON;
    } else {
      assert line[colon] == COLON;
      assert line == line[..colon] + [COLON] + line[colon + 1..];
    }
  }

  /** What the header loop makes of a stream: the verdict, the fields and what
      is left unread.  A line that cannot be read ends the loop with success. */
  function Headers(s: seq<byte>, fields: Fields): (bool, Fields, seq<byte>)
    decreases |s|
  {
    match NextLine(s)
    case None => (true, fields, s)
    case Some(line) =>
      var rest := s[|line| + 2..];
      if line == [] then (true, fields, rest)
      else if KeyOf(line) == [] then (false, fields, rest)
      else
        var fields' := fields[KeyOf(line) := ValueOf(line)];
        if |fields'| > MAX_FIELDS then (false, fields', rest) else Headers(rest, fields')
  }

  lemma HeadersStep(s: seq<byte>, fields: Fields)
    requires NextLine(s).Some? && NextLine(s).value != []
    ensures var line := NextLine(s).value;
            var rest := s[|line| + 2..];
            var fields' := fields[KeyOf(line) := ValueOf(line)];
            Headers(s, fields) == if KeyOf(line) == [] then (false, fields, rest)
                                  else if |fields'| > MAX_FIELDS then (false, fields', rest)
                                  else Headers(rest, fields')
  {
  }

  lemma {:induction false} HeadersRefused(s: seq<byte>, fields: Fields)
    requires NextLine(s).Some? && NextLine(s).value != [] && KeyOf(NextLine(s).value) == []
    ensures Headers(s, fields) == (false, fields, s[|NextLine(s).value| + 2..])
  {
    HeadersStep(s, fields);
  }

  lemma {:induction false} HeadersStored(s: seq<byte>, fields: Fields, stored: Fields)
    requires NextLine(s).Some? && NextLine(s).value != [] && KeyOf(NextLine(s).value) != []
    requires var line := NextLine(s).value; stored == fields[KeyOf(line) := ValueOf(line)]
    ensures var rest := s[|NextLine(s).value| + 2..];
            Headers(s, fields) == if |stored| <= MAX_FIELDS then Headers(rest, stored) else (false, stored, rest)
  {
    HeadersStep(s, fields);
  }

  lemma HeadersEnd(s: seq<byte>, fields: Fields)
    requires NextLine(s).None? || NextLine(s).value == []
    ensures Headers(s, fields) == (true, fields, if NextLine(s).None? then s else s[2..])
  {
  }

  /** The header loop in figures, one line at a time: it ends well where no line can be
      read or at an empty one, refuses a line that starts with a colon, and refuses the
      sixth field, which it has stored by then. */
  lemma {:induction false} HeadersInFigures(s: seq<byte>, fields: Fields, line: seq<byte>)
    ensures (forall l: seq<byte> :: !StartsWithLine(s, l)) ==> Headers(s, fields) == (true, fields, s)
    ensures StartsWithLine(s, line) ==>
              var rest := s[|line| + 2..];
              var stored := fields[KeyOf(line) := ValueOf(line)];
              Headers(s, fields)
              == if line == [] then (true, fields, rest)
                 else if line[0] == 58 then (false, fields, rest)
                 else if |stored| > 5 then (false, stored, rest)
                 else Headers(rest, stored)
  {
    NextLineIff(s, line);
    if NextLine(s).Some? { NextLineIff(s, NextLine(s).value); }
  }

  datatype Parsed = Parsed(ok: bool, sig: Signature, fields: Fields, rest: seq<byte>)

  function ParseAllOf(s: seq<byte>, sig: Signature, fields: Fields): Parsed {
    match NextLine(s)
    case None => Parsed(false, sig, fields, s)
    case Some(line) =>
      var rest := s[|line| + 2..];
      var (good, sig') := ParseSigOf(line, sig);
      if !good then Parsed(false, sig', fields, rest) else
      var (ok, fields', rest') := Headers(rest, fields);
      Parsed(ok, sig', fields', rest')
  }

  /** A request whose first line cannot be read is refused and nothing changes; one whose
      first line is refused keeps what that line left. */
  lemma {:induction false} RequestRefused(s: seq<byte>, sig: Signature, fields: Fields, line: seq<byte>)
    ensures (forall l: seq<byte> :: !StartsWithLine(s, l)) ==>
              ParseAllOf(s, sig, fields) == Parsed(false, sig, fields, s)
    ensures StartsWithLine(s, line) && !ParseSigOf(line, sig).0 ==>
              ParseAllOf(s, sig, fields) == Parsed(false, ParseSigOf(line, sig).1, fields, s[|line| + 2..])
  {
    NextLineIff(s, line);
    if NextLine(s).Some? { NextLineIff(s, NextLine(s).value); }
  }

  // ----- writing a request and reading it back

  datatype Header = Header(key: seq<byte>, value: seq<byte>)

  function HeaderLine(h: Header): seq<byte> {
    h.key + [58, 32] + h.value
  }

  ghost predicate Readable(line: seq<byte>) {
    13 !in line && 10 !in line && |line| + 2 <= 2048
  }

  ghost predicate WellFormedHeaders(hs: seq<Header>) {
    hs == [] || (hs[0].key != [] && 58 !in hs[0].key && Readable(HeaderLine(hs[0])) && WellFormedHeaders(hs[1..]))
  }

  function HeaderBytes(hs: seq<Header>): seq<byte> {
    if hs == [] then [13, 10] else HeaderLine(hs[0]) + [13, 10] + HeaderBytes(hs[1..])
  }

  /** Later headers replace earlier ones of the same key. */
  function Collect(fields: Fields, hs: seq<Header>): Fields
    decreases |hs|
  {
    if hs == [] then fields else Collect(fields[hs[0].key := hs[0].value], hs[1..])
  }

  lemma LineThen(line: seq<byte>, more: seq<byte>)
    requires Readable(line)
    ensures NextLine(line + [CR, LF] + more) == Some(line)
    ensures (line + [CR, LF] + more)[|line| + 2..] == more
  {
    var s := line + [CR, LF] + more;
    assert line + [CR, LF] <= s;
    NextLineIff(s, line);
  }

  lemma HeaderLineSplits(h: Header)
    requires COLON !in h.key
    ensures KeyOf(HeaderLine(h)) == h.key && ValueOf(HeaderLine(h)) == h.value
  {
    var line := HeaderLine(h);
    var n := |h.key|;
    assert forall k | 0 <= k < n :: line[k] == h.key[k];
    assert line[n] == COLON && line[n + 1] == SPACE;
    SpanIs(line, NotColon, 0, n);
    assert line[..n] == h.key && line[n + 2..] == h.value;
  }

  lemma CollectGrows(fields: Fields, hs: seq<Header>)
    ensures |fields| <= |Collect(fields, hs)|
    decreases |hs|
  {
    if hs != [] {
      var fields' := fields[hs[0].key := hs[0].value];
      assert fields'.Keys == fields.Keys + {hs[0].key};
      if hs[0].key in fields {
        assert fields'.Keys == fields.Keys;
      }
      CollectGrows(fields', hs[1..]);
    }
  }

  /** Written headers, an empty line and any further bytes are accepted exactly
      when at most five distinct keys result; the map is then the one written
      and the further bytes stay unread. */
  lemma {:induction false} HeadersRoundTrip(hs: seq<Header>, fields: Fields, more: seq<byte>)
    requires WellFormedHeaders(hs) && |fields| <= 5
    ensures Headers(HeaderBytes(hs) + more, fields).0 <==> |Collect(fields, hs)| <= 5
    ensures |Collect(fields, hs)| <= 5
            ==> Headers(HeaderBytes(hs) + more, fields) == (true, Collect(fields, hs), more)
    decreases |hs|
  {
    if hs == [] {
      LineThen([], more);
      assert [] + [CR, LF] + more == HeaderBytes(hs) + more;
    } else {
      var line := HeaderLine(hs[0]);
      var tail := HeaderBytes(hs[1..]) + more;
      LineThen(line, tail);
      assert line + [CR, LF] + tail == HeaderBytes(hs) + more;
      HeaderLineSplits(hs[0]);
      var fields' := fields[hs[0].key := hs[0].value];
      CollectGrows(fields', hs[1..]);
      if |fields'| <= MAX_FIELDS {
        HeadersRoundTrip(hs[1..], fields', more);
      }
    }
  }

  /** A written request is read back whole. */
  lemma RequestRoundTrip(sig: Signature, hs: seq<Header>, more: seq<byte>, was: Signature)
    requires WellFormedSig(sig) && Readable(SigLine(sig)) && WellFormedHeaders(hs)
    ensures var p := ParseAllOf(SigLine(sig) + [13, 10] + (HeaderBytes(hs) + more), was, map[]);
            && (p.ok <==> |Collect(map[], hs)| <= 5)
            && (p.ok ==> p == Parsed(true, sig, Collect(map[], hs), more))
  {
    LineThen(SigLine(sig), HeaderBytes(hs) + more);
    ParseSigIff(SigLine(sig), was, sig);
    HeadersRoundTrip(hs, map[], more);
  }

  // ----- the request object

  lemma NoLineYet(s: seq<byte>, end: nat)
    requires end <= |s| && end + 1 >= |s|
    requires forall k | 0 <= k < end :: s[k] != CR && s[k] != LF
    ensures NextLine(s) == None
  {
  }

  class Request {
    const reader: Reader
    const intBuf: array<byte>
    var nInBuf: nat
    var sig: Signature
    var fields: Fields

    ghost predicate Valid()
      reads this
    {
      intBuf.Length == IO_BUF_SIZE && nInBuf <= IO_BUF_SIZE
    }

    /** The bytes not consumed yet, buffered or still to come. */
    ghost function Pending(): seq<byte>
      requires Valid()
      reads this, reader, intBuf
    {
      intBuf[..nInBuf] + reader.stream
    }

    constructor (reader: Reader)
      ensures Valid() && fresh(intBuf) && this.reader == reader
      ensures Pending() == reader.stream && fields == map[] && sig == Signature([], [], [])
    {
      this.reader := reader;
      intBuf := new byte[IO_BUF_SIZE];
      nInBuf := 0;
      sig := Signature([], [], []);
      fields := map[];
    }

    /** The position of the first CR or LF buffered at or after `from`. */
    method ScanLine(from: nat) returns (end: nat)
      requires Valid() && from <= nInBuf
      requires forall k | 0 <= k < from :: intBuf[k] != CR && intBuf[k] != LF
      ensures from <= end <= nInBuf
      ensures end < nInBuf ==> intBuf[end] == CR || intBuf[end] == LF
      ensures forall k | 0 <= k < end :: intBuf[k] != CR && intBuf[k] != LF
    {
      end := from;
      while end < nInBuf
        invariant from <= end <= nInBuf
        invariant forall k | 0 <= k < end :: intBuf[k] != CR && intBuf[k] != LF
      {
        if intBuf[end] == LF || intBuf[end] == CR {
          break;
        }
        end := end + 1;
      }
    }

    /** Adds what the connection hands over to the buffer. */
    method Fill() returns (ok: bool)
      requires Valid() && nInBuf < IO_BUF_SIZE
      modifies this`nInBuf, reader, intBuf
      ensures Valid() && Pending() == old(Pending())
      ensures ok <==> old(reader.stream) != []
      ensures ok ==> old(nInBuf) < nInBuf && |reader.stream| < |old(reader.stream)|
      ensures forall k | 0 <= k < old(nInBuf) :: intBuf[k] == old(intBuf[k])
    {
      ghost var was := intBuf[..nInBuf];
      var nRead := reader.FillBuffer(intBuf, nInBuf);
      ok := nRead > 0;
      assert intBuf[..nInBuf] == was;
      if ok {
        assert intBuf[..nInBuf + nRead] == was + old(reader.stream)[..nRead];
        nInBuf := nInBuf + nRead;
      }
    }

    /** Reads one line.  Whatever pieces the stream arrives in, the outcome is
        `NextLine` of the bytes not consumed before, and on success exactly the
        line and its terminator are consumed. */
    method ReadRequestLine() returns (line: Option<seq<byte>>)
      requires Valid()
      modifies this`nInBuf, reader, intBuf
      ensures Valid() && line == NextLine(old(Pending()))
      ensures line.Some? ==> Pending() == old(Pending())[|line.value| + 2..]
      ensures line.None? ==> Pending() == old(Pending())
    {
      ghost var all := Pending();
      var end := ScanLine(0);
      while end == nInBuf || (intBuf[end] == CR && end + 1 == nInBuf)
        invariant Valid() && Pending() == all && end <= nInBuf
        invariant end < nInBuf ==> intBuf[end] == CR || intBuf[end] == LF
        invariant forall k | 0 <= k < end :: intBuf[k] != CR && intBuf[k] != LF
        decreases |reader.stream|
      {
        assert forall k | 0 <= k < nInBuf :: all[k] == intBuf[k];
        if nInBuf == IO_BUF_SIZE {
          return None;
        }
        var ok := Fill();
        if !ok {
          NoLineYet(all, end);
          return None;
        }
        end := ScanLine(end);
      }
      assert forall k | 0 <= k < nInBuf :: all[k] == intBuf[k];
      if intBuf[end] == LF || intBuf[end + 1] != LF {
        return None;
      }
      line := Some(intBuf[..end]);
      assert intBuf[..end] == all[..end];
      Consume(end + 2);
    }

    /** Shifts the buffer left by `n` bytes. */
    method Consume(n: nat)
      requires Valid() && n <= nInBuf
      modifies this`nInBuf, intBuf
      ensures Valid() && nInBuf == old(nInBuf) - n
      ensures Pending() == old(Pending())[n..]
    {
      var i := 0;
      while i < IO_BUF_SIZE - n
        invariant nInBuf == old(nInBuf) && reader.stream == old(reader.stream)
        invariant 0 <= i <= IO_BUF_SIZE - n
        invariant forall k | 0 <= k < i :: intBuf[k] == old(intBuf[k + n])
        invariant forall k | i <= k < IO_BUF_SIZE :: intBuf[k] == old(intBuf[k])
      {
        intBuf[i] := intBuf[i + n];
        i := i + 1;
      }
      nInBuf := nInBuf - n;
      assert intBuf[..nInBuf] == old(intBuf[..nInBuf])[n..];
    }

    /** Splits the request line into the three signature fields. */
    method ParseSig(line: seq<byte>) returns (ok: bool)
      modifies this`sig
      ensures (ok, sig) == ParseSigOf(line, old(sig))
    {
      var end := Scan(line, Alpha, 0);
      if end == |line| || line[end] != SPACE {
        return false;
      }
      sig := sig.(verb := line[..end]);

      var start := end + 1;
      end := Scan(line, NotSlash, start);
      if end == |line| {
        return false;
      }
      sig := sig.(protocol := line[start..end]);

      start := end + 1;
      end := Scan(line, VersionChar, start);
      if end != |line| {
        return false;
      }
      sig := sig.(version := line[start..end]);
      assert line[start..end] == line[start..];
      return true;
    }

    /** Reads a whole request.  Verdict, signature, fields and the bytes left
        are functions of the byte stream, not of how it is cut into pieces. */
    method ParseAll() returns (ok: bool)
      requires Valid()
      modifies this, reader, intBuf
      ensures Valid()
      ensures Parsed(ok, sig, fields, Pending()) == ParseAllOf(old(Pending()), old(sig), old(fields))
    {
      var line := ReadRequestLine();
      if line.None? {
        return false;
      }
      var good := ParseSig(line.value);
      if !good {
        return false;
      }
      ok := ParseHeaders();
    }

    /** The header loop. */
    method ParseHeaders() returns (ok: bool)
      requires Valid()
      modifies this`nInBuf, this`fields, reader, intBuf
      ensures Valid()
      ensures (ok, fields, Pending()) == Headers(old(Pending()), old(fields))
    {
      ghost var goal := Headers(Pending(), fields);
      ghost var s := Pending();
      var line := ReadRequestLine();
      while line.Some? && line.value != []
        invariant Valid() && line == NextLine(s) && Headers(s, fields) == goal
        invariant Pending() == if line.Some? then s[|line.value| + 2..] else s
        decreases |s|
      {
        var good := StoreLine(line.value, s);
        s := Pending();
        if !good {
          return false;
        }
        line := ReadRequestLine();
      }
      HeadersEnd(s, fields);
      return true;
    }

    /** One header line of the stream `s`. */
    method StoreLine(line: seq<byte>, ghost s: seq<byte>) returns (ok: bool)
      requires NextLine(s) == Some(line) && line != []
      modifies this`fields
      ensures var rest := s[|line| + 2..];
              Headers(s, old(fields)) == if ok then Headers(rest, fields) else (false, fields, rest)
    {
      ghost var was := fields;
      ok := StoreField(line);
      if KeyOf(line) == [] { HeadersRefused(s, was); } else { HeadersStored(s, was, fields); }
    }

    /** Splits one header line and stores its field. */
    method StoreField(line: seq<byte>) returns (ok: bool)
      requires line != []
      modifies this`fields
      ensures KeyOf(line) == [] ==> !ok && fields == old(fields)
      ensures KeyOf(line) != [] ==> fields == old(fields)[KeyOf(line) := ValueOf(line)]
      ensures KeyOf(line) != [] ==> (ok <==> |fields| <= MAX_FIELDS)
    {
      var colon := Scan(line, NotColon, 0);
      var key := line[..colon];
      if key == [] {
        return false;
      }
      var start := if colon == |line| then 0 else colon + 1;
      if start < |line| && line[start] == SPACE {
        start := start + 1;
      }
      fields := fields[key := line[start..]];
      return |fields| <= MAX_FIELDS;
    }
  }

  /** The scanning loop of the parser: the first position failing `p`. */
  method Scan(line: seq<byte>, p: byte -> bool, start: nat) returns (end: nat)
    requires start <= |line|
    ensures end == Span(line, p, start)
  {
    end := start;
    while end < |line| && p(line[end])
      invariant start <= end <= |line| && Span(line, p, start) == Span(line, p, end)
    {
      end := end + 1;
    }
  }
}
