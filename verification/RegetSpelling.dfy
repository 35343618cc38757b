/** What the option parser returns is what was written on the command line. */
module RegetSpelling {
  import opened RegetOpt
  import opened Wrappers

  // ----- one argument

  /** An option starts with '-' and has something after it, except for "--"; a long
      one starts with "--". */
  lemma {:induction false} OptionIff(x: string)
    ensures IsOption(x) <==> |x| >= 2 && x[0] == '-' && x != "--"
    ensures IsLong(x) <==> |x| > 2 && x[0] == '-' && x[1] == '-'
  {
  }

  /** The place of the first `c` in `s`. */
  ghost predicate FirstAt(s: string, c: char, i: nat) {
    i < |s| && s[i] == c && c !in s[..i]
  }

  lemma {:induction false} FirstIsFind(s: string, c: char)
    ensures c !in s <==> Find(s, c) == |s|
    ensures c in s ==> FirstAt(s, c, Find(s, c))
    ensures forall i: nat | FirstAt(s, c, i) :: i == Find(s, c)
  {
    var f := Find(s, c);
    if f < |s| { assert s[f] in s; }
    forall i: nat | f < i <= |s| ensures s[f] in s[..i] {
      assert s[..i][f] == s[f];
    }
  }

  /** One option character: unknown if the option string lacks it; alone if its first
      place there has no ':' behind it; else with the rest of the argument, or with the
      next argument if nothing is left of this one. */
  lemma {:induction false} ShortInFigures(cfg: Config, rest: seq<string>, at: nat)
    requires rest != [] && at < |rest[0]|
    ensures var x, c, s := rest[0], rest[0][at], cfg.optstring;
            var (ret, n) := ShortStep(cfg, rest, at);
            && (c !in s <==> ret == InvalidShort(c))
            && (forall i: nat | FirstAt(s, c, i) ::
                  if i + 1 == |s| || s[i + 1] != ':' then ret == Short(c, Kept) && n == 0
                  else if at + 1 < |x| then
                    ret.Short? && ret.arg.Given? && n == 1 && x == x[..at] + [ret.c] + ret.arg.s && ret.c == c
                  else if |rest| > 1 then ret == Short(c, Given(rest[1])) && n == 2
                  else ret == ShortNeedsArgument(c))
  {
    var x := rest[0];
    FirstIsFind(cfg.optstring, x[at]);
    assert x == x[..at] + [x[at]] + x[at + 1..];
  }

  /** A long option written with or without '=': its name is what stands before the
      first '=', its value what stands behind it. */
  function LongText(name: string, value: Option<string>): string {
    if value.Some? then "--" + name + "=" + value.value else "--" + name
  }

  lemma {:induction false} LongIsText(x: string) returns (name: string, value: Option<string>)
    requires IsLong(x)
    ensures '=' !in name && x == LongText(name, value)
  {
    FirstIsFind(x, '=');
    var eq := Find(x, '=');
    if eq < |x| {
      name, value := x[2..eq], Some(x[eq + 1..]);
      assert forall k | 0 <= k < |name| :: name[k] == x[k + 2];
      assert x == x[..2] + name + [x[eq]] + x[eq + 1..];
      assert x[..2] == "--";
    } else {
      name, value := x[2..], None;
      assert forall k | 0 <= k < |name| :: name[k] == x[k + 2];
      assert x == x[..2] + name && x[..2] == "--";
    }
  }

  lemma {:induction false} TextIsLong(name: string, value: Option<string>)
    requires '=' !in name && (name != "" || value.Some?)
    ensures var x := LongText(name, value);
            && IsLong(x) && LongName(x) == name
            && (value.None? ==> Find(x, '=') == |x|)
            && (value.Some? ==> Find(x, '=') < |x| && x[Find(x, '=') + 1..] == value.value)
  {
    var x := LongText(name, value);
    FirstIsFind(x, '=');
    assert forall k | 0 <= k < |name| :: x[k + 2] == name[k];
    if value.Some? {
      var i := 2 + |name|;
      assert x[i] == '=' && x[i + 1..] == value.value && x[2..i] == name;
      assert FirstAt(x, '=', i);
    } else {
      assert x[2..] == name;
    }
  }

  /** One long option: its name is looked up, and its value is what stands behind '='
      or, where one is required and there is no '=', the next argument. */
  lemma {:induction false} LongInFigures(cfg: Config, rest: seq<string>, name: string, value: Option<string>)
    requires rest != [] && rest[0] == LongText(name, value) && '=' !in name && (name != "" || value.Some?)
    ensures IsLong(rest[0])
    ensures var (ret, n) := LongStep(cfg, rest);
            match LongMatch(cfg.longopts, name, 0, NoMatch)
            case NoMatch => ret == UnknownLong
            case Ambiguous => ret == AmbiguousLong
            case Index(i) =>
              match cfg.longopts[i].hasArg
              case NoArgument => ret == Long(i, Kept) && n == 1
              case OptionalArgument => ret == Long(i, if value.Some? then Given(value.value) else Cleared) && n == 1
              case RequiredArgument =>
                if value.Some? then ret == Long(i, Given(value.value)) && n == 1
                else if |rest| > 1 then ret == Long(i, Given(rest[1])) && n == 2
                else ret == LongNeedsArgument(i)
  {
    TextIsLong(name, value);
  }

  /** `re_optarg` in figures: set to a value that is given, cleared for an optional one
      that is not, and left alone by everything else. */
  lemma {:induction false} ArgInFigures(was: Option<string>, ret: Ret, rets: seq<Ret>)
    ensures match ret
            case Short(_, Given(s)) => OptArg(was, ret) == Some(s)
            case Long(_, Given(s)) => OptArg(was, ret) == Some(s)
            case Short(_, Cleared) => OptArg(was, ret) == None
            case Long(_, Cleared) => OptArg(was, ret) == None
            case _ => OptArg(was, ret) == was
    ensures LastArg([]) == None && LastArg(rets + [ret]) == OptArg(LastArg(rets), ret)
  {
    assert (rets + [ret])[..|rets|] == rets;
  }

  // ----- writing returned values out again

  /** How a returned value was written: an option character in an argument of its own or
      behind the last one, its value attached or in the next argument; a long option by
      some name, with an '=' part or not. */
  datatype Spelling =
    | Letter(own: bool, attached: bool)
    | Word(name: string, equals: Option<string>)

  /** The command line so far, with one more returned value written behind it. */
  function Write(line: seq<string>, ret: Ret, sp: Spelling): seq<string> {
    if ret.Short? && sp.Letter? then
      var begun := if sp.own || line == [] then line + [['-', ret.c]] else Extend(line, [ret.c]);
      if !ret.arg.Given? then begun
      else if sp.attached then Extend(begun, ret.arg.s)
      else begun + [ret.arg.s]
    else if ret.Long? && sp.Word? then
      if ret.arg.Given? && sp.equals.None? then line + ["--" + sp.name, ret.arg.s]
      else line + [LongText(sp.name, sp.equals)]
    else line
  }

  /** More characters for the last argument. */
  function Extend(line: seq<string>, s: string): seq<string>
    requires line != []
  {
    line[..|line| - 1] + [line[|line| - 1] + s]
  }

  function WriteAll(line: seq<string>, rets: seq<Ret>, sps: seq<Spelling>): seq<string>
    decreases |rets|
  {
    if rets == [] || sps == [] then line else WriteAll(Write(line, rets[0], sps[0]), rets[1..], sps[1..])
  }

  /** The value is one that the options of `cfg` have, and it was written so that it says
      the same: an attached value is not empty, and the part behind '=' is the value,
      unless the option takes none. */
  ghost predicate Fits(cfg: Config, ret: Ret, sp: Spelling) {
    match ret
    case Short(c, arg) =>
      && sp.Letter? && c in cfg.optstring && !arg.Cleared?
      && (forall i: nat | FirstAt(cfg.optstring, c, i) ::
            arg.Given? <==> i + 1 < |cfg.optstring| && cfg.optstring[i + 1] == ':')
      && (arg.Given? && sp.attached ==> arg.s != "")
    case Long(i, arg) =>
      && sp.Word? && i < |cfg.longopts| && '=' !in sp.name
      && LongMatch(cfg.longopts, sp.name, 0, NoMatch) == Index(i)
      && (match cfg.longopts[i].hasArg
          case NoArgument => arg == Kept
          case OptionalArgument => arg == if sp.equals.Some? then Given(sp.equals.value) else Cleared
          case RequiredArgument => arg.Given? && (sp.equals.Some? ==> arg.s == sp.equals.value))
    case _ => false
  }

  ghost predicate AllFit(cfg: Config, rets: seq<Ret>, sps: seq<Spelling>) {
    |rets| == |sps| && forall k | 0 <= k < |rets| :: Fits(cfg, rets[k], sps[k])
  }

  /** The next value begins an argument. */
  predicate Fresh(sps: seq<Spelling>) {
    sps == [] || sps[0].Word? || sps[0].own
  }

  lemma {:induction false} WriteFramed(a: seq<string>, b: seq<string>, ret: Ret, sp: Spelling)
    requires b != [] || Fresh([sp])
    ensures Write(a + b, ret, sp) == a + Write(b, ret, sp)
  {
    if ret.Short? && sp.Letter? {
      var begun := if sp.own || b == [] then b + [['-', ret.c]] else Extend(b, [ret.c]);
      if !(sp.own || b == []) { ExtendFramed(a, b, [ret.c]); }
      assert begun != [];
      if ret.arg.Given? && sp.attached { ExtendFramed(a, begun, ret.arg.s); }
      assert (a + b) + [['-', ret.c]] == a + (b + [['-', ret.c]]);
    }
  }

  lemma {:induction false} ExtendFramed(a: seq<string>, b: seq<string>, s: string)
    requires b != []
    ensures Extend(a + b, s) == a + Extend(b, s)
  {
    assert (a + b)[..|a + b| - 1] == a + b[..|b| - 1];
  }

  lemma {:induction false} WriteAllFramed(a: seq<string>, b: seq<string>, rets: seq<Ret>, sps: seq<Spelling>)
    requires b != [] || Fresh(sps)
    requires |rets| == |sps| && forall k | 0 <= k < |rets| :: Wrote(rets[k], sps[k])
    ensures WriteAll(a + b, rets, sps) == a + WriteAll(b, rets, sps)
    decreases |rets|
  {
    if rets != [] {
      WriteFramed(a, b, rets[0], sps[0]);
      assert Wrote(rets[0], sps[0]);
      WriteAllFramed(a, Write(b, rets[0], sps[0]), rets[1..], sps[1..]);
    }
  }

  predicate Wrote(ret: Ret, sp: Spelling) {
    (ret.Short? && sp.Letter?) || (ret.Long? && sp.Word?)
  }

  // ----- a whole line

  /** The "--" that ends the options belongs to what was passed. */
  function Dashes(r: Reading): seq<string> {
    if r.stop.AtDashes? then ["--"] else []
  }

  /** A value is written behind what there is of its cluster, if anything. */
  function Begun(rest: seq<string>, at: nat): seq<string> {
    if at <= 1 || rest == [] || at > |rest[0]| then [] else [rest[0][..at]]
  }

  /** From a point between two characters of a line: `sps` is how the returned values
      were written. */
  ghost predicate SpelledFrom(cfg: Config, rest: seq<string>, at: nat, sps: seq<Spelling>)
    requires at >= 1
  {
    var r := Read(cfg, rest, at);
    && AllFit(cfg, r.rets, sps)
    && (at == 1 ==> Fresh(sps))
    && WriteAll(Begun(rest, at), r.rets, sps) + Dashes(r) == r.opts
  }

  lemma {:induction false} AllFitAreWritten(cfg: Config, rets: seq<Ret>, sps: seq<Spelling>)
    requires AllFit(cfg, rets, sps)
    ensures forall k | 0 <= k < |rets| :: Wrote(rets[k], sps[k])
  {
    forall k | 0 <= k < |rets| ensures Wrote(rets[k], sps[k]) {
      assert Fits(cfg, rets[k], sps[k]);
    }
  }

  lemma {:induction false} AllFitFirst(cfg: Config, ret: Ret, sp: Spelling, rets: seq<Ret>, sps: seq<Spelling>)
    requires Fits(cfg, ret, sp) && AllFit(cfg, rets, sps)
    ensures AllFit(cfg, [ret] + rets, [sp] + sps)
  {
    forall k | 0 <= k < 1 + |rets| ensures Fits(cfg, ([ret] + rets)[k], ([sp] + sps)[k]) {
      if k > 0 { assert Fits(cfg, rets[k - 1], sps[k - 1]); }
    }
  }

  /** A value that completes `done`, and what is written after it. */
  lemma {:induction false} SpelledNext(cfg: Config, line: seq<string>, ret: Ret, sp: Spelling, done: seq<string>,
                                       r: Reading, sps: seq<Spelling>)
    requires Fits(cfg, ret, sp) && AllFit(cfg, r.rets, sps) && Fresh(sps)
    requires Write(line, ret, sp) == done && WriteAll([], r.rets, sps) + Dashes(r) == r.opts
    ensures AllFit(cfg, [ret] + r.rets, [sp] + sps)
    ensures WriteAll(line, [ret] + r.rets, [sp] + sps) + Dashes(r) == done + r.opts
  {
    AllFitFirst(cfg, ret, sp, r.rets, sps);
    AllFitAreWritten(cfg, r.rets, sps);
    WriteAllFramed(done, [], r.rets, sps);
    assert done + [] == done;
    assert ([ret] + r.rets)[1..] == r.rets && ([sp] + sps)[1..] == sps;
    assert (done + WriteAll([], r.rets, sps)) + Dashes(r) == done + (WriteAll([], r.rets, sps) + Dashes(r));
  }

  /** How an option character was written. */
  lemma {:induction false} LetterSpelled(cfg: Config, rest: seq<string>, at: nat) returns (sp: Spelling)
    requires rest != [] && IsCluster(rest[0]) && 1 <= at < |rest[0]| && !IsError(ShortStep(cfg, rest, at).0)
    ensures var (ret, n) := ShortStep(cfg, rest, at);
            && Fits(cfg, ret, sp) && sp.Letter? && (at == 1 ==> sp.own)
            && Write(Begun(rest, at), ret, sp) == if n == 0 then [rest[0][..at + 1]] else rest[..n]
  {
    var x, c, s := rest[0], rest[0][at], cfg.optstring;
    var (ret, n) := ShortStep(cfg, rest, at);
    FirstIsFind(s, c);
    sp := Letter(at == 1, n == 1);
    assert x == x[..at] + [c] + x[at + 1..];
    assert at == 1 ==> ['-', c] == x[..2];
    assert x[..at] + [c] == x[..at + 1];
    if at > 1 { assert Extend([x[..at]], [c]) == [x[..at + 1]]; }
    if n == 1 { assert Extend([x[..at + 1]], ret.arg.s) == [x] == rest[..1]; }
    if n == 2 {
      assert x[..at + 1] == x;
      assert [x] + [rest[1]] == rest[..2];
    }
  }

  /** How a long option was written. */
  lemma {:induction false} WordSpelled(cfg: Config, rest: seq<string>) returns (sp: Spelling)
    requires rest != [] && IsLong(rest[0]) && !IsError(LongStep(cfg, rest).0)
    ensures var (ret, n) := LongStep(cfg, rest);
            Fits(cfg, ret, sp) && sp.Word? && Write([], ret, sp) == rest[..n]
  {
    var name, value := LongIsText(rest[0]);
    LongInFigures(cfg, rest, name, value);
    sp := Word(name, value);
    var (ret, n) := LongStep(cfg, rest);
    if n == 2 { assert rest[..2] == [rest[0], rest[1]]; } else { assert rest[..1] == [rest[0]]; }
  }

  /** What is returned is what was written: for every line that is read without an
      error there is a way in which the returned values, written one after the other,
      spell exactly the options and their arguments as they stand on the line. */
  lemma {:induction false} Spelled(cfg: Config, rest: seq<string>, at: nat) returns (sps: seq<Spelling>)
    requires at >= 1 && (at == 1 || (rest != [] && IsCluster(rest[0]) && at <= |rest[0]|))
    requires !Read(cfg, rest, at).stop.AtError?
    ensures SpelledFrom(cfg, rest, at, sps)
    decreases |rest|, if rest != [] && at < |rest[0]| then |rest[0]| - at else 0
  {
    if rest == [] || rest[0] == "--" {
      sps := [];
    } else if !IsOption(rest[0]) {
      sps := Spelled(cfg, rest[1..], 1);
    } else if IsLong(rest[0]) {
      var n := LongStep(cfg, rest).1;
      var sp := WordSpelled(cfg, rest);
      var more := Spelled(cfg, rest[n..], 1);
      sps := [sp] + more;
      SpelledNext(cfg, [], LongStep(cfg, rest).0, sp, rest[..n], Read(cfg, rest[n..], 1), more);
    } else if at >= |rest[0]| {
      sps := Spelled(cfg, rest[1..], 1);
      ClusterDone(cfg, rest, at, sps);
    } else {
      sps := SpelledLetter(cfg, rest, at);
    }
  }

  lemma {:induction false} SpelledLetter(cfg: Config, rest: seq<string>, at: nat) returns (sps: seq<Spelling>)
    requires rest != [] && IsCluster(rest[0]) && 1 <= at < |rest[0]| && !Read(cfg, rest, at).stop.AtError?
    ensures SpelledFrom(cfg, rest, at, sps)
    decreases |rest|, |rest[0]| - at, 0
  {
    var (ret, n) := ShortStep(cfg, rest, at);
    var sp := LetterSpelled(cfg, rest, at);
    if n == 0 {
      var more := Spelled(cfg, rest, at + 1);
      var r := Read(cfg, rest, at + 1);
      sps := [sp] + more;
      AllFitFirst(cfg, ret, sp, r.rets, more);
      assert ([ret] + r.rets)[1..] == r.rets && ([sp] + more)[1..] == more;
    } else {
      var more := Spelled(cfg, rest[n..], 1);
      sps := [sp] + more;
      SpelledNext(cfg, Begun(rest, at), ret, sp, rest[..n], Read(cfg, rest[n..], 1), more);
    }
  }

  /** A cluster whose characters are all read. */
  lemma {:induction false} ClusterDone(cfg: Config, rest: seq<string>, at: nat, sps: seq<Spelling>)
    requires rest != [] && IsCluster(rest[0]) && 1 < at == |rest[0]| && SpelledFrom(cfg, rest[1..], 1, sps)
    ensures SpelledFrom(cfg, rest, at, sps)
  {
    var r := Read(cfg, rest[1..], 1);
    AllFitAreWritten(cfg, r.rets, sps);
    WriteAllFramed(rest[..1], [], r.rets, sps);
    assert rest[0][..at] == rest[0] && [rest[0]] == rest[..1] == rest[..1] + [];
    assert (rest[..1] + WriteAll([], r.rets, sps)) + Dashes(r) == rest[..1] + (WriteAll([], r.rets, sps) + Dashes(r));
  }
}
