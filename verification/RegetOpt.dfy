/** `regetopt`: options are read from argv while operands are moved, in place,
    behind them. */
module RegetOpt {
  import opened Wrappers

  datatype HasArg = NoArgument | RequiredArgument | OptionalArgument
  datatype LongOpt = LongOpt(name: string, hasArg: HasArg)
  datatype Config = Config(optstring: string, longopts: seq<LongOpt>)

  /** What a call does to `re_optarg`: leave it, clear it, or set it. */
  datatype Arg = Kept | Cleared | Given(s: string)

  /** What a call returns: an option with its argument, one of the two error
      characters, or -1. */
  datatype Ret =
    | Short(c: char, arg: Arg)
    | Long(index: nat, arg: Arg)
    | InvalidShort(c: char)
    | ShortNeedsArgument(c: char)
    | AmbiguousLong
    | UnknownLong
    | LongNeedsArgument(index: nat)
    | Finished

  predicate IsError(r: Ret) {
    !r.Short? && !r.Long? && !r.Finished?
  }

  /** `re_optarg` after a call that returns `ret`. */
  function OptArg(was: Option<string>, ret: Ret): Option<string> {
    if !ret.Short? && !ret.Long? then was else
    match ret.arg
    case Kept => was
    case Cleared => None
    case Given(s) => Some(s)
  }

  // ----- one argument

  predicate IsOption(x: string) {
    (|x| > 2 && x[0] == '-') || (|x| == 2 && x[0] == '-' && x[1] != '-')
  }

  predicate IsLong(x: string) {
    |x| > 2 && x[0] == '-' && x[1] == '-'
  }

  predicate IsCluster(x: string) {
    IsOption(x) && !IsLong(x)
  }

  /** First position of `c` in `s`, or |s|. */
  function Find(s: string, c: char): (i: nat)
    ensures i <= |s| && (i < |s| ==> s[i] == c) && forall k | 0 <= k < i :: s[k] != c
  {
    if s == "" then 0 else if s[0] == c then 0 else 1 + Find(s[1..], c)
  }

  predicate KnownShort(cfg: Config, c: char) {
    Find(cfg.optstring, c) < |cfg.optstring|
  }

  predicate TakesArg(cfg: Config, c: char) {
    var i := Find(cfg.optstring, c);
    i + 1 < |cfg.optstring| && cfg.optstring[i + 1] == ':'
  }

  datatype Match = NoMatch | Ambiguous | Index(i: nat)

  /** The matching loop of `regetopt_long`: an exact name stops it, a second
      longer name with the given prefix is an error. */
  function LongMatch(opts: seq<LongOpt>, name: string, i: nat, found: Match): (m: Match)
    requires i <= |opts| && !found.Ambiguous? && (found.Index? ==> found.i < |opts|)
    ensures m.Index? ==> m.i < |opts|
    decreases |opts| - i
  {
    if i == |opts| then found
    else if opts[i].name == name then Index(i)
    else if |name| < |opts[i].name| && name <= opts[i].name then
      if found.Index? then Ambiguous else LongMatch(opts, name, i + 1, Index(i))
    else LongMatch(opts, name, i + 1, found)
  }

  /** A proper extension of the given name. */
  predicate Extends(opts: seq<LongOpt>, name: string, i: nat)
    requires i < |opts|
  {
    |name| < |opts[i].name| && name <= opts[i].name
  }

  function Extensions(opts: seq<LongOpt>, name: string, i: nat, end: nat): nat
    requires i <= end <= |opts|
    decreases end - i
  {
    if i == end then 0 else (if Extends(opts, name, i) then 1 else 0) + Extensions(opts, name, i + 1, end)
  }

  lemma {:induction false} MatchUpTo(opts: seq<LongOpt>, name: string, i: nat, found: Match, end: nat)
    requires i <= end <= |opts| && !found.Ambiguous? && (found.Index? ==> found.i < i)
    requires forall k | i <= k < end :: opts[k].name != name
    requires end < |opts| ==> opts[end].name == name
    ensures var n := Extensions(opts, name, i, end) + if found.Index? then 1 else 0;
            var m := LongMatch(opts, name, i, found);
            && (n >= 2 ==> m == Ambiguous)
            && (n <= 1 && end < |opts| ==> m == Index(end))
            && (n == 0 && end == |opts| ==> m == NoMatch)
            && (n == 1 && end == |opts| ==> m.Index? && (m == found || (i <= m.i && Extends(opts, name, m.i))))
    decreases end - i
  {
    if i < end {
      if !Extends(opts, name, i) {
        MatchUpTo(opts, name, i + 1, found, end);
      } else if !found.Index? {
        MatchUpTo(opts, name, i + 1, Index(i), end);
      }
    }
  }

  /** What a long name means, for the option that has exactly that name, if any:
      it is chosen unless two longer ones come before it in the table. */
  lemma ExactNameIff(opts: seq<LongOpt>, name: string, exact: nat)
    requires exact < |opts| && opts[exact].name == name
    requires forall k | 0 <= k < exact :: opts[k].name != name
    ensures LongMatch(opts, name, 0, NoMatch) == Index(exact) <==> Extensions(opts, name, 0, exact) <= 1
    ensures LongMatch(opts, name, 0, NoMatch) == Ambiguous <==> Extensions(opts, name, 0, exact) >= 2
  {
    MatchUpTo(opts, name, 0, NoMatch, exact);
  }

  /** And without one: a unique extension is chosen, none is unknown, several are
      ambiguous. */
  lemma AbbreviationIff(opts: seq<LongOpt>, name: string)
    requires forall k | 0 <= k < |opts| :: opts[k].name != name
    ensures var n := Extensions(opts, name, 0, |opts|);
            var m := LongMatch(opts, name, 0, NoMatch);
            && (m.NoMatch? <==> n == 0)
            && (m.Index? <==> n == 1)
            && (m.Ambiguous? <==> n >= 2)
            && (m.Index? ==> Extends(opts, name, m.i))
  {
    MatchUpTo(opts, name, 0, NoMatch, |opts|);
  }

  function LongName(x: string): string
    requires IsLong(x)
  {
    x[2..if Find(x, '=') < 2 then |x| else Find(x, '=')]
  }

  /** A long option: what is returned and how many arguments it takes up. */
  function LongStep(cfg: Config, rest: seq<string>): (r: (Ret, nat))
    requires rest != [] && IsLong(rest[0])
    ensures !IsError(r.0) ==> !r.0.Finished? && 1 <= r.1 <= 2 && r.1 <= |rest|
    ensures IsError(r.0) || r.0.Long?
  {
    var x := rest[0];
    var eq := Find(x, '=');
    match LongMatch(cfg.longopts, LongName(x), 0, NoMatch)
    case NoMatch => (UnknownLong, 0)
    case Ambiguous => (AmbiguousLong, 0)
    case Index(i) =>
      match cfg.longopts[i].hasArg
      case NoArgument => (Long(i, Kept), 1)
      case OptionalArgument => (Long(i, if eq < |x| then Given(x[eq + 1..]) else Cleared), 1)
      case RequiredArgument =>
        if eq < |x| then (Long(i, Given(x[eq + 1..])), 1)
        else if |rest| > 1 then (Long(i, Given(rest[1])), 2)
        else (LongNeedsArgument(i), 0)
  }

  /** The character at `at` of a cluster: what is returned and how many whole
      arguments it completes; 0 means the cluster goes on. */
  function ShortStep(cfg: Config, rest: seq<string>, at: nat): (r: (Ret, nat))
    requires rest != [] && at < |rest[0]|
    ensures !IsError(r.0) ==> r.0.Short? && r.1 <= 2 && r.1 <= |rest|
    ensures IsError(r.0) || r.0.Short?
  {
    var x, c := rest[0], rest[0][at];
    if !KnownShort(cfg, c) then (InvalidShort(c), 0)
    else if !TakesArg(cfg, c) then (Short(c, Kept), 0)
    else if at + 1 < |x| then (Short(c, Given(x[at + 1..])), 1)
    else if |rest| > 1 then (Short(c, Given(rest[1])), 2)
    else (ShortNeedsArgument(c), 0)
  }

  // ----- a whole command line

  datatype Stop = AtEnd | AtDashes(after: seq<string>) | AtError(error: Ret)

  /** Options with their arguments, operands, returned values, and how it ends. */
  datatype Reading = Reading(opts: seq<string>, operands: seq<string>, rets: seq<Ret>, stop: Stop)

  function AddOpts(xs: seq<string>, r: Reading): Reading {
    r.(opts := xs + r.opts)
  }

  function AddOperand(x: string, r: Reading): Reading {
    r.(operands := [x] + r.operands)
  }

  function AddRet(ret: Ret, r: Reading): Reading {
    r.(rets := [ret] + r.rets)
  }

  /** Reads `rest` left to right, starting at character `at` of a cluster. */
  function Read(cfg: Config, rest: seq<string>, at: nat): Reading
    requires at >= 1
    decreases |rest|, if rest != [] && at < |rest[0]| then |rest[0]| - at else 0
  {
    if rest == [] then Reading([], [], [], AtEnd)
    else if rest[0] == "--" then Reading(["--"], [], [], AtDashes(rest[1..]))
    else if !IsOption(rest[0]) then AddOperand(rest[0], Read(cfg, rest[1..], at))
    else if IsLong(rest[0]) then
      var (ret, n) := LongStep(cfg, rest);
      if IsError(ret) then Reading([], [], [], AtError(ret))
      else AddRet(ret, AddOpts(rest[..n], Read(cfg, rest[n..], at)))
    else if at >= |rest[0]| then AddOpts(rest[..1], Read(cfg, rest[1..], 1))
    else
      var (ret, n) := ShortStep(cfg, rest, at);
      if IsError(ret) then Reading([], [], [], AtError(ret))
      else if n == 0 then AddRet(ret, Read(cfg, rest, at + 1))
      else AddRet(ret, AddOpts(rest[..n], Read(cfg, rest[n..], 1)))
  }

  /** Fewer arguments, or the same and fewer characters. */
  predicate Shrinks(before: (int, int), after: (int, int)) {
    after.0 < before.0 || (after.0 == before.0 && after.1 < before.1)
  }

  /** The reading of `rest`, after options and operands already sorted out. */
  function Sum(cfg: Config, opts: seq<string>, rest: seq<string>, at: nat, operands: seq<string>): Reading
    requires at >= 1
  {
    var r := Read(cfg, rest, at);
    r.(opts := opts + r.opts, operands := operands + r.operands)
  }

  lemma SumOperand(cfg: Config, opts: seq<string>, rest: seq<string>, at: nat, operands: seq<string>)
    requires at >= 1 && rest != [] && rest[0] != "--" && !IsOption(rest[0])
    ensures Sum(cfg, opts, rest, at, operands) == Sum(cfg, opts, rest[1..], at, operands + [rest[0]])
  {
    var r := Read(cfg, rest[1..], at);
    assert operands + ([rest[0]] + r.operands) == operands + [rest[0]] + r.operands;
  }

  lemma SumOpts(opts: seq<string>, xs: seq<string>, operands: seq<string>, r: Reading)
    ensures var s := AddOpts(xs, r);
            s.(opts := opts + s.opts, operands := operands + s.operands)
            == r.(opts := opts + xs + r.opts, operands := operands + r.operands)
  {
    assert opts + (xs + r.opts) == opts + xs + r.opts;
  }

  lemma Rotated(before: seq<string>, after: seq<string>, i: nat, limit: nat)
    requires i < limit <= |before| == |after|
    requires forall k: int {:trigger after[k]} | 0 <= k < |after| ::
               after[k] == if k < i then before[k] else if k < |after| - 1 then before[k + 1] else before[i]
    ensures after[..i] == before[..i]
    ensures after[i..limit - 1] == before[i + 1..limit]
    ensures after[limit - 1..] == before[limit..] + [before[i]]
  {
  }

  /** A cluster whose characters are all read is one more option. */
  lemma SumCluster(cfg: Config, opts: seq<string>, rest: seq<string>, at: nat, operands: seq<string>)
    requires at >= 1 && rest != [] && IsCluster(rest[0]) && at >= |rest[0]|
    ensures Sum(cfg, opts, rest, at, operands) == Sum(cfg, opts + rest[..1], rest[1..], 1, operands)
  {
    SumOpts(opts, rest[..1], operands, Read(cfg, rest[1..], 1));
  }

  lemma SumLong(cfg: Config, opts: seq<string>, rest: seq<string>, at: nat, operands: seq<string>)
    requires at >= 1 && rest != [] && IsLong(rest[0])
    ensures var (ret, n) := LongStep(cfg, rest);
            if IsError(ret) then
              Sum(cfg, opts, rest, at, operands).rets == [] && Sum(cfg, opts, rest, at, operands).stop == AtError(ret)
            else
              Sum(cfg, opts, rest, at, operands) == AddRet(ret, Sum(cfg, opts + rest[..n], rest[n..], at, operands))
  {
    var (ret, n) := LongStep(cfg, rest);
    if !IsError(ret) { SumOpts(opts, rest[..n], operands, Read(cfg, rest[n..], at)); }
  }

  lemma SumShort(cfg: Config, opts: seq<string>, rest: seq<string>, at: nat, operands: seq<string>)
    requires at >= 1 && rest != [] && IsCluster(rest[0]) && at < |rest[0]|
    ensures var (ret, n) := ShortStep(cfg, rest, at);
            if IsError(ret) then
              Sum(cfg, opts, rest, at, operands).rets == [] && Sum(cfg, opts, rest, at, operands).stop == AtError(ret)
            else
              Sum(cfg, opts, rest, at, operands)
              == AddRet(ret, Sum(cfg, opts + rest[..n], rest[n..], if n == 0 then at + 1 else 1, operands))
  {
    var (ret, n) := ShortStep(cfg, rest, at);
    if !IsError(ret) {
      if n == 0 {
        assert opts + rest[..0] == opts && rest[0..] == rest;
      } else {
        SumOpts(opts, rest[..n], operands, Read(cfg, rest[n..], 1));
      }
    }
  }

  // ----- the function itself

  class Parser {
    var optind: nat
    var optarg: Option<string>
    var optcharIndex: nat
    var optionArgc: int

    constructor ()
      ensures optind == 1 && optcharIndex == 1 && optionArgc == -1 && optarg == None
    {
      optind, optarg, optcharIndex, optionArgc := 1, None, 1, -1;
    }

    /** How many arguments are still parsed as options. */
    ghost function Limit(argv: array<string>): int
      reads this
    {
      if optionArgc < 0 then argv.Length else optionArgc
    }

    ghost predicate Valid(argv: array<string>)
      reads this
    {
      && 1 <= optind <= Limit(argv) <= argv.Length
      && optcharIndex >= 1
    }

    /** Arguments not read yet. */
    ghost function Rest(argv: array<string>): seq<string>
      requires Valid(argv)
      reads this, argv
    {
      argv[optind..Limit(argv)]
    }

    /** The reading of the whole command line, as far as it is decided by what
        has been done so far. */
    ghost function Total(argv: array<string>, cfg: Config): Reading
      requires Valid(argv)
      reads this, argv
    {
      Sum(cfg, argv[1..optind], Rest(argv), optcharIndex, argv[Limit(argv)..])
    }

    /** Work left: arguments, then characters of the current one. */
    ghost function Remaining(argv: array<string>): (int, int)
      requires Valid(argv)
      reads this, argv
    {
      (Limit(argv) - optind,
       if optind < Limit(argv) && optcharIndex < |argv[optind]| then |argv[optind]| - optcharIndex else 0)
    }

    /** The arguments are in the order of the reading. */
    ghost predicate Arranged(argv: array<string>, r: Reading)
      reads this, argv
    {
      && 1 <= optind <= argv.Length
      && argv[1..optind] == r.opts
      && argv[optind..] == (if r.stop.AtDashes? then r.stop.after else []) + r.operands
    }

    /** `reorder_option`: moves the argument at `optind` to the end of argv and
        the ones after it one place to the left. */
    method Reorder(argv: array<string>)
      requires optind < argv.Length
      modifies argv
      ensures forall k | 0 <= k < argv.Length ::
                argv[k] == if k < optind then old(argv[k])
                           else if k < argv.Length - 1 then old(argv[k + 1]) else old(argv[optind])
    {
      var cur := argv[optind];
      var i := optind + 1;
      while i < argv.Length
        invariant optind + 1 <= i <= argv.Length
        invariant forall k | 0 <= k < argv.Length ::
                    argv[k] == if k < optind || i - 1 <= k then old(argv[k]) else old(argv[k + 1])
      {
        argv[i - 1] := argv[i];
        i := i + 1;
      }
      argv[argv.Length - 1] := cur;
    }

    /** An operand goes behind the ones found before it. */
    method MoveOperand(argv: array<string>)
      requires Valid(argv) && optind < Limit(argv) && optionArgc >= 0
      modifies this`optionArgc, argv
      ensures Valid(argv) && optionArgc == old(optionArgc) - 1 && argv[..optind] == old(argv[..optind])
      ensures Rest(argv) == old(Rest(argv))[1..]
      ensures argv[Limit(argv)..] == old(argv[Limit(argv)..]) + [old(argv[optind])]
    {
      ghost var limit, before := optionArgc, argv[..];
      Reorder(argv);
      optionArgc := optionArgc - 1;
      Rotated(before, argv[..], optind, limit);
      assert argv[..optind] == argv[..][..optind] && argv[limit - 1..] == argv[..][limit - 1..];
      assert argv[optind..limit - 1] == argv[..][optind..limit - 1];
      assert before[..optind] == old(argv[..optind]) && before[limit..] == old(argv[limit..]);
      assert before[optind + 1..limit] == old(argv[optind..limit])[1..];
    }

    method RegetoptShort(argv: array<string>, cfg: Config) returns (ret: Ret)
      requires Valid(argv) && optind < Limit(argv) && optionArgc >= 0
      requires optcharIndex < |argv[optind]|
      modifies this
      ensures Valid(argv) && optionArgc == old(optionArgc)
      ensures var (r, n) := ShortStep(cfg, old(Rest(argv)), old(optcharIndex));
              ret == r && optind == old(optind) + n
              && optcharIndex == (if IsError(r) then old(optcharIndex) else if n == 0 then old(optcharIndex) + 1 else 1)
      ensures optarg == OptArg(old(optarg), ret)
    {
      var cur := argv[optind];
      var c := cur[optcharIndex];
      var i := 0;
      while i < |cfg.optstring|
        invariant i <= |cfg.optstring| && i <= Find(cfg.optstring, c)
      {
        if cfg.optstring[i] == c {
          if i + 1 < |cfg.optstring| && cfg.optstring[i + 1] == ':' {
            if optcharIndex + 1 < |cur| {
              ret := Short(c, Given(cur[optcharIndex + 1..]));
              optarg := Some(cur[optcharIndex + 1..]);
              optind := optind + 1;
            } else if optind + 1 < optionArgc {
              ret := Short(c, Given(argv[optind + 1]));
              optarg := Some(argv[optind + 1]);
              optind := optind + 2;
            } else {
              return ShortNeedsArgument(c);
            }
            optcharIndex := 1;
            return;
          }
          optcharIndex := optcharIndex + 1;
          return Short(c, Kept);
        }
        i := i + 1;
      }
      return InvalidShort(c);
    }

    method RegetoptLong(argv: array<string>, cfg: Config) returns (ret: Ret)
      requires Valid(argv) && optind < Limit(argv) && optionArgc >= 0 && IsLong(argv[optind])
      modifies this
      ensures Valid(argv) && optionArgc == old(optionArgc) && optcharIndex == old(optcharIndex)
      ensures var (r, n) := LongStep(cfg, old(Rest(argv)));
              ret == r && optind == old(optind) + (if IsError(r) then 0 else n)
      ensures optarg == OptArg(old(optarg), ret)
    {
      var cur := argv[optind];
      var eq := Find(cur, '=');
      var name := LongName(cur);
      var matched := NoMatch;
      var index := 0;
      while index < |cfg.longopts|
        invariant index <= |cfg.longopts| && !matched.Ambiguous?
        invariant matched.Index? ==> matched.i < |cfg.longopts|
        invariant LongMatch(cfg.longopts, name, index, matched) == LongMatch(cfg.longopts, name, 0, NoMatch)
      {
        var opt := cfg.longopts[index];
        if opt.name == name {
          matched := Index(index);
          break;
        } else if |name| < |opt.name| && name <= opt.name {
          if matched.Index? {
            return AmbiguousLong;
          }
          matched := Index(index);
        }
        index := index + 1;
      }
      if matched.NoMatch? {
        return UnknownLong;
      }
      var hasArg := cfg.longopts[matched.i].hasArg;
      ret := Long(matched.i, Kept);
      if hasArg.RequiredArgument? {
        if eq < |cur| {
          ret := Long(matched.i, Given(cur[eq + 1..]));
          optarg := Some(cur[eq + 1..]);
        } else if optind + 1 < optionArgc {
          ret := Long(matched.i, Given(argv[optind + 1]));
          optarg := Some(argv[optind + 1]);
          optind := optind + 1;
        } else {
          return LongNeedsArgument(matched.i);
        }
      } else if hasArg.OptionalArgument? {
        if eq < |cur| {
          ret := Long(matched.i, Given(cur[eq + 1..]));
          optarg := Some(cur[eq + 1..]);
        } else {
          ret := Long(matched.i, Cleared);
          optarg := None;
        }
      }
      optind := optind + 1;
    }

    /** One call.  It returns the next value of the reading of the whole command
        line and leaves the reading of what remains; at the end the arguments
        lie in the order of that reading, from `optind` the operands. */
    method Regetopt(argv: array<string>, cfg: Config) returns (ret: Ret)
      requires Valid(argv)
      modifies this, argv
      ensures Valid(argv) && argv[..1] == old(argv[..1])
      ensures optarg == OptArg(old(optarg), ret)
      ensures !IsError(ret) && !ret.Finished? ==> old(Total(argv, cfg)) == AddRet(ret, Total(argv, cfg))
      ensures !IsError(ret) && !ret.Finished? ==> Shrinks(old(Remaining(argv)), Remaining(argv))
      ensures IsError(ret) ==> old(Total(argv, cfg)).rets == [] && old(Total(argv, cfg)).stop == AtError(ret)
      ensures IsError(ret) ==> Total(argv, cfg) == old(Total(argv, cfg))
      ensures ret.Finished? ==> old(Total(argv, cfg)).rets == [] && !old(Total(argv, cfg)).stop.AtError?
      ensures ret.Finished? ==> Arranged(argv, old(Total(argv, cfg)))
    {
      if optionArgc < 0 {
        optionArgc := argv.Length;
      }
      SkipOperands(argv, cfg);
      if optind >= optionArgc || argv[optind] == "--" {
        EndCall(argv, cfg);
        return Finished;
      }
      ret := OptionCall(argv, cfg);
    }

    /** The two ways to return -1; "--" itself is passed. */
    method EndCall(argv: array<string>, cfg: Config)
      requires Valid(argv) && optionArgc >= 0 && (optind >= optionArgc || argv[optind] == "--")
      modifies this`optind
      ensures Valid(argv)
      ensures old(Total(argv, cfg)).rets == [] && !old(Total(argv, cfg)).stop.AtError?
      ensures Arranged(argv, old(Total(argv, cfg)))
    {
      if optind >= optionArgc {
        EndArranged(argv, cfg);
      } else {
        DashesArranged(argv, cfg);
        optind := optind + 1;
      }
    }

    /** What a call that reaches an option means for the reading. */
    ghost predicate Advances(before: Reading, ret: Ret, after: Reading) {
      if IsError(ret) then before.rets == [] && before.stop == AtError(ret) && after == before
      else !ret.Finished? && before == AddRet(ret, after)
    }

    lemma EndArranged(argv: array<string>, cfg: Config)
      requires Valid(argv) && optind == Limit(argv)
      ensures Total(argv, cfg) == Reading(argv[1..optind], argv[optind..], [], AtEnd)
    {
      assert Rest(argv) == [];
      assert argv[1..optind] + [] == argv[1..optind] && argv[optind..] + [] == argv[optind..];
    }

    lemma DashesArranged(argv: array<string>, cfg: Config)
      requires Valid(argv) && optind < Limit(argv) && argv[optind] == "--"
      ensures var r := Total(argv, cfg);
              && r.rets == [] && r.stop.AtDashes?
              && argv[1..optind + 1] == r.opts && argv[optind + 1..] == r.stop.after + r.operands
    {
      var rest := Rest(argv);
      assert rest[0] == "--" && rest[1..] == argv[optind + 1..Limit(argv)];
      assert argv[1..optind + 1] == argv[1..optind] + ["--"];
      assert argv[Limit(argv)..] + [] == argv[Limit(argv)..];
      assert argv[optind + 1..] == rest[1..] + argv[Limit(argv)..];
    }

    method LongCall(argv: array<string>, cfg: Config) returns (ret: Ret)
      requires Valid(argv) && optind < Limit(argv) && optionArgc >= 0
      requires IsLong(argv[optind]) && argv[optind] != "--"
      modifies this
      ensures Valid(argv) && Advances(old(Total(argv, cfg)), ret, Total(argv, cfg))
      ensures optarg == OptArg(old(optarg), ret)
      ensures !IsError(ret) ==> Shrinks(old(Remaining(argv)), Remaining(argv))
    {
      ghost var opts, rest, n := argv[1..optind], Rest(argv), optind;
      SumLong(cfg, opts, rest, optcharIndex, argv[Limit(argv)..]);
      ret := RegetoptLong(argv, cfg);
      assert argv[1..optind] == opts + rest[..optind - n];
      assert Rest(argv) == rest[optind - n..];
    }

    method ShortCall(argv: array<string>, cfg: Config) returns (ret: Ret)
      requires Valid(argv) && optind < Limit(argv) && optionArgc >= 0
      requires IsCluster(argv[optind]) && optcharIndex < |argv[optind]|
      modifies this
      ensures Valid(argv) && Advances(old(Total(argv, cfg)), ret, Total(argv, cfg))
      ensures optarg == OptArg(old(optarg), ret)
      ensures !IsError(ret) ==> Shrinks(old(Remaining(argv)), Remaining(argv))
    {
      ghost var opts, rest, n := argv[1..optind], Rest(argv), optind;
      SumShort(cfg, opts, rest, optcharIndex, argv[Limit(argv)..]);
      ret := RegetoptShort(argv, cfg);
      assert argv[1..optind] == opts + rest[..optind - n];
      assert Rest(argv) == rest[optind - n..];
    }

    method OptionCall(argv: array<string>, cfg: Config) returns (ret: Ret)
      requires Valid(argv) && optind < Limit(argv) && optionArgc >= 0 && argv[optind] != "--"
      requires IsLong(argv[optind]) || (IsCluster(argv[optind]) && optcharIndex < |argv[optind]|)
      modifies this
      ensures Valid(argv) && Advances(old(Total(argv, cfg)), ret, Total(argv, cfg))
      ensures optarg == OptArg(old(optarg), ret)
      ensures !IsError(ret) ==> Shrinks(old(Remaining(argv)), Remaining(argv))
    {
      if IsLong(argv[optind]) {
        ret := LongCall(argv, cfg);
      } else {
        ret := ShortCall(argv, cfg);
      }
    }

    /** The part of `regetopt` that jumps back to its start: operands are moved
        and exhausted clusters passed, which changes no reading. */
    method SkipOperands(argv: array<string>, cfg: Config)
      requires Valid(argv) && optionArgc >= 0
      modifies this, argv
      ensures Valid(argv) && optionArgc >= 0 && argv[..1] == old(argv[..1]) && optarg == old(optarg)
      ensures Total(argv, cfg) == old(Total(argv, cfg))
      ensures Remaining(argv) == old(Remaining(argv)) || Shrinks(old(Remaining(argv)), Remaining(argv))
      ensures optind < optionArgc ==>
                argv[optind] == "--" || IsLong(argv[optind])
                || (IsCluster(argv[optind]) && optcharIndex < |argv[optind]|)
    {
      while optind < optionArgc && argv[optind] != "--" && !IsLong(argv[optind])
            && !(IsOption(argv[optind]) && optcharIndex < |argv[optind]|)
        invariant Valid(argv) && optionArgc >= 0 && argv[..1] == old(argv[..1]) && optarg == old(optarg)
        invariant Total(argv, cfg) == old(Total(argv, cfg))
        invariant Remaining(argv) == old(Remaining(argv)) || Shrinks(old(Remaining(argv)), Remaining(argv))
        decreases Limit(argv) - optind
      {
        ghost var opts, rest, operands := argv[1..optind], Rest(argv), argv[Limit(argv)..];
        var cur := argv[optind];
        if !IsOption(cur) {
          SumOperand(cfg, opts, rest, optcharIndex, operands);
          ghost var was := argv[..optind];
          MoveOperand(argv);
          assert argv[1..optind] == argv[..optind][1..] == was[1..];
          assert argv[..1] == argv[..optind][..1] == was[..1];
        } else {
          SumCluster(cfg, opts, rest, optcharIndex, operands);
          optcharIndex := 1;
          optind := optind + 1;
          assert argv[1..optind] == opts + rest[..1];
        }
      }
    }
  }

  // ----- whole runs

  /** The loop of every caller: calls until the end or an error.  The values
      returned are those of the reading of the original command line; if the
      end is reached, argv holds the program's name, the options with their
      arguments, what came after "--", and last the operands found before it,
      each of these groups in its original order.  The last two together keep
      their order exactly when both repeat one pattern; on a line without
      repeated arguments that means one of them is empty. */
  method ReadAll(argv: array<string>, cfg: Config) returns (p: Parser, rets: seq<Ret>, last: Ret)
    requires argv.Length >= 1
    modifies argv
    ensures var r := Read(cfg, old(argv[1..]), 1);
            && rets == r.rets
            && (IsError(last) ==> r.stop == AtError(last))
            && (!IsError(last) ==> last == Finished && !r.stop.AtError? && p.Arranged(argv, r))
            && (!IsError(last) ==> Partitions(old(argv[1..]), r))
    ensures argv[0] == old(argv[0])
    ensures p.optarg == LastArg(rets)
    ensures !IsError(last) ==> multiset(argv[..]) == multiset(old(argv[..]))
    ensures !IsError(last) ==>
              var r := Read(cfg, old(argv[1..]), 1);
              && (argv[p.optind..] == r.operands + After(r) <==> SamePattern(After(r), r.operands))
              && (Distinct(old(argv[1..])) ==>
                    (argv[p.optind..] == r.operands + After(r) <==> r.operands == [] || After(r) == []))
  {
    p := new Parser();
    ghost var r := Read(cfg, argv[1..], 1);
    assert p.Rest(argv) == argv[1..];
    assert argv[1..1] + r.opts == r.opts && argv[argv.Length..] + r.operands == r.operands;
    rets, last := CallToEnd(p, argv, cfg);
    assert argv[..1][0] == argv[0];
    if last.Finished? {
      ReadPartitions(cfg, old(argv[1..]), 1);
      assert old(argv[..])[1..] == old(argv[1..]);
      ArrangedHere(p, argv, old(argv[..]), r);
      OrderKeptByPatternIff(r);
      if Distinct(old(argv[1..])) { OrderKeptIff(cfg, old(argv[1..])); }
    }
  }

  method CallToEnd(p: Parser, argv: array<string>, cfg: Config) returns (rets: seq<Ret>, last: Ret)
    requires p.Valid(argv) && p.optarg == None
    modifies p, argv
    ensures argv[..1] == old(argv[..1]) && p.optarg == LastArg(rets)
    ensures var r := old(p.Total(argv, cfg));
            && rets == r.rets && (IsError(last) || last.Finished?)
            && (IsError(last) ==> r.stop == AtError(last))
            && (last.Finished? ==> !r.stop.AtError? && p.Arranged(argv, r))
  {
    ghost var r := p.Total(argv, cfg);
    rets := [];
    assert [] + r.rets == r.rets;
    while true
      invariant p.Valid(argv) && argv[..1] == old(argv[..1])
      invariant r == AddRets(rets, p.Total(argv, cfg)) && p.optarg == LastArg(rets)
      decreases p.Remaining(argv).0, p.Remaining(argv).1
    {
      last := p.Regetopt(argv, cfg);
      if IsError(last) || last.Finished? {
        assert rets == rets + [];
        return;
      }
      AddRetsOne(rets, last, p.Total(argv, cfg));
      assert (rets + [last])[..|rets|] == rets;
      rets := rets + [last];
    }
  }

  /** `re_optarg` after calls that return `rets`. */
  function LastArg(rets: seq<Ret>): Option<string> {
    if rets == [] then None else OptArg(LastArg(rets[..|rets| - 1]), rets[|rets| - 1])
  }

  function AddRets(rets: seq<Ret>, r: Reading): Reading {
    r.(rets := rets + r.rets)
  }

  lemma AddRetsOne(rets: seq<Ret>, ret: Ret, r: Reading)
    ensures AddRets(rets, AddRet(ret, r)) == AddRets(rets + [ret], r)
  {
    assert rets + ([ret] + r.rets) == rets + [ret] + r.rets;
  }

  // ----- the reading is a stable partition

  /** `s` is `a` and `b` shuffled together, each in order. */
  ghost predicate Merge<T>(s: seq<T>, a: seq<T>, b: seq<T>)
    decreases |s|
  {
    if s == [] then a == [] && b == []
    else
      || (a != [] && a[0] == s[0] && Merge(s[1..], a[1..], b))
      || (b != [] && b[0] == s[0] && Merge(s[1..], a, b[1..]))
  }

  lemma {:induction false} MergeIsPermutation<T>(s: seq<T>, a: seq<T>, b: seq<T>)
    requires Merge(s, a, b)
    ensures multiset(s) == multiset(a) + multiset(b)
    decreases |s|
  {
    if s != [] {
      assert s == [s[0]] + s[1..];
      if a != [] && a[0] == s[0] && Merge(s[1..], a[1..], b) {
        MergeIsPermutation(s[1..], a[1..], b);
        assert a == [a[0]] + a[1..];
      } else {
        MergeIsPermutation(s[1..], a, b[1..]);
        assert b == [b[0]] + b[1..];
      }
    }
  }

  lemma {:induction false} MergeOpts<T>(xs: seq<T>, s: seq<T>, a: seq<T>, b: seq<T>)
    requires Merge(s, a, b)
    ensures Merge(xs + s, xs + a, b)
  {
    if xs == [] {
      assert xs + s == s && xs + a == a;
    } else {
      MergeOpts(xs[1..], s, a, b);
      assert (xs + s)[1..] == xs[1..] + s && (xs + a)[1..] == xs[1..] + a;
    }
  }

  lemma MergeOperand<T>(x: T, s: seq<T>, a: seq<T>, b: seq<T>)
    requires Merge(s, a, b)
    ensures Merge([x] + s, a, [x] + b)
  {
    assert ([x] + s)[1..] == s && ([x] + b)[1..] == b;
  }

  function After(r: Reading): seq<string> {
    if r.stop.AtDashes? then r.stop.after else []
  }

  /** `rest` is the options and operands of `r`, in their order, followed by
      what comes after "--"; operands are never options. */
  ghost predicate Partitions(rest: seq<string>, r: Reading) {
    exists front: seq<string> {:trigger Merge(front, r.opts, r.operands)} ::
      && rest == front + After(r)
      && Merge(front, r.opts, r.operands)
      && forall x | x in r.operands :: !IsOption(x) && x != "--"
  }

  /** So the arguments are only permuted. */
  lemma PartitionIsPermutation(rest: seq<string>, r: Reading)
    requires Partitions(rest, r)
    ensures multiset(rest) == multiset(r.opts) + multiset(After(r) + r.operands)
  {
    var front: seq<string> :| rest == front + After(r) && Merge(front, r.opts, r.operands);
    MergeIsPermutation(front, r.opts, r.operands);
  }

  lemma ArrangedIsPermutation(before: seq<string>, after: seq<string>, optind: nat, r: Reading)
    requires before != [] && 1 <= optind <= |after| && after[0] == before[0]
    requires after[1..optind] == r.opts && after[optind..] == After(r) + r.operands
    requires Partitions(before[1..], r)
    ensures multiset(after) == multiset(before)
  {
    PartitionIsPermutation(before[1..], r);
    assert after == [after[0]] + (after[1..optind] + after[optind..]);
    assert before == [before[0]] + before[1..];
  }

  lemma ArrangedHere(p: Parser, argv: array<string>, before: seq<string>, r: Reading)
    requires argv.Length >= 1 && before != [] && argv[0] == before[0]
    requires p.Arranged(argv, r) && Partitions(before[1..], r)
    ensures multiset(argv[..]) == multiset(before)
  {
    assert argv[..][1..p.optind] == argv[1..p.optind] && argv[..][p.optind..] == argv[p.optind..];
    ArrangedIsPermutation(before, argv[..], p.optind, r);
  }

  lemma PartitionsOperand(x: string, rest: seq<string>, r: Reading)
    requires Partitions(rest, r) && !IsOption(x) && x != "--"
    ensures Partitions([x] + rest, AddOperand(x, r))
  {
    var front: seq<string> :| rest == front + After(r) && Merge(front, r.opts, r.operands);
    MergeOperand(x, front, r.opts, r.operands);
    assert [x] + rest == ([x] + front) + After(r);
    assert Merge([x] + front, AddOperand(x, r).opts, AddOperand(x, r).operands);
  }

  lemma PartitionsOpts(xs: seq<string>, rest: seq<string>, r: Reading)
    requires Partitions(rest, r)
    ensures Partitions(xs + rest, AddOpts(xs, r))
  {
    var front: seq<string> :| rest == front + After(r) && Merge(front, r.opts, r.operands);
    MergeOpts(xs, front, r.opts, r.operands);
    assert xs + rest == (xs + front) + After(r);
    assert Merge(xs + front, AddOpts(xs, r).opts, AddOpts(xs, r).operands);
  }

  /** Without an error, reading a command line partitions it stably. */
  lemma {:induction false} ReadPartitions(cfg: Config, rest: seq<string>, at: nat)
    requires at >= 1 && !Read(cfg, rest, at).stop.AtError?
    ensures Partitions(rest, Read(cfg, rest, at))
    decreases |rest|, 1 + if rest != [] && at < |rest[0]| then |rest[0]| - at else 0
  {
    if rest == [] {
      assert Merge<string>([], [], []);
    } else if rest[0] == "--" {
      assert rest == ["--"] + rest[1..];
      assert ["--"][1..] == [] && Merge<string>([], [], []);
      assert Merge(["--"], ["--"], []);
    } else if !IsOption(rest[0]) {
      ReadPartitions(cfg, rest[1..], at);
      PartitionsOperand(rest[0], rest[1..], Read(cfg, rest[1..], at));
      assert rest == [rest[0]] + rest[1..];
    } else if IsLong(rest[0]) {
      PartitionsNext(cfg, rest, LongStep(cfg, rest).1, at);
    } else if at >= |rest[0]| {
      PartitionsNext(cfg, rest, 1, 1);
    } else if ShortStep(cfg, rest, at).1 == 0 {
      ReadPartitions(cfg, rest, at + 1);
    } else {
      PartitionsNext(cfg, rest, ShortStep(cfg, rest, at).1, 1);
    }
  }

  lemma {:induction false} PartitionsNext(cfg: Config, rest: seq<string>, n: nat, at: nat)
    requires 1 <= n <= |rest| && at >= 1 && !Read(cfg, rest[n..], at).stop.AtError?
    ensures Partitions(rest, AddOpts(rest[..n], Read(cfg, rest[n..], at)))
    decreases |rest|, 0
  {
    ReadPartitions(cfg, rest[n..], at);
    PartitionsOpts(rest[..n], rest[n..], Read(cfg, rest[n..], at));
    assert rest == rest[..n] + rest[n..];
  }

  // ----- when the operands as a whole keep their order

  ghost predicate Distinct<T(!new)>(s: seq<T>) {
    forall i, j | 0 <= i < j < |s| :: s[i] != s[j]
  }

  lemma {:induction false} DistinctOnce<T(!new)>(s: seq<T>, x: T)
    requires Distinct(s)
    ensures multiset(s)[x] <= 1
  {
    if s != [] {
      assert s == [s[0]] + s[1..];
      DistinctOnce(s[1..], x);
      if x == s[0] { assert x !in s[1..]; }
    }
  }

  /** Two groups of arguments taken from a line without repetitions. */
  lemma {:induction false} FirstsDiffer(s: seq<string>, opts: seq<string>, a: seq<string>, b: seq<string>)
    requires Distinct(s) && multiset(s) == multiset(opts) + multiset(a + b) && a != [] && b != []
    ensures a[0] != b[0]
  {
    DistinctOnce(s, a[0]);
    if a[0] == b[0] { BothCount(a, b); }
  }

  lemma {:induction false} BothCount<T>(a: seq<T>, b: seq<T>)
    requires a != [] && b != [] && a[0] == b[0]
    ensures multiset(a + b)[a[0]] >= 2
  {
    assert a[0] in multiset(a) && a[0] in multiset(b);
  }

  /** The operands are found in their original order, those before "--" first,
      only where one of the two groups is empty. */
  lemma OrderKeptIff(cfg: Config, rest: seq<string>)
    requires Distinct(rest) && !Read(cfg, rest, 1).stop.AtError?
    ensures var r := Read(cfg, rest, 1);
            After(r) + r.operands == r.operands + After(r) <==> r.operands == [] || After(r) == []
  {
    var r := Read(cfg, rest, 1);
    var a, b := After(r), r.operands;
    ReadPartitions(cfg, rest, 1);
    PartitionIsPermutation(rest, r);
    if a != [] && b != [] { FirstsDiffer(rest, r.opts, a, b); }
    FirstsDecide(a, b);
  }

  lemma {:induction false} FirstsDecide<T>(a: seq<T>, b: seq<T>)
    requires a != [] && b != [] ==> a[0] != b[0]
    ensures a + b == b + a <==> a == [] || b == []
  {
    if a != [] && b != [] { assert (a + b)[0] == a[0] && (b + a)[0] == b[0]; }
  }

  function Power<T>(w: seq<T>, n: nat): seq<T> {
    if n == 0 then [] else w + Power(w, n - 1)
  }

  lemma {:induction false} PowerSum<T>(w: seq<T>, m: nat, n: nat)
    ensures Power(w, m) + Power(w, n) == Power(w, m + n)
    decreases m
  {
    if m > 0 {
      PowerSum(w, m - 1, n);
      assert w + Power(w, m - 1) + Power(w, n) == w + (Power(w, m - 1) + Power(w, n));
    }
  }

  /** Both are repetitions of one sequence. */
  ghost predicate SamePattern<T(!new)>(a: seq<T>, b: seq<T>) {
    exists w: seq<T>, m: nat, n: nat :: a == Power(w, m) && b == Power(w, n)
  }

  lemma {:induction false} PatternFound<T(!new)>(a: seq<T>, b: seq<T>) returns (w: seq<T>, m: nat, n: nat)
    requires a + b == b + a
    ensures a == Power(w, m) && b == Power(w, n)
    decreases |a| + |b|, |a|
  {
    if a == [] {
      w, m, n := b, 0, 1;
      assert Power(b, 1) == b + Power(b, 0) == b;
    } else if |a| > |b| {
      w, n, m := PatternFound(b, a);
    } else {
      var rest := b[|a|..];
      assert a == (a + b)[..|a|] == (b + a)[..|a|] == b[..|a|];
      assert b == a + rest;
      assert a + rest == (a + b)[|a|..] == (b + a)[|a|..] == rest + a;
      var k;
      w, m, k := PatternFound(a, rest);
      n := m + k;
      PowerSum(w, m, k);
    }
  }

  /** With repeated arguments there is one more way: both groups repeat one
      pattern, as in `x -- x x`. */
  lemma OrderKeptByPatternIff(r: Reading)
    ensures After(r) + r.operands == r.operands + After(r) <==> SamePattern(After(r), r.operands)
  {
    var a, b := After(r), r.operands;
    if a + b == b + a {
      var w, m, n := PatternFound(a, b);
    }
    if SamePattern(a, b) {
      var w: seq<string>, m: nat, n: nat :| a == Power(w, m) && b == Power(w, n);
      PowerSum(w, m, n);
      PowerSum(w, n, m);
    }
  }

  /** Operands before "--" end up behind those after it: with one of each the
      original order is reversed. */
  lemma DashesReverse(cfg: Config, x: string, y: string)
    requires !IsOption(x) && x != "--"
    ensures Read(cfg, [x, "--", y], 1) == Reading(["--"], [x], [], AtDashes([y]))
  {
    assert [x, "--", y][1..] == ["--", y] && ["--", y][1..] == [y];
  }
}
