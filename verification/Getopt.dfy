/** The GNU-style option parser of _pydev_getopt.py. */
module Getopt {
  import opened Basics

  datatype ErrorKind = RequiresArgument | MustNotHaveArgument | NotRecognized | NotUnique

  datatype Result<+T> = Ok(value: T) | GetoptError(kind: ErrorKind, opt: string)

  /** An option as returned: its name with dashes, and its argument or "". */
  type Opt = (string, string)

  datatype Parsed = Parsed(opts: seq<Opt>, args: seq<string>)

  // ---- Long options ----

  /** [o for o in longopts if o.startswith(opt)] */
  function Possibilities(opt: string, longopts: seq<string>): (r: seq<string>)
    ensures forall o :: o in r <==> o in longopts && opt <= o
  {
    if longopts == [] then []
    else
      assert longopts == [longopts[0]] + longopts[1..];
      (if opt <= longopts[0] then [longopts[0]] else []) + Possibilities(opt, longopts[1..])
  }

  /** long_has_args: whether the option takes an argument, and its full name. */
  function LongHasArgs(opt: string, longopts: seq<string>): Result<(bool, string)> {
    var possibilities := Possibilities(opt, longopts);
    if possibilities == [] then GetoptError(NotRecognized, opt)
    else if opt in possibilities then Ok((false, opt))
    else if opt + "=" in possibilities then Ok((true, opt))
    else if |possibilities| > 1 then GetoptError(NotUnique, opt)
    else
      var match1 := possibilities[0];
      if match1 != "" && match1[|match1| - 1] == '=' then Ok((true, match1[..|match1| - 1])) else Ok((false, match1))
  }

  function IndexOf(s: string, c: char): (k: nat)
    ensures k <= |s| && c !in s[..k] && (k < |s| ==> s[k] == c)
  {
    if s == "" || s[0] == c then 0
    else
      var k := IndexOf(s[1..], c);
      assert s[..k + 1] == [s[0]] + s[1..][..k];
      k + 1
  }

  /** do_longs: the option, and the arguments left. */
  function DoLongs(text: string, longopts: seq<string>, args: seq<string>): Result<(Opt, seq<string>)> {
    var k := IndexOf(text, '=');
    var given := if k < |text| then Some(text[k + 1..]) else None;
    match LongHasArgs(text[..k], longopts)
    case GetoptError(kind, o) => GetoptError(kind, o)
    case Ok((hasArg, name)) =>
      if hasArg then
        if given.Some? then Ok((("--" + name, given.value), args))
        else if args == [] then GetoptError(RequiresArgument, name)
        else Ok((("--" + name, args[0]), args[1..]))
      else if given.Some? && given.value != "" then GetoptError(MustNotHaveArgument, name)
      else Ok((("--" + name, ""), args))
  }

  // ---- Short options ----

  /** short_has_arg */
  function ShortHasArg(opt: char, shortopts: string): Result<bool> {
    if shortopts == "" then GetoptError(NotRecognized, [opt])
    else if opt == shortopts[0] && shortopts[0] != ':' then Ok(|shortopts| > 1 && shortopts[1] == ':')
    else ShortHasArg(opt, shortopts[1..])
  }

  /** do_shorts: the options, and the arguments left. */
  function DoShorts(text: string, shortopts: string, args: seq<string>): Result<(seq<Opt>, seq<string>)> {
    if text == "" then Ok(([], args))
    else
      match ShortHasArg(text[0], shortopts)
      case GetoptError(kind, o) => GetoptError(kind, o)
      case Ok(true) =>
        if text[1..] != "" then Ok(([("-" + [text[0]], text[1..])], args))
        else if args == [] then GetoptError(RequiresArgument, [text[0]])
        else Ok(([("-" + [text[0]], args[0])], args[1..]))
      case Ok(false) =>
        match DoShorts(text[1..], shortopts, args)
        case GetoptError(kind, o) => GetoptError(kind, o)
        case Ok((opts, rest)) => Ok(([("-" + [text[0]], "")] + opts, rest))
  }

  lemma {:induction false} DoShortsShrinks(text: string, shortopts: string, args: seq<string>)
    ensures var r := DoShorts(text, shortopts, args); r.Ok? ==> |r.value.1| <= |args|
  {
    if text != "" && ShortHasArg(text[0], shortopts) == Ok(false) {
      DoShortsShrinks(text[1..], shortopts, args);
    }
  }

  // ---- All arguments ----

  function Before(opts: seq<Opt>, args: seq<string>, rest: Result<Parsed>): Result<Parsed> {
    match rest
    case GetoptError(kind, o) => GetoptError(kind, o)
    case Ok(p) => Ok(Parsed(opts + p.opts, args + p.args))
  }

  predicate IsLong(arg: string) {
    "--" <= arg
  }

  predicate IsShort(arg: string) {
    "-" <= arg
  }

  /** The loop of gnu_getopt; `optionsFirst` is all_options_first. */
  function Scan(args: seq<string>, shortopts: string, longopts: seq<string>, optionsFirst: bool): Result<Parsed>
    decreases |args|
  {
    if args == [] then Ok(Parsed([], []))
    else if args[0] == "--" then Ok(Parsed([], args[1..]))
    else if IsLong(args[0]) then
      match DoLongs(args[0][2..], longopts, args[1..])
      case GetoptError(kind, o) => GetoptError(kind, o)
      case Ok((opt, rest)) => Before([opt], [], Scan(rest, shortopts, longopts, optionsFirst))
    else if IsShort(args[0]) then
      DoShortsShrinks(args[0][1..], shortopts, args[1..]);
      match DoShorts(args[0][1..], shortopts, args[1..])
      case GetoptError(kind, o) => GetoptError(kind, o)
      case Ok((opts, rest)) => Before(opts, [], Scan(rest, shortopts, longopts, optionsFirst))
    else if optionsFirst then Ok(Parsed([], args))
    else Before([], [args[0]], Scan(args[1..], shortopts, longopts, optionsFirst))
  }

  function Stripped(shortopts: string): string {
    if "+" <= shortopts then shortopts[1..] else shortopts
  }

  /** gnu_getopt */
  function GnuGetopt(args: seq<string>, shortopts: string, longopts: seq<string>): Result<Parsed> {
    Scan(args, Stripped(shortopts), longopts, "+" <= shortopts)
  }

  // ---- The loops ----

  method FindShort(opt: char, shortopts: string) returns (r: Result<bool>)
    ensures r == ShortHasArg(opt, shortopts)
  {
    for i := 0 to |shortopts|
      invariant ShortHasArg(opt, shortopts) == ShortHasArg(opt, shortopts[i..])
    {
      if opt == shortopts[i] && shortopts[i] != ':' {
        return Ok(i + 1 < |shortopts| && shortopts[i + 1] == ':');
      }
    }
    return GetoptError(NotRecognized, [opt]);
  }

  /** do_shorts, appending to the options parsed so far. */
  method ParseShorts(opts: seq<Opt>, text: string, shortopts: string, args: seq<string>)
      returns (r: Result<(seq<Opt>, seq<string>)>)
    ensures match DoShorts(text, shortopts, args)
      case GetoptError(kind, o) => r == GetoptError(kind, o)
      case Ok((more, rest)) => r == Ok((opts + more, rest))
  {
    var optstring, left, out := text, args, opts;
    while optstring != ""
      invariant ShortsLeft(out, DoShorts(optstring, shortopts, left)) ==
          ShortsLeft(opts, DoShorts(text, shortopts, args))
      decreases |optstring|
    {
      var opt, rest := optstring[0], optstring[1..];
      var hasArg := FindShort(opt, shortopts);
      if hasArg.GetoptError? {
        return GetoptError(hasArg.kind, hasArg.opt);
      }
      if hasArg.value {
        if rest == "" {
          if left == [] {
            return GetoptError(RequiresArgument, [opt]);
          }
          rest, left := left[0], left[1..];
        }
        out := out + [("-" + [opt], rest)];
        return Ok((out, left));
      }
      ghost var next := DoShorts(rest, shortopts, left);
      if next.Ok? {
        ConcatAssociative(out, [("-" + [opt], "")], next.value.0);
      }
      out, optstring := out + [("-" + [opt], "")], rest;
    }
    assert out + [] == out;
    return Ok((out, left));
  }

  ghost function ShortsLeft(opts: seq<Opt>, r: Result<(seq<Opt>, seq<string>)>): Result<(seq<Opt>, seq<string>)> {
    match r
    case GetoptError(kind, o) => GetoptError(kind, o)
    case Ok((more, rest)) => Ok((opts + more, rest))
  }

  lemma {:induction false} BeforeTwice(a: seq<Opt>, b: seq<string>, c: seq<Opt>, d: seq<string>, r: Result<Parsed>)
    ensures Before(a, b, Before(c, d, r)) == Before(a + c, b + d, r)
  {
    if r.Ok? {
      ConcatAssociative(a, c, r.value.opts);
      ConcatAssociative(b, d, r.value.args);
    }
  }

  lemma {:induction false} BeforeNothing(r: Result<Parsed>)
    ensures Before([], [], r) == r
  {
    if r.Ok? {
      assert [] + r.value.opts == r.value.opts && [] + r.value.args == r.value.args;
    }
  }

  method Parse(args: seq<string>, shortopts: string, longopts: seq<string>) returns (r: Result<Parsed>)
    ensures r == GnuGetopt(args, shortopts, longopts)
  {
    var opts: seq<Opt>, progArgs: seq<string>, left := [], [], args;
    var shorts, optionsFirst := shortopts, false;
    if "+" <= shortopts {
      shorts, optionsFirst := shortopts[1..], true;
    }
    ghost var goal := Scan(args, shorts, longopts, optionsFirst);
    BeforeNothing(goal);
    while left != []
      invariant Before(opts, progArgs, Scan(left, shorts, longopts, optionsFirst)) == goal
      decreases |left|
    {
      assert opts + [] == opts && progArgs + [] == progArgs;
      if left[0] == "--" {
        return Ok(Parsed(opts, progArgs + left[1..]));
      }
      if IsLong(left[0]) {
        var long := DoLongs(left[0][2..], longopts, left[1..]);
        if long.GetoptError? {
          return GetoptError(long.kind, long.opt);
        }
        BeforeTwice(opts, progArgs, [long.value.0], [], Scan(long.value.1, shorts, longopts, optionsFirst));
        opts, left := opts + [long.value.0], long.value.1;
      } else if IsShort(left[0]) {
        DoShortsShrinks(left[0][1..], shorts, left[1..]);
        ghost var more := DoShorts(left[0][1..], shorts, left[1..]);
        var short := ParseShorts(opts, left[0][1..], shorts, left[1..]);
        if short.GetoptError? {
          return GetoptError(short.kind, short.opt);
        }
        BeforeTwice(opts, progArgs, more.value.0, [], Scan(short.value.1, shorts, longopts, optionsFirst));
        opts, left := short.value.0, short.value.1;
      } else if optionsFirst {
        return Ok(Parsed(opts, progArgs + left));
      } else {
        BeforeTwice(opts, progArgs, [], [left[0]], Scan(left[1..], shorts, longopts, optionsFirst));
        progArgs, left := progArgs + [left[0]], left[1..];
      }
    }
    assert opts + [] == opts && progArgs + [] == progArgs;
    return Ok(Parsed(opts, progArgs));
  }

  // ---- Printing and parsing again ----

  /** The name in an entry of longopts. */
  function LongName(entry: string): string {
    if entry != "" && entry[|entry| - 1] == '=' then entry[..|entry| - 1] else entry
  }

  /** No "-" among the short options; long names not empty, with "=" only to mark an argument. */
  ghost predicate ProperSpecs(shortopts: string, longopts: seq<string>) {
    && '-' !in shortopts
    && forall o :: o in longopts ==> LongName(o) != "" && '=' !in LongName(o)
  }

  predicate ValidLong(opt: Opt, longopts: seq<string>) {
    && "--" <= opt.0 && opt.0[2..] != "" && '=' !in opt.0[2..]
    && (if opt.0[2..] in longopts then opt.1 == "" else opt.0[2..] + "=" in longopts)
  }

  predicate ValidShort(opt: Opt, shortopts: string) {
    && |opt.0| == 2 && opt.0[0] == '-' && opt.0[1] != '-'
    && ShortHasArg(opt.0[1], shortopts).Ok? && (!ShortHasArg(opt.0[1], shortopts).value ==> opt.1 == "")
  }

  predicate ValidOpt(opt: Opt, shortopts: string, longopts: seq<string>) {
    ValidLong(opt, longopts) || ValidShort(opt, shortopts)
  }

  lemma {:induction false} OnlyPossibilityValid(opt: string, longopts: seq<string>, found: string)
    requires forall o :: o in longopts ==> LongName(o) != "" && '=' !in LongName(o)
    requires Possibilities(opt, longopts) == [found] && '=' !in opt && found != opt + "="
    ensures var name := LongName(found);
      && name != "" && '=' !in name
      && (found != name ==> found == name + "=" && name !in longopts)
  {
    var name := LongName(found);
    assert found in Possibilities(opt, longopts);
    if found != name {
      assert found == name + "=" && opt <= name;
      assert name in longopts ==> name in Possibilities(opt, longopts);
    }
  }

  lemma {:induction false} LongHasArgsValid(opt: string, longopts: seq<string>)
    requires forall o :: o in longopts ==> LongName(o) != "" && '=' !in LongName(o)
    requires LongHasArgs(opt, longopts).Ok? && '=' !in opt
    ensures var (hasArg, name) := LongHasArgs(opt, longopts).value;
      name != "" && '=' !in name && (name in longopts <==> !hasArg) && (hasArg ==> name + "=" in longopts)
  {
    var possibilities := Possibilities(opt, longopts);
    if opt in possibilities {
      assert LongName(opt) == opt;
    } else if opt + "=" in possibilities {
      assert LongName(opt + "=") == opt;
    } else {
      assert possibilities == [possibilities[0]];
      OnlyPossibilityValid(opt, longopts, possibilities[0]);
      assert possibilities[0] in possibilities;
    }
  }

  /** Two entries of longopts, at different places, begin with `opt`. */
  ghost predicate Ambiguous(opt: string, longopts: seq<string>) {
    exists i, j :: 0 <= i < j < |longopts| && opt <= longopts[i] && opt <= longopts[j]
  }

  lemma {:induction false} SeveralPossibilities(opt: string, longopts: seq<string>)
    ensures |Possibilities(opt, longopts)| > 1 <==> Ambiguous(opt, longopts)
  {
    if longopts != [] {
      var rest := longopts[1..];
      SeveralPossibilities(opt, rest);
      assert forall k :: 0 <= k < |rest| ==> rest[k] == longopts[k + 1];
      if opt <= longopts[0] && Possibilities(opt, rest) != [] {
        var o := Possibilities(opt, rest)[0];
        assert o in Possibilities(opt, rest);
        var k :| 0 <= k < |rest| && rest[k] == o;
        assert opt <= longopts[k + 1];
      }
      if i, j :| 0 <= i < j < |longopts| && opt <= longopts[i] && opt <= longopts[j] {
        assert rest[j - 1] in Possibilities(opt, rest);
        assert i > 0 ==> opt <= rest[i - 1] && opt <= rest[j - 1];
      }
      if Ambiguous(opt, rest) {
        var i, j :| 0 <= i < j < |rest| && opt <= rest[i] && opt <= rest[j];
        assert opt <= longopts[i + 1] && opt <= longopts[j + 1];
      }
    }
  }

  /** Exactly which long options are rejected: those that begin no declared one, and those that begin several without
      being one. */
  lemma {:induction false} LongHasArgsRejects(opt: string, longopts: seq<string>)
    ensures LongHasArgs(opt, longopts) == GetoptError(NotRecognized, opt) <==>
            forall o :: o in longopts ==> !(opt <= o)
    ensures LongHasArgs(opt, longopts) == GetoptError(NotUnique, opt) <==>
            Ambiguous(opt, longopts) && opt !in longopts && opt + "=" !in longopts
    ensures LongHasArgs(opt, longopts).GetoptError? ==>
              LongHasArgs(opt, longopts).opt == opt
              && (LongHasArgs(opt, longopts).kind.NotRecognized? || LongHasArgs(opt, longopts).kind.NotUnique?)
  {
    SeveralPossibilities(opt, longopts);
    var possibilities := Possibilities(opt, longopts);
    if possibilities != [] {
      assert possibilities[0] in possibilities;
    }
    assert opt <= opt + "=";
  }

  /** Exactly which short options are accepted, and that the first declaration decides about the argument. */
  lemma {:induction false} ShortHasArgExactly(opt: char, shortopts: string)
    ensures ShortHasArg(opt, shortopts).Ok? <==> opt in shortopts && opt != ':'
    ensures ShortHasArg(opt, shortopts).Ok? ==>
              var k := IndexOf(shortopts, opt);
              k < |shortopts| && ShortHasArg(opt, shortopts).value == (k + 1 < |shortopts| && shortopts[k + 1] == ':')
    ensures ShortHasArg(opt, shortopts).GetoptError? ==>
        ShortHasArg(opt, shortopts) == GetoptError(NotRecognized, [opt])
  {
    if shortopts != "" && !(opt == shortopts[0] && shortopts[0] != ':') {
      ShortHasArgExactly(opt, shortopts[1..]);
      assert shortopts == [shortopts[0]] + shortopts[1..];
    }
  }

  lemma {:induction false} DoLongsValid(text: string, shortopts: string, longopts: seq<string>, args: seq<string>)
    requires ProperSpecs(shortopts, longopts) && DoLongs(text, longopts, args).Ok?
    ensures ValidLong(DoLongs(text, longopts, args).value.0, longopts)
  {
    var k := IndexOf(text, '=');
    LongHasArgsValid(text[..k], longopts);
    var opt := DoLongs(text, longopts, args).value.0;
    var name := LongHasArgs(text[..k], longopts).value.1;
    assert opt.0 == "--" + name && opt.0[2..] == name;
  }

  lemma {:induction false} DoShortsValid(text: string, shortopts: string, args: seq<string>)
    requires '-' !in shortopts && DoShorts(text, shortopts, args).Ok?
    ensures forall o :: o in DoShorts(text, shortopts, args).value.0 ==> ValidShort(o, shortopts)
  {
    if text != "" {
      ShortHasArgExactly(text[0], shortopts);
      if !ShortHasArg(text[0], shortopts).value {
        DoShortsValid(text[1..], shortopts, args);
      }
    }
  }

  /** Every option that a successful parse returns is a declared one under its full name, with an argument only if it
      takes one. */
  lemma {:induction false} ScanValid(args: seq<string>, shortopts: string, longopts: seq<string>, optionsFirst: bool)
    requires ProperSpecs(shortopts, longopts) && Scan(args, shortopts, longopts, optionsFirst).Ok?
    ensures forall o :: o in Scan(args, shortopts, longopts, optionsFirst).value.opts ==>
        ValidOpt(o, shortopts, longopts)
    decreases |args|
  {
    if args == [] || args[0] == "--" {
    } else if IsLong(args[0]) {
      DoLongsValid(args[0][2..], shortopts, longopts, args[1..]);
      ScanValid(DoLongs(args[0][2..], longopts, args[1..]).value.1, shortopts, longopts, optionsFirst);
    } else if IsShort(args[0]) {
      DoShortsValid(args[0][1..], shortopts, args[1..]);
      DoShortsShrinks(args[0][1..], shortopts, args[1..]);
      ScanValid(DoShorts(args[0][1..], shortopts, args[1..]).value.1, shortopts, longopts, optionsFirst);
    } else if !optionsFirst {
      ScanValid(args[1..], shortopts, longopts, optionsFirst);
    }
  }

  predicate TakesArg(name: string, shortopts: string, longopts: seq<string>) {
    if IsLong(name) then name[2..] !in longopts else |name| == 2 && ShortHasArg(name[1], shortopts) == Ok(true)
  }

  function PrintOpt(opt: Opt, shortopts: string, longopts: seq<string>): seq<string> {
    if TakesArg(opt.0, shortopts, longopts) then [opt.0, opt.1] else [opt.0]
  }

  /** The options under their full names, then "--", then the program arguments. */
  function Print(opts: seq<Opt>, args: seq<string>, shortopts: string, longopts: seq<string>): seq<string> {
    if opts == [] then ["--"] + args
        else PrintOpt(opts[0], shortopts, longopts) + Print(opts[1..], args, shortopts, longopts)
  }

  lemma {:induction false} FullNameLong(name: string, longopts: seq<string>, args: seq<string>)
    requires name != "" && '=' !in name && (name in longopts || name + "=" in longopts)
    ensures DoLongs(name, longopts, args) ==
      if name in longopts then Ok((("--" + name, ""), args))
      else if args == [] then GetoptError(RequiresArgument, name)
      else Ok((("--" + name, args[0]), args[1..]))
  {
    assert IndexOf(name, '=') == |name|;
    assert name[..|name|] == name;
    if name in longopts {
      assert name in Possibilities(name, longopts);
    } else {
      assert name + "=" in Possibilities(name, longopts);
    }
  }

  lemma {:induction false} PrintedLongParses(
    opt: Opt, rest: seq<string>, shortopts: string, longopts: seq<string>, optionsFirst: bool)
    requires ValidLong(opt, longopts)
    ensures Scan(PrintOpt(opt, shortopts, longopts) + rest, shortopts, longopts, optionsFirst) ==
      Before([opt], [], Scan(rest, shortopts, longopts, optionsFirst))
  {
    var name := opt.0[2..];
    assert opt.0 == "--" + name && opt.0 != "--";
    var args := PrintOpt(opt, shortopts, longopts) + rest;
    assert args[1..] == if name in longopts then rest else [opt.1] + rest;
    FullNameLong(name, longopts, args[1..]);
    assert name !in longopts ==> args[1..][1..] == rest;
  }

  lemma {:induction false} PrintedShortParses(
    opt: Opt, rest: seq<string>, shortopts: string, longopts: seq<string>, optionsFirst: bool)
    requires ValidShort(opt, shortopts)
    ensures Scan(PrintOpt(opt, shortopts, longopts) + rest, shortopts, longopts, optionsFirst) ==
      Before([opt], [], Scan(rest, shortopts, longopts, optionsFirst))
  {
    var c := opt.0[1];
    var takes := ShortHasArg(c, shortopts).value;
    assert opt.0 == "-" + [c] && opt.0[1..] == [c] && [c][1..] == "";
    assert !IsLong(opt.0) && IsShort(opt.0);
    var args := PrintOpt(opt, shortopts, longopts) + rest;
    assert args[1..] == if takes then [opt.1] + rest else rest;
    assert takes ==> args[1..][1..] == rest;
    if takes {
      assert DoShorts([c], shortopts, args[1..]) == Ok(([opt], rest));
    } else {
      assert DoShorts("", shortopts, rest) == Ok(([], rest));
      assert [opt] + [] == [opt];
      assert DoShorts([c], shortopts, rest) == Ok(([opt], rest));
    }
  }

  lemma {:induction false} PrintParses(
    opts: seq<Opt>, args: seq<string>, shortopts: string, longopts: seq<string>, optionsFirst: bool)
    requires forall o :: o in opts ==> ValidOpt(o, shortopts, longopts)
    ensures Scan(Print(opts, args, shortopts, longopts), shortopts, longopts, optionsFirst) == Ok(Parsed(opts, args))
  {
    if opts == [] {
      assert (["--"] + args)[1..] == args;
    } else {
      var rest := Print(opts[1..], args, shortopts, longopts);
      PrintParses(opts[1..], args, shortopts, longopts, optionsFirst);
      assert opts[0] in opts;
      if ValidLong(opts[0], longopts) {
        PrintedLongParses(opts[0], rest, shortopts, longopts, optionsFirst);
      } else {
        PrintedShortParses(opts[0], rest, shortopts, longopts, optionsFirst);
      }
      assert opts == [opts[0]] + opts[1..] && [] + args == args;
    }
  }

  /** A lone "-" is taken for an empty cluster of short options, and vanishes. */
  lemma {:induction false} LoneDashVanishes(
    args: seq<string>, shortopts: string, longopts: seq<string>, optionsFirst: bool)
    ensures Scan(["-"] + args, shortopts, longopts, optionsFirst) == Scan(args, shortopts, longopts, optionsFirst)
  {
    assert (["-"] + args)[1..] == args;
    assert DoShorts("", shortopts, args) == Ok(([], args));
    BeforeNothing(Scan(args, shortopts, longopts, optionsFirst));
  }

  // ---- What the other forms stand for ----

  lemma {:induction false} IndexOfFirst(name: string, value: string)
    requires '=' !in name
    ensures IndexOf(name + "=" + value, '=') == |name|
    ensures (name + "=" + value)[..|name|] == name && (name + "=" + value)[|name| + 1..] == value
  {
    var text := name + "=" + value;
    assert text[|name|] == '=';
    assert forall i :: 0 <= i < |name| ==> text[i] == name[i];
  }

  /** --name=value gives the option that value, everything after the first "="; for an option without an argument, only
      an empty value is accepted. */
  lemma {:induction false} AttachedLong(name: string, value: string, longopts: seq<string>, args: seq<string>)
    requires name != "" && '=' !in name && (name in longopts || name + "=" in longopts)
    ensures DoLongs(name + "=" + value, longopts, args)
            == if name !in longopts then Ok((("--" + name, value), args))
               else if value == "" then Ok((("--" + name, ""), args))
               else GetoptError(MustNotHaveArgument, name)
  {
    IndexOfFirst(name, value);
    assert name in longopts ==> name in Possibilities(name, longopts);
    assert name + "=" in longopts ==> name + "=" in Possibilities(name, longopts);
  }

  /** In the argument list it is one option, and the rest is parsed as it would be alone. */
  lemma {:induction false} AttachedLongParses(
    name: string, value: string, rest: seq<string>, shortopts: string, longopts: seq<string>, optionsFirst: bool)
    requires name != "" && '=' !in name && name !in longopts && name + "=" in longopts
    ensures Scan(["--" + name + "=" + value] + rest, shortopts, longopts, optionsFirst)
            == Before([("--" + name, value)], [], Scan(rest, shortopts, longopts, optionsFirst))
  {
    var args := ["--" + name + "=" + value] + rest;
    AttachedLong(name, value, longopts, rest);
    assert args[1..] == rest && args[0][2..] == name + "=" + value && args[0] != "--";
  }

  /** An abbreviation that begins one declared name only stands for that name. */
  lemma {:induction false} AbbreviationStandsForName(opt: string, entry: string, longopts: seq<string>)
    requires entry in longopts && opt <= LongName(entry) && '=' !in LongName(entry) && LongName(entry) != ""
    requires !Ambiguous(opt, longopts)
    ensures LongHasArgs(opt, longopts) == LongHasArgs(LongName(entry), longopts)
            == Ok((LongName(entry) != entry, LongName(entry)))
  {
    var name := LongName(entry);
    assert entry == name || entry == name + "=";
    assert opt <= entry && entry in Possibilities(opt, longopts) && entry in Possibilities(name, longopts);
    SeveralPossibilities(opt, longopts);
    var possibilities := Possibilities(opt, longopts);
    assert possibilities == [possibilities[0]] && possibilities[0] == entry;
    forall o | o in longopts && opt <= o ensures o == entry {
      assert o in possibilities;
    }
    assert forall o :: o in Possibilities(name, longopts) ==> opt <= o;
    if name + "=" == entry {
      assert name !in longopts;
    }
    if opt + "=" == entry {
      assert opt == name;
    }
  }

  /** A cluster of short options: the first, if it takes no argument, and the others; one that takes an argument takes
      the rest of the cluster, or else the next of the arguments, and its absence is an error. */
  lemma {:induction false} ClusterExactly(c: char, text: string, shortopts: string, args: seq<string>)
    requires c in shortopts && c != ':'
    ensures var k := IndexOf(shortopts, c);
            var takes := k + 1 < |shortopts| && shortopts[k + 1] == ':';
            DoShorts([c] + text, shortopts, args)
            == if takes then
                 if text != "" then Ok(([("-" + [c], text)], args))
                 else if args != [] then Ok(([("-" + [c], args[0])], args[1..]))
                 else GetoptError(RequiresArgument, [c])
               else
                 match DoShorts(text, shortopts, args)
                 case GetoptError(kind, o) => GetoptError(kind, o)
                 case Ok((opts, rest)) => Ok(([("-" + [c], "")] + opts, rest))
  {
    ShortHasArgExactly(c, shortopts);
    assert ([c] + text)[0] == c && ([c] + text)[1..] == text;
  }

  /** -ovalue is one option with that value. */
  lemma {:induction false} AttachedShortParses(
    c: char, value: string, rest: seq<string>, shortopts: string, longopts: seq<string>, optionsFirst: bool)
    requires c != '-' && value != "" && ShortHasArg(c, shortopts) == Ok(true)
    ensures Scan(["-" + [c] + value] + rest, shortopts, longopts, optionsFirst)
            == Before([("-" + [c], value)], [], Scan(rest, shortopts, longopts, optionsFirst))
  {
    var arg := "-" + [c] + value;
    var args := [arg] + rest;
    assert args[1..] == rest && arg[1..] == [c] + value && arg[1] == c;
    ShortHasArgExactly(c, shortopts);
    ClusterExactly(c, value, shortopts, rest);
  }

  /** Arguments that are no options: "--" ends the options; before it, an argument without "-" is a program argument,
      and with "+" the first of these ends the options as well. */
  lemma {:induction false} ProgramArguments(
    arg: string, rest: seq<string>, shortopts: string, longopts: seq<string>, optionsFirst: bool)
    ensures Scan(["--"] + rest, shortopts, longopts, optionsFirst) == Ok(Parsed([], rest))
    ensures !("-" <= arg) ==>
              Scan([arg] + rest, shortopts, longopts, optionsFirst)
              == if optionsFirst then Ok(Parsed([], [arg] + rest))
                 else Before([], [arg], Scan(rest, shortopts, longopts, optionsFirst))
    ensures Scan([], shortopts, longopts, optionsFirst) == Ok(Parsed([], []))
  {
    assert (["--"] + rest)[1..] == rest && ([arg] + rest)[1..] == rest;
    assert "--" <= arg ==> "-" <= arg;
  }

  /** The first character of the short options, if it is "+", is no option but this switch. */
  lemma {:induction false} PlusSwitches(args: seq<string>, shortopts: string, longopts: seq<string>)
    ensures GnuGetopt(args, "+" + shortopts, longopts) == Scan(args, shortopts, longopts, true)
    ensures !("+" <= shortopts) ==> GnuGetopt(args, shortopts, longopts) == Scan(args, shortopts, longopts, false)
  {
    assert ("+" + shortopts)[1..] == shortopts;
  }

  /** Parse, print canonically, parse again: the same result, for every accepted argument list. */
  lemma {:induction false} ParsePrintParse(args: seq<string>, shortopts: string, longopts: seq<string>)
    requires ProperSpecs(Stripped(shortopts), longopts) && GnuGetopt(args, shortopts, longopts).Ok?
    ensures var p := GnuGetopt(args, shortopts, longopts).value;
      GnuGetopt(Print(p.opts, p.args, Stripped(shortopts), longopts), shortopts, longopts) == Ok(p)
  {
    var p := GnuGetopt(args, shortopts, longopts).value;
    ScanValid(args, Stripped(shortopts), longopts, "+" <= shortopts);
    PrintParses(p.opts, p.args, Stripped(shortopts), longopts, "+" <= shortopts);
  }
}
