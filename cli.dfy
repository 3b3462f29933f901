/**
 * The `certhook <app> <cert_name> [--verbose]` entry point: parse the
 * arguments the way the argument parser does for this one grammar, look the
 * application up in the registry, build its manager and run it once.
 */
module Cli {
  import opened Wrappers
  import opened Process
  import opened Paths
  import Base
  import Unifi
  import Emby
  import FreePBX
  import PiHole

  /** The four manager classes of the registry. */
  datatype ManagerClass = UnifiManager | PiHoleManager | EmbyManager | FreePBXManager

  /** `APP_MANAGERS`: application name to manager class. */
  const AppManagers: map<string, ManagerClass> :=
    map["unifi" := UnifiManager, "pihole" := PiHoleManager,
        "emby" := EmbyManager, "freepbx" := FreePBXManager]

  function AppName(m: ManagerClass): string {
    match m
    case UnifiManager => "unifi"
    case PiHoleManager => "pihole"
    case EmbyManager => "emby"
    case FreePBXManager => "freepbx"
  }

  /** The registry has exactly four entries, one per class, and `AppName` reads it backwards. */
  lemma RegistryIsBijective()
    ensures |AppManagers| == 4
    ensures forall m: ManagerClass :: AppName(m) in AppManagers && AppManagers[AppName(m)] == m
    ensures forall app :: app in AppManagers ==> AppName(AppManagers[app]) == app
  {
    assert AppManagers.Keys == {"unifi", "pihole", "emby", "freepbx"};
  }

  // ---- Argument parsing ----

  predicate IsDigit(c: char) {
    '0' <= c <= '9'
  }

  predicate AllDigits(s: string) {
    forall i :: 0 <= i < |s| ==> IsDigit(s[i])
  }

  /** The parser's negative-number pattern: `-` then digits, or digits, a point and digits. */
  predicate NegativeNumber(t: string) {
    && |t| >= 2 && t[0] == '-'
    && (|| AllDigits(t[1..])
        || exists k :: 1 <= k < |t| - 1 && t[k] == '.' && AllDigits(t[1..k]) && AllDigits(t[k + 1..]))
  }

  /** `--verbose` or one of its unambiguous abbreviations `--v` ... `--verbos`. */
  predicate IsVerboseFlag(t: string) {
    3 <= |t| <= 9 && t == "--verbose"[..|t|]
  }

  /** `-h`, `--help` or one of its abbreviations `--h` ... `--hel`. */
  predicate IsHelpFlag(t: string) {
    t == "-h" || (3 <= |t| <= 6 && t == "--help"[..|t|])
  }

  /** The part of a token before its first `=`, or the whole token when it has none. */
  function BeforeEquals(t: string): (p: string)
    ensures |p| <= |t| && p == t[..|p|] && '=' !in p
    ensures |p| < |t| ==> t[|p|] == '='
    ensures '=' in t <==> |p| < |t|
  {
    if t == [] || t[0] == '=' then [] else [t[0]] + BeforeEquals(t[1..])
  }

  /** The part before `=` of `<p>=<rest>` is `p` when `p` holds no `=`. */
  lemma {:induction false} BeforeEqualsOf(p: string, rest: string)
    requires '=' !in p
    ensures BeforeEquals(p + "=" + rest) == p
  {
    if p != [] {
      assert (p + "=" + rest)[0] == p[0];
      assert (p + "=" + rest)[1..] == p[1..] + "=" + rest;
      assert p[0] in p;
      BeforeEqualsOf(p[1..], rest);
      assert [p[0]] + p[1..] == p;
    } else {
      assert (p + "=" + rest)[0] == '=';
    }
  }

  /** How the parser reads one token. */
  datatype Kind =
    | Value        // a positional value
    | VerboseOpt   // `--verbose`
    | HelpOpt      // `-h` or `--help`
    | AttachedArg  // a known option written with an argument it does not take
    | AmbiguousOpt // a long-option prefix that both `--help` and `--verbose` start with
    | UnknownOpt   // an option string the parser does not know

  /** What follows `-h` in a token `-h<rest>`: `rest` without its leading `=`, if it has one. */
  function HelpAttachment(t: string): (e: string)
    requires |t| > 2
    ensures |e| < |t| - 1
  {
    if t[2] == '=' then t[3..] else t[2..]
  }

  /**
   * `-h` followed only by further `h`s, directly or after one `=`: every
   * extra `h` is read as one more `-h`.
   */
  predicate RepeatedHelp(t: string)
    requires |t| > 2
  {
    var e := HelpAttachment(t);
    |e| > 0 && forall i :: 0 <= i < |e| ==> e[i] == 'h'
  }

  /**
   * The tests of the parser's option reader, in its order: a token that does
   * not start with a dash is a value; a known option or an abbreviation of a
   * long one is that option; a lone dash is a value; a single-dash token
   * that starts with `-h` is `-h` with the rest attached; a long token whose
   * part before `=` is `--` is ambiguous, and one whose part before `=`
   * names a long option is that option with an attached argument; only
   * then is a negative number, or a token with a space, a value, and any
   * other dash-led token an unknown option.
   */
  function Classify(t: string): Kind {
    if |t| == 0 || t[0] != '-' then Value
    else if IsHelpFlag(t) then HelpOpt
    else if IsVerboseFlag(t) then VerboseOpt
    else if |t| == 1 then Value
    else if t[1] != '-' then
      if t[1] == 'h' then (if |t| > 2 && RepeatedHelp(t) then HelpOpt else AttachedArg)
      else if NegativeNumber(t) || ' ' in t then Value
      else UnknownOpt
    else if '=' in t && BeforeEquals(t) == "--" then AmbiguousOpt
    else if '=' in t && (IsVerboseFlag(BeforeEquals(t)) || IsHelpFlag(BeforeEquals(t))) then AttachedArg
    else if ' ' in t then Value
    else UnknownOpt
  }

  /** A token the parser reads as an option string; everything else is a positional value. */
  predicate IsOption(t: string) {
    Classify(t) != Value
  }

  /** Exactly the spellings of `--verbose` read as `--verbose`; every spelling of `-h` and `--help` reads as help. */
  lemma KnownFlags(t: string)
    ensures Classify(t) == VerboseOpt <==> IsVerboseFlag(t)
    ensures IsHelpFlag(t) ==> Classify(t) == HelpOpt
  {
    if IsVerboseFlag(t) {
      assert t[0] == "--verbose"[0];
      assert t[2] == "--verbose"[2];
    }
  }

  /**
   * The option tests come before the space and negative-number tests: a
   * single-dash token that starts with `-h` is never a positional value,
   * whatever else it holds.
   */
  lemma HelpPrefixIsOption(t: string)
    requires |t| > 2 && t[0] == '-' && t[1] == 'h'
    ensures Classify(t) == HelpOpt || Classify(t) == AttachedArg
  {
  }

  /** No spelling of a known option holds `=`. */
  lemma FlagsHoldNoEquals(t: string)
    requires IsVerboseFlag(t) || IsHelpFlag(t)
    ensures '=' !in t
  {
    forall i | 0 <= i < |t|
      ensures t[i] != '='
    {
      if IsVerboseFlag(t) {
        assert t[i] == "--verbose"[i];
      } else if t != "-h" {
        assert t[i] == "--help"[i];
      }
    }
  }

  /**
   * `--verbose=<v>`, `--help=<v>` and their abbreviations with `=<v>` are
   * the option with an attached argument, whatever `v` holds, spaces
   * included.
   */
  lemma LongAttachedIsOption(p: string, v: string)
    requires (IsVerboseFlag(p) || IsHelpFlag(p)) && p != "-h"
    ensures Classify(p + "=" + v) == AttachedArg
  {
    var t := p + "=" + v;
    FlagsHoldNoEquals(p);
    BeforeEqualsOf(p, v);
    assert 3 <= |p| && t[|p|] == '=';
    assert p[0] == '-' && p[1] == '-' by {
      if IsVerboseFlag(p) {
        assert p[0] == "--verbose"[0] && p[1] == "--verbose"[1];
      } else {
        assert p[0] == "--help"[0] && p[1] == "--help"[1];
      }
    }
    assert t[0] == p[0] && t[1] == p[1];
    if IsHelpFlag(t) || IsVerboseFlag(t) {
      FlagsHoldNoEquals(t);
    }
  }

  /** The positional values, in order. */
  function Positionals(argv: seq<string>): (pos: seq<string>)
    ensures |pos| <= |argv|
    ensures forall t :: t in pos ==> t in argv && !IsOption(t)
  {
    if argv == [] then []
    else if IsOption(argv[0]) then Positionals(argv[1..])
    else [argv[0]] + Positionals(argv[1..])
  }

  /**
   * What the parser cannot place, in order: unknown options, and positional
   * values after the first two (`seen` counts the positionals already read).
   */
  function Extras(argv: seq<string>, seen: nat): seq<string> {
    if argv == [] then []
    else if Classify(argv[0]) == UnknownOpt then [argv[0]] + Extras(argv[1..], seen)
    else if IsOption(argv[0]) then Extras(argv[1..], seen)
    else (if seen >= 2 then [argv[0]] else []) + Extras(argv[1..], seen + 1)
  }

  /**
   * The first ambiguous token. The parser reads every token's option string
   * before it consumes any, so this error wins over every other.
   */
  function FirstAmbiguous(argv: seq<string>): (r: Option<string>)
    ensures r.Some? ==> r.value in argv && Classify(r.value) == AmbiguousOpt
    ensures r.None? <==> forall t :: t in argv ==> Classify(t) != AmbiguousOpt
  {
    if argv == [] then None
    else if Classify(argv[0]) == AmbiguousOpt then Some(argv[0])
    else
      assert forall t :: t in argv ==> t == argv[0] || t in argv[1..];
      FirstAmbiguous(argv[1..])
  }

  /** An event that ends parsing on the spot, before the end-of-input checks. */
  datatype Stop = HelpStop | InvalidStop(value: string) | AttachedStop(option: string)

  /**
   * Tokens are consumed left to right: a help flag prints help and exits at
   * once, an option with an attached argument it does not take is an error
   * at once, and the first positional is checked against the choices when
   * it is consumed. `seen` counts the positionals already read.
   */
  function FirstStop(argv: seq<string>, seen: nat): Option<Stop> {
    if argv == [] then None
    else if Classify(argv[0]) == HelpOpt then Some(HelpStop)
    else if Classify(argv[0]) == AttachedArg then Some(AttachedStop(argv[0]))
    else if IsOption(argv[0]) then FirstStop(argv[1..], seen)
    else if seen == 0 && argv[0] !in AppManagers then Some(InvalidStop(argv[0]))
    else FirstStop(argv[1..], seen + 1)
  }

  datatype Args = Args(app: string, certName: string, verbose: bool)

  datatype UsageError =
    | AmbiguousOption(option: string)
    | IgnoredExplicitArgument(option: string)
    | InvalidChoice(value: string)
    | MissingArguments(names: seq<string>)
    | UnrecognizedArguments(extras: seq<string>)

  datatype Parsed = Run(args: Args) | Help | Usage(error: UsageError)

  /** `parse_args` for the grammar `app cert_name [--verbose]`. */
  function Parse(argv: seq<string>): Parsed {
    match FirstAmbiguous(argv)
    case Some(t) => Usage(AmbiguousOption(t))
    case None =>
      match FirstStop(argv, 0)
      case Some(HelpStop) => Help
      case Some(AttachedStop(t)) => Usage(IgnoredExplicitArgument(t))
      case Some(InvalidStop(v)) => Usage(InvalidChoice(v))
      case None =>
        var pos := Positionals(argv);
        if |pos| == 0 then Usage(MissingArguments(["app", "cert_name"]))
        else if |pos| == 1 then Usage(MissingArguments(["cert_name"]))
        else if Extras(argv, 0) != [] then Usage(UnrecognizedArguments(Extras(argv, 0)))
        else Run(Args(pos[0], pos[1], exists t | t in argv :: Classify(t) == VerboseOpt))
  }

  lemma {:induction false} NoStopMeansValidApp(argv: seq<string>, seen: nat)
    requires FirstStop(argv, seen) == None
    ensures seen == 0 && |Positionals(argv)| > 0 ==> Positionals(argv)[0] in AppManagers
    ensures forall t :: t in argv ==> Classify(t) != HelpOpt && Classify(t) != AttachedArg
    decreases |argv|
  {
    if argv != [] {
      NoStopMeansValidApp(argv[1..], if IsOption(argv[0]) then seen else seen + 1);
      assert forall t :: t in argv ==> t == argv[0] || t in argv[1..];
    }
  }

  lemma {:induction false} NoExtrasMeansKnownOptions(argv: seq<string>, seen: nat)
    requires Extras(argv, seen) == []
    ensures forall t :: t in argv ==> Classify(t) != UnknownOpt
    ensures |Positionals(argv)| > 0 ==> seen + |Positionals(argv)| <= 2
    decreases |argv|
  {
    if argv != [] {
      NoExtrasMeansKnownOptions(argv[1..], if IsOption(argv[0]) then seen else seen + 1);
      assert forall t :: t in argv ==> t == argv[0] || t in argv[1..];
    }
  }

  /**
   * A successful parse names a registered application and the certificate,
   * which are the only two positional values in order; every option is a
   * spelling of `--verbose`, and `verbose` is set exactly when one appears.
   */
  lemma ParseRunMeaning(argv: seq<string>)
    requires Parse(argv).Run?
    ensures var a := Parse(argv).args;
            && a.app in AppManagers
            && Positionals(argv) == [a.app, a.certName]
            && (forall t :: t in argv && IsOption(t) ==> IsVerboseFlag(t))
            && (a.verbose <==> exists t :: t in argv && IsVerboseFlag(t))
  {
    NoStopMeansValidApp(argv, 0);
    NoExtrasMeansKnownOptions(argv, 0);
    forall t | t in argv
      ensures Classify(t) == VerboseOpt <==> IsVerboseFlag(t)
    {
      KnownFlags(t);
    }
  }

  /** Parsing stops for help only at a help token. */
  lemma {:induction false} HelpStopNeedsFlag(argv: seq<string>, seen: nat)
    requires FirstStop(argv, seen) == Some(HelpStop)
    ensures exists t :: t in argv && Classify(t) == HelpOpt
    decreases |argv|
  {
    if Classify(argv[0]) != HelpOpt {
      HelpStopNeedsFlag(argv[1..], if IsOption(argv[0]) then seen else seen + 1);
      var t :| t in argv[1..] && Classify(t) == HelpOpt;
      assert t in argv;
    } else {
      assert argv[0] in argv;
    }
  }

  /** Help is shown only when the command line holds a help token. */
  lemma HelpNeedsFlag(argv: seq<string>)
    requires Parse(argv).Help?
    ensures exists t :: t in argv && Classify(t) == HelpOpt
  {
    HelpStopNeedsFlag(argv, 0);
  }

  /**
   * Without help tokens and attached arguments, parsing stops early exactly
   * when the first positional is not a registered application.
   */
  lemma {:induction false} StopIsChoice(argv: seq<string>, seen: nat)
    requires forall t :: t in argv ==> Classify(t) != HelpOpt && Classify(t) != AttachedArg
    ensures FirstStop(argv, seen) ==
              if seen == 0 && |Positionals(argv)| > 0 && Positionals(argv)[0] !in AppManagers
              then Some(InvalidStop(Positionals(argv)[0]))
              else None
    decreases |argv|
  {
    if argv != [] {
      assert argv[0] in argv;
      assert forall t :: t in argv[1..] ==> t in argv;
      StopIsChoice(argv[1..], if IsOption(argv[0]) then seen else seen + 1);
    }
  }

  /**
   * With no help token, no attached argument and no ambiguous token, an
   * unregistered application is an invalid choice and fewer than two
   * positionals are missing arguments; either way `main` exits with 2 and
   * leaves the host alone, so no manager is built.
   */
  lemma RejectIsUsage(oracle: Oracle, w: World, argv: seq<string>)
    requires forall t :: t in argv ==>
               Classify(t) != HelpOpt && Classify(t) != AttachedArg && Classify(t) != AmbiguousOpt
    ensures var pos := Positionals(argv);
            && (|pos| > 0 && pos[0] !in AppManagers ==> Parse(argv) == Usage(InvalidChoice(pos[0])))
            && (|pos| == 0 ==> Parse(argv) == Usage(MissingArguments(["app", "cert_name"])))
            && (|pos| == 1 && pos[0] in AppManagers ==> Parse(argv) == Usage(MissingArguments(["cert_name"])))
            && (|pos| < 2 || pos[0] !in AppManagers ==>
                  && Invocation(oracle, w, argv).world == w
                  && ExitCode(Invocation(oracle, w, argv).status) == 2)
  {
    StopIsChoice(argv, 0);
    assert FirstAmbiguous(argv) == None;
  }

  /** `certhook invalid example.com` and a bare `certhook` are usage errors. */
  lemma RejectExamples()
    ensures Parse(["invalid", "example.com"]) == Usage(InvalidChoice("invalid"))
    ensures Parse([]) == Usage(MissingArguments(["app", "cert_name"]))
  {
    var argv := ["invalid", "example.com"];
    assert Classify("invalid") == Value && Classify("example.com") == Value;
    assert "invalid" !in AppManagers by {
      assert AppManagers.Keys == {"unifi", "pihole", "emby", "freepbx"};
    }
    assert argv[1..] == ["example.com"];
    assert Positionals(argv) == ["invalid"] + Positionals(["example.com"]);
    StopIsChoice(argv, 0);
    assert FirstAmbiguous(argv) == None;
    assert FirstStop([], 0) == None && FirstAmbiguous([]) == None;
  }

  /** No registered application name reads as an option. */
  lemma AppNamesArePositional()
    ensures forall app :: app in AppManagers ==> !IsOption(app)
  {
    forall app | app in AppManagers
      ensures !IsOption(app)
    {
      assert app in AppManagers.Keys;
      assert AppManagers.Keys == {"unifi", "pihole", "emby", "freepbx"};
      assert app[0] != '-';
    }
  }

  /** The usual command line, `<app> <name> [--verbose]`. */
  function Render(a: Args): seq<string> {
    [a.app, a.certName] + (if a.verbose then ["--verbose"] else [])
  }

  /** Parsing the usual command line gives back what it was made from, and so does `--verbose` first. */
  lemma ParseRender(a: Args)
    requires a.app in AppManagers && !IsOption(a.certName)
    ensures Parse(Render(a)) == Run(a)
    ensures a.verbose ==> Parse(["--verbose", a.app, a.certName]) == Run(a)
  {
    AppNamesArePositional();
    assert !IsOption(a.app);
    if a.verbose {
      assert Render(a) == [a.app, a.certName, "--verbose"];
      VerboseAfter(a.app, a.certName);
      VerboseFirst(a.app, a.certName);
    } else {
      assert Render(a) == [a.app, a.certName];
      PlainLine(a.app, a.certName);
    }
  }

  lemma PlainLine(app: string, name: string)
    requires app in AppManagers && !IsOption(app) && !IsOption(name)
    ensures Parse([app, name]) == Run(Args(app, name, false))
  {
    var argv := [app, name];
    assert FirstAmbiguous(argv) == None;
    var r1 := argv[1..];
    assert r1 == [name] && r1[1..] == [];
    assert FirstStop(r1, 1) == FirstStop(r1[1..], 2) == None;
    assert FirstStop(argv, 0) == FirstStop(r1, 1);
    assert Positionals(r1) == [name] + Positionals(r1[1..]) == [name];
    assert Positionals(argv) == [app] + Positionals(r1);
    assert Extras(r1, 1) == Extras(r1[1..], 2) == [];
    assert Extras(argv, 0) == Extras(r1, 1);
    assert !exists t | t in argv :: Classify(t) == VerboseOpt;
  }

  /** `--verbose` alone: no stop, no positional, nothing left over. */
  lemma FlagAlone(seen: nat)
    ensures Classify("--verbose") == VerboseOpt
    ensures FirstStop(["--verbose"], seen) == None
    ensures Positionals(["--verbose"]) == []
    ensures Extras(["--verbose"], seen) == []
  {
    KnownFlags("--verbose");
    assert ["--verbose"][1..] == [];
  }

  lemma VerboseAfter(app: string, name: string)
    requires app in AppManagers && !IsOption(app) && !IsOption(name)
    ensures Parse([app, name, "--verbose"]) == Run(Args(app, name, true))
  {
    var argv := [app, name, "--verbose"];
    FlagAlone(2);
    assert FirstAmbiguous(argv) == None;
    var r1 := argv[1..];
    assert r1 == [name, "--verbose"] && r1[1..] == ["--verbose"];
    assert FirstStop(r1, 1) == FirstStop(["--verbose"], 2);
    assert FirstStop(argv, 0) == FirstStop(r1, 1);
    assert Positionals(r1) == [name] + Positionals(["--verbose"]);
    assert Positionals(argv) == [app] + Positionals(r1);
    assert Extras(r1, 1) == Extras(["--verbose"], 2);
    assert Extras(argv, 0) == Extras(r1, 1);
    assert argv[2] in argv;
  }

  lemma VerboseFirst(app: string, name: string)
    requires app in AppManagers && !IsOption(app) && !IsOption(name)
    ensures Parse(["--verbose", app, name]) == Run(Args(app, name, true))
  {
    var argv := ["--verbose", app, name];
    FlagAlone(0);
    PlainLine(app, name);
    assert FirstAmbiguous(argv) == None;
    assert argv[1..] == [app, name];
    assert FirstStop(argv, 0) == FirstStop([app, name], 0);
    assert Positionals(argv) == Positionals([app, name]);
    assert Extras(argv, 0) == Extras([app, name], 0);
    assert argv[0] in argv;
  }

  /** Leading `--verbose` flags and unknown options do not change where parsing stops. */
  lemma {:induction false} SkipOptions(before: seq<string>, rest: seq<string>)
    requires forall t :: t in before ==> Classify(t) == VerboseOpt || Classify(t) == UnknownOpt
    ensures FirstStop(before + rest, 0) == FirstStop(rest, 0)
    decreases |before|
  {
    if before != [] {
      assert before[0] in before && (before + rest)[0] == before[0];
      assert (before + rest)[1..] == before[1..] + rest;
      assert IsOption(before[0]);
      assert FirstStop(before + rest, 0) == FirstStop(before[1..] + rest, 0);
      SkipOptions(before[1..], rest);
    } else {
      assert before + rest == rest;
    }
  }

  /**
   * Once every token has been read as an option string without ambiguity,
   * parsing stops at the first help flag or attached argument, unless an
   * unknown application stands before it; `--verbose` flags and unknown
   * options before it make no difference.
   */
  lemma HelpPrecedence(before: seq<string>, after: seq<string>)
    requires forall t :: t in before ==> Classify(t) == VerboseOpt || Classify(t) == UnknownOpt
    requires forall t :: t in after ==> Classify(t) != AmbiguousOpt
    ensures Parse(before + ["-h"] + after) == Help
    ensures forall v :: !IsOption(v) && v !in AppManagers ==>
              Parse(before + [v, "-h"] + after) == Usage(InvalidChoice(v))
    ensures forall t :: Classify(t) == AttachedArg ==>
              Parse(before + [t] + after) == Usage(IgnoredExplicitArgument(t))
  {
    KnownFlags("-h");
    SkipOptions(before, ["-h"] + after);
    assert before + ["-h"] + after == before + (["-h"] + after);
    assert FirstAmbiguous(before + ["-h"] + after) == None;
    forall v | !IsOption(v) && v !in AppManagers
      ensures Parse(before + [v, "-h"] + after) == Usage(InvalidChoice(v))
    {
      SkipOptions(before, [v, "-h"] + after);
      assert before + [v, "-h"] + after == before + ([v, "-h"] + after);
      assert FirstAmbiguous(before + [v, "-h"] + after) == None;
    }
    forall t | Classify(t) == AttachedArg
      ensures Parse(before + [t] + after) == Usage(IgnoredExplicitArgument(t))
    {
      SkipOptions(before, [t] + after);
      assert before + [t] + after == before + ([t] + after);
      assert FirstAmbiguous(before + [t] + after) == None;
    }
  }

  /** An ambiguous long-option prefix anywhere is a usage error that names it, even after `-h`. */
  lemma AmbiguityWins(argv: seq<string>, i: nat)
    requires i < |argv| && Classify(argv[i]) == AmbiguousOpt
    ensures Parse(argv).Usage? && Parse(argv).error.AmbiguousOption?
    ensures Parse(argv).error.option in argv && Classify(Parse(argv).error.option) == AmbiguousOpt
  {
    assert argv[i] in argv;
  }

  /** `unifi "-h x"`: the parser reads `-h` with the argument ` x` attached, an error. */
  lemma SpacedHelpIsAttached()
    ensures Parse(["unifi", "-h x"]) == Usage(IgnoredExplicitArgument("-h x"))
  {
    var argv := ["unifi", "-h x"];
    HelpPrefixIsOption("-h x");
    assert HelpAttachment("-h x")[0] == ' ';
    assert Classify("-h x") == AttachedArg;
    assert Classify("unifi") == Value && "unifi" in AppManagers;
    assert argv[1..] == ["-h x"];
    assert FirstAmbiguous(argv) == None;
    assert FirstStop(argv, 0) == FirstStop(["-h x"], 1) == Some(AttachedStop("-h x"));
  }

  /** `--verbose=<v> -h`: the attached argument is an error before `-h` is reached. */
  lemma VerboseValueIsAttached(v: string)
    ensures Parse(["--verbose=" + v, "-h"]) == Usage(IgnoredExplicitArgument("--verbose=" + v))
  {
    KnownFlags("--verbose");
    LongAttachedIsOption("--verbose", v);
    assert "--verbose" + "=" + v == "--verbose=" + v;
    HelpPrecedence([], ["-h"]);
    assert [] + ["--verbose=" + v] + ["-h"] == ["--verbose=" + v, "-h"];
  }

  /** `unifi -hh`: each `h` is one more `-h`, so the parser shows help. */
  lemma RepeatedHelpIsHelp()
    ensures Parse(["unifi", "-hh"]) == Help
  {
    var argv := ["unifi", "-hh"];
    HelpPrefixIsOption("-hh");
    assert HelpAttachment("-hh") == "h";
    assert Classify("-hh") == HelpOpt;
    assert Classify("unifi") == Value && "unifi" in AppManagers;
    assert argv[1..] == ["-hh"];
    assert FirstAmbiguous(argv) == None;
    assert FirstStop(argv, 0) == FirstStop(["-hh"], 1) == Some(HelpStop);
  }

  /** `-h --=x`: the ambiguous prefix `--` is rejected before `-h` is consumed. */
  lemma AmbiguousBeforeHelp()
    ensures Parse(["-h", "--=x"]) == Usage(AmbiguousOption("--=x"))
  {
    var argv := ["-h", "--=x"];
    var t := "--=x";
    assert t == "--" + "=" + "x";
    BeforeEqualsOf("--", "x");
    assert !IsHelpFlag(t) && !IsVerboseFlag(t);
    assert Classify(t) == AmbiguousOpt;
    KnownFlags("-h");
    assert argv[1..] == [t];
    assert FirstAmbiguous(argv) == FirstAmbiguous([t]) == Some(t);
  }

  // ---- Running the selected manager ----

  /** The list of commands each command-list manager builds; Pi-hole builds none. */
  function AppCommands(m: ManagerClass, name: string): seq<Command> {
    match m
    case UnifiManager => Unifi.Commands(name)
    case EmbyManager => Emby.Commands(name)
    case FreePBXManager => FreePBX.Commands(name)
    case PiHoleManager => []
  }

  /** Different applications, or different certificates, never hand the same command list to the host. */
  lemma AppCommandsInjective(m1: ManagerClass, n1: string, m2: ManagerClass, n2: string)
    requires m1 != PiHoleManager && m2 != PiHoleManager
    requires AppCommands(m1, n1) == AppCommands(m2, n2)
    ensures m1 == m2 && n1 == n2
  {
    var c1, c2 := AppCommands(m1, n1), AppCommands(m2, n2);
    if m1 != m2 {
      assert false;
    }
    match m1
    case UnifiManager => Unifi.CommandsInjective(n1, n2);
    case EmbyManager => Emby.CommandsInjective(n1, n2);
    case FreePBXManager => FreePBX.CommandsInjective(n1, n2);
  }

  /** `manager_class(cert_name=..., verbose=...)` followed by `manager()`. */
  function Dispatch(oracle: Oracle, w: World, a: Args): Outcome
    requires a.app in AppManagers
  {
    match AppManagers[a.app]
    case PiHoleManager =>
      PiHole.Deploy(oracle, w, a.verbose, a.certName, PiHole.DefaultUser, PiHole.DefaultGroup, LiveDir(a.certName))
    case m => Base.RunAll(oracle, w, a.verbose, a.certName, AppCommands(m, a.certName))
  }

  /** How the process ends: normally, after help, on a usage error, or on an uncaught exception. */
  datatype Status = Done | HelpShown | UsageFailure(usage: UsageError) | Raised(error: Error)

  /** `sys.exit(main())` with `main` returning nothing; usage errors exit 2, a traceback exits 1. */
  function ExitCode(s: Status): int {
    match s
    case Done => 0
    case HelpShown => 0
    case UsageFailure(_) => 2
    case Raised(_) => 1
  }

  datatype CliOutcome = CliOutcome(world: World, status: Status)

  /** `main`: parse, and on success dispatch to the selected manager. */
  function Invocation(oracle: Oracle, w: World, argv: seq<string>): CliOutcome {
    match Parse(argv)
    case Help => CliOutcome(w, HelpShown)
    case Usage(e) => CliOutcome(w, UsageFailure(e))
    case Run(a) =>
      ParseRunMeaning(argv);
      var o := Dispatch(oracle, w, a);
      CliOutcome(o.world, if o.result.Ok? then Done else Raised(o.result.error))
  }

  /**
   * Help and usage errors touch nothing and exit 0 and 2; a parsed command
   * line exits 0 when the manager returns and 1 when it raises.
   */
  lemma ExitCodeMeaning(oracle: Oracle, w: World, argv: seq<string>)
    ensures var c := Invocation(oracle, w, argv);
            && (Parse(argv).Help? ==> c.world == w && ExitCode(c.status) == 0)
            && (Parse(argv).Usage? ==> c.world == w && ExitCode(c.status) == 2)
            && (Parse(argv).Run? ==>
                  && Parse(argv).args.app in AppManagers
                  && (ExitCode(c.status) == 0 <==> Dispatch(oracle, w, Parse(argv).args).result.Ok?)
                  && (ExitCode(c.status) != 0 ==> ExitCode(c.status) == 1))
  {
    if Parse(argv).Run? {
      ParseRunMeaning(argv);
    }
  }

  /**
   * For Unifi, Emby and FreePBX the run ends normally exactly when each of
   * the application's commands succeeds in turn, and then exactly those
   * commands ran, in order, and certhook itself wrote no file.
   */
  lemma CommandListRun(oracle: Oracle, w: World, argv: seq<string>)
    requires Parse(argv).Run?
    requires Parse(argv).args.app in AppManagers && AppManagers[Parse(argv).args.app] != PiHoleManager
    ensures var a := Parse(argv).args;
            var cmds := AppCommands(AppManagers[a.app], a.certName);
            var c := Invocation(oracle, w, argv);
            && (c.status == Done <==> Base.AllSucceed(oracle, w.log, cmds))
            && (c.status == Done ==> c.world.log == w.log + cmds && c.world.fs == w.fs)
  {
    var a := Parse(argv).args;
    var cmds := AppCommands(AppManagers[a.app], a.certName);
    Base.RunAllOkIff(oracle, w, a.verbose, a.certName, cmds);
    if Base.AllSucceed(oracle, w.log, cmds) {
      Base.RunAllSucceeds(oracle, w, a.verbose, a.certName, cmds);
    }
  }

  /**
   * For Pi-hole the run ends normally exactly when the chain and the key
   * exist, chown succeeds and the restart after it succeeds.
   */
  lemma PiHoleRun(oracle: Oracle, w: World, argv: seq<string>)
    requires Parse(argv).Run?
    requires Parse(argv).args.app in AppManagers && AppManagers[Parse(argv).args.app] == PiHoleManager
    ensures var name := Parse(argv).args.certName;
            var chown := PiHole.ChownCmd(PiHole.DefaultUser, PiHole.DefaultGroup, LiveFile(name, "pihole.pem"));
            (Invocation(oracle, w, argv).status == Done <==>
               && LiveFile(name, "fullchain.pem") in w.fs && LiveFile(name, "privkey.pem") in w.fs
               && Succeeds(oracle(w.log, chown))
               && Succeeds(oracle(w.log + [chown], PiHole.RestartCmd)))
  {
    var a := Parse(argv).args;
    PiHole.CombinedCertPath(a.certName);
    PiHole.DeployOrder(oracle, w, a.verbose, a.certName, PiHole.DefaultUser, PiHole.DefaultGroup, LiveDir(a.certName));
  }

  /** `manager_class(cert_name=args.cert_name, verbose=args.verbose)` then `manager()`. */
  method RunManager(host: Host, a: Args) returns (r: Result<(), Error>)
    requires a.app in AppManagers
    modifies host
    ensures Outcome(host.w, r) == Dispatch(host.oracle, old(host.w), a)
  {
    match AppManagers[a.app] {
      case UnifiManager =>
        var manager := new Unifi.UnifiCertManager(certName := a.certName, verbose := a.verbose);
        r := manager.Call(host);
      case PiHoleManager =>
        var manager := new PiHole.PiHoleCertManager(certName := a.certName, verbose := a.verbose);
        r := manager.Call(host);
      case EmbyManager =>
        var manager := new Emby.EmbyCertManager(certName := a.certName, verbose := a.verbose);
        r := manager.Call(host);
      case FreePBXManager =>
        var manager := new FreePBX.FreePBXCertManager(certName := a.certName, verbose := a.verbose);
        r := manager.Call(host);
    }
  }

  /** `main()`: the host is left alone unless the command line parses. */
  method Invoke(host: Host, argv: seq<string>) returns (status: Status)
    modifies host
    ensures CliOutcome(host.w, status) == Invocation(host.oracle, old(host.w), argv)
  {
    match Parse(argv) {
      case Help => status := HelpShown;
      case Usage(e) => status := UsageFailure(e);
      case Run(a) =>
        ParseRunMeaning(argv);
        var r := RunManager(host, a);
        status := if r.Ok? then Done else Raised(r.error);
    }
  }
}
