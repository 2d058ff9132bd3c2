/**
 * What `new_from_args` promises: the program name and ROM path are never
 * looked at, the first bad argument decides the error, each option sets
 * only its own fields and a later option overrides an earlier one.
 */
module CmdArgsProperties {
  import opened Wrappers
  import opened CmdArgs

  /** With no options the settings are the defaults. */
  lemma ShortArgsGiveDefaults(args: seq<string>)
    requires |args| <= 2
    ensures FromArgs(args) == Ok(New())
    ensures FromArgs(args).value.soundEnabled && FromArgs(args).value.cpuClockSpeed == 600
  {
  }

  /** The first two arguments are never examined. */
  lemma FirstTwoIgnored(a: seq<string>, b: seq<string>)
    requires |a| == |b| >= 2 && a[2..] == b[2..]
    ensures FromArgs(a) == FromArgs(b)
  {
    assert Options(a) == Options(b);
  }

  /** Arguments in two runs: the second run starts from what the first produced, unless it failed. */
  lemma {:induction false} ApplyArgsAppend(s: Settings, a: seq<string>, b: seq<string>)
    ensures ApplyArgs(s, a + b) ==
      match ApplyArgs(s, a)
      case Err(e) => Err(e)
      case Ok(t) => ApplyArgs(t, b)
    decreases |a|
  {
    if |a| > 0 {
      assert (a + b)[0] == a[0];
      assert (a + b)[1..] == a[1..] + b;
      match ApplyArg(s, a[0])
      case Err(_) =>
      case Ok(t) => ApplyArgsAppend(t, a[1..], b);
    } else {
      assert a + b == b;
    }
  }

  /** An argument that fails after the ones before it succeeded is the error, whatever follows. */
  lemma StopsAtFirstError(s: Settings, args: seq<string>, k: nat)
    requires k < |args| && ApplyArgs(s, args[..k]).Ok?
    requires ApplyArg(ApplyArgs(s, args[..k]).value, args[k]).Err?
    ensures ApplyArgs(s, args) == ApplyArg(ApplyArgs(s, args[..k]).value, args[k])
  {
    assert args == args[..k] + args[k..];
    ApplyArgsAppend(s, args[..k], args[k..]);
    ApplyArgsStep(ApplyArgs(s, args[..k]).value, args, k);
  }

  /** Every error comes from one argument, all of whose predecessors were accepted. */
  lemma {:induction false} ErrorHasFirstCause(s: Settings, args: seq<string>)
    requires ApplyArgs(s, args).Err?
    ensures exists k :: (0 <= k < |args| && ApplyArgs(s, args[..k]).Ok? &&
      ApplyArg(ApplyArgs(s, args[..k]).value, args[k]) == ApplyArgs(s, args))
    decreases |args|
  {
    assert args[..0] == [];
    match ApplyArg(s, args[0])
    case Err(_) =>
      assert ApplyArg(ApplyArgs(s, args[..0]).value, args[0]) == ApplyArgs(s, args);
    case Ok(t) =>
      ErrorHasFirstCause(t, args[1..]);
      var k :| 0 <= k < |args[1..]| && ApplyArgs(t, args[1..][..k]).Ok? &&
        ApplyArg(ApplyArgs(t, args[1..][..k]).value, args[1..][k]) == ApplyArgs(t, args[1..]);
      assert args[..k + 1][1..] == args[1..][..k];
      assert ApplyArgs(s, args[..k + 1]) == ApplyArgs(t, args[1..][..k]);
  }

  /** An accepted option changes only the fields it names. */
  lemma OptionSetsOnlyItsField(s: Settings, arg: string)
    requires ApplyArg(s, arg).Ok?
    ensures var t, name := ApplyArg(s, arg).value, Split(arg, ':')[0];
      || (name == "-no_sound" && t == s.(soundEnabled := false))
      || (name == "-clock_speed" && t == s.(cpuClockSpeed := t.cpuClockSpeed))
      || (name == "-window_size" && t == s.(windowSizeX := t.windowSizeX, windowSizeY := t.windowSizeY))
  {
  }

  /** Whether an argument is accepted, its error and the values it sets do not depend on the settings before it. */
  lemma ArgumentIndependentOfSettings(s: Settings, s': Settings, arg: string)
    ensures ApplyArg(s, arg).Ok? <==> ApplyArg(s', arg).Ok?
    ensures ApplyArg(s, arg).Err? ==> ApplyArg(s, arg) == ApplyArg(s', arg)
    ensures ApplyArg(s, arg).Ok? && Split(arg, ':')[0] == "-clock_speed" ==>
      ApplyArg(s, arg).value.cpuClockSpeed == ApplyArg(s', arg).value.cpuClockSpeed
    ensures ApplyArg(s, arg).Ok? && Split(arg, ':')[0] == "-window_size" ==>
      ApplyArg(s, arg).value.windowSizeX == ApplyArg(s', arg).value.windowSizeX &&
      ApplyArg(s, arg).value.windowSizeY == ApplyArg(s', arg).value.windowSizeY
  {
  }

  /** Of two accepted arguments for the same option, the later one wins. */
  lemma LaterOverrides(s: Settings, a: string, b: string)
    requires Split(a, ':')[0] == Split(b, ':')[0] && ApplyArg(s, a).Ok?
    ensures ApplyArgs(s, [a, b]) == ApplyArg(s, b)
  {
    var t := ApplyArg(s, a).value;
    assert [a, b][1..] == [b];
    assert ApplyArgs(t, [b]) == ApplyArg(t, b) by {
      assert [b][1..] == [];
    }
    OptionSetsOnlyItsField(s, a);
    ArgumentIndependentOfSettings(s, t, b);
  }

  /** `-no_sound` turns the sound off. */
  lemma NoSoundArg(s: Settings)
    ensures ApplyArg(s, "-no_sound") == Ok(s.(soundEnabled := false))
  {
    SplitWithoutSeparator("-no_sound", ':');
  }

  /** `-clock_speed:<v>` sets the clock speed to v, or reports v when it is not a u64. */
  lemma ClockSpeedArg(s: Settings, v: string)
    requires ':' !in v
    ensures ApplyArg(s, "-clock_speed" + ":" + v) ==
      match ParseUnsigned(v, U64Limit)
      case None => Err(InvalidArgumentOptionParse("-clock_speed" + ":" + v, v))
      case Some(n) => Ok(s.(cpuClockSpeed := n))
  {
    SplitAtSeparator("-clock_speed", ':', v);
    SplitWithoutSeparator(v, ':');
  }

  /** `-window_size:<w>:<h>` sets the window size, reporting w before h when one is not a u32. */
  lemma WindowSizeArg(s: Settings, w: string, h: string)
    requires ':' !in w && ':' !in h
    ensures var arg := "-window_size" + ":" + w + ":" + h;
      ApplyArg(s, arg) ==
      match ParseUnsigned(w, U32Limit)
      case None => Err(InvalidArgumentOptionParse(arg, w))
      case Some(x) =>
        match ParseUnsigned(h, U32Limit)
        case None => Err(InvalidArgumentOptionParse(arg, h))
        case Some(y) => Ok(s.(windowSizeX := x, windowSizeY := y))
  {
    var arg := "-window_size" + ":" + w + ":" + h;
    assert arg == "-window_size" + [':'] + (w + [':'] + h);
    SplitAtSeparator("-window_size", ':', w + [':'] + h);
    SplitAtSeparator(w, ':', h);
    SplitWithoutSeparator(h, ':');
  }

  /** A `-clock_speed` with two values has one token too many. */
  lemma ClockSpeedCount(s: Settings, a: string, b: string)
    requires ':' !in a && ':' !in b
    ensures var arg := "-clock_speed" + ":" + a + ":" + b;
      ApplyArg(s, arg) == Err(InvalidArgumentOptionCount(arg))
  {
    var arg := "-clock_speed" + ":" + a + ":" + b;
    assert arg == "-clock_speed" + [':'] + (a + [':'] + b);
    SplitAtSeparator("-clock_speed", ':', a + [':'] + b);
    SplitAtSeparator(a, ':', b);
    SplitWithoutSeparator(b, ':');
  }

  /** The number of ':'-separated tokens an option takes, counting its name; None for a name that is no option. */
  function TokenCount(name: string): Option<nat>
  {
    if name == "-no_sound" then Some(1)
    else if name == "-clock_speed" then Some(2)
    else if name == "-window_size" then Some(3)
    else None
  }

  /** An argument fails as unknown exactly when its first token names no option. */
  lemma UnknownNameRule(s: Settings, arg: string)
    ensures ApplyArg(s, arg) == Err(InvalidArgument(arg)) <==> TokenCount(Split(arg, ':')[0]).None?
    ensures ApplyArg(s, arg).Err? && ApplyArg(s, arg).error.InvalidArgument? ==>
      TokenCount(Split(arg, ':')[0]).None?
  {
  }

  /** A known option with the wrong number of tokens fails with a count error, and every count error is one. */
  lemma TokenCountRule(s: Settings, arg: string)
    ensures var tokens := Split(arg, ':'); var c := TokenCount(tokens[0]);
      ApplyArg(s, arg) == Err(InvalidArgumentOptionCount(arg)) <==> c.Some? && |tokens| != c.value
    ensures var tokens := Split(arg, ':'); var c := TokenCount(tokens[0]);
      ApplyArg(s, arg).Err? && ApplyArg(s, arg).error.InvalidArgumentOptionCount? ==> c.Some? && |tokens| != c.value
  {
  }

  /** A parse error comes from a known option with the right count, and names a value token that does not parse. */
  lemma ParseErrorRule(s: Settings, arg: string)
    requires ApplyArg(s, arg).Err? && ApplyArg(s, arg).error.InvalidArgumentOptionParse?
    ensures var tokens, e := Split(arg, ':'), ApplyArg(s, arg).error;
      && TokenCount(tokens[0]) == Some(|tokens|) && |tokens| > 1 && e.arg == arg
      && exists k :: 1 <= k < |tokens| && e.value == tokens[k]
           && ParseUnsigned(tokens[k], if k == 1 && |tokens| == 2 then U64Limit else U32Limit).None?
  {
    var tokens := Split(arg, ':');
    var e := ApplyArg(s, arg).error;
    if tokens[0] == "-clock_speed" || ParseUnsigned(tokens[1], U32Limit).None? {
      assert e.value == tokens[1];
    } else {
      assert e.value == tokens[2];
    }
  }

  /** new_from_args on `[program, rom] + options` applies the options to the defaults. */
  lemma FromArgsSkipsTwo(program: string, rom: string, options: seq<string>)
    ensures FromArgs([program, rom] + options) == ApplyArgs(New(), options)
  {
    assert ([program, rom] + options)[2..] == options;
  }

  lemma AcceptThen(s: Settings, arg: string, rest: seq<string>, t: Settings)
    requires ApplyArg(s, arg) == Ok(t)
    ensures ApplyArgs(s, [arg] + rest) == ApplyArgs(t, rest)
  {
    assert ([arg] + rest)[1..] == rest;
  }

  lemma RejectThen(s: Settings, arg: string, rest: seq<string>, e: CommandLineArgError)
    requires ApplyArg(s, arg) == Err(e)
    ensures ApplyArgs(s, [arg] + rest) == Err(e)
  {
    assert ([arg] + rest)[0] == arg;
  }

  lemma Clock780(s: Settings)
    ensures ApplyArg(s, "-clock_speed:780") == Ok(s.(cpuClockSpeed := 780))
  {
    assert ParseUnsigned("780", U64Limit) == Some(780) by {
      assert "780"[..2] == "78" && "78"[..1] == "7" && "7"[..0] == "";
    }
    assert "-clock_speed:780" == "-clock_speed" + ":" + "780";
    ClockSpeedArg(s, "780");
  }

  lemma Window1280By640(s: Settings)
    ensures ApplyArg(s, "-window_size:1280:640") == Ok(s.(windowSizeX := 1280, windowSizeY := 640))
  {
    assert ParseUnsigned("1280", U32Limit) == Some(1280) by {
      assert "1280"[..3] == "128" && "128"[..2] == "12" && "12"[..1] == "1" && "1"[..0] == "";
    }
    assert ParseUnsigned("640", U32Limit) == Some(640) by {
      assert "640"[..2] == "64" && "64"[..1] == "6" && "6"[..0] == "";
    }
    assert "-window_size:1280:640" == "-window_size" + ":" + "1280" + ":" + "640";
    WindowSizeArg(s, "1280", "640");
  }

  lemma WindowNotANumber(s: Settings)
    ensures ApplyArg(s, "-window_size:12o0:640") == Err(InvalidArgumentOptionParse("-window_size:12o0:640", "12o0"))
  {
    ParseRejectsNonDigit("12o0", U32Limit, 2);
    assert "-window_size:12o0:640" == "-window_size" + ":" + "12o0" + ":" + "640";
    WindowSizeArg(s, "12o0", "640");
  }

  lemma ClockTwoValues(s: Settings)
    ensures ApplyArg(s, "-clock_speed:780:12") == Err(InvalidArgumentOptionCount("-clock_speed:780:12"))
  {
    assert "-clock_speed:780:12" == "-clock_speed" + ":" + "780" + ":" + "12";
    ClockSpeedCount(s, "780", "12");
  }

  lemma UnknownName(s: Settings)
    ensures ApplyArg(s, "-sound") == Err(InvalidArgument("-sound"))
  {
    SplitWithoutSeparator("-sound", ':');
  }

  /** `-no_sound -clock_speed:780 -window_size:1280:640` turns sound off, runs at 780 Hz in a 1280 x 640 window. */
  lemma ValidExample()
    ensures FromArgs(["rusty-calico-c8", "rom.ch8", "-no_sound", "-clock_speed:780", "-window_size:1280:640"])
      == Ok(Settings(false, 1280, 640, 780))
  {
    var s1 := New().(soundEnabled := false);
    var s2 := s1.(cpuClockSpeed := 780);
    var s3 := s2.(windowSizeX := 1280, windowSizeY := 640);
    FromArgsSkipsTwo("rusty-calico-c8", "rom.ch8", ["-no_sound", "-clock_speed:780", "-window_size:1280:640"]);
    NoSoundArg(New());
    AcceptThen(New(), "-no_sound", ["-clock_speed:780", "-window_size:1280:640"], s1);
    Clock780(s1);
    AcceptThen(s1, "-clock_speed:780", ["-window_size:1280:640"], s2);
    Window1280By640(s2);
    AcceptThen(s2, "-window_size:1280:640", [], s3);
  }

  /** An unknown option name is rejected as a whole argument. */
  lemma UnknownOptionExample()
    ensures FromArgs(["rusty-calico-c8", "rom.ch8", "-sound", "-clock_speed:780", "-window_size:1280:640"])
      == Err(InvalidArgument("-sound"))
  {
    FromArgsSkipsTwo("rusty-calico-c8", "rom.ch8", ["-sound", "-clock_speed:780", "-window_size:1280:640"]);
    UnknownName(New());
    RejectThen(New(), "-sound", ["-clock_speed:780", "-window_size:1280:640"], InvalidArgument("-sound"));
  }

  /** A window width that is not a number is reported with the offending token. */
  lemma BadNumberExample()
    ensures FromArgs(["rusty-calico-c8", "rom.ch8", "-no_sound", "-clock_speed:780", "-window_size:12o0:640"])
      == Err(InvalidArgumentOptionParse("-window_size:12o0:640", "12o0"))
  {
    var s1 := New().(soundEnabled := false);
    var s2 := s1.(cpuClockSpeed := 780);
    FromArgsSkipsTwo("rusty-calico-c8", "rom.ch8", ["-no_sound", "-clock_speed:780", "-window_size:12o0:640"]);
    NoSoundArg(New());
    AcceptThen(New(), "-no_sound", ["-clock_speed:780", "-window_size:12o0:640"], s1);
    Clock780(s1);
    AcceptThen(s1, "-clock_speed:780", ["-window_size:12o0:640"], s2);
    WindowNotANumber(s2);
    RejectThen(s2, "-window_size:12o0:640", [], InvalidArgumentOptionParse("-window_size:12o0:640", "12o0"));
  }

  /** `-clock_speed` with two values has the wrong number of tokens. */
  lemma BadCountExample()
    ensures FromArgs(["rusty-calico-c8", "rom.ch8", "-no_sound", "-clock_speed:780:12", "-window_size:1280:640"])
      == Err(InvalidArgumentOptionCount("-clock_speed:780:12"))
  {
    var s1 := New().(soundEnabled := false);
    FromArgsSkipsTwo("rusty-calico-c8", "rom.ch8", ["-no_sound", "-clock_speed:780:12", "-window_size:1280:640"]);
    NoSoundArg(New());
    AcceptThen(New(), "-no_sound", ["-clock_speed:780:12", "-window_size:1280:640"], s1);
    ClockTwoValues(s1);
    RejectThen(s1, "-clock_speed:780:12", ["-window_size:1280:640"], InvalidArgumentOptionCount("-clock_speed:780:12"));
  }
}
