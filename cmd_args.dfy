/**
 * The command-line option parser: arguments after the program name and the
 * ROM path are `-no_sound`, `-clock_speed:<u64>` and `-window_size:<u32>:<u32>`,
 * applied left to right to the default settings; the first bad argument
 * ends the parse with an error that names it.
 */
module CmdArgs {
  import opened Wrappers
  import opened Bytes

  datatype Settings = Settings(soundEnabled: bool, windowSizeX: u32, windowSizeY: u32, cpuClockSpeed: u64)

  datatype CommandLineArgError =
    | InvalidArgument(arg: string)
    | InvalidArgumentOptionCount(arg: string)
    | InvalidArgumentOptionParse(arg: string, value: string)

  const U32Limit: nat := 0x1_0000_0000
  const U64Limit: nat := 0x1_0000_0000_0000_0000

  /** `ApplicationCmdSettings::new`: sound on, a 640 x 320 window, 600 instructions per second. */
  function New(): (s: Settings)
    ensures s.soundEnabled && s.windowSizeX == 640 && s.windowSizeY == 320 && s.cpuClockSpeed == 600
  {
    Settings(true, 640, 320, 600)
  }

  // ---------------------------------------------------------------------
  // Splitting on a separator
  // ---------------------------------------------------------------------

  /** The tokens between separators, as `split` yields them: never empty, empty tokens kept. */
  function Split(s: string, sep: char): (r: seq<string>)
    ensures |r| >= 1
    ensures forall k :: 0 <= k < |r| ==> sep !in r[k]
    decreases |s|
  {
    if |s| == 0 then [""]
    else
      var rest := Split(s[1..], sep);
      if s[0] == sep then [""] + rest
      else [[s[0]] + rest[0]] + rest[1..]
  }

  /** The tokens joined with the separator between each pair. */
  function Join(ts: seq<string>, sep: char): string
    requires |ts| >= 1
  {
    if |ts| == 1 then ts[0] else ts[0] + [sep] + Join(ts[1..], sep)
  }

  /** Joining the tokens gives back the argument. */
  lemma {:induction false} JoinSplit(s: string, sep: char)
    ensures Join(Split(s, sep), sep) == s
    decreases |s|
  {
    if |s| > 0 {
      var rest := Split(s[1..], sep);
      JoinSplit(s[1..], sep);
      if s[0] == sep {
        assert ([""] + rest)[1..] == rest;
      } else {
        assert ([[s[0]] + rest[0]] + rest[1..])[1..] == rest[1..];
        if |rest| > 1 {
          assert Join(rest, sep) == rest[0] + [sep] + Join(rest[1..], sep);
        }
        assert s == [s[0]] + s[1..];
      }
    }
  }

  /** A token without the separator is its own split. */
  lemma {:induction false} SplitWithoutSeparator(s: string, sep: char)
    requires sep !in s
    ensures Split(s, sep) == [s]
    decreases |s|
  {
    if |s| > 0 {
      assert sep !in s[1..];
      SplitWithoutSeparator(s[1..], sep);
      assert s == [s[0]] + s[1..];
    }
  }

  /** A first token without the separator, then the separator: the rest splits on its own. */
  lemma {:induction false} SplitAtSeparator(a: string, sep: char, b: string)
    requires sep !in a
    ensures Split(a + [sep] + b, sep) == [a] + Split(b, sep)
    decreases |a|
  {
    var s := a + [sep] + b;
    if |a| == 0 {
      assert s[1..] == b;
    } else {
      assert s[1..] == a[1..] + [sep] + b;
      assert sep !in a[1..];
      SplitAtSeparator(a[1..], sep, b);
      assert a == [a[0]] + a[1..];
    }
  }

  /** Splitting a join of separator-free tokens gives back the tokens. */
  lemma {:induction false} SplitJoin(ts: seq<string>, sep: char)
    requires |ts| >= 1 && forall k :: 0 <= k < |ts| ==> sep !in ts[k]
    ensures Split(Join(ts, sep), sep) == ts
    decreases |ts|
  {
    if |ts| == 1 {
      SplitWithoutSeparator(ts[0], sep);
    } else {
      SplitJoin(ts[1..], sep);
      SplitAtSeparator(ts[0], sep, Join(ts[1..], sep));
    }
  }

  // ---------------------------------------------------------------------
  // Parsing an unsigned number
  // ---------------------------------------------------------------------

  predicate IsDigit(c: char)
  {
    '0' <= c <= '9'
  }

  predicate AllDigits(s: string)
  {
    forall k :: 0 <= k < |s| ==> IsDigit(s[k])
  }

  function DigitValue(c: char): nat
    requires IsDigit(c)
  {
    c as int - '0' as int
  }

  function DigitChar(d: nat): (c: char)
    requires d < 10
    ensures IsDigit(c) && DigitValue(c) == d
  {
    ('0' as int + d) as char
  }

  /** The number a string of decimal digits denotes, most significant digit first. */
  function DigitsValue(s: string): nat
    requires AllDigits(s)
  {
    if |s| == 0 then 0 else DigitsValue(s[..|s| - 1]) * 10 + DigitValue(s[|s| - 1])
  }

  /**
   * `str::parse` into an unsigned integer type whose values are below
   * `limit`: an optional `+`, then at least one ASCII digit, and a value
   * that fits; anything else is an error.
   */
  function ParseUnsigned(s: string, limit: nat): (r: Option<nat>)
    ensures r.Some? ==> r.value < limit
    ensures r.Some? ==> |s| > 0 && (IsDigit(s[0]) || s[0] == '+')
  {
    var digits := if |s| > 0 && s[0] == '+' then s[1..] else s;
    if |digits| > 0 && AllDigits(digits) && DigitsValue(digits) < limit then Some(DigitsValue(digits)) else None
  }

  /** The decimal digits of n without leading zeros. */
  function Decimal(n: nat): (s: string)
    ensures |s| > 0 && AllDigits(s)
  {
    if n < 10 then [DigitChar(n)] else Decimal(n / 10) + [DigitChar(n % 10)]
  }

  lemma {:induction false} DecimalValue(n: nat)
    ensures DigitsValue(Decimal(n)) == n
  {
    if n >= 10 {
      var s := Decimal(n);
      assert s[..|s| - 1] == Decimal(n / 10);
      DecimalValue(n / 10);
    }
  }

  /** Every value below the limit parses back from its decimal digits, with or without a `+`. */
  lemma ParseDecimal(n: nat, limit: nat)
    requires n < limit
    ensures ParseUnsigned(Decimal(n), limit) == Some(n)
    ensures ParseUnsigned("+" + Decimal(n), limit) == Some(n)
  {
    DecimalValue(n);
    assert ("+" + Decimal(n))[1..] == Decimal(n);
  }

  /** A character other than a digit, except a leading `+`, makes the parse fail. */
  lemma ParseRejectsNonDigit(s: string, limit: nat, k: nat)
    requires k < |s| && !IsDigit(s[k]) && !(k == 0 && s[k] == '+')
    ensures ParseUnsigned(s, limit) == None
  {
    if |s| > 0 && s[0] == '+' {
      assert s[1..][k - 1] == s[k];
    }
  }

  /** Values at or above the limit do not parse. */
  lemma ParseRejectsOverflow(n: nat, limit: nat)
    requires n >= limit
    ensures ParseUnsigned(Decimal(n), limit) == None
  {
    DecimalValue(n);
  }

  /** What an accepted parse means, for every input: an optional `+`, then one or more digits whose value is below the limit. */
  lemma ParseUnsignedIff(s: string, limit: nat, v: nat)
    ensures ParseUnsigned(s, limit) == Some(v) <==>
      var d := if |s| > 0 && s[0] == '+' then s[1..] else s;
      |d| > 0 && AllDigits(d) && DigitsValue(d) == v && v < limit
  {
  }

  /** The empty text and a lone `+` do not parse. */
  lemma ParseRejectsEmpty(limit: nat)
    ensures ParseUnsigned("", limit) == None
    ensures ParseUnsigned("+", limit) == None
  {
    assert "+"[1..] == "";
  }

  /** A leading zero does not change the value of a string of digits. */
  lemma {:induction false} LeadingZeroValue(d: string)
    requires AllDigits(d)
    ensures AllDigits("0" + d) && DigitsValue("0" + d) == DigitsValue(d)
    decreases |d|
  {
    var z := "0" + d;
    assert AllDigits(z) by {
      forall k | 0 <= k < |z| ensures IsDigit(z[k]) {
        if k > 0 { assert z[k] == d[k - 1]; }
      }
    }
    if |d| > 0 {
      var init := d[..|d| - 1];
      assert AllDigits(init) by {
        forall k | 0 <= k < |init| ensures IsDigit(init[k]) { assert init[k] == d[k]; }
      }
      LeadingZeroValue(init);
      assert z[..|z| - 1] == "0" + init;
      assert z[|z| - 1] == d[|d| - 1];
    }
  }

  /** Leading zeros are accepted and ignored: `0780` parses as 780, and a value too large stays too large. */
  lemma ParseLeadingZero(d: string, limit: nat)
    requires |d| > 0 && AllDigits(d)
    ensures ParseUnsigned("0" + d, limit) == ParseUnsigned(d, limit)
    ensures ParseUnsigned("+0" + d, limit) == ParseUnsigned(d, limit)
  {
    LeadingZeroValue(d);
    assert ("+0" + d)[1..] == "0" + d;
    assert d[0] != '+';
  }

  // ---------------------------------------------------------------------
  // Applying the options
  // ---------------------------------------------------------------------

  /** One argument of `new_from_args` applied to the settings so far. */
  function ApplyArg(s: Settings, arg: string): Result<Settings, CommandLineArgError>
  {
    var tokens := Split(arg, ':');
    if tokens[0] == "-no_sound" then
      if |tokens| != 1 then Err(InvalidArgumentOptionCount(arg))
      else Ok(s.(soundEnabled := false))
    else if tokens[0] == "-clock_speed" then
      if |tokens| != 2 then Err(InvalidArgumentOptionCount(arg))
      else match ParseUnsigned(tokens[1], U64Limit)
        case None => Err(InvalidArgumentOptionParse(arg, tokens[1]))
        case Some(v) => Ok(s.(cpuClockSpeed := v))
    else if tokens[0] == "-window_size" then
      if |tokens| != 3 then Err(InvalidArgumentOptionCount(arg))
      else match ParseUnsigned(tokens[1], U32Limit)
        case None => Err(InvalidArgumentOptionParse(arg, tokens[1]))
        case Some(w) =>
          match ParseUnsigned(tokens[2], U32Limit)
          case None => Err(InvalidArgumentOptionParse(arg, tokens[2]))
          case Some(h) => Ok(s.(windowSizeX := w, windowSizeY := h))
    else Err(InvalidArgument(arg))
  }

  /** The arguments applied left to right; the first error is the result. */
  function ApplyArgs(s: Settings, args: seq<string>): Result<Settings, CommandLineArgError>
    decreases |args|
  {
    if |args| == 0 then Ok(s)
    else match ApplyArg(s, args[0])
      case Err(e) => Err(e)
      case Ok(t) => ApplyArgs(t, args[1..])
  }

  /** The arguments `new_from_args` examines: all but the first two. */
  function Options(args: seq<string>): (r: seq<string>)
    ensures |args| <= 2 ==> r == []
    ensures |args| > 2 ==> |r| == |args| - 2 && forall k :: 0 <= k < |r| ==> r[k] == args[k + 2]
  {
    if |args| <= 2 then [] else args[2..]
  }

  function FromArgs(args: seq<string>): Result<Settings, CommandLineArgError>
  {
    ApplyArgs(New(), Options(args))
  }

  /** One step of the fold, at position i. */
  lemma ApplyArgsStep(s: Settings, args: seq<string>, i: nat)
    requires i < |args|
    ensures ApplyArgs(s, args[i..]) ==
      match ApplyArg(s, args[i])
      case Err(e) => Err(e)
      case Ok(t) => ApplyArgs(t, args[i + 1..])
  {
    assert args[i..][1..] == args[i + 1..];
  }

  /** `ApplicationCmdSettings::new_from_args`. */
  method NewFromArgs(args: seq<string>) returns (r: Result<Settings, CommandLineArgError>)
    ensures r == FromArgs(args)
  {
    var res := New();
    var i := 0;
    while i < |args|
      invariant 0 <= i <= |args|
      invariant i < 2 ==> res == New()
      invariant i >= 2 ==> FromArgs(args) == ApplyArgs(res, args[i..])
    {
      if i == 0 || i == 1 {
        i := i + 1;
        assert i == 2 ==> Options(args) == args[2..];
        continue;
      }
      var arg := args[i];
      ApplyArgsStep(res, args, i);
      ghost var before := res;
      var argTokens := Split(arg, ':');
      if argTokens[0] == "-no_sound" {
        if |argTokens| != 1 {
          return Err(InvalidArgumentOptionCount(arg));
        }
        res := res.(soundEnabled := false);
      } else if argTokens[0] == "-clock_speed" {
        if |argTokens| != 2 {
          return Err(InvalidArgumentOptionCount(arg));
        }
        match ParseUnsigned(argTokens[1], U64Limit) {
          case Some(val) => res := res.(cpuClockSpeed := val);
          case None => return Err(InvalidArgumentOptionParse(arg, argTokens[1]));
        }
      } else if argTokens[0] == "-window_size" {
        if |argTokens| != 3 {
          return Err(InvalidArgumentOptionCount(arg));
        }
        match ParseUnsigned(argTokens[1], U32Limit) {
          case Some(val) => res := res.(windowSizeX := val);
          case None => return Err(InvalidArgumentOptionParse(arg, argTokens[1]));
        }
        match ParseUnsigned(argTokens[2], U32Limit) {
          case Some(val) => res := res.(windowSizeY := val);
          case None => return Err(InvalidArgumentOptionParse(arg, argTokens[2]));
        }
      } else {
        return Err(InvalidArgument(arg));
      }
      assert ApplyArg(before, arg) == Ok(res);
      i := i + 1;
    }
    if i < 2 {
      assert Options(args) == [];
    }
    r := Ok(res);
  }
}
