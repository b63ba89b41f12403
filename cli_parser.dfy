/**
 * The command-line parser (src/WinHKMonLib/CliParser.cpp): a left-to-right
 * scan over argv that sets the fields of a CliOptions record, consumes the
 * token after a flag that takes a value, and fails with the message the
 * source throws. `ParseFrom` is the specification; `ParseArguments` is the
 * loop, proved equal to it.
 */
module CliParser {
  import opened Wrappers
  import opened Types
  import opened Decimal

  /** `std::toupper` in the "C" locale: only 'a'..'z' change. */
  function UpperChar(c: char): char {
    if 'a' <= c <= 'z' then (c as int - 'a' as int + 'A' as int) as char else c
  }

  function Upper(s: string): (r: string)
    ensures |r| == |s|
  {
    seq(|s|, k requires 0 <= k < |s| => UpperChar(s[k]))
  }

  /** `toUpper`: transforms a copy of the text in place, character by character. */
  method ToUpper(s: string) returns (r: string)
    ensures r == Upper(s)
  {
    var a := new char[|s|](k requires 0 <= k < |s| => s[k]);
    for k := 0 to a.Length
      invariant forall m :: 0 <= m < k ==> a[m] == UpperChar(s[m])
      invariant forall m :: k <= m < a.Length ==> a[m] == s[m]
    {
      a[k] := UpperChar(a[k]);
    }
    r := a[..];
  }

  predicate IsUpperWord(w: string) {
    forall k :: 0 <= k < |w| ==> 'A' <= w[k] <= 'Z'
  }

  /**
   * Comparing an upper-cased token with an upper-case keyword matches the
   * token exactly when each of its characters is the keyword's letter in
   * either case.
   */
  lemma UpperMatchesIgnoringCase(s: string, w: string)
    requires IsUpperWord(w)
    ensures Upper(s) == w <==>
      |s| == |w| && forall k :: 0 <= k < |s| ==> s[k] == w[k] || s[k] as int == w[k] as int - 'A' as int + 'a' as int
  {
    if |s| == |w| && forall k :: 0 <= k < |s| ==> s[k] == w[k] || s[k] as int == w[k] as int - 'A' as int + 'a' as int {
      assert forall k :: 0 <= k < |s| ==> Upper(s)[k] == w[k];
    }
    if Upper(s) == w {
      forall k | 0 <= k < |s|
        ensures s[k] == w[k] || s[k] as int == w[k] as int - 'A' as int + 'a' as int
      {
        assert UpperChar(s[k]) == w[k];
      }
    }
  }

  /** Upper-casing twice is upper-casing once. */
  lemma UpperIdempotent(s: string)
    ensures Upper(Upper(s)) == Upper(s)
  {
    assert forall k :: 0 <= k < |s| ==> Upper(Upper(s))[k] == Upper(s)[k];
  }

  /** `isFlag`: a non-empty token starting with a dash. */
  predicate IsFlag(arg: string) {
    |arg| > 0 && arg[0] == '-'
  }

  /** The upper-case keywords that select a metric or the single-line mode. */
  predicate IsKeyword(up: string) {
    KeywordKind(up).Some?
  }

  function FormatNamed(up: string): Option<OutputFormat> {
    if up == "TEXT" then Some(Text) else if up == "JSON" then Some(Json) else if up == "CSV" then Some(Csv) else None
  }

  function UnitNamed(up: string): Option<NetworkUnit> {
    if up == "BITS" then Some(Bits) else if up == "BYTES" then Some(Bytes) else None
  }

  // ---------------------------------------------------------------------
  // `std::stod` on the interval text: leading white space, an optional
  // sign, decimal digits with an optional fraction, at least one digit,
  // and an optional exponent; what follows the number is ignored.
  // ---------------------------------------------------------------------

  /** The value of digits[start..end] read as the fraction .ddd */
  function FractionValue(s: string, start: nat, end: nat): real
    requires start <= end <= |s| && AllDigits(s[start..end])
  {
    ValueOf(s[start..end]) as real / Pow(10, end - start) as real
  }

  /** Scales m by ten to the power e, e possibly negative. */
  function Scale(m: real, negative: bool, e: nat): real {
    if negative then m / Pow(10, e) as real else m * Pow(10, e) as real
  }

  /** The exponent part at position i: its sign and magnitude, and where it ends; none when no digit follows. */
  function ExponentAt(s: string, i: nat): (r: Option<(bool, nat, nat)>)
    requires i <= |s|
    ensures r.Some? ==> i < r.value.2 <= |s|
  {
    if i < |s| && (s[i] == 'e' || s[i] == 'E') then
      var p := i + 1;
      var negative := p < |s| && s[p] == '-';
      var q := if p < |s| && (s[p] == '+' || s[p] == '-') then p + 1 else p;
      var e := RunEnd(s, q, IsDigit);
      if e == q then None else Some((negative, ValueOf(s[q..e]), e))
    else None
  }

  /** The number `std::stod` reads at the start of the text, or nothing when the text does not start with one. */
  function ReadDouble(s: string): Option<real> {
    var j := SkipSpaces(s, 0);
    var negative := j < |s| && s[j] == '-';
    var k := if j < |s| && (s[j] == '+' || s[j] == '-') then j + 1 else j;
    var intEnd := RunEnd(s, k, IsDigit);
    var fracStart := if intEnd < |s| && s[intEnd] == '.' then intEnd + 1 else intEnd;
    var fracEnd := RunEnd(s, fracStart, IsDigit);
    if intEnd == k && fracEnd == fracStart then None
    else
      DigitRunIsDigits(s, k);
      DigitRunIsDigits(s, fracStart);
      var mantissa := ValueOf(s[k..intEnd]) as real + FractionValue(s, fracStart, fracEnd);
      var magnitude := match ExponentAt(s, fracEnd)
        case None => mantissa
        case Some((expNegative, e, _)) => Scale(mantissa, expNegative, e);
      Some(if negative then -magnitude else magnitude)
  }

  lemma ReadsWholeNumber(s: string, n: nat)
    requires s == NatToDecimal(n)
    ensures ReadDouble(s) == Some(n as real)
  {
    RunEndAt(s, 0, 0, IsSpace);
    RunEndAt(s, 0, |s|, IsDigit);
    RunEndAt(s, |s|, |s|, IsDigit);
    assert s[0..|s|] == s;
    assert s[|s|..|s|] == [];
    DecimalRoundTrip(n);
  }

  /** The decimal text of a whole number reads back as that number. */
  lemma WholeNumberRoundTrip(n: nat)
    ensures ReadDouble(NatToDecimal(n)) == Some(n as real)
  {
    ReadsWholeNumber(NatToDecimal(n), n);
  }

  /** A text starting with neither a sign, a digit nor a point after white space is not a number. */
  lemma NotANumber(s: string)
    requires |s| > 0 && !IsSpace(s[0]) && !IsDigit(s[0]) && s[0] != '+' && s[0] != '-' && s[0] != '.'
    ensures ReadDouble(s).None?
  {
    RunEndAt(s, 0, 0, IsSpace);
    RunEndAt(s, 0, 0, IsDigit);
  }

  /** The interval rule: a number in [0.1, 3600], or nothing. */
  function IntervalOf(text: string): (r: Option<real>)
    ensures r.Some? <==> ReadDouble(text).Some? && 0.1 <= ReadDouble(text).value <= 3600.0
    ensures r.Some? ==> r.value == ReadDouble(text).value
  {
    match ReadDouble(text)
    case None => None
    case Some(v) => if v < 0.1 || v > 3600.0 then None else Some(v)
  }

  // ---------------------------------------------------------------------
  // The parse, token by token
  // ---------------------------------------------------------------------

  const NoArguments := "No arguments provided. Use --help for usage information."
  const NoMetric := "At least one metric must be specified (CPU, RAM, DISK, IO, NET, TEMP). Use --help for usage information."

  /** The branch of the loop body's if-chain a token takes, in the order the source tests them. */
  datatype Kind =
    | HelpFlag | VersionFlag
    | CpuWord | RamWord | DiskWord | IoWord | NetWord | TempWord | LineWord
    | FormatFlag | LineFlag | ContinuousFlag | IntervalFlag | InterfaceFlag | UnitsFlag
    | InterfaceName | Unknown

  predicate TakesValue(k: Kind) {
    k == FormatFlag || k == IntervalFlag || k == InterfaceFlag || k == UnitsFlag
  }

  /** The keyword branch an upper-cased token takes, if any. */
  function KeywordKind(up: string): Option<Kind> {
    if up == "CPU" then Some(CpuWord)
    else if up == "RAM" then Some(RamWord)
    else if up == "DISK" then Some(DiskWord)
    else if up == "IO" then Some(IoWord)
    else if up == "NET" then Some(NetWord)
    else if up == "TEMP" then Some(TempWord)
    else if up == "LINE" then Some(LineWord)
    else None
  }

  /** The branches after the keywords: the flags, matched exactly, then a plain token once NET was seen. */
  function FlagKind(arg: string, showNetwork: bool): Kind {
    if arg == "--format" || arg == "-f" then FormatFlag
    else if arg == "--line" || arg == "-l" then LineFlag
    else if arg == "--continuous" || arg == "-c" then ContinuousFlag
    else if arg == "--interval" || arg == "-i" then IntervalFlag
    else if arg == "--interface" then InterfaceFlag
    else if arg == "--net-units" then UnitsFlag
    else if !IsFlag(arg) && showNetwork then InterfaceName
    else Unknown
  }

  /** Help and version are matched exactly, then the keywords in any case, then the rest. */
  function KindOf(arg: string, showNetwork: bool): Kind {
    if arg == "--help" || arg == "-h" then HelpFlag
    else if arg == "--version" || arg == "-v" then VersionFlag
    else if IsKeyword(Upper(arg)) then KeywordKind(Upper(arg)).value
    else FlagKind(arg, showNetwork)
  }

  /** The message when a flag that takes a value is the last token. */
  function MissingValue(k: Kind): string
    requires TakesValue(k)
  {
    match k
    case FormatFlag => "--format requires an argument (text, json, csv)"
    case IntervalFlag => "--interval requires a numeric argument"
    case InterfaceFlag => "--interface requires an interface name"
    case UnitsFlag => "--net-units requires an argument (bits, bytes)"
  }

  /** What a flag does with the token after it, whatever that token is. */
  function ApplyValue(k: Kind, value: string, opts: CliOptions): Result<CliOptions, string>
    requires TakesValue(k)
  {
    match k
    case FormatFlag =>
      (match FormatNamed(Upper(value))
       case Some(f) => Ok(opts.(format := f))
       case None => Err("Invalid format '" + value + "'. Valid formats: text, json, csv"))
    case IntervalFlag =>
      (match IntervalOf(value)
       case Some(v) => Ok(opts.(intervalSeconds := v))
       case None => Err("Invalid interval value: " + value))
    case InterfaceFlag => Ok(opts.(networkInterface := value))
    case UnitsFlag =>
      (match UnitNamed(Upper(value))
       case Some(u) => Ok(opts.(networkUnit := u))
       case None => Err("Invalid network unit '" + value + "'. Valid units: bits, bytes"))
  }

  /** What one token does: go on at `next` with new options, or end the parse with a result. */
  datatype Step = Continue(next: nat, opts: CliOptions) | Stop(result: Result<CliOptions, string>)

  /** What the branch for `kind` does with the token at i. */
  function TokenStep(kind: Kind, argv: seq<string>, i: nat, opts: CliOptions): (s: Step)
    requires i < |argv|
    ensures s.Continue? ==> i < s.next <= |argv|
  {
    match kind
    case HelpFlag => Stop(Ok(opts.(showHelp := true)))
    case VersionFlag => Stop(Ok(opts.(showVersion := true)))
    case CpuWord => Continue(i + 1, opts.(showCpu := true))
    case RamWord => Continue(i + 1, opts.(showMemory := true))
    case DiskWord => Continue(i + 1, opts.(showDiskSpace := true))
    case IoWord => Continue(i + 1, opts.(showDiskIO := true))
    case NetWord => Continue(i + 1, opts.(showNetwork := true))
    case TempWord => Continue(i + 1, opts.(showTemp := true))
    case LineWord => Continue(i + 1, opts.(singleLine := true))
    case LineFlag => Continue(i + 1, opts.(singleLine := true))
    case ContinuousFlag => Continue(i + 1, opts.(continuous := true))
    case InterfaceName => Continue(i + 1, opts.(networkInterface := argv[i]))
    case Unknown => Stop(Err("Invalid metric or flag '" + argv[i] + "'. Use --help for usage information."))
    case _ =>
      if i + 1 >= |argv| then Stop(Err(MissingValue(kind)))
      else
        match ApplyValue(kind, argv[i + 1], opts)
        case Ok(o) => Continue(i + 2, o)
        case Err(e) => Stop(Err(e))
  }

  /** The body of the loop for the token at i. */
  function ParseToken(argv: seq<string>, i: nat, opts: CliOptions): (s: Step)
    requires i < |argv|
    ensures s.Continue? ==> i < s.next <= |argv|
  {
    TokenStep(KindOf(argv[i], opts.showNetwork), argv, i, opts)
  }

  /** The check after the loop: some metric must be selected unless help or version was asked for. */
  function Finish(opts: CliOptions): Result<CliOptions, string> {
    if !opts.showHelp && !opts.showVersion && !AnyMetricSelected(opts) then Err(NoMetric) else Ok(opts)
  }

  /** The parse of the tokens from i on, starting from the given options. */
  function ParseFrom(argv: seq<string>, i: nat, opts: CliOptions): Result<CliOptions, string>
    requires i <= |argv|
    decreases |argv| - i
  {
    if i == |argv| then Finish(opts)
    else
      match ParseToken(argv, i, opts)
      case Continue(j, o) => ParseFrom(argv, j, o)
      case Stop(r) => r
  }

  /** `parseArguments` on argv, whose first entry is the program name. */
  function ParseArgumentsSpec(argv: seq<string>): Result<CliOptions, string> {
    if |argv| < 2 then Err(NoArguments) else ParseFrom(argv, 1, DefaultCliOptions)
  }

  /** `parseArguments`: the for-loop over argv, with the body in `ParseOne`. */
  method ParseArguments(argv: seq<string>) returns (r: Result<CliOptions, string>)
    ensures r == ParseArgumentsSpec(argv)
  {
    var opts := DefaultCliOptions;
    if |argv| < 2 {
      return Err(NoArguments);
    }
    var i := 1;
    while i < |argv|
      invariant 1 <= i <= |argv|
      invariant ParseFrom(argv, i, opts) == ParseArgumentsSpec(argv)
      decreases |argv| - i
    {
      var step := ParseOne(argv, i, opts);
      if step.Stop? {
        return step.result;
      }
      i, opts := step.next, step.opts;
    }
    if !opts.showHelp && !opts.showVersion {
      if !opts.showCpu && !opts.showMemory && !opts.showDiskSpace && !opts.showDiskIO && !opts.showNetwork && !opts.showTemp {
        return Err(NoMetric);
      }
    }
    r := Ok(opts);
  }

  /**
   * The loop body for the token at i: returns early on help, version and
   * errors, and otherwise the index of the next token (past a flag's value)
   * with the updated options.
   */
  method ParseOne(argv: seq<string>, i: nat, opts: CliOptions) returns (step: Step)
    requires i < |argv|
    ensures step == ParseToken(argv, i, opts)
  {
    var arg := argv[i];
    var kind := KindOf(arg, opts.showNetwork);
    match kind {
      case HelpFlag =>
        return Stop(Ok(opts.(showHelp := true)));
      case VersionFlag =>
        return Stop(Ok(opts.(showVersion := true)));
      case CpuWord =>
        step := Continue(i + 1, opts.(showCpu := true));
      case RamWord =>
        step := Continue(i + 1, opts.(showMemory := true));
      case DiskWord =>
        step := Continue(i + 1, opts.(showDiskSpace := true));
      case IoWord =>
        step := Continue(i + 1, opts.(showDiskIO := true));
      case NetWord =>
        step := Continue(i + 1, opts.(showNetwork := true));
      case TempWord =>
        step := Continue(i + 1, opts.(showTemp := true));
      case LineWord =>
        step := Continue(i + 1, opts.(singleLine := true));
      case LineFlag =>
        step := Continue(i + 1, opts.(singleLine := true));
      case ContinuousFlag =>
        step := Continue(i + 1, opts.(continuous := true));
      case InterfaceName =>
        step := Continue(i + 1, opts.(networkInterface := arg));
      case Unknown =>
        step := Stop(Err("Invalid metric or flag '" + arg + "'. Use --help for usage information."));
      case _ =>
        if i + 1 >= |argv| {
          return Stop(Err(MissingValue(kind)));
        }
        var setting := ParseValue(kind, argv[i + 1], opts);
        match setting {
          case Ok(o) => step := Continue(i + 2, o);
          case Err(e) => step := Stop(Err(e));
        }
    }
  }

  /** The value handling of --format, --interval, --interface and --net-units. */
  method ParseValue(k: Kind, value: string, opts: CliOptions) returns (r: Result<CliOptions, string>)
    requires TakesValue(k)
    ensures r == ApplyValue(k, value, opts)
  {
    if k == FormatFlag {
      var format := ToUpper(value);
      if format == "TEXT" {
        r := Ok(opts.(format := Text));
      } else if format == "JSON" {
        r := Ok(opts.(format := Json));
      } else if format == "CSV" {
        r := Ok(opts.(format := Csv));
      } else {
        r := Err("Invalid format '" + value + "'. Valid formats: text, json, csv");
      }
    } else if k == IntervalFlag {
      var interval := ReadDouble(value);
      if interval.None? || interval.value < 0.1 || interval.value > 3600.0 {
        r := Err("Invalid interval value: " + value);
      } else {
        r := Ok(opts.(intervalSeconds := interval.value));
      }
    } else if k == InterfaceFlag {
      r := Ok(opts.(networkInterface := value));
    } else {
      var units := ToUpper(value);
      if units == "BITS" {
        r := Ok(opts.(networkUnit := Bits));
      } else if units == "BYTES" {
        r := Ok(opts.(networkUnit := Bytes));
      } else {
        r := Err("Invalid network unit '" + value + "'. Valid units: bits, bytes");
      }
    }
  }

  // ---------------------------------------------------------------------
  // Properties of the parse
  // ---------------------------------------------------------------------

  lemma UpperOfUpperWord(w: string)
    requires IsUpperWord(w)
    ensures Upper(w) == w
  {
    assert forall k :: 0 <= k < |w| ==> Upper(w)[k] == w[k];
  }

  /** No flag is a keyword in any case: every keyword starts with a letter. */
  lemma FlagIsNoKeyword(arg: string)
    requires IsFlag(arg)
    ensures !IsKeyword(Upper(arg))
  {
    assert Upper(arg)[0] == '-';
  }

  /** A keyword in any case is none of the dash-led tokens help and version. */
  lemma KeywordIsNoFlag(arg: string)
    requires IsKeyword(Upper(arg))
    ensures !IsFlag(arg) && arg != "--help" && arg != "-h" && arg != "--version" && arg != "-v"
  {
    if IsFlag(arg) {
      FlagIsNoKeyword(arg);
    }
  }

  /** A flag's value changes only the field it names, and an interval only to one in range. */
  lemma ApplyValueFacts(k: Kind, value: string, o: CliOptions)
    requires TakesValue(k)
    ensures var r := ApplyValue(k, value, o);
      r.Ok? ==> && r.value.showHelp == o.showHelp && r.value.showVersion == o.showVersion
                && (r.value.intervalSeconds == o.intervalSeconds || 0.1 <= r.value.intervalSeconds <= 3600.0)
  {
    var r := ApplyValue(k, value, o);
    match k
    case IntervalFlag =>
      var iv := IntervalOf(value);
      if iv.Some? {
        assert r == Ok(o.(intervalSeconds := iv.value));
      }
    case FormatFlag =>
      var f := FormatNamed(Upper(value));
      if f.Some? {
        assert r == Ok(o.(format := f.value));
      }
    case UnitsFlag =>
      var u := UnitNamed(Upper(value));
      if u.Some? {
        assert r == Ok(o.(networkUnit := u.value));
      }
    case InterfaceFlag =>
  }

  /** What `StepFacts` states, for one step from options o. */
  predicate StepKeeps(s: Step, o: CliOptions) {
    && (s.Continue? ==> && s.opts.showHelp == o.showHelp && s.opts.showVersion == o.showVersion
                        && (s.opts.intervalSeconds == o.intervalSeconds || 0.1 <= s.opts.intervalSeconds <= 3600.0))
    && (s.Stop? && s.result.Ok? ==>
          (s.result.value.showHelp || s.result.value.showVersion) && s.result.value.intervalSeconds == o.intervalSeconds)
  }

  lemma TokenStepKeeps(kind: Kind, argv: seq<string>, i: nat, o: CliOptions)
    requires i < |argv|
    ensures StepKeeps(TokenStep(kind, argv, i, o), o)
  {
    if TakesValue(kind) && i + 1 < |argv| {
      ApplyValueFacts(kind, argv[i + 1], o);
    }
  }

  /**
   * No token but help or version sets those flags, and only they end the
   * parse with success; no token but the interval flag changes the
   * interval, and that only to a value in range.
   */
  lemma StepFacts(argv: seq<string>, i: nat, o: CliOptions)
    requires i < |argv|
    ensures StepKeeps(ParseToken(argv, i, o), o)
  {
    TokenStepKeeps(KindOf(argv[i], o.showNetwork), argv, i, o);
  }

  /** A token that is not help or version, or whose flag's value is present, reads nothing after it. */
  lemma TokenIgnoresLaterTokens(argv: seq<string>, rest: seq<string>, i: nat, o: CliOptions)
    requires i < |argv|
    requires ParseToken(argv, i, o).Continue? || ParseToken(argv, i, o).result.Ok?
    ensures ParseToken(argv + rest, i, o) == ParseToken(argv, i, o)
  {
    assert (argv + rest)[i] == argv[i];
    var kind := KindOf(argv[i], o.showNetwork);
    assert ParseToken(argv, i, o) == TokenStep(kind, argv, i, o);
    assert ParseToken(argv + rest, i, o) == TokenStep(kind, argv + rest, i, o);
    TokenStepExtends(kind, argv, rest, i, o);
  }

  /** A branch that does not run out of tokens reads nothing past the token after i. */
  lemma TokenStepExtends(kind: Kind, argv: seq<string>, rest: seq<string>, i: nat, o: CliOptions)
    requires i < |argv|
    requires TokenStep(kind, argv, i, o).Continue? || TokenStep(kind, argv, i, o).result.Ok?
    ensures TokenStep(kind, argv + rest, i, o) == TokenStep(kind, argv, i, o)
  {
    assert (argv + rest)[i] == argv[i];
    if i + 1 < |argv| {
      assert (argv + rest)[i + 1] == argv[i + 1];
    }
  }

  /**
   * Help and version return at once: once the parse of argv ends with help
   * or version set, appending tokens changes nothing.
   */
  lemma {:induction false} EarlyReturnIgnoresLaterTokens(argv: seq<string>, rest: seq<string>, i: nat, o: CliOptions)
    requires i <= |argv| && !o.showHelp && !o.showVersion
    requires ParseFrom(argv, i, o).Ok? && (ParseFrom(argv, i, o).value.showHelp || ParseFrom(argv, i, o).value.showVersion)
    ensures ParseFrom(argv + rest, i, o) == ParseFrom(argv, i, o)
    decreases |argv| - i
  {
    assert i < |argv|;
    StepFacts(argv, i, o);
    TokenIgnoresLaterTokens(argv, rest, i, o);
    match ParseToken(argv, i, o)
    case Continue(j, o') => EarlyReturnIgnoresLaterTokens(argv, rest, j, o');
    case Stop(_) =>
  }

  /** A leading --help or -h yields the default options with help set, whatever follows, and no metric is needed. */
  lemma HelpFirst(program: string, flag: string, rest: seq<string>)
    requires flag == "--help" || flag == "-h"
    ensures ParseArgumentsSpec([program, flag] + rest) == Ok(DefaultCliOptions.(showHelp := true))
  {
    EarlyReturnIgnoresLaterTokens([program, flag], rest, 1, DefaultCliOptions);
  }

  /** A leading --version or -v yields the default options with version set, whatever follows. */
  lemma VersionFirst(program: string, flag: string, rest: seq<string>)
    requires flag == "--version" || flag == "-v"
    ensures ParseArgumentsSpec([program, flag] + rest) == Ok(DefaultCliOptions.(showVersion := true))
  {
    EarlyReturnIgnoresLaterTokens([program, flag], rest, 1, DefaultCliOptions);
  }

  /** Without any token after the program name the parse fails. */
  lemma NoArgumentsRejected(argv: seq<string>)
    requires |argv| < 2
    ensures ParseArgumentsSpec(argv) == Err(NoArguments)
  {
  }

  /** Each keyword, in any case, sets its own flag and nothing else. */
  lemma KeywordSetsItsFlag(argv: seq<string>, i: nat, o: CliOptions)
    requires i < |argv|
    ensures var up, s := Upper(argv[i]), ParseToken(argv, i, o);
      && (up == "CPU" ==> s == Continue(i + 1, o.(showCpu := true)))
      && (up == "RAM" ==> s == Continue(i + 1, o.(showMemory := true)))
      && (up == "DISK" ==> s == Continue(i + 1, o.(showDiskSpace := true)))
      && (up == "IO" ==> s == Continue(i + 1, o.(showDiskIO := true)))
      && (up == "NET" ==> s == Continue(i + 1, o.(showNetwork := true)))
      && (up == "TEMP" ==> s == Continue(i + 1, o.(showTemp := true)))
      && (up == "LINE" ==> s == Continue(i + 1, o.(singleLine := true)))
  {
    if IsKeyword(Upper(argv[i])) {
      KeywordIsNoFlag(argv[i]);
    }
  }

  /**
   * A flag that takes a value fails when it is the last token, and
   * otherwise consumes the next token, whatever it is: even "--help"
   * becomes the interface name.
   */
  lemma ValueFlagConsumesNextToken(argv: seq<string>, i: nat, o: CliOptions)
    requires i < |argv| && TakesValue(KindOf(argv[i], o.showNetwork))
    ensures i + 1 == |argv| ==> ParseToken(argv, i, o) == Stop(Err(MissingValue(KindOf(argv[i], o.showNetwork))))
    ensures i + 1 < |argv| && argv[i] == "--interface" ==>
      ParseToken(argv, i, o) == Continue(i + 2, o.(networkInterface := argv[i + 1]))
  {
    var kind := KindOf(argv[i], o.showNetwork);
    assert ParseToken(argv, i, o) == TokenStep(kind, argv, i, o);
    if argv[i] == "--interface" {
      InterfaceFlagKind(o.showNetwork);
    }
  }

  lemma InterfaceFlagKind(showNetwork: bool)
    ensures KindOf("--interface", showNetwork) == InterfaceFlag
  {
  }

  /** The value after --interface is taken verbatim, even when it is itself a flag. */
  lemma InterfaceValueMayBeAFlag(program: string)
    ensures ParseFrom([program, "NET", "--interface", "--help"], 2, DefaultCliOptions.(showNetwork := true))
         == Ok(DefaultCliOptions.(showNetwork := true, networkInterface := "--help"))
  {
    var argv := [program, "NET", "--interface", "--help"];
    InterfaceFlagKind(true);
    ValueFlagConsumesNextToken(argv, 2, DefaultCliOptions.(showNetwork := true));
  }

  /**
   * The interval flag accepts exactly a text that starts with a number in
   * [0.1, 3600]; every rejection, out of range or not a number, carries
   * the "Invalid interval value" message, since the range error is caught
   * and rethrown by the handler around the conversion.
   */
  lemma IntervalRule(argv: seq<string>, i: nat, o: CliOptions)
    requires i + 1 < |argv| && (argv[i] == "--interval" || argv[i] == "-i")
    ensures var v, s := ReadDouble(argv[i + 1]), ParseToken(argv, i, o);
      && (s.Continue? <==> v.Some? && 0.1 <= v.value <= 3600.0)
      && (s.Continue? ==> s == Continue(i + 2, o.(intervalSeconds := v.value)))
      && (s.Stop? ==> s.result == Err("Invalid interval value: " + argv[i + 1]))
  {
    FlagIsNoKeyword(argv[i]);
    assert KindOf(argv[i], o.showNetwork) == IntervalFlag;
    assert ParseToken(argv, i, o) == TokenStep(IntervalFlag, argv, i, o);
  }

  /**
   * The format flag accepts TEXT, JSON and CSV in any case and sets that
   * format; any other value is refused with a message that quotes it.
   */
  lemma FormatRule(argv: seq<string>, i: nat, o: CliOptions)
    requires i + 1 < |argv| && (argv[i] == "--format" || argv[i] == "-f")
    ensures var up, s := Upper(argv[i + 1]), ParseToken(argv, i, o);
      && (s.Continue? <==> up == "TEXT" || up == "JSON" || up == "CSV")
      && (up == "TEXT" ==> s == Continue(i + 2, o.(format := Text)))
      && (up == "JSON" ==> s == Continue(i + 2, o.(format := Json)))
      && (up == "CSV" ==> s == Continue(i + 2, o.(format := Csv)))
      && (s.Stop? ==> s.result == Err("Invalid format '" + argv[i + 1] + "'. Valid formats: text, json, csv"))
  {
    FlagIsNoKeyword(argv[i]);
    assert KindOf(argv[i], o.showNetwork) == FormatFlag;
    assert ParseToken(argv, i, o) == TokenStep(FormatFlag, argv, i, o);
  }

  /** The unit flag accepts BITS and BYTES in any case; any other value is refused. */
  lemma UnitsRule(argv: seq<string>, i: nat, o: CliOptions)
    requires i + 1 < |argv| && argv[i] == "--net-units"
    ensures var up, s := Upper(argv[i + 1]), ParseToken(argv, i, o);
      && (s.Continue? <==> up == "BITS" || up == "BYTES")
      && (up == "BITS" ==> s == Continue(i + 2, o.(networkUnit := Bits)))
      && (up == "BYTES" ==> s == Continue(i + 2, o.(networkUnit := Bytes)))
      && (s.Stop? ==> s.result == Err("Invalid network unit '" + argv[i + 1] + "'. Valid units: bits, bytes"))
  {
    FlagIsNoKeyword(argv[i]);
    assert KindOf(argv[i], o.showNetwork) == UnitsFlag;
    assert ParseToken(argv, i, o) == TokenStep(UnitsFlag, argv, i, o);
  }

  /** Whole seconds: 5 is accepted, 0 and 3601 are refused, and a word is not a number. */
  lemma IntervalExamples()
    ensures IntervalOf("5") == Some(5.0)
    ensures IntervalOf("0") == None
    ensures IntervalOf("3601") == None
    ensures IntervalOf("abc") == None
  {
    assert NatToDecimal(5) == "5";
    WholeNumberRoundTrip(5);
    assert NatToDecimal(0) == "0";
    WholeNumberRoundTrip(0);
    assert NatToDecimal(3601) == "3601";
    WholeNumberRoundTrip(3601);
    NotANumber("abc");
  }

  /** A plain token names the interface once NET has been seen, and is an error before. */
  lemma InterfaceNameNeedsNet(argv: seq<string>, i: nat, o: CliOptions)
    requires i < |argv| && !IsFlag(argv[i]) && !IsKeyword(Upper(argv[i]))
    ensures o.showNetwork ==> ParseToken(argv, i, o) == Continue(i + 1, o.(networkInterface := argv[i]))
    ensures !o.showNetwork ==>
      ParseToken(argv, i, o) == Stop(Err("Invalid metric or flag '" + argv[i] + "'. Use --help for usage information."))
  {
    var arg := argv[i];
    assert arg != "--help" && arg != "-h" && arg != "--version" && arg != "-v" by {
      assert |arg| > 0 ==> arg[0] != '-';
    }
    assert arg != "--format" && arg != "-f" && arg != "--line" && arg != "-l" && arg != "--continuous" && arg != "-c" by {
      assert |arg| > 0 ==> arg[0] != '-';
    }
    assert arg != "--interval" && arg != "-i" && arg != "--interface" && arg != "--net-units" by {
      assert |arg| > 0 ==> arg[0] != '-';
    }
  }

  /**
   * Every successful parse without help or version selects a metric, and
   * every successful parse has an interval in [0.1, 3600].
   */
  lemma {:induction false} ParsedOptionsAreValid(argv: seq<string>, i: nat, o: CliOptions)
    requires i <= |argv| && 0.1 <= o.intervalSeconds <= 3600.0
    ensures var r := ParseFrom(argv, i, o);
      r.Ok? ==> && 0.1 <= r.value.intervalSeconds <= 3600.0
                && (AnyMetricSelected(r.value) || r.value.showHelp || r.value.showVersion)
    decreases |argv| - i
  {
    if i < |argv| {
      StepFacts(argv, i, o);
      var s := ParseToken(argv, i, o);
      if s.Continue? {
        ParsedOptionsAreValid(argv, s.next, s.opts);
      }
    }
  }

  lemma ParseResultIsValid(argv: seq<string>)
    ensures var r := ParseArgumentsSpec(argv);
      r.Ok? ==> && 0.1 <= r.value.intervalSeconds <= 3600.0
                && (AnyMetricSelected(r.value) || r.value.showHelp || r.value.showVersion)
  {
    if |argv| >= 2 {
      ParsedOptionsAreValid(argv, 1, DefaultCliOptions);
    }
  }

  /** LINE alone selects no metric and is refused. */
  lemma LineAloneRejected(program: string)
    ensures ParseArgumentsSpec([program, "LINE"]) == Err(NoMetric)
  {
    var argv, d := [program, "LINE"], DefaultCliOptions;
    UpperOfUpperWord("LINE");
    assert ParseToken(argv, 1, d) == Continue(2, d.(singleLine := true));
    assert ParseFrom(argv, 2, d.(singleLine := true)) == Err(NoMetric);
  }
}
