/**
 * The text side of the output formatter (src/WinHKMonLib/OutputFormatter.cpp):
 * the JSON and CSV string escapers, the unit choice of the size and rate
 * formatters, and the assembly of the human-readable report.
 *
 * Floating-point values are printed by `std::fixed` with one decimal; that
 * rendering is the parameter `fixed` and is not interpreted. Integers are
 * printed exactly, as `Decimal.NatToDecimal` writes them.
 */
module OutputFormatter {
  import opened Wrappers
  import opened Types
  import opened Decimal

  // ---------------------------------------------------------------------
  // JSON string escaping
  // ---------------------------------------------------------------------

  const Backspace: char := '\U{8}'
  const FormFeed: char := '\U{C}'

  /** The seven characters `escapeJson` rewrites: quote, backslash, LF, CR, TAB, BS and FF. */
  predicate IsJsonSpecial(c: char) {
    c == '"' || c == '\\' || c == '\n' || c == '\r' || c == '\t' || c == Backspace || c == FormFeed
  }

  /** The letter written after the backslash for a special character. */
  function JsonEscapeLetter(c: char): char
    requires IsJsonSpecial(c)
  {
    if c == '"' then '"'
    else if c == '\\' then '\\'
    else if c == '\n' then 'n'
    else if c == '\r' then 'r'
    else if c == '\t' then 't'
    else if c == Backspace then 'b'
    else 'f'
  }

  /** What one input character becomes: a two-character escape or itself. */
  function JsonEscapeOf(c: char): string {
    if IsJsonSpecial(c) then ['\\', JsonEscapeLetter(c)] else [c]
  }

  /** The escaped text: each character's escape, in order. */
  function EscapeJsonSpec(s: string): string {
    if s == [] then [] else JsonEscapeOf(s[0]) + EscapeJsonSpec(s[1..])
  }

  lemma {:induction false} EscapeJsonAppend(s: string, c: char)
    ensures EscapeJsonSpec(s + [c]) == EscapeJsonSpec(s) + JsonEscapeOf(c)
  {
    if s == [] {
      assert [c][1..] == [];
    } else {
      assert (s + [c])[1..] == s[1..] + [c];
      EscapeJsonAppend(s[1..], c);
    }
  }

  /** `escapeJson`: appends each character's escape to a buffer. */
  method EscapeJson(s: string) returns (escaped: string)
    ensures escaped == EscapeJsonSpec(s)
  {
    escaped := [];
    for i := 0 to |s|
      invariant escaped == EscapeJsonSpec(s[..i])
    {
      var c := s[i];
      if c == '"' {
        escaped := escaped + "\\\"";
      } else if c == '\\' {
        escaped := escaped + "\\\\";
      } else if c == '\n' {
        escaped := escaped + "\\n";
      } else if c == '\r' {
        escaped := escaped + "\\r";
      } else if c == '\t' {
        escaped := escaped + "\\t";
      } else if c == Backspace {
        escaped := escaped + "\\b";
      } else if c == FormFeed {
        escaped := escaped + "\\f";
      } else {
        escaped := escaped + [c];
      }
      EscapeJsonAppend(s[..i], c);
      assert s[..i + 1] == s[..i] + [c];
    }
    assert s[..|s|] == s;
  }

  /** How many characters of `s` are special. */
  function SpecialCount(s: string): nat {
    if s == [] then 0 else (if IsJsonSpecial(s[0]) then 1 else 0) + SpecialCount(s[1..])
  }

  /** Each special character adds exactly one character to the output. */
  lemma {:induction false} EscapeJsonLength(s: string)
    ensures |EscapeJsonSpec(s)| == |s| + SpecialCount(s)
  {
    if s != [] {
      EscapeJsonLength(s[1..]);
    }
  }

  lemma {:induction false} NoSpecialCounted(s: string)
    ensures SpecialCount(s) == 0 <==> forall i :: 0 <= i < |s| ==> !IsJsonSpecial(s[i])
  {
    if s != [] {
      NoSpecialCounted(s[1..]);
      assert forall i :: 1 <= i < |s| ==> s[i] == s[1..][i - 1];
    }
  }

  /** The escaper changes its input exactly when the input holds a special character. */
  lemma EscapeJsonUnchangedIff(s: string)
    ensures EscapeJsonSpec(s) == s <==> forall i :: 0 <= i < |s| ==> !IsJsonSpecial(s[i])
  {
    EscapeJsonLength(s);
    NoSpecialCounted(s);
    if forall i :: 0 <= i < |s| ==> !IsJsonSpecial(s[i]) {
      EscapeJsonOfPlain(s);
    }
  }

  lemma {:induction false} EscapeJsonOfPlain(s: string)
    requires forall i :: 0 <= i < |s| ==> !IsJsonSpecial(s[i])
    ensures EscapeJsonSpec(s) == s
  {
    if s != [] {
      assert !IsJsonSpecial(s[0]);
      EscapeJsonOfPlain(s[1..]);
      assert s == [s[0]] + s[1..];
    }
  }

  /**
   * Control characters other than the five named ones are copied raw, so
   * the output is not a valid JSON string for them (section 7 of RFC 8259
   * requires every character below U+0020 to be escaped).
   */
  lemma OtherControlCharactersStayRaw(c: char)
    requires c < ' ' && !IsJsonSpecial(c)
    ensures EscapeJsonSpec([c]) == [c]
  {
    EscapeJsonOfPlain([c]);
  }

  /** The character an escape letter stands for. */
  function UnescapeLetter(l: char): Option<char> {
    if l == '"' then Some('"')
    else if l == '\\' then Some('\\')
    else if l == 'n' then Some('\n')
    else if l == 'r' then Some('\r')
    else if l == 't' then Some('\t')
    else if l == 'b' then Some(Backspace)
    else if l == 'f' then Some(FormFeed)
    else None
  }

  /** A JSON string-body decoder for the escapes above; `None` on any other backslash sequence. */
  function UnescapeJson(t: string): Option<string> {
    if t == [] then Some([])
    else if t[0] != '\\' then
      match UnescapeJson(t[1..])
      case Some(rest) => Some([t[0]] + rest)
      case None => None
    else if |t| < 2 || UnescapeLetter(t[1]).None? then None
    else
      match UnescapeJson(t[2..])
      case Some(rest) => Some([UnescapeLetter(t[1]).value] + rest)
      case None => None
  }

  /** Decoding the escaped text gives back the input. */
  lemma {:induction false} JsonRoundTrip(s: string)
    ensures UnescapeJson(EscapeJsonSpec(s)) == Some(s)
  {
    if s != [] {
      var c, rest := s[0], EscapeJsonSpec(s[1..]);
      JsonRoundTrip(s[1..]);
      var t := JsonEscapeOf(c) + rest;
      if IsJsonSpecial(c) {
        assert t[0] == '\\' && t[1] == JsonEscapeLetter(c) && t[2..] == rest;
        assert UnescapeLetter(JsonEscapeLetter(c)) == Some(c);
      } else {
        assert t[0] == c && t[1..] == rest;
      }
      assert s == [c] + s[1..];
    }
  }

  // ---------------------------------------------------------------------
  // CSV field escaping
  // ---------------------------------------------------------------------

  /** A field is quoted when it holds a comma, a double quote or LF (a CR alone does not count). */
  predicate NeedsQuoting(s: string) {
    ',' in s || '"' in s || '\n' in s
  }

  /** The field with every double quote doubled. */
  function DoubleQuotes(s: string): string {
    if s == [] then [] else (if s[0] == '"' then "\"\"" else [s[0]]) + DoubleQuotes(s[1..])
  }

  /** `escapeCsv`: unchanged, or quoted with embedded quotes doubled (section 2 of RFC 4180). */
  function EscapeCsvSpec(s: string): string {
    if !NeedsQuoting(s) then s else "\"" + DoubleQuotes(s) + "\""
  }

  lemma {:induction false} DoubleQuotesAppend(s: string, c: char)
    ensures DoubleQuotes(s + [c]) == DoubleQuotes(s) + (if c == '"' then "\"\"" else [c])
  {
    if s == [] {
      assert [c][1..] == [];
    } else {
      assert (s + [c])[1..] == s[1..] + [c];
      DoubleQuotesAppend(s[1..], c);
    }
  }

  method EscapeCsv(s: string) returns (escaped: string)
    ensures escaped == EscapeCsvSpec(s)
  {
    var needsQuoting := ',' in s || '"' in s || '\n' in s;
    if !needsQuoting {
      return s;
    }
    escaped := "\"";
    for i := 0 to |s|
      invariant escaped == "\"" + DoubleQuotes(s[..i])
    {
      if s[i] == '"' {
        escaped := escaped + "\"\"";
      } else {
        escaped := escaped + [s[i]];
      }
      DoubleQuotesAppend(s[..i], s[i]);
      assert s[..i + 1] == s[..i] + [s[i]];
    }
    escaped := escaped + "\"";
    assert s[..|s|] == s;
  }

  lemma {:induction false} DoubleQuotesLength(s: string)
    ensures |DoubleQuotes(s)| >= |s|
  {
    if s != [] {
      DoubleQuotesLength(s[1..]);
    }
  }

  /** The escaper leaves a field alone exactly when it needs no quoting. */
  lemma EscapeCsvUnchangedIff(s: string)
    ensures EscapeCsvSpec(s) == s <==> !NeedsQuoting(s)
  {
    DoubleQuotesLength(s);
  }

  /** A carriage return by itself is not quoted. */
  lemma CarriageReturnIsNotQuoted()
    ensures EscapeCsvSpec("a\rb") == "a\rb"
  {
  }

  /** Reads a quoted field's body: `""` stands for one quote, and a lone quote is malformed. */
  function CollapseQuotes(t: string): Option<string> {
    if t == [] then Some([])
    else if t[0] != '"' then
      match CollapseQuotes(t[1..])
      case Some(rest) => Some([t[0]] + rest)
      case None => None
    else if |t| >= 2 && t[1] == '"' then
      match CollapseQuotes(t[2..])
      case Some(rest) => Some(['"'] + rest)
      case None => None
    else None
  }

  /** Strips the enclosing quotes of a quoted field and collapses the doubled quotes. */
  function UnquoteCsv(t: string): Option<string> {
    if |t| >= 2 && t[0] == '"' && t[|t| - 1] == '"' then CollapseQuotes(t[1..|t| - 1]) else None
  }

  lemma {:induction false} CollapseDoubled(s: string)
    ensures CollapseQuotes(DoubleQuotes(s)) == Some(s)
  {
    if s != [] {
      CollapseDoubled(s[1..]);
      var t := DoubleQuotes(s);
      if s[0] == '"' {
        assert t[0] == '"' && t[1] == '"' && t[2..] == DoubleQuotes(s[1..]);
      } else {
        assert t[0] == s[0] && t[1..] == DoubleQuotes(s[1..]);
      }
      assert s == [s[0]] + s[1..];
    }
  }

  /** A quoted field reads back as the original text. */
  lemma CsvRoundTrip(s: string)
    requires NeedsQuoting(s)
    ensures UnquoteCsv(EscapeCsvSpec(s)) == Some(s)
  {
    var t := EscapeCsvSpec(s);
    CollapseDoubled(s);
    assert t[1..|t| - 1] == DoubleQuotes(s);
  }

  // ---------------------------------------------------------------------
  // Units of the size and rate formatters
  // ---------------------------------------------------------------------

  /**
   * Unit k (0 none, 1 kilo, 2 mega, 3 giga) fits v when v reaches the unit's
   * threshold and stays below the next one; giga has no upper bound.
   */
  predicate FitsUnit(v: nat, base: nat, k: nat) {
    k <= 3 && (k == 0 || Pow(base, k) <= v) && (k == 3 || v < Pow(base, k + 1))
  }

  /** At most one unit fits. */
  lemma UnitIsUnique(v: nat, base: nat, j: nat, k: nat)
    requires base >= 2 && FitsUnit(v, base, j) && FitsUnit(v, base, k)
    ensures j == k
  {
    if j < k {
      PowMonotone(base, j + 1, k);
    } else if k < j {
      PowMonotone(base, k + 1, j);
    }
  }

  /** Some unit always fits. */
  lemma UnitExists(v: nat, base: nat)
    requires base >= 2
    ensures exists k :: FitsUnit(v, base, k)
  {
    if v >= Pow(base, 3) {
      assert FitsUnit(v, base, 3);
    } else if v >= Pow(base, 2) {
      assert FitsUnit(v, base, 2);
    } else if v >= Pow(base, 1) {
      assert FitsUnit(v, base, 1);
    } else {
      assert FitsUnit(v, base, 0);
    }
  }

  function Prefix(k: nat): string
    requires k <= 3
  {
    if k == 0 then "" else if k == 1 then "K" else if k == 2 then "M" else "G"
  }

  /** v in unit k: the exact integer without a prefix, otherwise the rendered quotient. */
  function InUnit(v: nat, base: nat, k: nat, fixed: real -> string, unit: string): string
    requires k <= 3 && base > 0
  {
    if k == 0 then NatToDecimal(v) + (" " + unit)
    else fixed(v as real / Pow(base, k) as real) + (" " + Prefix(k) + unit)
  }

  const KiB: nat := 1024
  const MiB: nat := KiB * 1024
  const GiB: nat := MiB * 1024

  /** `formatBytes`. */
  function FormatBytes(bytes: uint64, fixed: real -> string): string {
    if bytes >= GiB then fixed(bytes as real / GiB as real) + " GB"
    else if bytes >= MiB then fixed(bytes as real / MiB as real) + " MB"
    else if bytes >= KiB then fixed(bytes as real / KiB as real) + " KB"
    else NatToDecimal(bytes) + " B"
  }

  /** `formatFrequency`: megahertz shown as gigahertz. */
  function FormatFrequency(mhz: uint64, fixed: real -> string): string {
    fixed(mhz as real / 1000.0) + " GHz"
  }

  /** `formatBytesPerSec`. */
  function FormatBytesPerSec(rate: uint64, fixed: real -> string): string {
    if rate >= 1000000000 then fixed(rate as real / 1000000000.0) + " GB/s"
    else if rate >= 1000000 then fixed(rate as real / 1000000.0) + " MB/s"
    else if rate >= 1000 then fixed(rate as real / 1000.0) + " KB/s"
    else NatToDecimal(rate) + " B/s"
  }

  /** `formatBitsPerSec`. */
  function FormatBitsPerSec(rate: uint64, fixed: real -> string): string {
    if rate >= 1000000000 then fixed(rate as real / 1000000000.0) + " Gbps"
    else if rate >= 1000000 then fixed(rate as real / 1000000.0) + " Mbps"
    else if rate >= 1000 then fixed(rate as real / 1000.0) + " Kbps"
    else NatToDecimal(rate) + " bps"
  }

  /** Sizes are shown in the one binary unit (powers of 1024) that fits them. */
  lemma FormatBytesPicksUnit(bytes: uint64, k: nat, fixed: real -> string)
    requires FitsUnit(bytes, 1024, k)
    ensures FormatBytes(bytes, fixed) == InUnit(bytes, 1024, k, fixed, "B")
  {
    assert Pow(1024, 1) == KiB && Pow(1024, 2) == MiB && Pow(1024, 3) == GiB;
  }

  /** Byte rates are shown in the one decimal unit (powers of 1000) that fits them. */
  lemma FormatBytesPerSecPicksUnit(rate: uint64, k: nat, fixed: real -> string)
    requires FitsUnit(rate, 1000, k)
    ensures FormatBytesPerSec(rate, fixed) == InUnit(rate, 1000, k, fixed, "B/s")
  {
    assert Pow(1000, 1) == 1000 && Pow(1000, 2) == 1000000 && Pow(1000, 3) == 1000000000;
    if k == 0 {
      assert " " + "B/s" == " B/s";
    } else if k == 1 {
      assert " " + "K" + "B/s" == " KB/s";
      assert rate as real / Pow(1000, 1) as real == rate as real / 1000.0;
    } else if k == 2 {
      assert " " + "M" + "B/s" == " MB/s";
      assert rate as real / Pow(1000, 2) as real == rate as real / 1000000.0;
    } else {
      assert " " + "G" + "B/s" == " GB/s";
      assert rate as real / Pow(1000, 3) as real == rate as real / 1000000000.0;
    }
  }

  /** Bit rates are shown in the one decimal unit (powers of 1000) that fits them. */
  lemma FormatBitsPerSecPicksUnit(rate: uint64, k: nat, fixed: real -> string)
    requires FitsUnit(rate, 1000, k)
    ensures FormatBitsPerSec(rate, fixed) == InUnit(rate, 1000, k, fixed, "bps")
  {
    assert Pow(1000, 1) == 1000 && Pow(1000, 2) == 1000000 && Pow(1000, 3) == 1000000000;
    if k == 0 {
      assert " " + "bps" == " bps";
    } else if k == 1 {
      assert " " + "K" + "bps" == " Kbps";
      assert rate as real / Pow(1000, 1) as real == rate as real / 1000.0;
    } else if k == 2 {
      assert " " + "M" + "bps" == " Mbps";
      assert rate as real / Pow(1000, 2) as real == rate as real / 1000000.0;
    } else {
      assert " " + "G" + "bps" == " Gbps";
      assert rate as real / Pow(1000, 3) as real == rate as real / 1000000000.0;
    }
  }

  /** Below the first threshold the value is printed as an exact decimal integer. */
  lemma SmallValuesAreExact(v: uint64, fixed: real -> string)
    ensures var d := NatToDecimal(v);
      && AllDigits(d) && ValueOf(d) == v
      && (v < 1024 ==> FormatBytes(v, fixed) == d + " B")
      && (v < 1000 ==> FormatBytesPerSec(v, fixed) == d + " B/s")
      && (v < 1000 ==> FormatBitsPerSec(v, fixed) == d + " bps")
  {
    DecimalRoundTrip(v);
  }

  // ---------------------------------------------------------------------
  // The human-readable report
  // ---------------------------------------------------------------------

  /** How `os << n` writes a signed integer. */
  function IntText(i: int): string {
    if i < 0 then "-" + NatToDecimal(-i) else NatToDecimal(i)
  }

  /** The degree sign followed by C. */
  const Celsius: string := "\U{B0}C"

  function CpuLine(cpu: CpuStats, singleLine: bool, fixed: real -> string): string {
    if singleLine then "CPU:" + fixed(cpu.totalUsagePercent) + "%@" + FormatFrequency(cpu.averageFrequencyMhz, fixed)
    else "CPU:  " + fixed(cpu.totalUsagePercent) + "%  " + FormatFrequency(cpu.averageFrequencyMhz, fixed)
  }

  /** Available physical memory in whole mebibytes, and in multi-line mode the usage. */
  function MemoryLine(memory: MemoryStats, singleLine: bool, fixed: real -> string): string {
    var availableMB := memory.availablePhysicalBytes / (1024 * 1024);
    if singleLine then "RAM:" + NatToDecimal(availableMB) + "M"
    else "RAM:  " + NatToDecimal(availableMB) + " MB available (" + fixed(memory.usagePercent) + "% used)"
  }

  function DiskSpaceLine(disk: DiskStats, singleLine: bool, fixed: real -> string): string {
    if singleLine then
      "DISK:" + disk.deviceName + ":" + FormatBytes(disk.usedBytes, fixed) + "/" + FormatBytes(disk.totalSizeBytes, fixed)
    else
      var usedPercent :=
        if disk.totalSizeBytes > 0 then disk.usedBytes as real / disk.totalSizeBytes as real * 100.0 else 0.0;
      "DISK: " + disk.deviceName + " " + FormatBytes(disk.usedBytes, fixed) + " / "
      + FormatBytes(disk.totalSizeBytes, fixed) + " " + "(" + fixed(usedPercent) + "% used, "
      + FormatBytes(disk.freeBytes, fixed) + " free)"
  }

  /** Read rate after `<`, write rate after `>`. */
  function DiskIoLine(disk: DiskStats, singleLine: bool, fixed: real -> string): string {
    if singleLine then
      "IO:" + disk.deviceName + ":" + FormatBytesPerSec(disk.bytesReadPerSec, fixed) + "<"
      + FormatBytesPerSec(disk.bytesWrittenPerSec, fixed) + ">"
    else
      "IO:   " + disk.deviceName + " " + "<" + " " + FormatBytesPerSec(disk.bytesReadPerSec, fixed) + "  "
      + ">" + " " + FormatBytesPerSec(disk.bytesWrittenPerSec, fixed) + "  (" + fixed(disk.percentBusy) + "% busy)"
  }

  /**
   * Inbound rate after `<`, outbound after `>`, both in bits: the byte rate
   * times 8 in unsigned 64-bit arithmetic.
   */
  function NetworkLine(iface: InterfaceStats, singleLine: bool, fixed: real -> string): string {
    var inBits, outBits := Wrap64(iface.inBytesPerSec * 8), Wrap64(iface.outBytesPerSec * 8);
    if singleLine then
      "NET:" + iface.name + ":" + FormatBitsPerSec(inBits, fixed) + "<" + FormatBitsPerSec(outBits, fixed) + ">"
    else
      "NET:  " + iface.name + " " + "<" + " " + FormatBitsPerSec(inBits, fixed) + "  "
      + ">" + " " + FormatBitsPerSec(outBits, fixed)
      + (if iface.linkSpeedBitsPerSec > 0 then "  (" + FormatBitsPerSec(iface.linkSpeedBitsPerSec, fixed) + " link)" else "")
  }

  function TempLine(temp: TempStats, singleLine: bool): string {
    if singleLine then "TEMP:" + IntText(temp.maxCpuTempCelsius) + Celsius
    else
      "TEMP: CPU " + IntText(temp.maxCpuTempCelsius) + Celsius
      + (match temp.avgCpuTempCelsius
         case Some(avg) => "  (avg: " + IntText(avg) + Celsius + ")"
         case None => "")
  }

  function DiskSpaceLines(disks: seq<DiskStats>, singleLine: bool, fixed: real -> string): (lines: seq<string>)
    ensures |lines| == |disks|
  {
    if disks == [] then []
    else DiskSpaceLines(disks[..|disks| - 1], singleLine, fixed) + [DiskSpaceLine(disks[|disks| - 1], singleLine, fixed)]
  }

  function DiskIoLines(disks: seq<DiskStats>, singleLine: bool, fixed: real -> string): (lines: seq<string>)
    ensures |lines| == |disks|
  {
    if disks == [] then []
    else DiskIoLines(disks[..|disks| - 1], singleLine, fixed) + [DiskIoLine(disks[|disks| - 1], singleLine, fixed)]
  }

  function NetworkLines(ifaces: seq<InterfaceStats>, singleLine: bool, fixed: real -> string): (lines: seq<string>)
    ensures |lines| == |ifaces|
  {
    if ifaces == [] then []
    else NetworkLines(ifaces[..|ifaces| - 1], singleLine, fixed) + [NetworkLine(ifaces[|ifaces| - 1], singleLine, fixed)]
  }

  function CpuPart(metrics: SystemMetrics, singleLine: bool, fixed: real -> string): seq<string> {
    if metrics.cpu.Some? then [CpuLine(metrics.cpu.value, singleLine, fixed)] else []
  }

  function MemoryPart(metrics: SystemMetrics, singleLine: bool, fixed: real -> string): seq<string> {
    if metrics.memory.Some? then [MemoryLine(metrics.memory.value, singleLine, fixed)] else []
  }

  function DiskSpacePart(metrics: SystemMetrics, singleLine: bool, options: CliOptions, fixed: real -> string): seq<string> {
    if metrics.disks.Some? && options.showDiskSpace then DiskSpaceLines(metrics.disks.value, singleLine, fixed) else []
  }

  function DiskIoPart(metrics: SystemMetrics, singleLine: bool, options: CliOptions, fixed: real -> string): seq<string> {
    if metrics.disks.Some? && options.showDiskIO then DiskIoLines(metrics.disks.value, singleLine, fixed) else []
  }

  function NetworkPart(metrics: SystemMetrics, singleLine: bool, fixed: real -> string): seq<string> {
    if metrics.network.Some? then NetworkLines(metrics.network.value, singleLine, fixed) else []
  }

  function TempPart(metrics: SystemMetrics, singleLine: bool): seq<string> {
    if metrics.temperature.Some? then [TempLine(metrics.temperature.value, singleLine)] else []
  }

  /**
   * The report's lines in order: CPU, memory, disk space (only with the
   * DISK option), disk I/O (only with the IO option), one per network
   * interface, temperature. Every other family is shown when it is present.
   */
  function ReportLines(metrics: SystemMetrics, singleLine: bool, options: CliOptions, fixed: real -> string): seq<string> {
    CpuPart(metrics, singleLine, fixed) + MemoryPart(metrics, singleLine, fixed)
    + DiskSpacePart(metrics, singleLine, options, fixed) + DiskIoPart(metrics, singleLine, options, fixed)
    + NetworkPart(metrics, singleLine, fixed) + TempPart(metrics, singleLine)
  }

  /** The lines with `sep` between consecutive ones. */
  function Join(lines: seq<string>, sep: string): string {
    if lines == [] then ""
    else if |lines| == 1 then lines[0]
    else Join(lines[..|lines| - 1], sep) + sep + lines[|lines| - 1]
  }

  /** The lines each followed by `sep`. */
  function Terminated(lines: seq<string>, sep: string): string {
    if lines == [] then "" else Terminated(lines[..|lines| - 1], sep) + lines[|lines| - 1] + sep
  }

  const NoMetrics: string := "(no metrics)"

  /**
   * The report: "(no metrics)" (plus a newline in multi-line mode) when
   * there are no lines; otherwise the lines separated by two spaces on one
   * line, or each ending in a newline.
   */
  function FormatTextSpec(metrics: SystemMetrics, singleLine: bool, options: CliOptions, fixed: real -> string): string {
    var lines := ReportLines(metrics, singleLine, options, fixed);
    if lines == [] then (if singleLine then NoMetrics else NoMetrics + "\n")
    else if singleLine then Join(lines, "  ")
    else Terminated(lines, "\n")
  }

  /** No family yields a line: everything absent, no disk option, or empty lists. */
  predicate NothingToShow(metrics: SystemMetrics, options: CliOptions) {
    && metrics.cpu.None? && metrics.memory.None? && metrics.temperature.None?
    && (metrics.disks.None? || metrics.disks.value == [] || (!options.showDiskSpace && !options.showDiskIO))
    && (metrics.network.None? || metrics.network.value == [])
  }

  /** A line that neither starts like the placeholder nor ends in a blank. */
  predicate Visible(line: string) {
    |line| > 0 && line[0] != '(' && line[|line| - 1] != ' '
  }

  lemma FormatBytesEnd(bytes: uint64, fixed: real -> string)
    ensures var t := FormatBytes(bytes, fixed); |t| > 0 && t[|t| - 1] == 'B'
  {
  }

  lemma RatesEnd(rate: uint64, fixed: real -> string)
    ensures var t := FormatBytesPerSec(rate, fixed); |t| > 0 && t[|t| - 1] == 's'
    ensures var t := FormatBitsPerSec(rate, fixed); |t| > 0 && t[|t| - 1] == 's'
  {
  }

  lemma DiskSpaceLinesVisible(disks: seq<DiskStats>, singleLine: bool, fixed: real -> string)
    ensures forall i :: 0 <= i < |disks| ==> Visible(DiskSpaceLines(disks, singleLine, fixed)[i])
  {
    forall i | 0 <= i < |disks|
      ensures Visible(DiskSpaceLines(disks, singleLine, fixed)[i])
    {
      DiskSpaceLinesAt(disks, i, singleLine, fixed);
      FormatBytesEnd(disks[i].totalSizeBytes, fixed);
    }
  }

  lemma {:induction false} DiskSpaceLinesAt(disks: seq<DiskStats>, i: nat, singleLine: bool, fixed: real -> string)
    requires i < |disks|
    ensures DiskSpaceLines(disks, singleLine, fixed)[i] == DiskSpaceLine(disks[i], singleLine, fixed)
  {
    if i < |disks| - 1 {
      DiskSpaceLinesAt(disks[..|disks| - 1], i, singleLine, fixed);
    }
  }

  lemma DiskIoLinesVisible(disks: seq<DiskStats>, singleLine: bool, fixed: real -> string)
    ensures forall i :: 0 <= i < |disks| ==> Visible(DiskIoLines(disks, singleLine, fixed)[i])
  {
    forall i | 0 <= i < |disks|
      ensures Visible(DiskIoLines(disks, singleLine, fixed)[i])
    {
      DiskIoLinesAt(disks, i, singleLine, fixed);
    }
  }

  lemma {:induction false} DiskIoLinesAt(disks: seq<DiskStats>, i: nat, singleLine: bool, fixed: real -> string)
    requires i < |disks|
    ensures DiskIoLines(disks, singleLine, fixed)[i] == DiskIoLine(disks[i], singleLine, fixed)
  {
    if i < |disks| - 1 {
      DiskIoLinesAt(disks[..|disks| - 1], i, singleLine, fixed);
    }
  }

  lemma NetworkLinesVisible(ifaces: seq<InterfaceStats>, singleLine: bool, fixed: real -> string)
    ensures forall i :: 0 <= i < |ifaces| ==> Visible(NetworkLines(ifaces, singleLine, fixed)[i])
  {
    forall i | 0 <= i < |ifaces|
      ensures Visible(NetworkLines(ifaces, singleLine, fixed)[i])
    {
      NetworkLinesAt(ifaces, i, singleLine, fixed);
      var iface := ifaces[i];
      RatesEnd(Wrap64(iface.outBytesPerSec * 8), fixed);
    }
  }

  lemma {:induction false} NetworkLinesAt(ifaces: seq<InterfaceStats>, i: nat, singleLine: bool, fixed: real -> string)
    requires i < |ifaces|
    ensures NetworkLines(ifaces, singleLine, fixed)[i] == NetworkLine(ifaces[i], singleLine, fixed)
  {
    if i < |ifaces| - 1 {
      NetworkLinesAt(ifaces[..|ifaces| - 1], i, singleLine, fixed);
    }
  }

  lemma TempLineVisible(temp: TempStats, singleLine: bool)
    ensures Visible(TempLine(temp, singleLine))
  {
  }

  /** No report line is empty, starts like the placeholder or ends in a blank. */
  lemma ReportLinesVisible(metrics: SystemMetrics, singleLine: bool, options: CliOptions, fixed: real -> string)
    ensures var lines := ReportLines(metrics, singleLine, options, fixed);
      forall i :: 0 <= i < |lines| ==> Visible(lines[i])
  {
    if metrics.disks.Some? {
      DiskSpaceLinesVisible(metrics.disks.value, singleLine, fixed);
      DiskIoLinesVisible(metrics.disks.value, singleLine, fixed);
    }
    if metrics.network.Some? {
      NetworkLinesVisible(metrics.network.value, singleLine, fixed);
    }
    if metrics.temperature.Some? {
      TempLineVisible(metrics.temperature.value, singleLine);
    }
    var a, b := CpuPart(metrics, singleLine, fixed), MemoryPart(metrics, singleLine, fixed);
    var c, d := DiskSpacePart(metrics, singleLine, options, fixed), DiskIoPart(metrics, singleLine, options, fixed);
    var e, f := NetworkPart(metrics, singleLine, fixed), TempPart(metrics, singleLine);
    AllVisibleConcat(a, b);
    AllVisibleConcat(a + b, c);
    AllVisibleConcat(a + b + c, d);
    AllVisibleConcat(a + b + c + d, e);
    AllVisibleConcat(a + b + c + d + e, f);
  }

  lemma AllVisibleConcat(xs: seq<string>, ys: seq<string>)
    requires forall i :: 0 <= i < |xs| ==> Visible(xs[i])
    requires forall i :: 0 <= i < |ys| ==> Visible(ys[i])
    ensures forall i :: 0 <= i < |xs + ys| ==> Visible((xs + ys)[i])
  {
  }

  /** The joined text begins with the first line's first character and ends with the last line's last character. */
  lemma {:induction false} JoinEnds(lines: seq<string>, sep: string)
    requires lines != [] && forall i :: 0 <= i < |lines| ==> |lines[i]| > 0
    ensures var j := Join(lines, sep);
      |j| > 0 && j[0] == lines[0][0] && j[|j| - 1] == lines[|lines| - 1][|lines[|lines| - 1]| - 1]
  {
    if |lines| > 1 {
      var init := lines[..|lines| - 1];
      JoinEnds(init, sep);
    }
  }

  /** The report has no lines exactly when there is nothing to show. */
  lemma NoLinesIffNothingToShow(metrics: SystemMetrics, singleLine: bool, options: CliOptions, fixed: real -> string)
    ensures ReportLines(metrics, singleLine, options, fixed) == [] <==> NothingToShow(metrics, options)
  {
    var lines := ReportLines(metrics, singleLine, options, fixed);
    var a, b := CpuPart(metrics, singleLine, fixed), MemoryPart(metrics, singleLine, fixed);
    var c, d := DiskSpacePart(metrics, singleLine, options, fixed), DiskIoPart(metrics, singleLine, options, fixed);
    var e, f := NetworkPart(metrics, singleLine, fixed), TempPart(metrics, singleLine);
    assert |lines| == |a| + |b| + |c| + |d| + |e| + |f|;
  }

  /** "(no metrics)" is the whole report exactly when there is nothing to show. */
  lemma PlaceholderIffNothingToShow(metrics: SystemMetrics, singleLine: bool, options: CliOptions, fixed: real -> string)
    ensures FormatTextSpec(metrics, singleLine, options, fixed) == (if singleLine then NoMetrics else NoMetrics + "\n")
        <==> NothingToShow(metrics, options)
  {
    NoLinesIffNothingToShow(metrics, singleLine, options, fixed);
    var lines := ReportLines(metrics, singleLine, options, fixed);
    if lines != [] {
      ReportLinesVisible(metrics, singleLine, options, fixed);
      var r := FormatTextSpec(metrics, singleLine, options, fixed);
      if singleLine {
        JoinEnds(lines, "  ");
      } else {
        TerminatedIsJoined(lines, "\n");
        JoinEnds(lines, "\n");
      }
      assert r[0] != '(';
    }
  }
  /** A snapshot with no metric family is shown as the placeholder alone, whatever the options. */
  lemma EmptySnapshotShowsPlaceholder(t: uint64, singleLine: bool, options: CliOptions, fixed: real -> string)
    ensures FormatTextSpec(EmptyMetrics(t), singleLine, options, fixed) == (if singleLine then NoMetrics else NoMetrics + "\n")
  {
    PlaceholderIffNothingToShow(EmptyMetrics(t), singleLine, options, fixed);
  }


  /**
   * A single-line report never ends in a blank, so no trailing separator is
   * left; a multi-line report always ends with a newline.
   */
  lemma ReportEnds(metrics: SystemMetrics, singleLine: bool, options: CliOptions, fixed: real -> string)
    ensures var r := FormatTextSpec(metrics, singleLine, options, fixed);
      && |r| > 0
      && (singleLine ==> r[|r| - 1] != ' ')
      && (!singleLine ==> r[|r| - 1] == '\n')
  {
    var lines := ReportLines(metrics, singleLine, options, fixed);
    if lines != [] {
      ReportLinesVisible(metrics, singleLine, options, fixed);
      if singleLine {
        JoinEnds(lines, "  ");
      } else {
        TerminatedIsJoined(lines, "\n");
        JoinEnds(lines, "\n");
      }
    }
  }

  lemma TerminatedAppend(lines: seq<string>, line: string, sep: string)
    ensures Terminated(lines + [line], sep) == Terminated(lines, sep) + line + sep
  {
    assert (lines + [line])[..|lines|] == lines;
  }

  /** Terminating every line is joining them and terminating the last. */
  lemma {:induction false} TerminatedIsJoined(lines: seq<string>, sep: string)
    requires lines != []
    ensures Terminated(lines, sep) == Join(lines, sep) + sep
  {
    if |lines| > 1 {
      TerminatedIsJoined(lines[..|lines| - 1], sep);
    } else {
      assert lines[..0] == [];
    }
  }

  /**
   * `formatText`: streams each present family's lines, each followed by the
   * separator; then substitutes "(no metrics)" for an empty result, and in
   * single-line mode removes the two spaces of the final separator.
   */
  method FormatText(metrics: SystemMetrics, singleLine: bool, options: CliOptions, fixed: real -> string)
    returns (result: string)
    ensures result == FormatTextSpec(metrics, singleLine, options, fixed)
  {
    var separator := if singleLine then "  " else "\n";
    var output := "";
    ghost var emitted: seq<string> := [];
    output, emitted := EmitCpu(output, emitted, metrics, singleLine, separator, fixed);
    output, emitted := EmitMemory(output, emitted, metrics, singleLine, separator, fixed);
    output, emitted := EmitDiskSpace(output, emitted, metrics, singleLine, options, separator, fixed);
    output, emitted := EmitDiskIo(output, emitted, metrics, singleLine, options, separator, fixed);
    output, emitted := EmitNetwork(output, emitted, metrics, singleLine, separator, fixed);
    output, emitted := EmitTemperature(output, emitted, metrics, singleLine, separator);
    assert emitted == ReportLines(metrics, singleLine, options, fixed);

    result := output;
    if |result| == 0 {
      return if singleLine then NoMetrics else NoMetrics + "\n";
    }
    if singleLine && result[|result| - 1] == ' ' {
      result := result[..|result| - 1];
      result := result[..|result| - 1];
    }
    if emitted != [] {
      TerminatedIsJoined(emitted, separator);
    }
  }

  /** `output << line << separator`. */
  method Emit(output: string, ghost emitted: seq<string>, line: string, separator: string)
    returns (output': string, ghost emitted': seq<string>)
    requires output == Terminated(emitted, separator)
    ensures emitted' == emitted + [line]
    ensures output' == Terminated(emitted', separator)
  {
    TerminatedAppend(emitted, line, separator);
    output', emitted' := output + line + separator, emitted + [line];
  }

  method EmitCpu(output: string, ghost emitted: seq<string>, metrics: SystemMetrics, singleLine: bool,
                 separator: string, fixed: real -> string)
    returns (output': string, ghost emitted': seq<string>)
    requires output == Terminated(emitted, separator)
    ensures emitted' == emitted + CpuPart(metrics, singleLine, fixed)
    ensures output' == Terminated(emitted', separator)
  {
    output', emitted' := output, emitted;
    if metrics.cpu.Some? {
      output', emitted' := Emit(output', emitted', CpuLine(metrics.cpu.value, singleLine, fixed), separator);
    }
  }

  method EmitMemory(output: string, ghost emitted: seq<string>, metrics: SystemMetrics, singleLine: bool,
                    separator: string, fixed: real -> string)
    returns (output': string, ghost emitted': seq<string>)
    requires output == Terminated(emitted, separator)
    ensures emitted' == emitted + MemoryPart(metrics, singleLine, fixed)
    ensures output' == Terminated(emitted', separator)
  {
    output', emitted' := output, emitted;
    if metrics.memory.Some? {
      output', emitted' := Emit(output', emitted', MemoryLine(metrics.memory.value, singleLine, fixed), separator);
    }
  }

  method EmitTemperature(output: string, ghost emitted: seq<string>, metrics: SystemMetrics, singleLine: bool,
                         separator: string)
    returns (output': string, ghost emitted': seq<string>)
    requires output == Terminated(emitted, separator)
    ensures emitted' == emitted + TempPart(metrics, singleLine)
    ensures output' == Terminated(emitted', separator)
  {
    output', emitted' := output, emitted;
    if metrics.temperature.Some? {
      output', emitted' := Emit(output', emitted', TempLine(metrics.temperature.value, singleLine), separator);
    }
  }

  /** The loop that streams one line per disk or interface, each followed by the separator. */
  method EmitLines(output: string, ghost emitted: seq<string>, lines: seq<string>, separator: string)
    returns (output': string, ghost emitted': seq<string>)
    requires output == Terminated(emitted, separator)
    ensures emitted' == emitted + lines
    ensures output' == Terminated(emitted', separator)
  {
    output', emitted' := output, emitted;
    for i := 0 to |lines|
      invariant emitted' == emitted + lines[..i]
      invariant output' == Terminated(emitted', separator)
    {
      assert lines[..i + 1] == lines[..i] + [lines[i]];
      AppendAssociates(emitted, lines[..i], [lines[i]]);
      output', emitted' := Emit(output', emitted', lines[i], separator);
    }
    assert lines[..|lines|] == lines;
  }

  /** The DISK lines, one per disk, when disks are present and the DISK option is set. */
  method EmitDiskSpace(output: string, ghost emitted: seq<string>, metrics: SystemMetrics, singleLine: bool,
                       options: CliOptions, separator: string, fixed: real -> string)
    returns (output': string, ghost emitted': seq<string>)
    requires output == Terminated(emitted, separator)
    ensures emitted' == emitted + DiskSpacePart(metrics, singleLine, options, fixed)
    ensures output' == Terminated(emitted', separator)
  {
    output', emitted' := output, emitted;
    if metrics.disks.Some? && options.showDiskSpace {
      output', emitted' := EmitLines(output, emitted, DiskSpaceLines(metrics.disks.value, singleLine, fixed), separator);
    }
  }

  /** The IO lines, one per disk, when disks are present and the IO option is set. */
  method EmitDiskIo(output: string, ghost emitted: seq<string>, metrics: SystemMetrics, singleLine: bool,
                    options: CliOptions, separator: string, fixed: real -> string)
    returns (output': string, ghost emitted': seq<string>)
    requires output == Terminated(emitted, separator)
    ensures emitted' == emitted + DiskIoPart(metrics, singleLine, options, fixed)
    ensures output' == Terminated(emitted', separator)
  {
    output', emitted' := output, emitted;
    if metrics.disks.Some? && options.showDiskIO {
      output', emitted' := EmitLines(output, emitted, DiskIoLines(metrics.disks.value, singleLine, fixed), separator);
    }
  }

  /** The NET lines, one per interface, when interfaces are present. */
  method EmitNetwork(output: string, ghost emitted: seq<string>, metrics: SystemMetrics, singleLine: bool,
                     separator: string, fixed: real -> string)
    returns (output': string, ghost emitted': seq<string>)
    requires output == Terminated(emitted, separator)
    ensures emitted' == emitted + NetworkPart(metrics, singleLine, fixed)
    ensures output' == Terminated(emitted', separator)
  {
    output', emitted' := output, emitted;
    if metrics.network.Some? {
      output', emitted' := EmitLines(output, emitted, NetworkLines(metrics.network.value, singleLine, fixed), separator);
    }
  }
}
