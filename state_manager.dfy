/**
 * The state file codec (src/WinHKMonLib/StateManager.cpp). `save` writes a
 * line-oriented key/value file:
 *
 *   VERSION 1.0
 *   TIMESTAMP <ticks>
 *   NETWORK_<name>_IN <octets>    NETWORK_<name>_OUT <octets>   (per interface)
 *   DISK_<name>_READ <bytes>      DISK_<name>_WRITE <bytes>     (per disk)
 *
 * and `load` parses it back tolerantly. The file itself is a field holding
 * its lines; whether it can be opened is an input.
 */
module StateManager {
  import opened Wrappers
  import opened Types
  import opened Decimal

  /** The format version `save` writes. */
  const FormatVersion: string := "1.0"

  /** `s.substr(0, n)`: the first n characters, or all of s when it is shorter. */
  function Head(s: string, n: nat): (h: string)
    ensures |h| == if |s| <= n then |s| else n
    ensures h == s[..|h|]
  {
    if |s| <= n then s else s[..n]
  }

  /** `validateVersion`: every 1.x version is accepted, nothing else. */
  function ValidateVersion(version: string): (ok: bool)
    ensures ok <==> |version| >= 2 && version[0] == '1' && version[1] == '.'
  {
    Head(version, 2) == "1."
  }

  lemma VersionExamples()
    ensures ValidateVersion("1.0") && ValidateVersion("1.5")
    ensures !ValidateVersion("0.5") && !ValidateVersion("10.0") && !ValidateVersion("1") && !ValidateVersion("")
  {
  }

  // ---------------------------------------------------------------------------
  // Key sanitising

  /** The characters that would break a line of the file. */
  predicate IsLineBreaker(c: char) {
    c == '\t' || c == '\n' || c == '\r'
  }

  /** `sanitizeKey`'s result: tab, LF and CR become '_', every other character stays. */
  function Sanitized(key: string): string {
    seq(|key|, i requires 0 <= i < |key| => if IsLineBreaker(key[i]) then '_' else key[i])
  }

  /** `sanitizeKey`: copies the key and rewrites the copy in place. */
  method SanitizeKey(key: string) returns (sanitized: string)
    ensures sanitized == Sanitized(key)
  {
    var buf := new char[|key|](i requires 0 <= i < |key| => key[i]);
    var i := 0;
    while i < buf.Length
      invariant 0 <= i <= buf.Length == |key|
      invariant forall k :: 0 <= k < i ==> buf[k] == Sanitized(key)[k]
      invariant forall k :: i <= k < buf.Length ==> buf[k] == key[k]
    {
      if IsLineBreaker(buf[i]) {
        buf[i] := '_';
      }
      i := i + 1;
    }
    sanitized := buf[..];
  }

  /**
   * Sanitising keeps the length, leaves no line breaker behind, changes a key
   * exactly when it holds one (spaces, quotes and underscores pass through),
   * and is idempotent.
   */
  lemma SanitizedProperties(key: string)
    ensures |Sanitized(key)| == |key|
    ensures forall k :: 0 <= k < |key| ==> !IsLineBreaker(Sanitized(key)[k])
    ensures Sanitized(key) == key <==> forall k :: 0 <= k < |key| ==> !IsLineBreaker(key[k])
    ensures Sanitized(Sanitized(key)) == Sanitized(key)
  {
    if Sanitized(key) == key {
      forall k | 0 <= k < |key| ensures !IsLineBreaker(key[k]) {
        assert Sanitized(key)[k] == key[k];
      }
    }
  }

  // ---------------------------------------------------------------------------
  // The file format

  /** The two counter families of the file. */
  datatype Family = Network | Disk

  function KeyPrefix(f: Family): string {
    match f
    case Network => "NETWORK_"
    case Disk => "DISK_"
  }

  /** The field names of a family: IN/OUT for interfaces, READ/WRITE for disks. */
  function PrimaryField(f: Family): string {
    match f
    case Network => "IN"
    case Disk => "READ"
  }

  function SecondaryField(f: Family): string {
    match f
    case Network => "OUT"
    case Disk => "WRITE"
  }

  /**
   * A device's pair of cumulative counters as the file holds them: in/out
   * octets of an interface, or bytes read/written of a disk.
   */
  datatype Counters = Counters(name: string, primary: uint64, secondary: uint64)

  function NetworkCounters(ifaces: seq<InterfaceStats>): (cs: seq<Counters>)
    ensures |cs| == |ifaces|
  {
    seq(|ifaces|, i requires 0 <= i < |ifaces| =>
      Counters(ifaces[i].name, ifaces[i].totalInOctets, ifaces[i].totalOutOctets))
  }

  function DiskCounters(disks: seq<DiskStats>): (cs: seq<Counters>)
    ensures |cs| == |disks|
  {
    seq(|disks|, i requires 0 <= i < |disks| =>
      Counters(disks[i].deviceName, disks[i].totalBytesRead, disks[i].totalBytesWritten))
  }

  function ListOrEmpty<T>(o: Option<seq<T>>): seq<T> {
    if o.Some? then o.value else []
  }

  function CounterLine(f: Family, name: string, field: string, value: uint64): string {
    KeyPrefix(f) + Sanitized(name) + "_" + field + " " + NatToDecimal(value)
  }

  function DeviceLines(f: Family, c: Counters): seq<string> {
    [CounterLine(f, c.name, PrimaryField(f), c.primary), CounterLine(f, c.name, SecondaryField(f), c.secondary)]
  }

  function FamilyLines(f: Family, cs: seq<Counters>): (lines: seq<string>)
    ensures |lines| == 2 * |cs|
  {
    if cs == [] then [] else FamilyLines(f, cs[..|cs| - 1]) + DeviceLines(f, cs[|cs| - 1])
  }

  /** The whole file `save` writes for a snapshot. */
  function SaveLines(m: SystemMetrics): seq<string> {
    ["VERSION " + FormatVersion, "TIMESTAMP " + NatToDecimal(m.timestamp)]
    + FamilyLines(Network, NetworkCounters(ListOrEmpty(m.network)))
    + FamilyLines(Disk, DiskCounters(ListOrEmpty(m.disks)))
  }

  lemma {:induction false} FamilyLinesAt(f: Family, cs: seq<Counters>)
    ensures |FamilyLines(f, cs)| == 2 * |cs|
    ensures forall i :: 0 <= i < |cs| ==>
              FamilyLines(f, cs)[2 * i] == CounterLine(f, cs[i].name, PrimaryField(f), cs[i].primary) &&
              FamilyLines(f, cs)[2 * i + 1] == CounterLine(f, cs[i].name, SecondaryField(f), cs[i].secondary)
  {
    if cs != [] {
      var init := cs[..|cs| - 1];
      FamilyLinesAt(f, init);
      forall i | 0 <= i < |cs|
        ensures FamilyLines(f, cs)[2 * i] == CounterLine(f, cs[i].name, PrimaryField(f), cs[i].primary)
        ensures FamilyLines(f, cs)[2 * i + 1] == CounterLine(f, cs[i].name, SecondaryField(f), cs[i].secondary)
      {
        if i < |init| {
          assert cs[i] == init[i];
        }
      }
    }
  }

  /** How the four counter lines are spelled. */
  lemma CounterLineSpelling(name: string, value: uint64)
    ensures CounterLine(Network, name, "IN", value) == "NETWORK_" + Sanitized(name) + "_IN " + NatToDecimal(value)
    ensures CounterLine(Network, name, "OUT", value) == "NETWORK_" + Sanitized(name) + "_OUT " + NatToDecimal(value)
    ensures CounterLine(Disk, name, "READ", value) == "DISK_" + Sanitized(name) + "_READ " + NatToDecimal(value)
    ensures CounterLine(Disk, name, "WRITE", value) == "DISK_" + Sanitized(name) + "_WRITE " + NatToDecimal(value)
  {
    var t, d := Sanitized(name), NatToDecimal(value);
    assert "NETWORK_" + t + "_" + "IN" + " " + d == "NETWORK_" + t + "_IN " + d;
    assert "NETWORK_" + t + "_" + "OUT" + " " + d == "NETWORK_" + t + "_OUT " + d;
    assert "DISK_" + t + "_" + "READ" + " " + d == "DISK_" + t + "_READ " + d;
    assert "DISK_" + t + "_" + "WRITE" + " " + d == "DISK_" + t + "_WRITE " + d;
  }

  lemma ConcatParts<T>(h: seq<T>, a: seq<T>, b: seq<T>)
    ensures (h + a + b)[|h|..|h| + |a|] == a
    ensures (h + a + b)[|h| + |a|..|h| + |a| + |b|] == b
  {
  }

  /** A family's block of lines, found at `offset` inside a whole file. */
  lemma FamilyBlockAt(lines: seq<string>, offset: nat, f: Family, cs: seq<Counters>)
    requires offset + 2 * |cs| <= |lines|
    requires lines[offset..offset + 2 * |cs|] == FamilyLines(f, cs)
    ensures forall i :: 0 <= i < |cs| ==>
              lines[offset + 2 * i] == CounterLine(f, cs[i].name, PrimaryField(f), cs[i].primary) &&
              lines[offset + 2 * i + 1] == CounterLine(f, cs[i].name, SecondaryField(f), cs[i].secondary)
  {
    FamilyLinesAt(f, cs);
    forall i | 0 <= i < |cs|
      ensures lines[offset + 2 * i] == CounterLine(f, cs[i].name, PrimaryField(f), cs[i].primary)
      ensures lines[offset + 2 * i + 1] == CounterLine(f, cs[i].name, SecondaryField(f), cs[i].secondary)
    {
      assert lines[offset + 2 * i] == lines[offset..offset + 2 * |cs|][2 * i];
      assert lines[offset + 2 * i + 1] == lines[offset..offset + 2 * |cs|][2 * i + 1];
    }
  }

  /** `save` writes the version line and the timestamp line, then two lines per interface and per disk. */
  lemma SaveLinesHeader(m: SystemMetrics)
    ensures |SaveLines(m)| == 2 + 2 * |ListOrEmpty(m.network)| + 2 * |ListOrEmpty(m.disks)|
    ensures SaveLines(m)[0] == "VERSION 1.0"
    ensures SaveLines(m)[1] == "TIMESTAMP " + NatToDecimal(m.timestamp)
  {
  }

  /** After the header, `save` writes an IN and an OUT line per interface, in input order. */
  lemma SaveLinesInterfaces(m: SystemMetrics)
    ensures |SaveLines(m)| >= 2 + 2 * |ListOrEmpty(m.network)|
    ensures forall i :: 0 <= i < |ListOrEmpty(m.network)| ==>
              var n := ListOrEmpty(m.network)[i];
              SaveLines(m)[2 + 2 * i] == CounterLine(Network, n.name, "IN", n.totalInOctets) &&
              SaveLines(m)[2 + 2 * i + 1] == CounterLine(Network, n.name, "OUT", n.totalOutOctets)
  {
    SaveBlocks(m);
    SaveLinesNetworkBlock(SaveLines(m), 2, ListOrEmpty(m.network));
  }

  /** After the interfaces, `save` writes a READ and a WRITE line per disk, in input order. */
  lemma SaveLinesDisks(m: SystemMetrics)
    ensures |SaveLines(m)| == 2 + 2 * |ListOrEmpty(m.network)| + 2 * |ListOrEmpty(m.disks)|
    ensures forall i :: 0 <= i < |ListOrEmpty(m.disks)| ==>
              var d := ListOrEmpty(m.disks)[i];
              SaveLines(m)[2 + 2 * |ListOrEmpty(m.network)| + 2 * i] == CounterLine(Disk, d.deviceName, "READ", d.totalBytesRead) &&
              SaveLines(m)[2 + 2 * |ListOrEmpty(m.network)| + 2 * i + 1] == CounterLine(Disk, d.deviceName, "WRITE", d.totalBytesWritten)
  {
    SaveBlocks(m);
    SaveLinesDiskBlock(SaveLines(m), 2 + 2 * |ListOrEmpty(m.network)|, ListOrEmpty(m.disks));
  }

  /** Where the two families' blocks sit in the file. */
  lemma SaveBlocks(m: SystemMetrics)
    ensures var lines, n, d := SaveLines(m), |ListOrEmpty(m.network)|, |ListOrEmpty(m.disks)|;
      && |lines| == 2 + 2 * n + 2 * d
      && lines[2..2 + 2 * n] == FamilyLines(Network, NetworkCounters(ListOrEmpty(m.network)))
      && lines[2 + 2 * n..] == FamilyLines(Disk, DiskCounters(ListOrEmpty(m.disks)))
  {
    var a := FamilyLines(Network, NetworkCounters(ListOrEmpty(m.network)));
    var b := FamilyLines(Disk, DiskCounters(ListOrEmpty(m.disks)));
    SaveSplits(m);
    TailParts(SaveLines(m), a, b, 2 * |ListOrEmpty(m.network)|);
  }

  lemma TailParts<T>(s: seq<T>, a: seq<T>, b: seq<T>, n: nat)
    requires |s| >= 2 && s[2..] == a + b && n == |a|
    ensures |s| == 2 + n + |b|
    ensures s[2..2 + n] == a && s[2 + n..] == b
  {
    assert s[2..2 + n] == s[2..][..n];
    assert s[2 + n..] == s[2..][n..];
  }

  lemma SaveLinesNetworkBlock(lines: seq<string>, offset: nat, nets: seq<InterfaceStats>)
    requires offset + 2 * |nets| <= |lines|
    requires lines[offset..offset + 2 * |nets|] == FamilyLines(Network, NetworkCounters(nets))
    ensures forall i :: 0 <= i < |nets| ==>
              lines[offset + 2 * i] == CounterLine(Network, nets[i].name, "IN", nets[i].totalInOctets) &&
              lines[offset + 2 * i + 1] == CounterLine(Network, nets[i].name, "OUT", nets[i].totalOutOctets)
  {
    var nc := NetworkCounters(nets);
    FamilyBlockAt(lines, offset, Network, nc);
    forall i | 0 <= i < |nets|
      ensures nc[i] == Counters(nets[i].name, nets[i].totalInOctets, nets[i].totalOutOctets)
    {
    }
  }

  lemma SaveLinesDiskBlock(lines: seq<string>, offset: nat, disks: seq<DiskStats>)
    requires offset <= |lines| && lines[offset..] == FamilyLines(Disk, DiskCounters(disks))
    ensures forall i :: 0 <= i < |disks| ==>
              lines[offset + 2 * i] == CounterLine(Disk, disks[i].deviceName, "READ", disks[i].totalBytesRead) &&
              lines[offset + 2 * i + 1] == CounterLine(Disk, disks[i].deviceName, "WRITE", disks[i].totalBytesWritten)
  {
    var dc := DiskCounters(disks);
    assert lines[offset..offset + 2 * |dc|] == lines[offset..];
    FamilyBlockAt(lines, offset, Disk, dc);
    forall i | 0 <= i < |disks|
      ensures dc[i] == Counters(disks[i].deviceName, disks[i].totalBytesRead, disks[i].totalBytesWritten)
    {
    }
  }

  // ---------------------------------------------------------------------------
  // Parsing

  /** A body line that parsed: its family, device name, field and value. */
  datatype Entry = Entry(family: Family, name: string, field: string, value: uint64)

  /** `iss >> key >> value`: the first white-space-delimited token, then an unsigned number. */
  function Tokenize(line: string): Option<(string, uint64)> {
    var j := SkipSpaces(line, 0);
    var e := RunEnd(line, j, NotSpace);
    if e == j then None
    else
      match ParseUnsigned(line, e)
      case None => None
      case Some(p) => Some((line[j..e], p.0))
  }

  /** `s.rfind(c)`, with -1 for npos. */
  function LastIndexOf(s: string, c: char): (r: int)
    ensures -1 <= r < |s|
    ensures r >= 0 ==> s[r] == c
    ensures forall k :: r < k < |s| ==> s[k] != c
  {
    if s == [] then -1
    else if s[|s| - 1] == c then |s| - 1
    else LastIndexOf(s[..|s| - 1], c)
  }

  lemma LastIndexOfAt(s: string, c: char, r: nat)
    requires r < |s| && s[r] == c
    requires forall k :: r < k < |s| ==> s[k] != c
    ensures LastIndexOf(s, c) == r
  {
  }

  /**
   * Splits a key at its last underscore into device name and field; keys
   * whose device name would be empty, and keys of no known family, are skipped.
   */
  function ClassifyKey(key: string, value: uint64): Option<Entry> {
    if Head(key, 8) == "NETWORK_" then
      var u := LastIndexOf(key, '_');
      if u <= 8 then None else Some(Entry(Network, key[8..u], key[u + 1..], value))
    else if Head(key, 5) == "DISK_" then
      var u := LastIndexOf(key, '_');
      if u <= 5 then None else Some(Entry(Disk, key[5..u], key[u + 1..], value))
    else None
  }

  /** A body line: empty and malformed lines give None and are skipped. */
  function ParseBodyLine(line: string): Option<Entry> {
    if line == [] then None
    else
      match Tokenize(line)
      case None => None
      case Some(kv) => ClassifyKey(kv.0, kv.1)
  }

  /** The devices read so far, per family, in first-appearance order. */
  datatype Devices = Devices(network: seq<Counters>, disks: seq<Counters>)

  const NoDevices := Devices([], [])

  function Get(d: Devices, f: Family): seq<Counters> {
    match f
    case Network => d.network
    case Disk => d.disks
  }

  function Put(d: Devices, f: Family, cs: seq<Counters>): Devices {
    match f
    case Network => d.(network := cs)
    case Disk => d.(disks := cs)
  }

  /** `std::find_if` by name: the first device with that name, or -1. */
  function FindIndex(cs: seq<Counters>, name: string): (r: int)
    ensures -1 <= r < |cs|
    ensures r >= 0 ==> cs[r].name == name
    ensures forall k :: 0 <= k < |cs| && (r < 0 || k < r) ==> cs[k].name != name
  {
    if cs == [] then -1
    else if cs[0].name == name then 0
    else
      var r := FindIndex(cs[1..], name);
      if r < 0 then -1 else r + 1
  }

  /** Finds or creates (with zero counters) the device, then sets the named counter; an unknown field sets nothing. */
  function Record(cs: seq<Counters>, f: Family, e: Entry): seq<Counters> {
    var i := FindIndex(cs, e.name);
    var cs' := if i < 0 then cs + [Counters(e.name, 0, 0)] else cs;
    var k := if i < 0 then |cs| else i;
    if e.field == PrimaryField(f) then cs'[k := cs'[k].(primary := e.value)]
    else if e.field == SecondaryField(f) then cs'[k := cs'[k].(secondary := e.value)]
    else cs'
  }

  function Absorb(d: Devices, line: string): Devices {
    match ParseBodyLine(line)
    case None => d
    case Some(e) => Put(d, e.family, Record(Get(d, e.family), e.family, e))
  }

  /** The body loop: every line absorbed in file order. */
  function ReadBody(d: Devices, lines: seq<string>): Devices
    decreases |lines|
  {
    if lines == [] then d else ReadBody(Absorb(d, lines[0]), lines[1..])
  }

  /** What a successful load yields: the timestamp and each device list that is non-empty. */
  datatype LoadedState = LoadedState(timestamp: uint64, network: Option<seq<Counters>>, disks: Option<seq<Counters>>)

  function NonEmpty(cs: seq<Counters>): Option<seq<Counters>> {
    if cs == [] then None else Some(cs)
  }

  /** The two header lines: `VERSION 1.x`, then `TIMESTAMP <number>`. */
  function ParseHeader(lines: seq<string>): Option<uint64> {
    if |lines| < 1 || Head(lines[0], 8) != "VERSION " || !ValidateVersion(lines[0][8..]) then None
    else if |lines| < 2 || Head(lines[1], 10) != "TIMESTAMP " then None
    else
      match ParseUnsigned(lines[1][10..], 0)
      case None => None
      case Some(p) => Some(p.0)
  }

  /** `load` over the lines of an existing, readable file. */
  function ParseState(lines: seq<string>): Option<LoadedState> {
    match ParseHeader(lines)
    case None => None
    case Some(ts) =>
      var d := ReadBody(NoDevices, lines[2..]);
      Some(LoadedState(ts, NonEmpty(d.network), NonEmpty(d.disks)))
  }

  // ---------------------------------------------------------------------------
  // The loops of save and load

  lemma FamilyLinesSnoc(f: Family, cs: seq<Counters>, c: Counters)
    ensures FamilyLines(f, cs + [c]) == FamilyLines(f, cs) + DeviceLines(f, c)
  {
    assert (cs + [c])[..|cs|] == cs;
  }

  /** One turn of the interface loop of `save`, spelled as the loop spells it. */
  lemma NetworkWriteStep(prior: seq<Counters>, c: Counters, safeName: string)
    requires safeName == Sanitized(c.name)
    ensures FamilyLines(Network, prior + [c]) == FamilyLines(Network, prior) +
      ["NETWORK_" + safeName + "_IN " + NatToDecimal(c.primary),
       "NETWORK_" + safeName + "_OUT " + NatToDecimal(c.secondary)]
  {
    FamilyLinesSnoc(Network, prior, c);
    CounterLineSpelling(c.name, c.primary);
    CounterLineSpelling(c.name, c.secondary);
  }

  /** One turn of the disk loop of `save`, spelled as the loop spells it. */
  lemma DiskWriteStep(prior: seq<Counters>, c: Counters, safeName: string)
    requires safeName == Sanitized(c.name)
    ensures FamilyLines(Disk, prior + [c]) == FamilyLines(Disk, prior) +
      ["DISK_" + safeName + "_READ " + NatToDecimal(c.primary),
       "DISK_" + safeName + "_WRITE " + NatToDecimal(c.secondary)]
  {
    FamilyLinesSnoc(Disk, prior, c);
    CounterLineSpelling(c.name, c.primary);
    CounterLineSpelling(c.name, c.secondary);
  }

  lemma NetworkCountersSnoc(ifaces: seq<InterfaceStats>, i: nat)
    requires i < |ifaces|
    ensures NetworkCounters(ifaces[..i + 1]) == NetworkCounters(ifaces[..i])
      + [Counters(ifaces[i].name, ifaces[i].totalInOctets, ifaces[i].totalOutOctets)]
  {
  }

  lemma DiskCountersSnoc(disks: seq<DiskStats>, i: nat)
    requires i < |disks|
    ensures DiskCounters(disks[..i + 1]) == DiskCounters(disks[..i])
      + [Counters(disks[i].deviceName, disks[i].totalBytesRead, disks[i].totalBytesWritten)]
  {
  }

  /** The writing loops of `save`. */
  method WriteLines(metrics: SystemMetrics) returns (lines: seq<string>)
    ensures lines == SaveLines(metrics)
  {
    lines := ["VERSION " + FormatVersion, "TIMESTAMP " + NatToDecimal(metrics.timestamp)];
    lines := WriteInterfaces(lines, ListOrEmpty(metrics.network));
    lines := WriteDisks(lines, ListOrEmpty(metrics.disks));
  }

  /** The interface loop of `save`: an IN and an OUT line per interface. */
  method WriteInterfaces(front: seq<string>, ifaces: seq<InterfaceStats>) returns (lines: seq<string>)
    ensures lines == front + FamilyLines(Network, NetworkCounters(ifaces))
  {
    lines := front;
    var i := 0;
    while i < |ifaces|
      invariant 0 <= i <= |ifaces|
      invariant lines == front + FamilyLines(Network, NetworkCounters(ifaces[..i]))
    {
      var safeName := SanitizeKey(ifaces[i].name);
      ghost var c := Counters(ifaces[i].name, ifaces[i].totalInOctets, ifaces[i].totalOutOctets);
      NetworkCountersSnoc(ifaces, i);
      NetworkWriteStep(NetworkCounters(ifaces[..i]), c, safeName);
      var pair := ["NETWORK_" + safeName + "_IN " + NatToDecimal(ifaces[i].totalInOctets),
                   "NETWORK_" + safeName + "_OUT " + NatToDecimal(ifaces[i].totalOutOctets)];
      AppendAssociates(front, FamilyLines(Network, NetworkCounters(ifaces[..i])), pair);
      lines := lines + pair;
      i := i + 1;
    }
    assert ifaces[..i] == ifaces;
  }

  /** The disk loop of `save`: a READ and a WRITE line per disk. */
  method WriteDisks(front: seq<string>, disks: seq<DiskStats>) returns (lines: seq<string>)
    ensures lines == front + FamilyLines(Disk, DiskCounters(disks))
  {
    lines := front;
    var i := 0;
    while i < |disks|
      invariant 0 <= i <= |disks|
      invariant lines == front + FamilyLines(Disk, DiskCounters(disks[..i]))
    {
      var safeName := SanitizeKey(disks[i].deviceName);
      ghost var c := Counters(disks[i].deviceName, disks[i].totalBytesRead, disks[i].totalBytesWritten);
      DiskCountersSnoc(disks, i);
      DiskWriteStep(DiskCounters(disks[..i]), c, safeName);
      var pair := ["DISK_" + safeName + "_READ " + NatToDecimal(disks[i].totalBytesRead),
                   "DISK_" + safeName + "_WRITE " + NatToDecimal(disks[i].totalBytesWritten)];
      AppendAssociates(front, FamilyLines(Disk, DiskCounters(disks[..i])), pair);
      lines := lines + pair;
      i := i + 1;
    }
    assert disks[..i] == disks;
  }

  /** The `std::find_if` scan over the devices read so far. */
  method FindDevice(cs: seq<Counters>, name: string) returns (index: int)
    ensures index == FindIndex(cs, name)
  {
    index := 0;
    while index < |cs|
      invariant 0 <= index <= |cs|
      invariant forall k :: 0 <= k < index ==> cs[k].name != name
    {
      if cs[index].name == name {
        return;
      }
      index := index + 1;
    }
    index := -1;
  }

  /** Finds or appends the entry's device in its family's list, then sets the named counter. */
  method RecordEntry(cs: seq<Counters>, e: Entry) returns (updated: seq<Counters>)
    ensures updated == Record(cs, e.family, e)
  {
    updated := cs;
    var k := FindDevice(cs, e.name);
    if k < 0 {
      updated := updated + [Counters(e.name, 0, 0)];
      k := |updated| - 1;
    }
    if e.field == PrimaryField(e.family) {
      updated := updated[k := updated[k].(primary := e.value)];
    } else if e.field == SecondaryField(e.family) {
      updated := updated[k := updated[k].(secondary := e.value)];
    }
  }

  lemma ReadBodyStep(d: Devices, lines: seq<string>, i: nat)
    requires i < |lines|
    ensures ReadBody(d, lines[i..]) == ReadBody(Absorb(d, lines[i]), lines[i + 1..])
  {
    assert lines[i..][1..] == lines[i + 1..];
  }

  /** The reading loop of `load`, after the file was opened. */
  method ReadLines(lines: seq<string>) returns (r: Option<LoadedState>)
    ensures r == ParseState(lines)
  {
    var ts := ReadHeader(lines);
    if ts.None? {
      return None;
    }
    var network, disks := ReadDevices(lines);
    r := Some(LoadedState(ts.value, NonEmpty(network), NonEmpty(disks)));
  }

  /** The VERSION and TIMESTAMP checks at the top of `load`. */
  method ReadHeader(lines: seq<string>) returns (ts: Option<uint64>)
    ensures ts == ParseHeader(lines)
  {
    if |lines| < 1 || Head(lines[0], 8) != "VERSION " || !ValidateVersion(lines[0][8..]) {
      return None;
    }
    if |lines| < 2 || Head(lines[1], 10) != "TIMESTAMP " {
      return None;
    }
    var value := ParseUnsigned(lines[1][10..], 0);
    if value.None? {
      return None;
    }
    ts := Some(value.value.0);
  }

  /** The loop over the lines after the header. */
  method ReadDevices(lines: seq<string>) returns (network: seq<Counters>, disks: seq<Counters>)
    requires |lines| >= 2
    ensures Devices(network, disks) == ReadBody(NoDevices, lines[2..])
  {
    network, disks := [], [];
    var i := 2;
    while i < |lines|
      invariant 2 <= i <= |lines|
      invariant ReadBody(Devices(network, disks), lines[i..]) == ReadBody(NoDevices, lines[2..])
    {
      ReadBodyStep(Devices(network, disks), lines, i);
      network, disks := AbsorbLine(network, disks, lines[i]);
      i := i + 1;
    }
  }

  /** One turn of the loop: a line that parses updates its family's list. */
  method AbsorbLine(network: seq<Counters>, disks: seq<Counters>, line: string)
    returns (network': seq<Counters>, disks': seq<Counters>)
    ensures Devices(network', disks') == Absorb(Devices(network, disks), line)
  {
    network', disks' := network, disks;
    var entry := ParseBodyLine(line);
    if entry.Some? {
      var e := entry.value;
      if e.family == Network {
        network' := RecordEntry(network, e);
      } else {
        disks' := RecordEntry(disks, e);
      }
    }
  }

  // ---------------------------------------------------------------------------
  // What load makes of a file

  lemma {:induction false} ReadBodyAppend(d: Devices, a: seq<string>, b: seq<string>)
    ensures ReadBody(d, a + b) == ReadBody(ReadBody(d, a), b)
    decreases |a|
  {
    if a != [] {
      assert (a + b)[0] == a[0];
      assert (a + b)[1..] == a[1..] + b;
      ReadBodyAppend(Absorb(d, a[0]), a[1..], b);
    } else {
      assert a + b == b;
    }
  }

  /** The header `save` writes is accepted, whatever follows it. */
  lemma HeaderOfSave(ts: uint64, body: seq<string>)
    ensures ParseHeader(["VERSION " + FormatVersion, "TIMESTAMP " + NatToDecimal(ts)] + body) == Some(ts)
  {
    var lines := ["VERSION " + FormatVersion, "TIMESTAMP " + NatToDecimal(ts)] + body;
    assert lines[0] == "VERSION 1.0";
    assert Head(lines[0], 8) == "VERSION ";
    assert lines[0][8..] == "1.0";
    var d := NatToDecimal(ts);
    assert Head(lines[1], 10) == "TIMESTAMP ";
    assert lines[1][10..] == d;
    assert d[0..|d|] == d;
    ParseUnsignedOfDecimal(d, 0, 0, ts);
  }

  /**
   * `load` fails exactly when the header is wrong: a missing or non-1.x
   * VERSION line, or a missing TIMESTAMP line or one without a number.
   */
  lemma LoadNeedsHeader(lines: seq<string>)
    ensures ParseState(lines).Some? <==>
      && |lines| >= 2
      && |lines[0]| >= 8 && lines[0][..8] == "VERSION " && ValidateVersion(lines[0][8..])
      && |lines[1]| >= 10 && lines[1][..10] == "TIMESTAMP " && ParseUnsigned(lines[1][10..], 0).Some?
    ensures ParseState(lines).Some? ==> ParseState(lines).value.timestamp == ParseUnsigned(lines[1][10..], 0).value.0
  {
  }

  lemma HeaderExamples()
    ensures ParseState([]) == None
    ensures ParseState(["VERSION 1.0"]) == None
    ensures ParseState(["VERSION 0.5", "TIMESTAMP 5"]) == None
    ensures ParseState(["VERSION 1.0", "TIMESTAMP x"]) == None
    ensures ParseState(["VERSION 1.9", "TIMESTAMP 7"]) == Some(LoadedState(7, None, None))
  {
    LoadNeedsHeader(["VERSION 0.5", "TIMESTAMP 5"]);
    var bad := ["VERSION 1.0", "TIMESTAMP x"];
    assert bad[1][10..] == "x";
    assert RunEnd("x", 0, IsSpace) == 0;
    assert RunEnd("x", 0, IsDigit) == 0;
    var good := ["VERSION 1.9", "TIMESTAMP 7"];
    assert good[0][8..] == "1.9";
    assert good[1][10..] == "7" == NatToDecimal(7);
    ParseUnsignedOfDecimal("7", 0, 0, 7);
  }

  /** A line that does not parse is skipped: appending it changes nothing. */
  lemma SkipsUnparsableLine(lines: seq<string>, bad: string)
    requires |lines| >= 2 && ParseBodyLine(bad) == None
    ensures ParseState(lines + [bad]) == ParseState(lines)
  {
    assert (lines + [bad])[2..] == lines[2..] + [bad];
    ReadBodyAppend(NoDevices, lines[2..], [bad]);
    assert ReadBody(ReadBody(NoDevices, lines[2..]), [bad]) == ReadBody(NoDevices, lines[2..]);
  }

  /** The line `iss >> key >> value` reads when the key is the first e characters. */
  lemma TokenizeAt(line: string, e: nat)
    requires 0 < e < |line| && IsSpace(line[e])
    requires forall k :: 0 <= k < e ==> NotSpace(line[k])
    ensures Tokenize(line) == match ParseUnsigned(line, e)
                              case None => None
                              case Some(p) => Some((line[..e], p.0))
  {
    RunEndAt(line, 0, 0, IsSpace);
    RunEndAt(line, 0, e, NotSpace);
  }

  /** A device name the file carries faithfully: non-empty, with no white space. */
  predicate PlainName(name: string) {
    name != [] && forall k :: 0 <= k < |name| ==> NotSpace(name[k])
  }

  /** A field name: no white space and no underscore. */
  predicate PlainField(field: string) {
    forall k :: 0 <= k < |field| ==> NotSpace(field[k]) && field[k] != '_'
  }

  lemma FieldsArePlain(f: Family)
    ensures PlainField(PrimaryField(f)) && PlainField(SecondaryField(f))
    ensures PrimaryField(f) != SecondaryField(f)
  {
    var p, q := PrimaryField(f), SecondaryField(f);
    forall k | 0 <= k < |p| ensures NotSpace(p[k]) && p[k] != '_' {
      assert p[k] in {'I', 'N', 'R', 'E', 'A', 'D'};
    }
    forall k | 0 <= k < |q| ensures NotSpace(q[k]) && q[k] != '_' {
      assert q[k] in {'O', 'U', 'T', 'W', 'R', 'I', 'E'};
    }
  }

  lemma PlainNameIsKept(name: string)
    requires PlainName(name)
    ensures Sanitized(name) == name
  {
    SanitizedProperties(name);
  }

  /** The key is split at its LAST underscore, so device names may hold underscores. */
  lemma ClassifyCounterKey(f: Family, name: string, field: string, v: uint64)
    requires name != [] && PlainField(field)
    ensures ClassifyKey(KeyPrefix(f) + name + "_" + field, v) == Some(Entry(f, name, field, v))
  {
    var pre := KeyPrefix(f);
    var key := pre + name + "_" + field;
    var u := |pre| + |name|;
    assert key[u] == '_';
    forall k | u < k < |key| ensures key[k] != '_' {
      assert key[k] == field[k - u - 1];
    }
    LastIndexOfAt(key, '_', u);
    assert key[|pre|..u] == name;
    assert key[u + 1..] == field;
    assert key[..|pre|] == pre;
    if f == Disk {
      assert key[0] == 'D';
      assert Head(key, 8) != "NETWORK_" by {
        assert Head(key, 8)[0] == 'D';
      }
    }
  }

  lemma KeyIsPlain(f: Family, name: string, field: string)
    requires PlainName(name) && PlainField(field)
    ensures forall k :: 0 <= k < |KeyPrefix(f) + name + "_" + field| ==> NotSpace((KeyPrefix(f) + name + "_" + field)[k])
  {
    var pre := KeyPrefix(f);
    var key := pre + name + "_" + field;
    forall k | 0 <= k < |key| ensures NotSpace(key[k]) {
      if k < |pre| {
        assert key[k] == pre[k];
      } else if k < |pre| + |name| {
        assert key[k] == name[k - |pre|];
      } else if k > |pre| + |name| {
        assert key[k] == field[k - |pre| - |name| - 1];
      }
    }
  }

  /** `iss >> key >> value` over `key value`, as `save` writes it. */
  lemma TokenizeKeyValue(key: string, v: uint64)
    requires key != [] && forall k :: 0 <= k < |key| ==> NotSpace(key[k])
    ensures Tokenize(key + " " + NatToDecimal(v)) == Some((key, v))
  {
    var line := key + " " + NatToDecimal(v);
    assert line[..|key|] == key && line[|key|] == ' ' && line[|key| + 1..] == NatToDecimal(v);
    TokenizeSplit(line, |key|, v);
  }

  /** The same, for a line given as its key, a space and the digits of v. */
  lemma TokenizeSplit(line: string, e: nat, v: uint64)
    requires 0 < e < |line| && line[e] == ' ' && line[e + 1..] == NatToDecimal(v)
    requires forall k :: 0 <= k < e ==> NotSpace(line[..e][k])
    ensures Tokenize(line) == Some((line[..e], v))
  {
    forall k | 0 <= k < e ensures NotSpace(line[k]) {
      assert line[k] == line[..e][k];
    }
    TokenizeAt(line, e);
    var d := NatToDecimal(v);
    assert |line| == e + 1 + |d|;
    assert line[e + 1..e + 1 + |d|] == d;
    ParseUnsignedOfDecimal(line, e, e + 1, v);
  }

  /** Every line `save` writes for a plainly named device parses back to that entry. */
  lemma CounterLineParses(f: Family, name: string, field: string, v: uint64)
    requires PlainName(name) && PlainField(field)
    ensures ParseBodyLine(CounterLine(f, name, field, v)) == Some(Entry(f, name, field, v))
  {
    PlainNameIsKept(name);
    var key := KeyPrefix(f) + name + "_" + field;
    assert CounterLine(f, name, field, v) == key + " " + NatToDecimal(v);
    KeyIsPlain(f, name, field);
    TokenizeKeyValue(key, v);
    ClassifyCounterKey(f, name, field, v);
  }

  /** `find_if` over a list extended by one device the list did not hold finds that device. */
  lemma FindIndexOfAppended(cs: seq<Counters>, c: Counters)
    requires FindIndex(cs, c.name) < 0
    ensures FindIndex(cs + [c], c.name) == |cs|
  {
    var ext := cs + [c];
    assert ext[|cs|].name == c.name;
    forall k | 0 <= k < |cs| ensures ext[k].name != c.name {
      assert ext[k] == cs[k];
    }
  }

  lemma ReadTwoLines(d: Devices, l1: string, l2: string)
    ensures ReadBody(d, [l1, l2]) == Absorb(Absorb(d, l1), l2)
  {
    assert [l1, l2][1..] == [l2];
    assert [l2][1..] == [];
    assert ReadBody(d, [l1, l2]) == ReadBody(Absorb(d, l1), [l2]);
    assert ReadBody(Absorb(d, l1), [l2]) == ReadBody(Absorb(Absorb(d, l1), l2), []);
  }

  /** The first line naming a new device appends it with that counter set. */
  lemma RecordNewPrimary(cs: seq<Counters>, f: Family, e: Entry)
    requires FindIndex(cs, e.name) < 0 && e.field == PrimaryField(f)
    ensures Record(cs, f, e) == cs + [Counters(e.name, e.value, 0)]
  {
  }

  lemma RecordKnownSecondary(cs: seq<Counters>, f: Family, e: Entry, i: nat)
    requires FindIndex(cs, e.name) == i && e.field == SecondaryField(f) && e.field != PrimaryField(f)
    ensures Record(cs, f, e) == cs[i := cs[i].(secondary := e.value)]
  {
  }

  /** The primary line of a device new to its family appends it with that counter set. */
  lemma AbsorbPrimaryLine(d: Devices, f: Family, c: Counters)
    requires PlainName(c.name) && FindIndex(Get(d, f), c.name) < 0
    ensures Absorb(d, CounterLine(f, c.name, PrimaryField(f), c.primary))
         == Put(d, f, Get(d, f) + [Counters(c.name, c.primary, 0)])
  {
    FieldsArePlain(f);
    CounterLineParses(f, c.name, PrimaryField(f), c.primary);
    RecordNewPrimary(Get(d, f), f, Entry(f, c.name, PrimaryField(f), c.primary));
  }

  /** The secondary line of a device just appended sets its second counter. */
  lemma AbsorbSecondaryLine(d: Devices, f: Family, g: seq<Counters>, c: Counters)
    requires PlainName(c.name) && FindIndex(g, c.name) < 0
    requires Get(d, f) == g + [Counters(c.name, c.primary, 0)]
    ensures Absorb(d, CounterLine(f, c.name, SecondaryField(f), c.secondary)) == Put(d, f, g + [c])
  {
    FieldsArePlain(f);
    CounterLineParses(f, c.name, SecondaryField(f), c.secondary);
    RecordSecondaryOfAppended(g, f, c);
  }

  lemma RecordSecondaryOfAppended(g: seq<Counters>, f: Family, c: Counters)
    requires FindIndex(g, c.name) < 0
    ensures Record(g + [Counters(c.name, c.primary, 0)], f, Entry(f, c.name, SecondaryField(f), c.secondary)) == g + [c]
  {
    var first := Counters(c.name, c.primary, 0);
    FieldsArePlain(f);
    FindIndexOfAppended(g, first);
    RecordKnownSecondary(g + [first], f, Entry(f, c.name, SecondaryField(f), c.secondary), |g|);
    assert (g + [first])[|g| := c] == g + [c];
  }

  /** Both lines of a device new to its family add it, counters and all, at the end. */
  lemma ReadDeviceLines(d: Devices, f: Family, c: Counters)
    requires PlainName(c.name) && FindIndex(Get(d, f), c.name) < 0
    ensures ReadBody(d, DeviceLines(f, c)) == Put(d, f, Get(d, f) + [c])
  {
    var l1 := CounterLine(f, c.name, PrimaryField(f), c.primary);
    var l2 := CounterLine(f, c.name, SecondaryField(f), c.secondary);
    ReadTwoLines(d, l1, l2);
    AbsorbPrimaryLine(d, f, c);
    var d1 := Put(d, f, Get(d, f) + [Counters(c.name, c.primary, 0)]);
    AbsorbSecondaryLine(d1, f, Get(d, f), c);
  }

  /** The counters are plainly named, with no name twice. */
  predicate PlainDistinct(cs: seq<Counters>) {
    && (forall i :: 0 <= i < |cs| ==> PlainName(cs[i].name))
    && (forall i, j :: 0 <= i < j < |cs| ==> cs[i].name != cs[j].name)
  }

  lemma GetPut(d: Devices, f: Family, cs: seq<Counters>)
    ensures Get(Put(d, f, cs), f) == cs
    ensures forall a :: Put(Put(d, f, a), f, cs) == Put(d, f, cs)
  {
  }

  /** One more device's lines, read after those of the devices before it. */
  lemma ReadFamilyStep(d: Devices, f: Family, init: seq<Counters>, c: Counters)
    requires Get(d, f) == [] && ReadBody(d, FamilyLines(f, init)) == Put(d, f, init)
    requires PlainName(c.name) && FindIndex(init, c.name) < 0
    ensures ReadBody(d, FamilyLines(f, init + [c])) == Put(d, f, init + [c])
  {
    FamilyLinesSnoc(f, init, c);
    ReadBodyAppend(d, FamilyLines(f, init), DeviceLines(f, c));
    GetPut(d, f, init);
    ReadDeviceLines(Put(d, f, init), f, c);
    GetPut(d, f, init + [c]);
  }

  /** Reading a family's lines into an empty family yields its devices, in order. */
  lemma {:induction false} ReadFamilyLines(d: Devices, f: Family, cs: seq<Counters>)
    requires Get(d, f) == [] && PlainDistinct(cs)
    ensures ReadBody(d, FamilyLines(f, cs)) == Put(d, f, cs)
    decreases |cs|
  {
    if cs != [] {
      var init, c := cs[..|cs| - 1], cs[|cs| - 1];
      assert cs == init + [c];
      assert PlainDistinct(init);
      ReadFamilyLines(d, f, init);
      ReadFamilyStep(d, f, init, c);
    }
  }

  /**
   * Save then load gives back the timestamp and every device's counters, in
   * order, when device names are non-empty, free of white space and distinct
   * within their family; an empty family loads as absent.
   */
  lemma SaveLoadRoundTrip(m: SystemMetrics)
    requires PlainDistinct(NetworkCounters(ListOrEmpty(m.network)))
    requires PlainDistinct(DiskCounters(ListOrEmpty(m.disks)))
    ensures ParseState(SaveLines(m)) == Some(LoadedState(m.timestamp,
      NonEmpty(NetworkCounters(ListOrEmpty(m.network))), NonEmpty(DiskCounters(ListOrEmpty(m.disks)))))
  {
    var nc, dc := NetworkCounters(ListOrEmpty(m.network)), DiskCounters(ListOrEmpty(m.disks));
    SaveSplits(m);
    ReadBodyAppend(NoDevices, FamilyLines(Network, nc), FamilyLines(Disk, dc));
    ReadFamilyLines(NoDevices, Network, nc);
    ReadFamilyLines(Devices(nc, []), Disk, dc);
  }

  /** A snapshot with no metric family saves as the bare header and loads back with its timestamp and no devices. */
  lemma EmptySnapshotRoundTrip(t: uint64)
    ensures SaveLines(EmptyMetrics(t)) == ["VERSION " + FormatVersion, "TIMESTAMP " + NatToDecimal(t)]
    ensures ParseState(SaveLines(EmptyMetrics(t))) == Some(LoadedState(t, None, None))
  {
    var m := EmptyMetrics(t);
    assert NetworkCounters(ListOrEmpty(m.network)) == [] && DiskCounters(ListOrEmpty(m.disks)) == [];
    SaveLoadRoundTrip(m);
  }

  /** What `save` writes is the header and the two families' blocks, and its header parses. */
  lemma SaveSplits(m: SystemMetrics)
    ensures |SaveLines(m)| >= 2 && ParseHeader(SaveLines(m)) == Some(m.timestamp)
    ensures SaveLines(m)[2..] == FamilyLines(Network, NetworkCounters(ListOrEmpty(m.network)))
                               + FamilyLines(Disk, DiskCounters(ListOrEmpty(m.disks)))
  {
    var header := ["VERSION " + FormatVersion, "TIMESTAMP " + NatToDecimal(m.timestamp)];
    var a := FamilyLines(Network, NetworkCounters(ListOrEmpty(m.network)));
    var b := FamilyLines(Disk, DiskCounters(ListOrEmpty(m.disks)));
    assert SaveLines(m) == header + (a + b);
    HeaderOfSave(m.timestamp, a + b);
  }

  /** A line whose key holds a field the family does not know still creates the device, with zero counters. */
  lemma UnknownFieldCreatesDevice(ts: uint64, name: string, field: string, v: uint64)
    requires PlainName(name) && PlainField(field) && field != "IN" && field != "OUT"
    ensures ParseState(["VERSION 1.0", "TIMESTAMP " + NatToDecimal(ts), CounterLine(Network, name, field, v)])
         == Some(LoadedState(ts, Some([Counters(name, 0, 0)]), None))
  {
    var line := CounterLine(Network, name, field, v);
    var lines := ["VERSION " + FormatVersion, "TIMESTAMP " + NatToDecimal(ts)] + [line];
    assert "VERSION " + FormatVersion == "VERSION 1.0";
    assert lines == ["VERSION 1.0", "TIMESTAMP " + NatToDecimal(ts), line];
    HeaderOfSave(ts, [line]);
    assert lines[2..] == [line];
    assert [line][1..] == [];
    CounterLineParses(Network, name, field, v);
    assert Record([], Network, Entry(Network, name, field, v)) == [Counters(name, 0, 0)];
    assert ReadBody(NoDevices, [line]) == Absorb(NoDevices, line);
  }

  /** Recording keeps every device's name and place, and appends a device only when its name is new. */
  lemma RecordPlaces(cs: seq<Counters>, f: Family, e: Entry)
    ensures var r, i := Record(cs, f, e), FindIndex(cs, e.name);
      && |r| == (if i < 0 then |cs| + 1 else |cs|)
      && (forall k :: 0 <= k < |cs| ==> r[k].name == cs[k].name)
      && (i < 0 ==> r[|cs|].name == e.name)
      && FindIndex(r, e.name) == (if i < 0 then |cs| else i)
  {
    var r, i := Record(cs, f, e), FindIndex(cs, e.name);
    var k := if i < 0 then |cs| else i;
    assert r[k].name == e.name;
    forall j | 0 <= j < k ensures r[j].name != e.name {
      assert r[j].name == cs[j].name;
    }
  }

  /** A later line for the same device and field overwrites the earlier value. */
  lemma LastValueWins(cs: seq<Counters>, f: Family, name: string, field: string, v1: uint64, v2: uint64)
    ensures Record(Record(cs, f, Entry(f, name, field, v1)), f, Entry(f, name, field, v2))
         == Record(cs, f, Entry(f, name, field, v2))
  {
    var e1, e2 := Entry(f, name, field, v1), Entry(f, name, field, v2);
    RecordPlaces(cs, f, e1);
    var once := Record(cs, f, e1);
    var i := FindIndex(cs, name);
    var base := if i < 0 then cs + [Counters(name, 0, 0)] else cs;
    var k := if i < 0 then |cs| else i;
    assert FindIndex(once, name) == k;
    assert |once| == |base|;
  }

  /** Every device name occurs at most once per family. */
  predicate DistinctNames(cs: seq<Counters>) {
    forall i, j :: 0 <= i < j < |cs| ==> cs[i].name != cs[j].name
  }

  lemma RecordKeepsNamesDistinct(cs: seq<Counters>, f: Family, e: Entry)
    requires DistinctNames(cs)
    ensures DistinctNames(Record(cs, f, e))
  {
    RecordPlaces(cs, f, e);
  }

  /** However malformed the file, `load` never yields a device name twice in a family. */
  lemma {:induction false} ReadBodyKeepsNamesDistinct(d: Devices, lines: seq<string>)
    requires DistinctNames(d.network) && DistinctNames(d.disks)
    ensures DistinctNames(ReadBody(d, lines).network) && DistinctNames(ReadBody(d, lines).disks)
    decreases |lines|
  {
    if lines != [] {
      var e := ParseBodyLine(lines[0]);
      if e.Some? {
        RecordKeepsNamesDistinct(Get(d, e.value.family), e.value.family, e.value);
      }
      ReadBodyKeepsNamesDistinct(Absorb(d, lines[0]), lines[1..]);
    }
  }

  lemma LoadedNamesDistinct(lines: seq<string>)
    requires ParseState(lines).Some?
    ensures var s := ParseState(lines).value;
      (s.network.Some? ==> s.network.value != [] && DistinctNames(s.network.value)) &&
      (s.disks.Some? ==> s.disks.value != [] && DistinctNames(s.disks.value))
  {
    ReadBodyKeepsNamesDistinct(NoDevices, lines[2..]);
  }

  /**
   * A device name with a space, whose first word holds no underscore, is
   * lost: `iss >> key` stops at the space, and the key left over has no
   * underscore after its prefix.
   */
  lemma SpacedNameIsDropped(f: Family, word: string, rest: string, field: string, v: uint64)
    requires forall k :: 0 <= k < |word| ==> NotSpace(word[k]) && word[k] != '_'
    ensures ParseBodyLine(CounterLine(f, word + " " + rest, field, v)) == None
  {
    var pre := KeyPrefix(f);
    var key := pre + word;
    var line := CounterLine(f, word + " " + rest, field, v);
    LineStartsWithFirstWord(f, word, rest, field, v);
    forall k | 0 <= k < |key| ensures NotSpace(key[k]) {
      if k < |pre| {
        assert key[k] == pre[k];
      } else {
        assert key[k] == word[k - |pre|];
      }
    }
    FirstTokenIs(line, key);
    var t := Tokenize(line);
    if t.Some? {
      ShortKeyIsSkipped(f, word, t.value.1);
    }
  }

  /** `iss >> key` stops at the first space. */
  lemma FirstTokenIs(line: string, key: string)
    requires |line| > |key| > 0 && line[..|key| + 1] == key + " "
    requires forall k :: 0 <= k < |key| ==> NotSpace(key[k])
    ensures Tokenize(line).Some? ==> Tokenize(line).value.0 == key
  {
    var e := |key|;
    forall k | 0 <= k < e ensures NotSpace(line[k]) {
      assert line[k] == line[..e + 1][k];
    }
    assert line[e] == line[..e + 1][e];
    TokenizeAt(line, e);
    assert line[..e] == line[..e + 1][..e];
  }

  lemma LineStartsWithFirstWord(f: Family, word: string, rest: string, field: string, v: uint64)
    requires forall k :: 0 <= k < |word| ==> NotSpace(word[k])
    ensures |CounterLine(f, word + " " + rest, field, v)| > |KeyPrefix(f)| + |word|
    ensures CounterLine(f, word + " " + rest, field, v)[..|KeyPrefix(f)| + |word| + 1] == KeyPrefix(f) + word + " "
  {
    var name := word + " " + rest;
    var t := Sanitized(name);
    assert t[..|word| + 1] == word + " " by {
      forall k | 0 <= k < |word| ensures t[k] == word[k] {
        assert name[k] == word[k];
      }
      assert name[|word|] == ' ';
    }
    var tail := "_" + field + " " + NatToDecimal(v);
    assert CounterLine(f, name, field, v) == KeyPrefix(f) + t + tail;
  }

  /** A key with no underscore after its family prefix names no device and is skipped. */
  lemma ShortKeyIsSkipped(f: Family, word: string, v: uint64)
    requires forall k :: 0 <= k < |word| ==> word[k] != '_'
    ensures ClassifyKey(KeyPrefix(f) + word, v) == None
  {
    var pre := KeyPrefix(f);
    var key := pre + word;
    forall k | |pre| <= k < |key| ensures key[k] != '_' {
      assert key[k] == word[k - |pre|];
    }
    assert key[|pre| - 1] == '_';
    LastIndexOfAt(key, '_', |pre| - 1);
    assert key[..|pre|] == pre;
    if f == Disk {
      assert Head(key, 8) != "NETWORK_" by {
        assert Head(key, 8)[0] == 'D';
      }
    }
  }

  /**
   * The interface "Ethernet 2" does not survive a save and load: its lines
   * read back as the key "NETWORK_Ethernet", which is skipped, so the
   * previous network counters are gone and the first rates after a restart
   * are not computed for it.
   */
  lemma SpacedInterfaceIsLost(m: SystemMetrics, iface: InterfaceStats)
    requires iface.name == "Ethernet 2" && m.network == Some([iface]) && m.disks == None
    ensures ParseState(SaveLines(m)) == Some(LoadedState(m.timestamp, None, None))
  {
    var c := Counters(iface.name, iface.totalInOctets, iface.totalOutOctets);
    assert NetworkCounters([iface]) == [c];
    assert [c][..0] == [];
    assert FamilyLines(Network, [c]) == DeviceLines(Network, c);
    assert FamilyLines(Disk, DiskCounters([])) == [];
    SaveSplits(m);
    assert SaveLines(m)[2..] == DeviceLines(Network, c);
    EthernetIsOneWord();
    DroppedDeviceLeavesNothing(NoDevices, Network, c, "Ethernet", "2");
  }

  lemma EthernetIsOneWord()
    ensures "Ethernet 2" == "Ethernet" + " " + "2"
    ensures forall k :: 0 <= k < |"Ethernet"| ==> NotSpace("Ethernet"[k]) && "Ethernet"[k] != '_'
  {
    var word := "Ethernet";
    forall k | 0 <= k < |word| ensures NotSpace(word[k]) && word[k] != '_' {
      assert word[k] in {'E', 't', 'h', 'e', 'r', 'n'};
    }
  }

  lemma DroppedDeviceLeavesNothing(d: Devices, f: Family, c: Counters, word: string, rest: string)
    requires c.name == word + " " + rest
    requires forall k :: 0 <= k < |word| ==> NotSpace(word[k]) && word[k] != '_'
    ensures ReadBody(d, DeviceLines(f, c)) == d
  {
    var l1 := CounterLine(f, c.name, PrimaryField(f), c.primary);
    var l2 := CounterLine(f, c.name, SecondaryField(f), c.secondary);
    SpacedNameIsDropped(f, word, rest, PrimaryField(f), c.primary);
    SpacedNameIsDropped(f, word, rest, SecondaryField(f), c.secondary);
    ReadTwoLines(d, l1, l2);
  }

  /**
   * A name with an underscore before its first space is not dropped but
   * misread: both lines of "my_eth 2" start with the key "NETWORK_my_eth"
   * and the value 2, the key splits at its last underscore into the device
   * "my" and the unknown field "eth", and load creates a device "my" with
   * zero counters.
   */
  lemma UnderscoredSpacedNameMakesPhantom(inOctets: uint64, outOctets: uint64)
    ensures ParseBodyLine(CounterLine(Network, "my_eth 2", "IN", inOctets)) == Some(Entry(Network, "my", "eth", 2))
    ensures ParseBodyLine(CounterLine(Network, "my_eth 2", "OUT", outOctets)) == Some(Entry(Network, "my", "eth", 2))
    ensures ReadBody(NoDevices, DeviceLines(Network, Counters("my_eth 2", inOctets, outOctets)))
         == Devices([Counters("my", 0, 0)], [])
  {
    var name := "my_eth 2";
    forall k | 0 <= k < |name| ensures !IsLineBreaker(name[k]) {
      assert name[k] in {'m', 'y', '_', 'e', 't', 'h', ' ', '2'};
    }
    SanitizedProperties(name);
    PhantomLine("IN", inOctets);
    PhantomLine("OUT", outOctets);
    var e := Entry(Network, "my", "eth", 2);
    assert Record([], Network, e) == [Counters("my", 0, 0)];
    assert Record([Counters("my", 0, 0)], Network, e) == [Counters("my", 0, 0)];
    ReadTwoLines(NoDevices, CounterLine(Network, name, "IN", inOctets), CounterLine(Network, name, "OUT", outOctets));
  }

  lemma PhantomLine(field: string, v: uint64)
    requires Sanitized("my_eth 2") == "my_eth 2"
    ensures ParseBodyLine(CounterLine(Network, "my_eth 2", field, v)) == Some(Entry(Network, "my", "eth", 2))
  {
    var key := "NETWORK_my_eth";
    var line := CounterLine(Network, "my_eth 2", field, v);
    assert line == key + " 2_" + field + " " + NatToDecimal(v);
    assert line[..17] == key + " 2_";
    PhantomToken(line, key);
    PhantomKey(key);
  }

  lemma PhantomKey(key: string)
    requires key == "NETWORK_my_eth"
    ensures ClassifyKey(key, 2) == Some(Entry(Network, "my", "eth", 2))
  {
    assert key[10] == '_';
    LastIndexOfAt(key, '_', 10);
    assert Head(key, 8) == "NETWORK_";
    assert key[8..10] == "my" && key[11..] == "eth";
  }

  lemma PhantomToken(line: string, key: string)
    requires key == "NETWORK_my_eth" && |line| >= 17 && line[..17] == key + " 2_"
    ensures Tokenize(line) == Some((key, 2))
  {
    assert line[14] == ' ' && line[15] == '2' && line[16] == '_' by {
      assert line[14] == line[..17][14] && line[15] == line[..17][15] && line[16] == line[..17][16];
    }
    forall k | 0 <= k < 14 ensures NotSpace(line[k]) {
      assert line[k] == line[..17][k] == key[k];
      assert key[k] in {'N', 'E', 'T', 'W', 'O', 'R', 'K', '_', 'm', 'y', 'e', 't', 'h'};
    }
    assert line[..14] == line[..17][..14] == key;
    assert NatToDecimal(2) == "2";
    assert line[15..16] == "2";
    ParseUnsignedOfDecimal(line, 14, 15, 2);
    TokenizeAt(line, 14);
  }

  // ---------------------------------------------------------------------------
  // The state file

  /** A `StateManager` and the state file `<temp dir>/<appName>.dat` it owns. */
  class StateManager {
    const appName: string
    /** The file's lines; None when the file does not exist. */
    var stateFile: Option<seq<string>>

    constructor (appName: string, existingFile: Option<seq<string>>)
      ensures this.appName == appName && stateFile == existingFile
    {
      this.appName := appName;
      stateFile := existingFile;
    }

    /**
     * `save`: false, touching nothing, when the file cannot be opened; otherwise
     * truncates and rewrites it, and reports whether the stream was still good
     * after the writes and the close (`writeOk`).
     */
    method Save(metrics: SystemMetrics, canOpen: bool, writeOk: bool) returns (ok: bool)
      modifies this
      ensures ok == (canOpen && writeOk)
      ensures stateFile == if canOpen then Some(SaveLines(metrics)) else old(stateFile)
    {
      if !canOpen {
        return false;
      }
      var lines := WriteLines(metrics);
      stateFile := Some(lines);
      ok := writeOk;
    }

    /** `load`: false (None) when there is no file or it cannot be opened, else the parse. */
    method Load(canOpen: bool) returns (r: Option<LoadedState>)
      ensures stateFile.None? ==> r.None?
      ensures !canOpen ==> r.None?
      ensures stateFile.Some? && canOpen ==> r == ParseState(stateFile.value)
    {
      if stateFile.None? || !canOpen {
        return None;
      }
      r := ReadLines(stateFile.value);
    }
  }
}
