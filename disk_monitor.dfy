/**
 * The disk monitor (src/WinHKMonLib/DiskMonitor.cpp): a performance-counter
 * query with three counters per physical-disk instance, kept in a map
 * ordered by instance name, and the per-disk stats read from it. Every
 * outcome of the OS (opening the query, adding counters, collecting a
 * sample, reading a value, asking for free space) is an input.
 */
module DiskMonitor {
  import opened Wrappers
  import opened Types

  // ---------------------------------------------------------------------------
  // Instance names

  /** `s.find(c)`, with -1 for npos. */
  function FirstIndexOf(s: string, c: char): (r: int)
    ensures -1 <= r < |s|
    ensures r >= 0 ==> s[r] == c
    ensures forall k :: 0 <= k < |s| && (r < 0 || k < r) ==> s[k] != c
  {
    if s == [] then -1
    else if s[0] == c then 0
    else
      var r := FirstIndexOf(s[1..], c);
      if r < 0 then -1 else r + 1
  }

  /**
   * `extractFriendlyDiskName`: "_Total" stays; otherwise the text after the
   * first space, when something follows that space ("0 C:" gives "C:");
   * otherwise the name unchanged.
   */
  function ExtractFriendlyDiskName(name: string): (r: string)
    ensures |r| <= |name| && r == name[|name| - |r|..]
    ensures name == "_Total" ==> r == name
    ensures r != name ==>
      && r != []
      && name[|name| - |r| - 1] == ' '
      && forall k :: 0 <= k < |name| - |r| - 1 ==> name[k] != ' '
    ensures r == name ==> name == "_Total" || forall k :: 0 <= k < |name| - 1 ==> name[k] != ' '
  {
    if name == "_Total" then name
    else
      var spacePos := FirstIndexOf(name, ' ');
      if spacePos >= 0 && spacePos + 1 < |name| then name[spacePos + 1..] else name
  }

  predicate IsAsciiLetter(c: char) {
    'A' <= c <= 'Z' || 'a' <= c <= 'z'
  }

  /** `extractDriveLetter`: "L:" when the character before the first colon is an ASCII letter L, else "". */
  function ExtractDriveLetter(instance: string): (r: string)
    ensures var p := FirstIndexOf(instance, ':');
      && (r != [] <==> p > 0 && IsAsciiLetter(instance[p - 1]))
      && (r != [] ==> r == [instance[p - 1], ':'])
  {
    var colonPos := FirstIndexOf(instance, ':');
    if colonPos > 0 && IsAsciiLetter(instance[colonPos - 1]) then [instance[colonPos - 1], ':'] else ""
  }

  lemma FriendlyNameExamples()
    ensures ExtractFriendlyDiskName("0 C:") == "C:"
    ensures ExtractFriendlyDiskName("1 D: E:") == "D: E:"
    ensures ExtractFriendlyDiskName("_Total") == "_Total"
    ensures ExtractFriendlyDiskName("0 ") == "0 "
  {
    assert FirstIndexOf("0 C:", ' ') == 1;
    assert FirstIndexOf("1 D: E:", ' ') == 1;
    assert FirstIndexOf("0 ", ' ') == 1;
  }

  lemma DriveLetterExamples()
    ensures ExtractDriveLetter("0 C:") == "C:"
    ensures ExtractDriveLetter("_Total") == ""
    ensures ExtractDriveLetter(":C") == ""
    ensures ExtractDriveLetter("0 1:") == ""
  {
    assert FirstIndexOf("0 C:", ':') == 3;
    assert FirstIndexOf(":C", ':') == 0;
    assert FirstIndexOf("0 1:", ':') == 3;
    assert "_Total"[0] != ':' && "_Total"[1] != ':' && "_Total"[2] != ':';
    assert "_Total"[3] != ':' && "_Total"[4] != ':' && "_Total"[5] != ':';
  }

  // ---------------------------------------------------------------------------
  // Disk space

  /** Used space as `getDiskSpace` computes it: never below zero, never above the total. */
  function UsedSpace(total: uint64, free: uint64): (used: uint64)
    ensures used <= total
    ensures total > free ==> used + free == total
    ensures total <= free ==> used == 0
  {
    if total > free then total - free else 0
  }

  /** `getDiskSpace`: total, free and used bytes, all zero when the OS query fails. */
  datatype SpaceInfo = SpaceInfo(total: uint64, free: uint64, used: uint64)

  function GetDiskSpace(query: Option<(uint64, uint64)>): (s: SpaceInfo)
    ensures s.used <= s.total
    ensures query.None? ==> s == SpaceInfo(0, 0, 0)
    ensures query.Some? ==> s.total == query.value.0 && s.free == query.value.1
  {
    match query
    case None => SpaceInfo(0, 0, 0)
    case Some(tf) => SpaceInfo(tf.0, tf.1, UsedSpace(tf.0, tf.1))
  }

  // ---------------------------------------------------------------------------
  // The ordered map of counters

  /** `std::string`'s `operator<`: lexicographic by character. */
  predicate StrLess(a: string, b: string)
    decreases |a|
  {
    if a == [] then b != []
    else if b == [] then false
    else if a[0] != b[0] then a[0] < b[0]
    else StrLess(a[1..], b[1..])
  }

  lemma {:induction false} StrLessIrreflexive(a: string)
    ensures !StrLess(a, a)
    decreases |a|
  {
    if a != [] {
      StrLessIrreflexive(a[1..]);
    }
  }

  lemma {:induction false} StrLessTransitive(a: string, b: string, c: string)
    requires StrLess(a, b) && StrLess(b, c)
    ensures StrLess(a, c)
    decreases |a|
  {
    if a != [] && b != [] && c != [] && a[0] == b[0] && b[0] == c[0] {
      StrLessTransitive(a[1..], b[1..], c[1..]);
    }
  }

  lemma {:induction false} StrLessTotal(a: string, b: string)
    requires a != b
    ensures StrLess(a, b) || StrLess(b, a)
    decreases |a|
  {
    if a != [] && b != [] && a[0] == b[0] {
      assert a == [a[0]] + a[1..] && b == [b[0]] + b[1..];
      StrLessTotal(a[1..], b[1..]);
    }
  }

  /** The keys of `counters_`, as a `std::map` keeps them: ascending, each once. */
  predicate StrictlySorted(keys: seq<string>) {
    forall i, j :: 0 <= i < j < |keys| ==> StrLess(keys[i], keys[j])
  }

  /** `counters_[name] = ...`: a new key goes to its place in order; an existing key stays where it is. */
  function Insert(keys: seq<string>, name: string): (r: seq<string>)
    ensures forall y :: y in r <==> y in keys || y == name
  {
    if keys == [] then [name]
    else if name == keys[0] then keys
    else if StrLess(name, keys[0]) then [name] + keys
    else [keys[0]] + Insert(keys[1..], name)
  }

  lemma {:induction false} InsertKeepsOrder(keys: seq<string>, name: string)
    requires StrictlySorted(keys)
    ensures StrictlySorted(Insert(keys, name))
    decreases |keys|
  {
    if keys != [] && name != keys[0] {
      if StrLess(name, keys[0]) {
        var r := [name] + keys;
        forall i, j | 0 <= i < j < |r| ensures StrLess(r[i], r[j]) {
          if i == 0 && j > 1 {
            StrLessTransitive(name, keys[0], keys[j - 1]);
          }
        }
      } else {
        StrLessTotal(name, keys[0]);
        InsertKeepsOrder(keys[1..], name);
        var rest := Insert(keys[1..], name);
        var r := [keys[0]] + rest;
        forall i, j | 0 <= i < j < |r| ensures StrLess(r[i], r[j]) {
          if i == 0 {
            assert r[j] in rest;
            if r[j] != name {
              var k :| 0 <= k < |keys[1..]| && keys[1..][k] == r[j];
            }
          }
        }
      }
    }
  }

  /** The instance names of a multi-string buffer: up to the first empty name. */
  function InstanceNames(buffer: seq<string>): (names: seq<string>)
    ensures |names| <= |buffer| && names == buffer[..|names|]
    ensures forall k :: 0 <= k < |names| ==> names[k] != ""
    ensures |names| < |buffer| ==> buffer[|names|] == ""
  {
    if buffer == [] || buffer[0] == "" then [] else [buffer[0]] + InstanceNames(buffer[1..])
  }

  /** The keys after `addDiskCounters` ran for each name in turn; a name whose counters cannot all be added is not kept. */
  function Registered(keys: seq<string>, names: seq<string>, addable: set<string>): seq<string>
    decreases |names|
  {
    if names == [] then keys
    else Registered(if names[0] in addable then Insert(keys, names[0]) else keys, names[1..], addable)
  }

  /** Registration keeps the keys ordered, and keeps exactly the names whose counters could all be added. */
  lemma {:induction false} RegisteredContents(keys: seq<string>, names: seq<string>, addable: set<string>)
    requires StrictlySorted(keys)
    ensures StrictlySorted(Registered(keys, names, addable))
    ensures forall y :: y in Registered(keys, names, addable) <==> y in keys || (y in names && y in addable)
    decreases |names|
  {
    if names != [] {
      var next := if names[0] in addable then Insert(keys, names[0]) else keys;
      if names[0] in addable {
        InsertKeepsOrder(keys, names[0]);
      }
      RegisteredContents(next, names[1..], addable);
      forall y ensures y in names <==> y == names[0] || y in names[1..] {
        assert names == [names[0]] + names[1..];
      }
    }
  }

  lemma RegisteredSnoc(keys: seq<string>, names: seq<string>, name: string, addable: set<string>)
    ensures Registered(keys, names + [name], addable)
         == (if name in addable then Insert(Registered(keys, names, addable), name) else Registered(keys, names, addable))
    decreases |names|
  {
    if names != [] {
      assert (names + [name])[1..] == names[1..] + [name];
      RegisteredSnoc(if names[0] in addable then Insert(keys, names[0]) else keys, names[1..], name, addable);
    } else {
      assert (names + [name])[1..] == [];
    }
  }

  /** The keys `initialize` ends with, or None when not even "_Total" could be added. */
  function InitialKeys(buffer: seq<string>, addable: set<string>): Option<seq<string>> {
    var keys := Registered([], InstanceNames(buffer), addable);
    if keys != [] then Some(keys)
    else if "_Total" in addable then Some(["_Total"])
    else None
  }

  /**
   * The keys `initialize` ends with are ascending, and are the listed
   * instances whose counters could all be added, or "_Total" alone when
   * there are none.
   */
  lemma InitialKeysContents(buffer: seq<string>, addable: set<string>)
    ensures var r := InitialKeys(buffer, addable);
      var listed := InstanceNames(buffer);
      && (r.None? <==> (forall n :: n in listed ==> n !in addable) && "_Total" !in addable)
      && (r.Some? ==> StrictlySorted(r.value) && r.value != [])
      && (r.Some? && (exists n :: n in listed && n in addable) ==>
            forall y :: y in r.value <==> y in listed && y in addable)
      && (r.Some? && (forall n :: n in listed ==> n !in addable) ==> r.value == ["_Total"])
  {
    var keys := Registered([], InstanceNames(buffer), addable);
    RegisteredContents([], InstanceNames(buffer), addable);
    if keys != [] {
      assert keys[0] in keys;
    }
  }

  // ---------------------------------------------------------------------------
  // The stats of one sample

  /** What the counters of one instance read in a sample; None where a value is unavailable or invalid. */
  datatype Sample = Sample(bytesRead: Option<uint64>, bytesWritten: Option<uint64>, percentBusy: Option<real>)

  function OrZero(o: Option<uint64>): uint64 {
    if o.Some? then o.value else 0
  }

  /** The stats `getCurrentStats` reports for one key. */
  function DiskEntry(key: string, sample: Sample, space: string -> Option<(uint64, uint64)>): DiskStats {
    var letter := ExtractDriveLetter(key);
    var info := if letter != "" then GetDiskSpace(space(letter)) else SpaceInfo(0, 0, 0);
    DiskStats(
      ExtractFriendlyDiskName(key), info.total, info.used, info.free,
      OrZero(sample.bytesRead), OrZero(sample.bytesWritten),
      if sample.percentBusy.Some? then sample.percentBusy.value else 0.0,
      0, 0, None, None)
  }

  function DiskEntries(keys: seq<string>, samples: string -> Sample, space: string -> Option<(uint64, uint64)>): seq<DiskStats> {
    seq(|keys|, i requires 0 <= i < |keys| => DiskEntry(keys[i], samples(keys[i]), space))
  }

  /**
   * One entry per key, in key order, under its friendly name; unreadable
   * values are 0, used space never exceeds the total, the cumulative
   * totals are always 0, and a key without a drive letter has no size.
   */
  lemma DiskEntriesProperties(keys: seq<string>, samples: string -> Sample, space: string -> Option<(uint64, uint64)>)
    ensures var d := DiskEntries(keys, samples, space);
      && |d| == |keys|
      && forall i :: 0 <= i < |keys| ==>
        && d[i].deviceName == ExtractFriendlyDiskName(keys[i])
        && d[i].usedBytes <= d[i].totalSizeBytes
        && d[i].totalBytesRead == 0 && d[i].totalBytesWritten == 0
        && (samples(keys[i]).bytesRead.None? ==> d[i].bytesReadPerSec == 0)
        && (samples(keys[i]).bytesWritten.None? ==> d[i].bytesWrittenPerSec == 0)
        && (samples(keys[i]).percentBusy.None? ==> d[i].percentBusy == 0.0)
        && (ExtractDriveLetter(keys[i]) == "" ==> d[i].totalSizeBytes == 0 && d[i].freeBytes == 0)
  {
  }

  // ---------------------------------------------------------------------------
  // The monitor

  class DiskMonitor {
    /** Whether `hQuery_` holds an open query. */
    var queryOpen: bool
    /** The keys of `counters_`; the counter handles themselves are opaque. */
    var keys: seq<string>
    var initialized: bool

    ghost predicate Valid()
      reads this
    {
      && StrictlySorted(keys)
      && (initialized <==> queryOpen)
      && (initialized ==> keys != [])
      && (!initialized ==> keys == [])
    }

    constructor ()
      ensures Valid() && !queryOpen && keys == [] && !initialized
    {
      queryOpen := false;
      keys := [];
      initialized := false;
    }

    /** `addDiskCounters`: stores the instance only when all three of its counters could be added. */
    method AddDiskCounters(instance: string, allAdded: bool) returns (ok: bool)
      requires StrictlySorted(keys)
      modifies this
      ensures ok == allAdded && StrictlySorted(keys)
      ensures keys == if allAdded then Insert(old(keys), instance) else old(keys)
      ensures queryOpen == old(queryOpen) && initialized == old(initialized)
    {
      if !allAdded {
        return false;
      }
      InsertKeepsOrder(keys, instance);
      keys := Insert(keys, instance);
      ok := true;
    }

    /** `cleanup`: closes the query and forgets every counter; idempotent. */
    method Cleanup()
      modifies this
      ensures Valid() && !queryOpen && keys == [] && !initialized
    {
      if queryOpen {
        queryOpen := false;
      }
      keys := [];
      initialized := false;
    }

    /**
     * `initialize`. A no-op when already initialised. Otherwise: open the
     * query (failure throws), register every listed instance (failures
     * swallowed), fall back to "_Total", take the baseline sample, and only
     * then become initialised; a failure after opening cleans up first.
     */
    method Initialize(openOk: bool, buffer: seq<string>, addable: set<string>, collectOk: bool) returns (r: Result<(), string>)
      requires Valid()
      modifies this
      ensures Valid()
      ensures old(initialized) ==> r.Ok? && keys == old(keys)
      ensures !old(initialized) ==> (r.Ok? <==> openOk && InitialKeys(buffer, addable).Some? && collectOk)
      ensures !old(initialized) && r.Ok? ==> keys == InitialKeys(buffer, addable).value
      ensures r.Err? ==> !initialized && !queryOpen && keys == []
    {
      if initialized {
        return Ok(());
      }
      if !openOk {
        return Err("PdhOpenQuery failed");
      }
      queryOpen := true;
      var i := 0;
      while i < |buffer| && buffer[i] != ""
        invariant 0 <= i <= |buffer|
        invariant forall k :: 0 <= k < i ==> buffer[k] != ""
        invariant keys == Registered([], buffer[..i], addable) && StrictlySorted(keys)
        invariant queryOpen && !initialized
      {
        RegisteredSnoc([], buffer[..i], buffer[i], addable);
        assert buffer[..i + 1] == buffer[..i] + [buffer[i]];
        var _ := AddDiskCounters(buffer[i], buffer[i] in addable);
        i := i + 1;
      }
      InstanceNamesPrefix(buffer, i);
      if keys == [] {
        var ok := AddDiskCounters("_Total", "_Total" in addable);
        if !ok {
          Cleanup();
          return Err("Failed to add any disk counters");
        }
      }
      if !collectOk {
        Cleanup();
        return Err("Initial PdhCollectQueryData failed");
      }
      initialized := true;
      r := Ok(());
    }

    /**
     * `getCurrentStats`: throws when uninitialised or when the sample
     * cannot be collected; otherwise one entry per key, in key order.
     */
    method GetCurrentStats(collectOk: bool, samples: string -> Sample, space: string -> Option<(uint64, uint64)>)
      returns (r: Result<seq<DiskStats>, string>)
      requires Valid()
      ensures !initialized ==> r.Err?
      ensures initialized && !collectOk ==> r.Err?
      ensures initialized && collectOk ==> r == Ok(DiskEntries(keys, samples, space))
    {
      if !initialized {
        return Err("DiskMonitor not initialized");
      }
      if !collectOk {
        return Err("PdhCollectQueryData failed");
      }
      var disks: seq<DiskStats> := [];
      var i := 0;
      while i < |keys|
        invariant 0 <= i <= |keys|
        invariant disks == DiskEntries(keys[..i], samples, space)
      {
        var stats := ReadDisk(keys[i], samples(keys[i]), space);
        assert DiskEntries(keys[..i + 1], samples, space) == DiskEntries(keys[..i], samples, space) + [stats];
        disks := disks + [stats];
        i := i + 1;
      }
      assert keys[..i] == keys;
      r := Ok(disks);
    }
  }

  /** One turn of the loop of `getCurrentStats`: the stats of one key. */
  method ReadDisk(key: string, sample: Sample, space: string -> Option<(uint64, uint64)>) returns (stats: DiskStats)
    ensures stats == DiskEntry(key, sample, space)
  {
    var bytesRead := if sample.bytesRead.Some? then sample.bytesRead.value else 0;
    var bytesWritten := if sample.bytesWritten.Some? then sample.bytesWritten.value else 0;
    var busy := if sample.percentBusy.Some? then sample.percentBusy.value else 0.0;
    var driveLetter := ExtractDriveLetter(key);
    var info := SpaceInfo(0, 0, 0);
    if driveLetter != "" {
      info := GetDiskSpace(space(driveLetter));
    }
    stats := DiskStats(ExtractFriendlyDiskName(key), info.total, info.used, info.free,
                       bytesRead, bytesWritten, busy, 0, 0, None, None);
  }

  lemma InstanceNamesPrefix(buffer: seq<string>, i: nat)
    requires i <= |buffer| && (i < |buffer| ==> buffer[i] == "")
    requires forall k :: 0 <= k < i ==> buffer[k] != ""
    ensures InstanceNames(buffer) == buffer[..i]
    decreases i
  {
    if i > 0 {
      InstanceNamesPrefix(buffer[1..], i - 1);
      assert buffer[..i] == [buffer[0]] + buffer[1..][..i - 1];
    }
  }
}
