/**
 * The network monitor (src/WinHKMonLib/NetworkMonitor.cpp): turning the
 * rows of the OS interface table into `InterfaceStats`, and choosing the
 * primary interface by traffic with an Ethernet-over-Wi-Fi tie-break. The
 * interface table is an input; its wide-character names arrive already
 * converted.
 */
module NetworkMonitor {
  import opened Wrappers
  import opened Types

  /** IF_TYPE_SOFTWARE_LOOPBACK. */
  const SoftwareLoopback: nat := 24

  /** The part of one interface-table row that the monitor reads. */
  datatype IfRow = IfRow(
    alias: string,
    description: string,
    ifType: nat,
    mediaConnected: bool,
    transmitLinkSpeed: uint64,
    inOctets: uint64,
    outOctets: uint64,
    inUcastPkts: uint64,
    inNUcastPkts: uint64,
    outUcastPkts: uint64,
    outNUcastPkts: uint64,
    inErrors: uint64,
    outErrors: uint64)

  /** `isLoopback`: only the software loopback type. */
  predicate IsLoopback(ifType: nat) {
    ifType == SoftwareLoopback
  }

  /**
   * The stats of one kept row: counters copied, rates left at 0 for the
   * caller, packet rates present (as 0) when any packets were seen, error
   * counts present when non-zero.
   */
  function RowStats(row: IfRow): InterfaceStats {
    InterfaceStats(
      row.alias, row.description, row.mediaConnected, row.transmitLinkSpeed,
      0, 0, row.inOctets, row.outOctets,
      if row.inUcastPkts != 0 || row.inNUcastPkts != 0 then Some(0) else None,
      if row.outUcastPkts != 0 || row.outNUcastPkts != 0 then Some(0) else None,
      if row.inErrors != 0 then Some(row.inErrors) else None,
      if row.outErrors != 0 then Some(row.outErrors) else None)
  }

  /** The interfaces `getCurrentStats` reports for a table: its non-loopback rows, in table order. */
  function Interfaces(table: seq<IfRow>): seq<InterfaceStats> {
    if table == [] then []
    else
      var last := table[|table| - 1];
      Interfaces(table[..|table| - 1]) + (if IsLoopback(last.ifType) then [] else [RowStats(last)])
  }

  /** `getCurrentStats`: None for the table means the OS call failed, which throws. */
  method GetCurrentStats(table: Option<seq<IfRow>>) returns (r: Result<seq<InterfaceStats>, string>)
    ensures table.None? <==> r.Err?
    ensures table.Some? ==> r == Ok(Interfaces(table.value))
  {
    if table.None? {
      return Err("GetIfTable2 failed");
    }
    var rows := table.value;
    var interfaces: seq<InterfaceStats> := [];
    var i := 0;
    while i < |rows|
      invariant 0 <= i <= |rows|
      invariant interfaces == Interfaces(rows[..i])
    {
      assert rows[..i + 1][..i] == rows[..i];
      if !IsLoopback(rows[i].ifType) {
        interfaces := interfaces + [RowStats(rows[i])];
      }
      i := i + 1;
    }
    assert rows[..i] == rows;
    r := Ok(interfaces);
  }

  /** Filtering distributes over concatenation: tables can be read piece by piece. */
  lemma {:induction false} InterfacesConcat(a: seq<IfRow>, b: seq<IfRow>)
    ensures Interfaces(a + b) == Interfaces(a) + Interfaces(b)
    decreases |b|
  {
    if b == [] {
      assert a + b == a;
    } else {
      var init := b[..|b| - 1];
      assert (a + b)[..|a + b| - 1] == a + init;
      InterfacesConcat(a, init);
    }
  }

  /** A single row yields its stats unless it is the loopback. */
  lemma InterfacesOfRow(row: IfRow)
    ensures Interfaces([row]) == if row.ifType == 24 then [] else [RowStats(row)]
  {
    assert [row][..0] == [];
  }

  /** Every reported interface comes from a non-loopback row, with its counters copied and its rates zero. */
  lemma {:induction false} InterfacesFromRows(table: seq<IfRow>)
    ensures forall s :: s in Interfaces(table) ==>
      && s.inBytesPerSec == 0 && s.outBytesPerSec == 0
      && exists i :: 0 <= i < |table| && table[i].ifType != 24 && s == RowStats(table[i]) &&
                     s.totalInOctets == table[i].inOctets && s.totalOutOctets == table[i].outOctets
    decreases |table|
  {
    if table != [] {
      var init := table[..|table| - 1];
      InterfacesFromRows(init);
      forall s | s in Interfaces(table)
        ensures exists i :: 0 <= i < |table| && table[i].ifType != 24 && s == RowStats(table[i]) &&
                            s.totalInOctets == table[i].inOctets && s.totalOutOctets == table[i].outOctets
      {
        if s in Interfaces(init) {
          var i :| 0 <= i < |init| && init[i].ifType != 24 && s == RowStats(init[i]);
          assert table[i] == init[i];
        } else {
          assert table[|table| - 1].ifType != 24 && s == RowStats(table[|table| - 1]);
        }
      }
    }
  }

  /** Every non-loopback row is reported. */
  lemma {:induction false} InterfacesKeepRows(table: seq<IfRow>)
    ensures forall i :: 0 <= i < |table| && table[i].ifType != 24 ==> RowStats(table[i]) in Interfaces(table)
    decreases |table|
  {
    if table != [] {
      var init := table[..|table| - 1];
      InterfacesKeepRows(init);
      forall i | 0 <= i < |table| && table[i].ifType != 24
        ensures RowStats(table[i]) in Interfaces(table)
      {
        if i < |init| {
          assert table[i] == init[i];
        }
      }
    }
  }

  // ---------------------------------------------------------------------------
  // Choosing the primary interface

  /** `std::string::find(pat) != npos`. */
  predicate Contains(s: string, pat: string)
    decreases |s|
  {
    |pat| <= |s| && (s[..|pat|] == pat || (s != [] && Contains(s[1..], pat)))
  }

  lemma {:induction false} NotContainsWithoutFirstChar(s: string, pat: string)
    requires pat != [] && forall k :: 0 <= k < |s| ==> s[k] != pat[0]
    ensures !Contains(s, pat)
    decreases |s|
  {
    if s != [] {
      NotContainsWithoutFirstChar(s[1..], pat);
      if |pat| <= |s| {
        assert s[..|pat|][0] != pat[0];
      }
    }
  }

  predicate IsEthernetLike(s: InterfaceStats) {
    Contains(s.name, "Ethernet") || Contains(s.description, "Ethernet")
  }

  predicate IsWifiLike(s: InterfaceStats) {
    Contains(s.name, "Wi-Fi") || Contains(s.name, "WiFi") || Contains(s.name, "Wireless")
  }

  /** Total traffic, summed in unsigned 64-bit arithmetic (it wraps). */
  function Total(s: InterfaceStats): uint64 {
    Wrap64(s.totalInOctets + s.totalOutOctets)
  }

  /**
   * The comparator handed to `std::max_element`: "a ranks below b". Unequal
   * totals compare by total; on equal totals only an Ethernet-like b over a
   * Wi-Fi-like a ranks higher, unless a is both Ethernet- and Wi-Fi-like and
   * b is Wi-Fi-like too.
   */
  function Less(a: InterfaceStats, b: InterfaceStats): (r: bool)
    ensures Total(a) != Total(b) ==> (r <==> Total(a) < Total(b))
    ensures Total(a) == Total(b) ==>
      (r <==> IsEthernetLike(b) && IsWifiLike(a) && !(IsEthernetLike(a) && IsWifiLike(b)))
  {
    var totalA, totalB := Total(a), Total(b);
    if totalA == totalB && IsEthernetLike(a) && IsWifiLike(b) then false
    else if totalA == totalB && IsEthernetLike(b) && IsWifiLike(a) then true
    else totalA < totalB
  }

  /** Where `std::max_element` stops: the pick moves to a later element only when the pick ranks below it. */
  function BestIndex(s: seq<InterfaceStats>): (b: nat)
    requires s != []
    ensures b < |s|
  {
    if |s| == 1 then 0
    else
      var b := BestIndex(s[..|s| - 1]);
      if Less(s[b], s[|s| - 1]) then |s| - 1 else b
  }

  /** `selectPrimaryInterface`: the name of the best-ranked interface, or "" when there is none. */
  method SelectPrimaryInterface(interfaces: seq<InterfaceStats>) returns (name: string)
    ensures interfaces == [] ==> name == ""
    ensures interfaces != [] ==> name == interfaces[BestIndex(interfaces)].name
  {
    if interfaces == [] {
      return "";
    }
    var largest := 0;
    var i := 1;
    while i < |interfaces|
      invariant 1 <= i <= |interfaces|
      invariant largest == BestIndex(interfaces[..i])
    {
      assert interfaces[..i + 1][..i] == interfaces[..i];
      if Less(interfaces[largest], interfaces[i]) {
        largest := i;
      }
      i := i + 1;
    }
    assert interfaces[..i] == interfaces;
    name := interfaces[largest].name;
  }

  /** The pick carries the largest total. */
  lemma {:induction false} BestHasMaximalTotal(s: seq<InterfaceStats>)
    requires s != []
    ensures forall j :: 0 <= j < |s| ==> Total(s[j]) <= Total(s[BestIndex(s)])
    decreases |s|
  {
    if |s| > 1 {
      var init := s[..|s| - 1];
      BestHasMaximalTotal(init);
      forall j | 0 <= j < |s| ensures Total(s[j]) <= Total(s[BestIndex(s)]) {
        if j < |init| {
          assert s[j] == init[j];
        }
      }
    }
  }

  /** No later interface outranks the pick: the scan never moved past it. */
  lemma {:induction false} NothingAfterBestOutranksIt(s: seq<InterfaceStats>)
    requires s != []
    ensures forall j :: BestIndex(s) < j < |s| ==> !Less(s[BestIndex(s)], s[j])
    decreases |s|
  {
    if |s| > 1 {
      var init := s[..|s| - 1];
      NothingAfterBestOutranksIt(init);
      forall j | BestIndex(s) < j < |s| ensures !Less(s[BestIndex(s)], s[j]) {
        if j < |init| {
          assert s[j] == init[j];
        }
      }
    }
  }

  /**
   * Every interface before the pick has strictly less traffic, unless the
   * pick is Ethernet-like: among equal totals the first one wins, and only
   * an Ethernet-like interface displaces an earlier one.
   */
  lemma {:induction false} EarlierInterfacesHaveLessTraffic(s: seq<InterfaceStats>)
    requires s != []
    ensures forall j :: 0 <= j < BestIndex(s) ==> Total(s[j]) < Total(s[BestIndex(s)]) || IsEthernetLike(s[BestIndex(s)])
    decreases |s|
  {
    if |s| > 1 {
      var init := s[..|s| - 1];
      EarlierInterfacesHaveLessTraffic(init);
      BestHasMaximalTotal(init);
      forall j | 0 <= j < BestIndex(s)
        ensures Total(s[j]) < Total(s[BestIndex(s)]) || IsEthernetLike(s[BestIndex(s)])
      {
        assert s[j] == init[j];
      }
    }
  }

  /** With no Ethernet-like interface, the pick is the first one with the largest total. */
  lemma FirstOfEqualsWins(s: seq<InterfaceStats>)
    requires s != [] && forall j :: 0 <= j < |s| ==> !IsEthernetLike(s[j])
    ensures forall j :: 0 <= j < |s| ==> Total(s[j]) <= Total(s[BestIndex(s)])
    ensures forall j :: 0 <= j < BestIndex(s) ==> Total(s[j]) < Total(s[BestIndex(s)])
  {
    BestHasMaximalTotal(s);
    EarlierInterfacesHaveLessTraffic(s);
  }

  function Named(name: string, inOctets: uint64, outOctets: uint64): InterfaceStats {
    InterfaceStats(name, "", true, 0, 0, 0, inOctets, outOctets, None, None, None, None)
  }

  /** `max_element` over two interfaces. */
  lemma BestOfTwo(a: InterfaceStats, b: InterfaceStats)
    ensures BestIndex([a, b]) == if Less(a, b) then 1 else 0
  {
    assert [a, b][..1] == [a];
  }

  /** "Ethernet" is Ethernet-like and not Wi-Fi-like; "Wi-Fi" the other way round. */
  lemma EthernetAndWifiClasses(eth: InterfaceStats, wifi: InterfaceStats)
    requires eth.name == "Ethernet" && eth.description == ""
    requires wifi.name == "Wi-Fi" && wifi.description == ""
    ensures IsEthernetLike(eth) && !IsWifiLike(eth)
    ensures IsWifiLike(wifi) && !IsEthernetLike(wifi)
  {
    assert Contains("Ethernet", "Ethernet");
    assert Contains("Wi-Fi", "Wi-Fi");
    NotContainsWithoutFirstChar("Wi-Fi", "Ethernet");
    NotContainsWithoutFirstChar("", "Ethernet");
    NotContainsWithoutFirstChar("Ethernet", "Wi-Fi");
    NotContainsWithoutFirstChar("Ethernet", "WiFi");
    NotContainsWithoutFirstChar("Ethernet", "Wireless");
  }

  /**
   * Ethernet wins a tie against Wi-Fi in either order, the first of two
   * equal plain interfaces wins, and a total that wraps past 2^64 ranks low.
   */
  lemma SelectionExamples()
    ensures BestIndex([Named("Wi-Fi", 60, 40), Named("Ethernet", 50, 50)]) == 1
    ensures BestIndex([Named("Ethernet", 50, 50), Named("Wi-Fi", 60, 40)]) == 0
    ensures BestIndex([Named("vEthernet", 1, 0), Named("Wi-Fi", 5, 5)]) == 1
    ensures BestIndex([Named("Wi-Fi", TwoTo64 - 1, 1), Named("Wi-Fi 2", 1, 0)]) == 1
  {
    var wifi, eth := Named("Wi-Fi", 60, 40), Named("Ethernet", 50, 50);
    EthernetAndWifiClasses(eth, wifi);
    BestOfTwo(wifi, eth);
    BestOfTwo(eth, wifi);
    BestOfTwo(Named("vEthernet", 1, 0), Named("Wi-Fi", 5, 5));
    var big, small := Named("Wi-Fi", TwoTo64 - 1, 1), Named("Wi-Fi 2", 1, 0);
    assert Total(big) == 0 && Total(small) == 1;
    BestOfTwo(big, small);
  }
}
