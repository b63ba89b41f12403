/**
 * The CPU monitor (src/WinHKMonLib/CpuMonitor.cpp): a performance-counter
 * query with one total and one per-core usage counter, its lifecycle, and
 * the stats read from it. The processor count, every OS outcome, the
 * counter readings and the per-core frequencies are inputs.
 */
module CpuMonitor {
  import opened Wrappers
  import opened Types
  import opened Decimal

  /** The clamp applied to every usage reading: into [0, 100], unchanged when already inside. */
  function Clamp(x: real): (r: real)
    ensures 0.0 <= r <= 100.0
    ensures 0.0 <= x <= 100.0 ==> r == x
    ensures x < 0.0 ==> r == 0.0
    ensures x > 100.0 ==> r == 100.0
  {
    if x < 0.0 then 0.0 else if x > 100.0 then 100.0 else x
  }

  function Sum(xs: seq<uint64>): nat {
    if xs == [] then 0 else Sum(xs[..|xs| - 1]) + xs[|xs| - 1]
  }

  /** `calculateAverageFrequency`: 0 for no cores, otherwise the 64-bit wrapped sum divided by the count, rounded down. */
  function AverageFrequency(freqs: seq<uint64>): (avg: uint64)
    ensures freqs == [] ==> avg == 0
    ensures freqs != [] ==> avg * |freqs| <= Sum(freqs) % TwoTo64 < (avg + 1) * |freqs|
  {
    if freqs == [] then 0
    else
      var wrapped := Sum(freqs) % TwoTo64;
      DivisionBounds(wrapped, |freqs|);
      wrapped / |freqs|
  }

  /** The quotient of Euclidean division brackets the dividend. */
  lemma DivisionBounds(a: nat, n: nat)
    requires n > 0
    ensures (a / n) * n <= a < (a / n + 1) * n
    ensures a / n <= a
  {
    assert a == (a / n) * n + a % n;
    MulMonotone(1, n, a / n);
  }

  /** `calculateAverageFrequency`: the accumulated sum divided by the count, 0 for no cores. */
  method CalculateAverageFrequency(freqs: seq<uint64>) returns (avg: uint64)
    ensures avg == AverageFrequency(freqs)
  {
    if |freqs| == 0 {
      return 0;
    }
    var sum := Accumulate(freqs);
    avg := sum / |freqs|;
    WrappedAverage(freqs, sum);
  }

  /** `std::accumulate` with a `uint64_t` initial value: each addition wraps modulo 2^64. */
  method Accumulate(freqs: seq<uint64>) returns (sum: uint64)
    ensures sum == Sum(freqs) % TwoTo64
  {
    sum := 0;
    var i := 0;
    while i < |freqs|
      invariant 0 <= i <= |freqs|
      invariant sum == Sum(freqs[..i]) % TwoTo64
    {
      WrappedSumStep(freqs, i);
      sum := (sum + freqs[i]) % TwoTo64;
      i := i + 1;
    }
    assert freqs[..i] == freqs;
  }

  /** Dividing the wrapped sum by the count is the average the specification names. */
  lemma WrappedAverage(freqs: seq<uint64>, sum: nat)
    requires freqs != [] && sum == Sum(freqs) % TwoTo64
    ensures sum / |freqs| == AverageFrequency(freqs)
  {
  }

  /** One more unsigned 64-bit addition extends the wrapped sum of a prefix by one element. */
  lemma WrappedSumStep(freqs: seq<uint64>, i: nat)
    requires i < |freqs|
    ensures Sum(freqs[..i + 1]) % TwoTo64 == (Sum(freqs[..i]) % TwoTo64 + freqs[i]) % TwoTo64
  {
    assert freqs[..i + 1][..i] == freqs[..i];
    WrapAdd(Sum(freqs[..i]), freqs[i]);
  }

  lemma WrapAdd(a: nat, b: nat)
    ensures (a % TwoTo64 + b) % TwoTo64 == (a + b) % TwoTo64
  {
  }

  lemma {:induction false} SumBounds(xs: seq<uint64>, lo: nat, hi: nat)
    requires forall k :: 0 <= k < |xs| ==> lo <= xs[k] <= hi
    ensures lo * |xs| <= Sum(xs) <= hi * |xs|
    decreases |xs|
  {
    if xs != [] {
      var n := |xs| - 1;
      SumBounds(xs[..n], lo, hi);
      assert Sum(xs) == Sum(xs[..n]) + xs[n];
      MulSucc(lo, n);
      MulSucc(hi, n);
    }
  }

  lemma MulSucc(a: nat, n: nat)
    ensures a * (n + 1) == a * n + a
  {
  }

  /** A quotient of a number bracketed by lo * n and hi * n lies between lo and hi. */
  lemma QuotientBetween(s: nat, n: nat, q: nat, lo: nat, hi: nat)
    requires n > 0 && q * n <= s < (q + 1) * n
    requires lo * n <= s <= hi * n
    ensures lo <= q <= hi
  {
    assert (hi + 1) * n == hi * n + n;
    if q > hi {
      MulMonotone(hi + 1, q, n);
    }
    if q < lo {
      MulMonotone(q + 1, lo, n);
    }
  }

  /**
   * When the sum does not wrap, the average lies between the slowest and
   * the fastest core, and equal frequencies average to that frequency.
   */
  lemma AverageWithinRange(freqs: seq<uint64>, lo: nat, hi: nat)
    requires freqs != [] && Sum(freqs) < TwoTo64
    requires forall k :: 0 <= k < |freqs| ==> lo <= freqs[k] <= hi
    ensures lo <= AverageFrequency(freqs) <= hi
  {
    SumBounds(freqs, lo, hi);
    var s := Sum(freqs);
    assert s % TwoTo64 == s;
    QuotientBetween(s, |freqs|, AverageFrequency(freqs), lo, hi);
  }

  /**
   * The frequency `getCurrentStats` gives core i: 0 when the frequency query
   * failed, the i-th reported one otherwise, and 0 for a core past the reported ones:
   * `resize` value-initialises the new records.
   */
  function CoreFrequency(frequencies: Option<seq<uint64>>, i: nat): uint64 {
    if frequencies.None? then 0
    else if i < |frequencies.value| then frequencies.value[i]
    else 0
  }

  /** What one `getCurrentStats` yields for a sample of the counters. */
  function CpuSample(coreCount: nat, total: Option<real>, coreReading: nat -> Option<real>,
                     frequencies: Option<seq<uint64>>)
    : Result<CpuStats, string>
  {
    if total.None? then Err("total counter unreadable")
    else if exists i :: 0 <= i < coreCount && coreReading(i).None? then Err("core counter unreadable")
    else
      Ok(CpuStats(
        Clamp(total.value),
        seq(coreCount, i requires 0 <= i < coreCount => CoreStats(i, Clamp(coreReading(i).value), CoreFrequency(frequencies, i))),
        if frequencies.Some? then AverageFrequency(frequencies.value) else 0,
        None, None, None))
  }

  /**
   * A sample fails exactly when the total or some core counter cannot be
   * read; otherwise it has one core per processor, core i has id i, every
   * usage is in [0, 100], and a failed frequency query leaves every
   * frequency and the average at 0.
   */
  lemma SampleProperties(coreCount: nat, total: Option<real>, coreReading: nat -> Option<real>,
                         frequencies: Option<seq<uint64>>)
    ensures var r := CpuSample(coreCount, total, coreReading, frequencies);
      && (r.Err? <==> total.None? || exists i :: 0 <= i < coreCount && coreReading(i).None?)
      && (r.Ok? ==>
            && 0.0 <= r.value.totalUsagePercent <= 100.0
            && |r.value.cores| == coreCount
            && (forall i :: 0 <= i < coreCount ==>
                  r.value.cores[i].coreId == i && 0.0 <= r.value.cores[i].usagePercent <= 100.0)
            && (frequencies.None? ==>
                  && r.value.averageFrequencyMhz == 0
                  && forall i :: 0 <= i < coreCount ==> r.value.cores[i].frequencyMhz == 0)
            && (frequencies.Some? ==>
                  && r.value.averageFrequencyMhz == AverageFrequency(frequencies.value)
                  && forall i :: 0 <= i < coreCount ==>
                       r.value.cores[i].frequencyMhz == if i < |frequencies.value| then frequencies.value[i] else 0))
  {
  }

  class CpuMonitor {
    /** Whether `hQuery_` holds an open query. */
    var queryOpen: bool
    /** Whether `hCpuTotal_` holds a counter. */
    var totalCounter: bool
    /** The size of `hCpuCores_`. */
    var coreHandles: nat
    var initialized: bool
    var coreCount: nat

    ghost predicate Valid()
      reads this
    {
      && (initialized ==> queryOpen && totalCounter && coreHandles == coreCount)
      && (!initialized ==> !queryOpen && !totalCounter && coreHandles == 0)
    }

    constructor ()
      ensures Valid() && !initialized && coreCount == 0
    {
      queryOpen := false;
      totalCounter := false;
      coreHandles := 0;
      initialized := false;
      coreCount := 0;
    }

    /** `cleanup`: closes the query, drops every handle, and forgets the core count; idempotent. */
    method Cleanup()
      modifies this
      ensures Valid() && !queryOpen && !totalCounter && coreHandles == 0 && !initialized && coreCount == 0
    {
      if queryOpen {
        queryOpen := false;
      }
      totalCounter := false;
      coreHandles := 0;
      initialized := false;
      coreCount := 0;
    }

    /**
     * `initialize`. A no-op when already initialised. Otherwise it records
     * the processor count, opens the query, adds the total counter and one
     * counter per core, and takes the baseline sample; it becomes
     * initialised only at the end, and no failure leaves the query open.
     * A failure to open the query or add the total counter keeps the new
     * core count; a later failure cleans up and resets it to 0.
     */
    method Initialize(processorCount: nat, openOk: bool, totalAddOk: bool, coreAddOk: nat -> bool, collectOk: bool)
      returns (r: Result<(), string>)
      requires Valid()
      modifies this
      ensures Valid()
      ensures old(initialized) ==> r.Ok? && initialized && coreCount == old(coreCount)
      ensures !old(initialized) ==>
        (r.Ok? <==> openOk && totalAddOk && (forall i :: 0 <= i < processorCount ==> coreAddOk(i)) && collectOk)
      ensures !old(initialized) && r.Ok? ==> initialized && coreCount == processorCount
      ensures r.Err? ==> !initialized && !queryOpen
      ensures !old(initialized) && r.Err? ==> coreCount == if openOk && totalAddOk then 0 else processorCount
    {
      if initialized {
        return Ok(());
      }
      coreCount := processorCount;
      if !openOk {
        return Err("PdhOpenQuery failed");
      }
      queryOpen := true;
      if !totalAddOk {
        queryOpen := false;
        return Err("PdhAddEnglishCounter (total) failed");
      }
      totalCounter := true;
      coreHandles := coreCount;
      var i := 0;
      while i < coreCount
        invariant 0 <= i <= coreCount == processorCount
        invariant forall k :: 0 <= k < i ==> coreAddOk(k)
        invariant queryOpen && totalCounter && coreHandles == coreCount && !initialized
      {
        if !coreAddOk(i) {
          Cleanup();
          return Err("PdhAddEnglishCounter (core) failed");
        }
        i := i + 1;
      }
      if !collectOk {
        Cleanup();
        return Err("PdhCollectQueryData (initial) failed");
      }
      initialized := true;
      r := Ok(());
    }

    /**
     * `getCurrentStats`: throws when uninitialised or when the sample cannot
     * be collected; otherwise the stats of the sample.
     */
    method GetCurrentStats(collectOk: bool, total: Option<real>, coreReading: nat -> Option<real>,
                           frequencies: Option<seq<uint64>>)
      returns (r: Result<CpuStats, string>)
      requires Valid()
      ensures !initialized || !collectOk ==> r.Err?
      ensures initialized && collectOk ==> r == CpuSample(coreCount, total, coreReading, frequencies)
    {
      if !initialized {
        return Err("CpuMonitor not initialized");
      }
      if !collectOk {
        return Err("PdhCollectQueryData failed");
      }
      if total.None? {
        return Err("total counter unreadable");
      }
      var totalUsage := total.value;
      if totalUsage < 0.0 {
        totalUsage := 0.0;
      }
      if totalUsage > 100.0 {
        totalUsage := 100.0;
      }
      var usages := ReadCoreUsages(coreCount, coreReading);
      if usages.None? {
        return Err("core counter unreadable");
      }
      var cores := usages.value;
      var average: uint64 := 0;
      if frequencies.Some? {
        cores := WithFrequencies(cores, frequencies.value);
        average := CalculateAverageFrequency(frequencies.value);
      } else {
        cores := WithoutFrequencies(cores);
      }
      var n := coreCount;
      assert cores == seq(n, k requires 0 <= k < n =>
                            CoreStats(k, Clamp(coreReading(k).value), CoreFrequency(frequencies, k)));
      r := Ok(CpuStats(totalUsage, cores, average, None, None, None));
    }
  }

  /**
   * The per-core loop of `getCurrentStats`: each core's id and clamped
   * usage, or nothing when a reading fails. The frequency stays the 0 that
   * `resize` value-initialised it to.
   */
  method ReadCoreUsages(n: nat, coreReading: nat -> Option<real>) returns (r: Option<seq<CoreStats>>)
    ensures r.None? <==> exists i :: 0 <= i < n && coreReading(i).None?
    ensures r.Some? ==>
      r.value == seq(n, k requires 0 <= k < n => CoreStats(k, Clamp(coreReading(k).value), 0))
  {
    var cores := new CoreStats[n](k => CoreStats(0, 0.0, 0));
    var i := 0;
    while i < n
      invariant 0 <= i <= n == cores.Length
      invariant forall k :: 0 <= k < i ==>
                  coreReading(k).Some? && cores[k] == CoreStats(k, Clamp(coreReading(k).value), 0)
      invariant forall k :: i <= k < n ==> cores[k].frequencyMhz == 0
    {
      var reading := coreReading(i);
      if reading.None? {
        return None;
      }
      var usage := reading.value;
      if usage < 0.0 {
        usage := 0.0;
      }
      if usage > 100.0 {
        usage := 100.0;
      }
      cores[i] := CoreStats(i, usage, cores[i].frequencyMhz);
      i := i + 1;
    }
    r := Some(cores[..]);
  }

  /** The frequency loop of `getCurrentStats`: core i takes the i-th reported frequency while there is one. */
  method WithFrequencies(cores: seq<CoreStats>, freqs: seq<uint64>) returns (r: seq<CoreStats>)
    ensures |r| == |cores|
    ensures forall k :: 0 <= k < |cores| ==>
              r[k] == cores[k].(frequencyMhz := if k < |freqs| then freqs[k] else cores[k].frequencyMhz)
  {
    var a := new CoreStats[|cores|](k requires 0 <= k < |cores| => cores[k]);
    var i := 0;
    while i < |cores| && i < |freqs|
      invariant 0 <= i <= |cores| == a.Length && i <= |freqs|
      invariant forall k :: 0 <= k < |cores| ==>
                  a[k] == cores[k].(frequencyMhz := if k < i then freqs[k] else cores[k].frequencyMhz)
    {
      a[i] := a[i].(frequencyMhz := freqs[i]);
      i := i + 1;
    }
    r := a[..];
  }

  /** The fallback of `getCurrentStats` when the frequency query fails: every core's frequency becomes 0. */
  method WithoutFrequencies(cores: seq<CoreStats>) returns (r: seq<CoreStats>)
    ensures |r| == |cores|
    ensures forall k :: 0 <= k < |cores| ==> r[k] == cores[k].(frequencyMhz := 0)
  {
    var a := new CoreStats[|cores|](k requires 0 <= k < |cores| => cores[k]);
    for i := 0 to |cores|
      invariant forall k :: 0 <= k < |cores| ==> a[k] == cores[k].(frequencyMhz := if k < i then 0 else cores[k].frequencyMhz)
    {
      a[i] := a[i].(frequencyMhz := 0);
    }
    r := a[..];
  }
}
