/**
 * The memory monitor (src/WinHKMonLib/MemoryMonitor.cpp): the fields it
 * derives from one OS memory report. The report itself is an input, and
 * a failed query is `None`.
 */
module MemoryMonitor {
  import opened Wrappers
  import opened Types

  /** The four numbers the OS reports: physical memory and page file, total and available. */
  datatype MemoryStatus = MemoryStatus(
    totalPhys: uint64,
    availPhys: uint64,
    totalPageFile: uint64,
    availPageFile: uint64)

  /** Used bytes as an unsigned 64-bit subtraction: adding the available bytes back gives the total. */
  function UsedBytes(total: uint64, available: uint64): (used: uint64)
    ensures Wrap64(used + available) == total
    ensures available <= total ==> used <= total
  {
    Wrap64(total - available)
  }

  /** The usage percentage: used over total, times 100, or 0 for a zero total. */
  function UsagePercent(used: uint64, total: uint64): (p: real)
    ensures total == 0 ==> p == 0.0
    ensures total > 0 ==> p * total as real == used as real * 100.0
  {
    if total > 0 then used as real / total as real * 100.0 else 0.0
  }

  /**
   * `getCurrentStats`: fails when the OS query fails, never with partial
   * stats; otherwise the reported totals and availability with the derived
   * used bytes and percentages, and no cache or commit figures.
   */
  function GetCurrentStats(status: Option<MemoryStatus>): (r: Result<MemoryStats, string>)
    ensures r.Err? <==> status.None?
    ensures r.Ok? ==>
      var s, m := status.value, r.value;
      && m.totalPhysicalBytes == s.totalPhys && m.availablePhysicalBytes == s.availPhys
      && m.totalPageFileBytes == s.totalPageFile && m.availablePageFileBytes == s.availPageFile
      && Wrap64(m.usedPhysicalBytes + m.availablePhysicalBytes) == m.totalPhysicalBytes
      && Wrap64(m.usedPageFileBytes + m.availablePageFileBytes) == m.totalPageFileBytes
      && m.usagePercent == UsagePercent(m.usedPhysicalBytes, m.totalPhysicalBytes)
      && m.pageFilePercent == UsagePercent(m.usedPageFileBytes, m.totalPageFileBytes)
      && m.cachedBytes.None? && m.committedBytes.None?
  {
    if status.None? then Err("GlobalMemoryStatusEx failed")
    else
      var s := status.value;
      var usedPhys := UsedBytes(s.totalPhys, s.availPhys);
      var usedPage := UsedBytes(s.totalPageFile, s.availPageFile);
      Ok(MemoryStats(
        s.totalPhys, s.availPhys, usedPhys, UsagePercent(usedPhys, s.totalPhys),
        s.totalPageFile, s.availPageFile, usedPage, UsagePercent(usedPage, s.totalPageFile),
        None, None))
  }

  lemma PositiveProduct(a: real, b: real)
    requires a > 0.0 && b > 0.0
    ensures a * b > 0.0
  {
  }

  lemma NonNegativeProduct(a: real, b: real)
    requires a >= 0.0 && b >= 0.0
    ensures a * b >= 0.0
  {
  }

  /** Dividing both sides of `a × t <= b × t` by a positive t. */
  lemma CancelPositive(a: real, b: real, t: real)
    requires t > 0.0 && a * t <= b * t
    ensures a <= b
  {
    assert (a - b) * t == a * t - b * t;
    if a > b {
      PositiveProduct(a - b, t);
    }
  }

  lemma PercentOfPart(used: uint64, total: uint64)
    requires used <= total
    ensures 0.0 <= UsagePercent(used, total) <= 100.0
  {
    if total > 0 {
      PercentBounds(UsagePercent(used, total), used as real, total as real);
    }
  }

  /** A p with p × t = u × 100 for 0 <= u <= t lies in [0, 100]. */
  lemma PercentBounds(p: real, u: real, t: real)
    requires 0.0 <= u <= t && t > 0.0 && p * t == u * 100.0
    ensures 0.0 <= p <= 100.0
  {
    assert p * t <= 100.0 * t;
    CancelPositive(p, 100.0, t);
    assert 0.0 * t <= p * t;
    CancelPositive(0.0, p, t);
  }

  /** When available does not exceed total, used is their plain difference and both percentages lie in [0, 100]. */
  lemma PercentagesInRange(s: MemoryStatus)
    requires s.availPhys <= s.totalPhys && s.availPageFile <= s.totalPageFile
    ensures var m := GetCurrentStats(Some(s)).value;
      && m.usedPhysicalBytes == s.totalPhys - s.availPhys
      && m.usedPageFileBytes == s.totalPageFile - s.availPageFile
      && 0.0 <= m.usagePercent <= 100.0
      && 0.0 <= m.pageFilePercent <= 100.0
  {
    var m := GetCurrentStats(Some(s)).value;
    PercentOfPart(m.usedPhysicalBytes, m.totalPhysicalBytes);
    PercentOfPart(m.usedPageFileBytes, m.totalPageFileBytes);
  }

  /**
   * When the OS reports more available than total, the subtraction wraps:
   * used exceeds the total, and the percentage exceeds 100.
   */
  lemma OverReportWraps(total: uint64, available: uint64)
    requires available > total
    ensures UsedBytes(total, available) == TwoTo64 - (available - total)
    ensures UsedBytes(total, available) > total
    ensures total > 0 ==> UsagePercent(UsedBytes(total, available), total) > 100.0
  {
    var used := UsedBytes(total, available);
    assert used == total - available + TwoTo64;
    if total > 0 {
      var p, t := UsagePercent(used, total), total as real;
      assert p * t == used as real * 100.0 > t * 100.0;
      if p <= 100.0 {
        NonNegativeProduct(100.0 - p, t);
      }
    }
  }
}
