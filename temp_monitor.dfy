/**
 * The temperature monitor (src/WinHKMonLib/TempMonitor.cpp): a facade with
 * an initialised flag over a hidden implementation object. The live
 * implementation is a stub that always reports the library as missing and
 * never yields stats. The administrator check is an input.
 */
module TempMonitor {
  import opened Wrappers
  import opened Types

  /** `TempMonitor::InitResult`. */
  datatype InitResult = Success | NoAdmin | NoSensors | DriverFailed | LibraryMissing

  predicate OccursAt(s: string, t: string, i: nat) {
    i + |t| <= |s| && s[i..i + |t|] == t
  }

  /** Whether `t` occurs in `s` as a contiguous piece. */
  predicate Contains(s: string, t: string) {
    exists i :: 0 <= i <= |s| && OccursAt(s, t, i)
  }

  /** The word each message is recognised by. */
  function Keyword(result: InitResult): string {
    match result
    case Success => "success"
    case NoAdmin => "dministrator"
    case NoSensors => "sensor"
    case DriverFailed => "driver"
    case LibraryMissing => "dll"
  }

  /** The text of each first line before its keyword. */
  function SummaryBefore(result: InitResult): string {
    match result
    case Success => "Temperature monitoring initialized "
    case NoAdmin => "A"
    case NoSensors => "No temperature "
    case DriverFailed => "Failed to load hardware monitoring "
    case LibraryMissing => "LibreHardwareMonitorLib."
  }

  /** The text of each first line after its keyword. */
  function SummaryAfter(result: InitResult): string {
    match result
    case Success => "fully"
    case NoAdmin => " privileges required for temperature monitoring."
    case NoSensors => "s detected on this system."
    case DriverFailed => "s."
    case LibraryMissing => " not found."
  }

  /** The first line of each result's message, spelled around its keyword. */
  function Summary(result: InitResult): string {
    SummaryBefore(result) + Keyword(result) + SummaryAfter(result)
  }

  /** The second line of each failure's message: what the user can do or check. */
  function Advice(result: InitResult): string {
    match result
    case Success => ""
    case NoAdmin => "Right-click WinHKMon and select 'Run as administrator'"
    case NoSensors => "This is common in virtual machines or older hardware"
    case DriverFailed => "Ensure WinRing0.sys driver is available and signed"
    case LibraryMissing => "Ensure the library is in the same directory as WinHKMon.exe"
  }

  lemma PrefixOfConcat(a: string, b: string)
    ensures (a + b)[..|a|] == a
  {
  }

  /**
   * `getInitResultMessage`: a non-empty message per result code, one line
   * for success and a summary line plus advice for each failure.
   */
  function InitResultMessage(result: InitResult): (m: string)
    ensures |m| >= |Summary(result)| > 0
    ensures m[..|Summary(result)|] == Summary(result)
  {
    var summary := Summary(result);
    if result == Success then summary
    else
      PrefixOfConcat(summary, "\n" + Advice(result));
      summary + ("\n" + Advice(result))
  }

  /** A piece of a message's prefix is a piece of the message. */
  lemma OccursInPrefix(m: string, p: string, t: string, i: nat)
    requires |p| <= |m| && m[..|p|] == p && OccursAt(p, t, i)
    ensures OccursAt(m, t, i)
  {
    assert m[i..i + |t|] == m[..|p|][i..i + |t|];
  }

  /** Each message names what went wrong (or that nothing did). */
  lemma MessageNamesItsCause(result: InitResult)
    ensures Contains(InitResultMessage(result), Keyword(result))
  {
    var before, word := SummaryBefore(result), Keyword(result);
    var summary := Summary(result);
    assert summary[|before|..|before| + |word|] == word;
    OccursInPrefix(InitResultMessage(result), summary, word, |before|);
  }

  /** The letter each first line starts with; no two results share one. */
  function Initial(result: InitResult): char {
    match result
    case Success => 'T'
    case NoAdmin => 'A'
    case NoSensors => 'N'
    case DriverFailed => 'F'
    case LibraryMissing => 'L'
  }

  lemma SummaryStartsWithInitial(result: InitResult)
    ensures |Summary(result)| > 0 && Summary(result)[0] == Initial(result)
  {
    var before := SummaryBefore(result);
    assert before[0] == Initial(result);
    assert Summary(result)[0] == before[0];
  }

  /** Different result codes get different messages: they differ in their first letter. */
  lemma MessagesDistinct(r1: InitResult, r2: InitResult)
    requires r1 != r2
    ensures InitResultMessage(r1) != InitResultMessage(r2)
  {
    SummaryStartsWithInitial(r1);
    SummaryStartsWithInitial(r2);
    var m1, m2 := InitResultMessage(r1), InitResultMessage(r2);
    assert m1[0] == m1[..|Summary(r1)|][0];
    assert m2[0] == m2[..|Summary(r2)|][0];
  }

  /** `TempMonitor::Impl`, as the stub that is compiled today. */
  class Impl {
    /** Whether `computer_` is set. */
    var computer: bool
    var hasCpuSensors: bool

    constructor ()
      ensures !computer && !hasCpuSensors
    {
      computer := false;
      hasCpuSensors := false;
    }

    /** The stub reports the library as missing and touches nothing. */
    method Initialize() returns (result: InitResult)
      ensures result == LibraryMissing
    {
      result := LibraryMissing;
    }

    /** The stub never yields stats. */
    method GetCurrentStats() returns (stats: Option<TempStats>)
      ensures stats.None?
    {
      stats := None;
    }

    method Cleanup()
      modifies this
      ensures !computer && !hasCpuSensors
    {
      computer := false;
      hasCpuSensors := false;
    }
  }

  class TempMonitor {
    var isInitialized: bool
    const impl: Impl

    constructor ()
      ensures !isInitialized && fresh(impl) && !impl.computer && !impl.hasCpuSensors
    {
      isInitialized := false;
      impl := new Impl();
    }

    /**
     * `initialize`: without administrator rights it answers `NoAdmin` and
     * consults nothing else; otherwise it answers what the implementation
     * answers, and becomes initialised exactly when that is `Success`; as
     * the stub never answers `Success`, the flag never changes.
     */
    method Initialize(isAdmin: bool) returns (result: InitResult)
      modifies this
      ensures !isAdmin ==> result == NoAdmin
      ensures isAdmin ==> result == LibraryMissing
      ensures isInitialized == (old(isInitialized) || (isAdmin && result == Success))
      ensures isInitialized == old(isInitialized)
    {
      if !isAdmin {
        return NoAdmin;
      }
      result := impl.Initialize();
      isInitialized := isInitialized || result == Success;
    }

    /** `getCurrentStats`: nothing when uninitialised, and the stub yields nothing either. */
    method GetCurrentStats() returns (stats: Option<TempStats>)
      ensures stats.None?
    {
      if !isInitialized {
        return None;
      }
      stats := impl.GetCurrentStats();
    }

    /** `cleanup`: cleans the implementation only when initialised, and always ends uninitialised. */
    method Cleanup()
      modifies this, impl
      ensures !isInitialized
      ensures old(isInitialized) ==> !impl.computer && !impl.hasCpuSensors
      ensures !old(isInitialized) ==> unchanged(impl)
    {
      if isInitialized {
        impl.Cleanup();
        isInitialized := false;
      }
    }
  }

  /**
   * A fresh monitor stays uninitialised and yields no stats through any
   * initialise attempt and two cleanups.
   */
  method Lifecycle(isAdmin: bool) returns (result: InitResult, stats: Option<TempStats>)
    ensures result == (if isAdmin then LibraryMissing else NoAdmin)
    ensures stats.None?
  {
    var m := new TempMonitor();
    assert !m.isInitialized;
    result := m.Initialize(isAdmin);
    assert !m.isInitialized;
    stats := m.GetCurrentStats();
    m.Cleanup();
    m.Cleanup();
  }
}
