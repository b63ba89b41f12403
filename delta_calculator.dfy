/**
 * The rate engine (src/WinHKMonLib/DeltaCalculator.cpp): guarded arithmetic
 * turning cumulative counters and tick pairs into rates and durations.
 * Results are reals; the model does not claim bit-exact doubles.
 */
module DeltaCalculator {
  import opened Types

  /**
   * Rate of a cumulative counter: 0 when no time has passed (or time ran
   * backwards), 0 when the counter went down (rollover is "no data", no wrap
   * arithmetic), otherwise the increase per second.
   */
  function CalculateRate(current: uint64, previous: uint64, elapsedSeconds: real): (r: real)
    ensures elapsedSeconds <= 0.0 ==> r == 0.0
    ensures current < previous ==> r == 0.0
    ensures elapsedSeconds > 0.0 && current >= previous ==> r * elapsedSeconds == (current - previous) as real
    ensures r >= 0.0
  {
    if elapsedSeconds <= 0.0 then 0.0
    else if current < previous then 0.0
    else (current - previous) as real / elapsedSeconds
  }

  /**
   * Seconds between two performance-counter ticks: 0 when the clock went
   * backwards or the frequency is 0, otherwise ticks / frequency.
   */
  function CalculateElapsedSeconds(currentTimestamp: uint64, previousTimestamp: uint64, frequency: uint64): (s: real)
    ensures currentTimestamp < previousTimestamp ==> s == 0.0
    ensures frequency == 0 ==> s == 0.0
    ensures currentTimestamp >= previousTimestamp && frequency > 0 ==>
              s * frequency as real == (currentTimestamp - previousTimestamp) as real
    ensures s >= 0.0
  {
    if currentTimestamp < previousTimestamp then 0.0
    else if frequency == 0 then 0.0
    else (currentTimestamp - previousTimestamp) as real / frequency as real
  }

  /** Decimal megabits per second: 1 Mbps is 1,000,000 bits per second. */
  function BytesPerSecToMegabitsPerSec(bytesPerSec: real): (mbps: real)
    ensures mbps * 1000000.0 == bytesPerSec * 8.0
  {
    (bytesPerSec * 8.0) / 1000000.0
  }

  /** Decimal megabytes per second: 1 MB/s is 1,000,000 bytes per second. */
  function BytesPerSecToMegabytesPerSec(bytesPerSec: real): (mbs: real)
    ensures mbs * 1000000.0 == bytesPerSec
  {
    bytesPerSec / 1000000.0
  }

  /** Both conversions share the decimal base, so megabits are eight times megabytes. */
  lemma MegabitsAreEightMegabytes(bytesPerSec: real)
    ensures BytesPerSecToMegabitsPerSec(bytesPerSec) == 8.0 * BytesPerSecToMegabytesPerSec(bytesPerSec)
  {
  }

  /** Equal counters give a zero rate whatever the elapsed time. */
  lemma EqualCountersGiveZeroRate(counter: uint64, elapsedSeconds: real)
    ensures CalculateRate(counter, counter, elapsedSeconds) == 0.0
  {
  }

  /** A counter that moves forward at a steady pace is measured at that pace. */
  lemma {:induction false} RateOfSteadyCounter(previous: uint64, perSecond: nat, ticks: uint64, frequency: uint64)
    requires frequency > 0 && ticks > 0
    requires previous + perSecond * ticks <= 0xFFFF_FFFF_FFFF_FFFF
    ensures CalculateRate((previous + perSecond * ticks) as uint64, previous,
                          CalculateElapsedSeconds(ticks, 0, frequency))
            == (perSecond * frequency) as real
  {
    var e := CalculateElapsedSeconds(ticks, 0, frequency);
    assert e == ticks as real / frequency as real;
    var r := CalculateRate((previous + perSecond * ticks) as uint64, previous, e);
    assert r * e == (perSecond * ticks) as real;
    calc {
      r;
      (perSecond * ticks) as real / e;
      (perSecond * ticks) as real * frequency as real / ticks as real;
      (perSecond * frequency) as real;
    }
  }

  /** Scenarios A and B of the rate engine, and scenario C of the clock. */
  lemma RateEngineScenarios()
    ensures CalculateRate(10000000, 0, 1.0) == 10000000.0
    ensures CalculateRate(100, 1000, 1.0) == 0.0
    ensures CalculateElapsedSeconds(5000000, 0, 10000000) == 0.5
    ensures CalculateElapsedSeconds(10000000, 0, 10000000) == 1.0
  {
  }
}
