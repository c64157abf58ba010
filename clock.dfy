/**
 * The frame clock every benchmark runs at the top of its loop: `dt` is the time since the last
 * tick, and a `uint32_t` frame counter is reported and reset once more than 1000 ms have passed
 * since the last report. Time points are integers of nanoseconds on a steady clock; the console
 * output `FPS: <n>` is the value a tick returns.
 */
module FrameClocks {
  import opened Common

  const NanosInMillis: real := 1000000.0
  const ReportIntervalMillis: real := 1000.0

  /** `getMillisElapsed(a, b)`: the nanoseconds from `b` to `a`, in milliseconds. */
  function MillisElapsed(a: int, b: int): (ms: real)
    ensures ms * NanosInMillis == (a - b) as real
    ensures ms > 0.0 <==> a > b
  {
    (a - b) as real / NanosInMillis
  }

  /** Elapsed times add up along the clock. */
  lemma MillisElapsedAdds(a: int, b: int, c: int)
    ensures MillisElapsed(a, b) + MillisElapsed(b, c) == MillisElapsed(a, c)
  {
  }

  datatype ClockState = ClockState(lastTick: int, lastFpsMeasurement: int, dt: real, framesInLastSecond: u32)

  /**
   * The clock as it stands before the first frame: the two time points are two successive
   * readings of the steady clock, so the report time is never earlier than the first tick.
   */
  function StartState(tickStart: int, fpsStart: int): ClockState {
    ClockState(tickStart, fpsStart, 0.0, 0)
  }

  predicate SecondPassed(c: ClockState, now: int) {
    MillisElapsed(now, c.lastFpsMeasurement) > ReportIntervalMillis
  }

  /** The clock after the tick at `now`. */
  function NextState(c: ClockState, now: int): ClockState {
    var dt := MillisElapsed(now, c.lastTick);
    if SecondPassed(c, now) then ClockState(now, now, dt, 0)
    else ClockState(now, c.lastFpsMeasurement, dt, Increment(c.framesInLastSecond))
  }

  /** The frame count the tick at `now` reports, if it reports one. */
  function FpsReport(c: ClockState, now: int): Option<u32> {
    if SecondPassed(c, now) then Some(Increment(c.framesInLastSecond)) else None
  }

  /** The clock after ticks at each of `nows` in turn. */
  function Run(c: ClockState, nows: seq<int>): ClockState
    decreases |nows|
  {
    if nows == [] then c else Run(NextState(c, nows[0]), nows[1..])
  }

  /** What each of those ticks reports. */
  function Reports(c: ClockState, nows: seq<int>): (r: seq<Option<u32>>)
    ensures |r| == |nows|
    decreases |nows|
  {
    if nows == [] then [] else [FpsReport(c, nows[0])] + Reports(NextState(c, nows[0]), nows[1..])
  }

  /** The `dt` each of those ticks hands to the simulation. */
  function Dts(c: ClockState, nows: seq<int>): (r: seq<real>)
    ensures |r| == |nows|
    decreases |nows|
  {
    if nows == [] then [] else [NextState(c, nows[0]).dt] + Dts(NextState(c, nows[0]), nows[1..])
  }

  function Sum(s: seq<real>): real
    decreases |s|
  {
    if s == [] then 0.0 else s[0] + Sum(s[1..])
  }

  /** A tick takes `dt` from the previous tick and makes `now` the previous tick. */
  lemma TickMeasuresDt(c: ClockState, now: int)
    ensures NextState(c, now).dt * NanosInMillis == (now - c.lastTick) as real
    ensures NextState(c, now).lastTick == now
  {
  }

  /**
   * A tick reports exactly when more than 1000 ms have passed since the last report; when it
   * does, it reports the frames counted so far including itself, and restarts the count at `now`.
   */
  lemma {:induction false} TickReportsIffSecondPassed(c: ClockState, now: int)
    ensures FpsReport(c, now).Some? <==> (now - c.lastFpsMeasurement) as real > 1000.0 * NanosInMillis
    ensures FpsReport(c, now).Some? ==>
      FpsReport(c, now).value as int == (c.framesInLastSecond as int + 1) % U32Modulus &&
      NextState(c, now).framesInLastSecond == 0 && NextState(c, now).lastFpsMeasurement == now
    ensures FpsReport(c, now).None? ==>
      NextState(c, now).framesInLastSecond as int == (c.framesInLastSecond as int + 1) % U32Modulus &&
      NextState(c, now).lastFpsMeasurement == c.lastFpsMeasurement
  {
    var ms := MillisElapsed(now, c.lastFpsMeasurement);
    assert ms * NanosInMillis == (now - c.lastFpsMeasurement) as real;
    assert ms > 1000.0 <==> ms * NanosInMillis > 1000.0 * NanosInMillis;
  }

  /** The `dt`s handed to the simulation add up to the wall time from the first previous tick to the last tick. */
  lemma {:induction false} DtsSumToWallTime(c: ClockState, nows: seq<int>)
    requires nows != []
    ensures Sum(Dts(c, nows)) == MillisElapsed(nows[|nows| - 1], c.lastTick)
    decreases |nows|
  {
    var c' := NextState(c, nows[0]);
    if |nows| > 1 {
      DtsSumToWallTime(c', nows[1..]);
      assert nows[1..][|nows[1..]| - 1] == nows[|nows| - 1];
      MillisElapsedAdds(nows[|nows| - 1], nows[0], c.lastTick);
    }
  }

  /**
   * Within one second of the last report, every tick adds one to the counter (as long as the
   * counter does not wrap), none reports, and the report time stays put.
   */
  lemma {:induction false} CountsWithinSecond(c: ClockState, nows: seq<int>)
    requires forall i :: 0 <= i < |nows| ==> !SecondPassed(c, nows[i])
    requires c.framesInLastSecond as int + |nows| < U32Modulus
    ensures Run(c, nows).framesInLastSecond as int == c.framesInLastSecond as int + |nows|
    ensures Run(c, nows).lastFpsMeasurement == c.lastFpsMeasurement
    ensures forall i :: 0 <= i < |nows| ==> Reports(c, nows)[i].None?
    decreases |nows|
  {
    if nows != [] {
      var c' := NextState(c, nows[0]);
      assert c'.lastFpsMeasurement == c.lastFpsMeasurement;
      forall i | 0 <= i < |nows[1..]| ensures !SecondPassed(c', nows[1..][i]) {
        assert nows[1..][i] == nows[i + 1];
      }
      CountsWithinSecond(c', nows[1..]);
      forall i | 0 <= i < |nows| ensures Reports(c, nows)[i].None? {
        if i > 0 {
          assert Reports(c, nows)[i] == Reports(c', nows[1..])[i - 1];
        }
      }
    }
  }

  /**
   * The count a report shows is the number of frames since the previous report (or since the
   * start): starting from a zero counter, `F` ticks of which only the last is more than a second
   * after the report time report nothing F-1 times and then exactly `F`.
   */
  lemma {:induction false} ReportCountsFrames(c: ClockState, nows: seq<int>)
    requires c.framesInLastSecond == 0
    requires 0 < |nows| < U32Modulus
    requires forall i :: 0 <= i < |nows| - 1 ==> !SecondPassed(c, nows[i])
    requires SecondPassed(c, nows[|nows| - 1])
    ensures Reports(c, nows)[|nows| - 1] == Some(|nows| as u32)
    ensures forall i :: 0 <= i < |nows| - 1 ==> Reports(c, nows)[i].None?
    ensures Run(c, nows).framesInLastSecond == 0
    ensures Run(c, nows).lastFpsMeasurement == nows[|nows| - 1]
  {
    var front := nows[..|nows| - 1];
    var last := nows[|nows| - 1];
    assert nows == front + [last];
    forall i | 0 <= i < |front| ensures !SecondPassed(c, front[i]) {
    }
    CountsWithinSecond(c, front);
    RunAppend(c, front, last);
    var m := Run(c, front);
    assert m.lastFpsMeasurement == c.lastFpsMeasurement;
    assert SecondPassed(m, last);
  }

  /** Running the ticks of `front` and then one more tick at `last`. */
  lemma {:induction false} RunAppend(c: ClockState, front: seq<int>, last: int)
    ensures Run(c, front + [last]) == NextState(Run(c, front), last)
    ensures Reports(c, front + [last]) == Reports(c, front) + [FpsReport(Run(c, front), last)]
    decreases |front|
  {
    if front == [] {
      assert [last][1..] == [];
    } else {
      assert (front + [last])[1..] == front[1..] + [last];
      RunAppend(NextState(c, front[0]), front[1..], last);
    }
  }

  /** The mutable counters of the game loop. */
  class FrameClock {
    var lastTick: int
    var lastFpsMeasurement: int
    var dt: real
    var framesInLastSecond: u32

    function State(): ClockState
      reads this
    {
      ClockState(lastTick, lastFpsMeasurement, dt, framesInLastSecond)
    }

    /**
     * `lastTick` and `lastFpsMeasurement` are read from the steady clock one after the other before
     * the loop is entered; `dt` and the counter start at zero.
     */
    constructor (tickStart: int, fpsStart: int)
      requires tickStart <= fpsStart
      ensures State() == StartState(tickStart, fpsStart)
    {
      lastTick, lastFpsMeasurement := tickStart, fpsStart;
      dt, framesInLastSecond := 0.0, 0;
    }

    /** The tick at the top of each frame; returns the value printed as `FPS: <n>`, if any. */
    method Tick(now: int) returns (report: Option<u32>)
      modifies this
      ensures State() == NextState(old(State()), now)
      ensures report == FpsReport(old(State()), now)
    {
      dt := MillisElapsed(now, lastTick);
      lastTick := now;
      framesInLastSecond := Increment(framesInLastSecond);
      if MillisElapsed(now, lastFpsMeasurement) > ReportIntervalMillis {
        report := Some(framesInLastSecond);
        framesInLastSecond := 0;
        lastFpsMeasurement := now;
      } else {
        report := None;
      }
    }
  }
}
