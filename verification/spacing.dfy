/** The inter-call spacing derived from a per-minute rate limit. */
module Spacing {
  import opened Values

  const DefaultRateLimitsMinute: int := 50

  /** `_calculateWaitingInMs`: the minute quota is spread over a 15-minute
      window, `60 / Math.floor(r * 15 / 60) * 1000` ms. The limit is a
      JavaScript number, written here as a real (`NaN` is not modelled). A
      zero denominator gives `Infinity`; a negative one gives a negative
      wait, as in JavaScript. */
  function WaitingMs(minuteRateLimits: real): (d: Duration)
    ensures minuteRateLimits >= 4.0 ==>
              d.Ms? && d.ms > 0.0 && d.ms * ((minuteRateLimits / 4.0).Floor as real) == 60000.0
    ensures 0.0 <= minuteRateLimits < 4.0 ==> d == Infinite
    ensures minuteRateLimits < 0.0 ==> d.Ms? && d.ms < 0.0
  {
    var perWindowSlot := ((minuteRateLimits * 15.0) / 60.0).Floor;
    if perWindowSlot == 0 then Infinite
    else Ms(60.0 / perWindowSlot as real * 1000.0)
  }

  /** The spacing for an optional limit: `undefined` selects the default
      parameter value of 50 calls a minute. */
  function WaitingMsOrDefault(minuteRateLimits: Option<real>): (d: Duration)
    ensures minuteRateLimits.None? ==> d == Ms(5000.0)
    ensures minuteRateLimits.Some? ==> d == WaitingMs(minuteRateLimits.value)
  {
    DefaultSpacing();
    match minuteRateLimits
    case None => WaitingMs(DefaultRateLimitsMinute as real)
    case Some(r) => WaitingMs(r)
  }

  /** The default limit of 50 calls a minute spaces calls 5 seconds apart;
      a limit of 100 spaces them 2.4 seconds apart; a fractional limit of
      7.5 rounds its slot count down to 1 and spaces calls a minute apart. */
  lemma DefaultSpacing()
    ensures WaitingMs(DefaultRateLimitsMinute as real) == Ms(5000.0)
    ensures WaitingMs(100.0) == Ms(2400.0)
    ensures WaitingMs(7.5) == Ms(60000.0)
  {
    assert ((DefaultRateLimitsMinute as real * 15.0) / 60.0).Floor == 12;
    assert ((100.0 * 15.0) / 60.0).Floor == 25;
    assert ((7.5 * 15.0) / 60.0).Floor == 1;
  }

  /** A limit below 4 a minute asks for an `Infinity` or negative spacing,
      which `setTimeout` in `_delay` turns into a 1 ms wait: such a limit
      spaces calls almost not at all. */
  lemma TinyLimitBarelyWaits(minuteRateLimits: real)
    requires minuteRateLimits < 4.0
    ensures WaitingMs(minuteRateLimits).TimerMs() == 1.0
  {
  }

  /** A higher rate limit never asks for a longer wait. */
  lemma SpacingNonIncreasing(r1: real, r2: real)
    requires 4.0 <= r1 <= r2
    ensures WaitingMs(r1).Ms? && WaitingMs(r2).Ms?
    ensures WaitingMs(r2).ms <= WaitingMs(r1).ms
  {
    var d1 := (r1 / 4.0).Floor;
    var d2 := (r2 / 4.0).Floor;
    assert 1 <= d1 <= d2;
    var w1 := WaitingMs(r1).ms;
    var w2 := WaitingMs(r2).ms;
    assert w1 * d1 as real == 60000.0;
    assert w2 * d2 as real == 60000.0;
    assert w1 * d2 as real >= w1 * d1 as real by {
      assert w1 * (d2 - d1) as real >= 0.0;
    }
    assert (w1 - w2) * d2 as real >= 0.0;
  }
}
