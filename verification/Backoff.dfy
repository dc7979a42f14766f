/** The retry schedule, over the reals. */
module Backoff {
  import opened Basics

  datatype Settings = Settings(initial: real, maximum: real, multiplier: real, jitter: real)
  {
    /** What `WorkerSettings` demands. */
    predicate Valid() {
      0.0 < initial <= maximum && 1.0 <= multiplier && 0.0 <= jitter <= 1.0
    }
  }

  function MinReal(a: real, b: real): real {
    if a < b then a else b
  }

  function MaxReal(a: real, b: real): real {
    if a > b then a else b
  }

  function Power(x: real, n: nat): real {
    if n == 0 then 1.0 else Power(x, n - 1) * x
  }

  /** The uncapped schedule. */
  function Raw(s: Settings, n: nat): real {
    if n == 0 then s.initial else Raw(s, n - 1) * s.multiplier
  }

  /** The base `n` calls after a reset. */
  function Base(s: Settings, n: nat): real {
    MinReal(s.maximum, Raw(s, n))
  }

  lemma {:induction false} RawIsPower(s: Settings, n: nat)
    ensures Raw(s, n) == s.initial * Power(s.multiplier, n)
  {
    if n > 0 {
      RawIsPower(s, n - 1);
      Associates(s.initial, Power(s.multiplier, n - 1), s.multiplier);
    }
  }

  /** The closed form of the schedule. */
  lemma BaseClosedForm(s: Settings, n: nat)
    ensures Base(s, n) == MinReal(s.maximum, s.initial * Power(s.multiplier, n))
  {
    RawIsPower(s, n);
  }

  lemma TimesMore(a: real, m: real)
    requires a >= 0.0 && m >= 1.0
    ensures a <= a * m
  {
    assert a * (m - 1.0) >= 0.0;
    assert a * (m - 1.0) == a * m - a;
  }

  lemma {:induction false} RawGrows(s: Settings, n: nat)
    requires s.Valid()
    ensures s.initial <= Raw(s, n) <= Raw(s, n + 1)
  {
    if n > 0 {
      RawGrows(s, n - 1);
    }
    TimesMore(Raw(s, n), s.multiplier);
  }

  lemma Scaled(a: real, x: real, y: real)
    requires a >= 0.0 && x <= y
    ensures a * x <= a * y
  {
    assert a * (y - x) >= 0.0;
    assert a * (y - x) == a * y - a * x;
  }

  lemma CapFirst(maximum: real, raw: real, m: real)
    requires 0.0 <= raw && 0.0 <= maximum && 1.0 <= m
    ensures MinReal(maximum, MinReal(maximum, raw) * m) == MinReal(maximum, raw * m)
  {
    TimesMore(raw, m);
    TimesMore(maximum, m);
  }

  lemma Associates(a: real, b: real, c: real)
    ensures a * (b * c) == (a * b) * c
  {
  }

  /** One step of the loop keeps to the closed form: capping before multiplying changes nothing. */
  lemma BaseStep(s: Settings, n: nat)
    requires s.Valid()
    ensures MinReal(s.maximum, Base(s, n) * s.multiplier) == Base(s, n + 1)
  {
    RawGrows(s, n);
    CapFirst(s.maximum, Raw(s, n), s.multiplier);
  }

  /** The base never falls between resets, and stays between the initial and the maximum delay. */
  lemma {:induction false} BaseGrows(s: Settings, n: nat, m: nat)
    requires s.Valid() && n <= m
    ensures s.initial <= Base(s, n) <= Base(s, m) <= s.maximum
    decreases m - n
  {
    RawGrows(s, n);
    if n < m {
      BaseGrows(s, n + 1, m);
    }
  }

  /** The delay drawn from a base: within the jitter band around it, and never above the maximum. */
  ghost predicate DrawnFrom(s: Settings, base: real, delay: real) {
    && base * (1.0 - s.jitter) <= delay <= base * (1.0 + s.jitter)
    && 0.0 <= delay <= s.maximum
  }

  function Delay(s: Settings, base: real, unit: real): real {
    MaxReal(0.0, MinReal(s.maximum, base * Factor(s, unit)))
  }

  function Factor(s: Settings, unit: real): real {
    1.0 + s.jitter * (2.0 * unit - 1.0)
  }

  lemma FactorBand(s: Settings, unit: real)
    requires s.Valid() && 0.0 <= unit <= 1.0
    ensures 1.0 - s.jitter <= Factor(s, unit) <= 1.0 + s.jitter && (unit == 0.5 ==> Factor(s, unit) == 1.0)
  {
    Scaled(s.jitter, -1.0, 2.0 * unit - 1.0);
    Scaled(s.jitter, 2.0 * unit - 1.0, 1.0);
  }

  lemma Band(base: real, low: real, factor: real, high: real, maximum: real)
    requires 0.0 < base <= maximum && 0.0 <= low <= factor <= high && low <= 1.0
    ensures var delay := MaxReal(0.0, MinReal(maximum, base * factor));
            base * low <= delay <= base * high && 0.0 <= delay <= maximum
  {
    Scaled(base, 0.0, low);
    Scaled(base, low, factor);
    Scaled(base, factor, high);
    Scaled(base, low, 1.0);
  }

  lemma DelayDrawn(s: Settings, base: real, unit: real)
    requires s.Valid() && 0.0 < base <= s.maximum && 0.0 <= unit <= 1.0
    ensures DrawnFrom(s, base, Delay(s, base, unit)) && (unit == 0.5 ==> Delay(s, base, unit) == base)
  {
    FactorBand(s, unit);
    Band(base, 1.0 - s.jitter, Factor(s, unit), 1.0 + s.jitter, s.maximum);
  }

  /** The draw moves the delay evenly from the lower to the upper end of the band, cut at the maximum. */
  lemma DelayInterpolates(s: Settings, base: real, unit: real)
    requires s.Valid() && 0.0 < base <= s.maximum && 0.0 <= unit <= 1.0
    ensures var low, high := base * (1.0 - s.jitter), base * (1.0 + s.jitter);
            Delay(s, base, unit) == MinReal(s.maximum, low + unit * (high - low))
  {
    var low, high := base * (1.0 - s.jitter), base * (1.0 + s.jitter);
    FactorBand(s, unit);
    Scaled(base, 0.0, Factor(s, unit));
    Product(base, s.jitter, unit);
    assert high - low == 2.0 * (base * s.jitter);
  }

  lemma Product(base: real, jitter: real, unit: real)
    ensures base * (1.0 + jitter * (2.0 * unit - 1.0)) == base * (1.0 - jitter) + unit * (2.0 * (base * jitter))
  {
    assert jitter * (2.0 * unit - 1.0) == 2.0 * (jitter * unit) - jitter;
    assert base * (jitter * unit) == unit * (base * jitter);
  }

  class Backoff {
    const settings: Settings
    var base: real
    ghost var calls: nat

    /** `calls` delays were drawn since the last reset. */
    ghost predicate Valid() reads this {
      settings.Valid() && base == Base(settings, calls)
    }

    constructor (settings: Settings)
      requires settings.Valid()
      ensures Valid() && this.settings == settings && calls == 0
    {
      this.settings := settings;
      base := settings.initial;
      calls := 0;
    }

    method Reset()
      requires Valid()
      modifies this
      ensures Valid() && calls == 0 && base == settings.initial
    {
      base := settings.initial;
      calls := 0;
    }

    /** `next_delay`; None when the random source leaves [0, 1]. */
    method NextDelay(unit: real) returns (delay: Option<real>)
      requires Valid()
      modifies this
      ensures Valid() && (delay.Some? <==> 0.0 <= unit <= 1.0)
      ensures delay.Some? ==> calls == old(calls) + 1
                              && delay.value == Delay(settings, Base(settings, old(calls)), unit)
      ensures delay.Some? ==> DrawnFrom(settings, Base(settings, old(calls)), delay.value)
      ensures delay.None? ==> calls == old(calls) && base == old(base)
    {
      if !(0.0 <= unit <= 1.0) {
        return None;
      }
      BaseGrows(settings, calls, calls);
      DelayDrawn(settings, base, unit);
      BaseStep(settings, calls);
      var next := Delay(settings, base, unit);
      base := MinReal(settings.maximum, base * settings.multiplier);
      calls := calls + 1;
      return Some(next);
    }
  }
}
