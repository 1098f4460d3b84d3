/** The per-device signal average: an exponential average kept in 16-bit fixed point. */
module LinkHealth {
  import opened Wrappers

  const SCALE := 8
  const RSSI_UNKNOWN: Int16 := -32768

  type Int16 = n: int | -32768 <= n < 32768

  /** Conversion to int16, wrapping. */
  function ToInt16(n: int): Int16 { (n + 32768) % 65536 - 32768 }

  /** Division truncated toward zero. */
  function Quotient(a: int, b: nat): int
    requires b > 0
  {
    if a >= 0 then a / b else -(-a / b)
  }

  /** Rounds to the nearest whole dBm, half away from zero. */
  function ToDbm(scaled: int): int { Quotient(scaled + (if scaled >= 0 then SCALE / 2 else -(SCALE / 2)), SCALE) }

  function Updated(scaled: Int16, rssi: Int16): Int16 {
    if scaled == RSSI_UNKNOWN then ToInt16(rssi * SCALE) else ToInt16(scaled + rssi - ToDbm(scaled))
  }

  class Device {
    var lastSeen: nat
    var lastRssi: Int16
    var scaled: Int16

    constructor ()
      ensures scaled == RSSI_UNKNOWN && lastRssi == RSSI_UNKNOWN && lastSeen == 0
    {
      lastSeen, lastRssi, scaled := 0, RSSI_UNKNOWN, RSSI_UNKNOWN;
    }

    /** A frame of this device arrived; `capture` is the radio's last reading, if valid. */
    method UpdateLinkHealth(now: nat, capture: Option<Int16>)
      modifies this
      ensures lastSeen == now
      ensures capture.None? ==> lastRssi == old(lastRssi) && scaled == old(scaled)
      ensures capture.Some? ==> lastRssi == capture.value && scaled == Updated(old(scaled), capture.value)
    {
      lastSeen := now;
      if capture.None? { return; }
      lastRssi := capture.value;
      if scaled == RSSI_UNKNOWN {
        scaled := ToInt16(capture.value * SCALE);
        return;
      }
      scaled := ToInt16(scaled + capture.value - ToDbm(scaled));
    }

    /** A stream of readings. */
    method UpdateAll(times: seq<nat>, samples: seq<Int16>)
      requires |times| == |samples|
      modifies this
      ensures scaled == Average(old(scaled), samples)
      ensures samples != [] ==> lastRssi == samples[|samples| - 1] && lastSeen == times[|times| - 1]
    {
      for i := 0 to |samples|
        invariant scaled == Average(old(scaled), samples[..i])
        invariant i > 0 ==> lastRssi == samples[i - 1] && lastSeen == times[i - 1]
      {
        assert samples[..i + 1][..i] == samples[..i];
        UpdateLinkHealth(times[i], Some(samples[i]));
      }
      assert samples[..|samples|] == samples;
    }
  }

  function Average(scaled: Int16, samples: seq<Int16>): Int16 {
    if samples == [] then scaled
    else Updated(Average(scaled, samples[..|samples| - 1]), samples[|samples| - 1])
  }

  /** Bounds whose fixed-point image fits in 16 bits without touching the sentinel. */
  predicate Fits(lo: int, hi: int) { -4095 <= lo <= hi <= 4095 }

  ghost predicate Within(samples: seq<Int16>, lo: int, hi: int) { forall x :: x in samples ==> lo <= x <= hi }

  predicate InRange(scaled: int, lo: int, hi: int) { SCALE * lo <= scaled <= SCALE * hi }

  /** Rounding to nearest: off by at most half a step. */
  lemma NearestDbm(scaled: int)
    ensures SCALE * ToDbm(scaled) - SCALE / 2 <= scaled <= SCALE * ToDbm(scaled) + SCALE / 2
  {
  }

  lemma InRangeKnown(scaled: int, lo: int, hi: int)
    requires Fits(lo, hi) && InRange(scaled, lo, hi)
    ensures RSSI_UNKNOWN < scaled < 32768 && ToInt16(scaled) == scaled
  {
  }

  /** One update keeps the average among the samples and never overflows. */
  lemma UpdateInRange(scaled: Int16, x: Int16, lo: int, hi: int)
    requires Fits(lo, hi) && lo <= x <= hi && (scaled == RSSI_UNKNOWN || InRange(scaled, lo, hi))
    ensures InRange(Updated(scaled, x), lo, hi)
    ensures Updated(scaled, x) == if scaled == RSSI_UNKNOWN then SCALE * x else scaled + x - ToDbm(scaled)
  {
    if scaled != RSSI_UNKNOWN {
      NearestDbm(scaled);
      InRangeKnown(scaled + x - ToDbm(scaled), lo, hi);
    } else {
      InRangeKnown(SCALE * x, lo, hi);
    }
  }

  lemma {:induction false} AverageInRange(samples: seq<Int16>, lo: int, hi: int)
    requires Fits(lo, hi) && Within(samples, lo, hi) && samples != []
    ensures InRange(Average(RSSI_UNKNOWN, samples), lo, hi) && Average(RSSI_UNKNOWN, samples) != RSSI_UNKNOWN
    decreases |samples|
  {
    var n := |samples| - 1;
    assert samples[n] in samples && forall x :: x in samples[..n] ==> x in samples;
    if n > 0 { AverageInRange(samples[..n], lo, hi); }
    UpdateInRange(Average(RSSI_UNKNOWN, samples[..n]), samples[n], lo, hi);
    InRangeKnown(Average(RSSI_UNKNOWN, samples), lo, hi);
  }

  /** The exact average the fixed point approximates: the first sample, then one eighth of each new one. */
  function Exact(samples: seq<Int16>): real
    requires samples != []
  {
    var x := samples[|samples| - 1] as real;
    if |samples| == 1 then x else var e := Exact(samples[..|samples| - 1]); e + (x - e) / 8.0
  }

  lemma ErrorShrinks(scaled: int, dbm: int, exact: real, x: real)
    requires SCALE * dbm - SCALE / 2 <= scaled <= SCALE * dbm + SCALE / 2
    requires -4.0 <= scaled as real - 8.0 * exact <= 4.0
    ensures -4.0 <= (scaled as real + x - dbm as real) - 8.0 * (exact + (x - exact) / 8.0) <= 4.0
  {
    var d := scaled as real - 8.0 * exact;
    assert (scaled as real + x - dbm as real) - 8.0 * (exact + (x - exact) / 8.0) == d + exact - dbm as real;
  }

  /** Over every history of readings that fits, the 16-bit average stays among the readings and within half a dBm of the
      exact exponential average, so rounding errors never accumulate. */
  lemma {:induction false} WithinHalfADbm(samples: seq<Int16>, lo: int, hi: int)
    requires Fits(lo, hi) && Within(samples, lo, hi) && samples != []
    ensures var s := Average(RSSI_UNKNOWN, samples);
            && InRange(s, lo, hi) && lo <= ToDbm(s) <= hi
            && -4.0 <= s as real - 8.0 * Exact(samples) <= 4.0
    decreases |samples|
  {
    var n := |samples| - 1;
    AverageInRange(samples, lo, hi);
    NearestDbm(Average(RSSI_UNKNOWN, samples));
    assert samples[n] in samples && forall x :: x in samples[..n] ==> x in samples;
    if n > 0 {
      var s := Average(RSSI_UNKNOWN, samples[..n]);
      WithinHalfADbm(samples[..n], lo, hi);
      UpdateInRange(s, samples[n], lo, hi);
      AverageInRange(samples[..n], lo, hi);
      NearestDbm(s);
      ErrorShrinks(s, ToDbm(s), Exact(samples[..n]), samples[n] as real);
    } else {
      UpdateInRange(RSSI_UNKNOWN, samples[0], lo, hi);
    }
  }

  // --- A constant signal ---

  function Distance(scaled: int, x: int): nat { if scaled < SCALE * x then SCALE * x - scaled else scaled - SCALE * x }

  /** Under a constant signal the average moves strictly toward it without passing it until its rounding is exact, and
      then stays. */
  lemma MovesCloser(scaled: Int16, x: Int16)
    requires Fits(x, x) && Fits(ToDbm(scaled), ToDbm(scaled)) && scaled != RSSI_UNKNOWN
    ensures ToDbm(scaled) == x ==> Updated(scaled, x) == scaled
    ensures ToDbm(scaled) < x ==> scaled < Updated(scaled, x) <= SCALE * x
    ensures ToDbm(scaled) > x ==> SCALE * x <= Updated(scaled, x) < scaled
  {
    NearestDbm(scaled);
    var next := scaled + x - ToDbm(scaled);
    assert RSSI_UNKNOWN < next < 32768;
  }

  function Repeat(x: Int16, n: nat): seq<Int16> { if n == 0 then [] else Repeat(x, n - 1) + [x] }

  lemma RepeatStep(scaled: Int16, x: Int16, n: nat)
    ensures Average(scaled, Repeat(x, n + 1)) == Updated(Average(scaled, Repeat(x, n)), x)
  {
    var r := Repeat(x, n + 1);
    assert r == Repeat(x, n) + [x] && r[..|r| - 1] == Repeat(x, n);
  }

  lemma NextInRange(s: Int16, x: Int16)
    requires -32760 <= s <= 32760 && -4095 <= x <= 4095
    ensures -32760 <= Updated(s, x) <= 32760
  {
    UpdateInRange(s, x, -4095, 4095);
  }

  lemma {:induction false} StaysInRange(scaled: Int16, x: Int16, n: nat)
    requires -32760 <= scaled <= 32760 && -4095 <= x <= 4095
    ensures -32760 <= Average(scaled, Repeat(x, n)) <= 32760
  {
    if n > 0 {
      StaysInRange(scaled, x, n - 1);
      RepeatStep(scaled, x, n - 1);
      NextInRange(Average(scaled, Repeat(x, n - 1)), x);
    }
  }

  lemma StepCloser(s: Int16, x: Int16)
    requires -32760 <= s <= 32760 && -4095 <= x <= 4095
    ensures ToDbm(s) == x ==> Updated(s, x) == s
    ensures ToDbm(s) != x ==> Distance(Updated(s, x), x) < Distance(s, x)
  {
    NearestDbm(s);
    MovesCloser(s, x);
  }

  lemma AtTarget(s: int, x: int)
    requires Distance(s, x) == 0
    ensures ToDbm(s) == x
  {
  }

  /** The average of a repeated reading either rounds to it or has come one step closer per reading. */
  lemma {:induction false} ComesCloser(scaled: Int16, x: Int16, n: nat)
    requires -32760 <= scaled <= 32760 && -4095 <= x <= 4095
    ensures var s := Average(scaled, Repeat(x, n)); ToDbm(s) == x || Distance(s, x) + n <= Distance(scaled, x)
  {
    if n > 0 {
      ComesCloser(scaled, x, n - 1);
      StaysInRange(scaled, x, n - 1);
      RepeatStep(scaled, x, n - 1);
      var s, next := Average(scaled, Repeat(x, n - 1)), Average(scaled, Repeat(x, n));
      assert next == Updated(s, x);
      StepCloser(s, x);
    }
  }

  /** After as many equal readings as the average is away in fixed point it rounds to that reading, and so it does from
      then on, whatever it was before. */
  lemma Converges(scaled: Int16, x: Int16, n: nat)
    requires -32760 <= scaled <= 32760 && -4095 <= x <= 4095 && n >= Distance(scaled, x)
    ensures ToDbm(Average(scaled, Repeat(x, n))) == x
  {
    ComesCloser(scaled, x, n);
    var s := Average(scaled, Repeat(x, n));
    if Distance(s, x) == 0 { AtTarget(s, x); }
  }

  // --- How fast ---

  function Pow(b: nat, n: nat): nat { if n == 0 then 1 else b * Pow(b, n - 1) }

  /** One reading takes an eighth off the distance, up to half a step of rounding. */
  lemma StepShrinks(s: Int16, x: Int16)
    requires -32760 <= s <= 32760 && -4095 <= x <= 4095
    ensures SCALE * (Distance(Updated(s, x), x) - SCALE / 2) <= (SCALE - 1) * (Distance(s, x) - SCALE / 2)
  {
    NearestDbm(s);
    UpdateInRange(s, x, -4095, 4095);
  }

  lemma Shrunk(p: nat, q: nat, d: int, next: int, first: int)
    requires SCALE * next <= (SCALE - 1) * d && p * d <= q * first
    ensures (SCALE * p) * next <= ((SCALE - 1) * q) * first
  {
    assert p * (SCALE * next) <= p * ((SCALE - 1) * d);
    assert (SCALE - 1) * (p * d) <= (SCALE - 1) * (q * first);
  }

  lemma {:induction false} Geometric(f: nat -> int, n: nat)
    requires forall k: nat :: k < n ==> SCALE * f(k + 1) <= (SCALE - 1) * f(k)
    ensures Pow(SCALE, n) * f(n) <= Pow(SCALE - 1, n) * f(0)
    decreases n
  {
    if n > 0 {
      Geometric(f, n - 1);
      Shrunk(Pow(SCALE, n - 1), Pow(SCALE - 1, n - 1), f(n - 1), f(n), f(0));
    }
  }

  /** How far `n` equal readings leave the average from them, beyond half a step. */
  function Left(scaled: Int16, x: Int16, n: nat): int { Distance(Average(scaled, Repeat(x, n)), x) - SCALE / 2 }

  lemma LeftShrinks(scaled: Int16, x: Int16, n: nat)
    requires -32760 <= scaled <= 32760 && -4095 <= x <= 4095
    ensures SCALE * Left(scaled, x, n + 1) <= (SCALE - 1) * Left(scaled, x, n)
  {
    StaysInRange(scaled, x, n);
    RepeatStep(scaled, x, n);
    StepShrinks(Average(scaled, Repeat(x, n)), x);
  }

  /** The distance to a repeated reading shrinks by the factor 7/8 with every reading, down to half a step. */
  lemma ShrinksGeometrically(scaled: Int16, x: Int16, n: nat)
    requires -32760 <= scaled <= 32760 && -4095 <= x <= 4095
    ensures Pow(SCALE, n) * Left(scaled, x, n) <= Pow(SCALE - 1, n) * Left(scaled, x, 0)
  {
    var f := (k: nat) => Left(scaled, x, k);
    forall k: nat | k < n ensures SCALE * f(k + 1) <= (SCALE - 1) * f(k) { LeftShrinks(scaled, x, k); }
    Geometric(f, n);
  }

  lemma LeftAtFirst(scaled: Int16, x: Int16)
    ensures Left(scaled, x, 0) == Distance(scaled, x) - SCALE / 2
  {
    assert Repeat(x, 0) == [];
  }

  lemma NextIsExact(s: Int16, x: Int16)
    requires -32760 <= s <= 32760 && -4095 <= x <= 4095 && Distance(s, x) <= SCALE / 2
    ensures ToDbm(Updated(s, x)) == x
  {
    UpdateInRange(s, x, -4095, 4095);
  }

  lemma Positive(b: nat, n: nat)
    requires b > 0
    ensures Pow(b, n) > 0
  {
  }

  lemma AtMostHalf(p: nat, d: int, bound: int)
    requires p > 0 && p * d <= bound < p
    ensures d <= 0
  {
    assert d >= 1 ==> p * d >= p;
  }

  /** So a repeated reading is reached after a number of readings logarithmic in the distance. */
  lemma ConvergesFast(scaled: Int16, x: Int16, n: nat)
    requires -32760 <= scaled <= 32760 && -4095 <= x <= 4095
    requires Pow(SCALE - 1, n) * (Distance(scaled, x) - SCALE / 2) < Pow(SCALE, n)
    ensures ToDbm(Average(scaled, Repeat(x, n + 1))) == x
  {
    ShrinksGeometrically(scaled, x, n);
    LeftAtFirst(scaled, x);
    StaysInRange(scaled, x, n);
    RepeatStep(scaled, x, n);
    var s := Average(scaled, Repeat(x, n));
    Positive(SCALE, n);
    AtMostHalf(Pow(SCALE, n), Left(scaled, x, n), Pow(SCALE - 1, n) * Left(scaled, x, 0));
    NextIsExact(s, x);
  }
}
