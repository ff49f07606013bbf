// include/gyros/time.h: wrapping absolute times and the tick conversions.

module Time {
  // gyros_abstime_t and gyros_reltime_t: the unsigned and signed forms of
  // GYROS_CONFIG_TIME_TYPE, by default long long.
  const HALF: int := 0x8000_0000_0000_0000
  const MODULUS: int := 0x1_0000_0000_0000_0000

  type AbsTime = w: int | 0 <= w < MODULUS
  type RelTime = d: int | -HALF <= d < HALF

  // The clock value that shows at (unbounded) time t.
  function Wrap(t: int): AbsTime {
    t % MODULUS
  }

  // A conversion to gyros_reltime_t.
  function Signed(t: int): RelTime {
    var w := t % MODULUS;
    if w < HALF then w else w - MODULUS
  }

  // gyros_time_compare, and the subtractions written out in timeout.c, timer.c and
  // alarm_clock.c.
  function Compare(time1: AbsTime, time2: AbsTime): RelTime {
    Signed(time1 - time2)
  }

  lemma ModAdd(a: int, k: int)
    ensures (a + k * MODULUS) % MODULUS == a % MODULUS
  {
    var q, m := a / MODULUS, a % MODULUS;
    assert a == q * MODULUS + m;
    assert a + k * MODULUS == (q + k) * MODULUS + m;
    DivUnique(a + k * MODULUS, q + k, m);
  }

  lemma DivUnique(a: int, q: int, m: int)
    requires a == q * MODULUS + m && 0 <= m < MODULUS
    ensures a % MODULUS == m
  {
  }

  // The comparison of two clock values gives their true distance exactly when that
  // fits the signed type.
  lemma CompareExact(t1: int, t2: int)
    ensures Compare(Wrap(t1), Wrap(t2)) == t1 - t2 <==> -HALF <= t1 - t2 < HALF
  {
    var k1, k2 := t1 / MODULUS, t2 / MODULUS;
    assert Wrap(t1) - Wrap(t2) == (t1 - t2) + (k2 - k1) * MODULUS;
    ModAdd(t1 - t2, k2 - k1);
    var d := t1 - t2;
    if -HALF <= d < 0 {
      DivUnique(d, -1, d + MODULUS);
    } else if 0 <= d < HALF {
      DivUnique(d, 0, d);
    }
  }

  // ----- tick conversions, for a tick rate of hz per second

  // Division that truncates towards zero.
  function CDiv(a: int, b: int): int
    requires b > 0
  {
    if a >= 0 then a / b else -(-a / b)
  }

  predicate Divides(d: nat, hz: nat)
    requires d > 0
  {
    hz / d * d == hz
  }

  // gyros_us
  function UsFactor(hz: nat): (int, int) {
    if Divides(1000000, hz) then (hz / 1000000, 1)
    else if Divides(100000, hz) then (hz / 100000 + 9, 10)
    else if Divides(10000, hz) then (hz / 10000 + 99, 100)
    else ((hz + 999) / 1000 + 999, 1000)
  }

  function Us(hz: nat, microseconds: int): int {
    CDiv(microseconds * UsFactor(hz).0, UsFactor(hz).1)
  }

  // gyros_ms: the product is unsigned.
  function Ms(hz: nat, milliseconds: int): RelTime {
    Signed(milliseconds * ((hz + 999) / 1000))
  }

  // gyros_s
  function S(hz: nat, seconds: int): RelTime {
    Signed(seconds * hz)
  }

  // gyros_time_to_us; the source's test for divisibility by 10 repeats the one by
  // 100, so a rate divisible by 10 only takes the last branch.
  function ToUsFactor(hz: nat): (int, int)
    requires hz > 0
  {
    if Divides(1000000, hz) then (1, hz / 1000000)
    else if Divides(100000, hz) then (10, hz / 100000)
    else if Divides(10000, hz) then (100, hz / 10000)
    else if Divides(1000, hz) then (1000, hz / 1000)
    else if Divides(100, hz) then (10000, hz / 100)
    else (1000000, hz)
  }

  function ToUs(hz: nat, time: int): int
    requires hz > 0
  {
    CDiv(time * ToUsFactor(hz).0, ToUsFactor(hz).1)
  }

  // gyros_time_to_ms
  function ToMsFactor(hz: nat): (int, int)
    requires hz > 0
  {
    if Divides(1000, hz) then (1, hz / 1000)
    else if Divides(100, hz) then (10, hz / 100)
    else (1000, hz)
  }

  function ToMs(hz: nat, time: int): int
    requires hz > 0
  {
    CDiv(time * ToMsFactor(hz).0, ToMsFactor(hz).1)
  }

  // gyros_time_to_s
  function ToS(hz: nat, time: int): int
    requires hz > 0
  {
    CDiv(time, hz)
  }

  lemma MulMono(a: int, b: int, c: int)
    requires a <= b && c >= 0
    ensures a * c <= b * c
  {
  }

  lemma MulMonoStrict(a: int, b: int, c: int)
    requires a * c < b * c && c >= 0
    ensures a < b
  {
    if a >= b {
      MulMono(b, a, c);
    }
  }

  lemma Swap3(a: int, b: int, c: int)
    ensures a * b * c == a * c * b == b * (a * c)
  {
  }

  lemma DivBounds(a: int, b: int)
    requires b > 0
    ensures a / b * b <= a < a / b * b + b
  {
  }

  lemma DivLower(a: int, b: int, x: int)
    requires b > 0 && a >= x * b
    ensures a / b >= x
  {
    DivBounds(a, b);
    var q := a / b;
    assert (q + 1) * b == q * b + b;
    MulMonoStrict(x, q + 1, b);
  }

  // x * f / d, rounded down, still covers x * g when f rounds g up by d - 1.
  lemma Scale(x: int, f: int, d: int, g: int)
    requires x >= 0 && d > 0 && g >= 0 && f >= g + (d - 1)
    ensures x * f / d * d >= x * g
  {
    DivBounds(x * f, d);
    if x > 0 {
      MulMono(g + (d - 1), f, x);
      MulMono(1, x, d - 1);
      assert (g + (d - 1)) * x == g * x + (d - 1) * x;
    }
  }

  // A conversion to ticks never comes out shorter than the time asked for.
  lemma UsNeverShort(hz: nat, x: nat)
    ensures Us(hz, x) * 1000000 >= x * hz
  {
    var (f, d) := UsFactor(hz);
    var g := if Divides(1000000, hz) then hz / 1000000 else if Divides(100000, hz) then hz / 100000
             else if Divides(10000, hz) then hz / 10000 else (hz + 999) / 1000;
    Scale(x, f, d, g);
    MulMono(0, f, x);
    UsScaled(hz, x, Us(hz, x), d, g);
  }

  lemma UsScaled(hz: nat, x: nat, r: int, d: int, g: int)
    requires d == 1 || d == 10 || d == 100 || d == 1000
    requires g * (1000000 / d) >= hz && r * d >= x * g
    ensures r * 1000000 >= x * hz
  {
    var u := 1000000 / d;
    MulMono(x * g, r * d, u);
    Swap3(x, g, u);
    assert x * g * u == (g * u) * x;
    MulMono(hz, g * u, x);
    assert r * d * u == r * 1000000;
  }

  lemma MsNeverShort(hz: nat, x: nat)
    requires x * ((hz + 999) / 1000) < HALF
    ensures Ms(hz, x) * 1000 >= x * hz
  {
    var g := (hz + 999) / 1000;
    MulMono(0, x, g);
    assert Ms(hz, x) == x * g;
    MulMono(hz, g * 1000, x);
    assert x * g * 1000 == (g * 1000) * x;
  }

  // It is exact for every number of microseconds exactly if the rate is a multiple of a million.
  lemma UsExactly(hz: nat)
    ensures (forall x: nat :: Us(hz, x) * 1000000 == x * hz) <==> Divides(1000000, hz)
  {
    if Divides(1000000, hz) {
      forall x: nat ensures Us(hz, x) * 1000000 == x * hz {
        UsWhole(hz, x);
      }
    } else if forall x: nat :: Us(hz, x) * 1000000 == x * hz {
      assert Us(hz, 1) * 1000000 == hz;
      WholeDivides(Us(hz, 1), 1000000, hz);
    }
  }

  lemma UsWhole(hz: nat, x: nat)
    requires Divides(1000000, hz)
    ensures Us(hz, x) * 1000000 == x * hz
  {
    var g := hz / 1000000;
    MulMono(0, x, g);
    assert Us(hz, x) == x * g;
    assert x * g * 1000000 == x * (g * 1000000);
  }

  lemma WholeDivides(q: int, d: nat, hz: nat)
    requires d > 0 && q * d == hz
    ensures Divides(d, hz)
  {
    DivBounds(hz, d);
    MulMonoStrict(q, hz / d + 1, d) by {
      assert (hz / d + 1) * d == hz / d * d + d;
    }
    MulMonoStrict(hz / d, q + 1, d) by {
      assert (q + 1) * d == q * d + d;
    }
  }

  // The same for milliseconds and a multiple of a thousand.
  lemma MsExactly(hz: nat)
    requires (hz + 999) / 1000 < HALF
    ensures (forall x: nat :: x * ((hz + 999) / 1000) < HALF ==> Ms(hz, x) * 1000 == x * hz) <==> Divides(1000, hz)
  {
    var g := (hz + 999) / 1000;
    if Divides(1000, hz) {
      assert g * 1000 == hz;
      forall x: nat | x * g < HALF ensures Ms(hz, x) * 1000 == x * hz {
        MulMono(0, x, g);
        assert Ms(hz, x) == x * g;
        assert x * g * 1000 == x * (g * 1000);
      }
    } else if forall x: nat :: x * g < HALF ==> Ms(hz, x) * 1000 == x * hz {
      assert Ms(hz, 1) * 1000 == hz;
      WholeDivides(Ms(hz, 1), 1000, hz);
    }
  }

  lemma ToUsFactorExact(hz: nat)
    requires hz > 0
    ensures ToUsFactor(hz).0 > 0 && ToUsFactor(hz).1 > 0 && ToUsFactor(hz).0 * hz == ToUsFactor(hz).1 * 1000000
  {
  }

  lemma ToMsFactorExact(hz: nat)
    requires hz > 0
    ensures ToMsFactor(hz).0 > 0 && ToMsFactor(hz).1 > 0 && ToMsFactor(hz).0 * hz == ToMsFactor(hz).1 * 1000
  {
  }

  // t ticks, at hz = d * unit / f per second, are at least x units of time.
  lemma Back(hz: nat, x: nat, t: int, f: int, d: int, unit: int)
    requires f > 0 && d > 0 && unit > 0 && f * hz == d * unit && t * unit >= x * hz
    ensures CDiv(t * f, d) >= x
  {
    MulMono(x * hz, t * unit, f);
    assert x * hz * f == x * (f * hz);
    assert x * (d * unit) == (x * d) * unit;
    assert t * unit * f == (t * f) * unit;
    MulMonoStrict(x * d - 1, t * f, unit) by {
      assert (x * d - 1) * unit == (x * d) * unit - unit;
    }
    MulMono(0, x, d);
    DivLower(t * f, d, x);
  }

  // A round trip through ticks never loses time.
  lemma RoundTripUs(hz: nat, x: nat)
    requires hz > 0
    ensures ToUs(hz, Us(hz, x)) >= x
  {
    UsNeverShort(hz, x);
    ToUsFactorExact(hz);
    Back(hz, x, Us(hz, x), ToUsFactor(hz).0, ToUsFactor(hz).1, 1000000);
  }

  lemma RoundTripMs(hz: nat, x: nat)
    requires hz > 0 && x * ((hz + 999) / 1000) < HALF
    ensures ToMs(hz, Ms(hz, x)) >= x
  {
    MsNeverShort(hz, x);
    ToMsFactorExact(hz);
    Back(hz, x, Ms(hz, x), ToMsFactor(hz).0, ToMsFactor(hz).1, 1000);
  }

  lemma RoundTripS(hz: nat, x: nat)
    requires hz > 0 && x * hz < HALF
    ensures ToS(hz, S(hz, x)) == x
  {
    MulMono(0, x, hz);
    assert S(hz, x) == x * hz;
    DivLower(x * hz, hz, x);
    DivBounds(x * hz, hz);
    MulMonoStrict(x * hz / hz, x + 1, hz);
  }
}
