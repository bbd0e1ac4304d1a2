/** Exponential smoothing of validation latencies, with truncation to whole nanoseconds.

    The weight is the exact fraction num/den; float64 rounding is idealised away. */
module LatencyEma {

  /** `samples == 0` means no measurement has been accepted yet. */
  datatype Latency = Latency(smoothed: int, samples: nat, last: int)

  datatype Alpha = Alpha(num: int, den: int) {
    predicate Usable() {
      0 < num <= den
    }

    /** 0.3 unless the configured factor lies in (0, 1]. */
    function Effective(): (a: Alpha)
      ensures a.Usable()
    {
      if Usable() then this else Alpha(3, 10)
    }
  }

  /** Conversion of a float to a Duration: truncation toward zero. */
  function TruncatedQuotient(x: int, d: int): int
    requires d > 0
  {
    if x >= 0 then x / d else -((-x) / d)
  }

  function Smooth(a: Alpha, measured: int, previous: int): int
    requires a.Usable()
  {
    TruncatedQuotient(a.num * measured + (a.den - a.num) * previous, a.den)
  }

  /** updateLatencyEMA: the first sample is taken as it is. */
  function Observe(alpha: Alpha, l: Latency, measured: int): Latency {
    Latency(if l.samples == 0 then measured else Smooth(alpha.Effective(), measured, l.smoothed),
            l.samples + 1, measured)
  }

  function ObserveAll(alpha: Alpha, l: Latency, measurements: seq<int>): Latency {
    if measurements == [] then l
    else
      var last := |measurements| - 1;
      Observe(alpha, ObserveAll(alpha, l, measurements[..last]), measurements[last])
  }

  /** n further smoothings of s under the constant measurement m. */
  function Settle(a: Alpha, m: int, s: int, n: nat): int
    requires a.Usable()
  {
    if n == 0 then s else Smooth(a, m, Settle(a, m, s, n - 1))
  }

  /** alpha times the gap below m is less than one unit. */
  predicate AtRest(a: Alpha, m: int, s: int) {
    a.num * (m - s) < a.den
  }

  // ---------------------------------------------------------------- one step

  lemma ProductNonnegative(x: int, y: int)
    requires 0 <= x && 0 <= y
    ensures 0 <= x * y
  {
  }

  lemma Distribute(d: int, a: int, b: int)
    ensures d * (a + b) == d * a + d * b
  {
  }

  lemma ProductOrder(d: int, a: int, b: int)
    requires d > 0 && a < b
    ensures d * a + d <= d * b
  {
    ProductNonnegative(d, b - a - 1);
    Distribute(d, a, b - a);
    Distribute(d, 1, b - a - 1);
  }

  lemma QuotientUnique(x: int, d: int, q: int)
    requires d > 0 && d * q <= x < d * q + d
    ensures x / d == q
  {
    var k := x / d;
    assert x == d * k + x % d;
    if k < q {
      ProductOrder(d, k, q);
    } else if q < k {
      ProductOrder(d, q, k);
    }
  }

  lemma DivisionShift(d: int, q: int, x: int)
    requires d > 0
    ensures (d * q + x) / d == q + x / d
  {
    assert x == d * (x / d) + x % d;
    assert d * (q + x / d) == d * q + d * (x / d);
    QuotientUnique(d * q + x, d, q + x / d);
  }

  lemma ProductBounds(num: int, den: int, d: int)
    requires 0 < num <= den && 0 <= d
    ensures 0 <= num * d <= den * d
    ensures d <= num * d
  {
  }

  /** Bounds on a quotient from bounds on the dividend. */
  lemma QuotientBounds(x: int, q: int, d: int)
    requires d > 0
    ensures x <= d * q ==> x / d <= q
    ensures x < d * q ==> x / d < q
    ensures x >= 0 ==> x / d >= 0
  {
    assert x == d * (x / d) + x % d;
  }

  /** A step from below moves up by floor(alpha * gap). */
  lemma StepFromBelow(a: Alpha, m: int, s: int)
    requires a.Usable() && 0 <= s <= m
    ensures Smooth(a, m, s) == s + (a.num * (m - s)) / a.den
    ensures s <= Smooth(a, m, s) <= m
    ensures Smooth(a, m, s) == s <==> AtRest(a, m, s)
  {
    var up := a.num * (m - s);
    ProductBounds(a.num, a.den, m - s);
    assert a.num * m + (a.den - a.num) * s == a.den * s + up;
    DivisionShift(a.den, s, up);
    QuotientBounds(up, m - s, a.den);
    QuotientBounds(up, 1, a.den);
    assert a.den * s >= 0;
    assert up >= a.den ==> up / a.den >= 1;
  }

  /** A step from above moves down by at least one and stops at the measurement. */
  lemma StepFromAbove(a: Alpha, m: int, s: int)
    requires a.Usable() && 0 <= m < s
    ensures m <= Smooth(a, m, s) < s
  {
    var d := s - m;
    var stay := a.den * d - a.num * d;
    ProductBounds(a.num, a.den, d);
    assert a.num * m + (a.den - a.num) * s == a.den * m + stay by {
      assert a.num * s == a.num * m + a.num * d;
      assert a.den * s == a.den * m + a.den * d;
      assert (a.den - a.num) * s == a.den * s - a.num * s;
    }
    DivisionShift(a.den, m, stay);
    QuotientBounds(stay, d, a.den);
    assert a.den * m >= 0;
  }

  lemma AtRestAtTheMeasurement(a: Alpha, m: int)
    requires a.Usable()
    ensures AtRest(a, m, m)
  {
    assert a.num * 0 == 0;
  }

  lemma Truncates(x: int, d: int)
    requires d > 0
    ensures x >= 0 ==> d * TruncatedQuotient(x, d) <= x < d * TruncatedQuotient(x, d) + d
    ensures x <= 0 ==> d * TruncatedQuotient(x, d) - d < x <= d * TruncatedQuotient(x, d)
  {
    assert x == d * (x / d) + x % d;
    assert -x == d * ((-x) / d) + (-x) % d;
  }

  /** One measurement: the first is taken as it is; every later one is weighed with alpha, 0.3 if the
      configured factor is not in (0, 1], against the value before, and the result cut to a whole. */
  lemma ObservedOnce(alpha: Alpha, l: Latency, measured: int)
    requires 0 <= measured && 0 <= l.smoothed
    ensures var r := Observe(alpha, l, measured);
            && r.samples == l.samples + 1 && r.last == measured
            && (l.samples == 0 ==> r.smoothed == measured)
            && (l.samples > 0 ==>
                  var (num, den) := if 0 < alpha.num <= alpha.den then (alpha.num, alpha.den) else (3, 10);
                  den * r.smoothed <= num * measured + (den - num) * l.smoothed < den * r.smoothed + den)
  {
    var a := alpha.Effective();
    ProductNonnegative(a.num, measured);
    ProductNonnegative(a.den - a.num, l.smoothed);
    Truncates(a.num * measured + (a.den - a.num) * l.smoothed, a.den);
  }

  // ---------------------------------------------------------------- whole runs

  /** Once there is a sample, a run under one measurement is the settling of the value. */
  lemma {:induction false} ConstantRunSettles(alpha: Alpha, l: Latency, m: int, n: nat)
    requires l.samples > 0
    ensures var r := ObserveAll(alpha, l, seq(n, _ => m));
            r.samples == l.samples + n && r.smoothed == Settle(alpha.Effective(), m, l.smoothed, n)
  {
    if n > 0 {
      ConstantRunSettles(alpha, l, m, n - 1);
      assert seq(n, _ => m)[..n - 1] == seq(n - 1, _ => m);
    }
  }

  /** The smoothed latency never leaves the range of the accepted samples. */
  lemma {:induction false} SmoothedWithinSamples(alpha: Alpha, measurements: seq<int>, lo: int, hi: int)
    requires measurements != []
    requires forall x :: x in measurements ==> 0 < lo <= x <= hi
    ensures var l := ObserveAll(alpha, Latency(0, 0, 0), measurements);
            l.samples == |measurements| && lo <= l.smoothed <= hi
  {
    var last := |measurements| - 1;
    var m := measurements[last];
    if last > 0 {
      var before := measurements[..last];
      assert forall x :: x in before ==> x in measurements;
      assert m in measurements;
      SmoothedWithinSamples(alpha, before, lo, hi);
      var s := ObserveAll(alpha, Latency(0, 0, 0), before).smoothed;
      if s <= m {
        StepFromBelow(alpha.Effective(), m, s);
      } else {
        StepFromAbove(alpha.Effective(), m, s);
      }
    } else {
      assert m in measurements && measurements[..0] == [];
    }
  }

  /** Under a constant measurement the value falls to it exactly, one unit a step at worst. */
  lemma {:induction false} SettlesFromAbove(a: Alpha, m: int, s: int, n: nat)
    requires a.Usable() && 0 <= m <= s
    ensures m <= Settle(a, m, s, n) <= s
    ensures n >= s - m ==> Settle(a, m, s, n) == m
    ensures Settle(a, m, s, n) <= m || Settle(a, m, s, n) <= s - n
  {
    if n > 0 {
      SettlesFromAbove(a, m, s, n - 1);
      var p := Settle(a, m, s, n - 1);
      if p == m {
        StepFromBelow(a, m, m);
      } else {
        StepFromAbove(a, m, p);
      }
    }
  }

  /** From below it never overshoots, and stops with a gap d with alpha * d < 1, within m - s steps. */
  lemma {:induction false} SettlesFromBelow(a: Alpha, m: int, s: int, n: nat)
    requires a.Usable() && 0 <= s <= m
    ensures s <= Settle(a, m, s, n) <= m
    ensures n >= m - s ==> AtRest(a, m, Settle(a, m, s, n))
    ensures AtRest(a, m, Settle(a, m, s, n)) || Settle(a, m, s, n) >= s + n
  {
    AtRestAtTheMeasurement(a, m);
    if n > 0 {
      SettlesFromBelow(a, m, s, n - 1);
      var p := Settle(a, m, s, n - 1);
      StepFromBelow(a, m, p);
    }
  }

  /** The values at rest under m: those not above it, by a gap of less than 1/alpha. */
  lemma RestingValues(a: Alpha, m: int, s: int)
    requires a.Usable() && 0 <= m && 0 <= s
    ensures Smooth(a, m, s) == s <==> s <= m && AtRest(a, m, s)
  {
    if s <= m {
      StepFromBelow(a, m, s);
    } else {
      StepFromAbove(a, m, s);
    }
  }
}
