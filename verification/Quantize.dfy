/** Rounding a closing quantity to the exchange's step: to the nearest step when
    it is next to one, down otherwise. */
module Quantize {
  import opened Prelude

  /** The symbol's rules; a step or precision that is not positive is unset. */
  datatype Metadata = Metadata(step: real, precision: int)

  const EPS: real := 0.000000000001

  /** The nearest integer, halves to the even side. */
  function HalfEven(x: real): (n: int)
    ensures Abs(n as real - x) <= 0.5
    ensures x == x.Floor as real ==> n == x.Floor
    ensures n == x.Floor || n == x.Floor + 1
  {
    var f := x.Floor;
    var d := x - f as real;
    if d < 0.5 then f else if d > 0.5 then f + 1 else if f % 2 == 0 then f else f + 1
  }

  function Tolerance(step: real): real {
    if step * 0.000000001 > EPS then step * 0.000000001 else EPS
  }

  /** `k` steps. */
  function Times(k: int, step: real): real { k as real * step }

  function FloorUnits(q: real, step: real): int
    requires step > 0.0
  {
    (q / step).Floor
  }

  function NearestUnits(q: real, step: real): int
    requires step > 0.0
  {
    HalfEven(q / step)
  }

  /** The number of steps kept of a quantity. */
  function Units(q: real, step: real): int
    requires step > 0.0
  {
    var nearest := NearestUnits(q, step);
    if Abs(Times(nearest, step) - q) <= Tolerance(step) then nearest else FloorUnits(q, step)
  }

  function Pow10(n: nat): (r: real)
    ensures r >= 1.0
  {
    if n == 0 then 1.0 else 10.0 * Pow10(n - 1)
  }

  function Truncated(q: real, scale: real): real
    requires scale > 0.0
  {
    (q * scale).Floor as real / scale
  }

  /** The quantity that is ordered. */
  function Quantized(qty: real, metadata: Option<Metadata>): real {
    var q := Abs(qty);
    if q <= 0.0 || metadata.None? then q
    else
      var m := metadata.value;
      if m.step > 0.0 then Times(Units(q, m.step), m.step)
      else if m.precision > 0 then Truncated(q, Pow10(m.precision))
      else q
  }

  // ----- multiples of a step -----

  function Prod(a: real, s: real): real { a * s }

  lemma ProdLess(a: real, b: real, s: real)
    requires s > 0.0
    ensures a < b <==> Prod(a, s) < Prod(b, s)
  {
    assert (b - a) * s == b * s - a * s;
    if a < b {
      assert (b - a) * s > 0.0;
    } else {
      assert (a - b) * s >= 0.0;
    }
  }

  lemma TimesNext(k: int, step: real)
    ensures Times(k + 1, step) == Times(k, step) + step
    ensures Times(0, step) == 0.0
  {
  }

  lemma TimesAdd(j: int, k: int, step: real)
    ensures Times(j + k, step) == Times(j, step) + Times(k, step)
  {
  }

  lemma TimesOrder(j: int, k: int, step: real)
    requires step > 0.0 && j < k
    ensures Times(j, step) + step <= Times(k, step)
  {
    TimesNext(j, step);
    ProdLess(k as real, (j + 1) as real, step);
    assert Prod(k as real, step) == Times(k, step) && Prod((j + 1) as real, step) == Times(j + 1, step);
  }

  /** The floor and the nearest number of steps, told without dividing. */
  lemma UnitsSpec(q: real, step: real)
    requires step > 0.0
    ensures var f := FloorUnits(q, step); var n := NearestUnits(q, step); var d := q - Times(f, step);
            && 0.0 <= d < step
            && (d < step / 2.0 ==> n == f)
            && (d > step / 2.0 ==> n == f + 1)
            && (d == step / 2.0 ==> n == if f % 2 == 0 then f else f + 1)
  {
    var u := q / step;
    var f := u.Floor;
    var w := u - f as real;
    var d := q - Times(f, step);
    FractionTimes(q, step, u, f);
    assert Prod(0.0, step) == 0.0 && Prod(0.5, step) == step / 2.0 && Prod(1.0, step) == step;
    hide Prod, Times;
    ProdLess(w, 0.0, step);
    ProdLess(w, 1.0, step);
    ProdLess(w, 0.5, step);
    ProdLess(0.5, w, step);
    assert (d < step / 2.0 <==> w < 0.5) && (d > step / 2.0 <==> w > 0.5);
  }

  lemma FractionTimes(q: real, step: real, u: real, f: int)
    requires step > 0.0 && u == q / step
    ensures q - Times(f, step) == Prod(u - f as real, step)
  {
    assert u * step == q;
    assert (u - f as real) * step == u * step - f as real * step;
  }

  lemma FloorIsLargest(q: real, step: real, k: int)
    requires step > 0.0 && Times(k, step) <= q
    ensures k <= FloorUnits(q, step)
  {
    hide Times, FloorUnits;
    UnitsSpec(q, step);
    TimesNext(FloorUnits(q, step), step);
    if FloorUnits(q, step) + 1 < k {
      TimesOrder(FloorUnits(q, step) + 1, k, step);
    }
  }

  /** The kept steps are at most half a step above the quantity and less than
      one step below it. */
  lemma UnitsBounds(q: real, step: real)
    requires step > 0.0
    ensures var r := Times(Units(q, step), step);
            && q - r < step
            && r - q <= Tolerance(step) && r - q <= step / 2.0
            && (q >= 0.0 ==> Units(q, step) >= 0 && r >= 0.0)
  {
    hide Times, FloorUnits, NearestUnits;
    UnitsSpec(q, step);
    TimesNext(FloorUnits(q, step), step);
    if q >= 0.0 {
      FloorIsLargest(q, step, 0);
      if Units(q, step) > 0 {
        TimesOrder(0, Units(q, step), step);
      }
    }
  }

  ghost predicate IsMultiple(r: real, step: real) { exists k: nat :: r == Times(k, step) }

  /** With a step set: a whole number of steps, less than one step lost, and
      exceeding the quantity by no more than the tolerance and half a step. */
  lemma QuantizedIsMultiple(qty: real, m: Metadata)
    requires m.step > 0.0
    ensures var r := Quantized(qty, Some(m));
            && r >= 0.0
            && IsMultiple(r, m.step)
            && Abs(qty) - r < m.step
            && r - Abs(qty) <= Tolerance(m.step) && r - Abs(qty) <= m.step / 2.0
            && r - Abs(qty) <= (if m.step * 0.000000001 > 0.000000000001 then m.step * 0.000000001
                                else 0.000000000001)
  {
    hide Times, Units, Pow10;
    var q := Abs(qty);
    TimesNext(0, m.step);
    UnitsBounds(q, m.step);
    if q <= 0.0 {
      assert Quantized(qty, Some(m)) == Times(0, m.step);
    } else {
      var k: nat := Units(q, m.step);
      assert Quantized(qty, Some(m)) == Times(k, m.step);
    }
  }

  lemma WholeUnits(k: int, step: real)
    requires step > 0.0
    ensures Units(Times(k, step), step) == k
  {
    hide Times, FloorUnits, NearestUnits;
    var q := Times(k, step);
    var f := FloorUnits(q, step);
    UnitsSpec(q, step);
    FloorIsLargest(q, step, k);
    if k < f {
      TimesOrder(k, f, step);
    }
  }

  /** Rounding twice is rounding once. */
  lemma QuantizedIdempotent(qty: real, m: Metadata)
    requires m.step > 0.0
    ensures Quantized(Quantized(qty, Some(m)), Some(m)) == Quantized(qty, Some(m))
  {
    hide Times, Units, Pow10;
    var q := Abs(qty);
    if q > 0.0 {
      UnitsBounds(q, m.step);
      WholeUnits(Units(q, m.step), m.step);
    }
  }

  /** A larger quantity never keeps fewer steps, across both branches. */
  lemma UnitsMonotone(a: real, b: real, step: real)
    requires 0.0 <= a <= b && step > 0.0
    ensures Units(a, step) <= Units(b, step)
  {
    hide Times, FloorUnits, NearestUnits, Tolerance;
    var f, g := FloorUnits(a, step), FloorUnits(b, step);
    UnitsSpec(a, step);
    UnitsSpec(b, step);
    TimesNext(f, step);
    FloorIsLargest(b, step, f);
    // a may snap up to f + 1; then b does as well, or has more whole steps anyway
  }

  lemma QuantizedMonotone(a: real, b: real, m: Metadata)
    requires m.step > 0.0 && Abs(a) <= Abs(b)
    ensures Quantized(a, Some(m)) <= Quantized(b, Some(m))
  {
    hide Times, Units, Pow10;
    var p, q := Abs(a), Abs(b);
    UnitsBounds(q, m.step);
    if p > 0.0 {
      UnitsMonotone(p, q, m.step);
      if Units(p, m.step) < Units(q, m.step) {
        TimesOrder(Units(p, m.step), Units(q, m.step), m.step);
      }
    }
  }

  predicate NearMultiple(k: int, q: real, step: real) { Abs(Times(k, step) - q) <= EPS }

  lemma NearestIsNearest(q: real, step: real, k: int)
    requires step > 0.0
    ensures Abs(Times(NearestUnits(q, step), step) - q) <= Abs(Times(k, step) - q)
  {
    hide Times, FloorUnits, NearestUnits;
    var f := FloorUnits(q, step);
    UnitsSpec(q, step);
    TimesNext(f, step);
    if k < f {
      TimesOrder(k, f, step);
    } else if k > f + 1 {
      TimesOrder(f + 1, k, step);
    }
  }

  /** Nothing is left over, up to the flatness limit, exactly when the quantity
      is that close to a whole number of steps. */
  lemma LeftoverIffNearMultiple(qty: real, m: Metadata)
    requires m.step > 0.0
    ensures Abs(Abs(qty) - Quantized(qty, Some(m))) <= EPS <==>
              exists k: int :: NearMultiple(k, Abs(qty), m.step)
  {
    hide Times, FloorUnits, NearestUnits, Pow10;
    var q := Abs(qty);
    if q <= 0.0 {
      TimesNext(0, m.step);
      assert NearMultiple(0, q, m.step);
    } else {
      var r := Quantized(qty, Some(m));
      assert r == Times(Units(q, m.step), m.step);
      if Abs(q - r) <= EPS {
        assert NearMultiple(Units(q, m.step), q, m.step);
      }
      if k: int :| NearMultiple(k, q, m.step) {
        NearestIsNearest(q, m.step, k);
        assert Units(q, m.step) == NearestUnits(q, m.step);
      }
    }
  }

  /** With only a precision set: rounded down, losing less than one last digit. */
  lemma PrecisionRoundsDown(qty: real, m: Metadata)
    requires m.step <= 0.0 && m.precision > 0
    ensures var r := Quantized(qty, Some(m));
            0.0 <= r <= Abs(qty) && Prod(Abs(qty) - r, Pow10(m.precision)) < 1.0
  {
    hide Prod, Truncated;
    var q, p := Abs(qty), Pow10(m.precision);
    if q <= 0.0 {
      TruncatedBounds(0.0, p);
    } else {
      TruncatedBounds(q, p);
    }
  }

  lemma TruncatedBounds(q: real, p: real)
    requires q >= 0.0 && p > 0.0
    ensures var r := Truncated(q, p); 0.0 <= r <= q && Prod(q - r, p) < 1.0 && Prod(0.0, p) == 0.0
  {
    var f := (q * p).Floor;
    var r := f as real / p;
    assert r * p == f as real;
    assert q * p >= 0.0;
    assert (q - r) * p == q * p - r * p;
    assert Prod(q, p) == q * p && Prod(r, p) == f as real && Prod(0.0, p) == 0.0 && Prod(q - r, p) == q * p - f as real;
    hide Prod;
    ProdLess(q, r, p);
    ProdLess(r, 0.0, p);
  }

  lemma QuantizedNotNegative(qty: real, m: Option<Metadata>)
    ensures Quantized(qty, m) >= 0.0
  {
    if m.Some? {
      if m.value.step > 0.0 {
        QuantizedIsMultiple(qty, m.value);
      } else if m.value.precision > 0 {
        PrecisionRoundsDown(qty, m.value);
      }
    }
  }

  /** Ordering a rounded quantity that is not zero always leaves less than there
      was, also where rounding went up and the order turns the position around. */
  lemma QuantizedLeavesLess(qty: real, m: Option<Metadata>)
    requires Quantized(qty, m) > 0.0
    ensures Abs(Abs(qty) - Quantized(qty, m)) < Abs(qty)
  {
    hide Times, FloorUnits, NearestUnits, Pow10, Truncated;
    var q := Abs(qty);
    if m.Some? && q > 0.0 {
      var step := m.value.step;
      if step > 0.0 {
        var f := FloorUnits(q, step);
        UnitsSpec(q, step);
        UnitsBounds(q, step);
        FloorIsLargest(q, step, 0) by {
          TimesNext(0, step);
        }
        TimesNext(0, step);
        if f > 0 {
          TimesOrder(0, f, step);
        }
      } else if m.value.precision > 0 {
        PrecisionRoundsDown(qty, m.value);
      }
    }
  }
  /** Exactly when a quantity is rounded to the nearest step instead of down: some
      multiple of the step is within a billionth of a step, or 1e-12 if that is
      more. Then the result is a multiple at least as near as any; otherwise it is
      the largest multiple not above the quantity. */
  lemma RoundsToNearestIff(qty: real, m: Metadata)
    requires m.step > 0.0 && Abs(qty) > 0.0
    ensures var r := Quantized(qty, Some(m)); var q := Abs(qty);
            var near := if m.step * 0.000000001 > 0.000000000001 then m.step * 0.000000001 else 0.000000000001;
            && ((exists k: int :: Abs(Times(k, m.step) - q) <= near) ==>
                  forall k: int :: Abs(r - q) <= Abs(Times(k, m.step) - q))
            && ((forall k: int :: Abs(Times(k, m.step) - q) > near) ==>
                  r <= q && forall k: int :: Times(k, m.step) <= q ==> Times(k, m.step) <= r)
  {
    hide Times, FloorUnits, NearestUnits, Pow10;
    var q, step := Abs(qty), m.step;
    forall k: int ensures Abs(Times(NearestUnits(q, step), step) - q) <= Abs(Times(k, step) - q) {
      NearestIsNearest(q, step, k);
    }
    if Abs(Times(NearestUnits(q, step), step) - q) > Tolerance(step) {
      var f := FloorUnits(q, step);
      UnitsSpec(q, step);
      forall k: int | Times(k, step) <= q ensures Times(k, step) <= Times(f, step) {
        FloorIsLargest(q, step, k);
        if k < f {
          TimesOrder(k, f, step);
        }
      }
    }
  }

  /** Multiples of a step and powers of ten count up one by one. */
  lemma CountsUp(k: int, step: real, n: nat)
    ensures Times(0, step) == 0.0 && Times(k + 1, step) == Times(k, step) + step
    ensures Pow10(0) == 1.0 && Pow10(n + 1) == 10.0 * Pow10(n)
  {
  }

  /** With only a precision set the result has no more digits than that; with neither
      set, or nothing to round, nothing is rounded. */
  lemma PrecisionKeepsDigits(qty: real, m: Option<Metadata>)
    ensures m.None? || (m.value.step <= 0.0 && m.value.precision <= 0) ==> Quantized(qty, m) == Abs(qty)
    ensures m.Some? && m.value.step <= 0.0 && m.value.precision > 0 ==>
              var scaled := Quantized(qty, m) * Pow10(m.value.precision);
              scaled == scaled.Floor as real && (Abs(qty) - Quantized(qty, m)) * Pow10(m.value.precision) < 1.0
  {
    if m.Some? && m.value.step <= 0.0 && m.value.precision > 0 {
      var p := Pow10(m.value.precision);
      PrecisionIsWhole(qty, m.value);
      PrecisionRoundsDown(qty, m.value);
      ProdIs(Quantized(qty, m), p);
      ProdIs(Abs(qty) - Quantized(qty, m), p);
      hide *;
    }
  }

  lemma ProdIs(a: real, s: real)
    ensures Prod(a, s) == a * s
  {
  }

  lemma PrecisionIsWhole(qty: real, m: Metadata)
    requires m.step <= 0.0 && m.precision > 0
    ensures var scaled := Prod(Quantized(qty, Some(m)), Pow10(m.precision)); scaled == scaled.Floor as real
  {
    var q, p := Abs(qty), Pow10(m.precision);
    ScaledIsWhole(q, p);
    ScaledIsWhole(0.0, p);
    hide Truncated, Prod, Pow10;
    assert Quantized(qty, Some(m)) == if q <= 0.0 then 0.0 else Truncated(q, p);
  }

  lemma ScaledIsWhole(q: real, p: real)
    requires p > 0.0
    ensures var scaled := Prod(Truncated(q, p), p); scaled == scaled.Floor as real
    ensures Prod(0.0, p) == 0.0
  {
    var n := (q * p).Floor;
    assert Truncated(q, p) * p == n as real;
    ProdIs(Truncated(q, p), p);
    assert Prod(Truncated(q, p), p) == n as real;
    ProdIs(0.0, p);
  }
}
