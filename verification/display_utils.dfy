/** The display scaling the network widget uses: choosing a unit for a byte
    count or a byte rate, and rounding a chart bound to a "nice" number.
    Logarithms are taken exactly (the exponent `k` with `b^k <= x < b^(k+1)`)
    and the final `toFixed` rendering is not modelled; a display is the
    scaled value together with the unit it would be printed with. */
module DisplayUtils {
  import opened Wrappers
  import opened RealArith

  const BYTES_PER_UNIT: real := 1024.0
  const SIZE_UNITS: seq<string> := ["B", "KB", "MB", "GB", "TB"]
  const RATE_UNITS: seq<string> := ["B/s", "KB/s", "MB/s", "GB/s", "TB/s"]
  const ZERO_RATE: string := "0 B/s"
  const ZERO_SIZE: string := "0 B"

  function Abs(x: real): (r: real)
    ensures r >= 0.0 && (r == x || r == -x)
    ensures x != 0.0 ==> r > 0.0
  {
    if x < 0.0 then -x else x
  }

  function Min(a: int, b: int): (r: int)
    ensures r <= a && r <= b && (r == a || r == b)
  {
    if a < b then a else b
  }

  function Max(a: int, b: int): (r: int)
    ensures r >= a && r >= b && (r == a || r == b)
  {
    if a > b then a else b
  }

  // ---------------------------------------------------------------------
  // Integer powers and exact floor logarithms
  // ---------------------------------------------------------------------

  /** The two bases the display code takes logarithms in: 1024 for byte
      units, 10 for chart ticks. */
  datatype Base = Binary | Decimal

  function Radix(base: Base): (r: real)
    ensures r >= 10.0
  {
    match base
    case Binary => BYTES_PER_UNIT
    case Decimal => 10.0
  }

  /** The radix to the whole power `k`, negative exponents included. */
  function Pow(base: Base, k: int): (r: real)
    ensures r > 0.0
    decreases if k >= 0 then k else -k
  {
    if k == 0 then 1.0
    else if k > 0 then Radix(base) * Pow(base, k - 1)
    else Pow(base, k + 1) / Radix(base)
  }

  lemma PowStep(base: Base, k: int)
    ensures Pow(base, k + 1) == Radix(base) * Pow(base, k)
  {
    if k < 0 {
      assert Pow(base, k) == Pow(base, k + 1) / Radix(base);
    }
  }

  /** A larger exponent gives a strictly larger power. */
  lemma {:induction false} PowIncreasing(base: Base, i: int, j: int)
    requires i < j
    ensures Pow(base, i) < Pow(base, j)
    decreases j - i
  {
    PowStep(base, j - 1);
    if i < j - 1 {
      PowIncreasing(base, i, j - 1);
    }
  }

  /** Non-negative exponents give powers of at least one. */
  lemma PowAtLeastOne(base: Base, k: int)
    ensures k >= 0 ==> Pow(base, k) >= 1.0
  {
    if k > 0 { PowIncreasing(base, 0, k); }
  }

  /** `radix^k <= x < radix^(k+1)`: `k` is the floor of the logarithm. */
  predicate IsFloorLog(base: Base, x: real, k: int)
  {
    Pow(base, k) <= x < Pow(base, k + 1)
  }

  /** At most one exponent brackets a given value. */
  lemma FloorLogUnique(base: Base, x: real, j: int, k: int)
    requires IsFloorLog(base, x, j) && IsFloorLog(base, x, k)
    ensures j == k
  {
    if j < k {
      if j + 1 < k { PowIncreasing(base, j + 1, k); }
    } else if k < j {
      if k + 1 < j { PowIncreasing(base, k + 1, j); }
    }
  }

  /** `Math.floor(Math.log(x) / Math.log(radix))`, computed exactly. */
  function FloorLog(base: Base, x: real): (k: int)
    requires x > 0.0
    ensures IsFloorLog(base, x, k)
    ensures k >= 0 <==> x >= 1.0
  {
    if x >= 1.0 then FloorLogUp(base, x) else FloorLogDown(base, x)
  }

  function FloorLogUp(base: Base, x: real): (k: nat)
    requires x >= 1.0
    ensures IsFloorLog(base, x, k)
    decreases x.Floor
  {
    var b := Radix(base);
    if x < b then
      PowStep(base, 0);
      0
    else
      ShrinkUp(b, x);
      var k := FloorLogUp(base, x / b);
      PowStep(base, k);
      PowStep(base, k + 1);
      k + 1
  }

  function FloorLogDown(base: Base, x: real): (k: int)
    requires 0.0 < x < 1.0
    ensures k < 0 && IsFloorLog(base, x, k)
    decreases (1.0 / x).Floor
  {
    if Radix(base) * x >= 1.0 then
      LastDownStep(base, x);
      -1
    else
      ShrinkDown(Radix(base), x);
      var k := FloorLogDown(base, Radix(base) * x);
      DownStep(base, x, k);
      k - 1
  }

  /** A value in `[1/radix, 1)` is bracketed by -1. */
  lemma LastDownStep(base: Base, x: real)
    requires Radix(base) * x >= 1.0 && x < 1.0
    ensures IsFloorLog(base, x, -1)
  {
    PowStep(base, -1);
    match base
    case Binary =>
    case Decimal =>
  }

  /** If `k` brackets `radix * x` then `k - 1` brackets `x`. */
  lemma DownStep(base: Base, x: real, k: int)
    requires IsFloorLog(base, Radix(base) * x, k)
    ensures IsFloorLog(base, x, k - 1)
  {
    PowStep(base, k - 1);
    PowStep(base, k);
    match base
    case Binary =>
    case Decimal =>
  }

  /** Dividing by a radix makes a value of at least the radix smaller by at
      least one whole unit. */
  lemma ShrinkUp(b: real, x: real)
    requires b >= 2.0 && x >= b
    ensures x / b >= 1.0 && (x / b).Floor < x.Floor
  {
    var y := x / b;
    DivOrder(x, 1.0, b);
    assert x - y == y * (b - 1.0);
    MulOrder(1.0, b - 1.0, y);
    assert y + 1.0 <= x;
    assert (y.Floor + 1) as real <= x;
  }

  /** Multiplying a value below `1/b` by the radix shrinks its reciprocal's
      whole part. */
  lemma ShrinkDown(b: real, x: real)
    requires b >= 2.0 && x > 0.0 && b * x < 1.0
    ensures 0.0 < b * x && (1.0 / (b * x)).Floor < (1.0 / x).Floor
  {
    var z := 1.0 / x;
    DivOrder(1.0, b, x);
    assert 1.0 / (b * x) == z / b;
    ShrinkUp(b, z);
  }

  // ---------------------------------------------------------------------
  // formatBytes and formatTotalBytes
  // ---------------------------------------------------------------------

  /** What a formatter prints: a fixed text, or a scaled value followed by
      the unit looked up by index (`None` where the source reads past the
      unit list and prints `undefined`). */
  datatype Display = Fixed(text: string) | Scaled(value: real, unit: Option<string>)

  /** JavaScript array indexing: `undefined` outside the list. */
  function Lookup(units: seq<string>, k: int): (r: Option<string>)
    ensures r.Some? <==> 0 <= k < |units|
    ensures r.Some? ==> r.value == units[k]
  {
    if 0 <= k < |units| then Some(units[k]) else None
  }

  /** The value divided by `1024^k`, printed with unit `k`. */
  function Render(a: real, k: int, units: seq<string>): (r: Display)
    ensures r.Scaled? && r.unit == Lookup(units, k)
    ensures r.value * Pow(Binary, k) == a
  {
    Scaled(a / Pow(Binary, k), Lookup(units, k))
  }

  /** The unit index as the source computes it: the floor logarithm, capped
      at the last unit but never raised to the first. */
  function UnitIndexAsWritten(a: real, units: seq<string>): (k: int)
    requires a > 0.0 && |units| > 0
    ensures FloorLog(Binary, a) <= |units| - 1 ==> k == FloorLog(Binary, a)
    ensures FloorLog(Binary, a) > |units| - 1 ==> k == |units| - 1
  {
    Min(FloorLog(Binary, a), |units| - 1)
  }

  /** The unit index clamped at both ends. */
  function UnitIndex(a: real, units: seq<string>): (k: int)
    requires a > 0.0 && |units| > 0
    ensures 0 <= k < |units|
    ensures 0 <= FloorLog(Binary, a) < |units| ==> k == FloorLog(Binary, a)
  {
    Max(0, Min(FloorLog(Binary, a), |units| - 1))
  }

  /** The shared body of `formatBytes` and `formatTotalBytes` as written. */
  function FormatAsWritten(x: real, zeroText: string, units: seq<string>): (r: Display)
    requires |units| > 0
    ensures x == 0.0 <==> r == Fixed(zeroText)
    ensures 0.0 < Abs(x) < 1.0 ==> r.Scaled? && r.unit.None? && 1.0 <= r.value < BYTES_PER_UNIT
    ensures Abs(x) >= 1.0 ==> r.Scaled? && r.unit.Some? && r.unit.value in units
    ensures x != 0.0 ==> r == Render(Abs(x), UnitIndexAsWritten(Abs(x), units), units)
  {
    if x == 0.0 then Fixed(zeroText)
    else
      var a := Abs(x);
      if a < 1.0 then
        RenderInRange(a, FloorLog(Binary, a), units);
        Render(a, UnitIndexAsWritten(a, units), units)
      else Render(a, UnitIndexAsWritten(a, units), units)
  }

  /** The same with the unit index also clamped below, so every non-zero
      value gets a unit. */
  function Format(x: real, zeroText: string, units: seq<string>): (r: Display)
    requires |units| > 0
    ensures x == 0.0 <==> r == Fixed(zeroText)
    ensures x != 0.0 ==> r.Scaled? && r.unit.Some? && r.unit.value in units
    ensures 0.0 < Abs(x) < 1.0 ==> r == Scaled(Abs(x), Some(units[0]))
  {
    if x == 0.0 then Fixed(zeroText)
    else
      var a := Abs(x);
      var k := UnitIndex(a, units);
      Render(a, k, units)
  }

  /** `formatBytes` as written: below one byte per second the value is
      scaled up and the unit is missing; from one up it is the corrected
      formatter. */
  function FormatBytesAsWritten(x: real): (r: Display)
    ensures x == 0.0 <==> r == Fixed(ZERO_RATE)
    ensures 0.0 < Abs(x) < 1.0 ==> r.Scaled? && r.unit.None? && 1.0 <= r.value < BYTES_PER_UNIT
    ensures Abs(x) >= 1.0 ==> r == FormatBytes(x)
  {
    FormatAsWritten(x, ZERO_RATE, RATE_UNITS)
  }

  /** `formatTotalBytes` as written, with the same flaw below one byte. */
  function FormatTotalBytesAsWritten(x: real): (r: Display)
    ensures x == 0.0 <==> r == Fixed(ZERO_SIZE)
    ensures 0.0 < Abs(x) < 1.0 ==> r.Scaled? && r.unit.None? && 1.0 <= r.value < BYTES_PER_UNIT
    ensures Abs(x) >= 1.0 ==> r == FormatTotalBytes(x)
  {
    FormatAsWritten(x, ZERO_SIZE, SIZE_UNITS)
  }

  /** `formatBytes`, with the unit index clamped at zero. */
  function FormatBytes(x: real): (r: Display)
    ensures x == 0.0 <==> r == Fixed(ZERO_RATE)
    ensures x != 0.0 ==> r.Scaled? && r.unit.Some? && r.unit.value in RATE_UNITS
    ensures 0.0 < Abs(x) < 1.0 ==> r == Scaled(Abs(x), Some("B/s"))
  {
    Format(x, ZERO_RATE, RATE_UNITS)
  }

  /** `formatTotalBytes`, with the unit index clamped at zero. */
  function FormatTotalBytes(x: real): (r: Display)
    ensures x == 0.0 <==> r == Fixed(ZERO_SIZE)
    ensures x != 0.0 ==> r.Scaled? && r.unit.Some? && r.unit.value in SIZE_UNITS
    ensures 0.0 < Abs(x) < 1.0 ==> r == Scaled(Abs(x), Some("B"))
  {
    Format(x, ZERO_SIZE, SIZE_UNITS)
  }

  /** A speed below one byte per second: the source's index is -1, so the
      value is scaled up by 1024 and printed with an `undefined` unit. */
  lemma FractionalRateHasNoUnit()
    ensures FormatBytesAsWritten(0.5) == Scaled(512.0, None)
    ensures FormatTotalBytesAsWritten(0.5) == Scaled(512.0, None)
    ensures FormatBytes(0.5) == Scaled(0.5, Some("B/s"))
  {
    assert FloorLog(Binary, 0.5) == -1;
    assert Pow(Binary, -1) == 1.0 / 1024.0;
  }

  /** Both versions ignore the sign of their input. */
  lemma FormatIgnoresSign(x: real, zeroText: string, units: seq<string>)
    requires |units| > 0
    ensures FormatAsWritten(-x, zeroText, units) == FormatAsWritten(x, zeroText, units)
    ensures Format(-x, zeroText, units) == Format(x, zeroText, units)
  {
  }

  /** From one byte up the two versions agree: the correction only changes
      values below one. */
  lemma ClampOnlyMattersBelowOne(x: real, zeroText: string, units: seq<string>)
    requires |units| > 0 && Abs(x) >= 1.0
    ensures Format(x, zeroText, units) == FormatAsWritten(x, zeroText, units)
  {
  }

  /** Between one byte and `1024^|units|` the printed value lies in
      `[1, 1024)` and the unit is the floor logarithm's; being a `Render`,
      value times the unit's size gives back the input. */
  lemma FormatInRange(x: real, zeroText: string, units: seq<string>)
    requires |units| > 0
    requires 1.0 <= Abs(x) < Pow(Binary, |units|)
    ensures var r := Format(x, zeroText, units);
            var k := FloorLog(Binary, Abs(x));
            && 0 <= k < |units| && r.unit == Some(units[k])
            && 1.0 <= r.value < BYTES_PER_UNIT
            && r == Render(Abs(x), k, units)
  {
    var a := Abs(x);
    var k := FloorLog(Binary, a);
    UnitIndexIsFloorLog(a, units);
    FormatIsRender(x, zeroText, units, k);
    RenderInRange(a, k, units);
  }

  lemma FormatIsRender(x: real, zeroText: string, units: seq<string>, k: int)
    requires |units| > 0 && x != 0.0 && k == UnitIndex(Abs(x), units)
    ensures Format(x, zeroText, units) == Render(Abs(x), k, units)
  {
  }

  /** From one byte up to the top of the unit list the clamped index is the
      floor logarithm itself. */
  lemma UnitIndexIsFloorLog(a: real, units: seq<string>)
    requires |units| > 0 && 1.0 <= a < Pow(Binary, |units|)
    ensures 0 <= FloorLog(Binary, a) < |units|
    ensures UnitIndex(a, units) == FloorLog(Binary, a)
  {
    var k := FloorLog(Binary, a);
    if k > |units| { PowIncreasing(Binary, |units|, k); }
  }

  lemma RenderInRange(a: real, k: int, units: seq<string>)
    requires IsFloorLog(Binary, a, k)
    ensures 1.0 <= Render(a, k, units).value < BYTES_PER_UNIT
  {
    ScaledValueInRange(Render(a, k, units).value, Pow(Binary, k), a, k);
  }

  /** Dividing by the power that brackets a value leaves a quotient in
      `[1, 1024)`. */
  lemma ScaledValueInRange(v: real, p: real, a: real, k: int)
    requires p == Pow(Binary, k) && IsFloorLog(Binary, a, k) && v * p == a
    ensures 1.0 <= v < BYTES_PER_UNIT
  {
    PowStep(Binary, k);
    QuotientInRange(v, p, a, BYTES_PER_UNIT);
  }

  /** Values of `1024^(|units|-1)` and above all print in the last unit,
      however large. */
  lemma LargeValuesUseLastUnit(x: real, zeroText: string, units: seq<string>)
    requires |units| > 0 && Abs(x) >= Pow(Binary, |units| - 1)
    ensures var r := Format(x, zeroText, units);
            r.unit == Some(units[|units| - 1]) && r.value >= 1.0
    ensures FormatAsWritten(x, zeroText, units) == Format(x, zeroText, units)
  {
    var a := Abs(x);
    var last := |units| - 1;
    var k := FloorLog(Binary, a);
    if k < last {
      if k + 1 < last { PowIncreasing(Binary, k + 1, last); }
    }
    if last > 0 { PowIncreasing(Binary, 0, last); }
    DivOrder(a, 1.0, Pow(Binary, last));
  }

  /** The five rate units and five size units reach `1024^4` (TB). */
  lemma TerabytesAtTheTop(x: real)
    requires Abs(x) >= Pow(Binary, 4)
    ensures FormatBytes(x).unit == Some("TB/s") && FormatTotalBytes(x).unit == Some("TB")
  {
    LargeValuesUseLastUnit(x, ZERO_RATE, RATE_UNITS);
    LargeValuesUseLastUnit(x, ZERO_SIZE, SIZE_UNITS);
  }

  // ---------------------------------------------------------------------
  // roundToNiceNumber
  // ---------------------------------------------------------------------

  /** The mantissa step a fraction in `[1, 10)` rounds to. */
  function NiceFraction(f: real): (r: real)
    ensures r == 1.0 <==> f <= 1.2
    ensures r == 2.0 <==> 1.2 < f <= 2.5
    ensures r == 5.0 <==> 2.5 < f <= 5.0
    ensures r == 10.0 <==> 5.0 < f
  {
    if f <= 1.2 then 1.0
    else if f <= 2.5 then 2.0
    else if f <= 5.0 then 5.0
    else 10.0
  }

  /** The power of ten at or just below a positive magnitude. */
  function Decade(a: real): (p: real)
    requires a > 0.0
    ensures 0.0 < p <= a < 10.0 * p
    ensures p == Pow(Decimal, FloorLog(Decimal, a))
    ensures a >= 1.0 ==> p >= 1.0
  {
    var e := FloorLog(Decimal, a);
    PowStep(Decimal, e);
    PowAtLeastOne(Decimal, e);
    Pow(Decimal, e)
  }

  /** `roundToNiceNumber` before its final `Math.max(1, ...)`: the nice
      fraction times the decade of the magnitude. */
  function NiceNumber(a: real): (r: real)
    requires a > 0.0
    ensures 0.8 * a <= r < 2.0 * a
    ensures r == NiceFraction(a / Decade(a)) * Decade(a)
    ensures a >= 1.0 ==> r >= 1.0
  {
    NiceMultiple(a, Decade(a))
  }

  /** The nice fraction of `a / p`, times `p`, for the decade `p` of `a`. */
  function NiceMultiple(a: real, p: real): (r: real)
    requires 0.0 < p <= a < 10.0 * p
    ensures 0.8 * a <= r < 2.0 * a
    ensures r == NiceFraction(a / p) * p
    ensures p >= 1.0 ==> r >= 1.0
  {
    var f := a / p;
    QuotientInRange(f, p, a, 10.0);
    NiceBounds(a, f, p);
    MulOrder(1.0, NiceFraction(f), p);
    NiceFraction(f) * p
  }

  lemma NiceBounds(a: real, f: real, p: real)
    requires p > 0.0 && 1.0 <= f < 10.0 && f * p == a
    ensures 0.8 * a <= NiceFraction(f) * p < 2.0 * a
  {
    var n := NiceFraction(f);
    assert 0.8 * a - n * p == (0.8 * f - n) * p;
    assert 2.0 * a - n * p == (2.0 * f - n) * p;
    ProductSign(0.8 * f - n, p);
    ProductSign(2.0 * f - n, p);
  }

  /** `roundToNiceNumber`: 1 for zero; otherwise the nice number of the
      magnitude, but never below 1. */
  function RoundToNiceNumber(v: real): (r: real)
    ensures r >= 1.0
    ensures v == 0.0 ==> r == 1.0
    ensures Abs(v) >= 1.0 ==> 0.8 * Abs(v) <= r < 2.0 * Abs(v)
    ensures Abs(v) >= 1.0 ==> r == NiceNumber(Abs(v))
  {
    if v == 0.0 then 1.0
    else
      var nice := NiceNumber(Abs(v));
      if nice > 1.0 then nice else 1.0
  }

  /** The sign of the input does not matter. */
  lemma RoundToNiceIgnoresSign(v: real)
    ensures RoundToNiceNumber(-v) == RoundToNiceNumber(v)
  {
  }

  /** Every magnitude below one rounds up to the floor value 1. */
  lemma SmallValuesRoundToOne(v: real)
    requires 0.0 < Abs(v) < 1.0
    ensures RoundToNiceNumber(v) == 1.0
  {
    var a := Abs(v);
    var e := FloorLog(Decimal, a);
    PowStep(Decimal, e);
    if e < -1 { PowIncreasing(Decimal, e + 1, 0); }
    assert Pow(Decimal, e + 1) <= 1.0;
    var f := a / Pow(Decimal, e);
    assert NiceFraction(f) <= 10.0;
    MulOrder(NiceFraction(f), 10.0, Pow(Decimal, e));
  }

  /** A nice number is a fixed point: rounding it again changes nothing. */
  lemma RoundToNiceIdempotent(v: real)
    ensures RoundToNiceNumber(RoundToNiceNumber(v)) == RoundToNiceNumber(v)
  {
    var r := RoundToNiceNumber(v);
    if r == 1.0 {
      OneIsNice();
    } else {
      var n, p, e := NiceShape(Abs(v));
      NiceStepIsFixed(r, n, p, e);
    }
  }

  /** Every nice number is a step of 1, 2, 5 or 10 times a power of ten. */
  lemma NiceShape(a: real) returns (n: real, p: real, e: int)
    requires a > 0.0
    ensures n == 1.0 || n == 2.0 || n == 5.0 || n == 10.0
    ensures p == Pow(Decimal, e) && NiceNumber(a) == n * p
  {
    e := FloorLog(Decimal, a);
    p := Pow(Decimal, e);
    n := NiceFraction(a / p);
    assert NiceNumber(a) == NiceMultiple(a, p);
    PowStep(Decimal, e);
    MultipleShape(a, p, n);
  }

  lemma MultipleShape(a: real, p: real, n: real)
    requires 0.0 < p <= a < 10.0 * p && n == NiceFraction(a / p)
    ensures NiceMultiple(a, p) == n * p
  {
  }

  lemma OneIsNice()
    ensures RoundToNiceNumber(1.0) == 1.0
  {
    assert IsFloorLog(Decimal, 1.0, 0) by { PowStep(Decimal, 0); }
    FloorLogUnique(Decimal, 1.0, 0, FloorLog(Decimal, 1.0));
  }

  /** `n * 10^e` for a step `n` in 1, 2, 5, 10 is its own nice number. */
  lemma NiceStepIsFixed(r: real, n: real, p: real, e: int)
    requires n == 1.0 || n == 2.0 || n == 5.0 || n == 10.0
    requires p == Pow(Decimal, e) && r == n * p
    ensures NiceNumber(r) == r
  {
    if n == 10.0 {
      TenStepIsFixed(r, p, e);
    } else {
      FixedInDecade(n, p, r, e);
    }
  }

  /** A step of ten is a step of one in the next decade. */
  lemma TenStepIsFixed(r: real, p: real, e: int)
    requires p == Pow(Decimal, e) && r == 10.0 * p
    ensures NiceNumber(r) == r
  {
    PowStep(Decimal, e);
    FixedInDecade(1.0, r, r, e + 1);
  }

  /** A step of 1, 2 or 5 times the decade `p = 10^k` is its own nice
      number. */
  lemma FixedInDecade(m: real, p: real, x: real, k: int)
    requires m == 1.0 || m == 2.0 || m == 5.0
    requires p == Pow(Decimal, k) && x == m * p
    ensures NiceNumber(x) == x
  {
    StepBracket(m, p, x);
    NiceNumberInDecade(x, p, k);
    NiceMultipleOfStep(m, p, x);
  }

  /** Within the decade of `10^k`, the floor logarithm is `k`. */
  lemma DecadeOf(x: real, k: int)
    requires Pow(Decimal, k) <= x < 10.0 * Pow(Decimal, k)
    ensures FloorLog(Decimal, x) == k
  {
    PowStep(Decimal, k);
    FloorLogUnique(Decimal, x, k, FloorLog(Decimal, x));
  }

  lemma NiceNumberInDecade(x: real, p: real, k: int)
    requires p == Pow(Decimal, k) && p <= x < 10.0 * p
    ensures NiceNumber(x) == NiceMultiple(x, p)
  {
    DecadeOf(x, k);
  }

  lemma StepBracket(m: real, p: real, x: real)
    requires m == 1.0 || m == 2.0 || m == 5.0
    requires p > 0.0 && x == m * p
    ensures p <= x < 10.0 * p
  {
    MulOrder(1.0, m, p);
    MulOrder(m, 10.0, p);
  }

  lemma NiceMultipleOfStep(m: real, p: real, x: real)
    requires m == 1.0 || m == 2.0 || m == 5.0
    requires p > 0.0 && x == m * p
    ensures NiceMultiple(x, p) == x
  {
    CancelFactor(m, p);
  }
}
