/** Decimal amounts and their conversion to wei, with the 28-digit rounding of Python's default
    decimal context. */
module DecimalAmount {
  import opened Text

  // A finite decimal: the value is (-1)^negative * coefficient * 10^exponent.
  datatype Decimal = Decimal(negative: bool, coefficient: nat, exponent: int)

  const PRECISION := 28
  const WEI_DIGITS := 18

  // c * 10^n
  function Times10(c: nat, n: nat): nat
    decreases n
  {
    if n == 0 then c else Times10(10 * c, n - 1)
  }

  // p / 10^n, rounded down
  function Over10(p: nat, n: nat): nat
    decreases n
  {
    if n == 0 then p else Over10(p / 10, n - 1)
  }

  function NumDigits(c: nat): (d: nat)
    ensures d >= 1
  {
    if c < 10 then 1 else 1 + NumDigits(c / 10)
  }

  // What is cut off p is more than half a unit, or half a unit on top of an odd number.
  predicate RoundsUp(p: nat, n: nat) {
    var k := Over10(p, n);
    var rest := p - Times10(k, n);
    2 * rest > Times10(1, n) || (2 * rest == Times10(1, n) && k % 2 == 1)
  }

  // p / 10^n to the nearest integer, ties to even.
  function HalfEven(p: nat, n: nat): nat {
    if RoundsUp(p, n) then Over10(p, n) + 1 else Over10(p, n)
  }

  // One of the two multiples of ten to the n around p: the nearer one, the even one at the midpoint.
  predicate NearestEven(p: nat, n: nat, h: nat) {
    var x, unit := Times10(h, n), Times10(1, n);
    || (2 * x - unit < 2 * p < 2 * x + unit)
    || ((2 * p == 2 * x - unit || 2 * p == 2 * x + unit) && h % 2 == 0)
  }

  // The coefficient of a result after rounding it to 28 significant digits.
  function RoundedCoefficient(p: nat): nat {
    if NumDigits(p) <= PRECISION then p
    else
      var cut := NumDigits(p) - PRECISION;
      Times10(HalfEven(p, cut), cut)
  }

  // int(): the fraction is cut off.
  function Truncated(p: nat, exponent: int): nat {
    if exponent >= 0 then Times10(p, exponent) else Over10(p, -exponent)
  }

  predicate Positive(d: Decimal) {
    !d.negative && d.coefficient > 0
  }

  // int(amount * Decimal(10) ** 18), or 0 when the amount is not positive.
  function ToWei(d: Decimal): nat {
    if Positive(d) then Truncated(RoundedCoefficient(Times10(d.coefficient, WEI_DIGITS)), d.exponent) else 0
  }

  // The text that was typed: a number, or something Decimal() rejects.
  function ParseAmountToWei(typed: Option<Decimal>): Option<nat> {
    match typed
    case None => None
    case Some(d) => Some(ToWei(d))
  }

  // ---------- shifting decimal digits ----------

  lemma {:induction false} Times10Linear(a: nat, b: nat, n: nat)
    ensures Times10(a + b, n) == Times10(a, n) + Times10(b, n)
    ensures a <= b ==> Times10(a, n) <= Times10(b, n)
    ensures a < b ==> Times10(a, n) < Times10(b, n)
    decreases n
  {
    if n > 0 {
      Times10Linear(10 * a, 10 * b, n - 1);
    }
  }

  lemma {:induction false} Times10Add(c: nat, m: nat, n: nat)
    ensures Times10(Times10(c, m), n) == Times10(c, m + n)
    decreases m
  {
    if m > 0 {
      Times10Add(10 * c, m - 1, n);
    }
  }

  lemma {:induction false} Over10Monotone(a: nat, b: nat, n: nat)
    requires a <= b
    ensures Over10(a, n) <= Over10(b, n)
    decreases n
  {
    if n > 0 {
      Over10Monotone(a / 10, b / 10, n - 1);
    }
  }

  // A common factor cancels.
  lemma {:induction false} Cancel(p: nat, n: nat, m: nat)
    ensures Over10(Times10(p, m), n + m) == Over10(p, n)
    ensures Over10(Times10(p, m), m) == p
    decreases m
  {
    if m > 0 {
      Times10Add(p, m - 1, 1);
      assert Times10(p, m) == Times10(Times10(p, m - 1), 1) == Times10(10 * Times10(p, m - 1), 0);
      assert Times10(p, m) / 10 == Times10(p, m - 1);
      Cancel(p, n, m - 1);
    }
  }

  // Over10 rounds down.
  lemma {:induction false} Over10IsFloor(p: nat, n: nat)
    ensures Times10(Over10(p, n), n) <= p < Times10(Over10(p, n) + 1, n)
    decreases n
  {
    if n > 0 {
      var k := Over10(p, n);
      Over10IsFloor(p / 10, n - 1);
      LastFactor(k, n - 1);
      LastFactor(k + 1, n - 1);
    }
  }

  lemma LastFactor(c: nat, n: nat)
    ensures Times10(c, n + 1) == 10 * Times10(c, n)
  {
    Times10Add(c, n, 1);
    assert Times10(Times10(c, n), 1) == Times10(10 * Times10(c, n), 0);
  }

  lemma {:induction false} DigitsOfScaled(c: nat, n: nat)
    requires c > 0
    ensures NumDigits(Times10(c, n)) == NumDigits(c) + n && Times10(c, n) > 0
    decreases n
  {
    if n > 0 {
      DigitsOfScaled(c, n - 1);
      LastFactor(c, n - 1);
    }
  }

  // ---------- the conversion is exact on 28 digits ----------

  lemma NoRounding(c: nat)
    requires c > 0 && NumDigits(c) <= PRECISION
    ensures RoundedCoefficient(Times10(c, WEI_DIGITS)) == Times10(c, WEI_DIGITS)
  {
    var p := Times10(c, WEI_DIGITS);
    DigitsOfScaled(c, WEI_DIGITS);
    if NumDigits(p) > PRECISION {
      var cut := NumDigits(p) - PRECISION;
      Times10Add(c, WEI_DIGITS - cut, cut);
      Cancel(Times10(c, WEI_DIGITS - cut), 0, cut);
      DigitsOfScaled(1, cut);
    }
  }

  lemma TruncatedShift(c: nat, exponent: int, unit: nat)
    requires exponent + WEI_DIGITS + unit >= 0
    ensures Truncated(Times10(c, WEI_DIGITS), exponent) == Over10(Times10(c, exponent + WEI_DIGITS + unit), unit)
  {
    if exponent >= 0 {
      Times10Add(c, WEI_DIGITS, exponent);
      Times10Add(c, WEI_DIGITS + exponent, unit);
      Cancel(Times10(c, WEI_DIGITS + exponent), 0, unit);
    } else {
      var e := -exponent;
      Cancel(Times10(c, WEI_DIGITS), e, unit);
      Times10Add(c, WEI_DIGITS, unit);
      Cancel(Times10(c, exponent + WEI_DIGITS + unit), unit, e);
      Times10Add(c, exponent + WEI_DIGITS + unit, e);
    }
  }

  /** A positive amount of at most 28 significant digits converts to the floor of its value times
      10^18: in any unit 10^-unit fine enough to write that product as a whole number, the wei are
      the largest number of whole units not above it. Every other amount converts to 0. */
  lemma WeiIsFloor(d: Decimal, unit: nat)
    requires NumDigits(d.coefficient) <= PRECISION && d.exponent + WEI_DIGITS + unit >= 0
    ensures Positive(d) ==>
              var exact := Times10(d.coefficient, d.exponent + WEI_DIGITS + unit);
              && ToWei(d) == Over10(exact, unit)
              && Times10(ToWei(d), unit) <= exact < Times10(ToWei(d) + 1, unit)
    ensures !Positive(d) ==> ToWei(d) == 0
  {
    if Positive(d) {
      NoRounding(d.coefficient);
      TruncatedShift(d.coefficient, d.exponent, unit);
      Over10IsFloor(Times10(d.coefficient, d.exponent + WEI_DIGITS + unit), unit);
    }
  }

  // ---------- the conversion is monotone, with and without rounding ----------

  lemma {:induction false} DigitBounds(c: nat)
    requires c > 0
    ensures Times10(1, NumDigits(c) - 1) <= c < Times10(1, NumDigits(c))
  {
    if c >= 10 {
      DigitBounds(c / 10);
      LastFactor(1, NumDigits(c) - 2);
      LastFactor(1, NumDigits(c) - 1);
    } else {
      LastFactor(1, 0);
    }
  }

  lemma {:induction false} DigitsMonotone(p: nat, q: nat)
    requires p <= q
    ensures NumDigits(p) <= NumDigits(q)
  {
    if p >= 10 {
      DigitsMonotone(p / 10, q / 10);
    }
  }

  lemma {:induction false} DigitsCut(p: nat, n: nat)
    requires p > 0 && n < NumDigits(p)
    ensures NumDigits(Over10(p, n)) == NumDigits(p) - n && Over10(p, n) > 0
    decreases n
  {
    if n > 0 {
      DigitsCut(p / 10, n - 1);
    }
  }

  lemma {:induction false} PowersGrow(m: nat, n: nat)
    requires m <= n
    ensures Times10(1, m) <= Times10(1, n)
    decreases n
  {
    if m < n {
      PowersGrow(m, n - 1);
      LastFactor(1, n - 1);
    }
  }

  lemma HalfEvenMonotone(p: nat, q: nat, n: nat)
    requires p <= q
    ensures HalfEven(p, n) <= HalfEven(q, n)
  {
    Over10Monotone(p, q, n);
  }

  // Cutting a number down to k digits leaves it between the powers of ten around it.
  lemma CutBounds(p: nat, k: nat, cut: nat)
    requires p > 0 && k >= 1 && NumDigits(p) == k + cut
    ensures Times10(1, k - 1 + cut) <= Times10(HalfEven(p, cut), cut) <= Times10(1, k + cut)
  {
    var h := HalfEven(p, cut);
    DigitsCut(p, cut);
    DigitBounds(Over10(p, cut));
    Times10Linear(Times10(1, k - 1), h, cut);
    Times10Linear(h, Times10(1, k), cut);
    Times10Add(1, k - 1, cut);
    Times10Add(1, k, cut);
  }

  lemma RoundedBounds(p: nat)
    requires p > 0
    ensures Times10(1, NumDigits(p) - 1) <= RoundedCoefficient(p) <= Times10(1, NumDigits(p))
  {
    DigitBounds(p);
    if NumDigits(p) > PRECISION {
      CutBounds(p, PRECISION, NumDigits(p) - PRECISION);
    }
  }

  lemma RoundedMonotone(p: nat, q: nat)
    requires 0 < p <= q
    ensures RoundedCoefficient(p) <= RoundedCoefficient(q)
  {
    DigitsMonotone(p, q);
    if NumDigits(p) < NumDigits(q) {
      RoundedBounds(p);
      RoundedBounds(q);
      PowersGrow(NumDigits(p), NumDigits(q) - 1);
    } else if NumDigits(p) > PRECISION {
      var cut := NumDigits(p) - PRECISION;
      HalfEvenMonotone(p, q, cut);
      Times10Linear(HalfEven(p, cut), HalfEven(q, cut), cut);
    }
  }

  lemma HalfEvenIs(p: nat, n: nat, h: nat)
    ensures HalfEven(p, n) == h <==> NearestEven(p, n, h)
  {
    var k := Over10(p, n);
    Over10IsFloor(p, n);
    Times10Linear(k, 1, n);
    if h < k {
      Times10Linear(h + 1, k, n);
      Times10Linear(h, 1, n);
    } else if h > k + 1 {
      Times10Linear(k + 2, h, n);
      Times10Linear(k + 1, 1, n);
    }
  }

  /** A product of more than 28 digits is rounded to 28 of them, to the nearest, ties to even; any other
      is kept. */
  lemma RoundedIs(p: nat)
    ensures p < Times10(1, 28) ==> RoundedCoefficient(p) == p
    ensures p >= Times10(1, 28) ==>
              exists cut: nat, h: nat ::
                && cut > 0 && Times10(1, 27 + cut) <= p < Times10(1, 28 + cut)
                && RoundedCoefficient(p) == Times10(h, cut) && NearestEven(p, cut, h)
  {
    hide NearestEven, HalfEven, Times10;
    DigitsOfScaled(1, 28);
    if p > 0 {
      DigitBounds(p);
    }
    if NumDigits(p) > PRECISION {
      var cut := NumDigits(p) - PRECISION;
      HalfEvenIs(p, cut, HalfEven(p, cut));
      PowersGrow(28, 27 + cut);
    } else {
      PowersGrow(NumDigits(p), 28);
    }
  }

  lemma HalfEvenScales(p: nat, n: nat)
    ensures HalfEven(10 * p, n + 1) == HalfEven(p, n)
  {
    LastFactor(Over10(p, n), n);
    LastFactor(1, n);
  }

  // A trailing zero more makes no difference to the rounding ...
  lemma RoundedScales(p: nat)
    requires p > 0
    ensures RoundedCoefficient(10 * p) == 10 * RoundedCoefficient(p)
  {
    if NumDigits(p) >= PRECISION {
      var cut := NumDigits(p) - PRECISION;
      HalfEvenScales(p, cut);
      LastFactor(HalfEven(p, cut), cut);
    }
  }

  // ... nor to the amount.
  lemma {:induction false} WeiOfSameValue(c: nat, exponent: int, n: nat)
    requires c > 0
    ensures Times10(c, n) > 0
    ensures ToWei(Decimal(false, Times10(c, n), exponent - n)) == ToWei(Decimal(false, c, exponent))
    decreases n
  {
    if n > 0 {
      WeiOfSameValue(10 * c, exponent - 1, n - 1);
      LastFactor(c, WEI_DIGITS);
      DigitsOfScaled(c, WEI_DIGITS);
      RoundedScales(Times10(c, WEI_DIGITS));
      TruncatedScales(RoundedCoefficient(Times10(c, WEI_DIGITS)), exponent);
    }
  }

  lemma TruncatedScales(x: nat, exponent: int)
    ensures Truncated(10 * x, exponent - 1) == Truncated(x, exponent)
  {
    if exponent <= 0 {
      assert Over10(10 * x, -exponent + 1) == Over10(10 * x / 10, -exponent);
    }
  }

  // The value of a is at most that of b, amounts that are not positive counting as zero.
  predicate AtMost(a: Decimal, b: Decimal) {
    if !Positive(a) then true
    else if !Positive(b) then false
    else
      var least := if a.exponent <= b.exponent then a.exponent else b.exponent;
      Times10(a.coefficient, a.exponent - least) <= Times10(b.coefficient, b.exponent - least)
  }

  /** The conversion is monotone on all amounts, of any number of digits: rounding may make an amount
      worth more, but never more than a larger one. */
  lemma WeiMonotone(a: Decimal, b: Decimal)
    requires AtMost(a, b)
    ensures ToWei(a) <= ToWei(b)
  {
    if Positive(a) {
      var least := if a.exponent <= b.exponent then a.exponent else b.exponent;
      var p, q := Times10(a.coefficient, a.exponent - least), Times10(b.coefficient, b.exponent - least);
      WeiOfSameValue(a.coefficient, a.exponent, a.exponent - least);
      WeiOfSameValue(b.coefficient, b.exponent, b.exponent - least);
      WeiAtExponent(p, q, least);
    }
  }

  lemma WeiAtExponent(p: nat, q: nat, exponent: int)
    requires 0 < p <= q
    ensures ToWei(Decimal(false, p, exponent)) <= ToWei(Decimal(false, q, exponent))
  {
    var x, y := Times10(p, WEI_DIGITS), Times10(q, WEI_DIGITS);
    Times10Linear(p, q, WEI_DIGITS);
    DigitsOfScaled(p, WEI_DIGITS);
    RoundedMonotone(x, y);
    if exponent >= 0 {
      Times10Linear(RoundedCoefficient(x), RoundedCoefficient(y), exponent);
    } else {
      Over10Monotone(RoundedCoefficient(x), RoundedCoefficient(y), -exponent);
    }
  }

  // ---------- when the floor is missed ----------

  predicate EndsInNines(k: nat, n: nat)
    decreases n
  {
    n == 0 || (k % 10 == 9 && EndsInNines(k / 10, n - 1))
  }

  predicate EndsInZeros(k: nat, n: nat)
    decreases n
  {
    n == 0 || (k % 10 == 0 && EndsInZeros(k / 10, n - 1))
  }

  // Of the digits of the exact product, 28 are kept and `cut` are rounded away. Where the fraction
  // is at least that long, the floor is missed when rounding up carries through nines into the
  // whole number; where it is shorter, when whole wei are rounded away.
  predicate MissesFloor(d: Decimal) {
    var p := Times10(d.coefficient, WEI_DIGITS);
    var cut := NumDigits(p) - PRECISION;
    cut > 0 && RoundingMisses(p, cut, d.exponent)
  }

  predicate RoundingMisses(p: nat, cut: nat, exponent: int) {
    if -exponent >= cut then RoundsUp(p, cut) && EndsInNines(Over10(p, cut), -exponent - cut)
    else
      var fraction: nat := if exponent < 0 then -exponent else 0;
      !EndsInZeros(Over10(p, fraction), cut - fraction)
  }

  lemma {:induction false} Over10Twice(p: nat, m: nat, n: nat)
    ensures Over10(Over10(p, m), n) == Over10(p, m + n)
    decreases m
  {
    if m > 0 {
      Over10Twice(p / 10, m - 1, n);
    }
  }

  lemma {:induction false} CarryIntoNines(k: nat, n: nat)
    ensures Over10(k + 1, n) == Over10(k, n) + if EndsInNines(k, n) then 1 else 0
    decreases n
  {
    if n > 0 {
      if k % 10 == 9 {
        assert (k + 1) / 10 == k / 10 + 1;
        CarryIntoNines(k / 10, n - 1);
      } else {
        assert (k + 1) / 10 == k / 10;
      }
    }
  }

  lemma {:induction false} ZerosMeanMultiple(q: nat, n: nat)
    ensures EndsInZeros(q, n) <==> q == Times10(Over10(q, n), n)
    decreases n
  {
    if n > 0 {
      ZerosMeanMultiple(q / 10, n - 1);
      LastFactor(Over10(q, n), n - 1);
    }
  }

  // The fraction is at least as long as what is rounded away.
  lemma RoundedInFraction(p: nat, cut: nat, f: nat)
    requires f >= cut
    ensures Over10(Times10(HalfEven(p, cut), cut), f)
            == Over10(p, f) + if RoundsUp(p, cut) && EndsInNines(Over10(p, cut), f - cut) then 1 else 0
  {
    Cancel(HalfEven(p, cut), f - cut, cut);
    Over10Twice(p, cut, f - cut);
    CarryIntoNines(Over10(p, cut), f - cut);
  }

  // The fraction is shorter than what is rounded away.
  lemma RoundedBeyondFraction(p: nat, cut: nat, f: nat)
    requires f < cut
    ensures Times10(HalfEven(p, cut), cut - f) == Over10(p, f) <==> EndsInZeros(Over10(p, f), cut - f)
  {
    var q, n, k := Over10(p, f), cut - f, Over10(p, cut);
    Over10Twice(p, f, n);
    ZerosMeanMultiple(q, n);
    Over10IsFloor(q, n);
    if EndsInZeros(q, n) {
      SmallRest(p, cut, f);
    } else {
      Times10Linear(k, k, n);
    }
  }

  // Only zeros between the point and the cut: what is cut off is less than half a unit.
  lemma SmallRest(p: nat, cut: nat, f: nat)
    requires f < cut && Over10(p, f) == Times10(Over10(p, cut), cut - f)
    ensures !RoundsUp(p, cut)
  {
    var q, k := Over10(p, f), Over10(p, cut);
    Over10IsFloor(p, f);
    Times10Linear(q, 1, f);
    Times10Add(k, cut - f, f);
    PowersGrow(f, cut - 1);
    LastFactor(1, cut - 1);
  }

  lemma RoundedTruncation(p: nat, cut: nat, exponent: int)
    requires cut > 0
    ensures Truncated(Times10(HalfEven(p, cut), cut), exponent) == Truncated(p, exponent)
            <==> !RoundingMisses(p, cut, exponent)
    ensures -exponent >= cut && RoundingMisses(p, cut, exponent) ==>
              Truncated(Times10(HalfEven(p, cut), cut), exponent) == Truncated(p, exponent) + 1
  {
    var h := HalfEven(p, cut);
    if -exponent >= cut {
      RoundedInFraction(p, cut, -exponent);
    } else if exponent < 0 {
      RoundedBeyondFraction(p, cut, -exponent);
      Times10Add(h, cut + exponent, -exponent);
      Cancel(Times10(h, cut + exponent), 0, -exponent);
    } else {
      RoundedBeyondFraction(p, cut, 0);
      Times10Linear(p, Times10(h, cut), exponent);
      Times10Linear(Times10(h, cut), p, exponent);
    }
  }

  /** A positive amount, of any number of digits, converts to the floor of its value times 10^18 if
      and only if rounding to 28 digits neither carries into the whole number nor rounds away whole
      wei; a carry makes it exactly one wei more. */
  lemma WeiIsFloorIff(d: Decimal, unit: nat)
    requires Positive(d) && d.exponent + WEI_DIGITS + unit >= 0
    ensures var floor := Over10(Times10(d.coefficient, d.exponent + WEI_DIGITS + unit), unit);
            && (ToWei(d) == floor <==> !MissesFloor(d))
            && (MissesFloor(d) && -d.exponent >= NumDigits(d.coefficient) + WEI_DIGITS - PRECISION ==>
                  ToWei(d) == floor + 1)
  {
    var p := Times10(d.coefficient, WEI_DIGITS);
    DigitsOfScaled(d.coefficient, WEI_DIGITS);
    TruncatedShift(d.coefficient, d.exponent, unit);
    if NumDigits(p) > PRECISION {
      RoundedTruncation(p, NumDigits(p) - PRECISION, d.exponent);
    }
  }

  // 10^n - 1, written with n nines.
  function Nines(n: nat): nat {
    if n == 0 then 0 else 10 * Nines(n - 1) + 9
  }

  lemma {:induction false} NinesValue(n: nat)
    ensures Nines(n) + 1 == Times10(1, n)
    ensures n >= 1 ==> NumDigits(Nines(n)) == n
  {
    if n > 0 {
      NinesValue(n - 1);
      LastFactor(1, n - 1);
    }
  }

  lemma {:induction false} NinesSplit(k: nat, n: nat)
    ensures Nines(k + n) == Times10(Nines(k), n) + Nines(n)
    ensures Over10(Nines(k + n), n) == Nines(k)
    ensures n >= 1 ==> Nines(n) >= 9
    decreases n
  {
    if n > 0 {
      assert Nines(k + n) / 10 == Nines(k + n - 1);
      NinesSplit(k, n - 1);
      LastFactor(Nines(k), n - 1);
    }
  }

  // Cutting m nines and w zeros off k + m nines rounds up.
  lemma NinesRoundUp(k: nat, m: nat, w: nat)
    requires m >= 1
    ensures HalfEven(Times10(Nines(k + m), w), m + w) == Times10(1, k)
  {
    Cancel(Nines(k + m), m, w);
    NinesSplit(k, m);
    Times10Add(Nines(k), m, w);
    Times10Linear(Times10(Nines(k), m), Nines(m), w);
    NinesValue(m);
    NinesValue(k);
    Times10Add(1, m, w);
    Times10Linear(Nines(m), Nines(m), w);
    Times10Linear(Nines(m) + 1, 2 * Nines(m), w);
  }

  /** The limit of 28 digits is sharp: a decimal point followed by 29 or more nines converts to
      one whole token, one wei more than the floor of its value times 10^18. */
  lemma TooManyNines(n: nat)
    requires n >= 29
    ensures NumDigits(Nines(n)) == n
    ensures ToWei(Decimal(false, Nines(n), -(n as int))) == Times10(1, WEI_DIGITS)
    ensures Over10(Times10(Nines(n), WEI_DIGITS), n) == Times10(1, WEI_DIGITS) - 1
    ensures MissesFloor(Decimal(false, Nines(n), -(n as int)))
  {
    NinesAmount(n, PRECISION, WEI_DIGITS);
    NinesValue(n);
    WeiIsFloorIff(Decimal(false, Nines(n), -(n as int)), n);
  }

  /** The other way to miss it: a whole number of tokens, written with 29 or more nines. */
  lemma TooManyTokens(n: nat)
    requires n >= 29
    ensures MissesFloor(Decimal(false, Nines(n), 0))
    ensures ToWei(Decimal(false, Nines(n), 0)) != Times10(Nines(n), WEI_DIGITS)
  {
    hide ToWei;
    WholeTokens(n, PRECISION, WEI_DIGITS);
    NinesValue(n);
    WeiIsFloorIff(Decimal(false, Nines(n), 0), 0);
  }

  lemma WholeTokens(n: nat, k: nat, w: nat)
    requires n > k == PRECISION && w == WEI_DIGITS
    ensures MissesFloor(Decimal(false, Nines(n), 0))
  {
    NinesValue(n);
    DigitsOfScaled(Nines(n), w);
    ZerosOfScaled(Nines(n), w, n - k);
  }

  lemma {:induction false} ZerosOfScaled(c: nat, w: nat, n: nat)
    ensures EndsInZeros(Times10(c, w), w + n) <==> EndsInZeros(c, n)
    decreases w
  {
    if w > 0 {
      LastFactor(c, w - 1);
      ZerosOfScaled(c, w - 1, n);
    }
  }

  lemma NinesAmount(n: nat, k: nat, w: nat)
    requires n > k == PRECISION && w == WEI_DIGITS
    ensures NumDigits(Nines(n)) == n
    ensures ToWei(Decimal(false, Nines(n), -(n as int))) == Times10(1, w)
    ensures Over10(Times10(Nines(n), w), n) == Times10(1, w) - 1
  {
    hide HalfEven;
    var p := Times10(Nines(n), w);
    NinesValue(n);
    NinesSplit(0, n);
    DigitsOfScaled(Nines(n), w);
    NinesRoundUp(k, n - k, w);
    Times10Add(1, k, n - k + w);
    assert RoundedCoefficient(p) == Times10(1, n + w);
    Times10Add(1, w, n);
    Cancel(Times10(1, w), 0, n);
    Cancel(Nines(n), n - w, w);
    NinesSplit(w, n - w);
    NinesValue(w);
  }
}
