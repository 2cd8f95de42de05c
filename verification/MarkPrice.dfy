/** Mark prices of a market, derived from its order book and last sale. */
module MarkPrice {
  import opened Text
  import opened Rounding

  // The best ask and bid, where the book has one, and the last sale.
  datatype Quotes = Quotes(ask: Option<real>, bid: Option<real>, lastSale: Option<real>)

  // decimalPrecision or 2
  function Digits(precision: Option<int>): int {
    match precision
    case None => 2
    case Some(d) => if d == 0 then 2 else d
  }

  function RawYes(q: Quotes): real {
    if q.ask.Some? && q.bid.Some? then (q.ask.value + q.bid.value) / 2.0
    else if q.lastSale.Some? then q.lastSale.value
    else if q.ask.Some? then q.ask.value
    else if q.bid.Some? then q.bid.value
    else 0.5
  }

  function YesMark(q: Quotes, digits: int): real {
    RoundDigits(RawYes(q), digits)
  }

  function NoMark(q: Quotes, digits: int): real {
    RoundDigits(1.0 - YesMark(q, digits), digits)
  }

  // The positions view has its own rule: a missing side counts as one half.
  function PositionRawYes(q: Quotes): real {
    var ask := if q.ask.Some? then q.ask.value else 0.5;
    var bid := if q.bid.Some? then q.bid.value else 0.5;
    (ask + bid) / 2.0
  }

  function PositionYesMark(q: Quotes, digits: int): real {
    RoundDigits(PositionRawYes(q), digits)
  }

  // The mark of this price: the nearest one with so many digits, the even one of two.
  predicate MarkOf(mark: real, price: real, digits: int) {
    if digits >= 0 then Up(mark, digits) == Round(Up(price, digits)) as real
    else Down(mark, -digits) == Round(Down(price, -digits)) as real
  }

  /** The YES mark is the rounded middle of a quoted market; without both sides the last sale comes
      first, then the one side there is, then one half. The NO mark is the rounded rest. */
  lemma MarksMean(q: Quotes, digits: int)
    ensures q.ask.Some? && q.bid.Some? ==>
              forall mid :: mid - q.bid.value == q.ask.value - mid ==> MarkOf(YesMark(q, digits), mid, digits)
    ensures (q.ask == None || q.bid == None) && q.lastSale.Some? ==> MarkOf(YesMark(q, digits), q.lastSale.value, digits)
    ensures q.lastSale == None && q.ask.Some? && q.bid == None ==> MarkOf(YesMark(q, digits), q.ask.value, digits)
    ensures q.lastSale == None && q.bid.Some? && q.ask == None ==> MarkOf(YesMark(q, digits), q.bid.value, digits)
    ensures q.lastSale == None && q.bid == None && q.ask == None ==> MarkOf(YesMark(q, digits), 0.5, digits)
    ensures MarkOf(NoMark(q, digits), 1.0 - YesMark(q, digits), digits)
  {
    hide RoundDigits, Up, Down, Round;
    RoundDigitsIs(RawYes(q), digits);
    RoundDigitsIs(1.0 - YesMark(q, digits), digits);
  }

  predicate InUnit(x: real) { 0.0 <= x <= 1.0 }

  predicate QuotesInUnit(q: Quotes) {
    && (q.ask.Some? ==> InUnit(q.ask.value))
    && (q.bid.Some? ==> InUnit(q.bid.value))
    && (q.lastSale.Some? ==> InUnit(q.lastSale.value))
  }

  /** The two marks add up to one if and only if the precision is not negative. */
  lemma MarksSumToOneIff(q: Quotes, digits: int)
    ensures YesMark(q, digits) + NoMark(q, digits) == 1.0 <==> digits >= 0
  {
    if digits >= 0 {
      var k := Round(Up(RawYes(q), digits)) as real;
      var yes := Down(k, digits);
      var one := UpInteger(1, digits);
      UpLinear(1.0, yes, digits);
      UpDown(k, digits);
      RoundInteger(one - Round(Up(RawYes(q), digits)));
      DownLinear(one as real, k, digits);
      UpDown(1.0, digits);
    } else {
      var k := Round(Down(RawYes(q), -digits));
      var m := Round(Down(1.0 - YesMark(q, digits), -digits));
      UpLinear(k as real, m as real, -digits);
      assert k as real + m as real == (k + m) as real;
      var t := UpInteger(k + m, -digits);
      assert t != 1;
    }
  }

  lemma RoundKeepsUnit(x: real, digits: int)
    requires InUnit(x)
    ensures InUnit(RoundDigits(x, digits))
  {
    if digits >= 0 {
      var one := UpInteger(1, digits);
      ZeroStays(digits);
      UpLinear(0.0, x, digits);
      UpLinear(x, 1.0, digits);
      RoundMonotone(0 as real, Up(x, digits));
      RoundMonotone(Up(x, digits), one as real);
      RoundInteger(0);
      RoundInteger(one);
      var k := Round(Up(x, digits)) as real;
      DownLinear(0.0, k, digits);
      DownLinear(k, one as real, digits);
      UpDown(1.0, digits);
    } else {
      var n := -digits;
      ZeroStays(n);
      DownLinear(0.0, x, n);
      DownLinear(x, 1.0, n);
      DownLast(1.0, n - 1);
      DownShrinks(n - 1);
      RoundNearest(Down(x, n), 0);
    }
  }

  lemma {:induction false} DownShrinks(n: nat)
    ensures 0.0 <= Down(1.0, n) <= 1.0
  {
    if n > 0 {
      DownShrinks(n - 1);
      DownLast(1.0, n - 1);
    }
  }

  /** Quotes between 0 and 1 give marks between 0 and 1, whatever the precision. */
  lemma MarksInUnit(q: Quotes, digits: int)
    requires QuotesInUnit(q)
    ensures InUnit(YesMark(q, digits)) && InUnit(NoMark(q, digits))
  {
    assert InUnit(RawYes(q));
    RoundKeepsUnit(RawYes(q), digits);
    RoundKeepsUnit(1.0 - YesMark(q, digits), digits);
  }

  // ---------- the two rules ----------

  // Both sides are quoted; or the last sale is where the positions view puts a half-quoted book; or
  // there is no sale and what is quoted, if anything, is one half.
  predicate SamePrice(q: Quotes) {
    if q.ask.Some? && q.bid.Some? then true
    else if q.lastSale.Some? then
      if q.ask.Some? then q.lastSale.value == q.ask.value / 2.0 + 0.25
      else if q.bid.Some? then q.lastSale.value == q.bid.value / 2.0 + 0.25
      else q.lastSale.value == 0.5
    else (q.ask.Some? ==> q.ask.value == 0.5) && (q.bid.Some? ==> q.bid.value == 0.5)
  }

  lemma {:induction false} UpGrows(x: real, n: nat)
    requires x > 0.0
    ensures Up(x, n) >= Multiple(x, n)
  {
    if n > 0 {
      UpGrows(x, n - 1);
      UpLast(x, n - 1);
      UpKeeps(x, n - 1);
    }
  }

  lemma {:induction false} UpKeeps(x: real, n: nat)
    requires x > 0.0
    ensures Up(x, n) >= x
  {
    if n > 0 {
      UpKeeps(x, n - 1);
      UpLast(x, n - 1);
    }
  }

  // n times x.
  function Multiple(x: real, n: nat): real {
    if n == 0 then 0.0 else Multiple(x, n - 1) + x
  }

  lemma {:induction false} MultipleIs(x: real, n: nat)
    ensures Multiple(x, n) == n as real * x
  {
    if n > 0 {
      MultipleIs(x, n - 1);
      assert n as real * x == (n - 1) as real * x + x;
    }
  }

  // Any positive number outgrows one when it is shifted far enough.
  lemma Archimedes(x: real) returns (n: nat)
    requires x > 0.0
    ensures Up(x, n) > 1.0
  {
    n := (1.0 / x).Floor + 1;
    UpGrows(x, n);
    MultipleIs(x, n);
    Scaled(n as real, x, 1.0 / x);
  }

  lemma Scaled(k: real, x: real, r: real)
    requires x > 0.0 && r * x == 1.0 && k > r
    ensures k * x > 1.0
  {
    var kx, rx := k * x, r * x;
    Product(k - r, x);
    assert (k - r) * x == kx - rx;
    assert kx > rx;
  }

  lemma Product(a: real, b: real)
    requires a > 0.0 && b > 0.0
    ensures a * b > 0.0
  {
  }

  // Different numbers are told apart by some number of digits.
  lemma RoundedApart(x: real, y: real) returns (digits: nat)
    requires x > y
    ensures RoundDigits(x, digits) != RoundDigits(y, digits)
  {
    digits := Archimedes(x - y);
    UpLinear(x, y, digits);
    var k, m := Round(Up(x, digits)), Round(Up(y, digits));
    RoundNearest(Up(x, digits), k);
    RoundNearest(Up(y, digits), m);
    UpDown(k as real, digits);
    UpDown(m as real, digits);
  }

  /** The market view and the positions view price a market alike at every precision if and only if
      their unrounded prices are the same: when both sides are quoted, and otherwise only for
      particular numbers. */
  lemma MarkRulesAgreeIff(q: Quotes)
    ensures (forall digits :: PositionYesMark(q, digits) == YesMark(q, digits)) <==> SamePrice(q)
  {
    var x, y := RawYes(q), PositionRawYes(q);
    assert x == y <==> SamePrice(q);
    if x > y {
      var digits := RoundedApart(x, y);
      assert PositionYesMark(q, digits) != YesMark(q, digits);
    } else if y > x {
      var digits := RoundedApart(y, x);
      assert PositionYesMark(q, digits) != YesMark(q, digits);
    }
  }
}
