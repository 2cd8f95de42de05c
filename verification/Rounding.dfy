/** Python's round() on exact numbers: to the nearest, ties to even. */
module Rounding {

  function Round(x: real): int {
    var f := x.Floor;
    var rest := x - f as real;
    if rest < 0.5 then f
    else if rest > 0.5 then f + 1
    else if f % 2 == 0 then f else f + 1
  }

  // Round is within one half, and even at the midpoints: this determines it.
  lemma RoundNearest(x: real, n: int)
    ensures Round(x) == n <==>
              || n as real - 0.5 < x < n as real + 0.5
              || ((x == n as real - 0.5 || x == n as real + 0.5) && n % 2 == 0)
  {
    var f := x.Floor;
    if n as real - 0.5 <= x <= n as real + 0.5 {
      assert f == n || f == n - 1;
    }
  }

  lemma RoundMonotone(x: real, y: real)
    requires x <= y
    ensures Round(x) <= Round(y)
  {
    assert x.Floor <= y.Floor;
    if x.Floor < y.Floor {
      assert x.Floor + 1 <= y.Floor;
    }
  }

  lemma RoundInteger(n: int)
    ensures Round(n as real) == n
  {
    RoundNearest(n as real, n);
  }

  // Reflecting about an even number.
  lemma RoundReflect(n: int, x: real)
    requires n % 2 == 0
    ensures Round(n as real - x) == n - Round(x)
  {
    var r := Round(x);
    RoundNearest(x, r);
    RoundNearest(n as real - x, n - r);
  }

  // round(x, 4)
  function Round4(x: real): real {
    Round(x * 10000.0) as real / 10000.0
  }

  lemma Round4Monotone(x: real, y: real)
    requires x <= y
    ensures Round4(x) <= Round4(y)
  {
    RoundMonotone(x * 10000.0, y * 10000.0);
  }

  // Numbers with at most four decimals are kept.
  lemma Round4Exact(n: int)
    ensures Round4(n as real / 10000.0) == n as real / 10000.0
  {
    assert n as real / 10000.0 * 10000.0 == n as real;
    RoundInteger(n);
  }

  lemma Round4Complement(x: real)
    ensures Round4(x) + Round4(1.0 - x) == 1.0
  {
    var y := x * 10000.0;
    assert (1.0 - x) * 10000.0 == 10000 as real - y;
    RoundReflect(10000, y);
  }

  // ---------- any number of digits ----------

  // x times 10^n, and x divided by 10^n.
  function Up(x: real, n: nat): real
    decreases n
  {
    if n == 0 then x else Up(x * 10.0, n - 1)
  }

  function Down(x: real, n: nat): real
    decreases n
  {
    if n == 0 then x else Down(x / 10.0, n - 1)
  }

  // round(x, digits): a negative number of digits rounds to tens, hundreds, ...
  function RoundDigits(x: real, digits: int): real {
    if digits >= 0 then Down(Round(Up(x, digits)) as real, digits)
    else Up(Round(Down(x, -digits)) as real, -digits)
  }

  // Times a power of ten: the nearest integer to what the number was times it.
  lemma RoundDigitsIs(x: real, digits: int)
    ensures digits >= 0 ==> Up(RoundDigits(x, digits), digits) == Round(Up(x, digits)) as real
    ensures digits <= 0 ==> Down(RoundDigits(x, digits), -digits) == Round(Down(x, -digits)) as real
  {
    if digits >= 0 {
      UpDown(Round(Up(x, digits)) as real, digits);
    } else {
      UpDown(Round(Down(x, -digits)) as real, -digits);
    }
  }

  lemma {:induction false} UpLinear(x: real, y: real, n: nat)
    ensures Up(x + y, n) == Up(x, n) + Up(y, n) && Up(x - y, n) == Up(x, n) - Up(y, n)
    ensures x <= y ==> Up(x, n) <= Up(y, n)
    decreases n
  {
    if n > 0 {
      UpLinear(x * 10.0, y * 10.0, n - 1);
    }
  }

  lemma {:induction false} DownLinear(x: real, y: real, n: nat)
    ensures Down(x + y, n) == Down(x, n) + Down(y, n) && Down(x - y, n) == Down(x, n) - Down(y, n)
    ensures x <= y ==> Down(x, n) <= Down(y, n)
    decreases n
  {
    if n > 0 {
      DownLinear(x / 10.0, y / 10.0, n - 1);
    }
  }

  lemma {:induction false} UpDown(x: real, n: nat)
    ensures Up(Down(x, n), n) == x && Down(Up(x, n), n) == x
    decreases n
  {
    if n > 0 {
      UpLast(Down(x, n), n - 1);
      DownLast(x, n - 1);
      UpDown(x, n - 1);
      DownLast(Up(x, n), n - 1);
      UpLast(x, n - 1);
    }
  }

  // One more factor, taken at the end.
  lemma {:induction false} UpLast(x: real, n: nat)
    ensures Up(x, n + 1) == Up(x, n) * 10.0
    decreases n
  {
    if n > 0 {
      UpLast(x * 10.0, n - 1);
    }
  }

  lemma {:induction false} DownLast(x: real, n: nat)
    ensures Down(x, n + 1) == Down(x, n) / 10.0
    decreases n
  {
    if n > 0 {
      DownLast(x / 10.0, n - 1);
    }
  }

  // An integer stays an integer, and becomes a multiple of ten after the first factor.
  lemma {:induction false} UpInteger(k: int, n: nat) returns (m: int)
    ensures Up(k as real, n) == m as real
    ensures n > 0 ==> m % 10 == 0
    decreases n
  {
    if n == 0 {
      m := k;
    } else {
      var t := UpInteger(k, n - 1);
      UpLast(k as real, n - 1);
      m := 10 * t;
    }
  }

  lemma {:induction false} ZeroStays(n: nat)
    ensures Up(0.0, n) == 0.0 && Down(0.0, n) == 0.0
  {
    if n > 0 {
      ZeroStays(n - 1);
    }
  }
}
