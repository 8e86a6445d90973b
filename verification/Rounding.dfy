/** Rounding to a fixed number of decimals: `round` and the fixed-point format both take ties to even. */
module Rounding {

  function RoundHalfEven(y: real): int {
    var f := y - y.Floor as real;
    if f < 0.5 || (f == 0.5 && y.Floor % 2 == 0) then y.Floor else y.Floor + 1
  }

  function Round3(x: real): real {
    RoundHalfEven(x * 1000.0) as real / 1000.0
  }

  function Round4(x: real): real {
    RoundHalfEven(x * 10000.0) as real / 10000.0
  }

  function Round6(x: real): real {
    RoundHalfEven(x * 1000000.0) as real / 1000000.0
  }

  /** The nearest whole number, and of two equally near the even one. */
  lemma NearestOrEvenIff(y: real, k: int)
    ensures RoundHalfEven(y) == k <==>
      -0.5 < y - k as real < 0.5 || ((y - k as real == 0.5 || y - k as real == -0.5) && k % 2 == 0)
  {
    var n, f := y.Floor, y - y.Floor as real;
    assert 0.0 <= f < 1.0;
    if k != n && k != n + 1 { assert k as real <= n as real - 1.0 || k as real >= n as real + 2.0; }
  }

  /** Rounding moves a number by at most a half, and past no whole number. */
  lemma HalfEvenFacts(y: real, n: int)
    ensures -0.5 <= RoundHalfEven(y) as real - y <= 0.5
    ensures y <= n as real ==> RoundHalfEven(y) <= n
    ensures y >= n as real ==> RoundHalfEven(y) >= n
  {
    assert y < (y.Floor + 1) as real;
  }

  lemma Round3Grows(x: real, y: real)
    requires x <= y
    ensures Round3(x) <= Round3(y)
  {
    HalfEvenGrows(x * 1000.0, y * 1000.0);
    hide RoundHalfEven;
  }

  lemma HalfEvenGrows(x: real, y: real)
    requires x <= y
    ensures RoundHalfEven(x) <= RoundHalfEven(y)
  {
    NearestOrEvenIff(x, RoundHalfEven(x));
    NearestOrEvenIff(y, RoundHalfEven(y));
    hide RoundHalfEven;
  }

  lemma Round3Twice(x: real)
    ensures Round3(Round3(x)) == Round3(x)
  {
    var k := RoundHalfEven(x * 1000.0);
    assert Round3(x) * 1000.0 == k as real;
    assert (k as real).Floor == k;
  }

  /** Four decimals are within half a unit of the last place, and do not leave [0, 1]. */
  lemma Round4Near(x: real)
    ensures -0.00005 <= Round4(x) - x <= 0.00005
    ensures 0.0 <= x <= 1.0 ==> 0.0 <= Round4(x) <= 1.0
  {
    HalfEvenFacts(x * 10000.0, 0);
    HalfEvenFacts(x * 10000.0, 10000);
    hide RoundHalfEven;
  }

  /** The same for six decimals. */
  lemma Round6Near(x: real)
    ensures -0.0000005 <= Round6(x) - x <= 0.0000005
    ensures 0.0 <= x <= 1.0 ==> 0.0 <= Round6(x) <= 1.0
  {
    HalfEvenFacts(x * 1000000.0, 0);
    HalfEvenFacts(x * 1000000.0, 1000000);
    hide RoundHalfEven;
  }
}
