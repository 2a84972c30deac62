/** Python 3's built-in `round` on a number, as `int(round(x))` uses it:
    the nearest integer, with ties going to the even neighbour. */
module PyRound {

  /** `int(round(x))`. The two ensures pin the result down uniquely. */
  function Round(x: real): (r: int)
    ensures r as real - 0.5 <= x <= r as real + 0.5
    ensures (x == r as real - 0.5 || x == r as real + 0.5) ==> r % 2 == 0
  {
    var f := x.Floor;
    var d := x - f as real;
    if d < 0.5 then f
    else if d > 0.5 then f + 1
    else if f % 2 == 0 then f else f + 1
  }

  /** Any integer within 1/2 of `x` that is even on a tie is `Round(x)`. */
  lemma RoundUnique(x: real, r: int)
    requires r as real - 0.5 <= x <= r as real + 0.5
    requires (x == r as real - 0.5 || x == r as real + 0.5) ==> r % 2 == 0
    ensures Round(x) == r
  {
  }

  lemma RoundOfInt(n: int)
    ensures Round(n as real) == n
  {
    RoundUnique(n as real, n);
  }

  lemma RoundMonotone(x: real, y: real)
    requires x <= y
    ensures Round(x) <= Round(y)
  {
  }

  /** Rounding keeps a value between two integers between them. */
  lemma RoundBetween(lo: int, hi: int, x: real)
    requires lo as real <= x <= hi as real
    ensures lo <= Round(x) <= hi
  {
    RoundOfInt(lo);
    RoundOfInt(hi);
    RoundMonotone(lo as real, x);
    RoundMonotone(x, hi as real);
  }

  /** Shifting by an even integer commutes with rounding. */
  lemma RoundShiftEven(x: real, k: int)
    requires k % 2 == 0
    ensures Round(x + k as real) == Round(x) + k
  {
    var r := Round(x);
    assert (r + k) % 2 == 0 <==> r % 2 == 0;
    RoundUnique(x + k as real, r + k);
  }

  /** Shifting by any integer moves the rounded value by that integer, give or take one. */
  lemma RoundShiftInt(x: real, k: int)
    ensures k - 1 <= Round(x + k as real) - Round(x) <= k + 1
  {
  }
}
