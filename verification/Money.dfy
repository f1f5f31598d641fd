/**
 Rounding of amounts to two decimals: half to even in checkout, half up in quote conversion.
 Amounts are exact reals; the 28-digit decimal context is not modelled.
 */
module Money {
  import opened Std

  /** Nearest integer, ties to the even neighbour. */
  function RoundHalfEven(x: real): int {
    var low := x.Floor;
    var rest := x - low as real;
    if rest < 0.5 then low
    else if rest > 0.5 then low + 1
    else if low % 2 == 0 then low
    else low + 1
  }

  /** Nearest integer, ties away from zero. */
  function RoundHalfUp(x: real): int {
    if x >= 0.0 then (x + 0.5).Floor else -((0.5 - x).Floor)
  }

  function QuantizeHalfEven(x: real): real { RoundHalfEven(x * 100.0) as real / 100.0 }

  function QuantizeHalfUp(x: real): real { RoundHalfUp(x * 100.0) as real / 100.0 }

  /** Price times quantity. */
  function Times(price: real, quantity: int): real { price * quantity as real }

  /** An amount divided over that many. */
  function Share(amount: real, count: int): real
    requires count != 0
  {
    amount / count as real
  }

  function Gst(subtotal: real, rate: real): real { QuantizeHalfEven(subtotal * rate) }

  function Total(subtotal: real, rate: real): real {
    QuantizeHalfEven(subtotal + Gst(subtotal, rate))
  }

  function Distance(x: real, y: real): real {
    if x <= y then y - x else x - y
  }

  /** A whole number of hundredths. */
  ghost predicate TwoDecimals(x: real) {
    x * 100.0 == (x * 100.0).Floor as real
  }

  /** Half-even rounding finds a nearest integer, and of two equally near ones the even one. */
  lemma {:induction false} HalfEvenIsNearest(x: real, n: int)
    ensures Distance(x, RoundHalfEven(x) as real) <= Distance(x, n as real)
    ensures n != RoundHalfEven(x) && Distance(x, n as real) == Distance(x, RoundHalfEven(x) as real) ==>
      RoundHalfEven(x) % 2 == 0 && n % 2 == 1
  {
    var low := x.Floor;
    assert low as real <= x < low as real + 1.0;
    if n < low {
      assert n as real <= low as real - 1.0;
    } else if n > low + 1 {
      assert n as real >= low as real + 2.0;
    }
  }

  /** Half-up rounding finds a nearest integer, and of two equally near ones the one further from zero. */
  lemma {:induction false} HalfUpIsNearest(x: real, n: int)
    ensures Distance(x, RoundHalfUp(x) as real) <= Distance(x, n as real)
    ensures n != RoundHalfUp(x) && Distance(x, n as real) == Distance(x, RoundHalfUp(x) as real) ==>
      Distance(0.0, n as real) < Distance(0.0, RoundHalfUp(x) as real)
  {
    var up := if x >= 0.0 then (x + 0.5).Floor else (0.5 - x).Floor;
    if x >= 0.0 {
      assert up as real <= x + 0.5 < up as real + 1.0;
    } else {
      assert up as real <= 0.5 - x < up as real + 1.0;
    }
    var r := RoundHalfUp(x);
    if n < r {
      assert n as real <= r as real - 1.0;
    } else if n > r {
      assert n as real >= r as real + 1.0;
    }
  }

  /** Either rounding moves an amount by at most half a hundredth, onto two decimals, and no further if it is there. */
  lemma {:induction false} QuantizeWithinHalf(x: real)
    ensures Distance(x, QuantizeHalfEven(x)) <= 0.005 && TwoDecimals(QuantizeHalfEven(x))
    ensures Distance(x, QuantizeHalfUp(x)) <= 0.005 && TwoDecimals(QuantizeHalfUp(x))
    ensures TwoDecimals(x) ==> QuantizeHalfEven(x) == x && QuantizeHalfUp(x) == x
  {
    var n := (x * 100.0).Floor;
    HalfEvenIsNearest(x * 100.0, n);
    HalfEvenIsNearest(x * 100.0, n + 1);
    HalfUpIsNearest(x * 100.0, n);
    HalfUpIsNearest(x * 100.0, n + 1);
    assert QuantizeHalfEven(x) * 100.0 == RoundHalfEven(x * 100.0) as real;
    assert QuantizeHalfUp(x) * 100.0 == RoundHalfUp(x * 100.0) as real;
    if TwoDecimals(x) {
      var k := (x * 100.0).Floor;
      HalfUpIsNearest(x * 100.0, k);
      HalfEvenIsNearest(x * 100.0, k);
    }
  }

  lemma {:induction false} TwoDecimalsAdd(x: real, y: real)
    requires TwoDecimals(x) && TwoDecimals(y)
    ensures TwoDecimals(x + y)
  {
    var m, n := (x * 100.0).Floor, (y * 100.0).Floor;
    assert (x + y) * 100.0 == (m + n) as real;
  }

  lemma {:induction false} Reorder(x: real, k: real, scale: real)
    ensures (x * k) * scale == (x * scale) * k
  {
  }

  lemma {:induction false} TwoDecimalsTimes(x: real, k: int)
    requires TwoDecimals(x)
    ensures TwoDecimals(Times(x, k))
  {
    var m := (x * 100.0).Floor;
    assert Times(x, k) * 100.0 == (x * 100.0) * (k as real) by {
      Reorder(x, k as real, 100.0);
    }
    assert x * 100.0 == m as real;
    assert (m as real) * (k as real) == (m * k) as real;
    assert Times(x, k) * 100.0 == (m * k) as real;
  }

  /** Tax is within half a hundredth of rate times subtotal, and the total of a two-decimal subtotal is exact. */
  lemma {:induction false} TotalIsSubtotalPlusTax(subtotal: real, rate: real)
    ensures Distance(Gst(subtotal, rate), subtotal * rate) <= 0.005
    ensures Distance(Total(subtotal, rate), subtotal + Gst(subtotal, rate)) <= 0.005
    ensures TwoDecimals(subtotal) ==> Total(subtotal, rate) == subtotal + Gst(subtotal, rate)
  {
    QuantizeWithinHalf(subtotal * rate);
    QuantizeWithinHalf(subtotal + Gst(subtotal, rate));
    if TwoDecimals(subtotal) {
      TwoDecimalsAdd(subtotal, Gst(subtotal, rate));
    }
  }
}
