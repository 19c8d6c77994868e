/** Division, rounding and multiples, as the modules about step grids use them. Dafny divides
    so that the remainder is never negative; Go and ClickHouse divide toward zero. */
module Arithmetic {

  const MAX_INT64 := 0x7FFF_FFFF_FFFF_FFFF
  const MIN_INT64 := -0x8000_0000_0000_0000

  predicate Int64(x: int) { MIN_INT64 <= x <= MAX_INT64 }

  lemma MulMonotone(i: int, j: int, b: int)
    requires i <= j && b > 0
    ensures i * b <= j * b
  {
  }

  /** Ceiling of a / b. */
  function CeilDiv(a: int, b: int): (r: int)
    requires b > 0
  {
    if a % b == 0 then a / b else a / b + 1
  }

  /** The ceiling is a Galois connection with multiplication: this is what makes the range
      bounds below mean "at or after the sample" and "before its span ends". */
  lemma CeilDivBounds(a: int, b: int, i: int)
    requires b > 0
    ensures CeilDiv(a, b) <= i <==> a <= i * b
  {
    var r := CeilDiv(a, b);
    assert a == (a / b) * b + a % b;
    assert (r - 1) * b < a <= r * b by {
      if a % b == 0 {
        assert (r - 1) * b == r * b - b;
      } else {
        assert r * b == (a / b) * b + b;
        assert (r - 1) * b == (a / b) * b;
      }
    }
    if r <= i {
      MulMonotone(r, i, b);
    } else {
      MulMonotone(i, r - 1, b);
    }
  }

  /** Division rounding toward zero, as intDiv and Go's operators do. */
  function TruncDiv(a: int, b: int): int
    requires b > 0
  {
    if a >= 0 then a / b else -(-a / b)
  }

  function TruncRemainder(a: int, b: int): int
    requires b > 0
  {
    a - TruncDiv(a, b) * b
  }

  lemma Compare(i: int, j: int, step: int)
    requires step > 0
    ensures i < j <==> i * step + step <= j * step
    ensures i <= j <==> i * step <= j * step
  {
    assert (i + 1) * step == i * step + step && (j + 1) * step == j * step + step;
    if i < j {
      MulMonotone(i + 1, j, step);
    } else {
      MulMonotone(j, i, step);
    }
  }

  lemma Multiple(i: int, step: int)
    requires step > 0
    ensures (i * step) % step == 0 && (i * step) / step == i
  {
    var q := (i * step) / step;
    assert i * step == q * step + (i * step) % step;
    Compare(q, i, step);
    Compare(i, q, step);
  }

  lemma QuotientIs(x: int, i: int, step: int)
    requires step > 0
    ensures x == i * step <==> x % step == 0 && x / step == i
  {
    Multiple(i, step);
    assert x == (x / step) * step + x % step;
  }

  lemma NegatedRemainder(a: int, step: int)
    requires step > 0
    ensures a % step == 0 <==> -a % step == 0
  {
    QuotientIs(a, a / step, step);
    QuotientIs(-a, -a / step, step);
    if a % step == 0 {
      assert -a == (-(a / step)) * step;
      Multiple(-(a / step), step);
    }
    if -a % step == 0 {
      assert a == (-(-a / step)) * step;
      Multiple(-(-a / step), step);
    }
  }

  lemma ShiftedRemainder(a: int, i: int, step: int)
    requires step > 0
    ensures (a + i * step) % step == a % step
  {
    var b := a + i * step;
    assert a == (a / step) * step + a % step && b == (b / step) * step + b % step;
    var d := b / step - a / step - i;
    assert a % step - b % step == d * step by {
      assert (b / step - a / step - i) * step == (b / step) * step - (a / step) * step - i * step;
    }
    Compare(0, d, step);
    Compare(d, 0, step);
  }

  lemma SumOfMultiples(x: int, y: int, step: int)
    requires step > 0 && y % step == 0
    ensures (x + y) % step == x % step
  {
    QuotientIs(y, y / step, step);
    ShiftedRemainder(x, y / step, step);
  }

  lemma RemainderIs(a: int, n: int, q: int, r: int)
    requires 0 <= r < n && a == q * n + r
    ensures a / n == q && a % n == r
  {
    assert a == (a / n) * n + a % n;
    Compare(q, a / n, n);
    Compare(a / n, q, n);
  }

  /** Dividing toward zero and then stepping down for a negative remainder is rounding down. */
  lemma FloorOfTrunc(a: int, n: int)
    requires n > 0
    ensures a / n == TruncDiv(a, n) - if TruncRemainder(a, n) < 0 then 1 else 0
    ensures -n < TruncRemainder(a, n) < n
  {
    var q := TruncDiv(a, n);
    if a >= 0 {
      assert a == (a / n) * n + a % n;
    } else {
      assert -a == (-a / n) * n + -a % n;
      assert q * n == -((-a / n) * n);
      if TruncRemainder(a, n) < 0 {
        assert (q - 1) * n == q * n - n;
        RemainderIs(a, n, q - 1, TruncRemainder(a, n) + n);
      } else {
        RemainderIs(a, n, q, 0);
      }
    }
  }
}
