/** Division by a positive interval. */
module Arithmetic {
  lemma MulMonotone(i: int, a: int, b: int)
    requires i >= 0 && a <= b
    ensures i * a <= i * b && a * i <= b * i
  {
    assert i * (b - a) >= 0;
  }

  lemma DivBounds(x: int, i: int)
    requires i > 0
    ensures (x / i) * i <= x < (x / i) * i + i
  {
    assert x == i * (x / i) + x % i;
  }

  lemma DivUnique(x: int, i: int, q: int)
    requires i > 0 && q * i <= x < q * i + i
    ensures x / i == q
  {
    DivBounds(x, i);
    var d := x / i;
    if d < q {
      MulMonotone(i, d + 1, q);
      assert false;
    } else if d > q {
      MulMonotone(i, q + 1, d);
      assert false;
    }
  }

  lemma DivShift(x: int, i: int, k: int)
    requires i > 0
    ensures (x + k * i) / i == x / i + k
  {
    DivBounds(x, i);
    assert (x / i + k) * i == (x / i) * i + k * i;
    DivUnique(x + k * i, i, x / i + k);
  }

  lemma DivMonotone(x: int, y: int, i: int)
    requires i > 0 && x <= y
    ensures x / i <= y / i
  {
    DivBounds(x, i);
    DivBounds(y, i);
    if x / i > y / i {
      MulMonotone(i, y / i + 1, x / i);
      assert false;
    }
  }
}
