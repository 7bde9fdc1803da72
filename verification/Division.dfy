/** Facts about the quotient and the remainder of integers. */
module Division {

  lemma MulBelow(q: int, n: int)
    requires n > 0
    ensures if q < 0 then q * n <= -n else q <= q * n
  {
    if q < 0 {
      assert (-q - 1) * n >= 0;
    } else {
      assert q * (n - 1) >= 0;
    }
  }

  /** The only multiple of n that lies in the last n numbers up to x. */
  lemma DivIff(x: int, n: int, q: int)
    requires n > 0
    ensures q == x / n <==> q * n <= x < q * n + n
  {
    var d := x / n - q;
    assert x == q * n + d * n + x % n;
    MulBelow(d, n);
    MulBelow(d - 1, n);
  }

  lemma DivBelow(x: int, n: int)
    requires 0 <= x && n > 0
    ensures 0 <= x / n <= x
  {
    MulBelow(x / n, n);
    assert x == x / n * n + x % n;
  }

  lemma ModIs(q: int, n: int, r: int)
    requires 0 <= r < n
    ensures (q * n + r) % n == r
  {
    DivIff(q * n + r, n, q);
  }
}
