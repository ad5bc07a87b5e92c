/** Floor division by a positive divisor. */
module Division {
  lemma DivSplits(n: int, w: int)
    requires w > 0
    ensures n == (n / w) * w + n % w && (n / w) * w <= n < (n / w + 1) * w
  {
    assert (n / w + 1) * w == (n / w) * w + w;
  }

  lemma MultipleOutgrows(d: int, w: int)
    requires d >= 1 && w > 0
    ensures d * w >= w && (-d) * w <= -w
  {
    assert d * w == (d - 1) * w + w;
    assert (-d) * w == -(d * w);
  }

  lemma SmallMultiple(d: int, w: int)
    requires w > 0 && -w < d * w < w
    ensures d == 0
  {
    if d >= 1 {
      MultipleOutgrows(d, w);
    } else if d <= -1 {
      MultipleOutgrows(-d, w);
    }
  }

  /** Quotients are unique. */
  lemma DivUnique(n: int, q: int, r: int, w: int)
    requires w > 0 && n == q * w + r && 0 <= r < w
    ensures n / w == q
  {
    assert n == (n / w) * w + n % w;
    assert (n / w - q) * w == r - n % w;
    SmallMultiple(n / w - q, w);
  }

  lemma MultiplesGrow(p: int, q: int, w: int)
    requires w > 0 && p <= q
    ensures p * w <= q * w
  {
    assert q * w == p * w + (q - p) * w;
  }

  lemma DivMonotone(a: int, b: int, w: int)
    requires w > 0 && a <= b
    ensures a / w <= b / w
  {
    DivSplits(a, w);
    DivSplits(b, w);
    if b / w + 1 <= a / w {
      MultiplesGrow(b / w + 1, a / w, w);
    }
  }

  lemma DivShift(a: int, k: int, w: int)
    requires w > 0
    ensures (a + k * w) / w == a / w + k
  {
    DivSplits(a, w);
    assert (a / w + k) * w == (a / w) * w + k * w;
    DivUnique(a + k * w, a / w + k, a % w, w);
  }

  lemma NextMultiple(n: int, m: int)
    ensures n * m == (n - 1) * m + m
  {
  }
}
