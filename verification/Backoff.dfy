/** The exponential backoff of the retry queue, in Go's 64-bit arithmetic. */
module Backoff {
  const TWO_63: int := 0x8000_0000_0000_0000
  const TWO_64: int := 0x1_0000_0000_0000_0000

  function Pow2(n: nat): (p: nat)
    ensures p >= 1
  {
    if n == 0 then 1 else 2 * Pow2(n - 1)
  }

  /** The int64 that a machine keeps of an unbounded result. */
  function Wrap64(x: int): (r: int)
    ensures -TWO_63 <= r < TWO_63
    ensures (x - r) % TWO_64 == 0
  {
    (x + TWO_63) % TWO_64 - TWO_63
  }

  /** `1 << n` on an int64: every bit leaves the word from n = 64 on. */
  function ShiftOne(n: nat): int {
    if n < 64 then Wrap64(Pow2(n)) else 0
  }

  /** The delay before the attempt-th retry. */
  function Delay(base: int, attempts: int): int
    requires attempts >= 1
  {
    Wrap64(base * ShiftOne(attempts - 1))
  }

  /** What the first `attempts` delays add up to when none of them overflows. */
  function TotalDelay(base: int, attempts: nat): int {
    base * (Pow2(attempts) - 1)
  }

  lemma {:induction false} Pow2Adds(m: nat, n: nat)
    ensures Pow2(m + n) == Pow2(m) * Pow2(n)
  {
    if m == 0 {
    } else {
      Pow2Adds(m - 1, n);
      assert Pow2(m + n) == 2 * Pow2(m - 1 + n);
    }
  }

  lemma Pow2Of64()
    ensures Pow2(64) == TWO_64
  {
    assert Pow2(8) == 0x100;
    assert Pow2(16) == 0x1_0000 by { Pow2Adds(8, 8); }
    assert Pow2(32) == 0x1_0000_0000 by { Pow2Adds(16, 16); }
    Pow2Adds(32, 32);
  }

  lemma WrapIsCongruent(x: int, y: int, k: int)
    requires x == y + k * TWO_64
    ensures Wrap64(x) == Wrap64(y)
  {
    var r, s := Wrap64(x), Wrap64(y);
    assert x - r == ((x - r) / TWO_64) * TWO_64;
    assert y - s == ((y - s) / TWO_64) * TWO_64;
    var d := (y - s) / TWO_64 + k - (x - r) / TWO_64;
    assert r - s == d * TWO_64;
  }

  /** The shifted one is 2^n up to multiples of 2^64, even past the word. */
  lemma ShiftIsCongruent(n: nat) returns (k: int)
    ensures Pow2(n) == ShiftOne(n) + k * TWO_64
  {
    if n < 64 {
      k := (Pow2(n) - ShiftOne(n)) / TWO_64;
    } else {
      Pow2Adds(64, n - 64);
      Pow2Of64();
      k := Pow2(n - 64);
    }
  }

  lemma WrapFixesWhatFits(x: int)
    ensures Wrap64(x) == x <==> -TWO_63 <= x < TWO_63
  {
  }

  lemma ScaledShift(base: int, p: int, shift: int, k: int)
    requires p == shift + k * TWO_64
    ensures Wrap64(base * p) == Wrap64(base * shift)
  {
    assert base * p == base * shift + (base * k) * TWO_64 by {
      assert base * p == base * shift + base * (k * TWO_64);
      assert base * (k * TWO_64) == (base * k) * TWO_64;
    }
    WrapIsCongruent(base * p, base * shift, base * k);
  }

  /** The computed delay is base * 2^(attempts-1) exactly when that fits an int64. */
  lemma DelayExact(base: int, attempts: int)
    requires attempts >= 1
    ensures Delay(base, attempts) == base * Pow2(attempts - 1) <==> -TWO_63 <= base * Pow2(attempts - 1) < TWO_63
  {
    var k := ShiftIsCongruent(attempts - 1);
    ScaledShift(base, Pow2(attempts - 1), ShiftOne(attempts - 1), k);
    WrapFixesWhatFits(base * Pow2(attempts - 1));
  }

  lemma {:induction false} Pow2Monotone(m: nat, n: nat)
    requires m <= n
    ensures Pow2(m) <= Pow2(n)
  {
    if m == n {
    } else {
      Pow2Monotone(m, n - 1);
    }
  }

  /** Each delay carries the running total from one attempt to the next. */
  lemma TotalDelayGrows(base: nat, attempts: nat)
    ensures TotalDelay(base, attempts + 1) == TotalDelay(base, attempts) + base * Pow2(attempts)
  {
    assert Pow2(attempts + 1) == 2 * Pow2(attempts);
    assert base * (2 * Pow2(attempts) - 1) == base * (Pow2(attempts) - 1) + base * Pow2(attempts);
  }
}
