/** The text of the limiter's Redis keys, and why two windows never share one. */
module RateLimitKeys {
  import opened Tenants

  function Digit(d: nat): (c: char)
    requires d < 10
    ensures '0' <= c <= '9' && c as int == '0' as int + d
  {
    ('0' as int + d) as char
  }

  predicate AllDigits(s: string) {
    forall i :: 0 <= i < |s| ==> '0' <= s[i] <= '9'
  }

  function Digits(n: nat): (s: string)
    ensures |s| >= 1 && AllDigits(s)
  {
    if n < 10 then [Digit(n)] else Digits(n / 10) + [Digit(n % 10)]
  }

  function Parse(s: string): int {
    if s == [] then 0 else 10 * Parse(s[..|s| - 1]) + (s[|s| - 1] as int - '0' as int)
  }

  lemma {:induction false} ParseDigits(n: nat)
    ensures Parse(Digits(n)) == n
  {
    var s := Digits(n);
    if n < 10 {
      assert s[..0] == [];
    } else {
      ParseDigits(n / 10);
      assert s[..|s| - 1] == Digits(n / 10);
    }
  }

  /** `%d` of an integer. */
  function Decimal(n: int): (s: string)
    ensures ':' !in s
  {
    if n < 0 then "-" + Digits(-n) else Digits(n)
  }

  lemma DecimalSign(n: int)
    ensures |Decimal(n)| >= 1 && (n < 0 <==> Decimal(n)[0] == '-')
  {
    if n >= 0 {
      assert '0' <= Digits(n)[0] <= '9';
    }
  }

  lemma DecimalInjective(m: int, n: int)
    requires Decimal(m) == Decimal(n)
    ensures m == n
  {
    DecimalSign(m);
    DecimalSign(n);
    if m < 0 {
      MinusInjective(Digits(-m), Digits(-n));
      DigitsInjective(-m, -n);
    } else {
      DigitsInjective(m, n);
    }
  }

  lemma MinusInjective(s: string, t: string)
    requires "-" + s == "-" + t
    ensures s == t
  {
    assert ("-" + s)[1..] == s && ("-" + t)[1..] == t;
  }

  lemma DigitsInjective(m: nat, n: nat)
    requires Digits(m) == Digits(n)
    ensures m == n
  {
    ParseDigits(m);
    ParseDigits(n);
  }

  /** ratelimit:<tenant>:<window start>. */
  function Key(id: TenantId, start: int): string {
    "ratelimit:" + (id + ":" + Decimal(start))
  }

  /** Text before the last colon and a colon-free rest are determined by their concatenation. */
  lemma LastColonSplits(a: string, b: string, x: string, y: string)
    requires a + ":" + x == b + ":" + y && ':' !in x && ':' !in y
    ensures a == b && x == y
  {
    var s := a + ":" + x;
    assert s[|a|] == ':' && s[|b|] == ':';
    assert forall i :: |a| < i < |s| ==> s[i] == x[i - |a| - 1];
    assert forall i :: |b| < i < |s| ==> s[i] == y[i - |b| - 1];
    assert |a| == |b|;
    assert a == s[..|a|] && b == s[..|b|];
    assert x == s[|a| + 1..] && y == s[|b| + 1..];
  }

  /** Distinct tenants or windows have distinct keys, even when IDs contain colons. */
  lemma KeyInjective(id1: TenantId, start1: int, id2: TenantId, start2: int)
    ensures Key(id1, start1) == Key(id2, start2) <==> id1 == id2 && start1 == start2
  {
    if Key(id1, start1) == Key(id2, start2) {
      var p := |"ratelimit:"|;
      assert Key(id1, start1)[p..] == id1 + ":" + Decimal(start1);
      assert Key(id2, start2)[p..] == id2 + ":" + Decimal(start2);
      LastColonSplits(id1, id2, Decimal(start1), Decimal(start2));
      DecimalInjective(start1, start2);
    }
  }

  /** What stands in a key: the prefix, the tenant and, after the last colon, the digits of the window start. */
  lemma KeyText(id: TenantId, start: int)
    ensures "ratelimit:" + id + ":" <= Key(id, start)
    ensures Key(id, start)[|"ratelimit:" + id + ":"|..] == Decimal(start)
    ensures Parse(if start < 0 then Decimal(start)[1..] else Decimal(start)) == if start < 0 then -start else start
  {
    assert Key(id, start) == ("ratelimit:" + id + ":") + Decimal(start);
    ParseDigits(if start < 0 then -start else start);
  }
}
