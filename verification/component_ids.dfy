/** Widget identifiers: a per-class prefix followed by the decimal value of a
    counter that every construction increments. */
module ComponentIds {

  function DigitChar(d: nat): (c: char)
    requires d < 10
  {
    "0123456789"[d]
  }

  /** The decimal representation of `n`, as a template string prints it. */
  function Digits(n: nat): (r: string)
    ensures |r| > 0
    ensures (|r| == 1) == (n < 10)
  {
    if n < 10 then [DigitChar(n)]
    else Digits(n / 10) + [DigitChar(n % 10)]
  }

  lemma DigitCharInjective(a: nat, b: nat)
    requires a < 10 && b < 10 && DigitChar(a) == DigitChar(b)
    ensures a == b
  {
  }

  /** Different numbers print differently. */
  lemma {:induction false} DigitsInjective(a: nat, b: nat)
    requires Digits(a) == Digits(b)
    ensures a == b
  {
    var da, db := Digits(a), Digits(b);
    if a < 10 {
      DigitCharInjective(a, b);
    } else {
      assert b >= 10;
      assert da[|da| - 1] == DigitChar(a % 10) && db[|db| - 1] == DigitChar(b % 10);
      DigitCharInjective(a % 10, b % 10);
      assert Digits(a / 10) == da[..|da| - 1] == db[..|db| - 1] == Digits(b / 10);
      DigitsInjective(a / 10, b / 10);
    }
  }

  /** `${prefix}${counter}`. */
  function ComponentId(prefix: string, counter: nat): string
  {
    prefix + Digits(counter)
  }

  /** Two widgets built from different counter values get different ids. */
  lemma DistinctCountersDistinctIds(prefix: string, a: nat, b: nat)
    requires a != b
    ensures ComponentId(prefix, a) != ComponentId(prefix, b)
  {
    if ComponentId(prefix, a) == ComponentId(prefix, b) {
      assert Digits(a) == ComponentId(prefix, a)[|prefix|..];
      assert Digits(b) == ComponentId(prefix, b)[|prefix|..];
      DigitsInjective(a, b);
    }
  }

  /** Ids built on prefixes with different first characters never collide. */
  lemma DifferentPrefixesDistinctIds(p: string, q: string, a: nat, b: nat)
    requires |p| > 0 && |q| > 0 && p[0] != q[0]
    ensures ComponentId(p, a) != ComponentId(q, b)
  {
    assert ComponentId(p, a)[0] == p[0];
    assert ComponentId(q, b)[0] == q[0];
  }
}
