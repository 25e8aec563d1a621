/** Division facts that several components share. */
module Arithmetic {

  lemma MulMonotone(a: int, b: int, c: nat)
    requires a <= b
    ensures a * c <= b * c
  {
  }

  /** A number written as quotient and remainder determines both. */
  lemma Cut(q: int, r: int, b: int)
    requires 0 <= r < b
    ensures (q * b + r) / b == q && (q * b + r) % b == r
  {
    var t := q * b + r;
    var k := q - t / b;
    assert b * (t / b) + t % b == t;
    assert k * b == t % b - r;
    assert k >= 1 ==> k * b >= 1 * b by {
      if k >= 1 { MulMonotone(1, k, b); }
    }
    assert k <= -1 ==> k * b <= -1 * b by {
      if k <= -1 { MulMonotone(k, -1, b); }
    }
  }

  function Abs(x: int): nat {
    if x < 0 then -x else x
  }

  function Pow(x: int, n: nat): int {
    if n == 0 then 1 else x * Pow(x, n - 1)
  }

  function Pow2(n: nat): (p: nat)
    ensures p > 0
  {
    if n == 0 then 1 else 2 * Pow2(n - 1)
  }

  lemma {:induction false} Pow2Add(a: nat, b: nat)
    ensures Pow2(a + b) == Pow2(a) * Pow2(b)
  {
    if a > 0 {
      Pow2Add(a - 1, b);
    }
  }

  lemma {:induction false} Pow2Grows(a: nat, b: nat)
    requires a <= b
    ensures Pow2(a) <= Pow2(b)
    ensures a < b ==> 2 * Pow2(a) <= Pow2(b)
  {
    if a < b {
      Pow2Grows(a, b - 1);
    }
  }

  /** How many bits the magnitude of a number has. */
  function BitLen(v: int): nat
    decreases Abs(v)
  {
    if v == 0 then 0 else 1 + BitLen(Abs(v) / 2)
  }

  lemma {:induction false} BitLenBounds(v: int)
    ensures Abs(v) < Pow2(BitLen(v))
    ensures v != 0 ==> BitLen(v) > 0 && Pow2(BitLen(v) - 1) <= Abs(v)
    decreases Abs(v)
  {
    if v != 0 {
      BitLenBounds(Abs(v) / 2);
    }
  }

  /** A bound on the magnitude is a bound on the width, in both directions. */
  lemma BitLenAtMost(v: int, n: nat)
    ensures BitLen(v) <= n <==> Abs(v) < Pow2(n)
  {
    BitLenBounds(v);
    if BitLen(v) <= n {
      Pow2Grows(BitLen(v), n);
    } else {
      Pow2Grows(n, BitLen(v) - 1);
    }
  }
}
