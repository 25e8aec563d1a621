/** Width wrapping and size limits of BigInt arithmetic (internal/engine/builtin_bigint.go).  A big.Int is an
  * unbounded integer and its size is the bit length of its magnitude.
  */
module BigIntBounds {
  import opened Arithmetic
  import opened Wrappers

  const MAX_BITS: nat := 0x4000_0000

  // ----- wrapping to a width -----

  /** The exponent of the modulus that bigIntAsIntN builds, when it builds one. */
  function IntModulus(bits: nat, v: int): Option<nat> {
    if bits == 0 || bits > BitLen(v) + 1 then None else Some(bits)
  }

  function AsIntN(bits: nat, v: int): int {
    if bits == 0 then 0
    else match IntModulus(bits, v)
      case None => v
      case Some(k) =>
        var r := v % Pow2(k);
        if r >= Pow2(k - 1) then r - Pow2(k) else r
  }

  function UintModulus(bits: nat, v: int): Option<nat> {
    if bits == 0 || (v >= 0 && bits > BitLen(v)) then None else Some(bits)
  }

  function AsUintN(bits: nat, v: int): int {
    if bits == 0 then 0
    else match UintModulus(bits, v)
      case None => v
      case Some(k) => v % Pow2(k)
  }

  predicate WrapTooWide(bits: nat, v: int) {
    v < 0 && bits > MAX_BITS
  }

  predicate Congruent(a: int, b: int, m: nat)
    requires m > 0
  {
    a % m == b % m
  }

  predicate FitsSigned(bits: nat, r: int)
    requires bits > 0
  {
    0 - Pow2(bits - 1) <= r < Pow2(bits - 1)
  }

  predicate FitsUnsigned(bits: nat, r: int) {
    0 <= r < Pow2(bits)
  }

  lemma ShiftByModulus(r: int, m: nat)
    requires m > 0
    ensures (r - m) % m == r % m
  {
    Cut(r / m - 1, r % m, m);
    assert (r / m - 1) * m == r / m * m - m;
  }

  lemma InRangeIsOwnRemainder(r: int, m: nat)
    requires m > 0
    ensures 0 <= r < m ==> r % m == r
    ensures 0 - m <= r < 0 ==> r % m == r + m
  {
    if 0 - m <= r < 0 {
      ShiftByModulus(r + m, m);
      Cut(0, r + m, m);
    } else if 0 <= r < m {
      Cut(0, r, m);
    }
  }

  /** No bits leave nothing. */
  lemma NoBits(v: int)
    ensures AsIntN(0, v) == 0 && AsUintN(0, v) == 0
  {
  }

  /** asIntN is the one number of the width that is congruent to v: it has that property... */
  lemma AsIntNWraps(bits: nat, v: int)
    requires bits > 0
    ensures FitsSigned(bits, AsIntN(bits, v)) && Congruent(AsIntN(bits, v), v, Pow2(bits))
  {
    if bits > BitLen(v) + 1 {
      BitLenAtMost(v, bits - 1);
    } else {
      WrapsByRemainder(bits, v);
    }
  }

  lemma WrapsByRemainder(bits: nat, v: int)
    requires 0 < bits <= BitLen(v) + 1
    ensures FitsSigned(bits, AsIntN(bits, v)) && AsIntN(bits, v) % Pow2(bits) == v % Pow2(bits)
  {
    ByRemainder(bits, v);
    assert Pow2(bits) == 2 * Pow2(bits - 1);
    hide Pow2, BitLen, AsIntN;
    SignedRemainder(v, Pow2(bits), Pow2(bits - 1));
  }

  lemma ByRemainder(bits: nat, v: int)
    requires 0 < bits <= BitLen(v) + 1
    ensures var r := v % Pow2(bits);
            AsIntN(bits, v) == if r >= Pow2(bits - 1) then r - Pow2(bits) else r
  {
  }

  lemma SignedRemainder(v: int, m: nat, half: nat)
    requires half > 0 && m == 2 * half
    ensures var r := v % m;
            var s := if r >= half then r - m else r;
            0 - half <= s < half && s % m == v % m
  {
    var r := v % m;
    InRangeIsOwnRemainder(r, m);
    ShiftByModulus(r, m);
  }

  /** ...and nothing else does. */
  lemma SignedUnique(bits: nat, v: int, r: int)
    requires bits > 0 && FitsSigned(bits, r) && Congruent(r, v, Pow2(bits))
    ensures r == AsIntN(bits, v)
  {
    AsIntNWraps(bits, v);
    InRangeIsOwnRemainder(r, Pow2(bits));
    InRangeIsOwnRemainder(AsIntN(bits, v), Pow2(bits));
  }

  lemma AsUintNWraps(bits: nat, v: int)
    ensures FitsUnsigned(bits, AsUintN(bits, v)) && Congruent(AsUintN(bits, v), v, Pow2(bits))
  {
    var m := Pow2(bits);
    if bits > 0 && v >= 0 && bits > BitLen(v) {
      BitLenAtMost(v, bits);
    } else if bits > 0 {
      InRangeIsOwnRemainder(v % m, m);
    }
  }

  lemma UnsignedUnique(bits: nat, v: int, r: int)
    requires FitsUnsigned(bits, r) && Congruent(r, v, Pow2(bits))
    ensures r == AsUintN(bits, v)
  {
    AsUintNWraps(bits, v);
    InRangeIsOwnRemainder(r, Pow2(bits));
    InRangeIsOwnRemainder(AsUintN(bits, v), Pow2(bits));
  }

  /** However many bits a script names, the modulus is no wider than the value itself allows. */
  lemma ModulusStaysSmall(bits: nat, v: int)
    ensures IntModulus(bits, v).Some? ==> IntModulus(bits, v).value <= BitLen(v) + 1
    ensures UintModulus(bits, v).Some? && !WrapTooWide(bits, v) ==>
              UintModulus(bits, v).value <= if v < 0 then MAX_BITS else BitLen(v)
    ensures BitLen(AsIntN(bits, v)) <= BitLen(v) + 1
  {
    if bits > 0 {
      AsIntNWraps(bits, v);
      var r := AsIntN(bits, v);
      if bits <= BitLen(v) + 1 {
        BitLenAtMost(r, bits);
      }
    }
  }

  /** The guard before asUintN.  What it lets through is no wider than the limit or than v itself. */
  lemma AcceptedWrapFits(bits: nat, v: int)
    requires !WrapTooWide(bits, v)
    ensures BitLen(v % Pow2(bits)) <= MAX_BITS || BitLen(v % Pow2(bits)) <= BitLen(v)
    ensures BitLen(v) <= MAX_BITS ==> BitLen(v % Pow2(bits)) <= MAX_BITS
  {
    var m := Pow2(bits);
    BitLenAtMost(v % m, MAX_BITS);
    if v >= 0 {
      RemainderAtMost(v, m);
      BitLenBounds(v);
      BitLenAtMost(v % m, BitLen(v));
    } else {
      Pow2Grows(bits, MAX_BITS);
    }
  }

  /** And what it refuses is past the limit, but for a magnitude just below a multiple of the modulus, or at one; no
    * value within the limit is like that.
    */
  lemma RefusedWrap(bits: nat, v: int)
    requires WrapTooWide(bits, v)
    ensures BitLen(v % Pow2(bits)) <= MAX_BITS <==>
            Abs(v) % Pow2(bits) == 0 || Abs(v) % Pow2(bits) > Pow2(bits) - Pow2(MAX_BITS)
    ensures BitLen(v) <= MAX_BITS ==> BitLen(v % Pow2(bits)) > MAX_BITS
  {
    var m := Pow2(bits);
    BitLenAtMost(v % m, MAX_BITS);
    BitLenAtMost(v, MAX_BITS);
    Pow2Grows(MAX_BITS, bits);
    NegatedRemainder(Abs(v), m);
    InRangeIsOwnRemainder(Abs(v), m);
    hide Pow2, BitLen;
  }

  lemma NegatedRemainder(a: nat, m: nat)
    requires m > 0
    ensures (0 - a) % m == if a % m == 0 then 0 else m - a % m
  {
    var q, r := a / m, a % m;
    assert a == q * m + r;
    assert (0 - q) * m == 0 - q * m && (0 - q - 1) * m == 0 - q * m - m;
    if r == 0 {
      Cut(0 - q, 0, m);
    } else {
      Cut(0 - q - 1, m - r, m);
    }
  }

  lemma RemainderAtMost(v: nat, m: nat)
    requires m > 0
    ensures v % m <= v
  {
    if v < m {
      InRangeIsOwnRemainder(v, m);
    }
  }

  // ----- products -----

  lemma AbsTimes(x: int, y: int)
    ensures Abs(x * y) == Abs(x) * Abs(y)
  {
  }

  lemma TimesBounds(a: nat, b: nat, c: nat, d: nat)
    requires a <= c && b <= d
    ensures a * b <= c * d
  {
    MulMonotone(a, c, b);
    MulMonotone(b, d, c);
  }

  /** A product has as many bits as its factors together, or one fewer. */
  lemma ProductWidth(x: int, y: int)
    ensures BitLen(x * y) <= BitLen(x) + BitLen(y)
    ensures x != 0 && y != 0 ==> BitLen(x * y) >= BitLen(x) + BitLen(y) - 1
  {
    if x == 0 || y == 0 {
      assert x * y == 0;
    } else {
      ProductWidthNonZero(x, y, BitLen(x), BitLen(y));
    }
  }

  lemma ProductWidthNonZero(x: int, y: int, p: nat, q: nat)
    requires x != 0 && y != 0 && p == BitLen(x) && q == BitLen(y)
    ensures p + q - 1 <= BitLen(x * y) <= p + q
  {
    hide BitLen, Pow2;
    BitLenBounds(x);
    BitLenBounds(y);
    AbsTimes(x, y);
    Pow2Add(p, q);
    Pow2Add(p - 1, q - 1);
    BelowProduct(Abs(x), Abs(y), Pow2(p), Pow2(q));
    TimesBounds(Pow2(p - 1), Pow2(q - 1), Abs(x), Abs(y));
    BitLenAtMost(x * y, p + q);
    BitLenAtMost(x * y, p + q - 2);
  }

  lemma BelowProduct(a: nat, b: nat, c: nat, d: nat)
    requires a < c && b < d
    ensures a * b < c * d
  {
    TimesBounds(a, b, c - 1, d - 1);
    assert (c - 1) * (d - 1) == c * d - c - d + 1;
  }

  datatype Failure = TooBig | DivisionByZero

  function Multiply(x: int, y: int): Result<int, Failure> {
    if BitLen(x) + BitLen(y) > MAX_BITS then Err(TooBig) else Ok(x * y)
  }

  /** A product that is built fits.  One that is refused fits exactly when a factor is zero, or when the factors have one bit
    * more than the limit together and their magnitudes leave room.
    */
  lemma MultiplyBound(x: int, y: int)
    ensures Multiply(x, y).Ok? ==> Multiply(x, y).value == x * y && BitLen(x * y) <= MAX_BITS
    ensures Multiply(x, y).Err? ==>
              (BitLen(x * y) <= MAX_BITS <==>
               x == 0 || y == 0
               || (BitLen(x) + BitLen(y) == MAX_BITS + 1 && Abs(x) <= (Pow2(MAX_BITS) - 1) / Abs(y)))
  {
    ProductWidth(x, y);
    if x != 0 && y != 0 {
      ProductFitsWhen(x, y);
      hide Pow2, BitLen;
    } else {
      assert x * y == 0 && BitLen(0) == 0;
      hide BitLen;
    }
  }

  lemma ProductFitsWhen(x: int, y: int)
    requires y != 0
    ensures BitLen(x * y) <= MAX_BITS <==> Abs(x) <= (Pow2(MAX_BITS) - 1) / Abs(y)
  {
    AbsTimes(x, y);
    BitLenAtMost(x * y, MAX_BITS);
    AtMostQuotient(Abs(x), Abs(y), Pow2(MAX_BITS) - 1);
    hide Pow2, BitLen;
  }

  lemma AtMostQuotient(a: nat, b: nat, n: nat)
    requires b > 0
    ensures a * b <= n <==> a <= n / b
  {
    assert n == n / b * b + n % b;
    if a <= n / b {
      MulMonotone(a, n / b, b);
    } else {
      MulMonotone(n / b + 1, a, b);
      assert (n / b + 1) * b == n / b * b + b;
    }
  }

  /** So the largest numbers cannot even be multiplied by one, nor larger ones, which addition and powers make, by zero. */
  lemma MaximalTimesOneRefused(x: int)
    ensures BitLen(x) == MAX_BITS ==> Multiply(x, 1).Err? && BitLen(x * 1) <= MAX_BITS
    ensures BitLen(x) > MAX_BITS ==> Multiply(x, 0).Err? && BitLen(x * 0) <= MAX_BITS
  {
    assert BitLen(1) == 1 + BitLen(0);
    assert x * 0 == 0;
  }

  // ----- powers -----

  function CheckExp(x: int, y: nat): Result<(), Failure> {
    var bits := BitLen(x);
    if bits <= 1 || y == 0 then Ok(())
    else if y >= 0x8000_0000_0000_0000 || y > MAX_BITS / (bits - 1) + 1 then Err(TooBig)
    else Ok(())
  }

  function LastAcceptedAt(bits: nat): nat
    requires bits > 1
  {
    MAX_BITS / (bits - 1) + 1
  }

  function LastAccepted(x: int): nat
    requires BitLen(x) > 1
  {
    LastAcceptedAt(BitLen(x))
  }

  lemma AcceptedUpTo(x: int, y: nat)
    requires BitLen(x) > 1
    ensures CheckExp(x, y).Ok? <==> y <= LastAccepted(x)
  {
    QuotientAtMost(BitLen(x) - 1);
  }

  /** A power of a number of b bits has more than (b - 1) * y bits and at most b * y. */
  lemma {:induction false} PowerWidth(x: int, y: nat)
    requires x != 0 && y > 0
    ensures Pow(x, y) != 0
    ensures (BitLen(x) - 1) * y < BitLen(Pow(x, y)) <= BitLen(x) * y
  {
    var b := BitLen(x);
    BitLenBounds(x);
    if y == 1 {
      assert Pow(x, 1) == x * Pow(x, 0);
    } else {
      PowerWidth(x, y - 1);
      NonZeroProduct(x, Pow(x, y - 1));
      ProductWidth(x, Pow(x, y - 1));
      assert (b - 1) * y == (b - 1) * (y - 1) + (b - 1);
      assert b * y == b * (y - 1) + b;
    }
  }

  lemma NonZeroProduct(x: int, y: int)
    requires x != 0 && y != 0
    ensures x * y != 0
  {
  }

  lemma PastTheQuotient(c: nat, y: nat)
    requires c > 0 && y > MAX_BITS / c
    ensures c * y > MAX_BITS
  {
    MulMonotone(MAX_BITS / c + 1, y, c);
    assert MAX_BITS == MAX_BITS / c * c + MAX_BITS % c;
    assert (MAX_BITS / c + 1) * c == MAX_BITS / c * c + c;
    assert y * c == c * y;
  }

  /** Only powers that truly exceed the limit are refused. */
  lemma RefusedPowerIsTooBig(x: int, y: nat)
    requires CheckExp(x, y).Err?
    ensures BitLen(Pow(x, y)) > MAX_BITS
  {
    var c := BitLen(x) - 1;
    QuotientAtMost(c);
    PastTheQuotient(c, y);
    assert x != 0;
    PowerWidth(x, y);
  }

  lemma QuotientAtMost(c: nat)
    requires c > 0
    ensures MAX_BITS / c <= MAX_BITS
  {
    var q := MAX_BITS / c;
    assert q * c <= MAX_BITS;
    MulMonotone(1, c, q);
    assert 1 * q == q && c * q == q * c;
  }

  /** What is accepted is bounded, so that the check bounds what is built. */
  lemma AcceptedPowerIsBounded(x: int, y: nat)
    requires CheckExp(x, y).Ok?
    ensures BitLen(x) <= 1 || y == 0 ==> BitLen(Pow(x, y)) <= 1
    ensures BitLen(x) > 1 ==> BitLen(Pow(x, y)) <= BitLen(x) * (MAX_BITS / (BitLen(x) - 1) + 1)
  {
    assert y == 0 ==> Pow(x, y) == 1 && BitLen(1) == 1 + BitLen(0);
    if BitLen(x) > 1 {
      assert x != 0;
      AcceptedUpTo(x, y);
      assert LastAccepted(x) == MAX_BITS / (BitLen(x) - 1) + 1 >= 1;
      hide Pow, BitLen, CheckExp, LastAccepted, LastAcceptedAt;
      if y > 0 {
        PowerWidth(x, y);
      }
      WiderTimes(BitLen(x), if y > 0 then y else 1, LastAccepted(x));
    } else if y > 0 {
      UnitPower(x, y);
    }
  }

  lemma WiderTimes(b: nat, y: nat, q: nat)
    requires y <= q
    ensures b * y <= b * q
  {
    MulMonotone(y, q, b);
  }

  lemma {:induction false} UnitPower(x: int, y: nat)
    requires BitLen(x) <= 1
    ensures BitLen(Pow(x, y)) <= 1
  {
    BitLenAtMost(x, 1);
    BitLenAtMost(Pow(x, y), 1);
    assert Pow2(1) == 2 * Pow2(0);
    if y > 0 {
      UnitPower(x, y - 1);
      BitLenAtMost(Pow(x, y - 1), 1);
    }
  }

  /** When an accepted power fits, as the guard sees it: it does while the bits of all factors together stay within the
    * limit, and it does not from the exponent on at which even one bit less each would fill it.
    */
  lemma PowerFitsWhen(x: int, y: nat)
    requires BitLen(x) > 1 && y > 0
    ensures BitLen(x) * y <= MAX_BITS ==> CheckExp(x, y).Ok? && BitLen(Pow(x, y)) <= MAX_BITS
    ensures (BitLen(x) - 1) * y >= MAX_BITS ==> BitLen(Pow(x, y)) > MAX_BITS
  {
    assert x != 0;
    PowerWidth(x, y);
    if BitLen(x) * y <= MAX_BITS && CheckExp(x, y).Err? {
      RefusedPowerIsTooBig(x, y);
    }
  }

  /** The integer logarithm of n to the base b. */
  function Log(n: nat, b: nat): nat
    requires b > 1
  {
    if n < b then 0
    else
      QuotientSmaller(n, b);
      1 + Log(n / b, b)
  }

  lemma QuotientSmaller(n: nat, b: nat)
    requires 1 < b <= n
    ensures 0 < n / b < n
  {
    AtMostQuotient(1, b, n);
    var q := n / b;
    assert n == q * b + n % b;
    MulMonotone(2, b, q);
    assert b * q == q * b;
  }

  lemma {:induction false} PowerAtMost(b: nat, y: nat, n: nat)
    requires b > 1 && n > 0
    ensures Pow(b, y) > 0 && (Pow(b, y) <= n <==> y <= Log(n, b))
    decreases y
  {
    if y > 0 {
      var p := Pow(b, y - 1);
      PowerAtMost(b, y - 1, n);
      MulMonotone(1, p, b);
      TimesCommutes(p, b);
      if n >= b {
        QuotientSmaller(n, b);
        PowerAtMost(b, y - 1, n / b);
        AtMostQuotient(p, b, n);
      }
    }
  }

  lemma TimesCommutes(a: int, b: int)
    ensures a * b == b * a
  {
  }

  lemma {:induction false} AbsPower(x: int, y: nat)
    ensures Abs(Pow(x, y)) == Pow(Abs(x), y)
  {
    if y > 0 {
      AbsPower(x, y - 1);
      AbsTimes(x, Pow(x, y - 1));
    }
  }

  lemma AtLeastTwo(x: int)
    requires BitLen(x) > 1
    ensures Abs(x) > 1 && Pow2(MAX_BITS) > 1
  {
    assert Pow2(1) == 2 * Pow2(0);
    BitLenAtMost(x, 1);
    Pow2Grows(1, MAX_BITS);
  }

  /** The largest exponent of a power within the limit. */
  function LastFitting(x: int): nat
    requires BitLen(x) > 1
  {
    AtLeastTwo(x);
    Log(Pow2(MAX_BITS) - 1, Abs(x))
  }

  /** Exactly: a power fits up to the integer logarithm of the limit to its base. */
  lemma PowerFitsIff(x: int, y: nat)
    requires BitLen(x) > 1
    ensures BitLen(Pow(x, y)) <= MAX_BITS <==> y <= LastFitting(x)
  {
    AtLeastTwo(x);
    hide Pow, Pow2, BitLen, Log;
    AbsPower(x, y);
    BitLenAtMost(Pow(x, y), MAX_BITS);
    PowerAtMost(Abs(x), y, Pow2(MAX_BITS) - 1);
  }

  /** So what the check accepts beyond that, which for every base is something, is accepted although it is too big. */
  lemma AcceptedTooBigIff(x: int, y: nat)
    requires BitLen(x) > 1
    ensures CheckExp(x, y).Ok? && BitLen(Pow(x, y)) > MAX_BITS <==> LastFitting(x) < y <= LastAccepted(x)
    ensures LastFitting(x) < LastAccepted(x)
  {
    PowerFitsIff(x, y);
    AcceptedUpTo(x, y);
    LastAcceptedPowerIsTooBig(x);
    PowerFitsIff(x, LastAccepted(x));
    hide Pow, BitLen, LastFitting, CheckExp, LastAccepted;
  }

  lemma {:induction false} PowerOfPowerOfTwo(k: nat, y: nat)
    ensures k * y >= 0 && Pow(Pow2(k), y) == Pow2(k * y)
    decreases y
  {
    if y > 0 {
      PowerOfPowerOfTwo(k, y - 1);
      assert k * y == k + k * (y - 1);
      Pow2Add(k, k * (y - 1));
    }
  }

  lemma Pow2Width(n: nat)
    ensures BitLen(Pow2(n)) == n + 1
  {
    BitLenAtMost(Pow2(n), n);
    Pow2Grows(n, n + 1);
    BitLenAtMost(Pow2(n), n + 1);
  }

  /** For powers of two exactly: the check accepts up to the exponent limit / k + 1, and what fits is k * y below the
    * limit, so the exponents from limit / k, or the one after it, up to that are accepted and too big.
    */
  lemma PowerOfTwoExact(k: nat, y: nat)
    requires k > 0 && y > 0
    ensures BitLen(Pow(Pow2(k), y)) <= MAX_BITS <==> k * y < MAX_BITS
    ensures CheckExp(Pow2(k), y).Ok? <==> y <= MAX_BITS / k + 1
  {
    PowerOfPowerOfTwo(k, y);
    Pow2Width(k);
    Pow2Width(k * y);
    AcceptedUpTo(Pow2(k), y);
    hide Pow, Pow2, BitLen, CheckExp;
  }

  /** Whatever the base, the last exponent that the check accepts is already past the limit. */
  lemma LastAcceptedPowerIsTooBig(x: int)
    requires BitLen(x) > 1
    ensures CheckExp(x, LastAccepted(x)).Ok? && BitLen(Pow(x, LastAccepted(x))) > MAX_BITS
  {
    var c := BitLen(x) - 1;
    AcceptedUpTo(x, LastAccepted(x));
    PastTheQuotient(c, MAX_BITS / c + 1);
    assert x != 0;
    PowerWidth(x, MAX_BITS / c + 1);
  }

  // ----- shifts -----

  predicate IsInt64(n: int) {
    -0x8000_0000_0000_0000 <= n < 0x8000_0000_0000_0000
  }

  function Shift(leftward: bool, x: int, y: int): Result<int, Failure> {
    var n := if y < 0 then -y else y;
    var left := if y < 0 then !leftward else leftward;
    if !IsInt64(n) then
      if left then (if x == 0 then Ok(0) else Err(TooBig))
      else if x < 0 then Ok(-1) else Ok(0)
    else if left then
      if x != 0 && n > MAX_BITS - BitLen(x) then Err(TooBig) else Ok(x * Pow2(n))
    else Ok(x / Pow2(n))
  }

  /** x * 2**k, rounded down. */
  function Scaled(x: int, k: int): int {
    if k >= 0 then x * Pow2(k) else x / Pow2(-k)
  }

  lemma ScaledWidth(x: int, n: nat)
    requires x != 0
    ensures BitLen(x * Pow2(n)) == BitLen(x) + n
  {
    hide BitLen, Pow2;
    BitLenBounds(x);
    var p := BitLen(x);
    AbsTimes(x, Pow2(n));
    Pow2Add(p, n);
    StrictTimes(Abs(x), Pow2(p), Pow2(n));
    BitLenAtMost(x * Pow2(n), p + n);
    Pow2Add(p - 1, n);
    MulMonotone(Pow2(p - 1), Abs(x), Pow2(n));
    BitLenAtMost(x * Pow2(n), p + n - 1);
  }

  lemma StrictTimes(a: nat, b: nat, c: nat)
    requires a < b && c > 0
    ensures a * c < b * c
  {
    MulMonotone(a, b - 1, c);
    assert (b - 1) * c == b * c - c;
  }

  lemma FloorWidth(x: int, m: nat)
    requires m > 0
    ensures Abs(x / m) <= Abs(x)
  {
    var q := x / m;
    assert x == q * m + x % m;
    if q >= 0 {
      MulMonotone(1, m, q);
      assert 1 * q == q && m * q == q * m;
    } else {
      MulMonotone(1, m, -q - 1);
      assert (-q - 1) * m == m * (-q - 1) && (-q - 1) * m == -(q * m) - m;
    }
  }

  /** Whether the count and the operator together shift left. */
  predicate GoesLeft(leftward: bool, y: int) {
    if y < 0 then !leftward else leftward
  }

  /** A shift to the left is a scaling by a power of two, and fails exactly when the result is past the limit. */
  lemma LeftShiftIsScaling(leftward: bool, x: int, y: int)
    requires GoesLeft(leftward, y)
    ensures BitLen(Scaled(x, Abs(y))) <= MAX_BITS ==> Shift(leftward, x, y) == Ok(Scaled(x, Abs(y)))
    ensures BitLen(Scaled(x, Abs(y))) > MAX_BITS ==> Shift(leftward, x, y) == Err(TooBig)
  {
    if x != 0 {
      ScaledWidth(x, Abs(y));
    } else {
      assert 0 * Pow2(Abs(y)) == 0;
    }
  }

  /** A shift to the right never fails and never widens; it is the scaling rounded down, except that a count past 64 bits takes a value too
    * wide for the count to its sign.
    */
  lemma RightShiftIsScaling(leftward: bool, x: int, y: int)
    requires !GoesLeft(leftward, y)
    ensures Shift(leftward, x, y).Ok? && BitLen(Shift(leftward, x, y).value) <= BitLen(x)
    ensures IsInt64(Abs(y)) ==> Shift(leftward, x, y) == Ok(Scaled(x, 0 - Abs(y)))
    ensures !IsInt64(Abs(y)) ==>
              (Shift(leftward, x, y) == Ok(Scaled(x, 0 - Abs(y))) <==> 0 - Pow2(Abs(y)) <= x < Pow2(Abs(y)))
  {
    var n := Abs(y);
    var m := Pow2(n);
    NoWider(x, x / m);
    if n == 0 {
      assert x * Pow2(0) == x && x / Pow2(0) == x;
    } else if !IsInt64(n) {
      OnlySignLeft(x, m);
      NoWider(x, if x < 0 then -1 else 0);
    }
    FloorWidth(x, m);
  }

  lemma NoWider(x: int, r: int)
    ensures Abs(r) <= Abs(x) ==> BitLen(r) <= BitLen(x)
  {
    BitLenBounds(x);
    BitLenAtMost(r, BitLen(x));
  }

  lemma OnlySignLeft(x: int, m: nat)
    requires m > 0
    ensures x / m == (if x < 0 then -1 else 0) <==> 0 - m <= x < m
  {
    if 0 - m <= x < m {
      if x < 0 { Cut(-1, x + m, m); } else { Cut(0, x, m); }
    } else {
      assert x == x / m * m + x % m;
    }
  }

  // ----- division -----

  function Divide(x: int, y: int): Result<int, Failure> {
    if y == 0 then Err(DivisionByZero)
    else if (x < 0) == (y < 0) then Ok(Abs(x) / Abs(y)) else Ok(-(Abs(x) / Abs(y)))
  }

  function Remainder(x: int, y: int): Result<int, Failure> {
    if y == 0 then Err(DivisionByZero)
    else if x < 0 then Ok(-(Abs(x) % Abs(y))) else Ok(Abs(x) % Abs(y))
  }

  /** Quotient and remainder put the dividend back together; the remainder is smaller and takes its sign. */
  lemma QuotientAndRemainder(x: int, y: int)
    requires y != 0
    ensures var q, r := Divide(x, y).value, Remainder(x, y).value;
            && x == y * q + r && Abs(r) < Abs(y) && (r == 0 || (r < 0 <==> x < 0))
  {
    var a: int, b: int := Abs(x), Abs(y);
    var q: int := a / b;
    assert a == b * q + a % b;
    SignsOfProduct(b, q);
  }

  lemma SignsOfProduct(b: int, q: int)
    ensures b * (0 - q) == 0 - b * q && (0 - b) * q == 0 - b * q && (0 - b) * (0 - q) == b * q
  {
  }
}
