/** Values as keys of a Map or Set: the string under which a key is indexed, and SameValueZero
  * (internal/engine/builtin_collections.go).
  */
module KeyedValues {
  /** The 64 bits of a double. */
  type Bits = b: nat | b < 0x1_0000_0000_0000_0000

  datatype Value =
    | Undef
    | Null
    | Bool(b: bool)
    | Num(bits: Bits)
    | Str(s: string)
    | BigInt(n: int)
    | Other(handle: Bits)      // objects and symbols, by identity

  predicate IsNaN(d: Bits) {
    (d / 0x10_0000_0000_0000) % 0x800 == 0x7FF && d % 0x10_0000_0000_0000 != 0
  }

  /** +0 and -0. */
  predicate IsZero(d: Bits) {
    d == 0 || d == 0x8000_0000_0000_0000
  }

  /** SameValueZero: NaN is itself, the zeros are equal, and any other two doubles are equal when their bits are. */
  predicate SameValueZero(a: Value, b: Value) {
    match (a, b)
    case (Num(x), Num(y)) => (IsNaN(x) && IsNaN(y)) || (IsZero(x) && IsZero(y)) || (!IsNaN(x) && x == y)
    case _ => a == b
  }

  const DIGITS: string := "0123456789abcdef"

  /** strconv.FormatUint. */
  function Format(n: nat, base: nat): (r: string)
    requires base == 10 || base == 16
    ensures |r| > 0
  {
    if n < base then [DIGITS[n]] else Format(n / base, base) + [DIGITS[n % base]]
  }

  /** big.Int's String. */
  function Decimal(n: int): string {
    if n < 0 then "-" + Format(-n, 10) else Format(n, 10)
  }

  function NumberText(nan: bool, zero: bool, d: Bits): string {
    if nan then "NaN" else if zero then "0" else Format(d, 16)
  }

  function CanonicalKey(v: Value): string {
    match v
    case Str(s) => "s:" + s
    case Num(d) => "n:" + NumberText(IsNaN(d), IsZero(d), d)
    case Bool(b) => if b then "b:1" else "b:0"
    case BigInt(n) => "i:" + Decimal(n)
    case Undef => "u"
    case Null => "z"
    case Other(h) => "o:" + Format(h, 16)
  }

  /** -0 is stored as +0. */
  function NormMapKey(v: Value): Value {
    if v.Num? && IsZero(v.bits) then Num(0) else v
  }

  function DigitValue(c: char): nat {
    if '0' <= c <= '9' then (c - '0') as nat else if 'a' <= c <= 'f' then (c - 'a') as nat + 10 else 0
  }

  function Parse(s: string, base: nat): nat {
    if s == "" then 0 else Parse(s[..|s| - 1], base) * base + DigitValue(s[|s| - 1])
  }

  lemma DigitValues(i: nat)
    requires i < 16
    ensures DigitValue(DIGITS[i]) == i
  {
  }

  lemma {:induction false} ParseFormat(n: nat, base: nat)
    requires base == 10 || base == 16
    ensures Parse(Format(n, base), base) == n
  {
    var f := Format(n, base);
    DigitValues(n % base);
    if n < base {
      assert f[..0] == "";
    } else {
      ParseFormat(n / base, base);
      assert f[..|f| - 1] == Format(n / base, base);
    }
  }

  lemma FormatInjective(m: nat, n: nat, base: nat)
    requires (base == 10 || base == 16) && Format(m, base) == Format(n, base)
    ensures m == n
  {
    ParseFormat(m, base);
    ParseFormat(n, base);
  }

  lemma {:induction false} FormatIsDigits(n: nat, base: nat)
    requires base == 10 || base == 16
    ensures forall i | 0 <= i < |Format(n, base)| :: Format(n, base)[i] in DIGITS
  {
    if n >= base {
      FormatIsDigits(n / base, base);
    }
  }

  lemma DecimalInjective(m: int, n: int)
    requires Decimal(m) == Decimal(n)
    ensures m == n
  {
    var a, b := if m < 0 then -m else m, if n < 0 then -n else n;
    FormatIsDigits(a, 10);
    FormatIsDigits(b, 10);
    assert '-' !in DIGITS;
    if m < 0 && n < 0 {
      assert Decimal(m)[1..] == Format(a, 10) && Decimal(n)[1..] == Format(b, 10);
    } else {
      assert (m < 0) == (Decimal(m)[0] == '-') && (n < 0) == (Decimal(n)[0] == '-');
    }
    FormatInjective(a, b, 10);
  }

  lemma NumberTexts(nx: bool, zx: bool, x: Bits, ny: bool, zy: bool, y: Bits)
    requires (!zx ==> x != 0) && (!zy ==> y != 0)
    ensures NumberText(nx, zx, x) == NumberText(ny, zy, y) <==>
            (nx && ny) || (!nx && !ny && ((zx && zy) || (!zx && !zy && x == y)))
  {
    FormatIsDigits(x, 16);
    FormatIsDigits(y, 16);
    assert 'N' !in DIGITS && NumberText(true, zx, x)[0] == 'N';
    assert Format(0, 16) == "0";
    if NumberText(nx, zx, x) == NumberText(ny, zy, y) && !nx && !ny {
      FormatInjective(if zx then 0 else x, if zy then 0 else y, 16);
    }
  }

  lemma NumberKeys(x: Bits, y: Bits)
    ensures CanonicalKey(Num(x)) == CanonicalKey(Num(y)) <==> SameValueZero(Num(x), Num(y))
  {
    var s, t := NumberText(IsNaN(x), IsZero(x), x), NumberText(IsNaN(y), IsZero(y), y);
    assert CanonicalKey(Num(x))[2..] == s && CanonicalKey(Num(y))[2..] == t;
    NumberTexts(IsNaN(x), IsZero(x), x, IsNaN(y), IsZero(y), y);
    assert IsZero(x) ==> !IsNaN(x);
    assert IsZero(y) ==> !IsNaN(y);
  }

  /** Two values get the same key string exactly when SameValueZero identifies them. */
  lemma KeysAgree(a: Value, b: Value)
    ensures CanonicalKey(a) == CanonicalKey(b) <==> SameValueZero(a, b)
  {
    if a.Num? && b.Num? {
      NumberKeys(a.bits, b.bits);
    } else if CanonicalKey(a) == CanonicalKey(b) {
      assert CanonicalKey(a)[0] == CanonicalKey(b)[0];
      assert CanonicalKey(a)[1..] == CanonicalKey(b)[1..];
      match (a, b)
      case (Str(s), Str(t)) => assert CanonicalKey(a)[2..] == s && CanonicalKey(b)[2..] == t;
      case (BigInt(m), BigInt(n)) =>
        assert CanonicalKey(a)[2..] == Decimal(m) && CanonicalKey(b)[2..] == Decimal(n);
        DecimalInjective(m, n);
      case (Other(g), Other(h)) =>
        assert CanonicalKey(a)[2..] == Format(g, 16) && CanonicalKey(b)[2..] == Format(h, 16);
        FormatInjective(g, h, 16);
      case (Bool(p), Bool(q)) => assert CanonicalKey(a)[2] == CanonicalKey(b)[2];
      case _ =>
    }
  }

  /** The doubles that are NaN are those above infinity when the sign is left out. */
  lemma NaNRange(d: Bits)
    ensures IsNaN(d) <==> d % 0x8000_0000_0000_0000 > 0x7FF0_0000_0000_0000
  {
  }

  /** Nothing but -0 is changed. */
  lemma NormMapKeyIs(v: Value)
    ensures NormMapKey(v) == if v == Num(0x8000_0000_0000_0000) then Num(0) else v
  {
  }

  lemma NormKeepsKey(v: Value)
    ensures CanonicalKey(NormMapKey(v)) == CanonicalKey(v) && NormMapKey(NormMapKey(v)) == NormMapKey(v)
  {
    KeysAgree(v, NormMapKey(v));
  }
}
