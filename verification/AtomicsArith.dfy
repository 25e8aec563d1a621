/** The arithmetic of Atomics read-modify-write (internal/engine/builtin_atomics_ops.go, builtin_atomics.go): operands
  * are reduced modulo 2**32 before the operation, and elements wrap to their type after it.
  */
module AtomicsArith {
  import opened Arithmetic
  import opened BigIntBounds
  import opened Wrappers

  datatype ElementKind = Int8 | Uint8 | Int16 | Uint16 | Int32 | Uint32 | BigInt64 | BigUint64

  function Width(k: ElementKind): nat {
    match k
    case Int8 => 8
    case Uint8 => 8
    case Int16 => 16
    case Uint16 => 16
    case Int32 => 32
    case Uint32 => 32
    case BigInt64 => 64
    case BigUint64 => 64
  }

  predicate Signed(k: ElementKind) {
    k == Int8 || k == Int16 || k == Int32 || k == BigInt64
  }

  predicate IsBig(k: ElementKind) {
    k == BigInt64 || k == BigUint64
  }

  predicate InRange(k: ElementKind, n: int) {
    if Signed(k) then FitsSigned(Width(k), n) else FitsUnsigned(Width(k), n)
  }

  /** What a cell of the kind holds after n is stored in it. */
  function Element(k: ElementKind, n: int): int {
    if Signed(k) then AsIntN(Width(k), n) else AsUintN(Width(k), n)
  }

  // ----- the operations, on unbounded two's-complement integers -----

  datatype BitOp = Band | Bor | Bxor

  function OnBits(op: BitOp, a: bool, b: bool): bool {
    match op
    case Band => a && b
    case Bor => a || b
    case Bxor => a != b
  }

  function Bit(b: bool): int {
    if b then 1 else 0
  }

  /** One bit at a time, from the low end; 0 and -1 are all zeros and all ones. */
  function Bitwise(op: BitOp, a: int, b: int): int
    decreases Abs(a) + Abs(b)
  {
    if (a == 0 || a == -1) && (b == 0 || b == -1) then -Bit(OnBits(op, a == -1, b == -1))
    else 2 * Bitwise(op, a / 2, b / 2) + Bit(OnBits(op, a % 2 == 1, b % 2 == 1))
  }

  lemma BitwiseStep(op: BitOp, a: int, b: int)
    ensures Bitwise(op, a, b) == 2 * Bitwise(op, a / 2, b / 2) + Bit(OnBits(op, a % 2 == 1, b % 2 == 1))
  {
  }

  function TestBit(a: int, i: nat): bool
    decreases i
  {
    if i == 0 then a % 2 == 1 else TestBit(a / 2, i - 1)
  }

  /** Every bit of the result is the operation on the bits of the operands. */
  lemma {:induction false} BitwiseIsBitByBit(op: BitOp, a: int, b: int, i: nat)
    ensures TestBit(Bitwise(op, a, b), i) == OnBits(op, TestBit(a, i), TestBit(b, i))
    decreases i
  {
    BitwiseStep(op, a, b);
    var rest := Bitwise(op, a / 2, b / 2);
    hide Bitwise;
    assert Bitwise(op, a, b) / 2 == rest;
    if i > 0 {
      BitwiseIsBitByBit(op, a / 2, b / 2, i - 1);
    }
  }

  datatype Op = Add | Sub | Bits(op: BitOp) | Exchange

  function Apply(op: Op, old_: int, v: int): int {
    match op
    case Add => old_ + v
    case Sub => old_ - v
    case Bits(b) => Bitwise(b, old_, v)
    case Exchange => v
  }

  // ----- congruence -----

  lemma {:induction false} HalfModulus(a: int, w: nat)
    requires w > 0
    ensures a % Pow2(w) == 2 * ((a / 2) % Pow2(w - 1)) + a % 2
  {
    var m := Pow2(w - 1);
    var h := a / 2;
    assert h == h / m * m + h % m;
    assert a == 2 * h + a % 2;
    assert h / m * (2 * m) == 2 * (h / m * m);
    Cut(h / m, 2 * (h % m) + a % 2, 2 * m);
  }

  /** The low w bits of a bitwise result depend on the low w bits of the operands only. */
  lemma {:induction false} BitwiseLow(op: BitOp, a: int, b: int, c: int, w: nat)
    requires Congruent(b, c, Pow2(w))
    ensures Congruent(Bitwise(op, a, b), Bitwise(op, a, c), Pow2(w))
    decreases w
  {
    if w > 0 {
      SameHalves(b, c, w);
      BitwiseLow(op, a / 2, b / 2, c / 2, w - 1);
      BitwiseStep(op, a, b);
      BitwiseStep(op, a, c);
      hide Bitwise;
      SameDouble(Bitwise(op, a / 2, b / 2), Bitwise(op, a / 2, c / 2), Bit(OnBits(op, a % 2 == 1, b % 2 == 1)), w);
    } else {
      assert Pow2(0) == 1;
    }
  }

  lemma SameDouble(p: int, q: int, bit: int, w: nat)
    requires w > 0 && Congruent(p, q, Pow2(w - 1)) && 0 <= bit <= 1
    ensures Congruent(2 * p + bit, 2 * q + bit, Pow2(w))
  {
    HalfModulus(2 * p + bit, w);
    HalfModulus(2 * q + bit, w);
    hide Pow2;
    assert (2 * p + bit) / 2 == p && (2 * q + bit) / 2 == q;
  }

  lemma SameHalves(b: int, c: int, w: nat)
    requires w > 0 && b % Pow2(w) == c % Pow2(w)
    ensures b % 2 == c % 2 && (b / 2) % Pow2(w - 1) == (c / 2) % Pow2(w - 1)
  {
    HalfModulus(b, w);
    HalfModulus(c, w);
    var p, q := (b / 2) % Pow2(w - 1), (c / 2) % Pow2(w - 1);
    hide Pow2;
    assert 2 * p + b % 2 == 2 * q + c % 2;
  }

  /** Congruence is a difference that is a multiple of the modulus. */
  lemma CongruentBy(a: int, b: int, m: nat, q: int)
    requires m > 0 && a == b + q * m
    ensures Congruent(a, b, m)
  {
    assert b == b / m * m + b % m;
    assert a == (b / m + q) * m + b % m;
    Cut(b / m + q, b % m, m);
  }

  lemma Widths()
    ensures Pow2(7) == 0x80 && Pow2(8) == 0x100 && Pow2(15) == 0x8000 && Pow2(16) == 0x1_0000
    ensures Pow2(31) == 0x8000_0000 && Pow2(32) == 0x1_0000_0000
  {
    Pow2Add(8, 8);
    Pow2Add(16, 16);
    assert Pow2(32) == 2 * Pow2(31) && Pow2(16) == 2 * Pow2(15);
  }

  lemma ReduceOperand(v: int, w: nat)
    requires w <= 32
    ensures Congruent(v % 0x1_0000_0000, v, Pow2(w))
  {
    Widths();
    Pow2Add(32 - w, w);
    MultipleModulus(v, Pow2(32 - w), Pow2(w));
    hide Pow2;
  }

  lemma MultipleModulus(v: int, n: nat, m: nat)
    requires n > 0 && m > 0 && n * m > 0
    ensures Congruent(v % (n * m), v, m)
  {
    var q := v / (n * m);
    assert v == q * (n * m) + v % (n * m);
    TimesAssociates(q, n, m);
    CongruentBy(v % (n * m), v, m, 0 - q * n);
  }

  lemma TimesAssociates(q: int, n: int, m: int)
    ensures (0 - q * n) * m == 0 - q * (n * m)
  {
  }

  lemma SameElement(k: ElementKind, a: int, b: int)
    requires Congruent(a, b, Pow2(Width(k)))
    ensures Element(k, a) == Element(k, b)
  {
    if Signed(k) {
      AsIntNWraps(Width(k), a);
      SignedUnique(Width(k), b, AsIntN(Width(k), a));
    } else {
      AsUintNWraps(Width(k), a);
      UnsignedUnique(Width(k), b, AsUintN(Width(k), a));
    }
  }

  lemma AddCongruent(a: int, b: int, c: int, m: nat)
    requires m > 0 && Congruent(b, c, m)
    ensures Congruent(a + b, a + c, m) && Congruent(a - b, a - c, m)
  {
    assert b == b / m * m + b % m && c == c / m * m + c % m;
    var q := b / m - c / m;
    assert q * m == b / m * m - c / m * m && (0 - q) * m == 0 - q * m;
    CongruentBy(a + b, a + c, m, q);
    CongruentBy(a - b, a - c, m, 0 - q);
  }

  lemma ApplyCongruent(op: Op, a: int, b: int, c: int, w: nat)
    requires Congruent(b, c, Pow2(w))
    ensures Congruent(Apply(op, a, b), Apply(op, a, c), Pow2(w))
  {
    AddCongruent(a, b, c, Pow2(w));
    match op
    case Bits(o) => BitwiseLow(o, a, b, c, w);
    case _ =>
  }

  // ----- operands -----

  /** A coerced operand: ToIntegerOrInfinity gives a number or an infinity, ToBigInt a BigInt. */
  datatype Operand = Number(n: int) | Infinity | BigInteger(b: int)

  /** toUint32 of an integral number: modulo 2**32, and zero for an infinity. */
  function ToUint32(v: Operand): int
    requires !v.BigInteger?
  {
    match v
    case Number(n) => n % 0x1_0000_0000
    case Infinity => 0
  }

  /** What the standard means by the operand: an infinity counts as zero in every integer element type. */
  function Meaning(v: Operand): int {
    match v
    case Number(n) => n
    case Infinity => 0
    case BigInteger(b) => b
  }

  /** Reducing first stores the same element as not reducing, for every operation and every width up to 32. */
  lemma ReducedOperandStoresTheSame(k: ElementKind, op: Op, cell: int, v: Operand)
    requires !IsBig(k) && !v.BigInteger?
    ensures Element(k, Apply(op, cell, ToUint32(v))) == Element(k, Apply(op, cell, Meaning(v)))
  {
    ReduceOperand(Meaning(v), Width(k));
    ApplyCongruent(op, cell, ToUint32(v), Meaning(v), Width(k));
    SameElement(k, Apply(op, cell, ToUint32(v)), Apply(op, cell, Meaning(v)));
  }

  lemma {:induction false} BitwiseBounds(op: BitOp, a: int, b: int, w: nat)
    requires 0 - Pow2(w) <= a < Pow2(w) && 0 - Pow2(w) <= b < Pow2(w)
    ensures 0 - Pow2(w) <= Bitwise(op, a, b) < Pow2(w)
    decreases w
  {
    if w > 0 {
      BitwiseBounds(op, a / 2, b / 2, w - 1);
      BitwiseStep(op, a, b);
      hide Bitwise;
    }
  }

  lemma NarrowBounds(k: ElementKind, n: int)
    requires !IsBig(k) && InRange(k, n)
    ensures 0 - Pow2(32) <= n < Pow2(32)
  {
    Widths();
    hide Pow2;
  }

  /** The narrow operations stay far inside 64 bits, and inside the integers a double holds exactly. */
  lemma NarrowNeverOverflows(k: ElementKind, op: Op, cell: int, v: Operand)
    requires !IsBig(k) && !v.BigInteger? && InRange(k, cell)
    ensures -0x2_0000_0000 <= Apply(op, cell, ToUint32(v)) <= 0x2_0000_0000
  {
    Widths();
    NarrowBounds(k, cell);
    hide Pow2, InRange;
    match op
    case Bits(o) => BitwiseBounds(o, cell, ToUint32(v), 32);
    case _ =>
  }

  // ----- what is stored -----

  /** Bit i of a two's-complement number. */
  lemma {:induction false} TestBitIs(a: int, i: nat)
    ensures TestBit(a, i) <==> a / Pow2(i) % 2 == 1
    decreases i
  {
    if i > 0 {
      TestBitIs(a / 2, i - 1);
      DivideTwice(a, Pow2(i - 1));
    }
  }

  lemma DivideTwice(a: int, m: nat)
    requires m > 0
    ensures a / (2 * m) == a / 2 / m
  {
    var h := a / 2;
    assert h == h / m * m + h % m && a == 2 * h + a % 2;
    assert h / m * (2 * m) == 2 * (h / m * m);
    Cut(h / m, 2 * (h % m) + a % 2, 2 * m);
  }

  /** Congruent numbers have the same low bits. */
  lemma {:induction false} SameLowBits(a: int, b: int, i: nat, w: nat)
    requires Congruent(a, b, Pow2(w)) && i < w
    ensures TestBit(a, i) == TestBit(b, i)
    decreases i
  {
    SameHalves(a, b, w);
    if i > 0 {
      SameLowBits(a / 2, b / 2, i - 1, w - 1);
    }
  }

  /** The cell after an operation on what was there: the sum, the difference or the operand itself modulo the width, or the
    * operation on each bit of the width; always a number of the element type.
    */
  ghost predicate Stores(op: Op, k: ElementKind, was: int, v: Operand, cell: int) {
    var n, m := if v.Number? then v.n else if v.BigInteger? then v.b else 0, Pow2(Width(k));
    InRange(k, cell) &&
    match op
    case Add => Congruent(cell, was + n, m)
    case Sub => Congruent(cell, was - n, m)
    case Exchange => Congruent(cell, n, m)
    case Bits(Band) => forall i: nat | i < Width(k) :: TestBit(cell, i) == (TestBit(was, i) && TestBit(n, i))
    case Bits(Bor) => forall i: nat | i < Width(k) :: TestBit(cell, i) == (TestBit(was, i) || TestBit(n, i))
    case Bits(Bxor) => forall i: nat | i < Width(k) :: TestBit(cell, i) == (TestBit(was, i) != TestBit(n, i))
  }

  lemma ElementStores(op: Op, k: ElementKind, was: int, v: Operand)
    ensures Stores(op, k, was, v, Element(k, Apply(op, was, Meaning(v))))
  {
    var n := Meaning(v);
    var u := Apply(op, was, n);
    var cell := Element(k, u);
    ElementFits(k, u);
    if op.Bits? {
      forall i: nat | i < Width(k)
        ensures TestBit(cell, i) == OnBits(op.op, TestBit(was, i), TestBit(n, i))
      {
        SameLowBits(cell, u, i, Width(k));
        BitwiseIsBitByBit(op.op, was, n, i);
      }
    }
  }

  /** The element types, by their ranges. */
  lemma ElementRanges(n: int)
    ensures InRange(Int8, n) <==> -128 <= n <= 127
    ensures InRange(Uint8, n) <==> 0 <= n <= 255
    ensures InRange(Int16, n) <==> -32768 <= n <= 32767
    ensures InRange(Uint16, n) <==> 0 <= n <= 65535
    ensures InRange(Int32, n) <==> -2147483648 <= n <= 2147483647
    ensures InRange(Uint32, n) <==> 0 <= n <= 4294967295
    ensures InRange(BigInt64, n) <==> -9223372036854775808 <= n <= 9223372036854775807
    ensures InRange(BigUint64, n) <==> 0 <= n <= 18446744073709551615
    ensures forall k :: IsBig(k) <==> k == BigInt64 || k == BigUint64
  {
    Widths();
    WideWidths();
    hide Pow2;
  }

  lemma WideWidths()
    ensures Pow2(63) == 0x8000_0000_0000_0000 && Pow2(64) == 0x1_0000_0000_0000_0000
  {
    Widths();
    Pow2Add(32, 31);
    Pow2Add(32, 32);
    hide Pow2;
  }

  // ----- reading as an element -----

  /** atomicsNarrow: Go's conversions keep the low bits and read them as the type. */
  function Narrow(k: ElementKind, n: int): int {
    match k
    case Int8 => (n + 0x80) % 0x100 - 0x80
    case Uint8 => n % 0x100
    case Int16 => (n + 0x8000) % 0x1_0000 - 0x8000
    case Uint16 => n % 0x1_0000
    case Int32 => (n + 0x8000_0000) % 0x1_0000_0000 - 0x8000_0000
    case Uint32 => n % 0x1_0000_0000
    case _ => n
  }

  /** The conversion is the element: in range and congruent. */
  lemma NarrowIsElement(k: ElementKind, n: int)
    requires !IsBig(k)
    ensures Narrow(k, n) == Element(k, n)
  {
    Widths();
    hide Pow2, AsIntN, AsUintN;
    if Signed(k) {
      OffsetIsSigned(n, Width(k));
    } else {
      RemainderIsUnsigned(n, Width(k));
    }
  }

  lemma RemainderIsUnsigned(n: int, w: nat)
    ensures n % Pow2(w) == AsUintN(w, n)
  {
    InRangeIsOwnRemainder(n % Pow2(w), Pow2(w));
    UnsignedUnique(w, n, n % Pow2(w));
  }

  lemma OffsetIsSigned(n: int, w: nat)
    requires w > 0
    ensures (n + Pow2(w - 1)) % Pow2(w) - Pow2(w - 1) == AsIntN(w, n)
  {
    OffsetWraps(n, w);
    SignedUnique(w, n, (n + Pow2(w - 1)) % Pow2(w) - Pow2(w - 1));
  }

  /** Shifting by half the modulus before and after reducing gives the signed reading. */
  lemma OffsetWraps(n: int, w: nat)
    requires w > 0
    ensures var r := (n + Pow2(w - 1)) % Pow2(w) - Pow2(w - 1);
            FitsSigned(w, r) && Congruent(r, n, Pow2(w))
  {
    var h, m := Pow2(w - 1), Pow2(w);
    assert m == 2 * h;
    hide Pow2;
    var q := (n + h) / m;
    assert n + h == q * m + (n + h) % m;
    assert (0 - q) * m == 0 - q * m;
    CongruentBy((n + h) % m - h, n, m, 0 - q);
  }

  /** compareExchange replaces exactly when the cell is congruent to the expectation, reduced or not. */
  lemma ExpectationMatches(k: ElementKind, cell: int, expected: Operand)
    requires !IsBig(k) && !expected.BigInteger? && InRange(k, cell)
    ensures cell == Narrow(k, ToUint32(expected)) <==> Congruent(cell, Meaning(expected), Pow2(Width(k)))
  {
    NarrowIsElement(k, ToUint32(expected));
    ReduceOperand(Meaning(expected), Width(k));
    SameElement(k, ToUint32(expected), Meaning(expected));
    ElementMatches(k, cell, Meaning(expected));
  }

  lemma ElementMatches(k: ElementKind, cell: int, n: int)
    requires InRange(k, cell)
    ensures cell == Element(k, n) <==> Congruent(cell, n, Pow2(Width(k)))
  {
    ElementFits(k, n);
    if Congruent(cell, n, Pow2(Width(k))) {
      if Signed(k) {
        SignedUnique(Width(k), n, cell);
      } else {
        UnsignedUnique(Width(k), n, cell);
      }
    }
  }

  lemma ElementFits(k: ElementKind, n: int)
    ensures InRange(k, Element(k, n)) && Congruent(Element(k, n), n, Pow2(Width(k)))
  {
    if Signed(k) {
      AsIntNWraps(Width(k), n);
    } else {
      AsUintNWraps(Width(k), n);
    }
  }

  /** atomicsWrapBig. */
  function WrapBig(k: ElementKind, v: int): int {
    if k == BigUint64 then AsUintN(64, v) else AsIntN(64, v)
  }

  lemma WrapBigIsElement(k: ElementKind, v: int)
    requires IsBig(k)
    ensures WrapBig(k, v) == Element(k, v)
    ensures InRange(k, v) ==> WrapBig(k, v) == v
  {
    if InRange(k, v) {
      ElementMatches(k, v, v);
    }
  }

  // ----- a typed array under read-modify-write -----

  datatype Failure = TypeError | RangeError

  /** What a valueOf may do to the view while an argument is coerced. */
  datatype Effect = Nothing | Detaches | Leaves(cells: seq<int>)

  /** None is a detached buffer. */
  type Contents = Option<seq<int>>

  function After(c: Contents, e: Effect): Contents {
    match e
    case Nothing => c
    case Detaches => None
    case Leaves(cells) => if c.None? then None else Some(cells)
  }

  predicate Fits(k: ElementKind, cells: seq<int>) {
    forall i :: 0 <= i < |cells| ==> InRange(k, cells[i])
  }

  /** Whether the view still has the element, after coercions have run. */
  function Recheck(c: Contents, index: nat): Result<int, Failure> {
    match c
    case None => Err(TypeError)
    case Some(cells) => if index < |cells| then Ok(cells[index]) else Err(RangeError)
  }

  predicate Accepts(k: ElementKind, v: Operand) {
    IsBig(k) == v.BigInteger?
  }

  class View {
    const kind: ElementKind
    var contents: Contents

    constructor (kind: ElementKind, cells: seq<int>)
      requires Fits(kind, cells)
      ensures this.kind == kind && contents == Some(cells) && Valid()
    {
      this.kind, contents := kind, Some(cells);
    }

    predicate Valid()
      reads this
    {
      contents.Some? ==> Fits(kind, contents.value)
    }

    /** An argument coercion runs its script. */
    method Coerce(e: Effect)
      requires Valid() && (e.Leaves? ==> Fits(kind, e.cells))
      modifies this
      ensures Valid() && contents == After(old(contents), e)
      ensures e.Nothing? || old(contents).None? ==> contents == old(contents)
      ensures e.Detaches? ==> contents == None
      ensures e.Leaves? && old(contents).Some? ==> contents == Some(e.cells)
    {
      contents := After(contents, e);
    }

    /** atomicsIndex: judged against the length from before the coercion. */
    method CheckedIndex(index: nat, e: Effect) returns (ok: bool)
      requires Valid() && contents.Some? && (e.Leaves? ==> Fits(kind, e.cells))
      modifies this
      ensures Valid() && contents == After(old(contents), e)
      ensures ok <==> index < |old(contents).value|
    {
      var length := |contents.value|;
      Coerce(e);
      ok := index < length;
    }

    method Put(index: nat, n: int)
      requires Valid() && contents.Some? && index < |contents.value|
      modifies this
      ensures Valid() && contents == Some(old(contents).value[index := Element(kind, n)])
    {
      ElementFits(kind, n);
      contents := Some(contents.value[index := Element(kind, n)]);
    }

    /** atomicsRMW: the answer is the old element, and the cell holds what the unreduced operation stores. */
    method ReadModifyWrite(op: Op, index: nat, onIndex: Effect, v: Operand, onOperand: Effect)
      returns (r: Result<int, Failure>)
      requires Valid() && (onIndex.Leaves? ==> Fits(kind, onIndex.cells)) && (onOperand.Leaves? ==> Fits(kind, onOperand.cells))
      modifies this
      ensures Valid()
      ensures old(contents).None? ==> r == Err(TypeError) && contents == None
      ensures old(contents).Some? && index >= |old(contents).value| ==>
                r == Err(RangeError) && contents == After(old(contents), onIndex)
      ensures old(contents).Some? && index < |old(contents).value| ==>
                var now := After(After(old(contents), onIndex), onOperand);
                if !Accepts(kind, v) then r == Err(TypeError) && contents == now
                else
                  && r == Recheck(now, index)
                  && contents == if r.Err? then now else Some(now.value[index := Element(kind, Apply(op, r.value, Meaning(v)))])
      ensures r.Ok? ==>
                var now := After(After(old(contents), onIndex), onOperand);
                && now.Some? && index < |now.value| && r.value == now.value[index]
                && contents.Some? && |contents.value| == |now.value|
                && (forall i | 0 <= i < |now.value| && i != index :: contents.value[i] == now.value[i])
                && Stores(op, kind, r.value, v, contents.value[index])
    {
      if contents.None? {
        return Err(TypeError);
      }
      var ok := CheckedIndex(index, onIndex);
      if !ok {
        return Err(RangeError);
      }
      Coerce(onOperand);
      if !Accepts(kind, v) {
        return Err(TypeError);
      }
      if contents.None? {
        return Err(TypeError);
      }
      if index >= |contents.value| {
        return Err(RangeError);
      }
      var cell := contents.value[index];
      ElementStores(op, kind, cell, v);
      hide Stores;
      if IsBig(kind) {
        Put(index, Apply(op, cell, v.b));
        WrapBigIsElement(kind, cell);
        return Ok(WrapBig(kind, cell));
      }
      ReducedOperandStoresTheSame(kind, op, cell, v);
      Put(index, Apply(op, cell, ToUint32(v)));
      return Ok(cell);
    }

    /** compareExchange: the cell is replaced exactly when it is congruent to the expectation. */
    method CompareExchange(index: nat, onIndex: Effect, expected: Operand, onExpected: Effect,
                           replacement: Operand, onReplacement: Effect)
      returns (r: Result<int, Failure>)
      requires Valid() && (onIndex.Leaves? ==> Fits(kind, onIndex.cells))
      requires (onExpected.Leaves? ==> Fits(kind, onExpected.cells)) && (onReplacement.Leaves? ==> Fits(kind, onReplacement.cells))
      modifies this
      ensures Valid()
      ensures old(contents).None? ==> r == Err(TypeError) && contents == None
      ensures old(contents).Some? && index >= |old(contents).value| ==>
                r == Err(RangeError) && contents == After(old(contents), onIndex)
      ensures old(contents).Some? && index < |old(contents).value| ==>
                var first := After(After(old(contents), onIndex), onExpected);
                var now := After(first, onReplacement);
                if !Accepts(kind, expected) then r == Err(TypeError) && contents == first
                else if !Accepts(kind, replacement) then r == Err(TypeError) && contents == now
                else
                  && r == Recheck(now, index)
                  && contents == if r.Ok? && Congruent(r.value, Meaning(expected), Pow2(Width(kind)))
                                 then Some(now.value[index := Element(kind, Meaning(replacement))])
                                 else now
      ensures r.Ok? ==>
                var now := After(After(After(old(contents), onIndex), onExpected), onReplacement);
                var e := if expected.Number? then expected.n else if expected.BigInteger? then expected.b else 0;
                && now.Some? && index < |now.value| && r.value == now.value[index]
                && contents.Some? && |contents.value| == |now.value|
                && (forall i | 0 <= i < |now.value| && i != index :: contents.value[i] == now.value[i])
                && if Congruent(r.value, e, Pow2(Width(kind))) then Stores(Exchange, kind, r.value, replacement, contents.value[index])
                   else contents == now
    {
      hide Pow2, Element, Narrow, InRange, Congruent;
      if contents.None? {
        return Err(TypeError);
      }
      var ok := CheckedIndex(index, onIndex);
      if !ok {
        return Err(RangeError);
      }
      Coerce(onExpected);
      if !Accepts(kind, expected) {
        return Err(TypeError);
      }
      Coerce(onReplacement);
      if !Accepts(kind, replacement) {
        return Err(TypeError);
      }
      r := Recheck(contents, index);
      if r.Err? {
        return;
      }
      var cell := r.value;
      ElementStores(Exchange, kind, cell, replacement);
      hide Stores;
      if IsBig(kind) {
        WrapBigIsElement(kind, expected.b);
        ElementMatches(kind, cell, expected.b);
        if cell == WrapBig(kind, expected.b) {
          Put(index, replacement.b);
        }
        return;
      }
      ExpectationMatches(kind, cell, expected);
      ReducedOperandStoresTheSame(kind, Exchange, cell, replacement);
      if cell == Narrow(kind, ToUint32(expected)) {
        Put(index, ToUint32(replacement));
      }
    }
  }
}
