/** How `Transaction` keeps the old contents of a field or of a primitive array element:
    every value is widened to an unsigned 64-bit number when it is recorded and narrowed
    back to its own type when it is undone. */
module FieldValues {

  const TWO_8: int := 0x100
  const TWO_16: int := 0x1_0000
  const TWO_32: int := 0x1_0000_0000
  const TWO_64: int := 0x1_0000_0000_0000_0000

  /** `ObjectLog::FieldValueKind`. */
  datatype Kind = KBoolean | KByte | KChar | KShort | K32Bits | K64Bits | KReference

  /** The integral and floating-point component types of primitive arrays. */
  datatype PrimType = PBoolean | PByte | PChar | PShort | PInt | PLong | PFloat | PDouble

  /** The floating-point values that are not a number of their own. */
  datatype Special = NegativeZero | PositiveInfinity | NegativeInfinity | NaN

  /** A primitive array element. Floating-point elements are modelled as real numbers and the special
      values. */
  datatype Elem = Int(n: int) | Flt(x: real) | Spc(s: Special)

  predicate IsU64(u: int) {
    0 <= u < TWO_64
  }

  /** The values a scalar field of the given kind can hold. */
  predicate InRange(kind: Kind, n: int) {
    match kind
    case KBoolean => 0 <= n < TWO_8
    case KByte => -0x80 <= n < 0x80
    case KChar => 0 <= n < TWO_16
    case KShort => -0x8000 <= n < 0x8000
    case K32Bits => 0 <= n < TWO_32
    case K64Bits => 0 <= n < TWO_64
    case KReference => false
  }

  predicate ElemInRange(ty: PrimType, e: Elem) {
    match ty
    case PBoolean => e.Int? && 0 <= e.n < TWO_8
    case PByte => e.Int? && -0x80 <= e.n < 0x80
    case PChar => e.Int? && 0 <= e.n < TWO_16
    case PShort => e.Int? && -0x8000 <= e.n < 0x8000
    case PInt => e.Int? && -0x8000_0000 <= e.n < 0x8000_0000
    case PLong => e.Int? && -0x8000_0000_0000_0000 <= e.n < 0x8000_0000_0000_0000
    case PFloat => e.Flt? || e.Spc?
    case PDouble => e.Flt? || e.Spc?
  }

  /** Implicit conversion of an integer to `uint64_t`: reduction modulo 2^64. */
  function Widen(n: int): (u: int)
    requires -TWO_64 <= n < TWO_64
    ensures IsU64(u)
  {
    if n < 0 then n + TWO_64 else n
  }

  /** Conversion of a `uint64_t` to an unsigned integer of `modulus` values. */
  function ToUnsigned(u: int, modulus: int): (n: int)
    requires modulus > 0
    ensures 0 <= n < modulus
  {
    u % modulus
  }

  /** Conversion of a `uint64_t` to a two's complement integer of `modulus` values. */
  function ToSigned(u: int, modulus: int): (n: int)
    requires modulus > 0
    ensures -modulus <= 2 * n < modulus
  {
    var low := u % modulus;
    if 2 * low >= modulus then low - modulus else low
  }

  /** The cast `UndoFieldWrite` applies to a logged value of a scalar kind. */
  function Narrow(kind: Kind, u: int): (n: int)
    requires !kind.KReference?
    ensures InRange(kind, n)
  {
    match kind
    case KBoolean => ToUnsigned(u, TWO_8)
    case KByte => ToSigned(u, TWO_8)
    case KChar => ToUnsigned(u, TWO_16)
    case KShort => ToSigned(u, TWO_16)
    case K32Bits => ToUnsigned(u, TWO_32)
    case K64Bits => ToUnsigned(u, TWO_64)
  }

  lemma SignedRoundTrip8(n: int)
    requires -0x80 <= n < 0x80
    ensures ToSigned(Widen(n), TWO_8) == n
  {
    if n < 0 {
      assert Widen(n) == 0xff_ffff_ffff_ffff * TWO_8 + (n + TWO_8);
    }
  }

  lemma SignedRoundTrip16(n: int)
    requires -0x8000 <= n < 0x8000
    ensures ToSigned(Widen(n), TWO_16) == n
  {
    if n < 0 {
      assert Widen(n) == 0xffff_ffff_ffff * TWO_16 + (n + TWO_16);
    }
  }

  lemma SignedRoundTrip32(n: int)
    requires -0x8000_0000 <= n < 0x8000_0000
    ensures ToSigned(Widen(n), TWO_32) == n
  {
    if n < 0 {
      assert Widen(n) == 0xffff_ffff * TWO_32 + (n + TWO_32);
    }
  }

  lemma SignedRoundTrip64(n: int)
    requires -0x8000_0000_0000_0000 <= n < 0x8000_0000_0000_0000
    ensures ToSigned(Widen(n), TWO_64) == n
  {
    if n < 0 {
      assert Widen(n) == 0 * TWO_64 + (n + TWO_64);
    }
  }

  /** A number and its 64-bit form agree modulo 2^64. */
  lemma WidenIsModular(n: int)
    requires -TWO_64 <= n < TWO_64
    ensures Widen(n) == n % 0x1_0000_0000_0000_0000
  {
  }

  /** Narrowing keeps the low bits: the result is in the range of the kind and differs from the record by
      a multiple of the number of its values. */
  lemma NarrowIsModular(kind: Kind, u: int) returns (q: int)
    requires kind != KReference
    ensures match kind
      case KBoolean => 0 <= Narrow(kind, u) < 0x100 && u == Narrow(kind, u) + q * 0x100
      case KByte => -0x80 <= Narrow(kind, u) < 0x80 && u == Narrow(kind, u) + q * 0x100
      case KChar => 0 <= Narrow(kind, u) < 0x1_0000 && u == Narrow(kind, u) + q * 0x1_0000
      case KShort => -0x8000 <= Narrow(kind, u) < 0x8000 && u == Narrow(kind, u) + q * 0x1_0000
      case K32Bits => 0 <= Narrow(kind, u) < 0x1_0000_0000 && u == Narrow(kind, u) + q * 0x1_0000_0000
      case K64Bits => 0 <= Narrow(kind, u) < TWO_64 && u == Narrow(kind, u) + q * TWO_64
      case KReference => true
  {
    match kind
    case KBoolean => q := u / TWO_8;
    case KByte => q := if Narrow(kind, u) < 0 then u / TWO_8 + 1 else u / TWO_8;
    case KChar => q := u / TWO_16;
    case KShort => q := if Narrow(kind, u) < 0 then u / TWO_16 + 1 else u / TWO_16;
    case K32Bits => q := u / TWO_32;
    case K64Bits => q := u / TWO_64;
    case KReference => q := 0;
  }

  /** A scalar field value of any kind survives being logged and undone. */
  lemma ScalarRoundTrip(kind: Kind, n: int)
    requires InRange(kind, n)
    ensures Narrow(kind, Widen(n)) == n
  {
    match kind
    case KByte => SignedRoundTrip8(n);
    case KShort => SignedRoundTrip16(n);
    case _ =>
  }

  /** Conversion of a floating-point number to `uint64_t`. It truncates towards zero; when the
      truncated number does not fit, the language leaves the result open and `undef` stands
      for whatever comes out. */
  function TruncateToU64(x: real, undef: int): (u: int)
    requires IsU64(undef)
    ensures IsU64(u)
  {
    if 0.0 <= x < TWO_64 as real then x.Floor
    else if -1.0 < x < 0.0 then 0
    else undef
  }

  /** The conversion applied when `PrimitiveArray::SetWithoutChecks` hands the old element to
      `RecordWriteArray`. */
  function WidenElem(e: Elem, undef: int): (u: int)
    requires IsU64(undef)
    requires e.Int? ==> -TWO_64 <= e.n < TWO_64
    ensures IsU64(u)
  {
    match e
    case Int(n) => Widen(n)
    case Flt(x) => TruncateToU64(x, undef)
    case Spc(s) => if s.NegativeZero? then 0 else undef
  }

  /** The cast `UndoArrayWrite` applies for each component type. */
  function NarrowElem(ty: PrimType, u: int): (e: Elem)
    ensures ElemInRange(ty, e)
  {
    match ty
    case PBoolean => Int(ToUnsigned(u, TWO_8))
    case PByte => Int(ToSigned(u, TWO_8))
    case PChar => Int(ToUnsigned(u, TWO_16))
    case PShort => Int(ToSigned(u, TWO_16))
    case PInt => Int(ToSigned(u, TWO_32))
    case PLong => Int(ToSigned(u, TWO_64))
    case PFloat => Flt(u as real)
    case PDouble => Flt(u as real)
  }

  /** The elements whose recorded number stands for them exactly: every integer, and the
      non-negative whole numbers below 2^64 among the floating-point values. */
  predicate Exact(e: Elem) {
    match e
    case Int(n) => true
    case Flt(x) => x == x.Floor as real && 0.0 <= x < TWO_64 as real
    case Spc(_) => false
  }

  /** An array element comes back as it was if and only if it is exact. In particular every
      integral element does; a float element with a fraction or a sign, an infinity or a NaN does
      not. */
  lemma ElemRoundTrip(ty: PrimType, e: Elem, undef: int)
    requires IsU64(undef)
    requires ElemInRange(ty, e)
    ensures NarrowElem(ty, WidenElem(e, undef)) == e <==> Exact(e)
  {
    match ty
    case PByte => SignedRoundTrip8(e.n);
    case PShort => SignedRoundTrip16(e.n);
    case PInt => SignedRoundTrip32(e.n);
    case PLong => SignedRoundTrip64(e.n);
    case _ =>
  }

  /** A float array element holding 1.5 comes back as 1.0. */
  lemma FractionIsLost(undef: int)
    requires IsU64(undef)
    ensures NarrowElem(PFloat, WidenElem(Flt(1.5), undef)) == Flt(1.0)
  {
    var f := (1.5).Floor;
    assert f == 1;
  }
}
