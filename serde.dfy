/** The serde vocabulary the interposition layer speaks: fixed-width integers, opaque
    floats, the primitive visitor callbacks, `Unexpected` descriptions and the error kinds.
    Nothing here is specific to variable expansion. */
module Serde {

  datatype Option<+T> = None | Some(value: T)

  datatype Result<+T> = Ok(value: T) | Err(error: Error)

  /** Rust's integer widths as bounds on unbounded integers. */
  type u8 = n: int | 0 <= n < 0x100
  type u16 = n: int | 0 <= n < 0x1_0000
  type u32 = n: int | 0 <= n < 0x1_0000_0000
  type u64 = n: int | 0 <= n < 0x1_0000_0000_0000_0000
  type i8 = n: int | -0x80 <= n < 0x80
  type i16 = n: int | -0x8000 <= n < 0x8000
  type i32 = n: int | -0x8000_0000 <= n < 0x8000_0000
  type i64 = n: int | -0x8000_0000_0000_0000 <= n < 0x8000_0000_0000_0000

  type Bytes = seq<u8>

  /** IEEE-754 values are opaque: a float is its bit pattern and no arithmetic is modelled. */
  datatype F32 = F32(bits: bv32)
  datatype F64 = F64(bits: bv64)

  datatype IntKind = I8 | I16 | I32 | I64 | U8 | U16 | U32 | U64 {
    predicate Signed() { this in {I8, I16, I32, I64} }

    function Min(): int {
      match this
      case I8 => -0x80
      case I16 => -0x8000
      case I32 => -0x8000_0000
      case I64 => -0x8000_0000_0000_0000
      case _ => 0
    }

    /** One past the largest value of the width. */
    function Bound(): int {
      match this
      case I8 => 0x80
      case I16 => 0x8000
      case I32 => 0x8000_0000
      case I64 => 0x8000_0000_0000_0000
      case U8 => 0x100
      case U16 => 0x1_0000
      case U32 => 0x1_0000_0000
      case U64 => 0x1_0000_0000_0000_0000
    }

    predicate Holds(n: int) { Min() <= n < Bound() }
  }

  datatype FloatKind = F32Kind | F64Kind

  /** `Cow`: a text or byte payload either borrowed from the input or owned. */
  datatype Cow<+T> = Owned(v: T) | Borrowed(v: T)

  /** The primitive callbacks of serde's `Visitor`.  `VisitStr`/`VisitBytes` hand over a
      transient borrow, the `Borrowed` forms a borrow of the decoder's input and
      `VisitString`/`VisitByteBuf` an owned value. */
  datatype Visit =
    | VisitBool(b: bool)
    | VisitI8(i8: i8) | VisitI16(i16: i16) | VisitI32(i32: i32) | VisitI64(i64: i64) | VisitI128(i128: int)
    | VisitU8(u8: u8) | VisitU16(u16: u16) | VisitU32(u32: u32) | VisitU64(u64: u64) | VisitU128(u128: nat)
    | VisitF32(f32: F32) | VisitF64(f64: F64)
    | VisitChar(c: char)
    | VisitStr(s: string) | VisitBorrowedStr(s: string) | VisitString(s: string)
    | VisitBytes(bs: Bytes) | VisitBorrowedBytes(bs: Bytes) | VisitByteBuf(bs: Bytes)
    | VisitUnit
  {
    predicate IsText() { VisitStr? || VisitBorrowedStr? || VisitString? }

    predicate IsByteSeq() { VisitBytes? || VisitBorrowedBytes? || VisitByteBuf? }

    /** The callback with the same payload that hands over an owned value. */
    function Owning(): Visit {
      match this
      case VisitStr(s) => VisitString(s)
      case VisitBorrowedStr(s) => VisitString(s)
      case VisitBytes(bs) => VisitByteBuf(bs)
      case VisitBorrowedBytes(bs) => VisitByteBuf(bs)
      case _ => this
    }
  }

  /** A primitive value with ownership forgotten. */
  datatype Prim =
    | PBool(b: bool)
    | PInt(kind: IntKind, n: int)
    | PF32(f32: F32) | PF64(f64: F64)
    | PChar(c: char)
    | PText(s: string)
    | PBytes(bs: Bytes)

  /** The value a primitive callback carries; `None` for the 128-bit and unit callbacks. */
  function ValueOf(v: Visit): Option<Prim> {
    match v
    case VisitBool(b) => Some(PBool(b))
    case VisitI8(n) => Some(PInt(I8, n))
    case VisitI16(n) => Some(PInt(I16, n))
    case VisitI32(n) => Some(PInt(I32, n))
    case VisitI64(n) => Some(PInt(I64, n))
    case VisitU8(n) => Some(PInt(U8, n))
    case VisitU16(n) => Some(PInt(U16, n))
    case VisitU32(n) => Some(PInt(U32, n))
    case VisitU64(n) => Some(PInt(U64, n))
    case VisitF32(f) => Some(PF32(f))
    case VisitF64(f) => Some(PF64(f))
    case VisitChar(c) => Some(PChar(c))
    case VisitStr(s) => Some(PText(s))
    case VisitBorrowedStr(s) => Some(PText(s))
    case VisitString(s) => Some(PText(s))
    case VisitBytes(bs) => Some(PBytes(bs))
    case VisitBorrowedBytes(bs) => Some(PBytes(bs))
    case VisitByteBuf(bs) => Some(PBytes(bs))
    case _ => None
  }

  /** The integer callback of a given width. */
  function IntVisit(k: IntKind, n: int): (v: Visit)
    requires k.Holds(n)
    ensures ValueOf(v) == Some(PInt(k, n))
  {
    match k
    case I8 => VisitI8(n)
    case I16 => VisitI16(n)
    case I32 => VisitI32(n)
    case I64 => VisitI64(n)
    case U8 => VisitU8(n)
    case U16 => VisitU16(n)
    case U32 => VisitU32(n)
    case U64 => VisitU64(n)
  }

  /** serde's `Unexpected`: how an encountered value is described in an error. */
  datatype FloatValue = Single(f32: F32) | Double(f64: F64)

  datatype Unexpected =
    | UBool(b: bool)
    | Unsigned(u: u64)
    | Signed(i: i64)
    | Float(f: FloatValue)
    | UChar(c: char)
    | UStr(s: string)
    | UBytes(bs: Bytes)
    | UUnit | UOption | UNewtypeStruct | USeq | UMap | UEnum
    | UOther

  /** The description of a primitive value: integers widened to 64 bits by signedness. */
  function Describe(p: Prim): (u: Unexpected)
    ensures p.PInt? && p.kind.Holds(p.n) && !p.kind.Signed() ==> u.Unsigned? && u.u == p.n
    ensures p.PInt? && p.kind.Holds(p.n) && p.kind.Signed() ==> u.Signed? && u.i == p.n
    ensures p.PText? ==> u == UStr(p.s)
    ensures p.PBytes? ==> u == UBytes(p.bs)
  {
    match p
    case PBool(b) => UBool(b)
    case PInt(k, n) =>
      if k.Signed() then Signed(if k.Holds(n) then n else 0) else Unsigned(if k.Holds(n) then n else 0)
    case PF32(f) => Float(Single(f))
    case PF64(f) => Float(Double(f))
    case PChar(c) => UChar(c)
    case PText(s) => UStr(s)
    case PBytes(bs) => UBytes(bs)
  }

  /** The `deserialize_*` requests a `Deserializer` answers. */
  datatype Request =
    | AnyReq | BoolReq | IntReq(kind: IntKind) | FloatReq(fkind: FloatKind) | CharReq
    | StrReq | StringReq | BytesReq | ByteBufReq
    | OptionReq | UnitReq | UnitStructReq | NewtypeStructReq
    | SeqReq | TupleReq | TupleStructReq | MapReq | StructReq | EnumReq
    | IdentifierReq | IgnoredAnyReq
  {
    predicate IsText() { StrReq? || StringReq? }

    predicate IsByteSeq() { BytesReq? || ByteBufReq? }
  }

  /** What the visitor behind a request expects, as its `expecting` would describe it. */
  function ExpectedFor(req: Request): Expected {
    match req
    case BoolReq => ExpectBool
    case IntReq(k) => ExpectInt(k)
    case FloatReq(f) => ExpectFloat(f)
    case CharReq => ExpectChar
    case StrReq => ExpectString
    case StringReq => ExpectString
    case IdentifierReq => ExpectString
    case BytesReq => ExpectBytes
    case ByteBufReq => ExpectBytes
    case _ => ExpectShape
  }

  /** What a failing visitor or source expected. */
  datatype Expected =
    | ExpectBool | ExpectInt(kind: IntKind) | ExpectFloat(fkind: FloatKind) | ExpectChar
    | ExpectString | ExpectBytes | ExpectByteArray | ExpectPrimitive | ExpectShape

  /** The error kinds that reach the caller.  Message wording is not modelled. */
  datatype Error =
    | InvalidType(unexpected: Unexpected, expected: Expected)
    | InvalidValue(unexpected: Unexpected, expected: Expected)
    | InvalidLength(len: nat, expected: Expected)
    | MissingVariable(placeholder: string)
    | ExpectedVariable(text: string, expected: Expected)
    | MismatchedType(placeholder: string, found: Unexpected, expected: Expected)
}
