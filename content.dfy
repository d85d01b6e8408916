/** `Content`: a primitive value captured from the wrapped decoder by asking it to describe
    itself, remembering whether text and bytes were borrowed from its input. */
module Contents {
  import opened Serde

  datatype Content =
    | Bool(b: bool)
    | U8(u8: u8) | U16(u16: u16) | U32(u32: u32) | U64(u64: u64)
    | I8(i8: i8) | I16(i16: i16) | I32(i32: i32) | I64(i64: i64)
    | F32(f32: Serde.F32) | F64(f64: Serde.F64)
    | Char(c: char)
    | String(s: string)
    | Str(s: string)
    | ByteBuf(bs: Bytes)
    | Bytes(bs: Bytes)
  {
    /** The captured value with ownership forgotten. */
    function Value(): Prim {
      match this
      case Bool(b) => PBool(b)
      case U8(n) => PInt(IntKind.U8, n)
      case U16(n) => PInt(IntKind.U16, n)
      case U32(n) => PInt(IntKind.U32, n)
      case U64(n) => PInt(IntKind.U64, n)
      case I8(n) => PInt(IntKind.I8, n)
      case I16(n) => PInt(IntKind.I16, n)
      case I32(n) => PInt(IntKind.I32, n)
      case I64(n) => PInt(IntKind.I64, n)
      case F32(f) => PF32(f)
      case F64(f) => PF64(f)
      case Char(c) => PChar(c)
      case String(s) => PText(s)
      case Str(s) => PText(s)
      case ByteBuf(bs) => PBytes(bs)
      case Bytes(bs) => PBytes(bs)
    }

    predicate IsText() { String? || Str? }

    predicate IsBorrowed() { Str? || Bytes? }

    predicate IsByteSeq() { ByteBuf? || Bytes? }

    /** Captured text as the `Cow` handed to a source. */
    function TextCow(): (t: Cow<string>)
      requires IsText()
      ensures t.v == s && (t.Borrowed? <==> Str?)
    {
      if Str? then Borrowed(s) else Owned(s)
    }

    /** Captured bytes as the `Cow` handed to a source. */
    function BytesCow(): (b: Cow<Serde.Bytes>)
      requires IsByteSeq()
      ensures b.v == bs && (b.Borrowed? <==> Bytes?)
    {
      if Bytes? then Borrowed(bs) else Owned(bs)
    }

    /** `Content::unexpected`: integers widened to 64 bits by signedness, text and bytes
        described by their contents whoever owns them. */
    function Unexpected(): (u: Serde.Unexpected)
      ensures u == Describe(Value())
      ensures IsText() ==> u == UStr(s)
    {
      match this
      case Bool(b) => UBool(b)
      case U8(n) => Unsigned(n)
      case U16(n) => Unsigned(n)
      case U32(n) => Unsigned(n)
      case U64(n) => Unsigned(n)
      case I8(n) => Signed(n)
      case I16(n) => Signed(n)
      case I32(n) => Signed(n)
      case I64(n) => Signed(n)
      case F32(f) => Float(Single(f))
      case F64(f) => Float(Double(f))
      case Char(c) => UChar(c)
      case String(s) => UStr(s)
      case Str(s) => UStr(s)
      case ByteBuf(bs) => UBytes(bs)
      case Bytes(bs) => UBytes(bs)
    }
  }

  /** `ContentVisitor`: the value a primitive callback delivers.  A transient `visit_str` or
      `visit_bytes` is copied into an owned value; the 128-bit callbacks and `visit_unit`
      fall back to serde's default, which rejects the type. */
  function Capture(v: Visit): (r: Result<Content>)
    ensures match r
      case Ok(c) => ValueOf(v) == Some(c.Value())
        && (c.IsBorrowed() <==> v.VisitBorrowedStr? || v.VisitBorrowedBytes?)
      case Err(e) => ValueOf(v).None? && e == InvalidType(if v.VisitUnit? then UUnit else UOther, ExpectPrimitive)
  {
    match v
    case VisitBool(b) => Ok(Bool(b))
    case VisitI8(n) => Ok(Content.I8(n))
    case VisitI16(n) => Ok(Content.I16(n))
    case VisitI32(n) => Ok(Content.I32(n))
    case VisitI64(n) => Ok(Content.I64(n))
    case VisitI128(_) => Err(InvalidType(UOther, ExpectPrimitive))
    case VisitU8(n) => Ok(Content.U8(n))
    case VisitU16(n) => Ok(Content.U16(n))
    case VisitU32(n) => Ok(Content.U32(n))
    case VisitU64(n) => Ok(Content.U64(n))
    case VisitU128(_) => Err(InvalidType(UOther, ExpectPrimitive))
    case VisitF32(f) => Ok(Content.F32(f))
    case VisitF64(f) => Ok(Content.F64(f))
    case VisitChar(c) => Ok(Char(c))
    case VisitStr(s) => Ok(String(s))
    case VisitBorrowedStr(s) => Ok(Str(s))
    case VisitString(s) => Ok(String(s))
    case VisitBytes(bs) => Ok(ByteBuf(bs))
    case VisitBorrowedBytes(bs) => Ok(Bytes(bs))
    case VisitByteBuf(bs) => Ok(ByteBuf(bs))
    case VisitUnit => Err(InvalidType(UUnit, ExpectPrimitive))
  }

  /** The callback that hands a captured value on unchanged. */
  function Replay(c: Content): (v: Visit)
    ensures ValueOf(v) == Some(c.Value())
    ensures v.VisitBorrowedStr? || v.VisitBorrowedBytes? <==> c.IsBorrowed()
  {
    match c
    case Bool(b) => VisitBool(b)
    case U8(n) => VisitU8(n)
    case U16(n) => VisitU16(n)
    case U32(n) => VisitU32(n)
    case U64(n) => VisitU64(n)
    case I8(n) => VisitI8(n)
    case I16(n) => VisitI16(n)
    case I32(n) => VisitI32(n)
    case I64(n) => VisitI64(n)
    case F32(f) => VisitF32(f)
    case F64(f) => VisitF64(f)
    case Char(c) => VisitChar(c)
    case String(s) => VisitString(s)
    case Str(s) => VisitBorrowedStr(s)
    case ByteBuf(bs) => VisitByteBuf(bs)
    case Bytes(bs) => VisitBorrowedBytes(bs)
  }

  /** Capturing a replayed value gives it back. */
  lemma CaptureReplay(c: Content)
    ensures Capture(Replay(c)) == Ok(c)
  {
  }

  /** Replaying a capture repeats the callback, except that a transient borrow comes back
      owned. */
  lemma ReplayCapture(v: Visit)
    requires Capture(v).Ok?
    ensures Replay(Capture(v).value) == if v.VisitStr? || v.VisitBytes? then v.Owning() else v
  {
  }
}
