/** The `Source` interface: what the interposition layer asks of a variable source, the
    `Any` value a self-describing expansion yields, and how an `Any` is handed to a visitor. */
module Sources {
  import opened Serde

  /** `Any`.  The eight integer variants are one constructor tagged with the width. */
  datatype Any =
    | Bool(b: bool)
    | Int(kind: IntKind, n: int)
    | F32(f32: Serde.F32)
    | F64(f64: Serde.F64)
    | Str(text: Cow<string>)
    | Bytes(bytes: Cow<Serde.Bytes>)
  {
    /** An integer fits its width, as the Rust type guarantees. */
    predicate Valid() { Int? ==> kind.Holds(n) }

    function Value(): Prim {
      match this
      case Bool(b) => PBool(b)
      case Int(k, n) => PInt(k, n)
      case F32(f) => PF32(f)
      case F64(f) => PF64(f)
      case Str(t) => PText(t.v)
      case Bytes(bs) => PBytes(bs.v)
    }

    predicate IsBorrowed() { (Str? && text.Borrowed?) || (Bytes? && bytes.Borrowed?) }

    predicate IsOwned() { (Str? && text.Owned?) || (Bytes? && bytes.Owned?) }

    /** `Any::unexpected`. */
    function Unexpected(): (u: Serde.Unexpected)
      requires Valid()
      ensures u == Describe(Value())
    {
      match this
      case Bool(b) => UBool(b)
      case Int(k, n) => if k.Signed() then Signed(n) else Unsigned(n)
      case F32(f) => Float(Single(f))
      case F64(f) => Float(Double(f))
      case Str(t) => UStr(t.v)
      case Bytes(bs) => UBytes(bs.v)
    }

    /** `Any::visit`: owned payloads are handed over owned, borrowed ones as a transient
        borrow; never as a borrow of the decoder's input. */
    function Visit(): (v: Serde.Visit)
      requires Valid()
      ensures ValueOf(v) == Some(Value())
      ensures !v.VisitBorrowedStr? && !v.VisitBorrowedBytes?
      ensures v.VisitString? || v.VisitByteBuf? <==> IsOwned()
      ensures v.VisitStr? || v.VisitBytes? <==> IsBorrowed()
    {
      match this
      case Bool(b) => VisitBool(b)
      case Int(k, n) => IntVisit(k, n)
      case F32(f) => VisitF32(f)
      case F64(f) => VisitF64(f)
      case Str(Owned(s)) => VisitString(s)
      case Str(Borrowed(s)) => VisitStr(s)
      case Bytes(Owned(bs)) => VisitByteBuf(bs)
      case Bytes(Borrowed(bs)) => VisitBytes(bs)
    }

    /** `Any::visit_borrowed`: used when the text came from a borrow of the decoder's
        input, so a borrowed payload keeps that lifetime. */
    function VisitBorrowed(): (v: Serde.Visit)
      requires Valid()
      ensures ValueOf(v) == Some(Value())
      ensures v.VisitBorrowedStr? || v.VisitBorrowedBytes? <==> IsBorrowed()
      ensures !IsBorrowed() ==> v == Visit()
    {
      match this
      case Str(Borrowed(s)) => VisitBorrowedStr(s)
      case Bytes(Borrowed(bs)) => VisitBorrowedBytes(bs)
      case _ => Visit()
    }
  }

  /** An `Any` whose integer fits its width: what a Rust `Any` can hold. */
  type ValidAny = a: Any | a.Valid() witness Any.Bool(false)

  /** A variable source: the `Source` trait's methods as functions.  The lookups a source
      performs are part of the function; the `&mut self` state is not modelled. */
  datatype Source = Source(
    expandBool: string -> Result<bool>,
    expandI8: string -> Result<i8>,
    expandI16: string -> Result<i16>,
    expandI32: string -> Result<i32>,
    expandI64: string -> Result<i64>,
    expandU8: string -> Result<u8>,
    expandU16: string -> Result<u16>,
    expandU32: string -> Result<u32>,
    expandU64: string -> Result<u64>,
    expandF32: string -> Result<Serde.F32>,
    expandF64: string -> Result<Serde.F64>,
    expandStr: Cow<string> -> Result<Cow<string>>,
    expandBytes: Cow<Serde.Bytes> -> Result<Cow<Serde.Bytes>>,
    expandAny: Cow<string> -> Result<ValidAny>)
  {
    /** The integer expansion of a given width. */
    function ExpandInt(k: IntKind, s: string): (r: Result<int>)
      ensures r.Ok? ==> k.Holds(r.value)
    {
      match k
      case I8 => expandI8(s)
      case I16 => expandI16(s)
      case I32 => expandI32(s)
      case I64 => expandI64(s)
      case U8 => expandU8(s)
      case U16 => expandU16(s)
      case U32 => expandU32(s)
      case U64 => expandU64(s)
    }
  }

  /** What the `Source` trait documents of an implementation, given which texts and byte
      strings refer to a variable:
      - a text or byte string without a variable reference expands to itself, ownership
        included, and so does the self-describing expansion of such a text;
      - for strings the self-describing expansion behaves as the string expansion. */
  ghost predicate Lawful(src: Source, mentions: string -> bool, mentionsBytes: Serde.Bytes -> bool) {
    && (forall t: Cow<string> :: !mentions(t.v) ==> src.expandStr(t) == Ok(t))
    && (forall t: Cow<string> :: !mentions(t.v) ==> src.expandAny(t) == Ok(Str(t)))
    && (forall b: Cow<Serde.Bytes> :: !mentionsBytes(b.v) ==> src.expandBytes(b) == Ok(b))
    && (forall t :: src.expandAny(t).Ok? && src.expandAny(t).value.Str? ==>
          src.expandStr(t) == Ok(src.expandAny(t).value.text))
  }
}
