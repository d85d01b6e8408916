/** `ContentVarDeserializer`: answers one typed request from a captured `Content`, handing
    numbers and other non-text values on unchanged and sending text (and bytes, for byte
    requests) to the variable source. */
module Resolver {
  import opened Serde
  import opened Contents
  import opened Sources

  predicate IsInteger(c: Content) {
    c.U8? || c.U16? || c.U32? || c.U64? || c.I8? || c.I16? || c.I32? || c.I64?
  }

  predicate IsFloat(c: Content) { c.F32? || c.F64? }

  /** `deserialize_bool`. */
  function ResolveBool(src: Source, c: Content): (r: Result<Visit>)
    ensures c.Bool? ==> r == Ok(VisitBool(c.b))
    ensures c.IsText() ==> match src.expandBool(c.s)
      case Ok(b) => r == Ok(VisitBool(b))
      case Err(e) => r == Err(e)
    ensures !c.Bool? && !c.IsText() ==> r == Err(InvalidType(c.Unexpected(), ExpectBool))
  {
    match c
    case Bool(b) => Ok(VisitBool(b))
    case Str(s) => (match src.expandBool(s) case Ok(b) => Ok(VisitBool(b)) case Err(e) => Err(e))
    case String(s) => (match src.expandBool(s) case Ok(b) => Ok(VisitBool(b)) case Err(e) => Err(e))
    case _ => Err(InvalidType(c.Unexpected(), ExpectBool))
  }

  /** `deserialize_integer`: every integer is handed on at its own width; text is expanded
      at the requested width. */
  function ResolveInteger(src: Source, k: IntKind, c: Content): (r: Result<Visit>)
    ensures IsInteger(c) ==> r.Ok? && ValueOf(r.value) == Some(c.Value())
    ensures c.IsText() ==> match src.ExpandInt(k, c.s)
      case Ok(n) => r.Ok? && ValueOf(r.value) == Some(PInt(k, n))
      case Err(e) => r == Err(e)
    ensures !IsInteger(c) && !c.IsText() ==> r == Err(InvalidType(c.Unexpected(), ExpectInt(k)))
  {
    if IsInteger(c) then Ok(Replay(c))
    else if c.IsText() then
      match src.ExpandInt(k, c.s)
      case Ok(n) => Ok(IntVisit(k, n))
      case Err(e) => Err(e)
    else Err(InvalidType(c.Unexpected(), ExpectInt(k)))
  }

  /** `deserialize_float`: as `deserialize_integer`, and floats are handed on as well. */
  function ResolveFloat(src: Source, f: FloatKind, c: Content): (r: Result<Visit>)
    ensures IsInteger(c) || IsFloat(c) ==> r.Ok? && ValueOf(r.value) == Some(c.Value())
    ensures c.IsText() && f == F32Kind ==> match src.expandF32(c.s)
      case Ok(x) => r == Ok(VisitF32(x))
      case Err(e) => r == Err(e)
    ensures c.IsText() && f == F64Kind ==> match src.expandF64(c.s)
      case Ok(x) => r == Ok(VisitF64(x))
      case Err(e) => r == Err(e)
    ensures !IsInteger(c) && !IsFloat(c) && !c.IsText() ==> r == Err(InvalidType(c.Unexpected(), ExpectFloat(f)))
  {
    if IsInteger(c) || IsFloat(c) then Ok(Replay(c))
    else if c.IsText() then
      if f == F32Kind then
        (match src.expandF32(c.s) case Ok(x) => Ok(VisitF32(x)) case Err(e) => Err(e))
      else
        match src.expandF64(c.s) case Ok(x) => Ok(VisitF64(x)) case Err(e) => Err(e)
    else Err(InvalidType(c.Unexpected(), ExpectFloat(f)))
  }

  /** `deserialize_string`: text is expanded with its ownership, and the expansion is handed
      over owned or as a borrow of the input as it comes back. */
  function ResolveString(src: Source, c: Content): (r: Result<Visit>)
    ensures !c.IsText() ==> r == Err(InvalidType(c.Unexpected(), ExpectString))
    ensures c.IsText() ==> match src.expandStr(c.TextCow())
      case Ok(t) => r.Ok? && ValueOf(r.value) == Some(PText(t.v))
        && (r.value.VisitBorrowedStr? <==> t.Borrowed?) && (r.value.VisitString? <==> t.Owned?)
      case Err(e) => r == Err(e)
  {
    if c.IsText() then
      match src.expandStr(c.TextCow())
      case Ok(Owned(s)) => Ok(VisitString(s))
      case Ok(Borrowed(s)) => Ok(VisitBorrowedStr(s))
      case Err(e) => Err(e)
    else Err(InvalidType(c.Unexpected(), ExpectString))
  }

  /** `deserialize_char`: text takes the string path, a `char` is handed on. */
  function ResolveChar(src: Source, c: Content): (r: Result<Visit>)
    ensures c.IsText() ==> r == ResolveString(src, c)
    ensures c.Char? ==> r == Ok(VisitChar(c.c))
    ensures !c.IsText() && !c.Char? ==> r == Err(InvalidType(c.Unexpected(), ExpectChar))
  {
    if c.IsText() then ResolveString(src, c)
    else if c.Char? then Ok(VisitChar(c.c))
    else Err(InvalidType(c.Unexpected(), ExpectChar))
  }

  /** `deserialize_byte_buf`: text takes the string path; bytes are expanded with their
      ownership and handed over owned or as a borrow as they come back. */
  function ResolveByteBuf(src: Source, c: Content): (r: Result<Visit>)
    ensures c.IsText() ==> r == ResolveString(src, c)
    ensures c.IsByteSeq() ==> match src.expandBytes(c.BytesCow())
      case Ok(b) => r.Ok? && ValueOf(r.value) == Some(PBytes(b.v))
        && (r.value.VisitBytes? <==> b.Borrowed?) && (r.value.VisitByteBuf? <==> b.Owned?)
      case Err(e) => r == Err(e)
    ensures !c.IsText() && !c.IsByteSeq() ==> r == Err(InvalidType(c.Unexpected(), ExpectBytes))
  {
    if c.IsText() then ResolveString(src, c)
    else if c.IsByteSeq() then
      match src.expandBytes(c.BytesCow())
      case Ok(Owned(bs)) => Ok(VisitByteBuf(bs))
      case Ok(Borrowed(bs)) => Ok(VisitBytes(bs))
      case Err(e) => Err(e)
    else Err(InvalidType(c.Unexpected(), ExpectBytes))
  }

  /** The `Deserializer` implementation of `ContentVarDeserializer`: the callback the
      caller's visitor receives for a request.  Requests for anything but a primitive are
      refused, and `ignored_any` discards the value. */
  function Resolve(src: Source, req: Request, c: Content): (r: Result<Visit>)
    ensures req.IgnoredAnyReq? ==> r == Ok(VisitUnit)
    ensures r.Err? && !c.IsText() && !c.IsByteSeq() ==> r.error == InvalidType(c.Unexpected(), ExpectedFor(req))
  {
    match req
    case BoolReq => ResolveBool(src, c)
    case IntReq(k) => ResolveInteger(src, k, c)
    case FloatReq(f) => ResolveFloat(src, f, c)
    case CharReq => ResolveChar(src, c)
    case StrReq => ResolveString(src, c)
    case StringReq => ResolveString(src, c)
    case BytesReq => ResolveByteBuf(src, c)
    case ByteBufReq => ResolveByteBuf(src, c)
    case IgnoredAnyReq => Ok(VisitUnit)
    case _ => Err(InvalidType(c.Unexpected(), ExpectedFor(req)))
  }

  /** Structural requests, `any`, `unit` and identifiers are always refused. */
  lemma RefusesNonPrimitive(src: Source, req: Request, c: Content)
    requires req.AnyReq? || req.OptionReq? || req.UnitReq? || req.UnitStructReq? || req.NewtypeStructReq?
      || req.SeqReq? || req.TupleReq? || req.TupleStructReq? || req.MapReq? || req.StructReq?
      || req.EnumReq? || req.IdentifierReq?
    ensures Resolve(src, req, c) == Err(InvalidType(c.Unexpected(), ExpectedFor(req)))
  {
  }

  /** Only text, and bytes under a byte request, reach the source: for every other value two
      sources give the same answer. */
  lemma {:induction false} NonTextIgnoresSource(src1: Source, src2: Source, req: Request, c: Content)
    requires !c.IsText() && !c.IsByteSeq()
    ensures Resolve(src1, req, c) == Resolve(src2, req, c)
  {
    match req
    case IntReq(k) =>
    case FloatReq(f) =>
    case _ =>
  }

  /** A request for a value of the captured kind hands that value on unchanged, ownership
      included, when the source passes the text or bytes through; only borrowed bytes come
      back as a transient borrow, because `visit_bytes` is used for them. */
  lemma PassesThrough(src: Source, mentions: string -> bool, mentionsBytes: Serde.Bytes -> bool, req: Request, c: Content)
    requires Lawful(src, mentions, mentionsBytes)
    requires c.IsText() ==> !mentions(c.s) && (req.IsText() || req.IsByteSeq() || req.CharReq?)
    requires c.IsByteSeq() ==> !mentionsBytes(c.bs) && req.IsByteSeq()
    requires c.Bool? ==> req.BoolReq?
    requires IsInteger(c) ==> req.IntReq? || req.FloatReq?
    requires IsFloat(c) ==> req.FloatReq?
    requires c.Char? ==> req.CharReq?
    ensures Resolve(src, req, c) == Ok(if c.Bytes? then VisitBytes(c.bs) else Replay(c))
  {
    if c.IsText() {
      assert src.expandStr(c.TextCow()) == Ok(c.TextCow());
    } else if c.IsByteSeq() {
      assert src.expandBytes(c.BytesCow()) == Ok(c.BytesCow());
    }
  }
}
