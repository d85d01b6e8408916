/** The recursive decode proxy: `Deserializer`, which answers every request of the caller's
    `Deserialize` implementation, and `Wrap`, which re-enters the proxy at every nested
    position the decoder hands back.  Primitive requests are captured and resolved against
    the variable source; structural requests are forwarded with the visitor wrapped, and a
    string a wrapped visitor receives is expanded by `expand_any`. */
module Proxy {
  import opened Serde
  import opened Utf8
  import opened Contents
  import opened Sources
  import opened Resolver
  import opened ByteBufs
  import opened Decoders

  /** What the caller's `Deserialize` implementation asks for at a position: any value, a
      primitive, or a structure with shapes for its parts.  A sequence or a map gives every
      element the same shape; a tuple gives each position its own, and a derived struct
      each named field, read from a map by name or from a sequence by position. */
  datatype Shape =
    | Dynamic
    | Leaf(req: Request)
    | OptionOf(inner: Shape)
    | NewtypeOf(inner: Shape)
    | SeqOf(elem: Shape)
    | TupleOf(elems: seq<Shape>)
    | MapOf(key: Shape, value: Shape)
    | StructOf(fields: seq<Field>)
    | EnumOf(tag: Shape, payload: Shape)
  {
    /** The `deserialize_*` request made for the shape. */
    function Asks(): Request {
      match this
      case Dynamic => AnyReq
      case Leaf(req) => req
      case OptionOf(_) => OptionReq
      case NewtypeOf(_) => NewtypeStructReq
      case SeqOf(_) => SeqReq
      case TupleOf(_) => TupleReq
      case MapOf(_, _) => MapReq
      case StructOf(_) => StructReq
      case EnumOf(_, _) => EnumReq
    }

    /** A measure for the positions decoded from the same document: the parts of a tuple
        or a struct are always decoded from nested documents. */
    function Size(): (n: nat)
      ensures n >= 1
    {
      match this
      case OptionOf(s) => 1 + s.Size()
      case NewtypeOf(s) => 1 + s.Size()
      case SeqOf(s) => 1 + s.Size()
      case MapOf(k, v) => 1 + k.Size() + v.Size()
      case EnumOf(t, p) => 1 + t.Size() + p.Size()
      case _ => 1
    }

    /** The visitor accepts a sequence. */
    predicate TakesSeq() { Dynamic? || SeqOf? || TupleOf? || StructOf? }

    /** The visitor accepts a map. */
    predicate TakesMap() { Dynamic? || MapOf? || StructOf? }

    /** The number of elements a fixed-length visitor reads: a tuple's, or a struct's fields. */
    function Arity(): (a: Option<nat>)
      ensures a.Some? <==> TupleOf? || StructOf?
      ensures TupleOf? ==> a == Some(|elems|)
      ensures StructOf? ==> a == Some(|fields|)
    {
      if TupleOf? then Some(|elems|) else if StructOf? then Some(|fields|) else None
    }

    /** How many of `n` elements are decoded: a fixed-length visitor stops at its arity. */
    function Reach(n: nat): (m: nat)
      ensures m <= n
      ensures Arity().None? ==> m == n
      ensures Arity().Some? ==> m == if Arity().value < n then Arity().value else n
    {
      if Arity().Some? && Arity().value < n then Arity().value else n
    }

    /** The shape the `i`-th element of a sequence is decoded at. */
    function ElemShape(i: nat): Shape {
      match this
      case SeqOf(e) => e
      case TupleOf(es) => if i < |es| then es[i] else Dynamic
      case StructOf(fs) => if i < |fs| then fs[i].shape else Dynamic
      case _ => Dynamic
    }

    /** The shape a map key is decoded at: a struct reads its keys as field identifiers. */
    function KeyShape(): Shape {
      match this
      case MapOf(k, _) => k
      case StructOf(_) => Leaf(IdentifierReq)
      case _ => Dynamic
    }

    /** The shape the value under `key` is decoded at: a struct decodes the value of the field
        the key names at that field's shape, and skips the value of any other key as
        `IgnoredAny`. */
    function ValueShape(key: Doc): Shape {
      match this
      case MapOf(_, v) => v
      case StructOf(fs) =>
        var id := Respond(IdentifierReq, key);
        if id.CPrim? && id.v.IsText() then
          match FieldIndex(fs, id.v.s)
          case Some(j) => fs[j].shape
          case None => Leaf(IgnoredAnyReq)
        else Leaf(IgnoredAnyReq)
      case _ => Dynamic
    }
  }

  /** A named field of a derived struct. */
  datatype Field = Field(name: string, shape: Shape)

  /** The derived field identifier's `visit_str`: the first field with that name. */
  function FieldIndex(fields: seq<Field>, name: string): (r: Option<nat>)
    ensures r.Some? ==> r.value < |fields| && fields[r.value].name == name
    ensures r.Some? ==> forall j :: 0 <= j < r.value ==> fields[j].name != name
    ensures r.None? ==> forall j :: 0 <= j < |fields| ==> fields[j].name != name
  {
    if fields == [] then None
    else if fields[0].name == name then Some(0)
    else match FieldIndex(fields[1..], name)
      case Some(j) => Some(j + 1)
      case None => None
  }

  /** What the caller's visitor receives: the primitive callback, or the structure with what
      was decoded at each nested position. */
  datatype Delivered =
    | DPrim(v: Visit)
    | DNone
    | DSome(inner: Delivered)
    | DNewtype(inner: Delivered)
    | DSeq(items: seq<Delivered>)
    | DMap(pairs: seq<Pair>)
    | DEnum(tag: Delivered, payload: Option<Delivered>)
  {
    /** The same delivery with every text and byte payload handed over owned. */
    function Owning(): Delivered {
      match this
      case DPrim(v) => DPrim(v.Owning())
      case DNone => DNone
      case DSome(d) => DSome(d.Owning())
      case DNewtype(d) => DNewtype(d.Owning())
      case DSeq(items) => DSeq(seq(|items|, i requires 0 <= i < |items| => items[i].Owning()))
      case DMap(pairs) => DMap(seq(|pairs|, i requires 0 <= i < |pairs| => pairs[i].Owning()))
      case DEnum(t, p) => DEnum(t.Owning(), if p.Some? then Some(p.value.Owning()) else None)
    }
  }

  datatype Pair = Pair(key: Delivered, value: Delivered) {
    function Owning(): Pair { Pair(key.Owning(), value.Owning()) }
  }

  /** The code as written, and with the corrections listed under the findings: `unit`
      forwarded with the visitor wrapped, and an enum's payload decoded through the proxy. */
  datatype Build = AsWritten | Intended

  /** Decoding straight from the wrapped decoder, or through the proxy with a source. */
  datatype Layer = Plain | Vars(src: Source, build: Build)

  /** How `Deserializer` answers a request. */
  datatype Route =
    | Wrapped       // forwarded to the decoder with the visitor wrapped
    | Captured      // captured as `Content` and resolved
    | StringFirst   // decoded as a `String`, then resolved
    | ByteBufFirst  // decoded as a byte buffer, then resolved

  /** The `Deserializer` implementation's choice for each request. */
  function RouteOf(build: Build, req: Request): (r: Route)
    ensures r.StringFirst? <==> req.IsText()
    ensures r.ByteBufFirst? <==> req.IsByteSeq()
    ensures r.Captured? <==>
      req.BoolReq? || req.IntReq? || req.FloatReq? || req.CharReq? || (req.UnitReq? && build == AsWritten)
  {
    match req
    case BoolReq => Captured
    case IntReq(_) => Captured
    case FloatReq(_) => Captured
    case CharReq => Captured
    case StrReq => StringFirst
    case StringReq => StringFirst
    case BytesReq => ByteBufFirst
    case ByteBufReq => ByteBufFirst
    case UnitReq => if build == AsWritten then Captured else Wrapped
    case _ => Wrapped
  }

  /** The text payload of a string callback with its ownership. */
  function TextCow(v: Visit): (t: Cow<string>)
    requires v.IsText()
    ensures t.v == v.s && (t.Owned? <==> v.VisitString?)
  {
    if v.VisitString? then Owned(v.s) else Borrowed(v.s)
  }

  /** `Wrap` as a `Visitor`: a string is expanded by `expand_any` and the expansion handed
      on, as a borrow of the input only if the string was one; every other primitive
      callback is forwarded unchanged. */
  function WrapVisit(src: Source, v: Visit): (r: Result<Visit>)
    ensures !v.IsText() ==> r == Ok(v)
    ensures v.IsText() ==> match src.expandAny(TextCow(v))
      case Ok(a) => r.Ok? && ValueOf(r.value) == Some(a.Value())
        && (r.value.VisitBorrowedStr? || r.value.VisitBorrowedBytes? <==> v.VisitBorrowedStr? && a.IsBorrowed())
        && (r.value.VisitStr? || r.value.VisitBytes? <==> !v.VisitBorrowedStr? && a.IsBorrowed())
        && (r.value.VisitString? || r.value.VisitByteBuf? <==> a.IsOwned())
      case Err(e) => r == Err(e)
  {
    if v.IsText() then
      match src.expandAny(TextCow(v))
      case Ok(a) => Ok(if v.VisitBorrowedStr? then a.VisitBorrowed() else a.Visit())
      case Err(e) => Err(e)
    else Ok(v)
  }

  /** serde's `String` visitor: text is taken as it is, a `char` as its one-character text,
      bytes only if they are UTF-8; anything else is refused. */
  function StringValue(cb: Callback): (r: Result<string>)
    ensures cb.CPrim? && cb.v.IsText() ==> r == Ok(cb.v.s)
    ensures cb.CPrim? && cb.v.VisitChar? ==> r == Ok([cb.v.c])
    ensures cb.CPrim? && cb.v.IsByteSeq() ==> (r.Ok? <==> Utf8.Decode(cb.v.bs).Some?)
    ensures cb.CPrim? && cb.v.IsByteSeq() && r.Ok? ==> Encode(r.value) == cb.v.bs
    ensures r.Err? ==> (r.error.InvalidType? || r.error.InvalidValue?) && r.error.expected == ExpectString
    ensures r.Ok? ==> cb.CPrim? && (cb.v.IsText() || cb.v.IsByteSeq() || cb.v.VisitChar?)
  {
    match cb
    case CPrim(v) =>
      if v.IsText() then Ok(v.s)
      else if v.VisitChar? then Ok([v.c])
      else if v.IsByteSeq() then
        match Utf8.Decode(v.bs)
        case Some(s) => EncodeDecode(v.bs); Ok(s)
        case None => Err(InvalidValue(UBytes(v.bs), ExpectString))
      else Err(InvalidType(VisitUnexpected(v), ExpectString))
    case _ => Err(InvalidType(cb.Unexpected(), ExpectString))
  }

  /** Every integer callback's value, the 128-bit ones included. */
  function IntegerOf(v: Visit): (n: Option<int>)
    ensures ValueOf(v).Some? && ValueOf(v).value.PInt? ==> n == Some(ValueOf(v).value.n)
    ensures n.Some? <==> (ValueOf(v).Some? && ValueOf(v).value.PInt?) || v.VisitI128? || v.VisitU128?
  {
    if v.VisitI128? then Some(v.i128)
    else if v.VisitU128? then Some(v.u128)
    else match ValueOf(v)
      case Some(PInt(_, n)) => Some(n)
      case _ => None
  }

  /** serde's `u8` visitor: an integer of any width that fits, and nothing else. */
  function U8Visitor(v: Visit): (r: Result<u8>)
    ensures r.Ok? <==> IntegerOf(v).Some? && 0 <= IntegerOf(v).value < 0x100
    ensures r.Ok? ==> r.value == IntegerOf(v).value
    ensures r.Err? && IntegerOf(v).Some? ==> r.error == InvalidValue(VisitUnexpected(v), ExpectInt(IntKind.U8))
    ensures r.Err? && IntegerOf(v).None? ==> r.error == InvalidType(VisitUnexpected(v), ExpectInt(IntKind.U8))
  {
    match IntegerOf(v)
    case Some(n) => if 0 <= n < 0x100 then Ok(n) else Err(InvalidValue(VisitUnexpected(v), ExpectInt(IntKind.U8)))
    case None => Err(InvalidType(VisitUnexpected(v), ExpectInt(IntKind.U8)))
  }

  /** `u8::deserialize` on one element of a sequence, straight from the decoder. */
  function ElementByte(doc: Doc): Result<u8> {
    match Respond(IntReq(IntKind.U8), doc)
    case CPrim(v) => U8Visitor(v)
    case cb => Err(InvalidType(cb.Unexpected(), ExpectInt(IntKind.U8)))
  }

  /** `value::deserialize_byte_buf` on the wrapped decoder: the byte-array visitor's
      primitive callbacks, or a sequence of `u8` elements collected by `visit_seq`. */
  function ByteBufValue(doc: Doc): Result<Bytes> {
    match Respond(ByteBufReq, doc)
    case CPrim(v) => ByteVisitor(v)
    case CSeq(items) => CollectBytes(seq(|items|, i requires 0 <= i < |items| => ElementByte(items[i])))
    case cb => Err(InvalidType(cb.Unexpected(), ExpectByteArray))
  }

  function Deliver(r: Result<Visit>): (d: Result<Delivered>)
    ensures r.Ok? <==> d.Ok?
    ensures r.Ok? ==> d.value == DPrim(r.value)
    ensures r.Err? ==> d.error == r.error
  {
    match r
    case Ok(v) => Ok(DPrim(v))
    case Err(e) => Err(e)
  }

  /** `ContentVarDeserializer::from_de` followed by the request: the decoder's value is
      captured by `deserialize_any`, and a structure is refused by the capturing visitor. */
  function CaptureThenResolve(src: Source, req: Request, doc: Doc): Result<Delivered> {
    match Respond(AnyReq, doc)
    case CPrim(v) =>
      (match Capture(v)
       case Ok(c) => Deliver(Resolve(src, req, c))
       case Err(e) => Err(e))
    case cb => Err(InvalidType(cb.Unexpected(), ExpectPrimitive))
  }

  /** `deserialize_string`: the decoder is asked for a `String`, which is then resolved. */
  function StringThenResolve(src: Source, doc: Doc): Result<Delivered> {
    match StringValue(Respond(StringReq, doc))
    case Ok(s) => Deliver(Resolve(src, StringReq, Content.String(s)))
    case Err(e) => Err(e)
  }

  /** `deserialize_byte_buf`: the decoder is asked for a byte buffer, which is then
      resolved. */
  function ByteBufThenResolve(src: Source, doc: Doc): Result<Delivered> {
    match ByteBufValue(doc)
    case Ok(bs) => Deliver(Resolve(src, ByteBufReq, Content.ByteBuf(bs)))
    case Err(e) => Err(e)
  }

  /** The first error in order, or every value. */
  function Collect<T>(rs: seq<Result<T>>): (r: Result<seq<T>>)
    decreases |rs|
  {
    if rs == [] then Ok([])
    else match rs[0]
      case Err(e) => Err(e)
      case Ok(x) =>
        match Collect(rs[1..])
        case Ok(xs) => Ok([x] + xs)
        case Err(e) => Err(e)
  }

  function PairOf(k: Result<Delivered>, v: Result<Delivered>): Result<Pair> {
    match k
    case Err(e) => Err(e)
    case Ok(kd) =>
      match v
      case Err(e) => Err(e)
      case Ok(vd) => Ok(Pair(kd, vd))
  }

  /** The layer an enum's payload is decoded in: as written the payload is handed to the
      caller by the decoder's own `VariantAccess`, outside the proxy. */
  function PayloadLayer(layer: Layer): Layer {
    if layer.Vars? && layer.build == Intended then layer else Plain
  }

  /** Decoding a shape from a document, straight from the decoder (`Plain`) or through the
      proxy. */
  function Decode(layer: Layer, shape: Shape, doc: Doc): Result<Delivered>
    decreases doc, shape.Size(), 2
  {
    if layer.Plain? then Forward(layer, shape, doc)
    else match RouteOf(layer.build, shape.Asks())
      case Wrapped => Forward(layer, shape, doc)
      case Captured => CaptureThenResolve(layer.src, shape.Asks(), doc)
      case StringFirst => StringThenResolve(layer.src, doc)
      case ByteBufFirst => ByteBufThenResolve(layer.src, doc)
  }

  /** A request answered by the decoder, the callback going to the caller's visitor, which
      through the proxy is wrapped: nested sequence elements and map values are decoded
      in the same layer, map keys straight from the decoder. */
  function Forward(layer: Layer, shape: Shape, doc: Doc): Result<Delivered>
    decreases doc, shape.Size(), 1
  {
    var expected := ExpectedFor(shape.Asks());
    match Respond(shape.Asks(), doc)
    case CPrim(v) =>
      (match (if layer.Vars? then WrapVisit(layer.src, v) else Ok(v))
       case Err(e) => Err(e)
       case Ok(w) =>
         if shape.Dynamic? || shape.Leaf? then Ok(DPrim(w))
         else if shape.OptionOf? && w.VisitUnit? then Ok(DNone)
         else Err(InvalidType(VisitUnexpected(w), expected)))
    case CNone =>
      if shape.Dynamic? || shape.OptionOf? then Ok(DNone) else Err(InvalidType(UOption, expected))
    case CSome(inner) =>
      if shape.OptionOf? then
        (match Decode(layer, shape.inner, inner) case Ok(d) => Ok(DSome(d)) case Err(e) => Err(e))
      else Err(InvalidType(UOption, expected))
    case CNewtype(inner) =>
      if shape.NewtypeOf? then
        (match Decode(layer, shape.inner, inner) case Ok(d) => Ok(DNewtype(d)) case Err(e) => Err(e))
      else Err(InvalidType(UNewtypeStruct, expected))
    case CSeq(items) =>
      if shape.TakesSeq() then
        (match Collect(DecodeList(layer, shape, doc))
         case Ok(ds) =>
           if shape.Arity().Some? && shape.Arity().value != |items| then Err(InvalidLength(|items|, expected))
           else Ok(DSeq(ds))
         case Err(e) => Err(e))
      else Err(InvalidType(USeq, expected))
    case CMap(entries) =>
      if shape.TakesMap() then
        (match Collect(DecodeEntries(layer, shape, doc))
         case Ok(ps) => Ok(DMap(ps))
         case Err(e) => Err(e))
      else Err(InvalidType(UMap, expected))
    case CEnum(tag, payload) =>
      if shape.EnumOf? then DecodeVariant(layer, shape, doc, tag, payload)
      else Err(InvalidType(UEnum, expected))
  }

  /** `EnumAccess::variant_seed` with the seed wrapped, then the payload. */
  function DecodeVariant(layer: Layer, shape: Shape, doc: Doc, tag: Doc, payload: Option<Doc>): Result<Delivered>
    requires shape.EnumOf? && Respond(EnumReq, doc) == CEnum(tag, payload)
    decreases doc, shape.Size(), 0
  {
    match Decode(layer, shape.tag, tag)
    case Err(e) => Err(e)
    case Ok(t) =>
      match payload
      case None => Ok(DEnum(t, None))
      case Some(p) =>
        match Decode(PayloadLayer(layer), shape.payload, p)
        case Ok(d) => Ok(DEnum(t, Some(d)))
        case Err(e) => Err(e)
  }

  /** The elements of a sequence the visitor reads, each decoded in the layer at its own
      shape. */
  function DecodeList(layer: Layer, shape: Shape, doc: Doc): (rs: seq<Result<Delivered>>)
    requires doc.List?
    ensures |rs| == shape.Reach(|doc.items|)
    decreases doc, 0, 0
  {
    seq(shape.Reach(|doc.items|), i requires 0 <= i < shape.Reach(|doc.items|) =>
      Decode(layer, shape.ElemShape(i), doc.items[i]))
  }

  /** The entries of a map: the key straight from the decoder, the value in the layer at the
      shape the key selects. */
  function DecodeEntries(layer: Layer, shape: Shape, doc: Doc): (rs: seq<Result<Pair>>)
    requires doc.Dict?
    ensures |rs| == |doc.entries|
    decreases doc, 0, 0
  {
    seq(|doc.entries|, i requires 0 <= i < |doc.entries| =>
      PairOf(Decode(Plain, shape.KeyShape(), doc.entries[i].key),
             Decode(layer, shape.ValueShape(doc.entries[i].key), doc.entries[i].value)))
  }
}
