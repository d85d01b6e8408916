/** The decoder the interposition layer wraps, as a self-describing document: which
    callback it makes for each request.  It stands in for formats such as JSON and YAML; a
    scalar may also carry the text it was written as, which a YAML-like decoder hands over
    when a string is requested. */
module Decoders {
  import opened Serde

  datatype Doc =
    | Null
    | Scalar(natural: Visit, spelled: Option<string>)
    | List(items: seq<Doc>)
    | Dict(entries: seq<Entry>)

  datatype Entry = Entry(key: Doc, value: Doc)

  /** The visitor callback a decoder makes: a primitive, or one of the structural callbacks
      that hand the visitor a nested decoder or an access object. */
  datatype Callback =
    | CPrim(v: Visit)
    | CNone
    | CSome(inner: Doc)
    | CNewtype(inner: Doc)
    | CSeq(items: seq<Doc>)
    | CMap(entries: seq<Entry>)
    | CEnum(tag: Doc, payload: Option<Doc>)
  {
    /** serde's description of a callback a visitor does not accept. */
    function Unexpected(): Serde.Unexpected {
      match this
      case CPrim(v) => VisitUnexpected(v)
      case CNone => UOption
      case CSome(_) => UOption
      case CNewtype(_) => UNewtypeStruct
      case CSeq(_) => USeq
      case CMap(_) => UMap
      case CEnum(_, _) => UEnum
    }
  }

  /** The description of a primitive callback. */
  function VisitUnexpected(v: Visit): (u: Serde.Unexpected)
    ensures ValueOf(v).Some? ==> u == Describe(ValueOf(v).value)
    ensures v.VisitUnit? ==> u == UUnit
  {
    match ValueOf(v)
    case Some(p) => Describe(p)
    case None => if v.VisitUnit? then UUnit else UOther
  }

  /** How the decoder answers a request on a document.  `null` is unit, except that an
      option request sees `none`; an option request on anything else sees `some`, and a
      newtype request always gets the newtype callback.  An enum is a bare string or a map
      with a single entry.  A scalar requested as a string is handed over as the text it was
      written as. */
  function Respond(req: Request, doc: Doc): (cb: Callback)
    ensures cb.CNone? <==> req.OptionReq? && doc.Null?
    ensures cb.CSome? <==> req.OptionReq? && !doc.Null?
    ensures cb.CNewtype? <==> req.NewtypeStructReq?
    ensures cb.CSome? || cb.CNewtype? ==> cb.inner == doc
    ensures cb.CSeq? ==> doc.List? && cb.items == doc.items
    ensures cb.CMap? ==> doc.Dict? && cb.entries == doc.entries
    ensures cb.CEnum? ==> req.EnumReq?
    ensures cb.CEnum? && cb.payload.None? ==> cb.tag == doc && doc.Scalar? && doc.natural.IsText()
    ensures cb.CEnum? && cb.payload.Some? ==>
      doc.Dict? && |doc.entries| == 1 && cb.tag == doc.entries[0].key && cb.payload.value == doc.entries[0].value
    ensures doc.Null? && !req.OptionReq? && !req.NewtypeStructReq? ==> cb == CPrim(VisitUnit)
    ensures req.IgnoredAnyReq? ==> cb == CPrim(VisitUnit)
  {
    match req
    case OptionReq => if doc.Null? then CNone else CSome(doc)
    case NewtypeStructReq => CNewtype(doc)
    case IgnoredAnyReq => CPrim(VisitUnit)
    case EnumReq =>
      if doc.Scalar? && doc.natural.IsText() then CEnum(doc, None)
      else if doc.Dict? && |doc.entries| == 1 then CEnum(doc.entries[0].key, Some(doc.entries[0].value))
      else Natural(req, doc)
    case _ => Natural(req, doc)
  }

  /** The callback a document makes on its own. */
  function Natural(req: Request, doc: Doc): (cb: Callback)
    ensures cb.CPrim? || cb.CSeq? || cb.CMap?
    ensures cb.CSeq? <==> doc.List?
    ensures cb.CMap? <==> doc.Dict?
  {
    match doc
    case Null => CPrim(VisitUnit)
    case Scalar(v, spelled) =>
      if (req.IsText() || req.IdentifierReq?) && !v.IsText() && spelled.Some? then CPrim(VisitBorrowedStr(spelled.value))
      else CPrim(v)
    case List(items) => CSeq(items)
    case Dict(entries) => CMap(entries)
  }
}
