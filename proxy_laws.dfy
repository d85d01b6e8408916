/** What the decode proxy promises: without variable references it is invisible to shapes
    it forwards (typed shapes are in `Transparency`), map keys are never expanded, numbers
    pass untouched, text reaches the source, and the two places where the code as written
    departs from that design. */
module ProxyLaws {
  import opened Serde
  import opened Contents
  import opened Sources
  import opened Resolver
  import opened ByteBufs
  import opened Decoders
  import opened Proxy
  import opened Integers
  import opened Variables
  import opened StringSources

  /** No text anywhere in the document refers to a variable. */
  ghost predicate Clean(doc: Doc, mentions: string -> bool)
    decreases doc
  {
    match doc
    case Null => true
    case Scalar(v, spelled) => (v.IsText() ==> !mentions(v.s)) && (spelled.Some? ==> !mentions(spelled.value))
    case List(items) => forall i :: 0 <= i < |items| ==> Clean(items[i], mentions)
    case Dict(entries) =>
      forall i :: 0 <= i < |entries| ==> Clean(entries[i].key, mentions) && Clean(entries[i].value, mentions)
  }

  /** Every request the shape makes is forwarded with the visitor wrapped. */
  predicate Untyped(build: Build, shape: Shape) {
    match shape
    case Dynamic => true
    case Leaf(req) => RouteOf(build, req).Wrapped?
    case OptionOf(s) => Untyped(build, s)
    case NewtypeOf(s) => Untyped(build, s)
    case SeqOf(s) => Untyped(build, s)
    case TupleOf(es) => forall i :: 0 <= i < |es| ==> Untyped(build, es[i])
    case MapOf(k, v) => Untyped(build, k) && Untyped(build, v)
    case StructOf(fs) => forall i :: 0 <= i < |fs| ==> Untyped(build, fs[i].shape)
    case EnumOf(t, p) => Untyped(build, t) && Untyped(build, p)
  }

  /** Every element of a shape forwarded throughout is decoded at a shape forwarded
      throughout. */
  lemma ElemUntyped(build: Build, shape: Shape, i: nat)
    requires Untyped(build, shape)
    ensures Untyped(build, shape.ElemShape(i))
  {
  }

  /** So is every map value, whichever field its key selects. */
  lemma ValueUntyped(build: Build, shape: Shape, key: Doc)
    requires Untyped(build, shape)
    ensures Untyped(build, shape.ValueShape(key))
  {
  }

  /** The primitive a typed request accepts without consulting the source. */
  predicate Accepts(req: Request, v: Visit) {
    match ValueOf(v)
    case Some(PBool(_)) => req.BoolReq?
    case Some(PInt(_, _)) => req.IntReq? || req.FloatReq?
    case Some(PF32(_)) => req.FloatReq?
    case Some(PF64(_)) => req.FloatReq?
    case Some(PChar(_)) => req.CharReq?
    case _ => false
  }

  /** A callback the decoder makes on a clean document carries clean text. */
  lemma RespondClean(req: Request, doc: Doc, mentions: string -> bool)
    requires Clean(doc, mentions)
    requires Respond(req, doc).CPrim? && Respond(req, doc).v.IsText()
    ensures !mentions(Respond(req, doc).v.s)
  {
  }

  /** `Wrap` hands on a callback unchanged, ownership included, unless it carries text that
      refers to a variable. */
  lemma WrapVisitPassesThrough(src: Source, mentions: string -> bool, mentionsBytes: Serde.Bytes -> bool, v: Visit)
    requires Lawful(src, mentions, mentionsBytes)
    requires v.IsText() ==> !mentions(v.s)
    ensures WrapVisit(src, v) == Ok(v)
  {
    if v.IsText() {
      assert src.expandAny(TextCow(v)) == Ok(Any.Str(TextCow(v)));
    }
  }

  /** Without variable references the proxy is invisible to a shape it forwards throughout:
      through it, such a shape decodes to exactly what the decoder delivers on its own,
      borrowed text included. */
  lemma {:induction false} DecodePure(src: Source, build: Build, mentions: string -> bool, mentionsBytes: Serde.Bytes -> bool,
                                      shape: Shape, doc: Doc)
    requires Lawful(src, mentions, mentionsBytes) && Clean(doc, mentions) && Untyped(build, shape)
    ensures Decode(Vars(src, build), shape, doc) == Decode(Plain, shape, doc)
    decreases doc, shape.Size(), 2
  {
    assert RouteOf(build, shape.Asks()).Wrapped?;
    ForwardPure(src, build, mentions, mentionsBytes, shape, doc);
  }

  lemma {:induction false} ForwardPure(src: Source, build: Build, mentions: string -> bool, mentionsBytes: Serde.Bytes -> bool,
                                       shape: Shape, doc: Doc)
    requires Lawful(src, mentions, mentionsBytes) && Clean(doc, mentions) && Untyped(build, shape)
    ensures Forward(Vars(src, build), shape, doc) == Forward(Plain, shape, doc)
    decreases doc, shape.Size(), 1
  {
    match Respond(shape.Asks(), doc)
    case CPrim(v) =>
      ForwardPrimPure(src, build, mentions, mentionsBytes, shape, doc);
    case CNone =>
    case CSome(inner) =>
      if shape.OptionOf? {
        DecodePure(src, build, mentions, mentionsBytes, shape.inner, doc);
      }
    case CNewtype(inner) =>
      if shape.NewtypeOf? {
        DecodePure(src, build, mentions, mentionsBytes, shape.inner, doc);
      }
    case CSeq(items) =>
      if shape.TakesSeq() {
        ListPure(src, build, mentions, mentionsBytes, shape, doc);
      }
    case CMap(entries) =>
      if shape.TakesMap() {
        EntriesPure(src, build, mentions, mentionsBytes, shape, doc);
      }
    case CEnum(tag, payload) =>
      if shape.EnumOf? {
        VariantPure(src, build, mentions, mentionsBytes, shape, doc, tag, payload);
      }
  }

  /** A primitive callback on a clean document reaches the caller's visitor unchanged. */
  lemma ForwardPrimPure(src: Source, build: Build, mentions: string -> bool, mentionsBytes: Serde.Bytes -> bool,
                        shape: Shape, doc: Doc)
    requires Lawful(src, mentions, mentionsBytes) && Clean(doc, mentions)
    requires Respond(shape.Asks(), doc).CPrim?
    ensures Forward(Vars(src, build), shape, doc) == Forward(Plain, shape, doc)
  {
    var v := Respond(shape.Asks(), doc).v;
    if v.IsText() {
      RespondClean(shape.Asks(), doc, mentions);
    }
    WrapVisitPassesThrough(src, mentions, mentionsBytes, v);
  }

  lemma {:induction false} VariantPure(src: Source, build: Build, mentions: string -> bool, mentionsBytes: Serde.Bytes -> bool,
                                       shape: Shape, doc: Doc, tag: Doc, payload: Option<Doc>)
    requires Lawful(src, mentions, mentionsBytes) && Clean(doc, mentions) && Untyped(build, shape)
    requires shape.EnumOf? && Respond(EnumReq, doc) == CEnum(tag, payload)
    ensures DecodeVariant(Vars(src, build), shape, doc, tag, payload) == DecodeVariant(Plain, shape, doc, tag, payload)
    decreases doc, shape.Size(), 0
  {
    DecodePure(src, build, mentions, mentionsBytes, shape.tag, tag);
    if payload.Some? && build == Intended {
      DecodePure(src, build, mentions, mentionsBytes, shape.payload, payload.value);
    }
  }

  lemma {:induction false} ListPure(src: Source, build: Build, mentions: string -> bool, mentionsBytes: Serde.Bytes -> bool,
                                    shape: Shape, doc: Doc)
    requires Lawful(src, mentions, mentionsBytes) && Clean(doc, mentions) && Untyped(build, shape)
    requires doc.List?
    ensures DecodeList(Vars(src, build), shape, doc) == DecodeList(Plain, shape, doc)
    decreases doc, 0, 0
  {
    forall i | 0 <= i < shape.Reach(|doc.items|)
      ensures Decode(Vars(src, build), shape.ElemShape(i), doc.items[i]) == Decode(Plain, shape.ElemShape(i), doc.items[i])
    {
      ElemUntyped(build, shape, i);
      DecodePure(src, build, mentions, mentionsBytes, shape.ElemShape(i), doc.items[i]);
    }
  }

  lemma {:induction false} EntriesPure(src: Source, build: Build, mentions: string -> bool, mentionsBytes: Serde.Bytes -> bool,
                                       shape: Shape, doc: Doc)
    requires Lawful(src, mentions, mentionsBytes) && Clean(doc, mentions) && Untyped(build, shape)
    requires doc.Dict?
    ensures DecodeEntries(Vars(src, build), shape, doc) == DecodeEntries(Plain, shape, doc)
    decreases doc, 0, 0
  {
    forall i | 0 <= i < |doc.entries|
      ensures Decode(Vars(src, build), shape.ValueShape(doc.entries[i].key), doc.entries[i].value)
        == Decode(Plain, shape.ValueShape(doc.entries[i].key), doc.entries[i].value)
    {
      ValueUntyped(build, shape, doc.entries[i].key);
      DecodePure(src, build, mentions, mentionsBytes, shape.ValueShape(doc.entries[i].key), doc.entries[i].value);
    }
  }

  /** `Collect` succeeds only with every value, in order. */
  lemma {:induction false} CollectOk<T>(rs: seq<Result<T>>)
    requires Collect(rs).Ok?
    ensures |Collect(rs).value| == |rs|
    ensures forall i :: 0 <= i < |rs| ==> rs[i] == Ok(Collect(rs).value[i])
  {
    if rs != [] {
      CollectOk(rs[1..]);
      assert forall i :: 1 <= i < |rs| ==> rs[i] == rs[1..][i - 1];
    }
  }

  /** `Collect` of values that all succeed is every value, in order. */
  lemma {:induction false} CollectAll<T>(rs: seq<Result<T>>, xs: seq<T>)
    requires |rs| == |xs| && forall i :: 0 <= i < |rs| ==> rs[i] == Ok(xs[i])
    ensures Collect(rs) == Ok(xs)
  {
    if rs != [] {
      CollectAll(rs[1..], xs[1..]);
      assert xs == [xs[0]] + xs[1..];
    }
  }

  /** A derived struct read from a map that names its fields in order: every key is kept as
      written and every value is decoded at the shape of the field it names. */
  lemma StructInOrder(layer: Layer, fields: seq<Field>, doc: Doc, ds: seq<Delivered>)
    requires doc.Dict? && |doc.entries| == |fields| == |ds|
    requires forall i :: 0 <= i < |fields| ==> doc.entries[i].key == Scalar(VisitBorrowedStr(fields[i].name), None)
    requires forall i :: 0 <= i < |fields| ==> FieldIndex(fields, fields[i].name) == Some(i)
    requires forall i :: 0 <= i < |fields| ==> Decode(layer, fields[i].shape, doc.entries[i].value) == Ok(ds[i])
    ensures Decode(layer, StructOf(fields), doc)
      == Ok(DMap(seq(|fields|, i requires 0 <= i < |fields| => Pair(DPrim(VisitBorrowedStr(fields[i].name)), ds[i]))))
  {
    var shape := StructOf(fields);
    var pairs := seq(|fields|, i requires 0 <= i < |fields| => Pair(DPrim(VisitBorrowedStr(fields[i].name)), ds[i]));
    var rs := DecodeEntries(layer, shape, doc);
    forall i | 0 <= i < |fields|
      ensures rs[i] == Ok(pairs[i])
    {
      var key := doc.entries[i].key;
      assert Respond(IdentifierReq, key) == CPrim(VisitBorrowedStr(fields[i].name));
      assert shape.ValueShape(key) == fields[i].shape;
      assert Decode(Plain, shape.KeyShape(), key) == Ok(DPrim(VisitBorrowedStr(fields[i].name)));
    }
    CollectAll(rs, pairs);
    assert Respond(StructReq, doc) == CMap(doc.entries);
  }

  /** A tuple read from a sequence of exactly its length: every element is decoded at its
      own position's shape, and the tuple holds those values in order. */
  lemma TupleInOrder(layer: Layer, es: seq<Shape>, doc: Doc, ds: seq<Delivered>)
    requires doc.List? && |doc.items| == |es| == |ds|
    requires forall i :: 0 <= i < |es| ==> Decode(layer, es[i], doc.items[i]) == Ok(ds[i])
    ensures Decode(layer, TupleOf(es), doc) == Ok(DSeq(ds))
  {
    var rs := DecodeList(layer, TupleOf(es), doc);
    CollectAll(rs, ds);
  }

  /** A tuple or a struct read from a sequence whose length is not its own number of
      positions fails with the length the sequence has, once the elements it reads decode. */
  lemma FixedLengthChecked(layer: Layer, shape: Shape, doc: Doc)
    requires shape.TupleOf? || shape.StructOf?
    requires doc.List?
    requires |doc.items| != (if shape.TupleOf? then |shape.elems| else |shape.fields|)
    requires forall i :: 0 <= i < |doc.items| && i < (if shape.TupleOf? then |shape.elems| else |shape.fields|) ==>
      Decode(layer, shape.ElemShape(i), doc.items[i]).Ok?
    ensures Decode(layer, shape, doc) == Err(InvalidLength(|doc.items|, ExpectShape))
  {
    var rs := DecodeList(layer, shape, doc);
    var ds := seq(|rs|, i requires 0 <= i < |rs| => rs[i].value);
    CollectAll(rs, ds);
  }

  /** Map keys are never expanded: every key of a decoded map or struct is what the decoder
      delivers for it on its own, while every value went through the proxy. */
  lemma KeysVerbatim(src: Source, build: Build, shape: Shape, doc: Doc)
    requires doc.Dict? && (shape.MapOf? || shape.StructOf?)
    requires Decode(Vars(src, build), shape, doc).Ok?
    ensures var d := Decode(Vars(src, build), shape, doc).value;
      && d.DMap? && |d.pairs| == |doc.entries|
      && (forall i :: 0 <= i < |doc.entries| ==> Decode(Plain, shape.KeyShape(), doc.entries[i].key) == Ok(d.pairs[i].key))
      && (forall i :: 0 <= i < |doc.entries| ==>
            Decode(Vars(src, build), shape.ValueShape(doc.entries[i].key), doc.entries[i].value) == Ok(d.pairs[i].value))
  {
    var rs := DecodeEntries(Vars(src, build), shape, doc);
    CollectOk(rs);
  }

  /** A map whose key and value spell the same text: the key is kept as written and the value
      is what `expand_any` makes of it. */
  lemma KeyKeptValueExpanded(src: Source, build: Build, k: string, s: string)
    ensures var doc := Dict([Entry(Scalar(VisitBorrowedStr(k), None), Scalar(VisitBorrowedStr(s), None))]);
      Decode(Vars(src, build), Dynamic, doc) == match src.expandAny(Borrowed(s))
        case Ok(a) => Ok(DMap([Pair(DPrim(VisitBorrowedStr(k)), DPrim(a.VisitBorrowed()))]))
        case Err(e) => Err(e)
  {
    var doc := Dict([Entry(Scalar(VisitBorrowedStr(k), None), Scalar(VisitBorrowedStr(s), None))]);
    var rs := DecodeEntries(Vars(src, build), Dynamic, doc);
    assert rs == [PairOf(Decode(Plain, Dynamic, doc.entries[0].key), Decode(Vars(src, build), Dynamic, doc.entries[0].value))];
    assert Decode(Plain, Dynamic, doc.entries[0].key) == Ok(DPrim(VisitBorrowedStr(k)));
    assert TextCow(VisitBorrowedStr(s)) == Borrowed(s);
    assert Decode(Vars(src, build), Dynamic, doc.entries[0].value) == Deliver(WrapVisit(src, VisitBorrowedStr(s)));
    assert Collect(rs[1..]) == Ok([]);
    assert Decode(Vars(src, build), Dynamic, doc) == Forward(Vars(src, build), Dynamic, doc);
    assert Forward(Vars(src, build), Dynamic, doc) == match Collect(rs) case Ok(ps) => Ok(DMap(ps)) case Err(e) => Err(e);
    match src.expandAny(Borrowed(s))
    case Ok(a) =>
      var p := Pair(DPrim(VisitBorrowedStr(k)), DPrim(a.VisitBorrowed()));
      assert rs == [Ok(p)];
      assert Collect(rs) == Ok([p] + []);
      assert [p] + [] == [p];
      assert Decode(Vars(src, build), Dynamic, doc) == Ok(DMap([p]));
    case Err(e) =>
      assert rs[0] == Err(e);
  }

  /** A typed request on a value of its own kind hands the value on unchanged, with or
      without the proxy, and never consults the source. */
  lemma TypedLeafUnchanged(src: Source, build: Build, req: Request, v: Visit, spelled: Option<string>)
    requires Accepts(req, v)
    ensures Decode(Vars(src, build), Leaf(req), Scalar(v, spelled)) == Ok(DPrim(v))
    ensures Decode(Plain, Leaf(req), Scalar(v, spelled)) == Ok(DPrim(v))
  {
    var doc := Scalar(v, spelled);
    assert Respond(AnyReq, doc) == CPrim(v) && Respond(req, doc) == CPrim(v);
    assert RouteOf(build, req).Captured?;
    assert Decode(Vars(src, build), Leaf(req), doc) == CaptureThenResolve(src, req, doc);
    AcceptedReplays(src, req, v);
  }

  /** A captured value of the kind a typed request accepts is handed back as it came. */
  lemma AcceptedReplays(src: Source, req: Request, v: Visit)
    requires Accepts(req, v)
    ensures Capture(v).Ok? && Resolve(src, req, Capture(v).value) == Ok(v)
  {
    ReplayCapture(v);
    var c := Capture(v).value;
    match req
    case IntReq(k) =>
    case FloatReq(f) =>
    case _ =>
  }

  /** Text in place of an integer is expanded at the requested width. */
  lemma IntegerLeafExpands(src: Source, build: Build, k: IntKind, v: Visit, spelled: Option<string>)
    requires v.IsText()
    ensures src.ExpandInt(k, v.s).Ok? ==>
      Decode(Vars(src, build), Leaf(IntReq(k)), Scalar(v, spelled)) == Ok(DPrim(IntVisit(k, src.ExpandInt(k, v.s).value)))
    ensures src.ExpandInt(k, v.s).Err? ==>
      Decode(Vars(src, build), Leaf(IntReq(k)), Scalar(v, spelled)) == Err(src.ExpandInt(k, v.s).error)
  {
    var doc := Scalar(v, spelled);
    assert Respond(AnyReq, doc) == CPrim(v);
    assert Capture(v).Ok? && Capture(v).value.IsText() && Capture(v).value.s == v.s;
    assert Decode(Vars(src, build), Leaf(IntReq(k)), doc) == CaptureThenResolve(src, IntReq(k), doc);
  }

  /** Text in place of a boolean is expanded as a boolean. */
  lemma BoolLeafExpands(src: Source, build: Build, v: Visit, spelled: Option<string>)
    requires v.IsText()
    ensures Decode(Vars(src, build), Leaf(BoolReq), Scalar(v, spelled)) == match src.expandBool(v.s)
      case Ok(b) => Ok(DPrim(VisitBool(b)))
      case Err(e) => Err(e)
  {
  }

  /** Text in a string position is read as a `String` and expanded by `expand_str`; the
      expansion is handed over owned, or as a borrow if the source lends it. */
  lemma TextLeafExpands(src: Source, build: Build, req: Request, doc: Doc)
    requires req.IsText() && Respond(req, doc).CPrim? && Respond(req, doc).v.IsText()
    ensures var s := Respond(req, doc).v.s;
      Decode(Vars(src, build), Leaf(req), doc) == match src.expandStr(Owned(s))
        case Ok(Owned(x)) => Ok(DPrim(VisitString(x)))
        case Ok(Borrowed(x)) => Ok(DPrim(VisitBorrowedStr(x)))
        case Err(e) => Err(e)
  {
    assert Respond(StringReq, doc) == Respond(req, doc);
  }

  /** A string request is answered with the text the decoder gives for a string request,
      even for a scalar that would decode as a number, and the text comes back owned: a
      borrow of the input is not kept. */
  lemma TextLeafComesOwned(src: Source, mentions: string -> bool, mentionsBytes: Serde.Bytes -> bool, build: Build,
                           req: Request, doc: Doc)
    requires Lawful(src, mentions, mentionsBytes)
    requires req.IsText() && Respond(req, doc).CPrim?
    requires Respond(req, doc).v.IsText() && !mentions(Respond(req, doc).v.s)
    ensures Decode(Vars(src, build), Leaf(req), doc) == Ok(DPrim(VisitString(Respond(req, doc).v.s)))
    ensures Decode(Plain, Leaf(req), doc) == Ok(DPrim(Respond(req, doc).v))
  {
    var s := Respond(req, doc).v.s;
    assert Respond(StringReq, doc) == Respond(req, doc);
    assert src.expandStr(Owned(s)) == Ok(Owned(s));
  }

  /** A byte request on a sequence of `u8` elements collects them into an owned buffer,
      which is then expanded. */
  lemma ByteBufFromSequence(src: Source, build: Build, bs: Serde.Bytes)
    ensures var doc := List(seq(|bs|, i requires 0 <= i < |bs| => Scalar(VisitU8(bs[i]), None)));
      Decode(Vars(src, build), Leaf(ByteBufReq), doc) == match src.expandBytes(Owned(bs))
        case Ok(Owned(b)) => Ok(DPrim(VisitByteBuf(b)))
        case Ok(Borrowed(b)) => Ok(DPrim(VisitBytes(b)))
        case Err(e) => Err(e)
  {
    var doc := List(seq(|bs|, i requires 0 <= i < |bs| => Scalar(VisitU8(bs[i]), None)));
    var items := seq(|doc.items|, i requires 0 <= i < |doc.items| => ElementByte(doc.items[i]));
    assert forall i :: 0 <= i < |items| ==> items[i] == Ok(bs[i]);
    CollectAllBytes(items);
    assert CollectBytes(items).value == bs;
  }

  /** As written, `deserialize_unit` captures the value and then refuses it: through the
      proxy a unit request fails on every document. */
  lemma UnitAsWrittenFails(src: Source, doc: Doc)
    ensures Decode(Vars(src, AsWritten), Leaf(UnitReq), doc).Err?
  {
    match Respond(AnyReq, doc)
    case CPrim(v) =>
      if Capture(v).Ok? {
        RefusesNonPrimitive(src, UnitReq, Capture(v).value);
      }
    case _ =>
  }

  /** The input that shows it: `null` decodes as unit on its own, but not through the proxy. */
  lemma UnitCounterexample(src: Source)
    ensures Decode(Plain, Leaf(UnitReq), Null) == Ok(DPrim(VisitUnit))
    ensures Decode(Vars(src, AsWritten), Leaf(UnitReq), Null) == Err(InvalidType(UUnit, ExpectPrimitive))
  {
  }

  /** With `unit` forwarded like the other structural requests, a unit request through the
      proxy decodes exactly as on its own. */
  lemma UnitForwarded(src: Source, mentions: string -> bool, mentionsBytes: Serde.Bytes -> bool, doc: Doc)
    requires Lawful(src, mentions, mentionsBytes) && Clean(doc, mentions)
    ensures Decode(Vars(src, Intended), Leaf(UnitReq), doc) == Decode(Plain, Leaf(UnitReq), doc)
    ensures Decode(Vars(src, Intended), Leaf(UnitReq), Null) == Ok(DPrim(VisitUnit))
  {
    DecodePure(src, Intended, mentions, mentionsBytes, Leaf(UnitReq), doc);
  }

  /** As written, an enum's payload is decoded by the decoder's own variant access, outside
      the proxy: the tag is looked at through the proxy, the payload as the decoder gives it. */
  lemma PayloadOutsideProxy(src: Source, tag: Shape, payload: Shape, k: Doc, p: Doc)
    requires Decode(Vars(src, AsWritten), EnumOf(tag, payload), Dict([Entry(k, p)])).Ok?
    ensures var d := Decode(Vars(src, AsWritten), EnumOf(tag, payload), Dict([Entry(k, p)])).value;
      && d.DEnum? && d.payload.Some?
      && Decode(Vars(src, AsWritten), tag, k) == Ok(d.tag)
      && Decode(Plain, payload, p) == Ok(d.payload.value)
  {
    var doc := Dict([Entry(k, p)]);
    assert Respond(EnumReq, doc) == CEnum(k, Some(p));
    assert Decode(Vars(src, AsWritten), EnumOf(tag, payload), doc)
        == DecodeVariant(Vars(src, AsWritten), EnumOf(tag, payload), doc, k, Some(p));
  }

  /** With the payload decoded through the proxy, it is resolved like any other position. */
  lemma PayloadThroughProxy(src: Source, tag: Shape, payload: Shape, k: Doc, p: Doc)
    requires Decode(Vars(src, Intended), EnumOf(tag, payload), Dict([Entry(k, p)])).Ok?
    ensures var d := Decode(Vars(src, Intended), EnumOf(tag, payload), Dict([Entry(k, p)])).value;
      && d.DEnum? && d.payload.Some?
      && Decode(Vars(src, Intended), tag, k) == Ok(d.tag)
      && Decode(Vars(src, Intended), payload, p) == Ok(d.payload.value)
  {
    var doc := Dict([Entry(k, p)]);
    assert Respond(EnumReq, doc) == CEnum(k, Some(p));
    assert Decode(Vars(src, Intended), EnumOf(tag, payload), doc)
        == DecodeVariant(Vars(src, Intended), EnumOf(tag, payload), doc, k, Some(p));
  }

  /** The input that shows it: a newtype variant `{"A": s}` whose payload string refers to a
      variable keeps the reference as written, where the corrected proxy substitutes it. */
  lemma PayloadCounterexample(src: Source, s: string, x: string)
    requires src.expandAny(Borrowed("A")) == Ok(Any.Str(Borrowed("A")))
    requires src.expandStr(Owned(s)) == Ok(Owned(x))
    ensures var doc := Dict([Entry(Scalar(VisitBorrowedStr("A"), None), Scalar(VisitBorrowedStr(s), None))]);
      var shape := EnumOf(Leaf(IdentifierReq), Leaf(StringReq));
      && Decode(Vars(src, AsWritten), shape, doc) == Ok(DEnum(DPrim(VisitBorrowedStr("A")), Some(DPrim(VisitBorrowedStr(s)))))
      && Decode(Vars(src, Intended), shape, doc) == Ok(DEnum(DPrim(VisitBorrowedStr("A")), Some(DPrim(VisitString(x)))))
  {
    var tag := Scalar(VisitBorrowedStr("A"), None);
    assert TextCow(VisitBorrowedStr("A")) == Borrowed("A");
    assert Decode(Vars(src, AsWritten), Leaf(IdentifierReq), tag) == Ok(DPrim(VisitBorrowedStr("A")));
    assert Decode(Vars(src, Intended), Leaf(IdentifierReq), tag) == Ok(DPrim(VisitBorrowedStr("A")));
    var doc := Dict([Entry(tag, Scalar(VisitBorrowedStr(s), None))]);
    var shape := EnumOf(Leaf(IdentifierReq), Leaf(StringReq));
    var p := Scalar(VisitBorrowedStr(s), None);
    assert Respond(EnumReq, doc) == CEnum(tag, Some(p));
    assert Decode(Plain, Leaf(StringReq), p) == Ok(DPrim(VisitBorrowedStr(s)));
    assert Content.String(s).TextCow() == Owned(s);
    assert Decode(Vars(src, Intended), Leaf(StringReq), p) == Ok(DPrim(VisitString(x)));
    assert Decode(Vars(src, AsWritten), shape, doc) == DecodeVariant(Vars(src, AsWritten), shape, doc, tag, Some(p));
    assert Decode(Vars(src, Intended), shape, doc) == DecodeVariant(Vars(src, Intended), shape, doc, tag, Some(p));
  }

  /** The same input on a string source with `X` set to `v`: as written the payload keeps
      `${X}`, the corrected proxy substitutes `v`. */
  lemma PayloadSubstituted(floats: FloatSyntax, expandBytes: Cow<Serde.Bytes> -> Result<Cow<Serde.Bytes>>)
    requires floats.Plausible()
    ensures var src := AsSource(New(map["X" := "v"]), floats, expandBytes);
      var doc := Dict([Entry(Scalar(VisitBorrowedStr("A"), None), Scalar(VisitBorrowedStr("${X}"), None))]);
      var shape := EnumOf(Leaf(IdentifierReq), Leaf(StringReq));
      && Decode(Vars(src, AsWritten), shape, doc) == Ok(DEnum(DPrim(VisitBorrowedStr("A")), Some(DPrim(VisitBorrowedStr("${X}")))))
      && Decode(Vars(src, Intended), shape, doc) == Ok(DEnum(DPrim(VisitBorrowedStr("A")), Some(DPrim(VisitString("v")))))
  {
    var ss := New(map["X" := "v"]);
    var src := AsSource(ss, floats, expandBytes);
    ExpandWord(ss, "X", "v", Owned("${X}"), floats);
    AsSourceExpands(ss, floats, expandBytes, IntKind.U8, "A", Borrowed("A"));
    AsSourceExpands(ss, floats, expandBytes, IntKind.U8, "${X}", Owned("${X}"));
    assert ss.ParseVar("A").None?;
    PayloadCounterexample(src, "${X}", "v");
  }

  /** The source of the crate's own example: a string source with `REDIS_HOST` set to
      `127.0.0.1` and `REDIS_PORT` to `9977`. */
  function RedisSource(floats: FloatSyntax, expandBytes: Cow<Serde.Bytes> -> Result<Cow<Serde.Bytes>>): Source {
    AsSource(New(map["REDIS_HOST" := "127.0.0.1", "REDIS_PORT" := "9977"]), floats, expandBytes)
  }

  /** `expand_str` on the host's reference finds a value that spells neither a boolean nor
      a number. */
  lemma RedisHostText(floats: FloatSyntax, expandBytes: Cow<Serde.Bytes> -> Result<Cow<Serde.Bytes>>)
    requires floats.f64("127.0.0.1").None?
    ensures RedisSource(floats, expandBytes).expandStr(Owned("${REDIS_HOST}")) == Ok(Owned("127.0.0.1"))
  {
    var ss := New(map["REDIS_HOST" := "127.0.0.1", "REDIS_PORT" := "9977"]);
    assert ss.ParseVar("${REDIS_HOST}") == Some("REDIS_HOST") by {
      ss.ParseVarPlaceholder("REDIS_HOST");
      assert ss.Placeholder("REDIS_HOST") == "${REDIS_HOST}";
    }
    assert ss.Lookup("REDIS_HOST") == Some("127.0.0.1");
    assert ParseValue(Owned("127.0.0.1"), floats) == Any.Str(Owned("127.0.0.1")) by {
      assert ParseBool("127.0.0.1").None?;
      assert ParseInteger(IntKind.U64, "127.0.0.1").None? && ParseInteger(IntKind.I64, "127.0.0.1").None?;
    }
    assert ss.ExpandStr(Owned("${REDIS_HOST}"), floats) == Ok(Owned("127.0.0.1"));
    AsSourceExpands(ss, floats, expandBytes, IntKind.U16, "", Owned("${REDIS_HOST}"));
  }

  /** The host, asked for as a string, comes as the variable's text, owned. */
  lemma RedisHost(floats: FloatSyntax, expandBytes: Cow<Serde.Bytes> -> Result<Cow<Serde.Bytes>>, build: Build)
    requires floats.f64("127.0.0.1").None?
    ensures Decode(Vars(RedisSource(floats, expandBytes), build), Leaf(StrReq), Scalar(VisitBorrowedStr("${REDIS_HOST}"), None))
      == Ok(DPrim(VisitString("127.0.0.1")))
  {
    RedisHostText(floats, expandBytes);
    TextLeafExpands(RedisSource(floats, expandBytes), build, StrReq, Scalar(VisitBorrowedStr("${REDIS_HOST}"), None));
  }

  /** `expand_u16` on the port's reference parses the value. */
  lemma RedisPortNumber(floats: FloatSyntax, expandBytes: Cow<Serde.Bytes> -> Result<Cow<Serde.Bytes>>)
    ensures RedisSource(floats, expandBytes).ExpandInt(IntKind.U16, "${REDIS_PORT}") == Ok(9977)
  {
    var ss := New(map["REDIS_HOST" := "127.0.0.1", "REDIS_PORT" := "9977"]);
    assert ss.ParseVar("${REDIS_PORT}") == Some("REDIS_PORT") by {
      ss.ParseVarPlaceholder("REDIS_PORT");
      assert ss.Placeholder("REDIS_PORT") == "${REDIS_PORT}";
    }
    assert ss.Lookup("REDIS_PORT") == Some("9977");
    assert ParseInteger(IntKind.U16, "9977") == Some(9977) by {
      var s := "9977";
      assert s[..3] == "997" && "997"[..2] == "99" && "99"[..1] == "9" && "9"[..0] == "";
      assert Value(s) == 9977;
    }
    assert ss.ExpandInt(IntKind.U16, "${REDIS_PORT}") == Ok(9977);
    AsSourceExpands(ss, floats, expandBytes, IntKind.U16, "${REDIS_PORT}", Owned(""));
  }

  /** The port, asked for as a `u16`, comes as the number its variable spells. */
  lemma RedisPort(floats: FloatSyntax, expandBytes: Cow<Serde.Bytes> -> Result<Cow<Serde.Bytes>>, build: Build)
    ensures Decode(Vars(RedisSource(floats, expandBytes), build), Leaf(IntReq(IntKind.U16)),
                   Scalar(VisitBorrowedStr("${REDIS_PORT}"), None))
      == Ok(DPrim(VisitU16(9977)))
  {
    RedisPortNumber(floats, expandBytes);
    IntegerLeafExpands(RedisSource(floats, expandBytes), build, IntKind.U16, VisitBorrowedStr("${REDIS_PORT}"), None);
  }

  /** The timeout, asked for as a `u32`, is a number already and passes as written. */
  lemma RedisTimeout(floats: FloatSyntax, expandBytes: Cow<Serde.Bytes> -> Result<Cow<Serde.Bytes>>, build: Build)
    ensures Decode(Vars(RedisSource(floats, expandBytes), build), Leaf(IntReq(IntKind.U32)), Scalar(VisitU64(5), None))
      == Ok(DPrim(VisitU64(5)))
  {
    TypedLeafUnchanged(RedisSource(floats, expandBytes), build, IntReq(IntKind.U32), VisitU64(5), None);
  }

  /** The fields of the crate's example struct `Redis { host, port: u16, timeout: u32 }`; the
      host's type reads itself from a string. */
  function RedisFields(): seq<Field> {
    [Field("host", Leaf(StrReq)), Field("port", Leaf(IntReq(IntKind.U16))), Field("timeout", Leaf(IntReq(IntKind.U32)))]
  }

  /** `{"host": "${REDIS_HOST}", "port": "${REDIS_PORT}", "timeout": 5}`. */
  function RedisDoc(): Doc {
    Dict([Entry(Scalar(VisitBorrowedStr("host"), None), Scalar(VisitBorrowedStr("${REDIS_HOST}"), None)),
          Entry(Scalar(VisitBorrowedStr("port"), None), Scalar(VisitBorrowedStr("${REDIS_PORT}"), None)),
          Entry(Scalar(VisitBorrowedStr("timeout"), None), Scalar(VisitU64(5), None))])
  }

  /** The example's keys name its fields, in order. */
  lemma RedisKeysInOrder()
    ensures |RedisDoc().entries| == |RedisFields()| == 3
    ensures forall i :: 0 <= i < 3 ==> RedisDoc().entries[i].key == Scalar(VisitBorrowedStr(RedisFields()[i].name), None)
    ensures forall i :: 0 <= i < 3 ==> FieldIndex(RedisFields(), RedisFields()[i].name) == Some(i)
  {
    var fields := RedisFields();
    assert FieldIndex(fields, "host") == Some(0);
    assert FieldIndex(fields, "port") == Some(1);
    assert FieldIndex(fields, "timeout") == Some(2);
  }

  /** What the example's values decode to, each at its field's shape. */
  function RedisValues(): seq<Delivered> {
    [DPrim(VisitString("127.0.0.1")), DPrim(VisitU16(9977)), DPrim(VisitU64(5))]
  }

  lemma RedisValuesDecode(floats: FloatSyntax, expandBytes: Cow<Serde.Bytes> -> Result<Cow<Serde.Bytes>>, build: Build)
    requires floats.f64("127.0.0.1").None?
    ensures forall i :: 0 <= i < 3 ==>
      Decode(Vars(RedisSource(floats, expandBytes), build), RedisFields()[i].shape, RedisDoc().entries[i].value)
        == Ok(RedisValues()[i])
  {
    RedisHost(floats, expandBytes, build);
    RedisPort(floats, expandBytes, build);
    RedisTimeout(floats, expandBytes, build);
  }

  /** The crate's own example: the keys stay as written, the host comes as the variable's
      text, the port as the number it spells, and the timeout as the decoder gives it. */
  lemma RedisExample(floats: FloatSyntax, expandBytes: Cow<Serde.Bytes> -> Result<Cow<Serde.Bytes>>, build: Build)
    requires floats.f64("127.0.0.1").None?
    ensures Decode(Vars(RedisSource(floats, expandBytes), build), StructOf(RedisFields()), RedisDoc())
      == Ok(DMap([Pair(DPrim(VisitBorrowedStr("host")), DPrim(VisitString("127.0.0.1"))),
                  Pair(DPrim(VisitBorrowedStr("port")), DPrim(VisitU16(9977))),
                  Pair(DPrim(VisitBorrowedStr("timeout")), DPrim(VisitU64(5)))]))
  {
    var fields, ds := RedisFields(), RedisValues();
    RedisKeysInOrder();
    RedisValuesDecode(floats, expandBytes, build);
    StructInOrder(Vars(RedisSource(floats, expandBytes), build), fields, RedisDoc(), ds);
    var pairs := seq(|fields|, i requires 0 <= i < |fields| => Pair(DPrim(VisitBorrowedStr(fields[i].name)), ds[i]));
    assert pairs == [Pair(DPrim(VisitBorrowedStr("host")), ds[0]), Pair(DPrim(VisitBorrowedStr("port")), ds[1]),
                     Pair(DPrim(VisitBorrowedStr("timeout")), ds[2])];
  }
}
