/** The proxy on typed shapes: without variable references, a caller's `Deserialize`
    implementation receives through the proxy what it receives straight from the decoder,
    except that text and bytes a typed request asks for come back owned. */
module Transparency {
  import opened Serde
  import opened Sources
  import opened Resolver
  import opened ByteBufs
  import opened Decoders
  import opened Proxy
  import opened ProxyLaws

  /** A result with `f` applied to its value. */
  function Lift<T>(r: Result<T>, f: T -> T): (l: Result<T>)
    ensures r.Err? ==> l == r
    ensures r.Ok? ==> l == Ok(f(r.value))
  {
    match r
    case Ok(x) => Ok(f(x))
    case Err(e) => Err(e)
  }

  function OwningOf(d: Delivered): Delivered { d.Owning() }

  function OwningPair(p: Pair): Pair { p.Owning() }

  /** A decode result with every delivered text and byte payload taken as owned. */
  function OwnedResult(r: Result<Delivered>): (o: Result<Delivered>)
    ensures o == Lift(r, OwningOf)
  {
    match r
    case Ok(d) => Ok(d.Owning())
    case Err(e) => Err(e)
  }

  /** The primitive a typed request takes from the decoder as it is: text for a string,
      bytes the source leaves alone for a byte buffer, and otherwise a value its visitor
      accepts without consulting the source. */
  predicate Admits(req: Request, v: Visit, mentionsBytes: Serde.Bytes -> bool) {
    if req.IsText() then v.IsText()
    else if req.IsByteSeq() then v.IsByteSeq() && !mentionsBytes(v.bs)
    else Accepts(req, v)
  }

  /** Every typed request the shape makes on the document is answered with a primitive it
      admits.  Requests forwarded with the visitor wrapped may be answered with anything. */
  predicate Fits(build: Build, shape: Shape, doc: Doc, mentionsBytes: Serde.Bytes -> bool)
    decreases doc, shape.Size()
  {
    match shape
    case Dynamic => true
    case Leaf(req) =>
      RouteOf(build, req).Wrapped? || (Respond(req, doc).CPrim? && Admits(req, Respond(req, doc).v, mentionsBytes))
    case OptionOf(s) => doc.Null? || Fits(build, s, doc, mentionsBytes)
    case NewtypeOf(s) => Fits(build, s, doc, mentionsBytes)
    case SeqOf(_) => ElementsFit(build, shape, doc, mentionsBytes)
    case TupleOf(_) => ElementsFit(build, shape, doc, mentionsBytes)
    case MapOf(_, _) => ValuesFit(build, shape, doc, mentionsBytes)
    case StructOf(_) => ElementsFit(build, shape, doc, mentionsBytes) && ValuesFit(build, shape, doc, mentionsBytes)
    case EnumOf(t, p) =>
      match Respond(EnumReq, doc)
      case CEnum(tag, payload) =>
        && Fits(build, t, tag, mentionsBytes)
        && (payload.Some? && build == Intended ==> Fits(build, p, payload.value, mentionsBytes))
      case _ => true
  }

  /** Every element a sequence visitor reads fits the shape of its position. */
  predicate ElementsFit(build: Build, shape: Shape, doc: Doc, mentionsBytes: Serde.Bytes -> bool)
    decreases doc, 0
  {
    doc.List? ==> forall i :: 0 <= i < shape.Reach(|doc.items|) ==> Fits(build, shape.ElemShape(i), doc.items[i], mentionsBytes)
  }

  /** Every map value fits the shape its key selects. */
  predicate ValuesFit(build: Build, shape: Shape, doc: Doc, mentionsBytes: Serde.Bytes -> bool)
    decreases doc, 0
  {
    doc.Dict? ==> forall i :: 0 <= i < |doc.entries| ==>
      Fits(build, shape.ValueShape(doc.entries[i].key), doc.entries[i].value, mentionsBytes)
  }

  /** `Collect` relates results that agree up to `f`: both fail with the same error, or both
      succeed with values that agree up to `f`. */
  lemma {:induction false} CollectLift<T>(rs1: seq<Result<T>>, rs2: seq<Result<T>>, f: T -> T)
    requires |rs1| == |rs2|
    requires forall i :: 0 <= i < |rs1| ==> Lift(rs1[i], f) == Lift(rs2[i], f)
    ensures Collect(rs1).Err? ==> Collect(rs2) == Collect(rs1)
    ensures Collect(rs1).Ok? ==> Collect(rs2).Ok? && |Collect(rs1).value| == |Collect(rs2).value|
    ensures Collect(rs1).Ok? ==>
      forall i :: 0 <= i < |Collect(rs1).value| ==> f(Collect(rs1).value[i]) == f(Collect(rs2).value[i])
    decreases |rs1|
  {
    if rs1 != [] {
      assert Lift(rs1[0], f) == Lift(rs2[0], f);
      forall i | 0 <= i < |rs1| - 1
        ensures Lift(rs1[1..][i], f) == Lift(rs2[1..][i], f)
      {
        assert rs1[1..][i] == rs1[i + 1] && rs2[1..][i] == rs2[i + 1];
      }
      CollectLift(rs1[1..], rs2[1..], f);
      if rs1[0].Ok? && Collect(rs1[1..]).Ok? {
        var xs, ys := Collect(rs1[1..]).value, Collect(rs2[1..]).value;
        assert Collect(rs1).value == [rs1[0].value] + xs;
        assert Collect(rs2).value == [rs2[0].value] + ys;
        forall i | 0 <= i < |Collect(rs1).value|
          ensures f(Collect(rs1).value[i]) == f(Collect(rs2).value[i])
        {
          if i > 0 {
            assert Collect(rs1).value[i] == xs[i - 1] && Collect(rs2).value[i] == ys[i - 1];
          }
        }
      }
    }
  }

  /** Sequences whose elements agree up to ownership collect to sequences that do. */
  lemma CollectSeq(rs1: seq<Result<Delivered>>, rs2: seq<Result<Delivered>>)
    requires |rs1| == |rs2| && forall i :: 0 <= i < |rs1| ==> OwnedResult(rs1[i]) == OwnedResult(rs2[i])
    ensures Collect(rs1).Err? ==> Collect(rs2) == Collect(rs1)
    ensures Collect(rs1).Ok? ==> Collect(rs2).Ok? && DSeq(Collect(rs1).value).Owning() == DSeq(Collect(rs2).value).Owning()
  {
    CollectLift(rs1, rs2, OwningOf);
    if Collect(rs1).Ok? {
      var ds1, ds2 := Collect(rs1).value, Collect(rs2).value;
      assert forall i :: 0 <= i < |ds1| ==> ds1[i].Owning() == OwningOf(ds1[i]);
    }
  }

  /** Entries that agree up to ownership collect to maps that do. */
  lemma CollectMap(rs1: seq<Result<Pair>>, rs2: seq<Result<Pair>>)
    requires |rs1| == |rs2| && forall i :: 0 <= i < |rs1| ==> Lift(rs1[i], OwningPair) == Lift(rs2[i], OwningPair)
    ensures Collect(rs1).Err? ==> Collect(rs2) == Collect(rs1)
    ensures Collect(rs1).Ok? ==> Collect(rs2).Ok? && DMap(Collect(rs1).value).Owning() == DMap(Collect(rs2).value).Owning()
  {
    CollectLift(rs1, rs2, OwningPair);
    if Collect(rs1).Ok? {
      var ps1, ps2 := Collect(rs1).value, Collect(rs2).value;
      assert forall i :: 0 <= i < |ps1| ==> ps1[i].Owning() == OwningPair(ps1[i]);
    }
  }

  /** A typed request on a primitive it admits is answered through the proxy with the
      value the decoder gives on its own, handed over owned. */
  lemma LeafTransparent(src: Source, mentions: string -> bool, mentionsBytes: Serde.Bytes -> bool, build: Build,
                        req: Request, doc: Doc)
    requires Lawful(src, mentions, mentionsBytes) && Clean(doc, mentions)
    requires !RouteOf(build, req).Wrapped?
    requires Respond(req, doc).CPrim? && Admits(req, Respond(req, doc).v, mentionsBytes)
    ensures Decode(Vars(src, build), Leaf(req), doc) == Ok(DPrim(Respond(req, doc).v.Owning()))
    ensures Decode(Plain, Leaf(req), doc) == Ok(DPrim(Respond(req, doc).v))
  {
    var v := Respond(req, doc).v;
    if req.IsText() {
      RespondClean(req, doc, mentions);
      TextLeafComesOwned(src, mentions, mentionsBytes, build, req, doc);
    } else if req.IsByteSeq() {
      assert Respond(ByteBufReq, doc) == Respond(req, doc);
      assert ByteBufValue(doc) == Ok(v.bs);
      assert src.expandBytes(Owned(v.bs)) == Ok(Owned(v.bs));
    } else {
      assert Respond(AnyReq, doc) == CPrim(v);
      AcceptedReplays(src, req, v);
    }
  }

  /** Without variable references, a shape decodes through the proxy to what the decoder
      delivers on its own, up to the ownership of text and bytes, whenever every typed
      request in it is answered with a primitive it admits. */
  lemma {:induction false} DecodeTransparent(src: Source, build: Build, mentions: string -> bool,
                                             mentionsBytes: Serde.Bytes -> bool, shape: Shape, doc: Doc)
    requires Lawful(src, mentions, mentionsBytes) && Clean(doc, mentions) && Fits(build, shape, doc, mentionsBytes)
    ensures OwnedResult(Decode(Vars(src, build), shape, doc)) == OwnedResult(Decode(Plain, shape, doc))
    decreases doc, shape.Size(), 3
  {
    if RouteOf(build, shape.Asks()).Wrapped? {
      ForwardTransparent(src, build, mentions, mentionsBytes, shape, doc);
    } else {
      assert shape.Leaf?;
      LeafTransparent(src, mentions, mentionsBytes, build, shape.req, doc);
    }
  }

  lemma {:induction false} ForwardTransparent(src: Source, build: Build, mentions: string -> bool,
                                              mentionsBytes: Serde.Bytes -> bool, shape: Shape, doc: Doc)
    requires Lawful(src, mentions, mentionsBytes) && Clean(doc, mentions) && Fits(build, shape, doc, mentionsBytes)
    ensures OwnedResult(Forward(Vars(src, build), shape, doc)) == OwnedResult(Forward(Plain, shape, doc))
    decreases doc, shape.Size(), 2
  {
    var cb := Respond(shape.Asks(), doc);
    if cb.CPrim? {
      ForwardPrimPure(src, build, mentions, mentionsBytes, shape, doc);
    } else if cb.CNone? || cb.CSome? {
      OptionTransparent(src, build, mentions, mentionsBytes, shape, doc);
    } else if cb.CNewtype? {
      NewtypeTransparent(src, build, mentions, mentionsBytes, shape, doc);
    } else if cb.CSeq? {
      SeqTransparent(src, build, mentions, mentionsBytes, shape, doc);
    } else if cb.CMap? {
      MapTransparent(src, build, mentions, mentionsBytes, shape, doc);
    } else {
      EnumTransparent(src, build, mentions, mentionsBytes, shape, doc);
    }
  }

  /** An option: `None` either way, or the inner value decoded in the same layer. */
  lemma {:induction false} OptionTransparent(src: Source, build: Build, mentions: string -> bool,
                                             mentionsBytes: Serde.Bytes -> bool, shape: Shape, doc: Doc)
    requires Lawful(src, mentions, mentionsBytes) && Clean(doc, mentions) && Fits(build, shape, doc, mentionsBytes)
    requires Respond(shape.Asks(), doc).CNone? || Respond(shape.Asks(), doc).CSome?
    ensures OwnedResult(Forward(Vars(src, build), shape, doc)) == OwnedResult(Forward(Plain, shape, doc))
    decreases doc, shape.Size(), 1
  {
    if shape.OptionOf? && !doc.Null? {
      DecodeTransparent(src, build, mentions, mentionsBytes, shape.inner, doc);
    }
  }

  /** A newtype: the inner value is decoded in the same layer. */
  lemma {:induction false} NewtypeTransparent(src: Source, build: Build, mentions: string -> bool,
                                              mentionsBytes: Serde.Bytes -> bool, shape: Shape, doc: Doc)
    requires Lawful(src, mentions, mentionsBytes) && Clean(doc, mentions) && Fits(build, shape, doc, mentionsBytes)
    requires Respond(shape.Asks(), doc).CNewtype?
    ensures OwnedResult(Forward(Vars(src, build), shape, doc)) == OwnedResult(Forward(Plain, shape, doc))
    decreases doc, shape.Size(), 1
  {
    if shape.NewtypeOf? {
      DecodeTransparent(src, build, mentions, mentionsBytes, shape.inner, doc);
    }
  }

  lemma {:induction false} SeqTransparent(src: Source, build: Build, mentions: string -> bool,
                                          mentionsBytes: Serde.Bytes -> bool, shape: Shape, doc: Doc)
    requires Lawful(src, mentions, mentionsBytes) && Clean(doc, mentions) && Fits(build, shape, doc, mentionsBytes)
    requires Respond(shape.Asks(), doc).CSeq?
    ensures OwnedResult(Forward(Vars(src, build), shape, doc)) == OwnedResult(Forward(Plain, shape, doc))
    decreases doc, shape.Size(), 1
  {
    if shape.TakesSeq() {
      var rs1, rs2 := DecodeList(Vars(src, build), shape, doc), DecodeList(Plain, shape, doc);
      ListTransparent(src, build, mentions, mentionsBytes, shape, doc);
      CollectSeq(rs1, rs2);
    }
  }

  lemma {:induction false} MapTransparent(src: Source, build: Build, mentions: string -> bool,
                                          mentionsBytes: Serde.Bytes -> bool, shape: Shape, doc: Doc)
    requires Lawful(src, mentions, mentionsBytes) && Clean(doc, mentions) && Fits(build, shape, doc, mentionsBytes)
    requires Respond(shape.Asks(), doc).CMap?
    ensures OwnedResult(Forward(Vars(src, build), shape, doc)) == OwnedResult(Forward(Plain, shape, doc))
    decreases doc, shape.Size(), 1
  {
    if shape.TakesMap() {
      var rs1, rs2 := DecodeEntries(Vars(src, build), shape, doc), DecodeEntries(Plain, shape, doc);
      EntriesTransparent(src, build, mentions, mentionsBytes, shape, doc);
      CollectMap(rs1, rs2);
    }
  }

  lemma {:induction false} EnumTransparent(src: Source, build: Build, mentions: string -> bool,
                                           mentionsBytes: Serde.Bytes -> bool, shape: Shape, doc: Doc)
    requires Lawful(src, mentions, mentionsBytes) && Clean(doc, mentions) && Fits(build, shape, doc, mentionsBytes)
    requires Respond(shape.Asks(), doc).CEnum?
    ensures OwnedResult(Forward(Vars(src, build), shape, doc)) == OwnedResult(Forward(Plain, shape, doc))
    decreases doc, shape.Size(), 1
  {
    var cb := Respond(shape.Asks(), doc);
    if shape.EnumOf? {
      VariantTransparent(src, build, mentions, mentionsBytes, shape, doc, cb.tag, cb.payload);
    }
  }

  lemma {:induction false} VariantTransparent(src: Source, build: Build, mentions: string -> bool,
                                              mentionsBytes: Serde.Bytes -> bool,
                                              shape: Shape, doc: Doc, tag: Doc, payload: Option<Doc>)
    requires Lawful(src, mentions, mentionsBytes) && Clean(doc, mentions) && Fits(build, shape, doc, mentionsBytes)
    requires shape.EnumOf? && Respond(EnumReq, doc) == CEnum(tag, payload)
    ensures OwnedResult(DecodeVariant(Vars(src, build), shape, doc, tag, payload))
      == OwnedResult(DecodeVariant(Plain, shape, doc, tag, payload))
    decreases doc, shape.Size(), 0
  {
    DecodeTransparent(src, build, mentions, mentionsBytes, shape.tag, tag);
    if payload.Some? {
      if build == Intended {
        DecodeTransparent(src, build, mentions, mentionsBytes, shape.payload, payload.value);
      } else {
        assert PayloadLayer(Vars(src, build)) == PayloadLayer(Plain);
      }
    }
  }

  lemma {:induction false} ListTransparent(src: Source, build: Build, mentions: string -> bool,
                                           mentionsBytes: Serde.Bytes -> bool, shape: Shape, doc: Doc)
    requires Lawful(src, mentions, mentionsBytes) && Clean(doc, mentions) && doc.List?
    requires shape.Dynamic? || ElementsFit(build, shape, doc, mentionsBytes)
    ensures forall i :: 0 <= i < shape.Reach(|doc.items|) ==>
      OwnedResult(DecodeList(Vars(src, build), shape, doc)[i]) == OwnedResult(DecodeList(Plain, shape, doc)[i])
    decreases doc, 0, 0
  {
    forall i | 0 <= i < shape.Reach(|doc.items|)
      ensures OwnedResult(Decode(Vars(src, build), shape.ElemShape(i), doc.items[i]))
        == OwnedResult(Decode(Plain, shape.ElemShape(i), doc.items[i]))
    {
      DecodeTransparent(src, build, mentions, mentionsBytes, shape.ElemShape(i), doc.items[i]);
    }
  }

  lemma {:induction false} EntriesTransparent(src: Source, build: Build, mentions: string -> bool,
                                              mentionsBytes: Serde.Bytes -> bool, shape: Shape, doc: Doc)
    requires Lawful(src, mentions, mentionsBytes) && Clean(doc, mentions) && doc.Dict?
    requires shape.Dynamic? || ValuesFit(build, shape, doc, mentionsBytes)
    ensures forall i :: 0 <= i < |doc.entries| ==>
      Lift(DecodeEntries(Vars(src, build), shape, doc)[i], OwningPair)
        == Lift(DecodeEntries(Plain, shape, doc)[i], OwningPair)
    decreases doc, 0, 0
  {
    forall i | 0 <= i < |doc.entries|
      ensures OwnedResult(Decode(Vars(src, build), shape.ValueShape(doc.entries[i].key), doc.entries[i].value))
        == OwnedResult(Decode(Plain, shape.ValueShape(doc.entries[i].key), doc.entries[i].value))
    {
      DecodeTransparent(src, build, mentions, mentionsBytes, shape.ValueShape(doc.entries[i].key), doc.entries[i].value);
    }
  }
}
