/** `value::deserialize_byte_buf`: how the interposition layer reads a byte buffer from the
    decoder it wraps.  Text and byte callbacks become bytes directly; a sequence is collected
    element by element into a growable buffer whose first allocation is capped. */
module ByteBufs {
  import opened Serde
  import opened Utf8

  /** The byte-array visitor's primitive callbacks, with serde's defaults for the ones it
      does not define: a borrowed callback falls back to its transient form, a `char` is
      visited as its UTF-8 text, and everything else is refused as not a byte array. */
  function ByteVisitor(v: Visit): (r: Result<Bytes>)
    ensures r.Ok? <==> v.IsText() || v.IsByteSeq() || v.VisitChar?
    ensures v.IsText() ==> r.Ok? && Decode(r.value) == Some(v.s)
    ensures v.IsByteSeq() ==> r == Ok(v.bs)
    ensures v.VisitChar? ==> r.Ok? && Decode(r.value) == Some([v.c])
    ensures r.Err? ==> r.error.InvalidType? && r.error.expected == ExpectByteArray
  {
    match v
    case VisitStr(s) => DecodeEncode(s); Ok(Encode(s))
    case VisitBorrowedStr(s) => DecodeEncode(s); Ok(Encode(s))
    case VisitString(s) => DecodeEncode(s); Ok(Encode(s))
    case VisitBytes(bs) => Ok(bs)
    case VisitBorrowedBytes(bs) => Ok(bs)
    case VisitByteBuf(bs) => Ok(bs)
    case VisitChar(c) => DecodeEncode([c]); Ok(Encode([c]))
    case VisitUnit => Err(InvalidType(UUnit, ExpectByteArray))
    case VisitI128(_) => Err(InvalidType(UOther, ExpectByteArray))
    case VisitU128(_) => Err(InvalidType(UOther, ExpectByteArray))
    case _ => Err(InvalidType(Describe(ValueOf(v).value), ExpectByteArray))
  }

  /** `min(size_hint.unwrap_or(0), 4096)`. */
  function InitialCapacity(hint: Option<nat>): (n: nat)
    ensures n <= 4096
    ensures hint.Some? && hint.value <= 4096 ==> n == hint.value
    ensures hint.Some? && hint.value > 4096 ==> n == 4096
    ensures hint.None? ==> n == 0
  {
    match hint
    case None => 0
    case Some(h) => if h < 4096 then h else 4096
  }

  /** What `visit_seq` produces from the elements the sequence yields, in order: every byte
      if each element converted, otherwise the first element's error. */
  function CollectBytes(items: seq<Result<u8>>): Result<Bytes> {
    if items == [] then Ok([])
    else match items[0]
      case Err(e) => Err(e)
      case Ok(b) => Prepend([b], CollectBytes(items[1..]))
  }

  function Prepend(prefix: Bytes, r: Result<Bytes>): Result<Bytes> {
    match r
    case Ok(rest) => Ok(prefix + rest)
    case Err(e) => Err(e)
  }

  /** When every element converts, the buffer holds exactly the elements, in arrival order. */
  lemma {:induction false} CollectAllBytes(items: seq<Result<u8>>)
    requires forall i :: 0 <= i < |items| ==> items[i].Ok?
    ensures CollectBytes(items).Ok?
    ensures |CollectBytes(items).value| == |items|
    ensures forall i :: 0 <= i < |items| ==> CollectBytes(items).value[i] == items[i].value
  {
    if items != [] {
      CollectAllBytes(items[1..]);
    }
  }

  /** The first element that fails decides the error, and nothing is produced. */
  lemma {:induction false} CollectFirstError(items: seq<Result<u8>>, j: nat)
    requires j < |items| && items[j].Err?
    requires forall i :: 0 <= i < j ==> items[i].Ok?
    ensures CollectBytes(items) == Err(items[j].error)
  {
    if j > 0 {
      CollectFirstError(items[1..], j - 1);
    }
  }

  lemma PrependNothing(r: Result<Bytes>)
    ensures Prepend([], r) == r
  {
    if r.Ok? {
      assert [] + r.value == r.value;
    }
  }

  lemma PrependAppend(a: Bytes, b: Bytes, r: Result<Bytes>)
    ensures Prepend(a, Prepend(b, r)) == Prepend(a + b, r)
  {
    if r.Ok? {
      assert a + (b + r.value) == (a + b) + r.value;
    }
  }

  /** `Vec<u8>`: a buffer of `len` bytes in an allocation that grows as `RawVec` grows it. */
  class ByteVec {
    var data: array<u8>
    var len: nat

    ghost predicate Valid()
      reads this
    {
      len <= data.Length
    }

    function Contents(): Bytes
      reads this, data
      requires Valid()
    {
      data[..len]
    }

    function Capacity(): nat
      reads this
    {
      data.Length
    }

    /** `Vec::with_capacity`. */
    constructor WithCapacity(capacity: nat)
      ensures Valid() && fresh(data)
      ensures Contents() == [] && Capacity() == capacity
    {
      data := new u8[capacity];
      len := 0;
    }

    /** `Vec::push`: a full buffer first moves to an allocation at least twice as large and
        at least 8 bytes. */
    method Push(b: u8)
      requires Valid()
      modifies this, data
      ensures fresh(data) || data == old(data)
      ensures Valid()
      ensures Contents() == old(Contents()) + [b]
      ensures old(len) < old(Capacity()) ==> Capacity() == old(Capacity())
      ensures old(len) == old(Capacity()) ==> Capacity() == Grown(old(Capacity()), old(len) + 1)
    {
      if len == data.Length {
        var bigger := new u8[Grown(data.Length, len + 1)];
        forall i | 0 <= i < len {
          bigger[i] := data[i];
        }
        data := bigger;
      }
      data[len] := b;
      len := len + 1;
    }
  }

  /** `RawVec::grow_amortized` for one-byte elements. */
  function Grown(capacity: nat, required: nat): (n: nat)
    ensures n >= required && n >= 2 * capacity && n >= 8
  {
    var doubled := if required < 2 * capacity then 2 * capacity else required;
    if doubled < 8 then 8 else doubled
  }

  /** A `SeqAccess` over byte elements: each element either converts to a `u8` or fails. */
  class ElementCursor {
    var items: seq<Result<u8>>
    var pos: nat
    const hint: Option<nat>

    constructor (items: seq<Result<u8>>, hint: Option<nat>)
      ensures this.items == items && pos == 0 && this.hint == hint
    {
      this.items := items;
      pos := 0;
      this.hint := hint;
    }

    function Remaining(): seq<Result<u8>>
      reads this
    {
      if pos <= |items| then items[pos..] else []
    }

    /** `SeqAccess::next_element::<u8>`: the next element, `None` at the end. */
    method NextElement() returns (r: Result<Option<u8>>)
      modifies this
      ensures items == old(items)
      ensures old(Remaining()) == [] ==> r == Ok(None) && Remaining() == []
      ensures old(Remaining()) != [] ==> Remaining() == old(Remaining())[1..]
      ensures old(Remaining()) != [] ==>
        r == match old(Remaining())[0] case Ok(b) => Ok(Some(b)) case Err(e) => Err(e)
    {
      if pos < |items| {
        r := match items[pos] case Ok(b) => Ok(Some(b)) case Err(e) => Err(e);
        assert items[pos + 1..] == items[pos..][1..];
        pos := pos + 1;
      } else {
        r := Ok(None);
      }
    }
  }

  /** `Visitor::visit_seq`: collect the elements into a buffer allocated with the capped
      capacity, stopping at the first element that fails. */
  method VisitSeq(cursor: ElementCursor) returns (r: Result<Bytes>, initialCapacity: nat)
    modifies cursor
    ensures r == CollectBytes(old(cursor.Remaining()))
    ensures initialCapacity == InitialCapacity(cursor.hint) && initialCapacity <= 4096
  {
    initialCapacity := InitialCapacity(cursor.hint);
    var bytes := new ByteVec.WithCapacity(initialCapacity);
    ghost var all := cursor.Remaining();
    PrependNothing(CollectBytes(all));
    while true
      invariant fresh(bytes) && fresh(bytes.data) && bytes.Valid()
      invariant CollectBytes(all) == Prepend(bytes.Contents(), CollectBytes(cursor.Remaining()))
      decreases |cursor.Remaining()|
    {
      ghost var before := cursor.Remaining();
      var next := cursor.NextElement();
      match next
      case Err(e) =>
        r := Err(e);
        return;
      case Ok(None) =>
        assert bytes.Contents() + [] == bytes.Contents();
        r := Ok(bytes.Contents());
        return;
      case Ok(Some(b)) =>
        PrependAppend(bytes.Contents(), [b], CollectBytes(cursor.Remaining()));
        assert before[1..] == cursor.Remaining();
        bytes.Push(b);
    }
  }
}
