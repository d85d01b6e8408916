# serde-vars, modelled in Dafny

serde-vars puts a proxy between a serde data format (JSON, YAML, …) and the caller's
`Deserialize` implementation. Each value the caller reads passes through the proxy. Text that
is a variable reference, `${NAME}` by default, is replaced by what a variable source gives for
it. Everything else reaches the caller as the format produced it.

This project models that proxy and the sources it uses:

- `serde.dfy` holds the serde vocabulary the crate works in. It has the primitive visitor
  callbacks (`Visit`), the `deserialize_*` requests (`Request`), `Unexpected`/`Expected`
  descriptions, the error kinds, and `Cow` ownership.
- `content.dfy` models `Content` (`src/content.rs`). It is the primitive value captured from the
  wrapped decoder, and it remembers whether text or bytes were borrowed from the input.
- `sources.dfy` models the `Source` trait and `Any` (`src/source/mod.rs`). A source is a
  record of expansion functions, one per trait method. `Lawful` states what the trait
  documents: text that refers to no variable comes back unchanged.
- `variables.dfy`, `integers.dfy` and `utf8.dfy` model `Variable` and `utils::parse`
  (`src/source/utils.rs`). The last two supply Rust's integer `FromStr` and UTF-8, which those
  functions rely on.
- `string_source.dfy` models `StringSource` over a map lookup (`src/source/string.rs`).
- `byte_buf.dfy` models `value::deserialize_byte_buf` (`src/value.rs`). Its `visit_seq` is an
  imperative method over a growable byte vector backed by an array.
- `resolver.dfy` models `ContentVarDeserializer` (`src/de.rs:625-965`). It answers one typed
  request from a captured `Content`.
- `proxy.dfy` models `Deserializer` and `Wrap` (`src/de.rs:59-622`).
  - `Decode` follows the route the proxy takes for each request: captured, string-first,
    byte-buffer-first, or forwarded with the visitor wrapped.
  - It re-enters the proxy at every nested position: option contents, newtypes, sequence
    and tuple elements, map values, struct fields, and enum variants.
  - A `Shape` gives each position what the caller asks for there. A sequence or map gives all
    its elements one shape; a tuple gives each position its own. A derived struct names its
    fields: read from a map it finds each value's shape by the key's field name, and read
    from a sequence it takes its fields by position.
  - `Plain` decoding is the decoder on its own. It is the reference the laws compare against.
- `decoder.dfy` stands for the wrapped format, which is outside this crate. A document's
  `Respond` says which callback the decoder makes for each request. A scalar may carry the text
  it was written as, which a YAML-like decoder hands over when a string is requested
  (`tests/de.rs:5-26`).
- `proxy_laws.dfy` states what the proxy promises, over all documents and shapes.
  - Without variable references, a shape whose every request is forwarded decodes through the
    proxy exactly as without it.
  - Map keys are never expanded.
  - Typed numbers pass untouched.
  - Text in a typed position is resolved at that type.
  - It also holds the two findings below.
- `transparency.dfy` extends the first law to typed shapes, such as a struct or a tuple of
  strings and numbers. Without variable references, the caller receives through the proxy what the decoder
  gives it on its own, except that text and bytes arrive owned. This holds when every typed
  request is answered with a value of its own kind.

The code departs in a few places from what its own comments describe. This model follows the
code:

- The enum variant tag goes through `expand_any`, because the tag is read through
  `deserialize_identifier` with a wrapped visitor. Map keys, which also name things, are
  deliberately not resolved (the comment at `src/de.rs:564`).
- The variant's payload is decoded outside the proxy (finding 2). `Wrap`'s doc comment
  (`src/de.rs:337-339`) says nested calls of an enum are forwarded through the proxy.
- `deserialize_unit` captures the value instead of forwarding, so it always fails (finding 1).
  The same doc comment says non-primitive requests are forwarded, as `deserialize_unit_struct`
  is (`src/de.rs:224-234`).
- `deserialize_str` and `deserialize_bytes` do not keep borrows: they go through `String` and
  `Vec<u8>`, as the TODO comments at `src/de.rs:172-174` and `src/de.rs:195-197` admit. For
  the same reason, a string request answered with a `char` or with bytes, and a byte request
  answered with text, deliver the converted value rather than the callback the decoder made.
- The comments in both `parse` functions (`src/source/utils.rs:56-59`,
  `src/source/string.rs:352-355`) list the order "f64, then u64". The code tries `u64`, then
  `i64`, then `f64`, and the model follows the code.

## Model

| member | source | states |
|---|---|---|
| Contents.Content.Unexpected | src/content.rs:28-50 | a captured value is described by its value alone: integers widened by signedness, text as a string and bytes as bytes, whoever owns them |
| Contents.Capture | src/content.rs:71-203 | a primitive callback is captured with exactly its value, and the capture is borrowed iff the callback lent the decoder's input; `unit` and 128-bit callbacks are refused as not a primitive |
| Contents.Replay | src/de.rs:658-680 | handing captured content on delivers the same value, through a borrowed callback exactly when the content was borrowed |
| Contents.CaptureReplay | src/content.rs:71-203 | capturing a replayed value gives back the same content |
| Contents.ReplayCapture | src/content.rs:162-202 | replaying a capture repeats the callback, except that a transient `visit_str`/`visit_bytes` comes back owned |
| Sources.Source.ExpandInt | src/source/mod.rs:21-59 | an integer expansion returns a value that fits the requested width |
| Sources.Any.Unexpected | src/source/mod.rs:120-138 | an `Any` is described by its value |
| Sources.Any.Visit | src/source/mod.rs:152-174 | the visitor receives the value, owned if the payload is owned and as a transient borrow otherwise, never as a borrow of the input |
| Sources.Any.VisitBorrowed | src/source/mod.rs:140-150 | a borrowed payload is handed over as a borrow of the input; anything else as `visit` would |
| Variables.Strip | src/source/utils.rs:12-19 | the prefix and suffix come off exactly when the input starts with the prefix and ends with the suffix and is long enough for both, and the input is prefix + result + suffix |
| Variables.Variable.ParseStr | src/source/utils.rs:12-14 | a name is found exactly when the text is framed by the prefix and suffix, and the text is that name formatted |
| Variables.Variable.ParseBytes | src/source/utils.rs:16-19 | a name is found exactly when the bytes are framed by the UTF-8 prefix and suffix, and the bytes are prefix, name and suffix |
| Variables.Variable.ParseFmt | src/source/utils.rs:12-40 | parsing a formatted reference gives the name back |
| Variables.Variable.ParseBytesEncoded | src/source/utils.rs:12-19 | a text reference, encoded as UTF-8, is a byte reference to the encoded name |
| Variables.Variable.ParseBytesDecoded | src/source/utils.rs:12-19 | conversely, a byte reference found in encoded text is the encoding of the text reference to the same name |
| Variables.DefaultVariable | src/source/utils.rs:43-50 | the default syntax writes a reference as `${name}` |
| Variables.ParseBool | src/source/utils.rs:53-55 | only `true` and `false` are booleans, with their own value |
| Variables.Parse | src/source/utils.rs:52-67 | a value is a boolean iff it is `true`/`false`; otherwise `u64` if it parses as one, then `i64`, then the `f64` the float syntax gives; it is text, unchanged, only when none of these parse; it is never bytes or an `f32` |
| Variables.ParseUnsigned | src/source/utils.rs:52-67 | a rendered integer that fits `u64` parses as that `u64` |
| Variables.ParseSigned | src/source/utils.rs:52-67 | a rendered negative integer that fits `i64` parses as that `i64` |
| Variables.ParseText | src/source/utils.rs:52-67 | text that begins like no number and is no boolean stays text |
| Integers.ParseInteger | src/source/string.rs:207-223 | `FromStr` for an integer type succeeds exactly when the text, after one optional sign (`-` only for signed types), is one or more digits whose signed value fits the type, and then returns that value |
| Integers.ParseRender | src/source/string.rs:207-223 | parsing the decimal rendering of any value of a width gives the value back |
| Utf8.DecodeEncode | src/value.rs:30-42 | the UTF-8 bytes of a text decode back to that text |
| Utf8.EncodeDecode | src/value.rs:30-42 | bytes that decode as UTF-8 are the encoding of what they decode to |
| Utf8.DecodeAfterEncoded | src/value.rs:30-42 | decoding bytes that start with an encoded text gives that text, then what the rest decodes to |
| Utf8.DecodeBeforeEncoded | src/value.rs:30-42 | bytes followed by an encoded text decode exactly when they decode on their own, and the whole decodes to their text followed by that text |
| Utf8.DecodeFramed | src/source/utils.rs:16-19 | bytes framed by two encodings inside an encoded text are the encoding of the text between them |
| Utf8.EncodeAppend | src/source/utils.rs:16-19 | UTF-8 encoding distributes over concatenation |
| StringSources.StripStr | src/source/string.rs:341-346 | a value wrapped in one pair of double quotes loses them and becomes owned; anything else is unchanged |
| StringSources.ParseValue | src/source/string.rs:348-364 | booleans and numbers parse as `utils::parse` does; text is unwrapped from its quotes |
| StringSources.ParseQuoted | src/source/string.rs:348-364 | a quoted value is text, the inside of the quotes, whatever it spells |
| StringSources.StringSource.ParseVar | src/source/string.rs:203-205 | a variable name is found only in text that is exactly one placeholder for it |
| StringSources.StringSource.ParseVarPlaceholder | src/source/string.rs:203-205 | a placeholder names its variable |
| StringSources.StringSource.Lookup | src/source/string.rs:26-30 | a name is found iff the map holds it, with the map's value |
| StringSources.StringSource.Parsed | src/source/string.rs:207-223 | text that is not a reference fails as "expected variable"; an unknown variable fails as missing; a value that does not convert fails as a mismatched string; otherwise the converted value |
| StringSources.StringSource.ExpandInt | src/source/string.rs:255-309 | a typed integer expansion returns a value that fits its width |
| StringSources.StringSource.ExpandStr | src/source/string.rs:230-246 | text that is not a reference comes back unchanged, ownership included; a reference to a missing variable fails as missing; a found variable gives its parsed value if that is text, and otherwise fails as a mismatched type naming what it parsed as; an expanded variable comes back owned |
| StringSources.StringSource.ExpandAny | src/source/string.rs:325-338 | text that is not a reference comes back as text unchanged; a found variable gives its value as `parse` reads it; a missing one fails as missing, and that is the only failure |
| StringSources.StringSource.ExpandStrIsExpandAny | src/source/string.rs:230-338 | the string expansion succeeds exactly when the self-describing one yields text, with that text, and fails with its error |
| StringSources.New | src/source/string.rs:116-122 | a new source uses `${name}` and the given lookup |
| StringSources.WithVariablePrefix | src/source/string.rs:139-142 | only the prefix changes |
| StringSources.WithVariableSuffix | src/source/string.rs:145-148 | only the suffix changes |
| StringSources.ExpandWord | src/source/string.rs:230-338 | a variable holding a plain word expands, as text and self-describingly, to that word, owned |
| StringSources.ExpandQuoted | src/source/string.rs:230-246 | a variable holding quoted text expands, as text and self-describingly, to the text inside the quotes |
| StringSources.ExpandRendered | src/source/string.rs:230-338 | a variable holding a rendered integer expands to it at every width that holds it, self-describingly to `u64` or `i64`, and as text is refused with that integer |
| StringSources.ExpandMissing | src/source/string.rs:169-223 | a reference to a variable the lookup lacks fails every expansion as missing, naming the reference |
| StringSources.AsSource | src/source/string.rs:226-339 | the string source seen through the `Source` interface, with the byte expansion supplied |
| StringSources.AsSourceExpands | src/source/string.rs:226-339 | each interface method is the string source's own expansion |
| StringSources.AsSourceLawful | src/source/mod.rs:71-98 | the string source keeps every documented promise of the trait, with "refers to a variable" meaning "is one placeholder" |
| ByteBufs.ByteVisitor | src/value.rs:9-43 | text gives its UTF-8 bytes, bytes are taken as they are, a `char` gives its UTF-8 encoding, and every other callback is refused as not a byte array |
| ByteBufs.InitialCapacity | src/value.rs:48 | the first allocation is the size hint when it is at most 4096, 4096 for a larger hint, and 0 without a hint |
| ByteBufs.CollectAllBytes | src/value.rs:51-55 | when every element converts, the buffer holds exactly the elements in arrival order |
| ByteBufs.CollectFirstError | src/value.rs:51-53 | the first element that fails decides the error |
| ByteBufs.ByteVec.Push | src/value.rs:52 | a push appends the byte; a full buffer moves to an allocation at least twice as large |
| ByteBufs.ElementCursor.NextElement | src/value.rs:51 | the next element is taken from the sequence, and the end is `None` |
| ByteBufs.VisitSeq | src/value.rs:44-56 | the elements are collected as `CollectBytes` says, into a buffer first allocated with the capped hint |
| Resolver.ResolveBool | src/de.rs:723-733 | a boolean is handed on, text is expanded as a boolean, and anything else is refused |
| Resolver.ResolveInteger | src/de.rs:658-680 | an integer of any width is handed on with its value; text is expanded at the requested width; anything else is refused |
| Resolver.ResolveFloat | src/de.rs:682-707 | integers and floats are handed on with their value; text is expanded at the requested float width; anything else is refused |
| Resolver.ResolveString | src/de.rs:816-835 | text is expanded with its ownership, and the result is handed over owned or borrowed as it comes back; anything else is refused |
| Resolver.ResolveChar | src/de.rs:805-814 | text takes the string path, a `char` is handed on, anything else is refused |
| Resolver.ResolveByteBuf | src/de.rs:837-857 | text takes the string path; bytes are expanded with their ownership and handed over as they come back; anything else is refused |
| Resolver.Resolve | src/de.rs:709-965 | `ignored_any` discards the value; a refusal of a value that is not text or bytes names the request's expectation |
| Resolver.RefusesNonPrimitive | src/de.rs:859-957 | structural requests, `any`, `unit` and identifiers are always refused |
| Resolver.NonTextIgnoresSource | src/de.rs:709-965 | only text, and bytes under a byte request, reach the source |
| Resolver.PassesThrough | src/de.rs:709-965 | with a source that leaves the value alone, a request of the captured kind hands on the captured value, ownership included |
| Proxy.RouteOf | src/de.rs:70-324 | booleans, numbers and `char` are captured; strings are read as a `String` and bytes as a `Vec<u8>` first; `unit` is captured as written; everything else is forwarded with the visitor wrapped |
| Proxy.WrapVisit | src/de.rs:346-500 | a wrapped visitor expands text with `expand_any` and delivers the expansion's value: owned exactly when the expansion is owned, as a borrow of the input only when the text was one and the expansion kept it, and as a transient borrow otherwise; every other callback is unchanged |
| Proxy.FieldIndex | src/de.rs:283-294 | the field a struct key names is the first field with that name, and no field matches an unknown name |
| Proxy.StringValue | src/de.rs:178-189 | a `String` is read from text as it is, from a `char`, or from bytes exactly when they are UTF-8; anything else is refused as not a string |
| Proxy.U8Visitor | src/value.rs:51 | a sequence element is a byte iff it is an integer between 0 and 255 |
| ProxyLaws.WrapVisitPassesThrough | src/de.rs:346-500 | a callback without a variable reference passes the wrapped visitor unchanged, ownership included |
| ProxyLaws.RespondClean | src/de.rs:346-500 | a document with no reference yields callbacks with no reference |
| ProxyLaws.DecodePure | src/de.rs:59-622 | without variable references anywhere, a shape whose every request is forwarded with the visitor wrapped decodes through the proxy exactly as on the decoder alone, borrowed text included |
| ProxyLaws.ForwardPure | src/de.rs:501-551 | the same for every forwarded request and nested position of such a shape |
| ProxyLaws.ForwardPrimPure | src/de.rs:357-500 | a primitive callback from a document with no reference reaches the caller's visitor as it would without the proxy |
| ProxyLaws.VariantPure | src/de.rs:592-606 | the same for an enum variant's tag and payload, for such a shape |
| ProxyLaws.ListPure | src/de.rs:576-590 | the same for every element a sequence or tuple visitor reads, each at its own position's shape |
| ProxyLaws.EntriesPure | src/de.rs:553-574 | the same for every entry of a map, for such a shape |
| ProxyLaws.TupleInOrder | src/de.rs:576-590 | a tuple read from a sequence of its own length decodes each element through the proxy at its position's shape, and holds those values in order |
| ProxyLaws.FixedLengthChecked | src/de.rs:255-294 | a tuple or struct read from a sequence of another length than its number of positions fails with an invalid-length error naming the sequence's length, once the elements it reads decode |
| ProxyLaws.KeysVerbatim | src/de.rs:553-574 | a decoded map or struct has one pair per entry: each key as the decoder alone gives it, at the map's key shape or as a field identifier, and each value decoded through the proxy at the shape its key selects |
| ProxyLaws.StructInOrder | src/de.rs:553-574 | a struct whose entries name its fields in order, each value decoding at its field's shape, decodes to those fields' names paired with their values |
| ProxyLaws.KeyKeptValueExpanded | src/de.rs:560-573 | in a one-entry map of two strings, the key is kept as written and the value is what `expand_any` makes of it |
| ProxyLaws.TypedLeafUnchanged | src/de.rs:84-160 | a typed boolean, number or `char` request on a value of its kind gets the value unchanged, with or without the proxy |
| ProxyLaws.AcceptedReplays | src/de.rs:658-814 | a captured boolean, number or `char` under a request that accepts it is handed back as the decoder delivered it |
| ProxyLaws.IntegerLeafExpands | src/de.rs:91-145 | text in an integer position is expanded at the requested width, or the expansion's error is returned |
| ProxyLaws.BoolLeafExpands | src/de.rs:84-89 | text in a boolean position is expanded as a boolean |
| ProxyLaws.TextLeafExpands | src/de.rs:168-189 | text in a string position is expanded as a string, and delivered owned or borrowed as the expansion comes back, or the expansion's error is returned |
| ProxyLaws.RedisHost | src/de.rs:13-58 | with `REDIS_HOST` set to `127.0.0.1`, the text `${REDIS_HOST}` read as a string gives `127.0.0.1`, owned |
| ProxyLaws.RedisPort | src/de.rs:13-58 | with `REDIS_PORT` set to `9977`, the text `${REDIS_PORT}` read as a `u16` gives 9977 |
| ProxyLaws.RedisTimeout | src/de.rs:13-58 | the number 5 read as a `u32` is handed on unchanged |
| ProxyLaws.RedisExample | src/de.rs:13-58 | the crate's example configuration, a struct of host, port and timeout whose first two are references, decodes to `127.0.0.1`, 9977 and 5 |
| ProxyLaws.TextLeafComesOwned | src/de.rs:168-189 | a string request gets the text the decoder gives for a string, even for a scalar that would decode as a number; through the proxy it comes back owned |
| ProxyLaws.ByteBufFromSequence | src/de.rs:191-208 | a byte request on a sequence of `u8` elements collects them into an owned buffer, which is then expanded |
| Transparency.LeafTransparent | src/de.rs:84-208 | a typed request answered with a value of its own kind gets, through the proxy, the decoder's value handed over owned, and on its own the decoder's callback |
| Transparency.DecodeTransparent | src/de.rs:59-622 | without variable references anywhere, every shape whose typed requests are answered with values of their own kind decodes through the proxy as on the decoder alone, up to the ownership of text and bytes |
| Transparency.ForwardTransparent | src/de.rs:346-551 | the same for every forwarded request |
| Transparency.OptionTransparent | src/de.rs:501-514 | the same for an option, `None` or its contents |
| Transparency.NewtypeTransparent | src/de.rs:523-529 | the same for a newtype's contents |
| Transparency.SeqTransparent | src/de.rs:531-536 | the same for a sequence, tuple or struct read from a sequence, which fails with the first element's error, fails on a wrong length, or holds every element read |
| Transparency.MapTransparent | src/de.rs:538-543 | the same for a map or a struct read from a map, entry by entry |
| Transparency.EnumTransparent | src/de.rs:545-550 | the same for an enum |
| Transparency.VariantTransparent | src/de.rs:592-606 | the same for an enum variant's tag and payload |
| Transparency.ListTransparent | src/de.rs:576-590 | the same for every element a sequence, tuple or struct visitor reads, each at its own position's shape |
| Transparency.EntriesTransparent | src/de.rs:553-574 | the same for every entry of a map or struct, each value at the shape its key selects |
| Transparency.CollectLift | src/de.rs:531-543 | collecting results that agree up to a normalisation fails with the same first error, or succeeds with values that agree element by element |
| ProxyLaws.UnitAsWrittenFails | src/de.rs:217-222 | as written, a unit request through the proxy fails on every document |
| ProxyLaws.UnitCounterexample | src/de.rs:217-222 | `null` decodes as unit on its own but is refused through the proxy |
| ProxyLaws.UnitForwarded | src/de.rs:210-234 | with `unit` forwarded like `unit_struct`, a unit request through the proxy decodes as on its own |
| ProxyLaws.PayloadOutsideProxy | src/de.rs:592-606 | as written, a variant's tag is decoded through the proxy and its payload by the decoder alone |
| ProxyLaws.PayloadThroughProxy | src/de.rs:592-606 | corrected, a variant's payload is decoded through the proxy like every other nested position |
| ProxyLaws.PayloadCounterexample | src/de.rs:592-606 | a newtype variant whose payload is a reference keeps the reference as written, where the corrected proxy substitutes it |
| ProxyLaws.PayloadSubstituted | src/de.rs:592-606 | with `X` set to `v`, a newtype variant whose string payload is `${X}` receives `${X}` as written and `v` when corrected |

## Left out

- Floating point: `f32`/`f64` values are opaque bit patterns. Rust's float `FromStr` is a parameter (`FloatSyntax`), constrained only by the characters an accepted text can start with.
- Error messages: errors keep their kind, the unexpected value and the expectation. The wording is not modelled, including the `(i8)` in the messages for the unsigned widths.
- Sources.Any.Unexpected: an `f32` is described as a single-precision value, where the source widens it to `f64`. Floats are opaque here, so the widening cannot be stated.
- Contents.Content.Unexpected: an `f32` is described as a single-precision value, where the source widens it to `f64`, for the same reason.
- The `&mut` state of a source, and lifetimes: a source is a set of pure functions. Borrowing is tracked only as the `Cow`/borrowed-callback distinction.
- `EnvLookup`: it reads the process environment. The map lookup stands for any `StringLookup`.
- `FileSource` and the crate root's convenience functions are not part of this model.
- `StringSource` defines no byte expansion, so `AsSource` takes one as a parameter.
- The wrapped format: serde_json and serde_yaml are not part of this model. `Decoders.Respond` stands for them, with fixed rules for options, newtypes and enums.
- The caller's `Deserialize` implementations: a `Shape` says what is requested at each position, and a visitor only records the callback it receives. Other visitor behaviours beyond serde's `String`, `u8` and `Option` defaults are not modelled.
- The 128-bit requests: the proxy leaves them to serde's defaults, so they are outside the `Request` type. The 128-bit callbacks are modelled (captured as refused; accepted by the `u8` visitor when in range).
- Tuple structs and unit structs have no shapes of their own. A tuple struct is read as a tuple is; a unit struct is a `Leaf` request, forwarded like `unit_struct`.
- Struct field identifiers: a key names a field only as text. Field identifiers given as an index or as bytes are read as unknown keys, whose values are skipped.
- Struct field errors: duplicate and missing fields are not reported. Both depend only on the keys, which the decoder alone decodes, so the proxy cannot change them.
- Length errors: a tuple or struct read from a sequence of the wrong length fails with `InvalidLength`, after its elements are decoded. Which element count serde reports is not modelled.
- ProxyLaws.DecodePure: exact equality, borrows included, is stated only for shapes whose every request is forwarded. Typed shapes are covered by `Transparency.DecodeTransparent`, up to ownership, because the proxy hands typed text and bytes over owned.
- ProxyLaws.ForwardPure: limited to forwarded shapes, as for `ProxyLaws.DecodePure`. `Transparency.ForwardTransparent` covers typed shapes.
- ProxyLaws.VariantPure: limited to forwarded shapes, as for `ProxyLaws.DecodePure`. `Transparency.VariantTransparent` covers typed shapes.
- ProxyLaws.ListPure: limited to forwarded shapes, as for `ProxyLaws.DecodePure`. `Transparency.ListTransparent` covers typed shapes.
- ProxyLaws.EntriesPure: limited to forwarded shapes, as for `ProxyLaws.DecodePure`. `Transparency.EntriesTransparent` covers typed shapes.
- Transparency.DecodeTransparent: a typed request answered with a value of another kind is not covered. Examples are a string request on a `char` or bytes, and a byte request on text, where the proxy delivers a converted value.
- ProxyLaws.RedisExample: only the inner `Redis` struct is decoded, and the environment is a map lookup. The host is delivered as text, because `Ipv4Addr`'s parsing of it is not modelled. The timeout is delivered as the `u64` callback, because the caller's conversion to `u32` is not modelled.
- ByteBufs.ByteVec.Push: the growth rule is stated as a lower bound (at least doubled, at least 8 bytes), not `RawVec`'s exact choice.

## Findings

| source | as written | input that shows it | evidently intended | confidence | as-written member | corrected member |
|---|---|---|---|---|---|---|
| src/de.rs:217-222 | `deserialize_unit` captures the value with the content visitor and asks it for unit, which it always refuses | `()` read from `null`: it is unit on its own, but through the proxy it is refused as "invalid type: unit value, expected any primitive value" | forward `unit` with the visitor wrapped, as `unit_struct` is, so that a unit reads as it does without the proxy | high, not executed | ProxyLaws.UnitCounterexample | ProxyLaws.UnitForwarded |
| src/de.rs:592-606 | `variant_seed` wraps only the tag's seed, and returns the decoder's own `Variant`, so the payload is decoded outside the proxy | `{"A": "${X}"}` into a newtype variant `A(String)`: the payload stays the text `${X}` | the payload is resolved like every other nested position, as `Wrap`'s doc comment at `src/de.rs:337-339` says nested enum calls are forwarded | medium, not executed | ProxyLaws.PayloadCounterexample | ProxyLaws.PayloadThroughProxy |
