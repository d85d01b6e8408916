/** `StringSource`: a source that looks variables up in a string map and converts their
    values with `FromStr`. */
module StringSources {
  import opened Serde
  import opened Integers
  import opened Sources
  import opened Variables

  /** `strip_str`: a value wrapped in one pair of double quotes is forced to be text and loses
      the quotes; anything else is left as it is. */
  function StripStr(s: Cow<string>): (r: Cow<string>)
    ensures IsQuoted(s.v) ==> r.Owned? && s.v == ['"'] + r.v + ['"']
    ensures !IsQuoted(s.v) ==> r == s
  {
    if IsQuoted(s.v) then Owned(s.v[1..|s.v| - 1]) else s
  }

  predicate IsQuoted(s: string) {
    |s| >= 2 && s[0] == '"' && s[|s| - 1] == '"'
  }

  /** `string::parse`: `utils::parse` with quoted text unwrapped. */
  function ParseValue(s: Cow<string>, floats: FloatSyntax): (r: Any)
    ensures r.Valid() && !r.Bytes?
    ensures !r.Str? ==> r == Variables.Parse(s, floats)
    ensures r.Str? ==> Variables.Parse(s, floats) == Str(s) && r.text == StripStr(s)
  {
    match Variables.Parse(s, floats)
    case Str(t) => Str(StripStr(t))
    case other => other
  }

  /** A quoted value is always text, whatever it spells inside the quotes. */
  lemma ParseQuoted(x: string, s: Cow<string>, floats: FloatSyntax)
    requires floats.Plausible() && s.v == ['"'] + x + ['"']
    ensures ParseValue(s, floats) == Str(Owned(x))
  {
    assert s.v[0] == '"' && !FloatStart(s.v[0]);
    assert ParseBool(s.v).None? by {
      assert s.v[0] != "true"[0] && s.v[0] != "false"[0];
    }
    ParseText(s, floats);
    assert s.v[1..|s.v| - 1] == x;
  }

  /** `StringSource`: the variable syntax and a map standing for the `StringLookup`. */
  datatype StringSource = StringSource(prefix: string, suffix: string, lookup: map<string, string>) {
    function Syntax(): Variable { Variable(prefix, suffix) }

    /** `parse_var`. */
    function ParseVar(v: string): (r: Option<string>)
      ensures r.Some? ==> v == Placeholder(r.value)
    {
      Syntax().ParseStr(v)
    }

    /** A placeholder names its variable. */
    lemma ParseVarPlaceholder(name: string)
      ensures ParseVar(Placeholder(name)) == Some(name)
    {
      Syntax().ParseFmt(name);
    }

    /** `StringLookup::lookup` on a map: the value is cloned out, absence is `None`. */
    function Lookup(name: string): (r: Option<string>)
      ensures r.Some? <==> name in lookup
      ensures r.Some? ==> r.value == lookup[name]
    {
      if name in lookup then Some(lookup[name]) else None
    }

    /** The reference as written, which the error messages quote. */
    function Placeholder(name: string): string {
      Syntax().Fmt(name)
    }

    /** `parsed`: a typed expansion.  The text must be a reference, the variable must exist
        and its value must convert; each failure has its own error. */
    function Parsed<T>(v: string, expected: Expected, convert: string -> Option<T>): (r: Result<T>)
      ensures ParseVar(v).None? ==> r == Err(ExpectedVariable(v, expected))
      ensures ParseVar(v).Some? && Lookup(ParseVar(v).value).None? ==>
        r == Err(MissingVariable(v))
      ensures ParseVar(v).Some? && Lookup(ParseVar(v).value).Some? ==>
        var value := Lookup(ParseVar(v).value).value;
        match convert(value)
        case Some(x) => r == Ok(x)
        case None => r == Err(MismatchedType(v, UStr(value), expected))
    {
      match ParseVar(v)
      case None => Err(ExpectedVariable(v, expected))
      case Some(name) =>
        match Lookup(name)
        case None => Err(MissingVariable(Placeholder(name)))
        case Some(value) =>
          match convert(value)
          case Some(x) => Ok(x)
          case None => Err(MismatchedType(Placeholder(name), UStr(value), expected))
    }

    /** `expand_bool`. */
    function ExpandBool(v: string): Result<bool> {
      Parsed(v, ExpectBool, ParseBool)
    }

    /** `expand_i8` … `expand_u64`. */
    function ExpandInt(k: IntKind, v: string): (r: Result<int>)
      ensures r.Ok? ==> k.Holds(r.value)
    {
      Parsed(v, ExpectInt(k), s => ParseInteger(k, s))
    }

    function ExpandI8(): string -> Result<i8> { v => ExpandInt(I8, v) }
    function ExpandI16(): string -> Result<i16> { v => ExpandInt(I16, v) }
    function ExpandI32(): string -> Result<i32> { v => ExpandInt(I32, v) }
    function ExpandI64(): string -> Result<i64> { v => ExpandInt(I64, v) }
    function ExpandU8(): string -> Result<u8> { v => ExpandInt(U8, v) }
    function ExpandU16(): string -> Result<u16> { v => ExpandInt(U16, v) }
    function ExpandU32(): string -> Result<u32> { v => ExpandInt(U32, v) }
    function ExpandU64(): string -> Result<u64> { v => ExpandInt(U64, v) }

    /** `expand_f32`. */
    function ExpandF32(v: string, floats: FloatSyntax): Result<Serde.F32> {
      Parsed(v, ExpectFloat(F32Kind), floats.f32)
    }

    /** `expand_f64`. */
    function ExpandF64(v: string, floats: FloatSyntax): Result<Serde.F64> {
      Parsed(v, ExpectFloat(F64Kind), floats.f64)
    }

    /** `expand_str`: text that is not a reference is returned as it is; a variable's value
        must parse as text, or the expansion fails with what it parsed as. */
    function ExpandStr(v: Cow<string>, floats: FloatSyntax): (r: Result<Cow<string>>)
      ensures ParseVar(v.v).None? ==> r == Ok(v)
      ensures ParseVar(v.v).Some? && Lookup(ParseVar(v.v).value).None? ==> r == Err(MissingVariable(v.v))
      ensures ParseVar(v.v).Some? && Lookup(ParseVar(v.v).value).Some? ==>
        var parsed := ParseValue(Owned(Lookup(ParseVar(v.v).value).value), floats);
        r == if parsed.Str? then Ok(parsed.text) else Err(MismatchedType(v.v, parsed.Unexpected(), ExpectString))
      ensures r.Ok? && ParseVar(v.v).Some? ==> r.value.Owned?
    {
      match ParseVar(v.v)
      case None => Ok(v)
      case Some(name) =>
        match Lookup(name)
        case None => Err(MissingVariable(Placeholder(name)))
        case Some(value) =>
          var parsed := ParseValue(Owned(value), floats);
          if parsed.Str? then Ok(parsed.text)
          else Err(MismatchedType(Placeholder(name), parsed.Unexpected(), ExpectString))
    }

    /** `expand_any`: text that is not a reference is text; a variable's value is parsed. */
    function ExpandAny(v: Cow<string>, floats: FloatSyntax): (r: Result<Any>)
      ensures ParseVar(v.v).None? ==> r == Ok(Str(v))
      ensures ParseVar(v.v).Some? && Lookup(ParseVar(v.v).value).None? ==> r == Err(MissingVariable(v.v))
      ensures ParseVar(v.v).Some? && Lookup(ParseVar(v.v).value).Some? ==>
        r == Ok(ParseValue(Owned(Lookup(ParseVar(v.v).value).value), floats))
      ensures r.Ok? ==> r.value.Valid() && !r.value.Bytes?
      ensures r.Err? ==> r.error.MissingVariable?
    {
      match ParseVar(v.v)
      case None => Ok(Str(v))
      case Some(name) =>
        match Lookup(name)
        case None => Err(MissingVariable(Placeholder(name)))
        case Some(value) => Ok(ParseValue(Owned(value), floats))
    }

    function ExpandAnyFn(floats: FloatSyntax): Cow<string> -> Result<ValidAny> {
      t => ExpandAny(t, floats)
    }

    /** The string expansion is the self-describing one restricted to text. */
    lemma ExpandStrIsExpandAny(v: Cow<string>, floats: FloatSyntax)
      ensures ExpandAny(v, floats).Ok? && ExpandAny(v, floats).value.Str? <==> ExpandStr(v, floats).Ok?
      ensures ExpandStr(v, floats).Ok? ==> ExpandAny(v, floats) == Ok(Str(ExpandStr(v, floats).value))
      ensures ExpandAny(v, floats).Err? ==> ExpandStr(v, floats) == Err(ExpandAny(v, floats).error)
    {
    }
  }

  /** `StringSource::new`: references are written `${name}`. */
  function New(lookup: map<string, string>): (ss: StringSource)
    ensures ss.Syntax() == DefaultVariable() && ss.lookup == lookup
  {
    StringSource("${", "}", lookup)
  }

  /** `with_variable_prefix`: only the prefix changes. */
  function WithVariablePrefix(ss: StringSource, prefix: string): (r: StringSource)
    ensures r.Syntax() == Variable(prefix, ss.suffix) && r.lookup == ss.lookup
  {
    ss.(prefix := prefix)
  }

  /** `with_variable_suffix`: only the suffix changes. */
  function WithVariableSuffix(ss: StringSource, suffix: string): (r: StringSource)
    ensures r.Syntax() == Variable(ss.prefix, suffix) && r.lookup == ss.lookup
  {
    ss.(suffix := suffix)
  }

  /** A variable whose value is quoted text expands to the text inside the quotes. */
  lemma ExpandQuoted(ss: StringSource, name: string, x: string, v: Cow<string>, floats: FloatSyntax)
    requires floats.Plausible() && v.v == ss.Placeholder(name)
    requires name in ss.lookup && ss.lookup[name] == ['"'] + x + ['"']
    ensures ss.ExpandStr(v, floats) == Ok(Owned(x))
    ensures ss.ExpandAny(v, floats) == Ok(Str(Owned(x)))
  {
    ss.ParseVarPlaceholder(name);
    ParseQuoted(x, Owned(ss.lookup[name]), floats);
  }

  /** A variable whose value is a plain word (not quoted, not a boolean and not the start
      of a number) expands to that word, owned, both as text and self-describingly. */
  lemma ExpandWord(ss: StringSource, name: string, x: string, v: Cow<string>, floats: FloatSyntax)
    requires floats.Plausible() && v.v == ss.Placeholder(name)
    requires name in ss.lookup && ss.lookup[name] == x
    requires |x| > 0 && x[0] != '"' && !FloatStart(x[0]) && x != "true" && x != "false"
    ensures ss.ExpandStr(v, floats) == Ok(Owned(x))
    ensures ss.ExpandAny(v, floats) == Ok(Str(Owned(x)))
  {
    ss.ParseVarPlaceholder(name);
    ParseText(Owned(x), floats);
  }

  /** A variable whose value is a rendered integer expands to that integer at every width
      that holds it, and self-describingly to `u64` or `i64`; as text it is refused with
      the integer it spells. */
  lemma ExpandRendered(ss: StringSource, name: string, n: int, k: IntKind, v: Cow<string>, floats: FloatSyntax)
    requires v.v == ss.Placeholder(name) && name in ss.lookup && ss.lookup[name] == Render(n)
    requires k.Holds(n) && IntKind.I64.Min() <= n < IntKind.U64.Bound()
    ensures ss.ExpandInt(k, v.v) == Ok(n)
    ensures ss.ExpandAny(v, floats) == Ok(if n < 0 then Int(I64, n) else Int(U64, n))
    ensures ss.ExpandStr(v, floats)
      == Err(MismatchedType(v.v, if n < 0 then Signed(n) else Unsigned(n), ExpectString))
  {
    ss.ParseVarPlaceholder(name);
    ParseRender(k, n);
    if n < 0 {
      ParseSigned(n, Owned(Render(n)), floats);
    } else {
      ParseUnsigned(n, Owned(Render(n)), floats);
    }
  }

  /** A reference to a variable the lookup lacks fails every expansion with the reference as
      written. */
  lemma ExpandMissing(ss: StringSource, name: string, k: IntKind, v: Cow<string>, floats: FloatSyntax)
    requires v.v == ss.Placeholder(name) && name !in ss.lookup
    ensures ss.ExpandStr(v, floats) == Err(MissingVariable(v.v))
    ensures ss.ExpandAny(v, floats) == Err(MissingVariable(v.v))
    ensures ss.ExpandInt(k, v.v) == Err(MissingVariable(v.v))
    ensures ss.ExpandBool(v.v) == Err(MissingVariable(v.v))
  {
    ss.ParseVarPlaceholder(name);
  }

  /** The source as the interposition layer sees it.  `StringSource` defines no byte
      expansion, so one is supplied. */
  function AsSource(ss: StringSource, floats: FloatSyntax, expandBytes: Cow<Serde.Bytes> -> Result<Cow<Serde.Bytes>>): (src: Source)
    ensures src.expandBytes == expandBytes
  {
    Source(
      v => ss.ExpandBool(v),
      ss.ExpandI8(), ss.ExpandI16(), ss.ExpandI32(), ss.ExpandI64(),
      ss.ExpandU8(), ss.ExpandU16(), ss.ExpandU32(), ss.ExpandU64(),
      v => ss.ExpandF32(v, floats),
      v => ss.ExpandF64(v, floats),
      t => ss.ExpandStr(t, floats),
      expandBytes,
      ss.ExpandAnyFn(floats))
  }

  /** Each method of the source is the string source's own expansion. */
  lemma AsSourceExpands(ss: StringSource, floats: FloatSyntax, expandBytes: Cow<Serde.Bytes> -> Result<Cow<Serde.Bytes>>,
                        k: IntKind, v: string, t: Cow<string>)
    ensures var src := AsSource(ss, floats, expandBytes);
      && src.expandBool(v) == ss.ExpandBool(v)
      && src.ExpandInt(k, v) == ss.ExpandInt(k, v)
      && src.expandF32(v) == ss.ExpandF32(v, floats)
      && src.expandF64(v) == ss.ExpandF64(v, floats)
      && src.expandStr(t) == ss.ExpandStr(t, floats)
      && src.expandAny(t) == ss.ExpandAny(t, floats)
  {
  }

  /** `StringSource` keeps every promise of the `Source` trait, with "refers to a variable"
      meaning "is exactly one placeholder". */
  lemma AsSourceLawful(ss: StringSource, floats: FloatSyntax,
                       expandBytes: Cow<Serde.Bytes> -> Result<Cow<Serde.Bytes>>, mentionsBytes: Serde.Bytes -> bool)
    requires forall b: Cow<Serde.Bytes> :: !mentionsBytes(b.v) ==> expandBytes(b) == Ok(b)
    ensures Lawful(AsSource(ss, floats, expandBytes), v => ss.ParseVar(v).Some?, mentionsBytes)
  {
    var src := AsSource(ss, floats, expandBytes);
    forall t | src.expandAny(t).Ok? && src.expandAny(t).value.Str?
      ensures src.expandStr(t) == Ok(src.expandAny(t).value.text)
    {
      ss.ExpandStrIsExpandAny(t, floats);
    }
  }
}
