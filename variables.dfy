/** `Variable`: the prefix/suffix syntax that marks a variable reference, and the
    self-describing parse of a variable's value that the sources share. */
module Variables {
  import opened Serde
  import opened Utf8
  import opened Integers
  import opened Sources

  /** `s.strip_prefix(prefix)?.strip_suffix(suffix)` on any sequence. */
  function Strip<T(==)>(prefix: seq<T>, suffix: seq<T>, v: seq<T>): (r: Option<seq<T>>)
    ensures r.Some? <==> |prefix| + |suffix| <= |v| && prefix <= v && v[|v| - |suffix|..] == suffix
    ensures r.Some? ==> v == prefix + r.value + suffix
  {
    if prefix <= v then
      var rest := v[|prefix|..];
      if |suffix| <= |rest| && rest[|rest| - |suffix|..] == suffix then
        assert v == prefix + rest[..|rest| - |suffix|] + suffix;
        Some(rest[..|rest| - |suffix|])
      else None
    else None
  }

  lemma StripFramed<T>(prefix: seq<T>, suffix: seq<T>, m: seq<T>)
    ensures Strip(prefix, suffix, prefix + m + suffix) == Some(m)
  {
    var v := prefix + m + suffix;
    assert v[|v| - |suffix|..] == suffix;
    var r := Strip(prefix, suffix, v);
    assert prefix + r.value + suffix == prefix + m + suffix;
    assert r.value == (prefix + r.value + suffix)[|prefix|..|prefix| + |r.value|];
  }

  datatype Variable = Variable(prefix: string, suffix: string) {
    /** `Variable::parse_str`: the name inside a reference, if `v` is exactly one. */
    function ParseStr(v: string): (r: Option<string>)
      ensures r.Some? <==> |prefix| + |suffix| <= |v| && prefix <= v && v[|v| - |suffix|..] == suffix
      ensures r.Some? ==> v == Fmt(r.value)
    {
      Strip(prefix, suffix, v)
    }

    /** `Variable::parse_bytes`: the same syntax, matched against UTF-8 bytes. */
    function ParseBytes(v: Bytes): (r: Option<Bytes>)
      ensures r.Some? <==>
        |Encode(prefix)| + |Encode(suffix)| <= |v| && Encode(prefix) <= v && v[|v| - |Encode(suffix)|..] == Encode(suffix)
      ensures r.Some? ==> v == Encode(prefix) + r.value + Encode(suffix)
    {
      Strip(Encode(prefix), Encode(suffix), v)
    }

    /** `Variable::fmt`: how a reference to `name` is written. */
    function Fmt(name: string): string {
      prefix + name + suffix
    }

    /** Parsing a formatted reference gives back the name. */
    lemma ParseFmt(name: string)
      ensures ParseStr(Fmt(name)) == Some(name)
    {
      StripFramed(prefix, suffix, name);
    }

    /** A text reference, encoded as UTF-8, is also a byte reference to the encoded name. */
    lemma ParseBytesEncoded(v: string)
      requires ParseStr(v).Some?
      ensures ParseBytes(Encode(v)) == Some(Encode(ParseStr(v).value))
    {
      var name := ParseStr(v).value;
      EncodeAppend(prefix + name, suffix);
      EncodeAppend(prefix, name);
      StripFramed(Encode(prefix), Encode(suffix), Encode(name));
    }

    /** Conversely, a byte reference found in encoded text is the encoding of a text
        reference. */
    lemma ParseBytesDecoded(v: string)
      requires ParseBytes(Encode(v)).Some?
      ensures ParseStr(v).Some? && ParseBytes(Encode(v)).value == Encode(ParseStr(v).value)
    {
      var m := ParseBytes(Encode(v)).value;
      DecodeFramed(prefix, m, suffix, v);
      var name := Decode(m).value;
      StripFramed(prefix, suffix, name);
    }
  }

  /** `Variable::default`: `${name}`. */
  function DefaultVariable(): (x: Variable)
    ensures forall name :: x.Fmt(name) == "${" + name + "}"
  {
    Variable("${", "}")
  }

  /** Rust's float `FromStr`, which the model does not define: a parameter.  `Plausible`
      states the one fact used about it: an accepted text starts with a sign, a digit, a
      point or the first letter of `inf`, `infinity` or `nan`. */
  datatype FloatSyntax = FloatSyntax(f32: string -> Option<Serde.F32>, f64: string -> Option<Serde.F64>) {
    ghost predicate Plausible() {
      && (forall s :: f32(s).Some? ==> |s| > 0 && FloatStart(s[0]))
      && (forall s :: f64(s).Some? ==> |s| > 0 && FloatStart(s[0]))
    }
  }

  predicate FloatStart(c: char) {
    c == '+' || c == '-' || c == '.' || IsDigit(c) || c == 'i' || c == 'I' || c == 'n' || c == 'N'
  }

  /** `bool::from_str`. */
  function ParseBool(s: string): (r: Option<bool>)
    ensures r.Some? <==> s == "true" || s == "false"
    ensures r.Some? ==> r.value == (s == "true")
  {
    if s == "true" then Some(true) else if s == "false" then Some(false) else None
  }

  /** `utils::parse`: a variable's value as the most specific primitive it spells, trying
      `true`/`false`, then `u64`, then `i64`, then `f64`, and otherwise the text itself. */
  function Parse(s: Cow<string>, floats: FloatSyntax): (r: Any)
    ensures r.Valid()
    ensures r.Bool? <==> ParseBool(s.v).Some?
    ensures r.Bool? ==> r.b == ParseBool(s.v).value
    ensures r.Int? ==> (r.kind == U64 || r.kind == I64) && ParseInteger(r.kind, s.v) == Some(r.n)
    ensures r.Int? && r.kind == I64 ==> ParseInteger(U64, s.v).None?
    ensures r.F64? ==>
      && ParseBool(s.v).None? && ParseInteger(U64, s.v).None? && ParseInteger(I64, s.v).None?
      && floats.f64(s.v) == Some(r.f64)
    ensures !r.Bytes? && !r.F32?
    ensures r.Str? ==>
      r.text == s && floats.f64(s.v).None? && ParseInteger(U64, s.v).None? && ParseInteger(I64, s.v).None?
  {
    if s.v == "true" then Bool(true)
    else if s.v == "false" then Bool(false)
    else match ParseInteger(U64, s.v)
      case Some(n) => Int(U64, n)
      case None =>
        match ParseInteger(I64, s.v)
        case Some(n) => Int(I64, n)
        case None =>
          match floats.f64(s.v)
          case Some(f) => Any.F64(f)
          case None => Str(s)
  }

  /** A rendered integer that fits `u64` parses as `u64`. */
  lemma ParseUnsigned(n: int, s: Cow<string>, floats: FloatSyntax)
    requires 0 <= n < 0x1_0000_0000_0000_0000 && s.v == Render(n)
    ensures Parse(s, floats) == Int(U64, n)
  {
    ParseRender(U64, n);
  }

  /** A rendered negative integer that fits `i64` parses as `i64`. */
  lemma ParseSigned(n: int, s: Cow<string>, floats: FloatSyntax)
    requires -0x8000_0000_0000_0000 <= n < 0 && s.v == Render(n)
    ensures Parse(s, floats) == Int(I64, n)
  {
    ParseRender(I64, n);
    NegativeIsNotUnsigned(U64, n);
  }

  /** Text that starts like no number and is not a boolean stays text. */
  lemma ParseText(s: Cow<string>, floats: FloatSyntax)
    requires floats.Plausible()
    requires |s.v| > 0 && !FloatStart(s.v[0]) && ParseBool(s.v).None?
    ensures Parse(s, floats) == Str(s)
  {
  }
}
