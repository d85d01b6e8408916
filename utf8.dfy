/** UTF-8, as Rust's `str::as_bytes` produces it and `str::from_utf8` accepts it: the
    shortest encoding of each scalar value, no surrogates, nothing above U+10FFFF. */
module Utf8 {
  import opened Serde

  predicate IsContinuation(b: u8) { 0x80 <= b < 0xC0 }

  /** The bytes of one character. */
  function EncodeChar(c: char): (bs: Bytes)
    ensures 1 <= |bs| <= 4
    ensures !IsContinuation(bs[0])
    ensures forall i :: 1 <= i < |bs| ==> IsContinuation(bs[i])
  {
    var n := c as int;
    if n < 0x80 then [n]
    else if n < 0x800 then [0xC0 + n / 64, 0x80 + n % 64]
    else if n < 0x1_0000 then [0xE0 + n / 4096, 0x80 + (n / 64) % 64, 0x80 + n % 64]
    else [0xF0 + n / 262144, 0x80 + (n / 4096) % 64, 0x80 + (n / 64) % 64, 0x80 + n % 64]
  }

  /** `str::as_bytes`. */
  function Encode(s: string): (bs: Bytes)
    ensures |s| <= |bs|
  {
    if s == [] then [] else EncodeChar(s[0]) + Encode(s[1..])
  }

  predicate IsScalar(n: int) { 0 <= n < 0xD800 || 0xE000 <= n < 0x11_0000 }

  /** The first character of `bs` and the number of bytes it takes, if `bs` starts with a
      well-formed encoding. */
  function DecodeChar(bs: Bytes): Option<(char, nat)>
  {
    if |bs| == 0 then None
    else
      var b0: int := bs[0];
      if b0 < 0x80 then Some((b0 as char, 1))
      else if 0xC2 <= b0 < 0xE0 then
        if 2 <= |bs| && IsContinuation(bs[1]) then
          var n: int := (b0 - 0xC0) * 64 + (bs[1] as int - 0x80);
          Some((n as char, 2))
        else None
      else if 0xE0 <= b0 < 0xF0 then
        if 3 <= |bs| && IsContinuation(bs[1]) && IsContinuation(bs[2]) then
          var n: int := (b0 - 0xE0) * 4096 + (bs[1] as int - 0x80) * 64 + (bs[2] as int - 0x80);
          if 0x800 <= n && IsScalar(n) then Some((n as char, 3)) else None
        else None
      else if 0xF0 <= b0 < 0xF5 then
        if 4 <= |bs| && IsContinuation(bs[1]) && IsContinuation(bs[2]) && IsContinuation(bs[3]) then
          var n: int := (b0 - 0xF0) * 262144 + (bs[1] as int - 0x80) * 4096
            + (bs[2] as int - 0x80) * 64 + (bs[3] as int - 0x80);
          if 0x1_0000 <= n < 0x11_0000 then Some((n as char, 4)) else None
        else None
      else None
  }

  /** `str::from_utf8`. */
  function Decode(bs: Bytes): Option<string>
    decreases |bs|
  {
    if bs == [] then Some([])
    else match DecodeChar(bs)
      case None => None
      case Some((c, n)) =>
        if 0 < n <= |bs| then
          match Decode(bs[n..])
          case None => None
          case Some(rest) => Some([c] + rest)
        else None
  }

  lemma DecodeEncodeChar(c: char, rest: Bytes)
    ensures DecodeChar(EncodeChar(c) + rest) == Some((c, |EncodeChar(c)|))
  {
    var n := c as int;
    var bs := EncodeChar(c) + rest;
    if n < 0x80 {
    } else if n < 0x800 {
      Split2(n);
      assert bs[0] == 0xC0 + n / 64 && bs[1] == 0x80 + n % 64;
    } else if n < 0x1_0000 {
      Split3(n);
      assert bs[0] == 0xE0 + n / 4096 && bs[1] == 0x80 + (n / 64) % 64 && bs[2] == 0x80 + n % 64;
    } else {
      Split4(n);
      assert bs[0] == 0xF0 + n / 262144 && bs[1] == 0x80 + (n / 4096) % 64;
      assert bs[2] == 0x80 + (n / 64) % 64 && bs[3] == 0x80 + n % 64;
    }
  }

  lemma Split2(n: int)
    requires 0 <= n
    ensures (n / 64) * 64 + n % 64 == n
  {
  }

  lemma Split3(n: int)
    requires 0 <= n
    ensures (n / 4096) * 4096 + ((n / 64) % 64) * 64 + n % 64 == n
  {
    var a := n / 64;
    var b := a / 64;
    Split2(n);
    Split2(a);
    assert n == b * 4096 + (a % 64) * 64 + n % 64;
    Join3(b, a % 64, n % 64);
  }

  lemma Split4(n: int)
    requires 0 <= n
    ensures (n / 262144) * 262144 + ((n / 4096) % 64) * 4096 + ((n / 64) % 64) * 64 + n % 64 == n
  {
    var a := n / 64;
    var b := a / 64;
    var c := b / 64;
    Split2(n);
    Split2(a);
    Split2(b);
    assert n == c * 262144 + (b % 64) * 4096 + (a % 64) * 64 + n % 64;
    Join4(c, b % 64, a % 64, n % 64);
  }

  lemma Join2(hi: int, lo: int)
    requires 0 <= lo < 64 && 0 <= hi
    ensures (hi * 64 + lo) / 64 == hi && (hi * 64 + lo) % 64 == lo
  {
  }

  lemma Join3(hi: int, mid: int, lo: int)
    requires 0 <= lo < 64 && 0 <= mid < 64 && 0 <= hi
    ensures var m := hi * 4096 + mid * 64 + lo; m / 4096 == hi && (m / 64) % 64 == mid && m % 64 == lo
  {
    var m := hi * 4096 + mid * 64 + lo;
    assert m == (hi * 64 + mid) * 64 + lo;
    Join2(hi * 64 + mid, lo);
    Join2(hi, mid);
  }

  lemma Join4(top: int, hi: int, mid: int, lo: int)
    requires 0 <= lo < 64 && 0 <= mid < 64 && 0 <= hi < 64 && 0 <= top
    ensures var m := top * 262144 + hi * 4096 + mid * 64 + lo;
      m / 262144 == top && (m / 4096) % 64 == hi && (m / 64) % 64 == mid && m % 64 == lo
  {
    var m := top * 262144 + hi * 4096 + mid * 64 + lo;
    assert m == ((top * 64 + hi) * 64 + mid) * 64 + lo;
    Join2((top * 64 + hi) * 64 + mid, lo);
    Join2(top * 64 + hi, mid);
    Join2(top, hi);
    assert m / 4096 == top * 64 + hi by {
      assert m / 64 == (top * 64 + hi) * 64 + mid;
    }
  }

  lemma EncodeDecodedChar(bs: Bytes)
    requires DecodeChar(bs).Some?
    ensures var (c, n) := DecodeChar(bs).value; n <= |bs| && bs[..n] == EncodeChar(c)
  {
    var b0: int := bs[0];
    var (c, n) := DecodeChar(bs).value;
    var m := c as int;
    if b0 < 0x80 {
    } else if b0 < 0xE0 {
      Join2(b0 - 0xC0, bs[1] as int - 0x80);
    } else if b0 < 0xF0 {
      Join3(b0 - 0xE0, bs[1] as int - 0x80, bs[2] as int - 0x80);
    } else {
      Join4(b0 - 0xF0, bs[1] as int - 0x80, bs[2] as int - 0x80, bs[3] as int - 0x80);
    }
  }

  /** Decoding inverts encoding. */
  lemma {:induction false} DecodeEncode(s: string)
    ensures Decode(Encode(s)) == Some(s)
  {
    if s != [] {
      var e := EncodeChar(s[0]);
      DecodeEncodeChar(s[0], Encode(s[1..]));
      assert (e + Encode(s[1..]))[|e|..] == Encode(s[1..]);
      DecodeEncode(s[1..]);
      assert [s[0]] + s[1..] == s;
    }
  }

  /** Only encodings decode: a successful decoding re-encodes to the input. */
  lemma {:induction false} EncodeDecode(bs: Bytes)
    requires Decode(bs).Some?
    ensures Encode(Decode(bs).value) == bs
    decreases |bs|
  {
    if bs != [] {
      DecodeStep(bs);
      EncodeDecodedChar(bs);
      var (c, n) := DecodeChar(bs).value;
      EncodeDecode(bs[n..]);
      Reassemble(bs, c, n, Decode(bs[n..]).value);
    }
  }

  /** The encoding of a character followed by a text that re-encode the two parts of `bs`. */
  lemma Reassemble(bs: Bytes, c: char, n: nat, rest: string)
    requires n <= |bs| && bs[..n] == EncodeChar(c) && Encode(rest) == bs[n..]
    ensures Encode([c] + rest) == bs
  {
    assert ([c] + rest)[0] == c && ([c] + rest)[1..] == rest;
    assert bs == bs[..n] + bs[n..];
  }

  /** A successful decoding is the first character followed by the decoding of the rest. */
  lemma DecodeStep(bs: Bytes)
    requires bs != [] && Decode(bs).Some?
    ensures DecodeChar(bs).Some?
    ensures var (c, n) := DecodeChar(bs).value;
      0 < n <= |bs| && Decode(bs[n..]).Some? && Decode(bs).value == [c] + Decode(bs[n..]).value
  {
  }

  /** A decoding that starts with a well-formed character is that character followed by
      the decoding of the rest. */
  lemma DecodeCons(bs: Bytes, c: char, n: nat)
    requires DecodeChar(bs) == Some((c, n)) && 0 < n <= |bs|
    ensures Decode(bs) == if Decode(bs[n..]).Some? then Some([c] + Decode(bs[n..]).value) else None
  {
  }

  /** The continuation bytes of a character stop at the next lead byte. */
  lemma ContinuationsEnd(bs: Bytes, k: nat, n: nat)
    requires 0 < k < |bs| && !IsContinuation(bs[k])
    requires forall i :: 1 <= i < n && i < |bs| ==> IsContinuation(bs[i])
    requires n <= |bs|
    ensures n <= k
  {
  }

  /** Decoding after the encoding of a text gives that text first, then whatever the rest
      decodes to. */
  lemma {:induction false} DecodeAfterEncoded(p: string, r: Bytes)
    ensures Decode(Encode(p) + r) == if Decode(r).Some? then Some(p + Decode(r).value) else None
    decreases |p|
  {
    if p == [] {
      assert Encode(p) + r == r;
      if Decode(r).Some? {
        assert p + Decode(r).value == Decode(r).value;
      }
    } else {
      var e := EncodeChar(p[0]);
      var rest := Encode(p[1..]) + r;
      assert Encode(p) == e + Encode(p[1..]);
      Regroup(e, Encode(p[1..]), r);
      DecodeEncodeChar(p[0], rest);
      Drop(e, rest);
      DecodeCons(e + rest, p[0], |e|);
      DecodeAfterEncoded(p[1..], r);
      if Decode(r).Some? {
        Uncons(p, Decode(r).value);
      }
    }
  }

  /** UTF-8 is self-synchronising: bytes followed by the encoding of a text decode only if
      they decode on their own, since no character runs on into the next encoding. */
  lemma {:induction false} DecodeBeforeEncoded(m: Bytes, q: string)
    requires Decode(m + Encode(q)).Some?
    ensures Decode(m).Some? && Decode(m + Encode(q)).value == Decode(m).value + q
    decreases |m|
  {
    var bs := m + Encode(q);
    if m == [] {
      assert bs == Encode(q);
      DecodeEncode(q);
      assert [] + q == q;
    } else {
      DecodeStep(bs);
      EncodeDecodedChar(bs);
      var (c, n) := DecodeChar(bs).value;
      var e := EncodeChar(c);
      forall i | 1 <= i < n && i < |bs|
        ensures IsContinuation(bs[i])
      {
        assert bs[i] == bs[..n][i] == e[i];
      }
      if q != [] {
        assert bs[|m|] == Encode(q)[0] == EncodeChar(q[0])[0];
        ContinuationsEnd(bs, |m|, n);
      }
      Split(m, Encode(q), n);
      DecodeEncodeChar(c, m[n..]);
      DecodeBeforeEncoded(m[n..], q);
      DecodeCons(m, c, n);
      Regroup([c], Decode(m[n..]).value, q);
    }
  }

  /** Sequence algebra the proofs above rely on. */
  lemma Drop<T>(a: seq<T>, b: seq<T>)
    ensures (a + b)[|a|..] == b
  {
  }

  lemma Uncons<T>(p: seq<T>, d: seq<T>)
    requires p != []
    ensures [p[0]] + (p[1..] + d) == p + d
  {
  }

  lemma Split<T>(m: seq<T>, t: seq<T>, n: nat)
    requires n <= |m|
    ensures m == (m + t)[..n] + m[n..] && (m + t)[n..] == m[n..] + t
  {
  }

  lemma Regroup<T>(a: seq<T>, b: seq<T>, c: seq<T>)
    ensures a + (b + c) == a + b + c
  {
  }

  /** Bytes framed by two encoded texts inside an encoded text are themselves an encoded
      text, the one between the two. */
  lemma DecodeFramed(p: string, m: Bytes, q: string, v: string)
    requires Encode(v) == Encode(p) + m + Encode(q)
    ensures Decode(m).Some? && Encode(Decode(m).value) == m && v == p + Decode(m).value + q
  {
    var tail := m + Encode(q);
    Regroup(Encode(p), m, Encode(q));
    var w := DecodePrefixed(p, tail, v);
    DecodeBeforeEncoded(m, q);
    EncodeDecode(m);
    Regroup(p, Decode(m).value, q);
  }

  /** What follows an encoded prefix of an encoded text decodes to the rest of the text. */
  lemma DecodePrefixed(p: string, tail: Bytes, v: string) returns (w: string)
    requires Encode(v) == Encode(p) + tail
    ensures Decode(tail) == Some(w) && v == p + w
  {
    DecodeEncode(v);
    DecodeAfterEncoded(p, tail);
    w := Decode(tail).value;
  }

  /** Encoding distributes over concatenation. */
  lemma {:induction false} EncodeAppend(a: string, b: string)
    ensures Encode(a + b) == Encode(a) + Encode(b)
  {
    if a == [] {
      assert a + b == b;
    } else {
      assert (a + b)[1..] == a[1..] + b;
      EncodeAppend(a[1..], b);
    }
  }
}
