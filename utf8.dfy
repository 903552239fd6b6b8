/** Bytes and the UTF-8 encoding (RFC 3629) that the client library applies to
    every text it sends to the store, and the strict decoding that Python's
    bytes.decode('utf-8') performs on what comes back. */
module Utf8 {
  import opened Results

  type Byte = b: int | 0 <= b < 0x100
  type Bytes = seq<Byte>

  predicate IsContinuation(b: Byte) {
    0x80 <= b < 0xC0
  }

  /** The one to four bytes that encode a scalar value, following the table in
      section 3 of RFC 3629. */
  function EncodeChar(c: char): (r: Bytes)
    ensures 1 <= |r| <= 4
    ensures r[0] < 0x80 <==> |r| == 1
  {
    var n := c as int;
    if n < 0x80 then
      [n]
    else if n < 0x800 then
      [0xC0 + n / 0x40, 0x80 + n % 0x40]
    else if n < 0x10000 then
      [0xE0 + n / 0x40 / 0x40, 0x80 + n / 0x40 % 0x40, 0x80 + n % 0x40]
    else
      [0xF0 + n / 0x40 / 0x40 / 0x40, 0x80 + n / 0x40 / 0x40 % 0x40,
       0x80 + n / 0x40 % 0x40, 0x80 + n % 0x40]
  }

  /** str.encode('utf-8'). */
  function Encode(s: string): (r: Bytes)
    ensures |r| >= |s|
  {
    if s == [] then [] else EncodeChar(s[0]) + Encode(s[1..])
  }

  /** The scalar value at the head of b and the number of bytes it takes, when b
      starts with a well-formed sequence: no overlong form, no surrogate, nothing
      above U+10FFFF. */
  function DecodeFirst(b: Bytes): Option<(char, nat)>
    requires b != []
  {
    var b0: int := b[0];
    var b1: int := if |b| >= 2 then b[1] else 0;
    var b2: int := if |b| >= 3 then b[2] else 0;
    var b3: int := if |b| >= 4 then b[3] else 0;
    if b0 < 0x80 then
      Some((b0 as char, 1))
    else if 0xC2 <= b0 < 0xE0 && |b| >= 2 && IsContinuation(b[1]) then
      Some((((b0 - 0xC0) * 0x40 + (b1 - 0x80)) as char, 2))
    else if 0xE0 <= b0 < 0xF0 && |b| >= 3 && IsContinuation(b[1]) && IsContinuation(b[2])
         && (b0 != 0xE0 || 0xA0 <= b1) && (b0 != 0xED || b1 < 0xA0) then
      Some(((((b0 - 0xE0) * 0x40 + (b1 - 0x80)) * 0x40 + (b2 - 0x80)) as char, 3))
    else if 0xF0 <= b0 < 0xF5 && |b| >= 4 && IsContinuation(b[1]) && IsContinuation(b[2])
         && IsContinuation(b[3]) && (b0 != 0xF0 || 0x90 <= b1) && (b0 != 0xF4 || b1 < 0x90) then
      Some((((((b0 - 0xF0) * 0x40 + (b1 - 0x80)) * 0x40 + (b2 - 0x80)) * 0x40 + (b3 - 0x80)) as char, 4))
    else
      None
  }

  /** Splitting q * 64 + r back into q and r. */
  lemma DivMod64(q: int, r: int)
    requires q >= 0 && 0 <= r < 0x40
    ensures (q * 0x40 + r) / 0x40 == q && (q * 0x40 + r) % 0x40 == r
  {
  }

  /** A well-formed two-byte sequence is the encoding of the value it carries. */
  lemma TwoBytesSound(b0: Byte, b1: Byte)
    requires 0xC2 <= b0 < 0xE0 && IsContinuation(b1)
    ensures EncodeChar(((b0 - 0xC0) * 0x40 + (b1 - 0x80)) as char) == [b0, b1]
  {
    var n: int := (b0 - 0xC0) * 0x40 + (b1 - 0x80);
    DivMod64(b0 - 0xC0, b1 - 0x80);
    assert 0x80 <= n < 0x800;
  }

  /** A well-formed three-byte sequence is the encoding of the value it carries. */
  lemma ThreeBytesSound(b0: Byte, b1: Byte, b2: Byte)
    requires 0xE0 <= b0 < 0xF0 && IsContinuation(b1) && IsContinuation(b2)
    requires (b0 != 0xE0 || 0xA0 <= b1) && (b0 != 0xED || b1 < 0xA0)
    ensures EncodeChar((((b0 - 0xE0) * 0x40 + (b1 - 0x80)) * 0x40 + (b2 - 0x80)) as char) == [b0, b1, b2]
  {
    var q: int := (b0 - 0xE0) * 0x40 + (b1 - 0x80);
    var n: int := q * 0x40 + (b2 - 0x80);
    DivMod64(q, b2 - 0x80);
    DivMod64(b0 - 0xE0, b1 - 0x80);
    assert 0x800 <= n < 0x10000;
  }

  /** A well-formed four-byte sequence is the encoding of the value it carries. */
  lemma FourBytesSound(b0: Byte, b1: Byte, b2: Byte, b3: Byte)
    requires 0xF0 <= b0 < 0xF5 && IsContinuation(b1) && IsContinuation(b2) && IsContinuation(b3)
    requires (b0 != 0xF0 || 0x90 <= b1) && (b0 != 0xF4 || b1 < 0x90)
    ensures EncodeChar(((((b0 - 0xF0) * 0x40 + (b1 - 0x80)) * 0x40 + (b2 - 0x80)) * 0x40 + (b3 - 0x80)) as char)
      == [b0, b1, b2, b3]
  {
    var q1: int := (b0 - 0xF0) * 0x40 + (b1 - 0x80);
    var q2: int := q1 * 0x40 + (b2 - 0x80);
    var n: int := q2 * 0x40 + (b3 - 0x80);
    DivMod64(q2, b3 - 0x80);
    DivMod64(q1, b2 - 0x80);
    DivMod64(b0 - 0xF0, b1 - 0x80);
    assert 0x10000 <= n < 0x110000;
  }

  /** What DecodeFirst reads is exactly the encoding of the value it returns. */
  lemma DecodeFirstSound(b: Bytes)
    requires b != [] && DecodeFirst(b).Some?
    ensures 1 <= DecodeFirst(b).value.1 <= |b|
    ensures EncodeChar(DecodeFirst(b).value.0) == b[..DecodeFirst(b).value.1]
  {
    var k := DecodeFirst(b).value.1;
    if k == 2 {
      TwoBytesSound(b[0], b[1]);
      assert b[..2] == [b[0], b[1]];
    } else if k == 3 {
      ThreeBytesSound(b[0], b[1], b[2]);
      assert b[..3] == [b[0], b[1], b[2]];
    } else if k == 4 {
      FourBytesSound(b[0], b[1], b[2], b[3]);
      assert b[..4] == [b[0], b[1], b[2], b[3]];
    }
  }

  /** bytes.decode('utf-8'): strict, so malformed input raises instead of being
      replaced or truncated. */
  function Decode(b: Bytes): (r: Result<string>)
    ensures r.Ok? ==> Encode(r.value) == b
    ensures r.Err? ==> r.error == UnicodeDecodeError
    decreases |b|
  {
    if b == [] then
      Ok([])
    else
      match DecodeFirst(b)
      case None => Err(UnicodeDecodeError)
      case Some((c, k)) =>
        DecodeFirstSound(b);
        match Decode(b[k..])
        case Err(e) => Err(e)
        case Ok(s) =>
          assert b == b[..k] + b[k..];
          Ok([c] + s)
  }

  lemma {:induction false} EncodeAppend(s: string, t: string)
    ensures Encode(s + t) == Encode(s) + Encode(t)
  {
    if s == [] {
      assert s + t == t;
    } else {
      assert (s + t)[0] == s[0];
      assert (s + t)[1..] == s[1..] + t;
      EncodeAppend(s[1..], t);
    }
  }

  /** The decoder reads back the one value the encoder wrote, whatever follows it. */
  lemma DecodeFirstOfEncoding(c: char, rest: Bytes)
    ensures DecodeFirst(EncodeChar(c) + rest) == Some((c, |EncodeChar(c)|))
  {
    var n := c as int;
    var b := EncodeChar(c) + rest;
    if n < 0x80 {
    } else if n < 0x800 {
      assert b[0] == 0xC0 + n / 0x40 && b[1] == 0x80 + n % 0x40;
    } else if n < 0x10000 {
      assert b[0] == 0xE0 + n / 0x40 / 0x40 && b[1] == 0x80 + n / 0x40 % 0x40 && b[2] == 0x80 + n % 0x40;
      assert n / 0x40 / 0x40 == 0 ==> n / 0x40 % 0x40 >= 0x20;
      assert n / 0x40 / 0x40 == 0xD ==> n / 0x40 % 0x40 < 0x20;
    } else {
      assert b[0] == 0xF0 + n / 0x40 / 0x40 / 0x40 && b[1] == 0x80 + n / 0x40 / 0x40 % 0x40;
      assert b[2] == 0x80 + n / 0x40 % 0x40 && b[3] == 0x80 + n % 0x40;
    }
  }

  /** Decoding inverts encoding: bytes.decode('utf-8') of s.encode('utf-8') is s. */
  lemma {:induction false} DecodeEncode(s: string)
    ensures Decode(Encode(s)) == Ok(s)
  {
    if s != [] {
      var e := EncodeChar(s[0]);
      DecodeFirstOfEncoding(s[0], Encode(s[1..]));
      assert Encode(s)[|e|..] == Encode(s[1..]);
      DecodeEncode(s[1..]);
      assert [s[0]] + s[1..] == s;
    }
  }

  /** Text made of ASCII characters encodes one byte per character. */
  lemma {:induction false} EncodeAscii(s: string)
    requires forall i :: 0 <= i < |s| ==> s[i] as int < 0x80
    ensures |Encode(s)| == |s|
    ensures forall i :: 0 <= i < |s| ==> Encode(s)[i] == s[i] as int
  {
    if s != [] {
      EncodeAscii(s[1..]);
    }
  }

  /** The only text whose encoding is b is the one Decode returns. */
  lemma DecodeAccepts(b: Bytes)
    ensures forall s :: Encode(s) == b ==> Decode(b) == Ok(s)
  {
    forall s | Encode(s) == b
      ensures Decode(b) == Ok(s)
    {
      DecodeEncode(s);
    }
  }
}
