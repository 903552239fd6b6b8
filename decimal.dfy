/** Decimal integers as bytes: the text Python's str(int) and the store's
    integer replies produce, the strict syntax the store's INCR accepts, and the
    laxer syntax Python's int() accepts. */
module Decimal {
  import opened Results
  import opened Utf8

  const MinInt64: int := -0x8000_0000_0000_0000
  const MaxInt64: int := 0x7fff_ffff_ffff_ffff

  function DigitChar(d: int): char
    requires 0 <= d < 10
  {
    ('0' as int + d) as char
  }

  /** The digits of n, most significant first, with no leading zero. */
  function NatText(n: nat): string
    decreases n
  {
    if n < 10 then [DigitChar(n)] else NatText(n / 10) + [DigitChar(n % 10)]
  }

  /** str(n) in Python, and the store's rendering of an integer value. */
  function Show(n: int): string {
    if n < 0 then "-" + NatText(-n) else NatText(n)
  }

  /** The ASCII digits of n, most significant first, with no leading zero. */
  function Digits(n: nat): Bytes
    decreases n
  {
    if n < 10 then [0x30 + n] else Digits(n / 10) + [0x30 + n % 10]
  }

  /** The bytes the client library sends for an integer, and the bytes INCR
      leaves behind: str(n) in ASCII. */
  function Format(n: int): Bytes {
    if n < 0 then [0x2D] + Digits(-n) else Digits(n)
  }

  predicate IsDigit(b: Byte) {
    0x30 <= b <= 0x39
  }

  /** '+' or '-'. */
  predicate IsSign(b: Byte) {
    b == 0x2B || b == 0x2D
  }

  predicate AllDigits(ds: Bytes) {
    forall i :: 0 <= i < |ds| ==> IsDigit(ds[i])
  }

  /** The number the ASCII digits ds denote. */
  function Value(ds: Bytes): nat
    requires AllDigits(ds)
  {
    if ds == [] then 0 else Value(ds[..|ds| - 1]) * 10 + (ds[|ds| - 1] - 0x30)
  }

  /** Digits with no leading zero, the only unsigned form the store accepts. */
  predicate Canonical(ds: Bytes) {
    |ds| > 0 && AllDigits(ds) && (ds[0] == 0x30 ==> |ds| == 1)
  }

  /** The value INCR reads from a string: "0", or an optional '-' and digits
      starting with a nonzero one, within the signed 64-bit range; anything else
      is not an integer to the store. */
  function ParseCounter(b: Bytes): Option<int> {
    var n: Option<int> :=
      if |b| >= 2 && b[0] == 0x2D && Canonical(b[1..]) && b[1] != 0x30 then Some(-(Value(b[1..]) as int))
      else if Canonical(b) then Some(Value(b))
      else None;
    if n.Some? && MinInt64 <= n.value <= MaxInt64 then n else None
  }

  /** Python's int() applied to bytes: an optional sign and one or more ASCII
      digits, leading zeros allowed. */
  function ParsePyInt(b: Bytes): Option<int> {
    if |b| > 0 && (b[0] == 0x2B || b[0] == 0x2D) then
      var ds := b[1..];
      if |ds| > 0 && AllDigits(ds) then
        Some(if b[0] == 0x2D then -(Value(ds) as int) else Value(ds))
      else
        None
    else if |b| > 0 && AllDigits(b) then
      Some(Value(b))
    else
      None
  }

  lemma ValueSnoc(ds: Bytes, d: Byte)
    requires AllDigits(ds) && IsDigit(d)
    ensures AllDigits(ds + [d]) && Value(ds + [d]) == Value(ds) * 10 + (d - 0x30)
  {
    assert (ds + [d])[..|ds|] == ds;
  }

  /** The digits of a natural number are canonical and denote it. */
  lemma {:induction false} DigitsCanonical(n: nat)
    ensures Canonical(Digits(n))
    ensures Value(Digits(n)) == n
    ensures n != 0 ==> Digits(n)[0] != 0x30
  {
    if n >= 10 {
      DigitsCanonical(n / 10);
      ValueSnoc(Digits(n / 10), 0x30 + n % 10);
    }
  }

  /** Canonical digits are exactly the digits of their own value. */
  lemma {:induction false} CanonicalIsDigits(ds: Bytes)
    requires Canonical(ds)
    ensures Digits(Value(ds)) == ds
    ensures |ds| > 1 ==> Value(ds) >= 10
  {
    if |ds| == 1 {
      assert ds[..0] == [];
    } else {
      var prefix := ds[..|ds| - 1];
      assert Canonical(prefix);
      CanonicalIsDigits(prefix);
      var d := ds[|ds| - 1];
      assert ds == prefix + [d];
      ValueSnoc(prefix, d);
      var v := Value(ds);
      if |prefix| == 1 {
        assert prefix[..0] == [];
        assert Value(prefix) == prefix[0] - 0x30 >= 1;
      }
      assert v / 10 == Value(prefix) && v % 10 == d - 0x30;
    }
  }

  /** The digits are the UTF-8 encoding of the decimal text. */
  lemma {:induction false} DigitsAreNatText(n: nat)
    ensures Digits(n) == Encode(NatText(n))
  {
    if n < 10 {
      assert Encode(NatText(n)) == [0x30 + n];
    } else {
      DigitsAreNatText(n / 10);
      EncodeAppend(NatText(n / 10), [DigitChar(n % 10)]);
      assert Encode([DigitChar(n % 10)]) == [0x30 + n % 10];
    }
  }

  /** The bytes of an integer are str(n) encoded: decoding them gives str(n). */
  lemma FormatIsShow(n: int)
    ensures Format(n) == Encode(Show(n))
    ensures Decode(Format(n)) == Ok(Show(n))
  {
    if n < 0 {
      DigitsAreNatText(-n);
      EncodeAppend("-", NatText(-n));
    } else {
      DigitsAreNatText(n);
    }
    DecodeEncode(Show(n));
  }

  /** INCR reads back exactly the integers the store writes: every 64-bit value. */
  lemma ParseCounterFormat(n: int)
    requires MinInt64 <= n <= MaxInt64
    ensures ParseCounter(Format(n)) == Some(n)
  {
    if n < 0 {
      DigitsCanonical(-n);
      assert Format(n)[1..] == Digits(-n);
    } else {
      DigitsCanonical(n);
    }
  }

  /** ... and nothing else: a string INCR accepts is the rendering of its value,
      so the store's view of a counter as text and as number agree. */
  lemma FormatParseCounter(b: Bytes)
    requires ParseCounter(b).Some?
    ensures Format(ParseCounter(b).value) == b
  {
    if |b| >= 2 && b[0] == 0x2D && Canonical(b[1..]) && b[1] != 0x30 {
      CanonicalIsDigits(b[1..]);
      if |b[1..]| == 1 {
        assert Value(b[1..]) == b[1] - 0x30;
      }
      assert b == [0x2D] + b[1..];
    } else {
      CanonicalIsDigits(b);
    }
  }

  /** Python's int() reads back str(n) for every integer n. */
  lemma ParsePyIntFormat(n: int)
    ensures ParsePyInt(Format(n)) == Some(n)
  {
    if n < 0 {
      DigitsCanonical(-n);
      assert Format(n)[1..] == Digits(-n);
    } else {
      DigitsCanonical(n);
    }
  }

  /** Bytes that render some integer are read by int() as that integer. */
  lemma ParsePyIntAccepts(b: Bytes)
    ensures forall n :: Format(n) == b ==> ParsePyInt(b) == Some(n)
  {
    forall n | Format(n) == b
      ensures ParsePyInt(b) == Some(n)
    {
      ParsePyIntFormat(n);
    }
  }

  /** The shape int() accepts, both ways: a byte that is not an ASCII digit
      makes it fail unless it is a leading sign with digits after it, and an
      optional sign followed by one or more digits is read as the signed value
      of those digits (leading zeros and '+' included). */
  lemma ParsePyIntShape(b: Bytes)
    ensures forall i :: 0 <= i < |b| && !IsDigit(b[i]) && !(i == 0 && |b| > 1 && IsSign(b[0])) ==>
      ParsePyInt(b) == None
    ensures |b| > 0 && AllDigits(b) ==> ParsePyInt(b) == Some(Value(b))
    ensures |b| > 1 && IsSign(b[0]) && AllDigits(b[1..]) ==>
      ParsePyInt(b) == Some(if b[0] == 0x2D then -(Value(b[1..]) as int) else Value(b[1..]))
    ensures ParsePyInt(b).Some? ==> |b| > 0 && (AllDigits(b) || (|b| > 1 && IsSign(b[0]) && AllDigits(b[1..])))
  {
    forall i | 0 <= i < |b| && !IsDigit(b[i]) && !(i == 0 && |b| > 1 && IsSign(b[0]))
      ensures ParsePyInt(b) == None
    {
      if i > 0 {
        assert b[1..][i - 1] == b[i];
      }
    }
  }

  /** Leading zeros and a '+' are accepted; a sign alone and a trailing letter are not. */
  lemma PyIntSignsAndZeros()
    ensures ParsePyInt([0x30, 0x30, 0x37]) == Some(7)
    ensures ParsePyInt([0x2B, 0x35]) == Some(5)
    ensures ParsePyInt([0x2D, 0x30]) == Some(0)
    ensures ParsePyInt([0x2D]) == None
    ensures ParsePyInt([0x34, 0x61]) == None
  {
    var zeros: Bytes := [0x30, 0x30, 0x37];
    assert AllDigits(zeros);
    assert zeros[..2] == [0x30, 0x30] && [0x30, 0x30][..1] == [0x30] && [0x30][..0] == [];
    assert Value(zeros) == 7;
    var plus: Bytes := [0x2B, 0x35];
    assert plus[1..] == [0x35] && [0x35][..0] == [];
    var minus: Bytes := [0x2D, 0x30];
    assert minus[1..] == [0x30] && [0x30][..0] == [];
    var bad: Bytes := [0x34, 0x61];
    assert !IsDigit(bad[1]);
  }

  lemma PyIntOf42()
    ensures Encode("42") == [0x34, 0x32] && ParsePyInt([0x34, 0x32]) == Some(42)
  {
    EncodeAscii("42");
    var ds: Bytes := [0x34, 0x32];
    assert AllDigits(ds);
    assert ds[..1] == [0x34];
    assert Value([0x34]) == 4 by {
      assert [0x34][..0] == [];
    }
    assert Value(ds) == 42;
  }

  lemma PyIntOfAbc()
    ensures Encode("abc") != [] && ParsePyInt(Encode("abc")) == None
  {
    EncodeAscii("abc");
    assert !IsDigit(Encode("abc")[0]);
  }
}
