/** Python's repr() of the payloads the cache accepts, which is what str(args)
    writes into the call history for the argument tuple. */
module PyRepr {
  import opened Utf8
  import Decimal

  function HexDigit(d: int): char
    requires 0 <= d < 16
  {
    if d < 10 then Decimal.DigitChar(d) else ('a' as int + d - 10) as char
  }

  /** The escape \xNN for a code below 256. */
  function HexEscape(n: int): string
    requires 0 <= n < 0x100
  {
    ['\\', 'x', HexDigit(n / 16), HexDigit(n % 16)]
  }

  /** Python quotes with ' unless the text holds a ' and no ". */
  function Quote(hasSingle: bool, hasDouble: bool): char {
    if hasSingle && !hasDouble then '"' else '\''
  }

  /** One character of a str repr. Printability of characters beyond Latin-1
      controls is taken to be "printable". */
  function CharRepr(c: char, quote: char): string {
    if c == quote || c == '\\' then ['\\', c]
    else if c == '\t' then "\\t"
    else if c == '\n' then "\\n"
    else if c == '\r' then "\\r"
    else if c as int < 0x20 || 0x7F <= c as int < 0xA0 then HexEscape(c as int)
    else [c]
  }

  function CharsRepr(s: string, quote: char): string {
    if s == [] then [] else CharRepr(s[0], quote) + CharsRepr(s[1..], quote)
  }

  /** repr(s) for a str. */
  function StrRepr(s: string): string {
    var q := Quote('\'' in s, '"' in s);
    [q] + CharsRepr(s, q) + [q]
  }

  /** One byte of a bytes repr. */
  function ByteRepr(b: Byte, quote: char): string {
    if b == quote as int || b == 0x5C then ['\\', b as char]
    else if b == 0x09 then "\\t"
    else if b == 0x0A then "\\n"
    else if b == 0x0D then "\\r"
    else if b < 0x20 || b >= 0x7F then HexEscape(b)
    else [b as char]
  }

  function BytesBodyRepr(bs: Bytes, quote: char): string {
    if bs == [] then [] else ByteRepr(bs[0], quote) + BytesBodyRepr(bs[1..], quote)
  }

  /** repr(b) for a bytes object. */
  function BytesRepr(bs: Bytes): string {
    var q := Quote(0x27 in bs, 0x22 in bs);
    "b" + [q] + BytesBodyRepr(bs, q) + [q]
  }
}
