/** PHP's `urlencode` over the UTF-8 bytes of a string, and the matching
    `urldecode`. */
module UrlEncoding {

  type Byte = b: int | 0 <= b < 256

  /** The UTF-8 encoding of one character. */
  function CharUtf8(c: char): (r: seq<Byte>)
    ensures 1 <= |r| <= 4
    ensures (c as int < 128) <==> r == [c as int]
  {
    var n := c as int;
    if n < 0x80 then [n]
    else if n < 0x800 then [0xC0 + n / 64, 0x80 + n % 64]
    else if n < 0x1_0000 then [0xE0 + n / 4096, 0x80 + (n / 64) % 64, 0x80 + n % 64]
    else [0xF0 + n / 262144, 0x80 + (n / 4096) % 64, 0x80 + (n / 64) % 64, 0x80 + n % 64]
  }

  /** The UTF-8 bytes of a string, as PHP holds a string from a JSON body. */
  function Utf8(s: string): (r: seq<Byte>)
    ensures |s| <= |r| <= 4 * |s|
  {
    if s == [] then [] else CharUtf8(s[0]) + Utf8(s[1..])
  }

  /** Bytes `urlencode` leaves as they are: letters, digits, `-`, `_`, `.`. */
  predicate Unreserved(b: Byte) {
    ('A' as int <= b <= 'Z' as int) || ('a' as int <= b <= 'z' as int) || ('0' as int <= b <= '9' as int)
    || b == '-' as int || b == '_' as int || b == '.' as int
  }

  const HexDigits: string := "0123456789ABCDEF"

  /** The value of a hexadecimal digit of either case. */
  function HexValue(c: char): (r: int)
    ensures -1 <= r < 16
    ensures forall d :: 0 <= d < 16 && HexDigits[d] == c ==> r == d
  {
    if '0' <= c <= '9' then c as int - '0' as int
    else if 'A' <= c <= 'F' then c as int - 'A' as int + 10
    else if 'a' <= c <= 'f' then c as int - 'a' as int + 10
    else -1
  }

  /** One byte: itself when unreserved, `+` for a space, `%XX` otherwise. */
  function EncodeByte(b: Byte): (r: string)
    ensures Unreserved(b) <==> r == [b as char]
    ensures b == ' ' as int ==> r == "+"
    ensures !Unreserved(b) && b != ' ' as int ==>
              |r| == 3 && r[0] == '%' && 16 * HexValue(r[1]) + HexValue(r[2]) == b as int
  {
    if Unreserved(b) then [b as char]
    else if b == ' ' as int then "+"
    else ['%', HexDigits[b / 16], HexDigits[b % 16]]
  }

  /** `urlencode`, byte by byte. */
  function UrlEncode(bs: seq<Byte>): (r: string)
    ensures |bs| <= |r| <= 3 * |bs|
  {
    if bs == [] then "" else EncodeByte(bs[0]) + UrlEncode(bs[1..])
  }

  /** `urldecode`: `+` is a space, `%` with two hex digits is a byte, and any
      other character stands for its own UTF-8 bytes. */
  function UrlDecode(s: string): seq<Byte>
  {
    if s == [] then []
    else if s[0] == '+' then [' ' as int] + UrlDecode(s[1..])
    else if s[0] == '%' && |s| >= 3 && HexValue(s[1]) >= 0 && HexValue(s[2]) >= 0 then
      [16 * HexValue(s[1]) + HexValue(s[2])] + UrlDecode(s[3..])
    else CharUtf8(s[0]) + UrlDecode(s[1..])
  }

  /** A character that `urlencode` can produce. */
  predicate EncodedChar(c: char) {
    ('A' <= c <= 'Z') || ('a' <= c <= 'z') || ('0' <= c <= '9')
    || c == '-' || c == '_' || c == '.' || c == '+' || c == '%'
  }

  lemma DecodeEncodedByte(b: Byte, t: string)
    ensures UrlDecode(EncodeByte(b) + t) == [b] + UrlDecode(t)
  {
    if Unreserved(b) {
      DecodeUnreserved(b, t);
    } else if b == ' ' as int {
      DecodePlus(t);
    } else {
      DecodeEscape(b, t);
    }
  }

  lemma DecodeUnreserved(b: Byte, t: string)
    requires Unreserved(b)
    ensures UrlDecode([b as char] + t) == [b] + UrlDecode(t)
  {
    var e := [b as char] + t;
    assert e[0] == b as char && e[1..] == t;
    assert b < 128 && b != '+' as int && b != '%' as int;
    assert CharUtf8(b as char) == [b];
  }

  lemma DecodePlus(t: string)
    ensures UrlDecode("+" + t) == [' ' as int] + UrlDecode(t)
  {
    var e := "+" + t;
    assert e[0] == '+' && e[1..] == t;
  }

  lemma DecodeEscape(b: Byte, t: string)
    ensures UrlDecode(['%', HexDigits[b / 16], HexDigits[b % 16]] + t) == [b] + UrlDecode(t)
  {
    var hi, lo := b / 16, b % 16;
    var e := ['%', HexDigits[hi], HexDigits[lo]] + t;
    assert e[0] == '%' && e[1] == HexDigits[hi] && e[2] == HexDigits[lo] && e[3..] == t;
    assert HexValue(e[1]) == hi && HexValue(e[2]) == lo;
    assert 16 * hi + lo == b;
  }

  /** Decoding undoes encoding, for every byte string. */
  lemma {:induction false} DecodeEncode(bs: seq<Byte>)
    ensures UrlDecode(UrlEncode(bs)) == bs
  {
    if bs != [] {
      DecodeEncodedByte(bs[0], UrlEncode(bs[1..]));
      DecodeEncode(bs[1..]);
    }
  }

  /** An encoded string holds only letters, digits, `-_.+%`: in particular
      never `&`, `=`, `#` or a space. */
  lemma {:induction false} EncodedChars(bs: seq<Byte>)
    ensures forall i :: 0 <= i < |UrlEncode(bs)| ==> EncodedChar(UrlEncode(bs)[i])
  {
    if bs != [] {
      EncodedChars(bs[1..]);
      var head := EncodeByte(bs[0]);
      assert forall i :: 0 <= i < |head| ==> EncodedChar(head[i]);
      assert UrlEncode(bs) == head + UrlEncode(bs[1..]);
    }
  }
}
