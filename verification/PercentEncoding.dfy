/** Percent-encoding of an SVG into a `data:` URI (oauth_loopback.rs,
    `svg_data_uri`; sections 2.1 and 2.3 of RFC 3986), and the way back. */
module PercentEncodings {
  import opened Wrappers
  import opened Utf8s
  import Text

  const PREFIX := "data:image/svg+xml,"

  predicate IsUnreserved(c: char) {
    || 'a' <= c <= 'z' || 'A' <= c <= 'Z' || '0' <= c <= '9'
    || c == '-' || c == '_' || c == '.' || c == '~'
  }

  function UpperHex(d: nat): (c: char)
    requires d < 16
    ensures HexDigit(c) == Some(d)
  {
    if d < 10 then ('0' as int + d) as char else ('A' as int + d - 10) as char
  }

  lemma UpperHexListed(d: nat)
    requires d < 16
    ensures UpperHex(d) == "0123456789ABCDEF"[d]
  {
  }

  const UPPER := "ABCDEFGHIJKLMNOPQRSTUVWXYZ"

  const LOWER := "abcdefghijklmnopqrstuvwxyz"

  const DIGITS := "0123456789"

  lemma UpperListed(c: char)
    ensures c in UPPER <==> 'A' <= c <= 'Z'
  {
    if 'A' <= c <= 'Z' {
      assert UPPER[c as int - 'A' as int] == c;
    }
  }

  lemma LowerListed(c: char)
    ensures c in LOWER <==> 'a' <= c <= 'z'
  {
    if 'a' <= c <= 'z' {
      assert LOWER[c as int - 'a' as int] == c;
    }
  }

  lemma DigitListed(c: char)
    ensures c in DIGITS <==> '0' <= c <= '9'
  {
    if '0' <= c <= '9' {
      assert DIGITS[c as int - '0' as int] == c;
    }
  }

  /** What is not encoded: ASCII letters and digits, and four marks. */
  lemma UnreservedListed(c: char)
    ensures IsUnreserved(c) <==> c in UPPER || c in LOWER || c in DIGITS || c in {'-', '_', '.', '~'}
  {
    UpperListed(c);
    LowerListed(c);
    DigitListed(c);
    hide UPPER;
    hide LOWER;
    hide DIGITS;
  }

  /** Value of a hexadecimal digit of either case. */
  function HexDigit(c: char): (r: Option<nat>)
    ensures r.Some? ==> r.value < 16
  {
    if '0' <= c <= '9' then Some(c as int - '0' as int)
    else if 'A' <= c <= 'F' then Some(c as int - 'A' as int + 10)
    else if 'a' <= c <= 'f' then Some(c as int - 'a' as int + 10)
    else None
  }

  function EncodeByte(b: Byte): (s: string)
    ensures |s| == 1 || |s| == 3
  {
    if b < 128 && IsUnreserved(b as char) then [b as char] else ['%', UpperHex(b / 16), UpperHex(b % 16)]
  }

  function PercentEncode(bytes: seq<Byte>): string {
    if bytes == [] then "" else EncodeByte(bytes[0]) + PercentEncode(bytes[1..])
  }

  function DataUri(svg: string): string {
    PREFIX + PercentEncode(Encode(Text.Trim(svg, Text.IsWhiteSpace)))
  }

  method SvgDataUri(svg: string) returns (out: string)
    ensures out == DataUri(svg)
    ensures "data:image/svg+xml," <= out
  {
    hide Text.Trim;
    hide Encode;
    hide PercentEncode;
    out := PREFIX;
    var bytes := Encode(Text.Trim(svg, Text.IsWhiteSpace));
    EncodesNothing();
    assert bytes[..0] == [];
    var i := 0;
    while i < |bytes|
      invariant i <= |bytes|
      invariant out == PREFIX + PercentEncode(bytes[..i])
    {
      var byte := bytes[i];
      EncodesOneMore(bytes[..i], byte);
      assert bytes[..i + 1] == bytes[..i] + [byte];
      if byte < 128 && IsUnreserved(byte as char) {
        out := out + [byte as char];
      } else {
        out := out + ['%', UpperHex(byte / 16), UpperHex(byte % 16)];
      }
      i := i + 1;
    }
    assert bytes[..i] == bytes;
  }

  lemma EncodesNothing()
    ensures PercentEncode([]) == ""
  {
  }

  lemma EncodesFirst(byte: Byte, bytes: seq<Byte>)
    ensures PercentEncode([byte] + bytes) == EncodeByte(byte) + PercentEncode(bytes)
  {
    hide EncodeByte;
    assert ([byte] + bytes)[1..] == bytes;
  }

  lemma {:induction false} EncodesOneMore(bytes: seq<Byte>, byte: Byte)
    ensures PercentEncode(bytes + [byte]) == PercentEncode(bytes) + EncodeByte(byte)
  {
    hide EncodeByte;
    if bytes == [] {
      assert [] + [byte] == [byte] + [];
      EncodesFirst(byte, []);
    } else {
      EncodesOneMore(bytes[1..], byte);
      assert bytes + [byte] == [bytes[0]] + (bytes[1..] + [byte]);
      EncodesFirst(bytes[0], bytes[1..] + [byte]);
    }
  }

  // ---------- decoding ----------

  /** A browser's decoder: triples with digits of either case, other ASCII
      characters as they are. */
  function PercentDecode(s: string): Option<seq<Byte>> {
    if s == "" then Some([])
    else if s[0] == '%' then
      if |s| < 3 || HexDigit(s[1]).None? || HexDigit(s[2]).None? then None
      else
        match PercentDecode(s[3..])
        case None => None
        case Some(rest) => Some([16 * HexDigit(s[1]).value + HexDigit(s[2]).value] + rest)
    else if s[0] as int >= 128 then None
    else
      match PercentDecode(s[1..])
      case None => None
      case Some(rest) => Some([s[0] as int] + rest)
  }

  predicate IsUpperHexDigit(c: char) {
    '0' <= c <= '9' || 'A' <= c <= 'F'
  }

  /** Only unreserved characters and triples with upper-case digits, and a triple
      only where it is needed. */
  predicate IsCanonical(s: string) {
    if s == "" then true
    else if s[0] == '%' then
      && |s| >= 3 && IsUpperHexDigit(s[1]) && IsUpperHexDigit(s[2])
      && (var b := 16 * HexDigit(s[1]).value + HexDigit(s[2]).value; b >= 128 || !IsUnreserved(b as char))
      && IsCanonical(s[3..])
    else IsUnreserved(s[0]) && IsCanonical(s[1..])
  }

  lemma ByteRoundTrip(b: Byte, rest: string)
    ensures PercentDecode(EncodeByte(b) + rest) ==
            match PercentDecode(rest) case None => None case Some(bytes) => Some([b] + bytes)
    ensures IsCanonical(EncodeByte(b) + rest) <==> IsCanonical(rest)
  {
    var s := EncodeByte(b) + rest;
    if s[0] == '%' {
      assert s[1] == UpperHex(b / 16) && s[2] == UpperHex(b % 16) && s[3..] == rest;
    } else {
      assert s[1..] == rest;
    }
  }

  /** Decoding gives back every byte sequence, and the encoder's output has the
      canonical form. */
  lemma {:induction false} PercentRoundTrip(bytes: seq<Byte>)
    ensures PercentDecode(PercentEncode(bytes)) == Some(bytes)
    ensures IsCanonical(PercentEncode(bytes))
  {
    hide PercentDecode;
    hide IsCanonical;
    if bytes == [] {
      NothingToDecode();
    } else {
      PercentRoundTrip(bytes[1..]);
      ByteRoundTrip(bytes[0], PercentEncode(bytes[1..]));
      assert [bytes[0]] + bytes[1..] == bytes;
    }
  }

  lemma NothingToDecode()
    ensures PercentDecode("") == Some([]) && IsCanonical("")
  {
  }

  lemma HexDigitBack(c: char)
    requires IsUpperHexDigit(c)
    ensures HexDigit(c).Some? && UpperHex(HexDigit(c).value) == c
  {
  }

  lemma {:induction false} CanonicalIsEncoded(s: string)
    requires IsCanonical(s)
    ensures PercentDecode(s).Some? && PercentEncode(PercentDecode(s).value) == s
  {
    if s != "" {
      var first := CanonicalFirst(s);
      var (byte, n) := first;
      hide IsCanonical;
      hide PercentEncode;
      hide PercentDecode;
      hide EncodeByte;
      CanonicalIsEncoded(s[n..]);
      ByteRoundTrip(byte, s[n..]);
      EncodesFirst(byte, PercentDecode(s[n..]).value);
    }
  }

  lemma CanonicalFirst(s: string) returns (first: (Byte, nat))
    requires s != "" && IsCanonical(s)
    ensures 0 < first.1 <= |s| && s == EncodeByte(first.0) + s[first.1..] && IsCanonical(s[first.1..])
  {
    if s[0] == '%' {
      HexDigitBack(s[1]);
      HexDigitBack(s[2]);
      first := (16 * HexDigit(s[1]).value + HexDigit(s[2]).value, 3);
    } else {
      first := (s[0] as int, 1);
    }
  }

  /** A text is the encoding of these bytes exactly when it is canonical and
      decodes to them. */
  lemma EncodingIsExact(s: string, bytes: seq<Byte>)
    ensures PercentEncode(bytes) == s <==> IsCanonical(s) && PercentDecode(s) == Some(bytes)
  {
    PercentRoundTrip(bytes);
    if IsCanonical(s) {
      CanonicalIsEncoded(s);
    }
  }

  /** Two images have the same URI only if they are the same up to white space at
      their ends. */
  lemma DataUriInjective(a: string, b: string)
    ensures DataUri(a) == DataUri(b) <==>
            Text.Trim(a, Text.IsWhiteSpace) == Text.Trim(b, Text.IsWhiteSpace)
  {
    hide Text.IsWhiteSpace;
    hide Text.Trim;
    var s, t := Text.Trim(a, Text.IsWhiteSpace), Text.Trim(b, Text.IsWhiteSpace);
    assert DataUri(a)[|PREFIX|..] == PercentEncode(Encode(s));
    assert DataUri(b)[|PREFIX|..] == PercentEncode(Encode(t));
    PercentRoundTrip(Encode(s));
    PercentRoundTrip(Encode(t));
    DecodeEncoded(s);
    DecodeEncoded(t);
  }
}
