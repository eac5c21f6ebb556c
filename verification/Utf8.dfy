/** UTF-8 (section 3 of RFC 3629): the bytes of a string, and the strictly
    checked way back, as `str::bytes` and `str::from_utf8` do them. */
module Utf8s {
  import opened Wrappers

  type Byte = b: int | 0 <= b < 256

  /** A byte that continues a sequence: six bits of the character. */
  function Six(v: nat): Byte {
    0x80 + v % 64
  }

  function EncodeChar(c: char): (bytes: seq<Byte>)
    ensures 1 <= |bytes| <= 4
  {
    var v := c as int;
    if v < 0x80 then [v]
    else if v < 0x800 then [0xC0 + v / 64, Six(v)]
    else if v < 0x1_0000 then [0xE0 + v / 64 / 64, Six(v / 64), Six(v)]
    else [0xF0 + v / 64 / 64 / 64, Six(v / 64 / 64), Six(v / 64), Six(v)]
  }

  function Encode(s: string): seq<Byte> {
    if s == [] then [] else EncodeChar(s[0]) + Encode(s[1..])
  }

  /** One character of each length: U+0041, U+00E9, U+20AC, U+1F600. */
  lemma KnownEncodings()
    ensures EncodeChar('A') == [0x41] && EncodeChar('\U{00E9}') == [0xC3, 0xA9]
    ensures EncodeChar('\U{20AC}') == [0xE2, 0x82, 0xAC] && EncodeChar('\U{1F600}') == [0xF0, 0x9F, 0x98, 0x80]
  {
  }

  predicate IsContinuation(b: Byte) {
    0x80 <= b < 0xC0
  }

  predicate IsScalar(v: int) {
    0 <= v < 0xD800 || 0xE000 <= v < 0x11_0000
  }

  /** Six more bits. */
  function Push(high: nat, b: Byte): nat
    requires IsContinuation(b)
  {
    64 * high + (b as int - 0x80)
  }

  lemma PushSix(v: nat)
    ensures IsContinuation(Six(v)) && Push(v / 64, Six(v)) == v
  {
  }

  lemma SixPushed(high: nat, b: Byte)
    requires IsContinuation(b)
    ensures Push(high, b) / 64 == high && Six(Push(high, b)) == b
  {
  }

  function Two(a: Byte, b: Byte): nat
    requires 0xC0 <= a < 0xE0 && IsContinuation(b)
  {
    Push(a - 0xC0, b)
  }

  function Three(a: Byte, b: Byte, c: Byte): nat
    requires 0xE0 <= a < 0xF0 && IsContinuation(b) && IsContinuation(c)
  {
    Push(Push(a - 0xE0, b), c)
  }

  function Four(a: Byte, b: Byte, c: Byte, d: Byte): nat
    requires 0xF0 <= a < 0xF8 && IsContinuation(b) && IsContinuation(c) && IsContinuation(d)
  {
    Push(Push(Push(a - 0xF0, b), c), d)
  }

  /** The first character and its length in bytes; None if the bytes do not start
      with a well-formed, shortest sequence. */
  function FirstChar(b: seq<Byte>): (r: Option<(char, nat)>)
    ensures r.Some? ==> 1 <= r.value.1 <= |b|
  {
    if b == [] then None
    else if b[0] < 0x80 then Some((b[0] as char, 1))
    else if 0xC0 <= b[0] < 0xE0 && |b| >= 2 && IsContinuation(b[1]) then
      var v := Two(b[0], b[1]);
      if 0x80 <= v && IsScalar(v) then Some((v as char, 2)) else None
    else if 0xE0 <= b[0] < 0xF0 && |b| >= 3 && IsContinuation(b[1]) && IsContinuation(b[2]) then
      var v := Three(b[0], b[1], b[2]);
      if 0x800 <= v && IsScalar(v) then Some((v as char, 3)) else None
    else if 0xF0 <= b[0] < 0xF8 && |b| >= 4 && IsContinuation(b[1]) && IsContinuation(b[2]) && IsContinuation(b[3]) then
      var v := Four(b[0], b[1], b[2], b[3]);
      if 0x1_0000 <= v && IsScalar(v) then Some((v as char, 4)) else None
    else None
  }

  function Decode(b: seq<Byte>): Option<string>
    decreases |b|
  {
    if b == [] then Some("")
    else
      match FirstChar(b)
      case None => None
      case Some((c, n)) =>
        match Decode(b[n..])
        case None => None
        case Some(rest) => Some([c] + rest)
  }

  lemma FirstOfEncoded(c: char, rest: seq<Byte>)
    ensures FirstChar(EncodeChar(c) + rest) == Some((c, |EncodeChar(c)|))
  {
    var v := c as int;
    PushSix(v);
    PushSix(v / 64);
    PushSix(v / 64 / 64);
    hide Push;
    hide Six;
    var all := EncodeChar(c) + rest;
    assert forall i :: 0 <= i < |EncodeChar(c)| ==> all[i] == EncodeChar(c)[i];
  }

  lemma EncodedFirst(b: seq<Byte>)
    ensures match FirstChar(b)
            case Some((c, n)) => b[..n] == EncodeChar(c)
            case None => true
  {
    if FirstChar(b).Some? {
      match FirstChar(b).value.1
      case 1 =>
      case 2 => TwoBack(b[0], b[1]);
      case 3 => ThreeBack(b[0], b[1], b[2]);
      case 4 => FourBack(b[0], b[1], b[2], b[3]);
    }
  }

  lemma TwoBack(a: Byte, b: Byte)
    requires 0xC0 <= a < 0xE0 && IsContinuation(b) && 0x80 <= Two(a, b)
    ensures IsScalar(Two(a, b)) ==> EncodeChar(Two(a, b) as char) == [a, b]
  {
    SixPushed(a - 0xC0, b);
  }

  lemma ThreeBack(a: Byte, b: Byte, c: Byte)
    requires 0xE0 <= a < 0xF0 && IsContinuation(b) && IsContinuation(c) && 0x800 <= Three(a, b, c)
    ensures IsScalar(Three(a, b, c)) ==> EncodeChar(Three(a, b, c) as char) == [a, b, c]
  {
    SixPushed(a - 0xE0, b);
    SixPushed(Push(a - 0xE0, b), c);
    hide Six;
  }

  lemma FourBack(a: Byte, b: Byte, c: Byte, d: Byte)
    requires 0xF0 <= a < 0xF8 && IsContinuation(b) && IsContinuation(c) && IsContinuation(d)
    requires 0x1_0000 <= Four(a, b, c, d)
    ensures IsScalar(Four(a, b, c, d)) ==> EncodeChar(Four(a, b, c, d) as char) == [a, b, c, d]
  {
    SixPushed(a - 0xF0, b);
    SixPushed(Push(a - 0xF0, b), c);
    SixPushed(Push(Push(a - 0xF0, b), c), d);
    hide Six;
  }

  lemma {:induction false} DecodeEncoded(s: string)
    ensures Decode(Encode(s)) == Some(s)
  {
    if s != [] {
      var head, tail := EncodeChar(s[0]), Encode(s[1..]);
      FirstOfEncoded(s[0], tail);
      hide FirstChar;
      assert (head + tail)[|head|..] == tail;
      DecodeEncoded(s[1..]);
      assert [s[0]] + s[1..] == s;
    }
  }

  lemma {:induction false} EncodeDecoded(b: seq<Byte>)
    ensures Decode(b).Some? ==> Encode(Decode(b).value) == b
    decreases |b|
  {
    hide EncodeChar;
    if Decode(b).Some? && b != [] {
      var (c, n) := FirstChar(b).value;
      EncodedFirst(b);
      hide FirstChar;
      EncodeDecoded(b[n..]);
      assert ([c] + Decode(b[n..]).value)[1..] == Decode(b[n..]).value;
      assert b == b[..n] + b[n..];
    }
  }

  /** A string is decoded exactly from its own bytes. */
  lemma DecodeIsExact(b: seq<Byte>, s: string)
    ensures Decode(b) == Some(s) <==> Encode(s) == b
  {
    EncodeDecoded(b);
    DecodeEncoded(s);
  }

  lemma {:induction false} AsciiBytes(s: string)
    requires forall i :: 0 <= i < |s| ==> s[i] as int < 0x80
    ensures |Encode(s)| == |s| && forall i :: 0 <= i < |s| ==> Encode(s)[i] == s[i] as int
  {
    if s != [] {
      AsciiBytes(s[1..]);
    }
  }
}
