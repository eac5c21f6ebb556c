/** Strings as the modelled programs use them: trimming, splitting at a
    separator, decimal numerals. */
module Text {

  /** Unicode White_Space: what Rust's `str::trim` removes. */
  predicate IsWhiteSpace(c: char) {
    || '\U{0009}' <= c <= '\U{000D}'
    || c == ' '
    || c == '\U{0085}'
    || c == '\U{00A0}'
    || c == '\U{1680}'
    || '\U{2000}' <= c <= '\U{200A}'
    || c == '\U{2028}' || c == '\U{2029}' || c == '\U{202F}' || c == '\U{205F}'
    || c == '\U{3000}'
  }

  /** The 25 characters of the Unicode property, listed. */
  lemma WhiteSpaceListed(c: char)
    ensures IsWhiteSpace(c) <==>
            c in "\U{0009}\U{000A}\U{000B}\U{000C}\U{000D}\U{0020}\U{0085}\U{00A0}\U{1680}"
            || c in "\U{2000}\U{2001}\U{2002}\U{2003}\U{2004}\U{2005}\U{2006}\U{2007}\U{2008}\U{2009}\U{200A}"
            || c in "\U{2028}\U{2029}\U{202F}\U{205F}\U{3000}"
  {
  }

  predicate IsDigit(c: char) {
    '0' <= c <= '9'
  }

  predicate AllDigits(s: string) {
    forall i :: 0 <= i < |s| ==> IsDigit(s[i])
  }

  function TrimStart(s: string, space: char -> bool): (t: string)
    ensures |t| <= |s| && t == s[|s| - |t|..]
    ensures t != [] ==> !space(t[0])
  {
    if s != [] && space(s[0]) then TrimStart(s[1..], space) else s
  }

  function TrimEnd(s: string, space: char -> bool): (t: string)
    ensures |t| <= |s| && t == s[..|t|]
    ensures t != [] ==> !space(t[|t| - 1])
  {
    if s != [] && space(s[|s| - 1]) then TrimEnd(s[..|s| - 1], space) else s
  }

  function Trim(s: string, space: char -> bool): string {
    TrimEnd(TrimStart(s, space), space)
  }

  /** A string that neither starts nor ends with a space is left alone. */
  lemma TrimKeeps(s: string, space: char -> bool)
    requires s == [] || (!space(s[0]) && !space(s[|s| - 1]))
    ensures Trim(s, space) == s
  {
  }

  predicate IsBlank(s: string, space: char -> bool) {
    forall i :: 0 <= i < |s| ==> space(s[i])
  }

  lemma {:induction false} TrimBlankStart(before: string, s: string, space: char -> bool)
    requires IsBlank(before, space) && s != [] && !space(s[0])
    ensures TrimStart(before + s, space) == s
  {
    var t := before + s;
    if before == [] {
      assert t == s;
    } else {
      assert t[1..] == before[1..] + s;
      TrimBlankStart(before[1..], s, space);
    }
  }

  lemma {:induction false} TrimBlankEnd(s: string, after: string, space: char -> bool)
    requires IsBlank(after, space) && s != [] && !space(s[|s| - 1])
    ensures TrimEnd(s + after, space) == s
  {
    var t := s + after;
    if after == [] {
      assert t == s;
    } else {
      assert t[..|t| - 1] == s + after[..|after| - 1];
      TrimBlankEnd(s, after[..|after| - 1], space);
    }
  }

  lemma TrimBlanks(before: string, s: string, after: string, space: char -> bool)
    requires IsBlank(before, space) && IsBlank(after, space)
    requires s != [] && !space(s[0]) && !space(s[|s| - 1])
    ensures Trim(before + s + after, space) == s
  {
    assert before + s + after == before + (s + after);
    TrimBlankStart(before, s + after, space);
    TrimBlankEnd(s, after, space);
  }

  lemma ThreePieces(s: string, a: string, t: string)
    requires |t| <= |a| <= |s| && a == s[|s| - |a|..] && t == a[..|t|]
    ensures s == s[..|s| - |a|] + t + a[|t|..]
  {
  }

  lemma BlankEnds(s: string, space: char -> bool) returns (before: string, after: string)
    ensures IsBlank(before, space) && IsBlank(after, space)
    ensures s == before + Trim(s, space) + after
  {
    var a := TrimStart(s, space);
    var t := TrimEnd(a, space);
    TrimmedStartIsBlank(s, space);
    TrimmedEndIsBlank(a, space);
    before, after := s[..|s| - |a|], a[|t|..];
    ThreePieces(s, a, t);
  }

  lemma TrimmedStartIsBlank(s: string, space: char -> bool)
    ensures IsBlank(s[..|s| - |TrimStart(s, space)|], space)
  {
    if s != [] && space(s[0]) {
      TrimmedStartIsBlank(s[1..], space);
      var n := |s| - |TrimStart(s, space)|;
      assert s[..n] == [s[0]] + s[1..][..n - 1];
    }
  }

  lemma TrimmedEndIsBlank(s: string, space: char -> bool)
    ensures IsBlank(s[|TrimEnd(s, space)|..], space)
  {
    if s != [] && space(s[|s| - 1]) {
      var u := s[..|s| - 1];
      TrimmedEndIsBlank(u, space);
      var n := |TrimEnd(s, space)|;
      assert s[n..] == u[n..] + [s[|s| - 1]];
    }
  }

  // ---------- separators ----------

  /** First position of `sep` in `s`, or |s|. */
  function Find(s: string, sep: char): (i: nat)
    ensures i <= |s|
    ensures i < |s| ==> s[i] == sep
    ensures sep !in s[..i]
  {
    if s == [] || s[0] == sep then 0
    else
      var r := 1 + Find(s[1..], sep);
      assert s[..r] == [s[0]] + s[1..][..r - 1];
      r
  }

  lemma FindIs(s: string, sep: char, i: nat)
    requires i <= |s| && sep !in s[..i]
    requires i == |s| || s[i] == sep
    ensures Find(s, sep) == i
  {
  }

  /** The pieces between separators; always at least one piece. */
  function Split(s: string, sep: char): (parts: seq<string>)
    ensures |parts| > 0
    decreases |s|
  {
    var i := Find(s, sep);
    if i == |s| then [s] else [s[..i]] + Split(s[i + 1..], sep)
  }

  function Join(parts: seq<string>, sep: char): string {
    if parts == [] then ""
    else if |parts| == 1 then parts[0]
    else parts[0] + [sep] + Join(parts[1..], sep)
  }

  /** Splitting undoes joining, for pieces without the separator. */
  lemma {:induction false} SplitJoin(parts: seq<string>, sep: char)
    requires |parts| > 0
    requires forall i :: 0 <= i < |parts| ==> sep !in parts[i]
    ensures Split(Join(parts, sep), sep) == parts
  {
    var s := Join(parts, sep);
    if |parts| == 1 {
      assert s[..|s|] == s;
      FindIs(s, sep, |s|);
    } else {
      assert s[..|parts[0]|] == parts[0];
      FindIs(s, sep, |parts[0]|);
      assert s[|parts[0]| + 1..] == Join(parts[1..], sep);
      SplitJoin(parts[1..], sep);
    }
  }

  lemma SplitFirst(s: string, sep: char)
    ensures var i := Find(s, sep); Split(s, sep) == if i == |s| then [s] else [s[..i]] + Split(s[i + 1..], sep)
  {
  }

  lemma JoinFirst(part: string, rest: seq<string>, sep: char)
    requires rest != []
    ensures Join([part] + rest, sep) == part + [sep] + Join(rest, sep)
  {
    assert ([part] + rest)[1..] == rest;
  }

  /** Joining undoes splitting. */
  lemma {:induction false} JoinSplit(s: string, sep: char)
    ensures Join(Split(s, sep), sep) == s
    decreases |s|
  {
    hide Split;
    hide Join;
    var i := Find(s, sep);
    SplitFirst(s, sep);
    if i < |s| {
      JoinSplit(s[i + 1..], sep);
      JoinFirst(s[..i], Split(s[i + 1..], sep), sep);
      assert s == s[..i] + [sep] + s[i + 1..];
    } else {
      JoinOne(s, sep);
    }
  }

  lemma JoinOne(part: string, sep: char)
    ensures Join([part], sep) == part
  {
  }

  // ---------- decimal numerals ----------

  function DigitChar(d: nat): (c: char)
    requires d < 10
    ensures IsDigit(c) && DigitValue(c) == d
  {
    ('0' as int + d) as char
  }

  function DigitValue(c: char): (d: nat)
    requires IsDigit(c)
    ensures d < 10
  {
    c as int - '0' as int
  }

  /** The value of a string of decimal digits (0 for the empty string). */
  function DecimalValue(s: string): nat
    requires AllDigits(s)
  {
    if s == [] then 0 else 10 * DecimalValue(s[..|s| - 1]) + DigitValue(s[|s| - 1])
  }

  /** The shortest decimal numeral of n. */
  function Decimal(n: nat): (s: string)
    ensures |s| > 0 && AllDigits(s)
  {
    if n < 10 then [DigitChar(n)] else Decimal(n / 10) + [DigitChar(n % 10)]
  }

  /** Reading a printed number gives the number back, and numerals above 0 have
      no leading zero. */
  lemma {:induction false} DecimalRoundTrip(n: nat)
    ensures DecimalValue(Decimal(n)) == n
    ensures n > 0 ==> Decimal(n)[0] != '0'
  {
    var s := Decimal(n);
    if n < 10 {
      assert s[..0] == [];
    } else {
      DecimalRoundTrip(n / 10);
      assert s[..|s| - 1] == Decimal(n / 10);
    }
  }

  lemma DecimalInjective(a: nat, b: nat)
    requires Decimal(a) == Decimal(b)
    ensures a == b
  {
    DecimalRoundTrip(a);
    DecimalRoundTrip(b);
  }

  // ---------- ASCII case ----------

  function Lower(c: char): char {
    if 'A' <= c <= 'Z' then (c as int + 32) as char else c
  }

  /** Case is that of the 26 ASCII letters; nothing else has one. */
  lemma LowerIs(c: char)
    ensures if 'A' <= c <= 'Z' then Lower(c) as int - 'a' as int == c as int - 'A' as int else Lower(c) == c
  {
  }

  function LowerAll(s: string): (t: string)
    ensures |t| == |s|
    ensures forall i :: 0 <= i < |s| ==> t[i] == Lower(s[i])
  {
    seq(|s|, i requires 0 <= i < |s| => Lower(s[i]))
  }
}
