/** Server addresses (session.rs, `normalize_origin`): an absolute http(s)
    origin `scheme://host[:port][/]`, printed in the ASCII serialization of an
    origin (section 6.2 of RFC 6454). */
module Origin {
  import opened Wrappers
  import opened Text

  datatype Scheme = Http | Https

  /** What an address denotes: host in lower case, port the effective one. */
  datatype Origin = Origin(scheme: Scheme, host: string, port: nat)

  const MAX_PORT := 65535

  function SchemeName(scheme: Scheme): string {
    match scheme
    case Http => "http"
    case Https => "https"
  }

  function DefaultPort(scheme: Scheme): nat {
    match scheme
    case Http => 80
    case Https => 443
  }

  // ---------- hosts ----------

  predicate IsHostChar(c: char) {
    'a' <= c <= 'z' || IsDigit(c) || c == '-' || c == '_' || c == '.'
  }

  predicate IsHexDigit(c: char) {
    IsDigit(c) || 'a' <= c <= 'f'
  }

  /** A last label the URL standard would read as an IPv4 number. */
  predicate IsNumber(part: string) {
    || AllDigits(part)
    || (|part| >= 2 && part[..2] == "0x" && forall i :: 2 <= i < |part| ==> IsHexDigit(part[i]))
  }

  predicate IsOctet(part: string) {
    part != [] && AllDigits(part) && DecimalValue(part) <= 255 && Decimal(DecimalValue(part)) == part
  }

  /** Lower-case host names without empty or punycode labels, and dotted quads
      in their canonical form. */
  predicate IsHost(host: string) {
    var labels := Split(host, '.');
    && (forall i :: 0 <= i < |host| ==> IsHostChar(host[i]))
    && (forall i :: 0 <= i < |labels| ==> labels[i] != [] && !("xn--" <= labels[i]))
    && (IsNumber(labels[|labels| - 1]) ==>
          |labels| == 4 && forall i :: 0 <= i < |labels| ==> IsOctet(labels[i]))
  }

  predicate IsOrigin(o: Origin) {
    IsHost(o.host) && o.port <= MAX_PORT
  }

  lemma HostIsPlain(host: string)
    requires forall i :: 0 <= i < |host| ==> IsHostChar(host[i])
    ensures LowerAll(host) == host
    ensures ':' !in host && '/' !in host
  {
  }

  lemma HostIsNotEmpty(host: string)
    requires IsHost(host)
    ensures host != []
  {
    var labels := Split(host, '.');
    assert labels[0] != [];
  }

  // ---------- parsing ----------

  function ParseScheme(name: string): Option<Scheme> {
    var lower := LowerAll(name);
    if lower == "http" then Some(Http)
    else if lower == "https" then Some(Https)
    else None
  }

  /** The text after the host: nothing, or ':' and a possibly empty numeral. */
  function ParsePort(text: string, scheme: Scheme): Option<nat>
    requires text == [] || text[0] == ':'
  {
    if |text| <= 1 then Some(DefaultPort(scheme))
    else if AllDigits(text[1..]) && DecimalValue(text[1..]) <= MAX_PORT then Some(DecimalValue(text[1..]))
    else None
  }

  function ParseAuthority(scheme: Scheme, authority: string): Option<Origin> {
    var colon := Find(authority, ':');
    var host := LowerAll(authority[..colon]);
    match ParsePort(authority[colon..], scheme)
    case None => None
    case Some(port) => if IsHost(host) then Some(Origin(scheme, host, port)) else None
  }

  /** The part between "://" and the optional final slash. */
  function ParseRest(scheme: Scheme, rest: string): Option<Origin> {
    var slash := Find(rest, '/');
    if rest[slash..] != "" && rest[slash..] != "/" then None
    else ParseAuthority(scheme, rest[..slash])
  }

  predicate HasAt(s: string, i: nat, text: string) {
    i + |text| <= |s| && s[i..i + |text|] == text
  }

  function ParseTrimmed(s: string): Option<Origin> {
    var colon := Find(s, ':');
    if !HasAt(s, colon, "://") then None
    else
      match ParseScheme(s[..colon])
      case None => None
      case Some(scheme) => ParseRest(scheme, s[colon + 3..])
  }

  function Parse(raw: string): Option<Origin> {
    ParseTrimmed(Trim(raw, IsWhiteSpace))
  }

  // ---------- printing ----------

  function Print(o: Origin): string {
    SchemeName(o.scheme) + "://" + o.host
      + (if o.port == DefaultPort(o.scheme) then "" else ":" + Decimal(o.port))
  }

  function Normalize(raw: string): Option<string> {
    match Parse(raw)
    case None => None
    case Some(o) => Some(Print(o))
  }

  // ---------- what the parser accepts ----------

  /** One way of writing an address. */
  datatype Spelling = Spelling(
    before: string, scheme: string, host: string, port: Option<string>, slash: bool, after: string)

  function Spell(w: Spelling): string {
    w.before + Core(w) + w.after
  }

  function Core(w: Spelling): string {
    w.scheme + "://" + w.host + PortText(w) + (if w.slash then "/" else "")
  }

  function PortText(w: Spelling): string {
    match w.port
    case None => ""
    case Some(text) => ":" + text
  }

  /** The spelling denotes the origin: surrounding white space and one final
      slash are ignored, scheme and host are case-insensitive, and a missing or
      empty port is the scheme's default. */
  predicate Denotes(w: Spelling, o: Origin) {
    && IsBlank(w.before, IsWhiteSpace) && IsBlank(w.after, IsWhiteSpace)
    && LowerAll(w.scheme) == (if o.scheme == Http then "http" else "https")
    && LowerAll(w.host) == o.host
    && IsHost(o.host)
    && match w.port
       case None => o.port == (if o.scheme == Http then 80 else 443)
       case Some(text) =>
         && AllDigits(text)
         && o.port == (if text != [] then DecimalValue(text) else if o.scheme == Http then 80 else 443)
         && o.port <= 65535
  }

  lemma SchemeLetters(name: string, scheme: Scheme)
    requires LowerAll(name) == SchemeName(scheme)
    ensures |name| > 0 && ':' !in name && !IsWhiteSpace(name[0])
    ensures ParseScheme(name) == Some(scheme)
  {
    forall i | 0 <= i < |name| ensures name[i] != ':' && !IsWhiteSpace(name[i]) {
      assert Lower(name[i]) == SchemeName(scheme)[i];
      assert 'a' <= SchemeName(scheme)[i] <= 'z';
    }
  }

  lemma HostLetters(spelled: string, host: string)
    requires LowerAll(spelled) == host && IsHost(host)
    ensures |spelled| > 0
    ensures forall i :: 0 <= i < |spelled| ==> spelled[i] != ':' && spelled[i] != '/' && !IsWhiteSpace(spelled[i])
  {
    HostIsNotEmpty(host);
    forall i | 0 <= i < |spelled|
      ensures spelled[i] != ':' && spelled[i] != '/' && !IsWhiteSpace(spelled[i])
    {
      assert Lower(spelled[i]) == host[i];
      assert IsHostChar(host[i]);
    }
  }

  lemma ParsesAuthority(w: Spelling, o: Origin)
    requires Denotes(w, o)
    ensures ParseAuthority(o.scheme, w.host + PortText(w)) == Some(o)
  {
    var authority := w.host + PortText(w);
    HostLetters(w.host, o.host);
    assert authority[..|w.host|] == w.host;
    FindIs(authority, ':', |w.host|);
    assert authority[|w.host|..] == PortText(w);
  }

  lemma CoreIs(w: Spelling, rest: string)
    requires rest == w.host + PortText(w) + (if w.slash then "/" else "")
    ensures Core(w) == w.scheme + "://" + rest
  {
  }

  lemma RestEnd(w: Spelling, o: Origin)
    requires Denotes(w, o)
    ensures var rest := w.host + PortText(w) + (if w.slash then "/" else "");
            rest != [] && !IsWhiteSpace(rest[|rest| - 1])
  {
    HostLetters(w.host, o.host);
  }

  lemma CoreEnds(w: Spelling, o: Origin)
    requires Denotes(w, o)
    ensures Core(w) != [] && !IsWhiteSpace(Core(w)[0]) && !IsWhiteSpace(Core(w)[|Core(w)| - 1])
  {
    var rest := w.host + PortText(w) + (if w.slash then "/" else "");
    SchemeLetters(w.scheme, o.scheme);
    RestEnd(w, o);
    CoreIs(w, rest);
    assert (w.scheme + "://" + rest)[0] == w.scheme[0];
  }

  lemma ParsesRest(w: Spelling, o: Origin)
    requires Denotes(w, o)
    ensures ParseRest(o.scheme, w.host + PortText(w) + (if w.slash then "/" else "")) == Some(o)
  {
    var authority := w.host + PortText(w);
    var rest := authority + (if w.slash then "/" else "");
    HostLetters(w.host, o.host);
    assert '/' !in authority;
    assert rest[..|authority|] == authority;
    FindIs(rest, '/', |authority|);
    ParsesAuthority(w, o);
  }

  lemma ParseAfterScheme(name: string, scheme: Scheme, rest: string)
    requires ':' !in name && ParseScheme(name) == Some(scheme)
    ensures ParseTrimmed(name + "://" + rest) == ParseRest(scheme, rest)
  {
    var s := name + "://" + rest;
    assert s[..|name|] == name;
    FindIs(s, ':', |name|);
    assert s[|name|..|name| + 3] == "://";
    assert s[|name| + 3..] == rest;
  }

  lemma ParsesCore(w: Spelling, o: Origin)
    requires Denotes(w, o)
    ensures ParseTrimmed(Core(w)) == Some(o)
  {
    var rest := w.host + PortText(w) + (if w.slash then "/" else "");
    SchemeLetters(w.scheme, o.scheme);
    ParseAfterScheme(w.scheme, o.scheme, rest);
    ParsesRest(w, o);
    CoreIs(w, rest);
  }

  lemma SpellingParses(w: Spelling, o: Origin)
    requires Denotes(w, o)
    ensures Parse(Spell(w)) == Some(o)
  {
    CoreEnds(w, o);
    TrimBlanks(w.before, Core(w), w.after, IsWhiteSpace);
    ParsesCore(w, o);
  }

  lemma AuthorityHasSpelling(scheme: Scheme, authority: string, o: Origin) returns (host: string, port: Option<string>)
    requires ParseAuthority(scheme, authority) == Some(o)
    ensures forall name, slash ::
              LowerAll(name) == SchemeName(scheme) ==> Denotes(Spelling("", name, host, port, slash, ""), o)
    ensures authority == host + (match port case None => "" case Some(text) => ":" + text)
  {
    var portAt := Find(authority, ':');
    host := authority[..portAt];
    port := if portAt == |authority| then None else Some(authority[portAt + 1..]);
  }

  lemma SchemeBeforeRest(s: string) returns (name: string, scheme: Scheme, rest: string)
    requires ParseTrimmed(s).Some?
    ensures s == name + "://" + rest && LowerAll(name) == SchemeName(scheme)
    ensures ParseTrimmed(s) == ParseRest(scheme, rest)
  {
    var colon := Find(s, ':');
    name, rest := s[..colon], s[colon + 3..];
    scheme := ParseScheme(name).value;
    assert s == s[..colon] + s[colon..colon + 3] + s[colon + 3..];
  }

  lemma RestHasSpelling(scheme: Scheme, rest: string, o: Origin)
    returns (host: string, port: Option<string>, slash: bool)
    requires ParseRest(scheme, rest) == Some(o)
    ensures forall name ::
              LowerAll(name) == SchemeName(scheme) ==> Denotes(Spelling("", name, host, port, slash, ""), o)
    ensures rest == host + (match port case None => "" case Some(text) => ":" + text) + (if slash then "/" else "")
  {
    var at := Find(rest, '/');
    host, port := AuthorityHasSpelling(scheme, rest[..at], o);
    slash := rest[at..] == "/";
    assert rest == rest[..at] + rest[at..];
  }

  lemma TrimmedHasSpelling(s: string, o: Origin) returns (w: Spelling)
    requires ParseTrimmed(s) == Some(o)
    ensures w.before == w.after == "" && Core(w) == s && Denotes(w, o)
  {
    var name, scheme, rest := SchemeBeforeRest(s);
    var host, port, slash := RestHasSpelling(scheme, rest, o);
    w := Spelling("", name, host, port, slash, "");
    CoreIs(w, rest);
  }

  lemma ParsedHasSpelling(raw: string, o: Origin)
    requires Parse(raw) == Some(o)
    ensures exists w :: Spell(w) == raw && Denotes(w, o)
  {
    var before, after := BlankEnds(raw, IsWhiteSpace);
    var s := Trim(raw, IsWhiteSpace);
    var core := TrimmedHasSpelling(s, o);
    var w := core.(before := before, after := after);
    assert Core(w) == Core(core) by {
      assert PortText(w) == PortText(core);
    }
    assert Spell(w) == raw && Denotes(w, o);
  }

  /** The parser accepts exactly the spellings, with exactly their meaning. */
  lemma ParseIsExact(raw: string, o: Origin)
    ensures Parse(raw) == Some(o) <==> exists w :: Spell(w) == raw && Denotes(w, o)
  {
    if Parse(raw) == Some(o) {
      ParsedHasSpelling(raw, o);
    }
    if w :| Spell(w) == raw && Denotes(w, o) {
      SpellingParses(w, o);
    }
  }

  // ---------- printing and parsing ----------

  function Canonical(o: Origin): Spelling {
    var port := if o.port == DefaultPort(o.scheme) then None else Some(Decimal(o.port));
    Spelling("", SchemeName(o.scheme), o.host, port, false, "")
  }

  lemma CanonicalDenotes(o: Origin)
    requires IsOrigin(o)
    ensures Denotes(Canonical(o), o)
  {
    HostIsPlain(o.host);
    DecimalRoundTrip(o.port);
    assert LowerAll(SchemeName(o.scheme)) == SchemeName(o.scheme);
  }

  lemma CanonicalSpells(o: Origin)
    ensures Spell(Canonical(o)) == Print(o)
  {
  }

  /** Parsing a printed origin gives the same scheme, host and port. */
  lemma ParsePrint(o: Origin)
    requires IsOrigin(o)
    ensures Parse(Print(o)) == Some(o)
  {
    CanonicalDenotes(o);
    CanonicalSpells(o);
    SpellingParses(Canonical(o), o);
  }

  lemma ParsedIsOrigin(raw: string)
    ensures Parse(raw).Some? ==> IsOrigin(Parse(raw).value)
  {
  }

  /** A normal form is its own normal form, and is never the account name of
      the local server. */
  lemma NormalizeIdempotent(raw: string)
    ensures match Normalize(raw)
            case None => true
            case Some(t) => Normalize(t) == Some(t) && t != "local"
  {
    hide Parse;
    match Parse(raw)
    case None =>
    case Some(o) =>
      ParsedIsOrigin(raw);
      ParsePrint(o);
      assert Print(o)[0] == 'h';
  }

  // ---------- normal forms, written out ----------

  /** Characters that would start another part of an address. */
  predicate IsReserved(c: char) {
    c == '@' || c == '?' || c == '#' || c == '\\' || c == '%' || c == '[' || c == ']'
  }

  lemma LettersArePlain(spelled: string, name: string, c: char)
    requires LowerAll(spelled) == name && IsReserved(c)
    requires forall i :: 0 <= i < |name| ==> IsHostChar(name[i])
    ensures c !in spelled
  {
    forall i | 0 <= i < |spelled| ensures spelled[i] != c {
      assert Lower(spelled[i]) == name[i];
      assert IsHostChar(name[i]);
    }
  }

  lemma BlanksArePlain(s: string, c: char)
    requires IsBlank(s, IsWhiteSpace) && IsReserved(c)
    ensures c !in s
  {
  }

  lemma PortIsPlain(w: Spelling, c: char)
    requires w.port.Some? ==> AllDigits(w.port.value)
    requires IsReserved(c)
    ensures c !in PortText(w)
  {
  }

  lemma SpellingIsPlain(w: Spelling, o: Origin, c: char)
    requires Denotes(w, o) && IsReserved(c)
    ensures c !in Spell(w)
  {
    LettersArePlain(w.scheme, if o.scheme == Http then "http" else "https", c);
    LettersArePlain(w.host, o.host, c);
    BlanksArePlain(w.before, c);
    BlanksArePlain(w.after, c);
    PortIsPlain(w, c);
    hide Denotes;
    hide PortText;
  }

  /** No user name, query, fragment or encoded character gets through. */
  lemma PlainOriginsOnly(raw: string, c: char)
    requires Normalize(raw).Some?
    requires c == '@' || c == '?' || c == '#' || c == '\\' || c == '%' || c == '[' || c == ']'
    ensures c !in raw
  {
    hide Denotes;
    hide Spell;
    var o := Parse(raw).value;
    hide Parse;
    ParsedHasSpelling(raw, o);
    var w :| Spell(w) == raw && Denotes(w, o);
    SpellingIsPlain(w, o, c);
  }

  lemma LowerSchemes()
    ensures LowerAll("http") == "http" && LowerAll("https") == "https"
  {
  }

  lemma SpellPort(name: string, h: string, port: string)
    ensures Spell(Spelling("", name, h, Some(port), false, "")) == name + "://" + h + ":" + port
  {
    assert name + "://" + h + (":" + port) + "" == name + "://" + h + ":" + port;
    assert "" + (name + "://" + h + ":" + port) + "" == name + "://" + h + ":" + port;
  }

  lemma PortDenotes(scheme: Scheme, h: string, n: nat)
    requires IsHost(h) && n <= 65535
    ensures var name := if scheme == Http then "http" else "https";
            Denotes(Spelling("", name, h, Some(Decimal(n)), false, ""), Origin(scheme, h, n))
  {
    hide Decimal;
    hide DecimalValue;
    HostIsPlain(h);
    hide IsHost;
    LowerSchemes();
    DecimalRoundTrip(n);
    hide LowerAll;
  }

  lemma SpelledPort(scheme: Scheme, h: string, n: nat)
    requires IsHost(h) && n <= 65535
    ensures Parse((if scheme == Http then "http" else "https") + "://" + h + ":" + Decimal(n)) ==
            Some(Origin(scheme, h, n))
  {
    hide Parse;
    hide Decimal;
    hide Denotes;
    hide IsHost;
    hide Spell;
    var name := if scheme == Http then "http" else "https";
    PortDenotes(scheme, h, n);
    SpellPort(name, h, Decimal(n));
    SpellingParses(Spelling("", name, h, Some(Decimal(n)), false, ""), Origin(scheme, h, n));
  }

  lemma NoPort(scheme: Scheme, h: string)
    requires IsHost(h)
    ensures Parse((if scheme == Http then "http" else "https") + "://" + h) ==
            Some(Origin(scheme, h, if scheme == Http then 80 else 443))
  {
    hide Parse;
    var name := if scheme == Http then "http" else "https";
    var w := Spelling("", name, h, None, false, "");
    HostIsPlain(h);
    hide IsHost;
    LowerSchemes();
    assert Denotes(w, Origin(scheme, h, if scheme == Http then 80 else 443));
    hide Denotes;
    SpellingParses(w, Origin(scheme, h, if scheme == Http then 80 else 443));
    assert Spell(w) == name + "://" + h;
  }

  /** A port is dropped exactly if it is 80 after http and 443 after https; every other
      one stays, and with it the address as it is. */
  lemma DefaultPortsAreDropped(h: string, n: nat)
    requires IsHost(h) && n <= 65535
    ensures Normalize("http://" + h + ":" + Decimal(n)) ==
            Some(if n == 80 then "http://" + h else "http://" + h + ":" + Decimal(n))
    ensures Normalize("https://" + h + ":" + Decimal(n)) ==
            Some(if n == 443 then "https://" + h else "https://" + h + ":" + Decimal(n))
    ensures Normalize("http://" + h) == Some("http://" + h)
    ensures Normalize("https://" + h) == Some("https://" + h)
  {
    hide Parse;
    hide IsHost;
    hide Decimal;
    SpelledPort(Http, h, n);
    SpelledPort(Https, h, n);
    NoPort(Http, h);
    NoPort(Https, h);
    assert "http" + "://" == "http://" && "https" + "://" == "https://";
    assert "http://" + h + "" == "http://" + h && "https://" + h + "" == "https://" + h;
    assert "http://" + h + (":" + Decimal(n)) == "http://" + h + ":" + Decimal(n);
    assert "https://" + h + (":" + Decimal(n)) == "https://" + h + ":" + Decimal(n);
  }

  /** Labels of lower-case letters, digits, '-' and '_', the last of which starts with
      a letter and none with "xn--", make a host. */
  lemma HostNames(labels: seq<string>)
    requires labels != []
    requires forall i, j :: 0 <= i < |labels| && 0 <= j < |labels[i]| ==>
               var c := labels[i][j]; 'a' <= c <= 'z' || '0' <= c <= '9' || c == '-' || c == '_'
    requires forall i :: 0 <= i < |labels| ==> labels[i] != "" && !("xn--" <= labels[i])
    requires 'a' <= labels[|labels| - 1][0] <= 'z'
    ensures IsHost(Join(labels, '.'))
  {
    hide IsNumber;
    hide IsOctet;
    hide Join;
    hide Split;
    StartsWithLetter(labels[|labels| - 1]);
    LabelsMakeHost(labels);
  }

  lemma StartsWithLetter(part: string)
    requires part != "" && 'a' <= part[0] <= 'z'
    ensures !IsNumber(part)
  {
  }

  lemma LabelsMakeHost(labels: seq<string>)
    requires labels != []
    requires forall i, j :: 0 <= i < |labels| && 0 <= j < |labels[i]| ==>
               labels[i][j] != '.' && IsHostChar(labels[i][j])
    requires forall i :: 0 <= i < |labels| ==> labels[i] != "" && !("xn--" <= labels[i])
    requires !IsNumber(labels[|labels| - 1])
    ensures IsHost(Join(labels, '.'))
  {
    hide IsNumber;
    hide IsOctet;
    SplitJoin(labels, '.');
    JoinedChars(labels);
    hide Join;
    hide Split;
    hide IsHostChar;
  }

  lemma {:induction false} JoinedChars(labels: seq<string>)
    requires forall i, j :: 0 <= i < |labels| && 0 <= j < |labels[i]| ==> IsHostChar(labels[i][j])
    ensures forall i :: 0 <= i < |Join(labels, '.')| ==> IsHostChar(Join(labels, '.')[i])
  {
    if |labels| > 1 {
      JoinedChars(labels[1..]);
    }
  }

  lemma OctetIs(n: nat)
    ensures IsOctet(Decimal(n)) <==> n <= 255
    ensures IsNumber(Decimal(n)) && Decimal(n) != "" && !("xn--" <= Decimal(n))
  {
    DecimalRoundTrip(n);
    hide Decimal;
    assert IsDigit(Decimal(n)[0]);
    assert "xn--"[0] == 'x';
  }

  lemma DigitsAreHostChars(s: string)
    requires AllDigits(s)
    ensures '.' !in s && forall i :: 0 <= i < |s| ==> IsHostChar(s[i])
  {
  }

  lemma NumbersAreHost(labels: seq<string>)
    requires |labels| == 4
    requires forall i, j :: 0 <= i < 4 && 0 <= j < |labels[i]| ==> labels[i][j] != '.' && IsHostChar(labels[i][j])
    requires forall i :: 0 <= i < 4 ==> IsNumber(labels[i]) && labels[i] != "" && !("xn--" <= labels[i])
    ensures IsHost(Join(labels, '.')) <==> forall i :: 0 <= i < 4 ==> IsOctet(labels[i])
  {
    hide IsNumber;
    hide IsOctet;
    SplitJoin(labels, '.');
    JoinedChars(labels);
    hide Join;
    hide Split;
    hide IsHostChar;
  }

  /** Four numbers between dots make a host exactly if none exceeds 255. */
  lemma Quads(a: nat, b: nat, c: nat, d: nat)
    ensures IsHost(Join([Decimal(a), Decimal(b), Decimal(c), Decimal(d)], '.')) <==>
            a <= 255 && b <= 255 && c <= 255 && d <= 255
  {
    hide IsNumber;
    hide IsOctet;
    hide Decimal;
    hide IsHostChar;
    hide IsHost;
    hide Join;
    var numbers := [a, b, c, d];
    var labels := [Decimal(a), Decimal(b), Decimal(c), Decimal(d)];
    forall i | 0 <= i < 4
      ensures IsNumber(labels[i]) && labels[i] != "" && !("xn--" <= labels[i])
      ensures IsOctet(labels[i]) <==> numbers[i] <= 255
      ensures forall j :: 0 <= j < |labels[i]| ==> labels[i][j] != '.' && IsHostChar(labels[i][j])
    {
      assert labels[i] == Decimal(numbers[i]);
      OctetIs(numbers[i]);
      DigitsAreHostChars(labels[i]);
    }
    NumbersAreHost(labels);
    assert IsOctet(labels[0]) <==> a <= 255;
    assert IsOctet(labels[1]) <==> b <= 255;
    assert IsOctet(labels[2]) <==> c <= 255;
    assert IsOctet(labels[3]) <==> d <= 255;
  }

  /** Two addresses have the same normal form exactly when both are refused, or
      scheme, host and effective port agree. */
  lemma SameNormalForm(a: string, b: string)
    ensures Normalize(a) == Normalize(b) <==> Parse(a) == Parse(b)
  {
    hide Parse;
    hide Print;
    ParsedIsOrigin(a);
    ParsedIsOrigin(b);
    if Parse(a).Some? && Parse(b).Some? {
      ParsePrint(Parse(a).value);
      ParsePrint(Parse(b).value);
    }
  }
}
