/** The page selection of the OCR services (deploy/services/tesseract/app.py and
    rapidocr/app.py, `parse_page_ranges`): "1,3-5" and the like, with Python's
    rules for white space and integers. */
module PageRanges {
  import opened Wrappers
  import opened Text

  // ---------- Python's strings and integers ----------

  /** What `str.strip` removes. */
  predicate IsPySpace(c: char) {
    IsWhiteSpace(c) || '\U{001C}' <= c <= '\U{001F}'
  }

  function Strip(s: string): string {
    Trim(s, IsPySpace)
  }

  /** Digits with single underscores between them. */
  predicate IsNumeral(s: string) {
    && s != [] && IsDigit(s[0]) && IsDigit(s[|s| - 1])
    && (forall i :: 0 <= i < |s| ==> IsDigit(s[i]) || s[i] == '_')
    && (forall i :: 0 <= i < |s| - 1 ==> IsDigit(s[i]) || IsDigit(s[i + 1]))
  }

  function DropUnderscores(s: string): (digits: string)
    requires forall i :: 0 <= i < |s| ==> IsDigit(s[i]) || s[i] == '_'
    ensures AllDigits(digits)
  {
    if s == [] then [] else (if s[0] == '_' then [] else [s[0]]) + DropUnderscores(s[1..])
  }

  /** Longer numerals are refused by `int`. */
  const MAX_DIGITS := 4300

  /** `int(text)`; None where it raises ValueError. */
  function ParseInt(text: string): Option<int> {
    ParseSigned(Trim(text, IsWhiteSpace))
  }

  function ParseSigned(t: string): Option<int> {
    var signed := t != [] && (t[0] == '+' || t[0] == '-');
    var numeral := if signed then t[1..] else t;
    if !IsNumeral(numeral) || |DropUnderscores(numeral)| > MAX_DIGITS then None
    else
      var value: int := DecimalValue(DropUnderscores(numeral));
      Some(if signed && t[0] == '-' then -value else value)
  }

  // ---------- what a selection means ----------

  /** `chunk` read as the range around its first '-', at `at`, or as one number. */
  predicate SelectsAt(chunk: string, at: nat, page: int)
    requires at <= |chunk|
  {
    if at == |chunk| then ParseInt(chunk) == Some(page)
    else
      var start, end := ParseInt(chunk[..at]), ParseInt(chunk[at + 1..]);
      start.Some? && end.Some? && start.value > 0 && (page == start.value || start.value <= page <= end.value)
  }

  /** The part asks for this page: it is its number, or the page is the start of
      a range with a positive start, or lies within the range. */
  predicate Selects(part: string, page: int) {
    SelectsAt(Strip(part), Find(Strip(part), '-'), page)
  }

  function Parts(raw: string): (parts: seq<string>)
    ensures |parts| > 0
  {
    Split(Strip(raw), ',')
  }

  predicate AnySelects(parts: seq<string>, page: int) {
    exists i :: 0 <= i < |parts| && Selects(parts[i], page)
  }

  predicate IsPage(page: int, total: int) {
    1 <= page <= total
  }

  function AllPages(total: int): (pages: set<int>)
    ensures forall page :: page in pages <==> IsPage(page, total)
  {
    set page | 1 <= page <= total && IsPage(page, total)
  }

  /** The pages of a document the selection asks for. */
  function Selected(raw: string, total: int): (pages: set<int>)
    ensures forall page :: page in pages <==> (IsPage(page, total) && AnySelects(Parts(raw), page))
  {
    set page | page in AllPages(total) && AnySelects(Parts(raw), page)
  }

  predicate IsAscending(pages: seq<int>) {
    forall i, j :: 0 <= i < j < |pages| ==> pages[i] < pages[j]
  }

  /** The members of `pages` from `from` to `to`, in ascending order. */
  function InOrder(pages: set<int>, from: int, to: int): (list: seq<int>)
    ensures IsAscending(list)
    ensures forall page :: page in list <==> (page in pages && from <= page <= to)
    decreases if from > to then 0 else to - from + 1
  {
    if from > to then []
    else
      var rest := InOrder(pages, from + 1, to);
      assert forall i :: 0 <= i < |rest| ==> rest[i] in rest;
      if from in pages then [from] + rest else rest
  }

  /** The selected pages, or all of them when none is selected. */
  function Result(raw: string, total: int): seq<int> {
    var selected := Selected(raw, total);
    InOrder(if selected == {} then AllPages(total) else selected, 1, total)
  }

  // ---------- the parser ----------

  /** One part's pages are added. */
  method AddPart(part: string, total: int, pages: set<int>) returns (more: set<int>)
    requires total > 0
    ensures forall page :: page in more <==> page in pages || (IsPage(page, total) && Selects(part, page))
  {
    hide Strip;
    hide ParseInt;
    more := pages;
    var chunk := Strip(part);
    if chunk == "" {
      EmptySelectsNothing(part);
      return;
    }
    hide Find;
    var at := Find(chunk, '-');
    if at < |chunk| {
      var start, end := ParseInt(chunk[..at]), ParseInt(chunk[at + 1..]);
      if start.None? || end.None? {
        return;
      }
      var first, last := start.value, end.value;
      if first <= 0 {
        return;
      }
      if last < first {
        last := first;
      }
      more := AddRange(first, (if last < total then last else total) + 1, pages);
      return;
    }
    var page := ParseInt(chunk);
    if page.None? {
      return;
    }
    if 1 <= page.value <= total {
      more := more + {page.value};
    }
  }

  method AddRange(start: int, stop: int, pages: set<int>) returns (more: set<int>)
    ensures forall page :: page in more <==> page in pages || start <= page < stop
  {
    more := pages;
    var page := start;
    while page < stop
      invariant start <= page && (page <= stop || page == start)
      invariant forall p :: p in more <==> p in pages || start <= p < page
    {
      more := more + {page};
      page := page + 1;
    }
  }

  lemma EmptySelectsNothing(part: string)
    requires Strip(part) == ""
    ensures forall page :: !Selects(part, page)
  {
    hide Strip;
    EmptyIsNoNumber();
    hide ParseInt;
  }

  lemma EmptyIsNoNumber()
    ensures ParseInt("") == None
  {
  }

  method ParsePageRanges(raw: string, total: int) returns (list: seq<int>)
    ensures list == Result(raw, total)
    ensures IsAscending(list)
    ensures total > 0 <==> list != []
    ensures forall page :: page in list <==>
              (IsPage(page, total) && (AnySelects(Parts(raw), page) || Selected(raw, total) == {}))
  {
    hide Selects;
    hide Strip;
    ResultIs(raw, total);
    hide Result;
    hide AllPages;
    if total <= 0 {
      return [];
    }
    var text := Strip(raw);
    if text == "" {
      BlankSelectsNothing(raw, total);
      return InOrder(AllPages(total), 1, total);
    }
    hide Split;
    hide AnySelects;
    var parts := Split(text, ',');
    var pages, i := {}, 0;
    NoPartsSelectNothing();
    assert parts[..0] == [];
    while i < |parts|
      invariant i <= |parts|
      invariant forall page :: page in pages <==> (IsPage(page, total) && AnySelects(parts[..i], page))
    {
      forall page
        ensures AnySelects(parts[..i + 1], page) <==> AnySelects(parts[..i], page) || Selects(parts[i], page)
      {
        OnePartMore(parts, i, page);
      }
      pages := AddPart(parts[i], total, pages);
      i := i + 1;
    }
    assert parts[..i] == parts == Parts(raw);
    forall page ensures page in pages <==> page in Selected(raw, total) {
      assert page in pages <==> (IsPage(page, total) && AnySelects(parts[..i], page));
      assert page in Selected(raw, total) <==> (IsPage(page, total) && AnySelects(Parts(raw), page));
    }
    assert pages == Selected(raw, total);
    return InOrder(if pages != {} then pages else AllPages(total), 1, total);
  }

  lemma NoPartsSelectNothing()
    ensures forall page :: !AnySelects([], page)
  {
  }

  lemma OnePartMore(parts: seq<string>, i: nat, page: int)
    requires i < |parts|
    ensures AnySelects(parts[..i + 1], page) <==> AnySelects(parts[..i], page) || Selects(parts[i], page)
  {
    hide Selects;
    assert forall j :: 0 <= j < i ==> parts[..i + 1][j] == parts[..i][j];
    assert parts[..i + 1][i] == parts[i];
    if AnySelects(parts[..i], page) {
      var j :| 0 <= j < i && Selects(parts[..i][j], page);
      assert Selects(parts[..i + 1][j], page);
    }
  }

  lemma BlankSelectsNothing(raw: string, total: int)
    requires Strip(raw) == ""
    ensures Selected(raw, total) == {}
  {
    StripNothing();
    EmptySelectsNothing("");
    hide Selects;
    assert Parts(raw) == [""];
  }

  lemma StripNothing()
    ensures Strip("") == ""
  {
  }

  /** What the answer says about each page. */
  lemma ResultIs(raw: string, total: int)
    ensures var list, selected := Result(raw, total), Selected(raw, total);
            && list == InOrder(if selected == {} then AllPages(total) else selected, 1, total)
            && IsAscending(list)
            && (total > 0 <==> list != [])
            && forall page :: page in list <==>
                 (IsPage(page, total) && (AnySelects(Parts(raw), page) || selected == {}))
  {
    hide AnySelects;
    hide Parts;
    var list, selected := Result(raw, total), Selected(raw, total);
    if total > 0 {
      var page: int := if selected == {} then 1 else var p :| p in selected; p;
      assert page in list;
    }
  }

  /** Neither the order of the parts nor repeating them changes the answer. */
  lemma OnlyTheSetOfPartsMatters(a: string, b: string, total: int)
    requires forall part :: part in Parts(a) <==> part in Parts(b)
    ensures Result(a, total) == Result(b, total)
  {
    hide Selects;
    hide Parts;
    forall page ensures AnySelects(Parts(a), page) <==> AnySelects(Parts(b), page) {
      SelectedByMember(Parts(a), page);
      SelectedByMember(Parts(b), page);
    }
    assert Selected(a, total) == Selected(b, total);
  }

  lemma SelectedByMember(parts: seq<string>, page: int)
    ensures AnySelects(parts, page) <==> exists part :: part in parts && Selects(part, page)
  {
    hide Selects;
    if part :| part in parts && Selects(part, page) {
      var i :| 0 <= i < |parts| && parts[i] == part;
      assert Selects(parts[i], page);
    }
  }

  // ---------- printing a list of pages ----------

  datatype Item = One(page: nat) | Span(first: nat, last: nat)

  function First(item: Item): nat {
    if item.One? then item.page else item.first
  }

  function Last(item: Item): nat {
    if item.One? then item.page else item.last
  }

  predicate Covers(item: Item, page: int) {
    First(item) <= page <= Last(item)
  }

  function Print(item: Item): string {
    match item
    case One(page) => Decimal(page)
    case Span(first, last) => Decimal(first) + "-" + Decimal(last)
  }

  function PrintEach(items: seq<Item>): (texts: seq<string>)
    ensures |texts| == |items|
    ensures forall i :: 0 <= i < |items| ==> texts[i] == Print(items[i])
  {
    seq(|items|, i requires 0 <= i < |items| => Print(items[i]))
  }

  function PrintAll(items: seq<Item>): string {
    Join(PrintEach(items), ',')
  }

  predicate IsPrintable(item: Item) {
    1 <= First(item) <= Last(item) && |Decimal(First(item))| <= MAX_DIGITS && |Decimal(Last(item))| <= MAX_DIGITS
  }

  /** Pages one by one. */
  function Ones(list: seq<int>): (items: seq<Item>)
    requires forall i :: 0 <= i < |list| ==> list[i] >= 0
    ensures |items| == |list|
    ensures forall i :: 0 <= i < |list| ==> items[i] == One(list[i])
  {
    seq(|list|, i requires 0 <= i < |list| => One(list[i]))
  }

  /** Neighbouring pages as ranges. */
  function Runs(list: seq<int>): (items: seq<Item>)
    requires forall i :: 0 <= i < |list| ==> list[i] >= 0
    ensures items == [] <==> list == []
    ensures items != [] ==> First(items[0]) == list[0]
  {
    if list == [] then []
    else
      var rest := Runs(list[1..]);
      if rest != [] && First(rest[0]) == list[0] + 1 then [Span(list[0], Last(rest[0]))] + rest[1..]
      else [One(list[0])] + rest
  }

  lemma {:induction false} DigitsOnly(s: string)
    requires AllDigits(s)
    ensures DropUnderscores(s) == s
  {
    if s != [] {
      DigitsOnly(s[1..]);
    }
  }

  lemma DigitIsPlain(c: char)
    requires IsDigit(c)
    ensures !IsPySpace(c) && !IsWhiteSpace(c) && c != '-' && c != '+' && c != ','
  {
  }

  lemma ParsesDigits(s: string)
    requires s != [] && AllDigits(s) && |s| <= 4300
    ensures ParseInt(s) == Some(DecimalValue(s))
  {
    hide IsNumeral;
    hide IsWhiteSpace;
    hide Trim;
    hide ParseSigned;
    hide DropUnderscores;
    hide DecimalValue;
    DigitsAreNumeral(s);
    NumeralStarts(s);
    TrimKeeps(s, IsWhiteSpace);
    SignedIsRead("", s);
    assert "" + s == s;
  }

  // ---------- what `int` reads ----------

  function Concat(groups: seq<string>): (digits: string)
    ensures (forall i :: 0 <= i < |groups| ==> AllDigits(groups[i])) ==> AllDigits(digits)
  {
    if groups == [] then "" else groups[0] + Concat(groups[1..])
  }

  predicate AreGroups(groups: seq<string>) {
    groups != [] && forall i :: 0 <= i < |groups| ==> groups[i] != "" && AllDigits(groups[i])
  }

  /** One way of writing an integer: digits in groups, perhaps a sign, and white space. */
  datatype Numeral = Numeral(before: string, sign: string, groups: seq<string>, after: string)

  function NumeralText(n: Numeral): string {
    n.before + (n.sign + Join(n.groups, '_')) + n.after
  }

  /** At most 4300 digits, which the value is made of. */
  ghost predicate Writes(n: Numeral, value: int) {
    && IsBlank(n.before, IsWhiteSpace) && IsBlank(n.after, IsWhiteSpace)
    && n.sign in {"", "+", "-"} && AreGroups(n.groups) && |Concat(n.groups)| <= 4300
    && var magnitude: int := DecimalValue(Concat(n.groups));
       value == if n.sign == "-" then -magnitude else magnitude
  }

  lemma {:induction false} DropsBetween(a: string, b: string)
    requires forall i :: 0 <= i < |a + b| ==> IsDigit((a + b)[i]) || (a + b)[i] == '_'
    requires forall i :: 0 <= i < |a| ==> IsDigit(a[i]) || a[i] == '_'
    requires forall i :: 0 <= i < |b| ==> IsDigit(b[i]) || b[i] == '_'
    ensures DropUnderscores(a + b) == DropUnderscores(a) + DropUnderscores(b)
  {
    if a == "" {
      assert a + b == b;
    } else {
      assert (a + b)[1..] == a[1..] + b;
      DropsBetween(a[1..], b);
    }
  }

  /** Groups of digits are a numeral, and its digits are theirs. */
  lemma {:induction false} GroupsAreNumeral(groups: seq<string>)
    requires AreGroups(groups)
    ensures IsNumeral(Join(groups, '_'))
    ensures DropUnderscores(Join(groups, '_')) == Concat(groups)
  {
    hide IsNumeral;
    hide DropUnderscores;
    var first := groups[0];
    if |groups| == 1 {
      DigitsAreNumeral(first);
      assert Concat(groups[1..]) == "" && first + "" == first;
    } else {
      var rest := Join(groups[1..], '_');
      assert AreGroups(groups[1..]);
      GroupsAreNumeral(groups[1..]);
      JoinsNumerals(first, rest);
    }
  }

  lemma DigitsAreNumeral(s: string)
    requires s != "" && AllDigits(s)
    ensures IsNumeral(s) && DropUnderscores(s) == s
  {
    DigitsOnly(s);
  }

  lemma JoinsNumerals(first: string, rest: string)
    requires first != "" && AllDigits(first) && IsNumeral(rest)
    ensures IsNumeral(first + ['_'] + rest)
    ensures DropUnderscores(first + ['_'] + rest) == first + DropUnderscores(rest)
  {
    var tail := ['_'] + rest;
    assert first + tail == first + ['_'] + rest;
    UnderscoreBetween(first, rest);
    hide IsNumeral;
    DropsBetween(first, tail);
    DigitsOnly(first);
    DropsOne(rest);
    hide DropUnderscores;
  }

  lemma DropsOne(rest: string)
    requires forall i :: 0 <= i < |rest| ==> IsDigit(rest[i]) || rest[i] == '_'
    ensures DropUnderscores(['_'] + rest) == DropUnderscores(rest)
  {
    assert (['_'] + rest)[1..] == rest;
  }

  lemma UnderscoreBetween(first: string, rest: string)
    requires first != "" && AllDigits(first) && IsNumeral(rest)
    ensures IsNumeral(first + ['_'] + rest)
    ensures forall i :: 0 <= i < |first + (['_'] + rest)| ==>
              IsDigit((first + (['_'] + rest))[i]) || (first + (['_'] + rest))[i] == '_'
  {
    assert first + (['_'] + rest) == first + ['_'] + rest;
  }

  lemma NumeralTail(s: string, i: nat)
    requires IsNumeral(s) && i < |s| && s[i] == '_' && '_' !in s[..i]
    ensures IsNumeral(s[i + 1..]) && s[..i] != "" && AllDigits(s[..i])
  {
    forall j | 0 <= j < i ensures IsDigit(s[..i][j]) {
      assert s[..i][j] == s[j];
    }
  }

  /** Every numeral is made of groups of digits. */
  lemma {:induction false} NumeralIsGroups(s: string)
    requires IsNumeral(s)
    ensures AreGroups(Split(s, '_')) && Join(Split(s, '_'), '_') == s
    decreases |s|
  {
    hide Join;
    JoinSplit(s, '_');
    var i := Find(s, '_');
    if i < |s| {
      NumeralTail(s, i);
      hide IsNumeral;
      hide Find;
      NumeralIsGroups(s[i + 1..]);
    }
  }

  lemma NumeralStarts(s: string)
    requires IsNumeral(s)
    ensures s != "" && !IsWhiteSpace(s[0]) && !IsWhiteSpace(s[|s| - 1]) && s[0] != '+' && s[0] != '-'
  {
    DigitIsPlain(s[0]);
    DigitIsPlain(s[|s| - 1]);
  }

  lemma SignIsPlain(sign: string)
    requires sign in {"", "+", "-"}
    ensures sign != "" ==> |sign| == 1 && !IsWhiteSpace(sign[0])
  {
  }

  lemma SignedIsRead(sign: string, numeral: string)
    requires sign in {"", "+", "-"} && IsNumeral(numeral) && |DropUnderscores(numeral)| <= 4300
    ensures var magnitude: int := DecimalValue(DropUnderscores(numeral));
            ParseSigned(sign + numeral) == Some(if sign == "-" then -magnitude else magnitude)
  {
    NumeralStarts(numeral);
    hide IsNumeral;
    hide DropUnderscores;
    hide DecimalValue;
    hide IsWhiteSpace;
    assert sign == "" ==> sign + numeral == numeral;
    assert sign != "" ==> (sign + numeral)[0] == sign[0] && (sign + numeral)[1..] == numeral;
  }

  lemma CoreIsTrimmed(n: Numeral)
    requires IsBlank(n.before, IsWhiteSpace) && IsBlank(n.after, IsWhiteSpace)
    requires n.sign in {"", "+", "-"} && IsNumeral(Join(n.groups, '_'))
    ensures Trim(NumeralText(n), IsWhiteSpace) == n.sign + Join(n.groups, '_')
  {
    hide IsWhiteSpace;
    hide Join;
    hide IsBlank;
    var numeral := Join(n.groups, '_');
    var core := n.sign + numeral;
    NumeralStarts(numeral);
    SignIsPlain(n.sign);
    hide IsNumeral;
    assert core[|core| - 1] == numeral[|numeral| - 1];
    assert n.sign == "" ==> core == numeral;
    TrimBlanks(n.before, core, n.after, IsWhiteSpace);
  }

  lemma WrittenIsRead(n: Numeral, value: int)
    requires Writes(n, value)
    ensures ParseInt(NumeralText(n)) == Some(value)
  {
    hide IsWhiteSpace;
    hide IsBlank;
    hide AreGroups;
    hide Join;
    hide Concat;
    hide IsNumeral;
    hide ParseSigned;
    hide DropUnderscores;
    hide DecimalValue;
    hide NumeralText;
    hide Trim;
    GroupsAreNumeral(n.groups);
    CoreIsTrimmed(n);
    SignedIsRead(n.sign, Join(n.groups, '_'));
  }

  lemma ReadIsSigned(t: string, value: int) returns (sign: string, numeral: string)
    requires ParseSigned(t) == Some(value)
    ensures t == sign + numeral && sign in {"", "+", "-"} && IsNumeral(numeral) && |DropUnderscores(numeral)| <= 4300
    ensures var magnitude: int := DecimalValue(DropUnderscores(numeral));
            value == if sign == "-" then -magnitude else magnitude
  {
    hide IsNumeral;
    hide DropUnderscores;
    hide DecimalValue;
    var signed := t != [] && (t[0] == '+' || t[0] == '-');
    numeral := if signed then t[1..] else t;
    sign := if signed then t[..1] else "";
    assert sign + numeral == t;
    assert signed ==> sign == [t[0]];
  }

  lemma ReadIsWritten(text: string, value: int) returns (n: Numeral)
    requires ParseInt(text) == Some(value)
    ensures NumeralText(n) == text && Writes(n, value)
  {
    hide IsWhiteSpace;
    hide IsBlank;
    hide AreGroups;
    hide Join;
    hide Split;
    hide Concat;
    hide IsNumeral;
    hide ParseSigned;
    hide DropUnderscores;
    hide DecimalValue;
    hide Trim;
    var before, after := BlankEnds(text, IsWhiteSpace);
    var sign, numeral := ReadIsSigned(Trim(text, IsWhiteSpace), value);
    NumeralIsGroups(numeral);
    GroupsAreNumeral(Split(numeral, '_'));
    n := Numeral(before, sign, Split(numeral, '_'), after);
  }

  /** `int` reads exactly the numerals: decimal digits, single underscores between
      them, perhaps a sign in front, and white space around it all. */
  lemma ParseIntIsExact(text: string, value: int)
    ensures ParseInt(text) == Some(value) <==> exists n :: NumeralText(n) == text && Writes(n, value)
  {
    hide ParseInt;
    hide Writes;
    if ParseInt(text) == Some(value) {
      var n := ReadIsWritten(text, value);
    }
    if n :| NumeralText(n) == text && Writes(n, value) {
      WrittenIsRead(n, value);
    }
  }

  // ---------- what a written part selects ----------

  lemma WhiteIsPySpace(s: string)
    ensures IsBlank(s, IsWhiteSpace) ==> IsBlank(s, IsPySpace)
  {
    hide IsWhiteSpace;
  }

  /** A numeral but for the white space at its ends. */
  lemma BareEnds(n: Numeral, value: int)
    requires Writes(n, value)
    ensures var core := n.sign + Join(n.groups, '_');
            && core != "" && IsDigit(core[|core| - 1]) && (IsDigit(core[0]) || core[0] == '+' || core[0] == '-')
            && (n.sign == "-" <==> core[0] == '-')
            && (n.sign != "-" ==> '-' !in core)
  {
    var numeral := Join(n.groups, '_');
    var core := n.sign + numeral;
    GroupsAreNumeral(n.groups);
    hide Join;
    hide Concat;
    hide DropUnderscores;
    hide DecimalValue;
    hide IsBlank;
    assert core[|core| - 1] == numeral[|numeral| - 1];
    assert n.sign == "" ==> core == numeral;
    assert '-' !in numeral;
  }

  lemma PlainEnds(c: char)
    ensures IsDigit(c) || c == '+' || c == '-' ==> !IsPySpace(c)
    ensures IsPySpace(c) || IsWhiteSpace(c) ==> c != '-'
  {
  }

  lemma StripsTo(before: string, core: string, after: string)
    requires IsBlank(before, IsWhiteSpace) && IsBlank(after, IsWhiteSpace) && core != ""
    requires IsDigit(core[|core| - 1]) && (IsDigit(core[0]) || core[0] == '+' || core[0] == '-')
    ensures Strip(before + core + after) == core
  {
    WhiteIsPySpace(before);
    WhiteIsPySpace(after);
    PlainEnds(core[0]);
    PlainEnds(core[|core| - 1]);
    hide IsPySpace;
    hide IsWhiteSpace;
    hide IsBlank;
    hide Trim;
    TrimBlanks(before, core, after, IsPySpace);
  }

  lemma Bare(n: Numeral, value: int)
    requires Writes(n, value)
    ensures Writes(n.(before := ""), value) && Writes(n.(after := ""), value)
    ensures Writes(n.(before := "", after := ""), value)
  {
    hide IsWhiteSpace;
    hide Concat;
    hide AreGroups;
    hide DecimalValue;
    assert IsBlank("", IsWhiteSpace);
    hide IsBlank;
  }

  lemma BlankSides(n: Numeral, value: int)
    requires Writes(n, value)
    ensures IsBlank(n.before, IsWhiteSpace) && IsBlank(n.after, IsWhiteSpace)
  {
  }

  lemma ChunkSelects(part: string, chunk: string, at: nat, page: int)
    requires Strip(part) == chunk && at <= |chunk| && '-' !in chunk[..at] && (at == |chunk| || chunk[at] == '-')
    ensures Selects(part, page) <==> SelectsAt(chunk, at, page)
  {
    hide Strip;
    hide SelectsAt;
    FindIs(chunk, '-', at);
    hide Find;
  }

  /** A part that is one numeral selects its value, and nothing if it has a minus sign. */
  lemma NumberSelects(n: Numeral, value: int, page: int)
    requires Writes(n, value)
    ensures Selects(NumeralText(n), page) <==> n.sign != "-" && page == value
  {
    hide Writes;
    hide Join;
    hide IsBlank;
    hide IsWhiteSpace;
    hide ParseInt;
    hide Strip;
    hide Selects;
    var core := n.sign + Join(n.groups, '_');
    BareEnds(n, value);
    Bare(n, value);
    BlankSides(n, value);
    WrittenIsRead(n.(before := "", after := ""), value);
    assert NumeralText(n.(before := "", after := "")) == core;
    StripsTo(n.before, core, n.after);
    EmptyIsNoNumber();
    if n.sign == "-" {
      assert core[..0] == "";
      ChunkSelects(NumeralText(n), core, 0, page);
    } else {
      assert core[..|core|] == core;
      ChunkSelects(NumeralText(n), core, |core|, page);
    }
  }

  lemma NoDashBefore(n: Numeral, value: int)
    requires Writes(n, value) && n.sign != "-"
    ensures '-' !in NumeralText(n)
  {
    BareEnds(n, value);
    assert IsBlank(n.before, IsWhiteSpace) && IsBlank(n.after, IsWhiteSpace);
    hide Writes;
    hide Join;
    forall c | IsWhiteSpace(c) ensures c != '-' { PlainEnds(c); }
    hide IsWhiteSpace;
  }

  lemma Regroup(a: string, b: string, c: string, d: string, e: string, f: string)
    ensures (a + b + c) + "-" + (d + e + f) == a + (b + c + "-" + d + e) + f
    ensures ("" + b + c) + "-" + (d + e + "") == b + c + "-" + d + e
  {
  }

  lemma RangeStrips(a: Numeral, b: Numeral, first: int, last: int)
    requires Writes(a, first) && Writes(b, last)
    ensures Strip(NumeralText(a) + "-" + NumeralText(b)) ==
            NumeralText(a.(before := "")) + "-" + NumeralText(b.(after := ""))
  {
    hide Writes;
    hide Join;
    hide IsBlank;
    hide IsWhiteSpace;
    hide Strip;
    var left, right := a.sign + Join(a.groups, '_'), b.sign + Join(b.groups, '_');
    BareEnds(a, first);
    BareEnds(b, last);
    BlankSides(a, first);
    BlankSides(b, last);
    var core := left + a.after + "-" + b.before + right;
    assert core[0] == left[0] && core[|core| - 1] == right[|right| - 1];
    StripsTo(a.before, core, b.after);
    Regroup(a.before, left, a.after, b.before, right, b.after);
  }

  lemma MinusFirst(a: Numeral, first: int)
    requires Writes(a, first) && a.sign == "-"
    ensures var left := NumeralText(a.(before := "")); left != "" && left[0] == '-'
  {
    hide Join;
    hide IsBlank;
    assert NumeralText(a.(before := ""))[0] == (a.sign + Join(a.groups, '_'))[0];
  }

  /** A part of two numerals with a dash between them: the start and what lies between
      it and the end, if that is not below; nothing for a start of 0 or below. */
  lemma RangeSelects(a: Numeral, b: Numeral, first: int, last: int, page: int)
    requires Writes(a, first) && Writes(b, last)
    ensures Selects(NumeralText(a) + "-" + NumeralText(b), page) <==>
            a.sign != "-" && first > 0 && (page == first || first <= page <= last)
  {
    hide Writes;
    hide NumeralText;
    hide ParseInt;
    hide Strip;
    hide Selects;
    var left, right := NumeralText(a.(before := "")), NumeralText(b.(after := ""));
    var chunk := left + "-" + right;
    RangeStrips(a, b, first, last);
    if a.sign == "-" {
      MinusFirst(a, first);
      EmptyIsNoNumber();
      assert chunk[0] == '-' && chunk[..0] == "";
      ChunkSelects(NumeralText(a) + "-" + NumeralText(b), chunk, 0, page);
    } else {
      Bare(a, first);
      Bare(b, last);
      WrittenIsRead(a.(before := ""), first);
      WrittenIsRead(b.(after := ""), last);
      NoDashBefore(a.(before := ""), first);
      assert chunk[..|left|] == left && chunk[|left|] == '-' && chunk[|left| + 1..] == right;
      ChunkSelects(NumeralText(a) + "-" + NumeralText(b), chunk, |left|, page);
    }
  }

  ghost predicate IsWritten(s: string) {
    exists n, value :: NumeralText(n) == s && Writes(n, value)
  }

  /** Only such parts select anything: one numeral, or a numeral on either side of the
      first dash. */
  lemma OnlyWrittenSelects(part: string, page: int)
    requires Selects(part, page)
    ensures var chunk := Strip(part);
            if '-' !in chunk then IsWritten(chunk)
            else exists at :: && 0 <= at < |chunk| && chunk[at] == '-'
                              && IsWritten(chunk[..at]) && IsWritten(chunk[at + 1..])
  {
    hide Strip;
    hide ParseInt;
    hide Writes;
    hide NumeralText;
    var chunk := Strip(part);
    var at := Find(chunk, '-');
    forall text, value | ParseInt(text) == Some(value) ensures IsWritten(text) {
      var n := ReadIsWritten(text, value);
    }
    if at < |chunk| {
      assert IsWritten(chunk[..at]) && IsWritten(chunk[at + 1..]);
    } else {
      assert chunk[..at] == chunk;
    }
  }

  lemma ParsesDecimal(n: nat)
    requires |Decimal(n)| <= MAX_DIGITS
    ensures ParseInt(Decimal(n)) == Some(n)
  {
    ParsesDigits(Decimal(n));
    DecimalRoundTrip(n);
    hide ParseInt;
  }

  /** A printed item has no comma and no space at its ends. */
  lemma PrintedIsPlain(item: Item)
    ensures var s := Print(item);
            s != [] && ',' !in s && IsDigit(s[0]) && IsDigit(s[|s| - 1]) && Strip(s) == s
  {
    var s := Print(item);
    hide Decimal;
    DigitIsPlain(s[0]);
    DigitIsPlain(s[|s| - 1]);
    hide IsPySpace;
    TrimKeeps(s, IsPySpace);
  }

  lemma NoDash(s: string)
    requires AllDigits(s)
    ensures '-' !in s
  {
  }

  /** Parsing a printed item selects what it covers. */
  lemma PrintedSelects(item: Item, page: int)
    requires IsPrintable(item)
    ensures Selects(Print(item), page) <==> Covers(item, page)
  {
    hide Strip;
    hide Selects;
    hide ParseInt;
    hide Decimal;
    var s, first := Print(item), Decimal(First(item));
    PrintedIsPlain(item);
    ParsesDecimal(First(item));
    ParsesDecimal(Last(item));
    NoDash(first);
    assert s[..|first|] == first;
    if item.Span? {
      assert s[|first|] == '-' && s[|first| + 1..] == Decimal(item.last);
    }
    ChunkSelects(s, s, |first|, page);
  }

  lemma JoinEnds(texts: seq<string>, sep: char)
    requires texts != [] && texts[0] != "" && texts[|texts| - 1] != ""
    requires forall i :: 0 <= i < |texts| ==> texts[i] != ""
    ensures var s := Join(texts, sep);
            s != "" && s[0] == texts[0][0] && s[|s| - 1] == texts[|texts| - 1][|texts[|texts| - 1]| - 1]
  {
  }

  lemma PrintedParts(items: seq<Item>)
    requires items != []
    ensures Parts(PrintAll(items)) == PrintEach(items)
  {
    var texts := PrintEach(items);
    hide Print;
    forall i | 0 <= i < |items|
      ensures texts[i] != "" && ',' !in texts[i]
      ensures IsDigit(texts[i][0]) && IsDigit(texts[i][|texts[i]| - 1])
    {
      PrintedIsPlain(items[i]);
    }
    JoinEnds(texts, ',');
    var s := Join(texts, ',');
    DigitIsPlain(s[0]);
    DigitIsPlain(s[|s| - 1]);
    hide IsPySpace;
    TrimKeeps(s, IsPySpace);
    SplitJoin(texts, ',');
  }

  ghost predicate ListedBy(items: seq<Item>, list: seq<int>) {
    forall page :: page in list <==> exists i :: 0 <= i < |items| && Covers(items[i], page)
  }

  /** Parsing printed items gives the pages they cover, in order. */
  lemma PrintParse(items: seq<Item>, list: seq<int>, total: int)
    requires items != [] && forall i :: 0 <= i < |items| ==> IsPrintable(items[i])
    requires IsAscending(list) && ListedBy(items, list)
    requires forall i :: 0 <= i < |list| ==> IsPage(list[i], total)
    ensures Result(PrintAll(items), total) == list
  {
    hide Selects;
    hide Print;
    assert IsPrintable(items[0]);
    assert Covers(items[0], First(items[0]));
    hide IsPrintable;
    var raw := PrintAll(items);
    PrintedParts(items);
    hide Parts;
    hide PrintAll;
    forall page ensures AnySelects(Parts(raw), page) <==> page in list {
      forall i | 0 <= i < |items| ensures Selects(Parts(raw)[i], page) <==> Covers(items[i], page) {
        PrintedSelects(items[i], page);
      }
    }
    assert First(items[0]) in list;
    assert First(items[0]) in Selected(raw, total);
    ResultIs(raw, total);
    hide Result;
    SameAscending(Result(raw, total), list);
  }

  /** An ascending list is determined by its members. */
  lemma {:induction false} SameAscending(a: seq<int>, b: seq<int>)
    requires IsAscending(a) && IsAscending(b) && forall page :: page in a <==> page in b
    ensures a == b
    decreases |a|
  {
    if a == [] {
      FirstIsMember(b);
    } else {
      assert a[0] in b && b[0] in a;
      assert a[0] == b[0];
      forall page ensures page in a[1..] <==> page in b[1..] {
        TailMembers(a, page);
        TailMembers(b, page);
      }
      SameAscending(a[1..], b[1..]);
    }
  }

  lemma TailMembers(a: seq<int>, page: int)
    requires IsAscending(a) && a != []
    ensures page in a[1..] <==> page in a && page != a[0]
  {
  }

  lemma FirstIsMember(list: seq<int>)
    ensures list == [] || list[0] in list
  {
  }

  lemma {:induction false} DecimalGrows(m: nat, n: nat)
    requires m <= n
    ensures |Decimal(m)| <= |Decimal(n)|
  {
    if m >= 10 {
      DecimalGrows(m / 10, n / 10);
    }
  }

  /** Page numbers that `int` still reads. */
  predicate ArePages(list: seq<int>, total: int) {
    list != [] && IsAscending(list) && total >= 0 && |Decimal(total)| <= MAX_DIGITS
    && forall i :: 0 <= i < |list| ==> 1 <= list[i] <= total
  }

  lemma PagePrints(page: int, total: int)
    requires IsPage(page, total) && |Decimal(total)| <= MAX_DIGITS
    ensures |Decimal(page)| <= MAX_DIGITS
  {
    DecimalGrows(page, total);
  }

  /** Any list of pages, printed one by one, is read back. */
  lemma OnesRoundTrip(list: seq<int>, total: int)
    requires ArePages(list, total)
    ensures Result(PrintAll(Ones(list)), total) == list
  {
    hide Decimal;
    var items := Ones(list);
    forall i | 0 <= i < |items| ensures IsPrintable(items[i]) && Covers(items[i], list[i]) {
      PagePrints(list[i], total);
    }
    PrintParse(items, list, total);
  }

  lemma {:induction false} RunsCover(list: seq<int>, total: int)
    requires IsAscending(list) && total >= 0 && |Decimal(total)| <= MAX_DIGITS
    requires forall i :: 0 <= i < |list| ==> 1 <= list[i] <= total
    ensures var items := Runs(list);
            (forall i :: 0 <= i < |items| ==> IsPrintable(items[i])) && ListedBy(items, list)
  {
    hide Decimal;
    if list != [] {
      var items, rest := Runs(list), Runs(list[1..]);
      RunsCover(list[1..], total);
      PagePrints(list[0], total);
      forall page ensures page in list <==> exists i :: 0 <= i < |items| && Covers(items[i], page) {
        HeadCover(items, rest, list, page);
      }
    }
  }

  /** Putting the first page in front of the ranges of the others. */
  lemma HeadCover(items: seq<Item>, rest: seq<Item>, list: seq<int>, page: int)
    requires list != [] && items != [] && list[0] >= 0
    requires (forall i :: 0 <= i < |rest| ==> First(rest[i]) <= Last(rest[i])) && ListedBy(rest, list[1..])
    requires if rest != [] && First(rest[0]) == list[0] + 1
             then items == [Span(list[0], Last(rest[0]))] + rest[1..]
             else items == [One(list[0])] + rest
    ensures page in list <==> exists i :: 0 <= i < |items| && Covers(items[i], page)
  {
    var joined := rest != [] && First(rest[0]) == list[0] + 1;
    var shift := if joined then 0 else 1;
    assert page in list <==> page == list[0] || page in list[1..];
    assert Covers(items[0], list[0]);
    if i :| 0 <= i < |rest| && Covers(rest[i], page) {
      assert Covers(items[i + shift], page);
    }
    if i :| 0 <= i < |items| && Covers(items[i], page) && page != list[0] {
      assert Covers(rest[i - shift], page);
    }
  }

  /** Any list of pages, printed as ranges, is read back. */
  lemma RunsRoundTrip(list: seq<int>, total: int)
    requires ArePages(list, total)
    ensures Result(PrintAll(Runs(list)), total) == list
  {
    hide Decimal;
    RunsCover(list, total);
    PrintParse(Runs(list), list, total);
  }
}
