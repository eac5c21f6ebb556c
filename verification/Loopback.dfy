/** The sign-in redirect receiver (oauth_loopback.rs, `read_request_target`): a
    request read in chunks, up to the end of its header or a size limit. */
module Loopbacks {
  import opened Wrappers
  import opened Utf8s
  import Text

  const MAX_REQUEST_BYTES: nat := 16 * 1024
  const CHUNK_BYTES: nat := 512

  const LF: Byte := 10

  // ---------- the first line ----------

  function FirstLine(b: seq<Byte>): (line: seq<Byte>)
    ensures line <= b && 10 !in line
    ensures |line| < |b| ==> b[|line|] == 10
  {
    if b == [] || b[0] == LF then [] else [b[0]] + FirstLine(b[1..])
  }

  function TrimCr(s: string): (t: string)
    ensures t <= s && (t != [] ==> t[|t| - 1] != '\r')
    ensures forall i :: |t| <= i < |s| ==> s[i] == '\r'
  {
    if s != [] && s[|s| - 1] == '\r' then TrimCr(s[..|s| - 1]) else s
  }

  /** ".." somewhere. */
  predicate HasDots(s: string) {
    exists i :: 0 <= i < |s| - 1 && s[i] == '.' == s[i + 1]
  }

  predicate IsTarget(t: string) {
    t != [] && t[0] == '/' && !HasDots(t)
  }

  /** The target of a request whose bytes are all there. */
  function TargetOf(b: seq<Byte>): Option<string> {
    match Decode(FirstLine(b))
    case None => None
    case Some(text) =>
      var parts := Text.Split(TrimCr(text), ' ');
      if parts[0] != "GET" || |parts| < 2 || !IsTarget(parts[1]) then None else Some(parts[1])
  }

  // ---------- the header's end ----------

  /** The blank line that ends a header starts at i. */
  predicate BlankLineAt(b: seq<Byte>, i: nat) {
    i + 4 <= |b| && b[i] == 13 && b[i + 1] == 10 && b[i + 2] == 13 && b[i + 3] == 10
  }

  predicate HasHeader(b: seq<Byte>) {
    exists i :: 0 <= i < |b| && BlankLineAt(b, i)
  }

  /** Length of the header with its blank line; more than |b| if it has no end. */
  function HeaderLength(b: seq<Byte>): (n: nat)
    ensures n <= |b| <==> HasHeader(b)
    ensures n <= |b| ==> n >= 4 && BlankLineAt(b, n - 4)
    ensures forall i: nat :: i + 4 < n ==> !BlankLineAt(b, i)
  {
    HeaderFrom(b, 0)
  }

  function HeaderFrom(b: seq<Byte>, from: nat): (n: nat)
    requires forall i: nat :: i < from ==> !BlankLineAt(b, i)
    ensures n <= |b| <==> HasHeader(b)
    ensures n <= |b| ==> n >= 4 && BlankLineAt(b, n - 4)
    ensures forall i: nat :: i + 4 < n ==> !BlankLineAt(b, i)
    decreases |b| - from
  {
    if from >= |b| then |b| + 1
    else if BlankLineAt(b, from) then from + 4
    else HeaderFrom(b, from + 1)
  }

  // ---------- reading ----------

  /** How the stream goes on after its last chunk: closed, or an error or timeout. */
  datatype Ending = Closed | Broken

  /** What a read can deliver. */
  predicate IsChunk(chunk: seq<Byte>) {
    0 < |chunk| <= 512
  }

  predicate AreChunks(chunks: seq<seq<Byte>>) {
    forall i :: 0 <= i < |chunks| ==> IsChunk(chunks[i])
  }

  function Flat(chunks: seq<seq<Byte>>): seq<Byte> {
    if chunks == [] then [] else chunks[0] + Flat(chunks[1..])
  }

  /** The reader, with `buffer` read so far. */
  function ReadOn(buffer: seq<Byte>, chunks: seq<seq<Byte>>, ending: Ending): Option<string>
    decreases |chunks|
  {
    if chunks == [] then (if ending.Broken? then None else TargetOf(buffer))
    else
      var more := buffer + chunks[0];
      if |more| > MAX_REQUEST_BYTES then None
      else if HasHeader(more) then TargetOf(more)
      else ReadOn(more, chunks[1..], ending)
  }

  method ReadRequestTarget(chunks: seq<seq<Byte>>, ending: Ending) returns (target: Option<string>)
    ensures target == ReadOn([], chunks, ending)
    ensures |Flat(chunks)| <= 16_384 ==> target == WholeTarget(Flat(chunks), ending)
  {
    if |Flat(chunks)| <= MAX_REQUEST_BYTES {
      ChunkingIsIrrelevant(chunks, ending);
    }
    var buffer: seq<Byte> := [];
    var next := 0;
    while true
      invariant next <= |chunks|
      invariant ReadOn(buffer, chunks[next..], ending) == ReadOn([], chunks, ending)
      decreases |chunks| - next
    {
      if next == |chunks| {
        if ending.Broken? {
          return None;
        }
        break;
      }
      var chunk := chunks[next];
      assert chunks[next..][1..] == chunks[next + 1..];
      next := next + 1;
      buffer := buffer + chunk;
      if |buffer| > MAX_REQUEST_BYTES {
        return None;
      }
      if HasHeader(buffer) {
        break;
      }
    }
    target := TargetOf(buffer);
  }

  // ---------- chunking ----------

  /** The answer in terms of the whole stream. */
  function WholeTarget(stream: seq<Byte>, ending: Ending): Option<string> {
    if ending.Broken? && !HasHeader(stream) then None else TargetOf(stream)
  }

  lemma {:induction false} FirstLineOfPrefix(a: seq<Byte>, b: seq<Byte>)
    requires LF in a
    ensures FirstLine(a + b) == FirstLine(a)
  {
    if a[0] != LF {
      assert (a + b)[1..] == a[1..] + b;
      FirstLineOfPrefix(a[1..], b);
    }
  }

  lemma TargetOfPrefix(a: seq<Byte>, b: seq<Byte>)
    requires HasHeader(a)
    ensures HasHeader(a + b) && TargetOf(a + b) == TargetOf(a)
  {
    var i :| 0 <= i < |a| && BlankLineAt(a, i);
    assert a[i + 1] == LF;
    assert BlankLineAt(a + b, i);
    FirstLineOfPrefix(a, b);
  }

  lemma {:induction false} ReadOnSmall(buffer: seq<Byte>, chunks: seq<seq<Byte>>, ending: Ending)
    requires |buffer + Flat(chunks)| <= MAX_REQUEST_BYTES && !HasHeader(buffer)
    ensures ReadOn(buffer, chunks, ending) == WholeTarget(buffer + Flat(chunks), ending)
    decreases |chunks|
  {
    hide HasHeader;
    hide TargetOf;
    if chunks == [] {
      assert buffer + Flat(chunks) == buffer;
    } else {
      var more, rest := buffer + chunks[0], Flat(chunks[1..]);
      assert buffer + Flat(chunks) == more + rest;
      if HasHeader(more) {
        TargetOfPrefix(more, rest);
      } else {
        ReadOnSmall(more, chunks[1..], ending);
      }
    }
  }

  /** Up to the size limit the chunks do not matter: the answer is that for the
      whole stream, its first line parsed. */
  lemma ChunkingIsIrrelevant(chunks: seq<seq<Byte>>, ending: Ending)
    requires |Flat(chunks)| <= 16_384
    ensures ReadOn([], chunks, ending) == WholeTarget(Flat(chunks), ending)
  {
    ReadOnSmall([], chunks, ending);
    assert [] + Flat(chunks) == Flat(chunks);
  }

  // ---------- beyond the limit ----------

  lemma HeaderOfPrefix(a: seq<Byte>, b: seq<Byte>)
    ensures HasHeader(a) ==> HeaderLength(a + b) == HeaderLength(a)
    ensures !HasHeader(a) ==> HeaderLength(a + b) > |a|
  {
    var all := a + b;
    var n, m := HeaderLength(all), HeaderLength(a);
    assert n <= |a| ==> BlankLineAt(a, n - 4);
    if HasHeader(a) {
      assert BlankLineAt(all, m - 4);
      assert n <= m;
    }
  }

  lemma {:induction false} ReadOnLarge(buffer: seq<Byte>, chunks: seq<seq<Byte>>, ending: Ending)
    requires AreChunks(chunks) && !HasHeader(buffer)
    requires |buffer| <= MAX_REQUEST_BYTES < |buffer + Flat(chunks)|
    ensures var stream := buffer + Flat(chunks);
            && (HeaderLength(stream) > MAX_REQUEST_BYTES ==> ReadOn(buffer, chunks, ending) == None)
            && (HeaderLength(stream) + CHUNK_BYTES <= MAX_REQUEST_BYTES + 1 ==>
                  ReadOn(buffer, chunks, ending) == TargetOf(stream))
    decreases |chunks|
  {
    hide HasHeader;
    hide TargetOf;
    hide HeaderLength;
    var stream := buffer + Flat(chunks);
    var more, rest := buffer + chunks[0], Flat(chunks[1..]);
    assert stream == more + rest;
    assert IsChunk(chunks[0]);
    HeaderOfPrefix(buffer, Flat(chunks));
    HeaderOfPrefix(more, rest);
    if |more| <= MAX_REQUEST_BYTES {
      if HasHeader(more) {
        TargetOfPrefix(more, rest);
      } else {
        ReadOnLarge(more, chunks[1..], ending);
      }
    }
  }

  /** Beyond the size limit it is the header that decides: one that ends a chunk
      before the limit is answered, one that goes beyond it is refused. */
  lemma LargeRequests(chunks: seq<seq<Byte>>, ending: Ending)
    requires AreChunks(chunks) && |Flat(chunks)| > 16_384
    ensures HeaderLength(Flat(chunks)) > 16_384 ==> ReadOn([], chunks, ending) == None
    ensures HeaderLength(Flat(chunks)) + 511 <= 16_384 ==>
              ReadOn([], chunks, ending) == TargetOf(Flat(chunks))
  {
    assert [] + Flat(chunks) == Flat(chunks);
    ReadOnLarge([], chunks, ending);
  }

  /** Byte by byte, and then these chunks. */
  function Singly(b: seq<Byte>, rest: seq<seq<Byte>>): seq<seq<Byte>> {
    if b == [] then rest else [[b[0]]] + Singly(b[1..], rest)
  }

  lemma FlatStep(chunk: seq<Byte>, chunks: seq<seq<Byte>>)
    ensures Flat([chunk] + chunks) == chunk + Flat(chunks)
  {
    assert ([chunk] + chunks)[1..] == chunks;
  }

  lemma {:induction false} SinglyIs(b: seq<Byte>, rest: seq<seq<Byte>>)
    ensures AreChunks(rest) ==> AreChunks(Singly(b, rest))
    ensures Flat(Singly(b, rest)) == b + Flat(rest)
  {
    if b != [] {
      SinglyIs(b[1..], rest);
      FlatStep([b[0]], Singly(b[1..], rest));
      hide Flat;
      assert [b[0]] + (b[1..] + Flat(rest)) == b + Flat(rest);
    }
  }

  lemma ReadStep(buffer: seq<Byte>, chunk: seq<Byte>, rest: seq<seq<Byte>>, ending: Ending)
    ensures ReadOn(buffer, [chunk] + rest, ending) ==
            if |buffer + chunk| > MAX_REQUEST_BYTES then None
            else if HasHeader(buffer + chunk) then TargetOf(buffer + chunk)
            else ReadOn(buffer + chunk, rest, ending)
  {
    hide HasHeader;
    hide TargetOf;
    assert ([chunk] + rest)[1..] == rest;
  }

  lemma {:induction false} ReadSingly(buffer: seq<Byte>, b: seq<Byte>, rest: seq<seq<Byte>>, ending: Ending)
    requires |buffer + b| <= MAX_REQUEST_BYTES && !HasHeader(buffer + b)
    ensures ReadOn(buffer, Singly(b, rest), ending) == ReadOn(buffer + b, rest, ending)
    decreases |b|
  {
    hide HasHeader;
    hide ReadOn;
    if b == [] {
      assert buffer + b == buffer;
    } else {
      var more := buffer + [b[0]];
      assert buffer + b == more + b[1..];
      HeaderlessPrefix(more, b[1..]);
      ReadStep(buffer, [b[0]], Singly(b[1..], rest), ending);
      ReadSingly(more, b[1..], rest, ending);
    }
  }

  lemma HeaderlessPrefix(a: seq<Byte>, b: seq<Byte>)
    requires !HasHeader(a + b)
    ensures !HasHeader(a)
  {
    if HasHeader(a) {
      TargetOfPrefix(a, b);
    }
  }

  /** Byte by byte, then one larger chunk, then byte by byte again. */
  function OneLarge(before: seq<Byte>, chunk: seq<Byte>, rest: seq<Byte>): seq<seq<Byte>> {
    Singly(before, [chunk] + Singly(rest, []))
  }

  lemma FlatOneLarge(before: seq<Byte>, chunk: seq<Byte>, rest: seq<Byte>)
    requires IsChunk(chunk)
    ensures AreChunks(OneLarge(before, chunk, rest))
    ensures Flat(OneLarge(before, chunk, rest)) == before + (chunk + rest)
  {
    SinglyIs(rest, []);
    assert rest + Flat([]) == rest;
    FlatStep(chunk, Singly(rest, []));
    SinglyIs(before, [chunk] + Singly(rest, []));
    hide Singly;
  }

  lemma ReadOneLarge(before: seq<Byte>, chunk: seq<Byte>, rest: seq<Byte>, ending: Ending)
    requires IsChunk(chunk) && |before| <= MAX_REQUEST_BYTES
    requires !HasHeader(before) && HasHeader(before + chunk)
    ensures ReadOn([], OneLarge(before, chunk, rest), ending) ==
            if |before + chunk| > MAX_REQUEST_BYTES then None else TargetOf(before + (chunk + rest))
  {
    hide HasHeader;
    hide TargetOf;
    hide Singly;
    hide ReadOn;
    assert [] + before == before;
    ReadSingly([], before, [chunk] + Singly(rest, []), ending);
    ReadStep(before, chunk, Singly(rest, []), ending);
    TargetOfPrefix(before + chunk, rest);
    assert before + chunk + rest == before + (chunk + rest);
  }

  /** A split whose chunk with the header's last byte has this size. */
  lemma SplitAtHeader(stream: seq<Byte>, size: nat, ending: Ending) returns (chunks: seq<seq<Byte>>)
    requires 0 < size <= CHUNK_BYTES && HeaderLength(stream) - 1 + size <= |stream|
    requires HeaderLength(stream) <= MAX_REQUEST_BYTES
    ensures AreChunks(chunks) && Flat(chunks) == stream
    ensures ReadOn([], chunks, ending) ==
            if HeaderLength(stream) - 1 + size > MAX_REQUEST_BYTES then None else TargetOf(stream)
  {
    hide HasHeader;
    hide HeaderLength;
    hide TargetOf;
    hide ReadOn;
    var at := HeaderLength(stream) - 1;
    var before, chunk, rest := stream[..at], stream[at..at + size], stream[at + size..];
    assert stream == before + (chunk + rest);
    HeaderOfPrefix(before, chunk + rest);
    assert stream == (before + chunk) + rest;
    HeaderOfPrefix(before + chunk, rest);
    ReadOneLarge(before, chunk, rest, ending);
    FlatOneLarge(before, chunk, rest);
    chunks := OneLarge(before, chunk, rest);
  }

  ghost predicate SplitIsIrrelevant(stream: seq<Byte>, ending: Ending) {
    forall a, b :: AreChunks(a) && AreChunks(b) && Flat(a) == stream && Flat(b) == stream ==>
      ReadOn([], a, ending) == ReadOn([], b, ending)
  }

  /** Exactly when the answer depends on the chunks: the request has a target, is
      larger than the limit, and its header ends within the last chunk's reach of it. */
  lemma SplitMattersExactlyWhen(stream: seq<Byte>, ending: Ending)
    ensures SplitIsIrrelevant(stream, ending) <==>
            || |stream| <= 16_384
            || HeaderLength(stream) > 16_384
            || HeaderLength(stream) + 511 <= 16_384
            || TargetOf(stream) == None
  {
    var n := HeaderLength(stream);
    if |stream| <= MAX_REQUEST_BYTES {
      forall a | AreChunks(a) && Flat(a) == stream ensures ReadOn([], a, ending) == WholeTarget(stream, ending) {
        ChunkingIsIrrelevant(a, ending);
      }
    } else if n > MAX_REQUEST_BYTES || n + CHUNK_BYTES <= MAX_REQUEST_BYTES + 1 {
      forall a | AreChunks(a) && Flat(a) == stream
        ensures ReadOn([], a, ending) == if n > MAX_REQUEST_BYTES then None else TargetOf(stream)
      {
        LargeRequests(a, ending);
      }
    } else if TargetOf(stream) == None {
      forall a | AreChunks(a) && Flat(a) == stream ensures ReadOn([], a, ending) == None {
        assert [] + Flat(a) == Flat(a);
        NoTargetAnyway([], a, ending);
      }
    } else {
      var size := if |stream| - (n - 1) < CHUNK_BYTES then |stream| - (n - 1) else CHUNK_BYTES;
      var a := SplitAtHeader(stream, 1, ending);
      var b := SplitAtHeader(stream, size, ending);
      assert ReadOn([], a, ending) != ReadOn([], b, ending);
    }
  }

  /** A request line, then filler, then the blank line that ends the header exactly
      at the limit, and one byte more. */
  function LongRequest(): (b: seq<Byte>)
    ensures |b| == MAX_REQUEST_BYTES + 1
    ensures b[..6] == [71, 69, 84, 32, 47, LF]
    ensures forall i :: 6 <= i < MAX_REQUEST_BYTES - 4 ==> b[i] == 120
    ensures b[MAX_REQUEST_BYTES - 4..] == [13, LF, 13, LF, 120]
  {
    [71, 69, 84, 32, 47, LF] + seq(MAX_REQUEST_BYTES - 10, _ => 120) + [13, LF, 13, LF, 120]
  }

  lemma LongHeader()
    ensures HeaderLength(LongRequest()) == MAX_REQUEST_BYTES
  {
    var b, n := LongRequest(), MAX_REQUEST_BYTES;
    assert b[n - 4] == b[n - 4..][0] && b[n - 3] == b[n - 4..][1] && b[n - 2] == b[n - 4..][2];
    assert b[n - 1] == b[n - 4..][3] && b[n] == b[n - 4..][4];
    hide LongRequest;
    assert BlankLineAt(b, n - 4);
    assert forall i :: 0 <= i < 6 ==> b[i] == b[..6][i];
    assert BlankLineAt(b, HeaderLength(b) - 4);
  }

  lemma LongTarget()
    ensures TargetOf(LongRequest()) == Some("/")
  {
    hide LongRequest;
    hide TargetOf;
    var b, line := LongRequest(), [71, 69, 84, 32, 47];
    assert b == line + ([LF] + b[6..]) by { assert b == b[..6] + b[6..]; }
    LineIs(line, b[6..]);
    RequestLine();
    RootIsNamed();
    hide TrimCr;
    hide Names;
    hide IsTarget;
    hide Encode;
    hide FirstLine;
    TargetIsExact(b, "/");
  }

  lemma RootIsNamed()
    ensures TrimCr("GET /") == "GET /" && Names("GET /", "/") && IsTarget("/")
  {
  }

  lemma {:induction false} LineIs(line: seq<Byte>, rest: seq<Byte>)
    requires LF !in line
    ensures FirstLine(line + ([LF] + rest)) == line
  {
    if line != [] {
      LineIs(line[1..], rest);
      assert (line + ([LF] + rest))[1..] == line[1..] + ([LF] + rest);
    }
  }

  lemma RequestLine()
    ensures Encode("GET /") == [71, 69, 84, 32, 47]
  {
    AsciiBytes("GET /");
    hide Encode;
  }

  /** Such a request exists: whether it is answered depends on how it arrives. */
  lemma SplitMattersHere(ending: Ending)
    ensures !SplitIsIrrelevant(LongRequest(), ending)
  {
    LongHeader();
    LongTarget();
    hide TargetOf;
    hide HeaderLength;
    hide LongRequest;
    SplitMattersExactlyWhen(LongRequest(), ending);
  }

  lemma {:induction false} NoTargetAnyway(buffer: seq<Byte>, chunks: seq<seq<Byte>>, ending: Ending)
    requires TargetOf(buffer + Flat(chunks)) == None
    ensures ReadOn(buffer, chunks, ending) == None
    decreases |chunks|
  {
    hide TargetOf;
    hide HasHeader;
    if chunks == [] {
      assert buffer + Flat(chunks) == buffer;
    } else {
      var more := buffer + chunks[0];
      assert buffer + Flat(chunks) == more + Flat(chunks[1..]);
      if HasHeader(more) {
        TargetOfPrefix(more, Flat(chunks[1..]));
      } else {
        NoTargetAnyway(more, chunks[1..], ending);
      }
    }
  }

  // ---------- the target ----------

  /** The request line names this target: GET, one space, the target, and then
      nothing or a space and anything. */
  predicate Names(line: string, target: string) {
    && "GET " <= line && target <= line[4..] && ' ' !in target
    && (|line| == 4 + |target| || line[4 + |target|] == ' ')
  }

  predicate SplitsInto(line: string, target: string) {
    var parts := Text.Split(line, ' ');
    |parts| >= 2 && parts[0] == "GET" && parts[1] == target
  }

  lemma FirstPiece(s: string)
    ensures Text.Split(s, ' ')[0] == s[..Text.Find(s, ' ')]
  {
    assert s[..|s|] == s;
  }

  lemma NamedIsSplit(line: string, target: string)
    requires Names(line, target)
    ensures SplitsInto(line, target)
  {
    var rest := line[4..];
    assert line[..3] == "GET" && line[3] == ' ';
    Text.FindIs(line, ' ', 3);
    Text.FindIs(rest, ' ', |target|);
    assert rest[..|target|] == target;
    hide Text.Find;
    FirstPiece(rest);
    assert Text.Split(line, ' ') == ["GET"] + Text.Split(rest, ' ');
  }

  lemma SplitIsNamed(line: string, target: string)
    requires SplitsInto(line, target)
    ensures Names(line, target)
  {
    hide Text.Find;
    var i := Text.Find(line, ' ');
    assert i < |line| && line[..i] == "GET";
    var rest := line[4..];
    var j := Text.Find(rest, ' ');
    assert line[i + 1..] == rest;
    FirstPiece(rest);
    assert target == rest[..j];
    assert line[..4] == "GET ";
  }

  lemma TargetsListed(t: string)
    ensures IsTarget(t) <==>
            t != "" && t[0] == '/' && forall i :: 0 <= i < |t| - 1 ==> t[i] != '.' || t[i + 1] != '.'
  {
  }

  /** A target is returned exactly if the first line is the text of a GET request
      that names it, and it is an absolute path without "..". */
  lemma TargetIsExact(b: seq<Byte>, target: string)
    ensures TargetOf(b) == Some(target) <==>
            && target != "" && target[0] == '/'
            && (forall i :: 0 <= i < |target| - 1 ==> target[i] != '.' || target[i + 1] != '.')
            && exists line :: Encode(line) == FirstLine(b) && Names(TrimCr(line), target)
  {
    TargetsListed(target);
    hide IsTarget;
    var decoded := Decode(FirstLine(b));
    if decoded.Some? {
      var line := TrimCr(decoded.value);
      DecodeIsExact(FirstLine(b), decoded.value);
      if Names(line, target) { NamedIsSplit(line, target); }
      if SplitsInto(line, target) { SplitIsNamed(line, target); }
    }
    forall line | Encode(line) == FirstLine(b) ensures decoded == Some(line) {
      DecodeIsExact(FirstLine(b), line);
    }
  }
}
