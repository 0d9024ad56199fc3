/// The control endpoint's request reader: bytes arrive in pieces of one to 4096
/// bytes, and the reader finds the end of the head while they come in. It is
/// compared with a parser that has the whole buffer in hand.
module HttpRequest {
  import opened Wrappers
  import opened Text

  const MAX_HEADER_BYTES: nat := 16 * 1024
  const CHUNK: nat := 4096
  const END_OF_HEAD: seq<Byte> := [13, 10, 13, 10]
  const USIZE_LIMIT: nat := 0x1_0000_0000_0000_0000

  datatype RequestError =
    | EndedBeforeHeaders | RequestTooLarge | HeadersTooLarge | NotUtf8 | InvalidRequestLine
    | InvalidContentLength | BodyTooLarge | BodyEndedEarly

  datatype Request = Request(verb: string, path: string, authorization: Option<string>, body: seq<Byte>)

  datatype Head = Head(verb: string, path: string, authorization: Option<string>, length: nat)

  datatype Outcome<+T> = Good(value: T) | Bad(error: RequestError)

  // ----- Finding a marker -----

  predicate At<T(==)>(hay: seq<T>, needle: seq<T>, i: nat)
  {
    i + |needle| <= |hay| && hay[i..i + |needle|] == needle
  }

  function Find<T(==)>(hay: seq<T>, needle: seq<T>): (r: Option<nat>)
    ensures r.Some? ==> At(hay, needle, r.value) && forall j: nat | j < r.value :: !At(hay, needle, j)
    ensures r.None? ==> forall j: nat :: !At(hay, needle, j)
  {
    FindFrom(hay, needle, 0)
  }

  function FindFrom<T(==)>(hay: seq<T>, needle: seq<T>, from: nat): (r: Option<nat>)
    requires from <= |hay|
    ensures r.Some? ==> At(hay, needle, r.value) && from <= r.value
    ensures r.Some? ==> forall j: nat | from <= j < r.value :: !At(hay, needle, j)
    ensures r.None? ==> forall j: nat | from <= j :: !At(hay, needle, j)
    decreases |hay| - from
  {
    if At(hay, needle, from) then Some(from)
    else if from == |hay| then None
    else FindFrom(hay, needle, from + 1)
  }

  lemma FoundAt<T>(hay: seq<T>, needle: seq<T>, i: nat)
    requires At(hay, needle, i) && forall j: nat | j < i :: !At(hay, needle, j)
    ensures Find(hay, needle) == Some(i)
  {
    hide At;
    var r := Find(hay, needle);
    assert r.Some?;
  }

  lemma NotAt<T>(hay: seq<T>, needle: seq<T>, j: nat)
    requires needle != [] && (j < |hay| ==> hay[j] != needle[0])
    ensures !At(hay, needle, j)
  {
    if j + |needle| <= |hay| {
      assert hay[j..j + |needle|][0] == hay[j];
    }
  }

  lemma NowhereIn<T>(hay: seq<T>, needle: seq<T>)
    requires needle != [] && forall j | 0 <= j < |hay| :: hay[j] != needle[0]
    ensures Find(hay, needle) == None
  {
    forall j: nat ensures !At(hay, needle, j) {
      NotAt(hay, needle, j);
    }
  }

  /// In a prefix of the buffer the marker is found once the prefix covers it.
  lemma FindInPrefix(data: seq<Byte>, k: nat)
    requires k <= |data|
    ensures Find(data[..k], END_OF_HEAD)
         == match Find(data, END_OF_HEAD)
            case Some(i) => if i + 4 <= k then Some(i) else None
            case None => None
  {
    forall j: nat ensures At(data[..k], END_OF_HEAD, j) <==> j + 4 <= k && At(data, END_OF_HEAD, j) {
      assert j + 4 <= k ==> data[..k][j..j + 4] == data[j..j + 4];
    }
    var all, found := Find(data, END_OF_HEAD), Find(data[..k], END_OF_HEAD);
    if found.Some? {
      assert At(data, END_OF_HEAD, found.value);
    }
  }

  // ----- Reading in pieces -----

  /// How many bytes the read numbered `turn` returns when `left` remain: the wire
  /// decides, between one and the buffer's 4096.
  function ReadSize(pieces: nat -> nat, turn: nat, left: nat): (n: nat)
    ensures n == 0 <==> left == 0
    ensures n <= left && n <= CHUNK
  {
    if left == 0 then 0 else 1 + pieces(turn) % (if left < CHUNK then left else CHUNK)
  }

  datatype HeadRead = HeadEndsAt(index: nat, got: nat) | HeadRefused(error: RequestError)

  /// The search for the end of the head, with `got` bytes so far.
  function ReadHead(data: seq<Byte>, pieces: nat -> nat, turn: nat, got: nat, maxBody: nat): HeadRead
    requires got <= |data|
    decreases |data| - got
  {
    if got == |data| then HeadRefused(EndedBeforeHeaders)
    else
      var more := got + ReadSize(pieces, turn, |data| - got);
      if more > MAX_HEADER_BYTES + maxBody then HeadRefused(RequestTooLarge)
      else match Find(data[..more], END_OF_HEAD)
        case Some(i) => HeadEndsAt(i, more)
        case None =>
          if more > MAX_HEADER_BYTES then HeadRefused(HeadersTooLarge)
          else ReadHead(data, pieces, turn + 1, more, maxBody)
  }

  /// How many bytes are in once the reads first cover `target`.
  function Covering(data: seq<Byte>, pieces: nat -> nat, turn: nat, got: nat, target: nat): (r: nat)
    requires got < target <= |data|
    ensures target <= r < target + CHUNK && r <= |data|
    decreases target - got
  {
    var more := got + ReadSize(pieces, turn, |data| - got);
    if more >= target then more else Covering(data, pieces, turn + 1, more, target)
  }

  /// Where the head ends, marker included; beyond the bytes when it does not.
  function HeadEnd(data: seq<Byte>): (end: nat)
    ensures Find(data, END_OF_HEAD) == if end <= |data| then Some(end - 4) else None
    ensures end > 0 && (end >= 4 || end > |data|)
  {
    match Find(data, END_OF_HEAD)
    case Some(at) => at + 4
    case None => |data| + 1
  }

  /// The search stops once the reads cover this many bytes: the end of the head, or
  /// a byte more than a head may have.
  function Stop(data: seq<Byte>): nat
  {
    var end := HeadEnd(data);
    if end <= MAX_HEADER_BYTES then end else MAX_HEADER_BYTES + 1
  }

  /// Whatever the bytes, the pieces decide by a single number: how many bytes are in
  /// once the reads cover the place where the search stops.
  lemma {:induction false} HeadFound(data: seq<Byte>, pieces: nat -> nat, turn: nat, got: nat, maxBody: nat)
    requires got < Stop(data) <= |data|
    ensures var c := Covering(data, pieces, turn, got, Stop(data));
            ReadHead(data, pieces, turn, got, maxBody)
            == if c > MAX_HEADER_BYTES + maxBody then HeadRefused(RequestTooLarge)
               else if HeadEnd(data) <= c then HeadEndsAt(HeadEnd(data) - 4, c)
               else HeadRefused(HeadersTooLarge)
    decreases |data| - got
  {
    var more := got + ReadSize(pieces, turn, |data| - got);
    FindInPrefix(data, more);
    if more < Stop(data) {
      HeadFound(data, pieces, turn + 1, more, maxBody);
    }
  }

  /// Bytes that end before the search stops are refused for that, however they
  /// arrive.
  lemma {:induction false} HeadMissing(data: seq<Byte>, pieces: nat -> nat, turn: nat, got: nat, maxBody: nat)
    requires got <= |data| < Stop(data)
    ensures ReadHead(data, pieces, turn, got, maxBody) == HeadRefused(EndedBeforeHeaders)
    decreases |data| - got
  {
    if got < |data| {
      var more := got + ReadSize(pieces, turn, |data| - got);
      FindInPrefix(data, more);
      HeadMissing(data, pieces, turn + 1, more, maxBody);
    }
  }

  /// However the bytes arrive, a head is accepted only at the first marker, within
  /// one piece of the header bound, and with a buffer that stays within bounds.
  lemma {:induction false} HeadBounded(data: seq<Byte>, pieces: nat -> nat, turn: nat, got: nat, maxBody: nat)
    requires got <= |data| && got <= MAX_HEADER_BYTES && Find(data[..got], END_OF_HEAD) == None
    ensures var r := ReadHead(data, pieces, turn, got, maxBody);
            r.HeadEndsAt? ==>
              && Find(data, END_OF_HEAD) == Some(r.index)
              && r.index + 4 <= r.got <= |data|
              && r.got <= MAX_HEADER_BYTES + maxBody && r.got <= MAX_HEADER_BYTES + CHUNK
    decreases |data| - got
  {
    if got < |data| {
      var more := got + ReadSize(pieces, turn, |data| - got);
      FindInPrefix(data, more);
      if more <= MAX_HEADER_BYTES && Find(data[..more], END_OF_HEAD).None? {
        HeadBounded(data, pieces, turn + 1, more, maxBody);
      }
    }
  }

  // ----- The head -----

  function Lines(text: string): (lines: seq<string>)
    ensures lines != []
  {
    match Find(text, "\r\n")
    case Some(i) => [text[..i]] + Lines(text[i + 2..])
    case None => [text]
  }

  function SkipSpace(s: string): string
  {
    if s != "" && IsWhitespace(s[0]) then SkipSpace(s[1..]) else s
  }

  function TakeWord(s: string): (word: string)
    ensures word <= s
  {
    if s != "" && !IsWhitespace(s[0]) then [s[0]] + TakeWord(s[1..]) else ""
  }

  function TrimEnd(s: string): string
  {
    if s != "" && IsWhitespace(s[|s| - 1]) then TrimEnd(s[..|s| - 1]) else s
  }

  function Trim(s: string): string
  {
    TrimEnd(SkipSpace(s))
  }

  function AsciiUpper(s: string): string
  {
    seq(|s|, i requires 0 <= i < |s| => if 'a' <= s[i] <= 'z' then s[i] - 'a' + 'A' else s[i])
  }

  function AsciiLower(s: string): string
  {
    seq(|s|, i requires 0 <= i < |s| => if 'A' <= s[i] <= 'Z' then s[i] - 'A' + 'a' else s[i])
  }

  function ParseUsize(s: string): Option<nat>
  {
    ParseUnsigned(s, USIZE_LIMIT)
  }

  /// A header line's lower-case name and its value; none without a colon.
  function NameAndValue(line: string): Option<(string, string)>
  {
    match Find(line, ":")
    case None => None
    case Some(colon) => Some((AsciiLower(Trim(line[..colon])), Trim(line[colon + 1..])))
  }

  /// The values, in order, of the header lines with that lower-case name.
  function Values(lines: seq<string>, name: string): seq<string>
  {
    if lines == [] then []
    else
      var parsed := NameAndValue(lines[|lines| - 1]);
      Values(lines[..|lines| - 1], name) + if parsed.Some? && parsed.value.0 == name then [parsed.value.1] else []
  }

  function Last<T>(s: seq<T>): Option<T>
  {
    if s == [] then None else Some(s[|s| - 1])
  }

  /// The length a head declares: that of its last Content-Length line, once every
  /// such line is a number.
  function DeclaredLength(lines: seq<string>): Option<nat>
  {
    var values := Values(lines, "content-length");
    if exists i | 0 <= i < |values| :: ParseUsize(values[i]).None? then None
    else if values == [] then Some(0)
    else ParseUsize(values[|values| - 1])
  }

  function ParseHead(text: string): Outcome<Head>
  {
    var lines := Lines(text);
    var first := SkipSpace(lines[0]);
    var verb := AsciiUpper(TakeWord(first));
    var path := TakeWord(SkipSpace(first[|TakeWord(first)|..]));
    if verb == "" || path == "" then Bad(InvalidRequestLine)
    else match DeclaredLength(lines[1..])
      case None => Bad(InvalidContentLength)
      case Some(length) => Good(Head(verb, path, Last(Values(lines[1..], "authorization")), length))
  }

  /// The header loop: values overwrite each other line by line, and the first
  /// length that is no number ends it.
  method ReadHeaderLines(lines: seq<string>) returns (length: Option<nat>, authorization: Option<string>)
    ensures length == DeclaredLength(lines)
    ensures length.Some? ==> authorization == Last(Values(lines, "authorization"))
  {
    hide NameAndValue, ParseUsize, DeclaredLength, Values, Last;
    var contentLength := 0;
    authorization := None;
    NoLines(lines);
    for n := 0 to |lines|
      invariant DeclaredLength(lines[..n]) == Some(contentLength)
      invariant authorization == Last(Values(lines[..n], "authorization"))
    {
      HeaderStep(lines, n);
      var parsed := NameAndValue(lines[n]);
      if parsed.Some? && parsed.value.0 == "content-length" {
        var number := ParseUsize(parsed.value.1);
        if number.None? {
          return None, authorization;
        }
        contentLength := number.value;
      } else if parsed.Some? && parsed.value.0 == "authorization" {
        authorization := Some(parsed.value.1);
      }
    }
    assert lines[..|lines|] == lines;
    length := Some(contentLength);
  }

  lemma NoLines(lines: seq<string>)
    ensures DeclaredLength(lines[..0]) == Some(0) && Last(Values(lines[..0], "authorization")) == None
  {
  }

  /// What one more line does to the length and the authorization found so far.
  lemma HeaderStep(lines: seq<string>, n: nat)
    requires n < |lines| && DeclaredLength(lines[..n]).Some?
    ensures var parsed := NameAndValue(lines[n]);
            var isLength := parsed.Some? && parsed.value.0 == "content-length";
            && DeclaredLength(lines[..n + 1])
                 == (if isLength then ParseUsize(parsed.value.1) else DeclaredLength(lines[..n]))
            && (isLength && ParseUsize(parsed.value.1).None? ==> DeclaredLength(lines).None?)
            && Last(Values(lines[..n + 1], "authorization"))
               == if parsed.Some? && parsed.value.0 == "authorization" then Some(parsed.value.1)
                  else Last(Values(lines[..n], "authorization"))
  {
    hide NameAndValue, ParseUsize, DeclaredLength, Values;
    OneMoreValue(lines, n, "authorization");
    OneMoreValue(lines, n, "content-length");
    OneMoreLength(lines, n);
    var parsed := NameAndValue(lines[n]);
    if parsed.Some? && parsed.value.0 == "content-length" && ParseUsize(parsed.value.1).None? {
      OneBadLength(lines, n, parsed.value.1);
    }
  }

  lemma OneMoreValue(lines: seq<string>, n: nat, name: string)
    requires n < |lines|
    ensures var parsed := NameAndValue(lines[n]);
            Values(lines[..n + 1], name)
            == Values(lines[..n], name) + if parsed.Some? && parsed.value.0 == name then [parsed.value.1] else []
  {
    hide NameAndValue;
    assert lines[..n + 1][..n] == lines[..n];
  }

  lemma OneMoreLength(lines: seq<string>, n: nat)
    requires n < |lines| && DeclaredLength(lines[..n]).Some?
    ensures var parsed := NameAndValue(lines[n]);
            DeclaredLength(lines[..n + 1])
            == if parsed.Some? && parsed.value.0 == "content-length" then ParseUsize(parsed.value.1)
               else DeclaredLength(lines[..n])
  {
    OneMoreValue(lines, n, "content-length");
    hide NameAndValue, ParseUsize, Values;
    var before, after := Values(lines[..n], "content-length"), Values(lines[..n + 1], "content-length");
    assert forall i | 0 <= i < |before| :: after[i] == before[i];
    if after != before && ParseUsize(after[|before|]).None? {
      assert DeclaredLength(lines[..n + 1]).None?;
    }
  }

  lemma {:induction false} OneBadLength(lines: seq<string>, n: nat, value: string)
    requires n < |lines| && ParseUsize(value).None?
    requires Values(lines[..n + 1], "content-length") == Values(lines[..n], "content-length") + [value]
    ensures DeclaredLength(lines).None?
  {
    ValuesGrow(lines, n + 1, "content-length");
    var values := Values(lines, "content-length");
    var k := |Values(lines[..n], "content-length")|;
    assert values[k] == value;
  }

  lemma {:induction false} ValuesGrow(lines: seq<string>, n: nat, name: string)
    requires n <= |lines|
    ensures Values(lines[..n], name) <= Values(lines, name)
    decreases |lines|
  {
    if n < |lines| {
      ValuesGrow(lines[..|lines| - 1], n, name);
      assert lines[..|lines| - 1][..n] == lines[..n];
    } else {
      assert lines[..n] == lines;
    }
  }

  // ----- The whole request -----

  /// The request in a buffer that holds all of it. `decode` reads UTF-8.
  function Whole(data: seq<Byte>, decode: seq<Byte> -> Option<string>, maxBody: nat): Outcome<Request>
  {
    match Find(data, END_OF_HEAD)
    case None => Bad(EndedBeforeHeaders)
    case Some(at) => AfterHead(data, decode, maxBody, at)
  }

  /// Framing by the declared length (section 6.3 of RFC 9112).
  function AfterHead(data: seq<Byte>, decode: seq<Byte> -> Option<string>, maxBody: nat, at: nat): Outcome<Request>
    requires at + 4 <= |data|
  {
    match decode(data[..at])
    case None => Bad(NotUtf8)
    case Some(text) =>
      match ParseHead(text)
      case Bad(e) => Bad(e)
      case Good(head) =>
        if head.length > maxBody then Bad(BodyTooLarge)
        else if |data| < at + 4 + head.length then Bad(BodyEndedEarly)
        else Good(Request(head.verb, head.path, head.authorization, data[at + 4..at + 4 + head.length]))
  }

  /// The request as it is read from bytes that arrive in those pieces.
  function Streamed(data: seq<Byte>, pieces: nat -> nat, decode: seq<Byte> -> Option<string>,
                    maxBody: nat): Outcome<Request>
  {
    match ReadHead(data, pieces, 0, 0, maxBody)
    case HeadRefused(e) => Bad(e)
    case HeadEndsAt(at, got) =>
      assert Find(data[..0], END_OF_HEAD) == None;
      HeadBounded(data, pieces, 0, 0, maxBody);
      AfterHead(data, decode, maxBody, at)
  }

  /// A connection: what the peer will have sent, and how the wire cuts it.
  class Stream {
    const data: seq<Byte>
    const pieces: nat -> nat
    var pos: nat
    var turn: nat

    ghost predicate Valid()
      reads this
    {
      pos <= |data|
    }

    constructor (data: seq<Byte>, pieces: nat -> nat)
      ensures Valid() && this.data == data && this.pieces == pieces && pos == 0 && turn == 0
    {
      this.data, this.pieces, pos, turn := data, pieces, 0, 0;
    }

    method Read() returns (chunk: seq<Byte>)
      requires Valid()
      modifies this
      ensures Valid() && pos == old(pos) + ReadSize(pieces, old(turn), |data| - old(pos))
      ensures turn == old(turn) + 1 && chunk == data[old(pos)..pos]
    {
      var n := ReadSize(pieces, turn, |data| - pos);
      chunk := data[pos..pos + n];
      pos, turn := pos + n, turn + 1;
    }
  }

  /// The reader never takes more off the wire than both bounds and two pieces.
  method ReadRequest(stream: Stream, decode: seq<Byte> -> Option<string>, maxBody: nat) returns (r: Outcome<Request>)
    requires stream.Valid() && stream.pos == 0 && stream.turn == 0
    modifies stream
    ensures r == Streamed(stream.data, stream.pieces, decode, maxBody)
    ensures stream.pos <= MAX_HEADER_BYTES + maxBody + 2 * CHUNK
  {
    hide Lines, SkipSpace, TakeWord, AsciiUpper, DeclaredLength, Values, ReadHead;
    var headRead, raw := ReadUntilHead(stream, maxBody);
    if headRead.HeadRefused? {
      return Bad(headRead.error);
    }
    var at := headRead.index;
    var text := decode(raw[..at]);
    assert raw[..at] == stream.data[..at];
    if text.None? {
      return Bad(NotUtf8);
    }
    var lines := Lines(text.value);
    var first := SkipSpace(lines[0]);
    var verb := AsciiUpper(TakeWord(first));
    var path := TakeWord(SkipSpace(first[|TakeWord(first)|..]));
    if verb == "" || path == "" {
      return Bad(InvalidRequestLine);
    }
    var length, authorization := ReadHeaderLines(lines[1..]);
    if length.None? {
      return Bad(InvalidContentLength);
    }
    if length.value > maxBody {
      return Bad(BodyTooLarge);
    }
    r := ReadBody(stream, raw, at + 4, length.value, Head(verb, path, authorization, length.value));
  }

  method ReadUntilHead(stream: Stream, maxBody: nat) returns (r: HeadRead, raw: seq<Byte>)
    requires stream.Valid() && stream.pos == 0 && stream.turn == 0
    modifies stream
    ensures stream.Valid() && raw == stream.data[..stream.pos]
    ensures r == ReadHead(stream.data, stream.pieces, 0, 0, maxBody)
    ensures r.HeadEndsAt? ==>
              r.got == stream.pos && Find(stream.data, END_OF_HEAD) == Some(r.index) && r.index + 4 <= stream.pos
    ensures stream.pos <= MAX_HEADER_BYTES + CHUNK
  {
    hide Find, At;
    var data, pieces := stream.data, stream.pieces;
    raw := [];
    assert data[..0] == [];
    assert Find(data[..0], END_OF_HEAD) == None by { FindInPrefix(data, 0); }
    HeadBounded(data, pieces, 0, 0, maxBody);
    while true
      invariant stream.Valid() && raw == data[..stream.pos] && |raw| <= MAX_HEADER_BYTES
      invariant ReadHead(data, pieces, 0, 0, maxBody) == ReadHead(data, pieces, stream.turn, stream.pos, maxBody)
      decreases |data| - stream.pos
    {
      var got, turn := stream.pos, stream.turn;
      var chunk := stream.Read();
      raw := raw + chunk;
      assert raw == data[..stream.pos];
      assert ReadHead(data, pieces, turn, got, maxBody) == ReadHead(data, pieces, 0, 0, maxBody);
      if |chunk| == 0 {
        return HeadRefused(EndedBeforeHeaders), raw;
      }
      if |raw| > MAX_HEADER_BYTES + maxBody {
        return HeadRefused(RequestTooLarge), raw;
      }
      var found := Find(raw, END_OF_HEAD);
      if found.Some? {
        return HeadEndsAt(found.value, |raw|), raw;
      }
      if |raw| > MAX_HEADER_BYTES {
        return HeadRefused(HeadersTooLarge), raw;
      }
    }
  }

  method ReadBody(stream: Stream, head: seq<Byte>, start: nat, length: nat, parsed: Head) returns (r: Outcome<Request>)
    requires stream.Valid() && head == stream.data[..stream.pos] && start <= stream.pos
    modifies stream
    ensures stream.pos <= old(stream.pos) || stream.pos < start + length + CHUNK
    ensures r == if |stream.data| < start + length then Bad(BodyEndedEarly)
                 else Good(Request(parsed.verb, parsed.path, parsed.authorization, stream.data[start..start + length]))
  {
    var raw := head;
    while |raw| < start + length
      invariant stream.Valid() && raw == stream.data[..stream.pos] && start <= stream.pos
      invariant stream.pos <= old(stream.pos) || stream.pos < start + length + CHUNK
      decreases |stream.data| - stream.pos
    {
      var chunk := stream.Read();
      if |chunk| == 0 {
        return Bad(BodyEndedEarly);
      }
      raw := raw + chunk;
    }
    assert raw[start..start + length] == stream.data[start..start + length];
    r := Good(Request(parsed.verb, parsed.path, parsed.authorization, raw[start..start + length]));
  }

  // ----- What the split can change -----

  /// The request when `c` bytes are in where the search stops.
  function OutcomeAt(data: seq<Byte>, c: nat, decode: seq<Byte> -> Option<string>, maxBody: nat): Outcome<Request>
  {
    if c > MAX_HEADER_BYTES + maxBody then Bad(RequestTooLarge)
    else if HeadEnd(data) <= c then Whole(data, decode, maxBody)
    else Bad(HeadersTooLarge)
  }

  lemma StreamedBy(data: seq<Byte>, pieces: nat -> nat, decode: seq<Byte> -> Option<string>, maxBody: nat)
    ensures Streamed(data, pieces, decode, maxBody)
         == if |data| < Stop(data) then Bad(EndedBeforeHeaders)
            else OutcomeAt(data, Covering(data, pieces, 0, 0, Stop(data)), decode, maxBody)
  {
    hide AfterHead, ReadHead, Find;
    if |data| < Stop(data) {
      HeadMissing(data, pieces, 0, 0, maxBody);
    } else {
      HeadFound(data, pieces, 0, 0, maxBody);
    }
  }

  /// The whole-buffer parser knows neither of the refusals for size.
  lemma ParseNeverTooLarge(data: seq<Byte>, decode: seq<Byte> -> Option<string>, maxBody: nat)
    ensures Whole(data, decode, maxBody) != Bad(RequestTooLarge)
    ensures Whole(data, decode, maxBody) != Bad(HeadersTooLarge)
  {
    hide Lines, Values, SkipSpace, TakeWord;
  }

  /// A request whose head fits is read as from a whole buffer, whatever the
  /// pieces, unless the read that completes the head overruns the request bound.
  lemma StreamedIsWhole(data: seq<Byte>, pieces: nat -> nat, decode: seq<Byte> -> Option<string>, maxBody: nat)
    requires Find(data, END_OF_HEAD).Some? && Find(data, END_OF_HEAD).value + 4 <= MAX_HEADER_BYTES
    ensures var end := Find(data, END_OF_HEAD).value + 4;
            && (Covering(data, pieces, 0, 0, end) <= MAX_HEADER_BYTES + maxBody
                <==> Streamed(data, pieces, decode, maxBody) == Whole(data, decode, maxBody))
            && (Covering(data, pieces, 0, 0, end) > MAX_HEADER_BYTES + maxBody
                <==> Streamed(data, pieces, decode, maxBody) == Bad(RequestTooLarge))
  {
    StreamedBy(data, pieces, decode, maxBody);
    ParseNeverTooLarge(data, decode, maxBody);
    hide Streamed, Whole, Covering;
  }

  /// The last byte that can be in where the search stops.
  function LastIn(data: seq<Byte>): (last: nat)
  {
    if |data| < Stop(data) + CHUNK then |data| else Stop(data) + CHUNK - 1
  }

  /// Nothing can be in that changes the outcome: the bytes end before the search
  /// stops; or they are over the request bound whenever it stops; or they never are,
  /// and a head that does not end where it stops does not end within a piece either.
  predicate OneOutcome(data: seq<Byte>, maxBody: nat)
  {
    || |data| < Stop(data)
    || Stop(data) > MAX_HEADER_BYTES + maxBody
    || (LastIn(data) <= MAX_HEADER_BYTES + maxBody && (HeadEnd(data) == Stop(data) || HeadEnd(data) > LastIn(data)))
  }

  ghost predicate SplitsAgree(data: seq<Byte>, decode: seq<Byte> -> Option<string>, maxBody: nat)
  {
    forall pieces: nat -> nat, others: nat -> nat ::
      Streamed(data, pieces, decode, maxBody) == Streamed(data, others, decode, maxBody)
  }

  /// All ways of cutting the same bytes give the same request, or the same refusal,
  /// exactly when nothing can be in that changes the outcome.
  lemma SplitsAgreeExactly(data: seq<Byte>, decode: seq<Byte> -> Option<string>, maxBody: nat)
    ensures SplitsAgree(data, decode, maxBody) <==> OneOutcome(data, maxBody)
  {
    hide Streamed, HeadEnd, Covering, Whole;
    forall pieces: nat -> nat, others: nat -> nat | OneOutcome(data, maxBody)
      ensures Streamed(data, pieces, decode, maxBody) == Streamed(data, others, decode, maxBody)
    {
      StreamedBy(data, pieces, decode, maxBody);
      StreamedBy(data, others, decode, maxBody);
    }
    if !OneOutcome(data, maxBody) {
      var end, stop, last := HeadEnd(data), Stop(data), LastIn(data);
      ParseNeverTooLarge(data, decode, maxBody);
      CutAt(data, stop, decode, maxBody);
      CutAt(data, last, decode, maxBody);
      if stop < end <= last {
        CutAt(data, end, decode, maxBody);
      }
    }
  }

  /// Single bytes, and after `turns` of them pieces of `size`.
  function Cut(turns: nat, size: nat): nat -> nat
    requires size > 0
  {
    turn => if turn < turns then 0 else size - 1
  }

  /// A split that has exactly that many bytes in where the search stops.
  function SplitAt(data: seq<Byte>, c: nat): nat -> nat
    requires Stop(data) <= c
  {
    Cut(Stop(data) - 1, c - Stop(data) + 1)
  }

  lemma CutAt(data: seq<Byte>, c: nat, decode: seq<Byte> -> Option<string>, maxBody: nat)
    requires Stop(data) <= c <= LastIn(data) && Stop(data) <= |data|
    ensures Streamed(data, SplitAt(data, c), decode, maxBody) == OutcomeAt(data, c, decode, maxBody)
  {
    var stop := Stop(data);
    CutCovers(data, 0, stop, c);
    assert SplitAt(data, c) == Cut(stop - 1, c - stop + 1);
    hide Streamed, OutcomeAt, Stop, Cut, SplitAt, Covering;
    StreamedBy(data, SplitAt(data, c), decode, maxBody);
  }

  lemma {:induction false} CutCovers(data: seq<Byte>, got: nat, stop: nat, c: nat)
    requires got < stop <= c <= |data| && c < stop + CHUNK
    ensures Covering(data, Cut(stop - 1, c - stop + 1), got, got, stop) == c
    decreases stop - got
  {
    var pieces := Cut(stop - 1, c - stop + 1);
    if got + 1 < stop {
      assert ReadSize(pieces, got, |data| - got) == 1 by { FirstInCycle(0, |data| - got); }
      CutCovers(data, got + 1, stop, c);
    } else {
      assert ReadSize(pieces, got, |data| - got) == c - got by { FirstInCycle(c - stop, |data| - got); }
    }
  }

  lemma FirstInCycle(n: nat, left: nat)
    requires n < left && n < CHUNK
    ensures n % (if left < CHUNK then left else CHUNK) == n
  {
  }

  /// A head that ends from two to 4096 bytes beyond the header bound is refused as
  /// too long when the bytes come one by one, and read like any other when one piece
  /// brings its end, for every body bound that leaves room for it.
  lemma LongHeadDependsOnPieces(data: seq<Byte>, decode: seq<Byte> -> Option<string>, maxBody: nat)
    requires HeadEnd(data) <= |data|
    requires MAX_HEADER_BYTES + 2 <= HeadEnd(data) <= MAX_HEADER_BYTES + CHUNK
    requires HeadEnd(data) <= MAX_HEADER_BYTES + maxBody
    ensures Stop(data) == MAX_HEADER_BYTES + 1
    ensures Streamed(data, SplitAt(data, Stop(data)), decode, maxBody) == Bad(HeadersTooLarge)
    ensures Streamed(data, SplitAt(data, HeadEnd(data)), decode, maxBody) == Whole(data, decode, maxBody)
  {
    CutAt(data, Stop(data), decode, maxBody);
    CutAt(data, HeadEnd(data), decode, maxBody);
    hide Streamed, Whole, HeadEnd, SplitAt;
  }

  /// A head that fits is refused with its request as too large when its last byte
  /// comes in a piece that overruns the request bound, and read when it comes alone.
  lemma ShortHeadDependsOnPieces(data: seq<Byte>, decode: seq<Byte> -> Option<string>, maxBody: nat)
    requires HeadEnd(data) <= MAX_HEADER_BYTES && HeadEnd(data) <= |data|
    requires LastIn(data) > MAX_HEADER_BYTES + maxBody
    ensures Stop(data) == HeadEnd(data) <= LastIn(data)
    ensures Streamed(data, SplitAt(data, HeadEnd(data)), decode, maxBody) == Whole(data, decode, maxBody)
    ensures Streamed(data, SplitAt(data, LastIn(data)), decode, maxBody) == Bad(RequestTooLarge)
  {
    CutAt(data, HeadEnd(data), decode, maxBody);
    CutAt(data, LastIn(data), decode, maxBody);
    hide Streamed, Whole, HeadEnd, SplitAt;
  }

  // ----- Requests written out -----

  predicate IsAscii(text: string)
  {
    forall i | 0 <= i < |text| :: text[i] < '\U{80}'
  }

  function Ascii(text: string): (bytes: seq<Byte>)
    requires IsAscii(text)
  {
    seq(|text|, i requires 0 <= i < |text| => text[i] as int)
  }

  /// A head of that size, marker included, without headers.
  function FullHead(size: nat): (text: string)
    requires size > 7
    ensures |text| == size - 4
    ensures IsAscii(text)
  {
    "G /" + seq(size - 7, _ => ' ')
  }

  lemma FullHeadParses(size: nat)
    requires size > 7
    ensures ParseHead(FullHead(size)) == Good(Head("G", "/", None, 0))
  {
    var text := FullHead(size);
    assert text[0] == 'G' && text[1] == ' ' && text[2] == '/' && text[3] == ' ';
    NowhereIn(text, "\r\n");
    assert Lines(text) == [text];
    assert TakeWord(text[1..]) == "";
    assert TakeWord(text) == "G" by { assert text[1..][0] == ' '; }
    var rest := text[1..];
    assert SkipSpace(rest) == rest[1..] by { assert rest[0] == ' ' && rest[1..][0] == '/'; }
    assert TakeWord(rest[1..]) == "/" by { assert rest[1..][0] == '/' && rest[1..][1..][0] == ' '; }
    assert AsciiUpper("G") == "G";
    assert Lines(text)[1..] == [];
  }

  /// What goes over the wire: that head, and other bytes behind it.
  function FullRequest(size: nat, behind: nat): seq<Byte>
    requires size > 7
  {
    Ascii(FullHead(size)) + END_OF_HEAD + seq(behind, _ => 0)
  }

  lemma FullHeadAt(size: nat, behind: nat)
    requires size > 7
    ensures HeadEnd(FullRequest(size, behind)) == size && |FullRequest(size, behind)| == size + behind
  {
    var head, at, data := Ascii(FullHead(size)), size - 4, FullRequest(size, behind);
    forall j: nat | j < at ensures !At(data, END_OF_HEAD, j) {
      assert data[j] == head[j] != 13;
      NotAt(data, END_OF_HEAD, j);
    }
    hide FullHead;
    assert At(data, END_OF_HEAD, at);
    FoundAt(data, END_OF_HEAD, at);
  }

  lemma FullRequestIsGood(size: nat, behind: nat, decode: seq<Byte> -> Option<string>, maxBody: nat)
    requires size > 7 && decode(Ascii(FullHead(size))) == Some(FullHead(size))
    ensures Whole(FullRequest(size, behind), decode, maxBody) == Good(Request("G", "/", None, []))
  {
    FullHeadParses(size);
    FullHeadAt(size, behind);
    var data := FullRequest(size, behind);
    assert data[..size - 4] == Ascii(FullHead(size)) && data[size..size] == [];
    hide ParseHead, FullHead, FullRequest, Find;
  }

  /// For every body bound below a piece less one byte there is a request, with other
  /// bytes behind it, that is served when the bytes come one by one and refused as
  /// too large when a full piece completes the head.
  lemma SmallBodyBoundDependsOnPieces(decode: seq<Byte> -> Option<string>, maxBody: nat)
    requires maxBody < CHUNK - 1
    requires decode(Ascii(FullHead(MAX_HEADER_BYTES))) == Some(FullHead(MAX_HEADER_BYTES))
    ensures var data := FullRequest(MAX_HEADER_BYTES, CHUNK - 1);
            && Streamed(data, Cut(MAX_HEADER_BYTES - 1, 1), decode, maxBody) == Good(Request("G", "/", None, []))
            && Streamed(data, Cut(MAX_HEADER_BYTES - 1, CHUNK), decode, maxBody) == Bad(RequestTooLarge)
  {
    hide Streamed, Whole, HeadEnd, FullRequest;
    FullHeadAt(MAX_HEADER_BYTES, CHUNK - 1);
    FullRequestIsGood(MAX_HEADER_BYTES, CHUNK - 1, decode, maxBody);
    ShortHeadDependsOnPieces(FullRequest(MAX_HEADER_BYTES, CHUNK - 1), decode, maxBody);
  }

  /// For every body bound from two bytes on there is a request with a head two bytes
  /// too long that is refused when the bytes come one by one and served when its last
  /// two bytes come together.
  lemma LargeBodyBoundDependsOnPieces(decode: seq<Byte> -> Option<string>, maxBody: nat)
    requires maxBody >= 2
    requires decode(Ascii(FullHead(MAX_HEADER_BYTES + 2))) == Some(FullHead(MAX_HEADER_BYTES + 2))
    ensures var data := FullRequest(MAX_HEADER_BYTES + 2, 0);
            && Streamed(data, Cut(MAX_HEADER_BYTES, 1), decode, maxBody) == Bad(HeadersTooLarge)
            && Streamed(data, Cut(MAX_HEADER_BYTES, 2), decode, maxBody) == Good(Request("G", "/", None, []))
  {
    hide Streamed, Whole, HeadEnd, FullRequest;
    FullHeadAt(MAX_HEADER_BYTES + 2, 0);
    FullRequestIsGood(MAX_HEADER_BYTES + 2, 0, decode, maxBody);
    LongHeadDependsOnPieces(FullRequest(MAX_HEADER_BYTES + 2, 0), decode, maxBody);
  }

  predicate IsWord(s: string)
  {
    s != "" && IsAscii(s) && forall i | 0 <= i < |s| :: !IsWhitespace(s[i])
  }

  /// Text that stays as it is on a line of its own.
  predicate IsLineText(s: string)
  {
    s != "" && IsAscii(s) && s[0] != '\n' && forall i | 0 <= i < |s| :: s[i] != '\r'
  }

  predicate Sendable(r: Request)
  {
    && IsWord(r.verb) && IsWord(r.path) && |r.body| < USIZE_LIMIT
    && (r.authorization.Some? ==>
          IsLineText(r.authorization.value) && Trim(r.authorization.value) == r.authorization.value)
  }

  /// How headers are written: the case of their names, and the spaces and tabs around
  /// their values.
  datatype Style = Style(lengthName: string, authorizationName: string, before: string, after: string)
  {
    predicate Valid()
    {
      && AsciiLower(lengthName) == "content-length" && AsciiLower(authorizationName) == "authorization"
      && IsPadding(before) && IsPadding(after)
    }

    function Line(name: string, value: string): string
    {
      name + ":" + before + value + after
    }
  }

  predicate IsPadding(s: string)
  {
    forall i | 0 <= i < |s| :: s[i] == ' ' || s[i] == '\t'
  }

  function HeadLines(r: Request, w: Style): (lines: seq<string>)
    ensures lines != []
  {
    [r.verb + " " + r.path + " HTTP/1.1"]
    + (if r.authorization.Some? then [w.Line(w.authorizationName, r.authorization.value)] else [])
    + [w.Line(w.lengthName, Decimal(|r.body|))]
  }

  function JoinLines(lines: seq<string>): string
    requires lines != []
  {
    if |lines| == 1 then lines[0] else lines[0] + "\r\n" + JoinLines(lines[1..])
  }

  lemma {:induction false} LinesOfJoined(lines: seq<string>)
    requires lines != [] && forall i | 0 <= i < |lines| :: IsLineText(lines[i])
    ensures Lines(JoinLines(lines)) == lines
  {
    var text := JoinLines(lines);
    if |lines| == 1 {
      NowhereIn(text, "\r\n");
    } else {
      LinesOfJoined(lines[1..]);
      var first, rest := lines[0], JoinLines(lines[1..]);
      forall j: nat | j < |first| ensures !At(text, "\r\n", j) {
        assert text[j] == first[j];
        NotAt(text, "\r\n", j);
      }
      FoundAt(text, "\r\n", |first|);
      assert text[..|first|] == first && text[|first| + 2..] == rest;
    }
  }

  /// Every carriage return is followed by some character and then by one that is
  /// no carriage return.
  predicate NoBlankLine(text: string)
  {
    forall j | 0 <= j < |text| && text[j] == '\r' :: j + 2 < |text| && text[j + 2] != '\r'
  }

  lemma {:induction false} NoBlankLineInJoined(lines: seq<string>)
    requires lines != [] && forall i | 0 <= i < |lines| :: IsLineText(lines[i])
    ensures var text := JoinLines(lines); text != "" && text[0] != '\r' && NoBlankLine(text) && IsAscii(text)
  {
    if |lines| > 1 {
      NoBlankLineInJoined(lines[1..]);
      var first, rest, text := lines[0], JoinLines(lines[1..]), JoinLines(lines);
      assert text[|first|] == '\r' && text[|first| + 1] == '\n';
      assert forall j | 0 <= j < |first| :: text[j] == first[j];
      assert forall j | |first| + 2 <= j < |text| :: text[j] == rest[j - |first| - 2];
    }
  }

  /// What goes over the wire for a request.
  function Format(r: Request, w: Style): seq<Byte>
    requires Sendable(r) && w.Valid()
  {
    HeadIsLines(r, w);
    NoBlankLineInJoined(HeadLines(r, w));
    Ascii(JoinLines(HeadLines(r, w))) + END_OF_HEAD + r.body
  }

  lemma HeadIsLines(r: Request, w: Style)
    requires Sendable(r) && w.Valid()
    ensures forall i | 0 <= i < |HeadLines(r, w)| :: IsLineText(HeadLines(r, w)[i])
  {
    hide Trim, AsciiUpper, AsciiLower, Decimal;
    assert IsLineText(r.verb + " " + r.path + " HTTP/1.1");
    HeaderName(w.lengthName, "content-length");
    DigitsAreLineText(|r.body|);
    LineIsText(w, w.lengthName, Decimal(|r.body|));
    if r.authorization.Some? {
      HeaderName(w.authorizationName, "authorization");
      LineIsText(w, w.authorizationName, r.authorization.value);
    }
  }

  lemma DigitsAreLineText(n: nat)
    ensures IsLineText(Decimal(n))
  {
    hide Decimal;
  }

  lemma LineIsText(w: Style, name: string, value: string)
    requires IsPadding(w.before) && IsPadding(w.after) && IsLineText(name) && IsLineText(value)
    ensures IsLineText(w.Line(name, value))
  {
    var a, b := name + ":", w.before + value + w.after;
    assert w.Line(name, value) == a + b;
    forall i | 0 <= i < |b| ensures b[i] < '\U{80}' && b[i] != '\r' {
      if i < |w.before| {
        assert b[i] == w.before[i];
      } else if i < |w.before| + |value| {
        assert b[i] == value[i - |w.before|];
      } else {
        assert b[i] == w.after[i - |w.before| - |value|];
      }
    }
  }

  /// A name that is a header's in some case: no space, no colon, nothing else.
  lemma HeaderName(name: string, lower: string)
    requires AsciiLower(name) == lower && lower != ""
    requires forall i | 0 <= i < |lower| :: 'a' <= lower[i] <= 'z' || lower[i] == '-'
    ensures IsLineText(name) && Trim(name) == name && forall i | 0 <= i < |name| :: name[i] != ':'
  {
    forall i | 0 <= i < |name|
      ensures name[i] < '\U{80}' && !IsWhitespace(name[i]) && name[i] != ':' && name[i] != '\r' && name[i] != '\n'
    {
      assert AsciiLower(name)[i] == lower[i];
    }
    assert SkipSpace(name) == name && TrimEnd(name) == name;
  }

  lemma MarkerEndsHead(r: Request, w: Style, rest: seq<Byte>)
    requires Sendable(r) && w.Valid()
    ensures Find(Format(r, w) + rest, END_OF_HEAD) == Some(|JoinLines(HeadLines(r, w))|)
  {
    HeadIsLines(r, w);
    NoBlankLineInJoined(HeadLines(r, w));
    hide JoinLines, HeadLines, Sendable, AsciiLower;
    var text, data := JoinLines(HeadLines(r, w)), Format(r, w) + rest;
    var head := Ascii(text);
    forall j: nat | j < |text| ensures !At(data, END_OF_HEAD, j) {
      assert data[j] == head[j] == text[j] as int;
      if data[j] != 13 {
        NotAt(data, END_OF_HEAD, j);
      } else {
        assert data[j + 2] == head[j + 2] == text[j + 2] as int;
        assert j + 4 <= |data| ==> data[j..j + 4][2] == data[j + 2];
      }
    }
    assert At(data, END_OF_HEAD, |text|);
    FoundAt(data, END_OF_HEAD, |text|);
  }

  predicate NoSpace(s: string)
  {
    forall i | 0 <= i < |s| :: !IsWhitespace(s[i])
  }

  lemma {:induction false} WordTaken(word: string, rest: string)
    requires NoSpace(word) && (rest == "" || IsWhitespace(rest[0]))
    ensures TakeWord(word + rest) == word && (word != "" ==> SkipSpace(word + rest) == word + rest)
  {
    if word == "" {
      assert word + rest == rest;
    } else {
      assert (word + rest)[1..] == word[1..] + rest;
      WordTaken(word[1..], rest);
    }
  }

  lemma {:induction false} SkippedSpace(before: string, rest: string)
    requires IsBlank(before)
    ensures SkipSpace(before + rest) == SkipSpace(rest)
  {
    if before == "" {
      assert before + rest == rest;
    } else {
      SkippedSpace(before[1..], rest);
      assert (before + rest)[1..] == before[1..] + rest;
    }
  }

  lemma {:induction false} TrimmedEnd(s: string, after: string)
    requires IsBlank(after)
    ensures TrimEnd(s + after) == TrimEnd(s)
  {
    if after == "" {
      assert s + after == s;
    } else {
      TrimmedEnd(s, after[..|after| - 1]);
      assert (s + after)[..|s + after| - 1] == s + after[..|after| - 1];
    }
  }

  lemma {:induction false} OnlyShorter(s: string)
    ensures |SkipSpace(s)| <= |s| && |TrimEnd(s)| <= |s|
    ensures SkipSpace(s) == s || |SkipSpace(s)| < |s|
    ensures TrimEnd(s) == s || |TrimEnd(s)| < |s|
  {
    if s != "" {
      OnlyShorter(s[1..]);
      OnlyShorter(s[..|s| - 1]);
    }
  }

  /// Blanks around a value are not part of it.
  lemma PaddingIsTrimmed(before: string, value: string, after: string)
    requires IsBlank(before) && IsBlank(after) && Trim(value) == value
    ensures Trim(before + value + after) == value
  {
    OnlyShorter(value);
    OnlyShorter(SkipSpace(value));
    assert before + value + after == before + (value + after);
    SkippedSpace(before, value + after);
    if value == "" {
      assert value + after == after;
      SkippedSpace(after, "");
      assert after + "" == after;
    } else {
      OnlyShorter(value[1..]);
      assert SkipSpace(value) == value && !IsWhitespace(value[0]);
      assert SkipSpace(value + after) == value + after;
      TrimmedEnd(value, after);
    }
  }

  lemma NamedLine(w: Style, name: string, value: string)
    requires forall i | 0 <= i < |name| :: name[i] != ':'
    requires Trim(name) == name && Trim(value) == value && IsPadding(w.before) && IsPadding(w.after)
    ensures NameAndValue(w.Line(name, value)) == Some((AsciiLower(name), value))
  {
    var line := w.Line(name, value);
    forall j: nat | j < |name| ensures !At(line, ":", j) {
      assert line[j] == name[j];
      NotAt(line, ":", j);
    }
    assert line[|name|] == ':';
    FoundAt(line, ":", |name|);
    assert line[..|name|] == name && line[|name| + 1..] == w.before + value + w.after;
    PaddingIsTrimmed(w.before, value, w.after);
  }

  lemma DecimalIsTrimmed(n: nat)
    ensures Trim(Decimal(n)) == Decimal(n)
    ensures n < USIZE_LIMIT ==> ParseUsize(Decimal(n)) == Some(n)
  {
    hide Decimal, Digits;
    DigitsOfDecimal(n);
    var s := Decimal(n);
    assert !IsWhitespace(s[0]) && !IsWhitespace(s[|s| - 1]);
    assert SkipSpace(s) == s && TrimEnd(s) == s;
  }

  lemma LengthLine(w: Style, n: nat)
    requires n < USIZE_LIMIT && w.Valid()
    ensures NameAndValue(w.Line(w.lengthName, Decimal(n))) == Some(("content-length", Decimal(n)))
  {
    DecimalIsTrimmed(n);
    HeaderName(w.lengthName, "content-length");
    hide Decimal, NameAndValue;
    NamedLine(w, w.lengthName, Decimal(n));
  }

  lemma AuthorizationLine(w: Style, value: string)
    requires Trim(value) == value && w.Valid()
    ensures NameAndValue(w.Line(w.authorizationName, value)) == Some(("authorization", value))
  {
    HeaderName(w.authorizationName, "authorization");
    hide NameAndValue;
    NamedLine(w, w.authorizationName, value);
  }

  lemma TwoHeaders(lines: seq<string>, lengthLine: string, digits: string, n: nat, authLine: string,
                   authorization: Option<string>)
    requires ParseUsize(digits) == Some(n)
    requires NameAndValue(lengthLine) == Some(("content-length", digits))
    requires authorization.Some? ==> NameAndValue(authLine) == Some(("authorization", authorization.value))
    requires lines == (if authorization.Some? then [authLine] else []) + [lengthLine]
    ensures DeclaredLength(lines) == Some(n) && Last(Values(lines, "authorization")) == authorization
  {
    hide NameAndValue, ParseUsize;
    assert lines[..0] == [] && lines[..|lines|] == lines;
    NoLines(lines);
    HeaderStep(lines, 0);
    if |lines| > 1 {
      HeaderStep(lines, 1);
    }
  }

  lemma HeadersOf(r: Request, w: Style)
    requires Sendable(r) && w.Valid()
    ensures var lines := HeadLines(r, w)[1..];
            DeclaredLength(lines) == Some(|r.body|) && Last(Values(lines, "authorization")) == r.authorization
  {
    hide Decimal, ParseUsize, NameAndValue, Trim, IsLineText, AsciiUpper, AsciiLower, IsWord, DeclaredLength, Values;
    var lines, digits := HeadLines(r, w)[1..], Decimal(|r.body|);
    DecimalIsTrimmed(|r.body|);
    LengthLine(w, |r.body|);
    var authLine := if r.authorization.Some? then w.Line(w.authorizationName, r.authorization.value) else "";
    if r.authorization.Some? {
      AuthorizationLine(w, r.authorization.value);
    }
    TwoHeaders(lines, w.Line(w.lengthName, digits), digits, |r.body|, authLine, r.authorization);
  }

  lemma HeadParses(r: Request, w: Style)
    requires Sendable(r) && w.Valid()
    ensures ParseHead(JoinLines(HeadLines(r, w))) == Good(Head(AsciiUpper(r.verb), r.path, r.authorization, |r.body|))
  {
    HeadIsLines(r, w);
    LinesOfJoined(HeadLines(r, w));
    HeadersOf(r, w);
    RequestLine(r.verb, r.path, " HTTP/1.1");
    hide SkipSpace, TakeWord, Trim, IsAscii, DeclaredLength, Values, JoinLines, Lines, AsciiUpper, Decimal;
  }

  lemma RequestLine(verb: string, path: string, rest: string)
    requires IsWord(verb) && IsWord(path) && rest != "" && rest[0] == ' '
    ensures var first := SkipSpace(verb + " " + path + rest);
            TakeWord(first) == verb && TakeWord(SkipSpace(first[|verb|..])) == path
  {
    hide SkipSpace, TakeWord, IsAscii;
    assert IsBlank("") && IsBlank(" ") && NoSpace(verb) && NoSpace(path);
    hide IsWord, NoSpace, IsBlank;
    assert StartsWithWords("" + verb + " " + path + rest, "", verb, " ", path, rest);
    hide *;
    WordsTaken("" + verb + " " + path + rest, "", verb, " ", path, rest);
    assert "" + verb == verb;
  }

  /// The line begins with these two words, with blanks before each.
  predicate StartsWithWords(line: string, a: string, verb: string, b: string, path: string, c: string)
  {
    && line == a + verb + b + path + c && IsBlank(a) && IsBlank(b) && b != ""
    && verb != "" && NoSpace(verb) && path != "" && NoSpace(path) && (c == "" || IsWhitespace(c[0]))
  }

  lemma WordsTaken(line: string, a: string, verb: string, b: string, path: string, c: string)
    requires StartsWithWords(line, a, verb, b, path, c)
    ensures var first := SkipSpace(line);
            TakeWord(first) == verb && TakeWord(SkipSpace(first[|verb|..])) == path
  {
    var after := b + (path + c);
    assert line == a + (verb + after);
    SkippedSpace(a, verb + after);
    WordTaken(verb, after);
    SkippedSpace(b, path + c);
    WordTaken(path, c);
    assert (verb + after)[|verb|..] == after;
  }

  lemma {:induction false} SkippedIsBlank(s: string) returns (a: string)
    ensures s == a + SkipSpace(s) && IsBlank(a)
    ensures SkipSpace(s) == "" || !IsWhitespace(SkipSpace(s)[0])
    ensures s != "" && IsWhitespace(s[0]) ==> a != ""
  {
    if s != "" && IsWhitespace(s[0]) {
      var b := SkippedIsBlank(s[1..]);
      a := [s[0]] + b;
    } else {
      a := "";
    }
  }

  lemma {:induction false} TakenIsWord(s: string)
    ensures NoSpace(TakeWord(s))
    ensures var rest := s[|TakeWord(s)|..]; s == TakeWord(s) + rest && (rest == "" || IsWhitespace(rest[0]))
  {
    if s != "" && !IsWhitespace(s[0]) {
      TakenIsWord(s[1..]);
      assert s[|TakeWord(s)|..] == s[1..][|TakeWord(s[1..])|..];
      assert s == [s[0]] + s[1..];
    }
  }

  ghost predicate TwoWords(line: string, verb: string, path: string)
  {
    exists a, b, c :: StartsWithWords(line, a, verb, b, path, c)
  }

  /// What is read off the first line is its first two words, when it has two.
  lemma FirstTwoWords(line: string)
    ensures var first := SkipSpace(line);
            var verb, path := TakeWord(first), TakeWord(SkipSpace(first[|TakeWord(first)|..]));
            && (verb != "" && path != "" ==> TwoWords(line, verb, path))
            && (forall v, p :: TwoWords(line, v, p) ==> v == verb && p == path && v != "" && p != "")
  {
    var first := SkipSpace(line);
    var verb := TakeWord(first);
    var after := first[|verb|..];
    var path := TakeWord(SkipSpace(after));
    WordsFound(line);
    hide *;
    forall v, p | TwoWords(line, v, p) ensures v == verb && p == path && v != "" && p != "" {
      TwoWordsTaken(line, v, p);
    }
  }

  lemma TwoWordsTaken(line: string, verb: string, path: string)
    requires TwoWords(line, verb, path)
    ensures verb != "" && path != ""
    ensures var first := SkipSpace(line);
            TakeWord(first) == verb && TakeWord(SkipSpace(first[|verb|..])) == path
  {
    var a, b, c :| StartsWithWords(line, a, verb, b, path, c);
    WordsTaken(line, a, verb, b, path, c);
    NotEmptyWords(line, a, verb, b, path, c);
    hide *;
  }

  lemma WordsFound(line: string)
    ensures var first := SkipSpace(line);
            var verb, path := TakeWord(first), TakeWord(SkipSpace(first[|TakeWord(first)|..]));
            verb != "" && path != "" ==> TwoWords(line, verb, path)
  {
    var first := SkipSpace(line);
    var verb := TakeWord(first);
    var after := first[|verb|..];
    var path := TakeWord(SkipSpace(after));
    hide SkipSpace, TakeWord;
    var a := SkippedIsBlank(line);
    TakenIsWord(first);
    var b := SkippedIsBlank(after);
    TakenIsWord(SkipSpace(after));
    var c := SkipSpace(after)[|path|..];
    if verb != "" && path != "" {
      hide *;
      PutTogether(line, a, verb, b, path, c);
      assert TwoWords(line, verb, path) by { Found(line, a, verb, b, path, c); }
    }
  }

  lemma PutTogether(line: string, a: string, verb: string, b: string, path: string, c: string)
    requires line == a + (verb + (b + (path + c)))
    ensures line == a + verb + b + path + c
  {
  }

  lemma Found(line: string, a: string, verb: string, b: string, path: string, c: string)
    requires StartsWithWords(line, a, verb, b, path, c)
    ensures TwoWords(line, verb, path)
  {
  }

  lemma NotEmptyWords(line: string, a: string, verb: string, b: string, path: string, c: string)
    requires StartsWithWords(line, a, verb, b, path, c)
    ensures verb != "" && path != ""
  {
  }

  /// A head is refused exactly for having no two words on its first line, or for a
  /// length that is no number; else it has these words, the first in upper case, and
  /// the values of its headers.
  lemma HeadReadExactly(text: string)
    ensures var lines := Lines(text);
            && (ParseHead(text) == Bad(InvalidRequestLine) <==> forall v, p :: !TwoWords(lines[0], v, p))
            && (ParseHead(text) == Bad(InvalidContentLength) <==>
                  (exists v, p :: TwoWords(lines[0], v, p)) && DeclaredLength(lines[1..]).None?)
            && (forall head :: ParseHead(text) == Good(head) <==>
                  && (exists v, p :: TwoWords(lines[0], v, p) && head.verb == AsciiUpper(v) && head.path == p)
                  && DeclaredLength(lines[1..]) == Some(head.length)
                  && head.authorization == Last(Values(lines[1..], "authorization")))
  {
    var line := Lines(text)[0];
    FirstTwoWords(line);
    var first := SkipSpace(line);
    var verb := TakeWord(first);
    var path := TakeWord(SkipSpace(first[|verb|..]));
    hide Lines, SkipSpace, TakeWord, DeclaredLength, Values, TwoWords;
    assert AsciiUpper(verb) == "" <==> verb == "";
    if verb != "" && path != "" {
      assert TwoWords(Lines(text)[0], verb, path);
      assert !(forall v, p :: !TwoWords(Lines(text)[0], v, p));
      assert ParseHead(text) != Bad(InvalidRequestLine);
    }
  }

  /// What is behind a head decides by how many bytes it declares: more than the body
  /// bound are refused for that, more than there are as an early end, and otherwise
  /// they are the body, whatever follows them.
  lemma BodyReadExactly(data: seq<Byte>, decode: seq<Byte> -> Option<string>, maxBody: nat, head: Head)
    requires HeadEnd(data) <= |data| && decode(data[..HeadEnd(data) - 4]).Some?
    requires ParseHead(decode(data[..HeadEnd(data) - 4]).value) == Good(head)
    ensures var r, left := Whole(data, decode, maxBody), |data| - HeadEnd(data);
            && (r == Bad(BodyTooLarge) <==> head.length > maxBody)
            && (r == Bad(BodyEndedEarly) <==> head.length <= maxBody && head.length > left)
            && (r.Good? <==> head.length <= maxBody && head.length <= left)
            && (r.Good? ==>
                  && r.value.verb == head.verb && r.value.path == head.path
                  && r.value.authorization == head.authorization
                  && |r.value.body| == head.length && r.value.body <= data[HeadEnd(data)..])
  {
    hide ParseHead;
  }

  /// Bytes without a head, with one that is no text, and with one that does not parse
  /// are refused for that.
  lemma UnreadableHead(data: seq<Byte>, decode: seq<Byte> -> Option<string>, maxBody: nat)
    ensures var r := Whole(data, decode, maxBody);
            && (HeadEnd(data) > |data| ==> r == Bad(EndedBeforeHeaders))
            && (HeadEnd(data) <= |data| && decode(data[..HeadEnd(data) - 4]).None? ==> r == Bad(NotUtf8))
            && (HeadEnd(data) <= |data| && decode(data[..HeadEnd(data) - 4]).Some? ==>
                  var head := ParseHead(decode(data[..HeadEnd(data) - 4]).value);
                  head.Bad? ==> r == Bad(head.error))
  {
    hide ParseHead;
  }

  /// The line is a header of that name with that value.
  predicate IsHeader(line: string, name: string, value: string)
  {
    NameAndValue(line) == Some((name, value))
  }

  lemma {:induction false} ValuesAreOfHeaders(lines: seq<string>, name: string)
    ensures forall v :: v in Values(lines, name) <==> exists i :: 0 <= i < |lines| && IsHeader(lines[i], name, v)
  {
    hide NameAndValue;
    if lines != [] {
      var init, last := lines[..|lines| - 1], lines[|lines| - 1];
      ValuesAreOfHeaders(init, name);
      forall v ensures v in Values(lines, name) <==> exists i :: 0 <= i < |lines| && IsHeader(lines[i], name, v) {
        if i :| 0 <= i < |lines| && IsHeader(lines[i], name, v) {
          assert i < |init| ==> init[i] == lines[i];
        }
        if v in Values(init, name) {
          var i :| 0 <= i < |init| && IsHeader(init[i], name, v);
          assert lines[i] == init[i];
        }
      }
    }
  }

  /// The last header of a name counts.
  lemma {:induction false} LastHeaderCounts(lines: seq<string>, name: string, i: nat, value: string)
    requires i < |lines| && IsHeader(lines[i], name, value)
    requires forall j, v | i < j < |lines| :: !IsHeader(lines[j], name, v)
    ensures Last(Values(lines, name)) == Some(value)
    decreases |lines|
  {
    hide NameAndValue;
    if i < |lines| - 1 {
      var init := lines[..|lines| - 1];
      LastHeaderCounts(init, name, i, value);
      var parsed := NameAndValue(lines[|lines| - 1]);
      assert parsed.Some? ==> !IsHeader(lines[|lines| - 1], name, parsed.value.1);
    }
  }

  /// The declared length is that of the last such header, none of which may be other
  /// than a number; without one it is zero.
  lemma LengthReadExactly(lines: seq<string>)
    ensures DeclaredLength(lines).None? <==>
              exists i, v :: 0 <= i < |lines| && IsHeader(lines[i], "content-length", v) && ParseUsize(v).None?
    ensures (forall i, v | 0 <= i < |lines| :: !IsHeader(lines[i], "content-length", v)) ==>
              DeclaredLength(lines) == Some(0)
    ensures forall i, v | 0 <= i < |lines| && IsHeader(lines[i], "content-length", v)
                 && (forall j, w | i < j < |lines| :: !IsHeader(lines[j], "content-length", w)) ::
              DeclaredLength(lines).Some? ==> DeclaredLength(lines) == ParseUsize(v)
  {
    hide NameAndValue, ParseUsize, Values;
    var name := "content-length";
    var values := Values(lines, name);
    ValuesAreOfHeaders(lines, name);
    if DeclaredLength(lines).None? {
      var k :| 0 <= k < |values| && ParseUsize(values[k]).None?;
      assert values[k] in values;
    }
    if i, v :| 0 <= i < |lines| && IsHeader(lines[i], name, v) && ParseUsize(v).None? {
      assert v in values;
      var k :| 0 <= k < |values| && values[k] == v;
    }
    if values != [] {
      assert values[0] in values;
      var i :| 0 <= i < |lines| && IsHeader(lines[i], name, values[0]);
    }
    forall i, v | 0 <= i < |lines| && IsHeader(lines[i], name, v)
      && (forall j, w | i < j < |lines| :: !IsHeader(lines[j], name, w))
      ensures DeclaredLength(lines).Some? ==> DeclaredLength(lines) == ParseUsize(v)
    {
      LastHeaderCounts(lines, name, i, v);
    }
  }

  /// A request written out and read back, in any pieces, is the same request, its
  /// method in upper case; bytes that follow it on the connection do not show in it,
  /// nor do the case of its header names and the blanks around their values.
  lemma RequestRoundTrip(r: Request, w: Style, rest: seq<Byte>, pieces: nat -> nat,
                         decode: seq<Byte> -> Option<string>, maxBody: nat)
    requires Sendable(r) && w.Valid() && |r.body| <= maxBody
    requires |JoinLines(HeadLines(r, w))| + 4 <= MAX_HEADER_BYTES
    requires IsAscii(JoinLines(HeadLines(r, w)))
    requires decode(Ascii(JoinLines(HeadLines(r, w)))) == Some(JoinLines(HeadLines(r, w)))
    requires maxBody >= CHUNK - 1 || rest == []
    ensures Streamed(Format(r, w) + rest, pieces, decode, maxBody) == Good(r.(verb := AsciiUpper(r.verb)))
  {
    hide ParseHead, Streamed, JoinLines, HeadLines, Sendable, Decimal, AsciiLower, AsciiUpper;
    var data, text := Format(r, w) + rest, JoinLines(HeadLines(r, w));
    MarkerEndsHead(r, w, rest);
    HeadParses(r, w);
    assert data[..|text|] == Ascii(text);
    assert data[|text| + 4..|text| + 4 + |r.body|] == r.body;
    StreamedIsWhole(data, pieces, decode, maxBody);
  }

  /// The two conversions change letters alone and undo each other's case.
  lemma CaseConversions(s: string)
    ensures AsciiUpper(AsciiLower(s)) == AsciiUpper(s) && AsciiLower(AsciiUpper(s)) == AsciiLower(s)
    ensures forall i | 0 <= i < |s| ::
              && !('a' <= AsciiUpper(s)[i] <= 'z') && !('A' <= AsciiLower(s)[i] <= 'Z')
              && (AsciiUpper(s)[i] != s[i] <==> 'a' <= s[i] <= 'z')
              && (AsciiLower(s)[i] != s[i] <==> 'A' <= s[i] <= 'Z')
  {
  }
}
