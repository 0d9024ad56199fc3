/// The hand-written base64 decoder for attachments, against the standard
/// encoding of section 4 of RFC 4648. Shifts and masks of bytes are written as
/// the products, quotients and remainders they compute.
module Base64 {
  import opened Wrappers
  import opened Text

  const PAD: Byte := 61

  // ----- The alphabet -----

  function Value(b: Byte): Option<nat>
  {
    if 65 <= b <= 90 then Some(b - 65)
    else if 97 <= b <= 122 then Some(b - 97 + 26)
    else if 48 <= b <= 57 then Some(b - 48 + 52)
    else if b == 43 then Some(62)
    else if b == 47 then Some(63)
    else None
  }

  function Digit(v: nat): Byte
    requires v < 64
  {
    if v < 26 then v + 65
    else if v < 52 then v - 26 + 97
    else if v < 62 then v - 52 + 48
    else if v == 62 then 43
    else 47
  }

  lemma DigitAndValue(v: nat, b: Byte)
    requires v < 64
    ensures Value(Digit(v)) == Some(v) && Digit(v) != PAD
    ensures Value(b).Some? ==> Value(b).value < 64 && Digit(Value(b).value) == b && b != PAD
  {
  }

  // ----- The standard encoder -----

  function EncodeGroup(group: seq<Byte>): (chunk: seq<Byte>)
    requires 1 <= |group| <= 3
    ensures |chunk| == 4
  {
    var a := group[0];
    var b := if |group| > 1 then group[1] else 0;
    var c := if |group| > 2 then group[2] else 0;
    [Digit(a / 4), Digit(a % 4 * 16 + b / 16),
     if |group| > 1 then Digit(b % 16 * 4 + c / 64) else PAD,
     if |group| > 2 then Digit(c % 64) else PAD]
  }

  function Encode(bytes: seq<Byte>): seq<Byte>
  {
    if bytes == [] then []
    else if |bytes| <= 3 then EncodeGroup(bytes)
    else EncodeGroup(bytes[..3]) + Encode(bytes[3..])
  }

  // ----- The decoder -----

  function PadCount(chunk: seq<Byte>): nat
    requires |chunk| == 4
  {
    (if chunk[0] == PAD then 1 else 0) + (if chunk[1] == PAD then 1 else 0)
    + (if chunk[2] == PAD then 1 else 0) + (if chunk[3] == PAD then 1 else 0)
  }

  /// The six bits of a character; none for padding.
  function Sextet(b: Byte): Option<nat>
  {
    if b == PAD then Some(0) else Value(b)
  }

  /// One group of four characters, or None when a character is outside the
  /// alphabet or padding stands in one of the first two places.
  function DecodeChunk(chunk: seq<Byte>): Option<seq<Byte>>
    requires |chunk| == 4
  {
    var pad := PadCount(chunk);
    var s0, s1, s2, s3 := Sextet(chunk[0]), Sextet(chunk[1]), Sextet(chunk[2]), Sextet(chunk[3]);
    if pad > 2 || chunk[0] == PAD || chunk[1] == PAD then None
    else if s0.None? || s1.None? || s2.None? || s3.None? then None
    else
      Some([(s0.value * 4 + s1.value / 16) % 256]
           + (if pad < 2 then [(s1.value * 16 + s2.value / 4) % 256] else [])
           + (if pad < 1 then [(s2.value * 64 + s3.value) % 256] else []))
  }

  function DecodeChunks(input: seq<Byte>): Option<seq<Byte>>
    requires |input| % 4 == 0
  {
    if input == [] then Some([])
    else
      var head := DecodeChunk(input[..4]);
      if head.None? then None else
      Joined(head.value, DecodeChunks(input[4..]))
  }

  /// What is decoded so far, in front of what the rest decodes to.
  function Joined(bytes: seq<Byte>, rest: Option<seq<Byte>>): Option<seq<Byte>>
  {
    if rest.None? then None else Some(bytes + rest.value)
  }

  lemma JoinedTwice(first: seq<Byte>, second: seq<Byte>, rest: Option<seq<Byte>>)
    ensures Joined(first, Joined(second, rest)) == Joined(first + second, rest)
    ensures Joined([], rest) == rest
    ensures Joined(first, Some([])) == Some(first)
  {
    assert first + [] == first;
    if rest.Some? {
      assert first + (second + rest.value) == (first + second) + rest.value;
      assert [] + rest.value == rest.value;
    }
  }

  /// The position of the first padding character, or the length.
  function FirstPad(input: seq<Byte>): (at: nat)
    ensures at <= |input|
    ensures at < |input| ==> input[at] == PAD
    ensures forall i | 0 <= i < at :: input[i] != PAD
  {
    if input == [] || input[0] == PAD then 0 else 1 + FirstPad(input[1..])
  }

  /// Padding stands only at the end, takes at most two places, and leaves at
  /// least two characters of its group.
  predicate PaddingOk(input: seq<Byte>)
  {
    var at := FirstPad(input);
    at < |input| ==> (forall i | at <= i < |input| :: input[i] == PAD) && |input| - at <= 2 && at % 4 >= 2
  }

  function DecodeCompact(input: seq<Byte>): Option<seq<Byte>>
  {
    if |input| % 4 != 0 || !PaddingOk(input) then None else DecodeChunks(input)
  }

  /// The decoder as it runs: check the padding, then decode group by group into a
  /// growing buffer.
  method DecodeBase64Compact(input: seq<Byte>) returns (out: Option<seq<Byte>>)
    ensures out == DecodeCompact(input)
  {
    if |input| % 4 != 0 {
      return None;
    }
    var padAt := 0;
    while padAt < |input| && input[padAt] != PAD
      invariant padAt <= |input|
      invariant forall i | 0 <= i < padAt :: input[i] != PAD
    {
      padAt := padAt + 1;
    }
    assert padAt == FirstPad(input);
    if padAt < |input| {
      if exists i | padAt <= i < |input| :: input[i] != PAD {
        return None;
      }
      if |input| - padAt > 2 || padAt % 4 < 2 {
        return None;
      }
    }
    out := DecodeGroups(input);
  }

  method DecodeGroups(input: seq<Byte>) returns (out: Option<seq<Byte>>)
    requires |input| % 4 == 0
    ensures out == DecodeChunks(input)
  {
    hide DecodeChunk, Encode;
    var bytes, at := [], 0;
    assert input[at..] == input;
    JoinedTwice([], [], DecodeChunks(input));
    while at < |input|
      invariant at <= |input| && |input[at..]| % 4 == 0
      invariant DecodeChunks(input) == Joined(bytes, DecodeChunks(input[at..]))
    {
      assert input[at..][..4] == input[at..at + 4] && input[at..][4..] == input[at + 4..];
      var chunk := DecodeChunk(input[at..at + 4]);
      if chunk.None? {
        return None;
      }
      JoinedTwice(bytes, chunk.value, DecodeChunks(input[at + 4..]));
      bytes := bytes + chunk.value;
      at := at + 4;
    }
    assert input[at..] == [];
    out := Some(bytes);
    JoinedTwice(bytes, [], out);
  }

  // ----- What is accepted -----

  /// How many padding characters, at most two, the string ends with.
  function TrailingPads(input: seq<Byte>): nat
  {
    if input == [] || input[|input| - 1] != PAD then 0
    else if |input| == 1 || input[|input| - 2] != PAD then 1
    else 2
  }

  /// A padded string of section 4 of RFC 4648: groups of four characters, all in
  /// the alphabet except at most two padding characters that end it.
  predicate PaddedString(input: seq<Byte>)
  {
    && |input| % 4 == 0
    && forall i | 0 <= i < |input| - TrailingPads(input) :: Value(input[i]).Some?
  }

  /// Every character decodes, with padding in the last two places of a group only.
  ghost predicate Sextets(input: seq<Byte>)
  {
    forall i | 0 <= i < |input| :: Sextet(input[i]).Some? && (input[i] == PAD ==> i % 4 >= 2)
  }

  lemma GroupAccepts(chunk: seq<Byte>)
    requires |chunk| == 4
    ensures DecodeChunk(chunk).Some? <==> Sextets(chunk)
  {
    hide Value;
  }

  lemma SextetsSplit(input: seq<Byte>)
    requires |input| >= 4
    ensures Sextets(input) <==> Sextets(input[..4]) && Sextets(input[4..])
  {
    hide Sextet;
    assert forall i | 0 <= i < 4 :: input[..4][i] == input[i];
    assert forall i | 0 <= i < |input| - 4 :: input[4..][i] == input[i + 4] && i % 4 == (i + 4) % 4;
    assert forall i | 4 <= i < |input| :: input[i] == input[4..][i - 4];
  }

  lemma {:induction false} GroupsAccept(input: seq<Byte>)
    requires |input| % 4 == 0
    ensures DecodeChunks(input).Some? <==> Sextets(input)
  {
    if input != [] {
      GroupAccepts(input[..4]);
      SextetsSplit(input);
      hide DecodeChunk, Sextets;
      GroupsAccept(input[4..]);
    }
  }

  /// The decoder accepts exactly the padded strings.
  lemma AcceptsPaddedStrings(input: seq<Byte>)
    ensures DecodeCompact(input).Some? <==> PaddedString(input)
  {
    if |input| % 4 == 0 {
      GroupsAccept(input);
      if PaddingOk(input) && Sextets(input) {
        SextetsArePadded(input);
      } else if PaddedString(input) {
        PaddedIsSextets(input);
      }
      hide PaddingOk, Sextets, PaddedString, DecodeChunks;
    }
  }

  lemma SextetsArePadded(input: seq<Byte>)
    requires |input| % 4 == 0 && PaddingOk(input) && Sextets(input)
    ensures PaddedString(input)
  {
    hide Value, FirstPad;
    var at := FirstPad(input);
    assert |input| - at == TrailingPads(input);
    assert forall i | 0 <= i < at :: Sextet(input[i]) == Value(input[i]);
  }

  lemma PaddedIsSextets(input: seq<Byte>)
    requires PaddedString(input)
    ensures PaddingOk(input) && Sextets(input)
  {
    var body := |input| - TrailingPads(input);
    assert forall i | 0 <= i < body :: input[i] != PAD;
    hide FirstPad, Value;
    assert FirstPad(input) == body;
    assert body < |input| ==> body % 4 >= 2;
    assert forall i | body <= i < |input| :: input[i] == PAD && i % 4 >= 2;
  }

  // ----- How long the payload is -----

  function PayloadLength(encodedLength: nat, pads: nat): nat
  {
    if encodedLength / 4 * 3 < pads then 0 else encodedLength / 4 * 3 - pads
  }

  /// The first group of a longer padded string is complete, and what follows is
  /// padded as before.
  lemma FirstOfMany(input: seq<Byte>)
    requires PaddedString(input) && |input| > 4
    ensures PaddedString(input[4..]) && TrailingPads(input[4..]) == TrailingPads(input)
    ensures PaddedString(input[..4]) && TrailingPads(input[..4]) == 0
  {
    assert |input| >= 8;
    assert forall i | 0 <= i < |input| - 4 :: input[4..][i] == input[i + 4];
  }

  lemma GroupLength(chunk: seq<Byte>)
    requires |chunk| == 4 && PaddedString(chunk)
    ensures DecodeChunk(chunk).Some? && |DecodeChunk(chunk).value| == 3 - TrailingPads(chunk)
    ensures DecodeChunks(chunk) == DecodeChunk(chunk)
  {
    assert chunk[..4] == chunk && chunk[4..] == [];
    if DecodeChunk(chunk).Some? {
      JoinedTwice(DecodeChunk(chunk).value, [], None);
    }
    var pads := TrailingPads(chunk);
    assert Value(chunk[0]).Some? && Value(chunk[1]).Some?;
    assert pads < 2 ==> Value(chunk[2]).Some?;
    assert pads < 1 ==> Value(chunk[3]).Some?;
  }

  /// The decoded length is what the character count and the padding say.
  lemma {:induction false} DecodedLength(input: seq<Byte>)
    requires PaddedString(input)
    ensures DecodeChunks(input).Some?
    ensures |DecodeChunks(input).value| == |input| / 4 * 3 - TrailingPads(input)
  {
    if |input| == 4 {
      GroupLength(input);
    } else if input != [] {
      FirstOfMany(input);
      GroupLength(input[..4]);
      DecodedLength(input[4..]);
      hide DecodeChunk;
    }
  }

  // ----- Round trips -----

  lemma Parts(q: nat, r: nat, d: nat)
    requires d == 4 || d == 16 || d == 64 || d == 256
    requires r < d
    ensures (q * d + r) / d == q && (q * d + r) % d == r
  {
  }

  lemma Repacked(a: Byte, b: Byte, c: Byte)
    ensures var s1, s2 := a % 4 * 16 + b / 16, b % 16 * 4 + c / 64;
            && (a / 4 * 4 + s1 / 16) % 256 == a
            && (s1 * 16 + s2 / 4) % 256 == b
            && (s2 * 64 + c % 64) % 256 == c
  {
    var a1, a0, b1, b0, c1, c0 := a / 4, a % 4, b / 16, b % 16, c / 64, c % 64;
    Parts(a0, b1, 16);
    Parts(b0, c1, 4);
    assert a == 4 * a1 + a0 && b == 16 * b1 + b0 && c == 64 * c1 + c0;
    Parts(0, a, 256);
    Parts(a0, b, 256);
    Parts(b0, c, 256);
  }

  lemma Unpacked(s0: nat, s1: nat, s2: nat, s3: nat)
    requires s0 < 64 && s1 < 64 && s2 < 64 && s3 < 64
    ensures var a, b, c := (s0 * 4 + s1 / 16) % 256, (s1 * 16 + s2 / 4) % 256, (s2 * 64 + s3) % 256;
            a / 4 == s0 && a % 4 * 16 + b / 16 == s1 && b % 16 * 4 + c / 64 == s2 && c % 64 == s3
  {
    var h1, l1, h2, l2 := s1 / 16, s1 % 16, s2 / 4, s2 % 4;
    assert s1 == 16 * h1 + l1 && s2 == 4 * h2 + l2;
    var a, b, c := s0 * 4 + h1, l1 * 16 + h2, l2 * 64 + s3;
    Parts(0, a, 256);
    Parts(h1, b, 256);
    Parts(h2, c, 256);
    Parts(s0, h1, 4);
    Parts(l1, h2, 16);
    Parts(l2, s3, 64);
  }

  lemma GroupRoundTrip(group: seq<Byte>)
    requires 1 <= |group| <= 3
    ensures PaddedString(EncodeGroup(group)) && TrailingPads(EncodeGroup(group)) == 3 - |group|
    ensures DecodeChunk(EncodeGroup(group)) == Some(group)
  {
    hide Value, Digit;
    var a := group[0];
    var b := if |group| > 1 then group[1] else 0;
    var c := if |group| > 2 then group[2] else 0;
    DigitAndValue(a / 4, 0);
    DigitAndValue(a % 4 * 16 + b / 16, 0);
    DigitAndValue(b % 16 * 4 + c / 64, 0);
    DigitAndValue(c % 64, 0);
    Repacked(a, b, c);
    assert group == [a] + (if |group| > 1 then [b] else []) + (if |group| > 2 then [c] else []);
  }

  /// The decoder inverts the standard encoder on every byte string.
  lemma {:induction false} RoundTrip(bytes: seq<Byte>)
    ensures PaddedString(Encode(bytes)) && DecodeCompact(Encode(bytes)) == Some(bytes)
  {
    GroupsRoundTrip(bytes);
    AcceptsPaddedStrings(Encode(bytes));
  }

  lemma {:induction false} GroupsRoundTrip(bytes: seq<Byte>)
    ensures PaddedString(Encode(bytes)) && DecodeChunks(Encode(bytes)) == Some(bytes)
  {
    if bytes == [] {
    } else if |bytes| <= 3 {
      GroupRoundTrip(bytes);
      GroupLength(EncodeGroup(bytes));
    } else {
      var first, chunk, rest := bytes[..3], EncodeGroup(bytes[..3]), Encode(bytes[3..]);
      GroupRoundTrip(first);
      GroupsRoundTrip(bytes[3..]);
      NotEmpty(bytes[3..]);
      GroupInFront(chunk, rest);
      hide EncodeGroup, DecodeChunk, DecodeChunks, PaddedString, TrailingPads;
      assert bytes == first + bytes[3..];
    }
  }

  lemma NotEmpty(bytes: seq<Byte>)
    requires bytes != []
    ensures |Encode(bytes)| >= 4
  {
  }

  lemma GroupInFront(chunk: seq<Byte>, rest: seq<Byte>)
    requires |chunk| == 4 && PaddedString(chunk) && TrailingPads(chunk) == 0
    requires PaddedString(rest) && rest != []
    ensures PaddedString(chunk + rest) && TrailingPads(chunk + rest) == TrailingPads(rest)
    ensures DecodeChunk(chunk).Some?
    ensures DecodeChunks(chunk + rest) == Joined(DecodeChunk(chunk).value, DecodeChunks(rest))
  {
    GroupLength(chunk);
    hide DecodeChunk, Value;
    assert (chunk + rest)[..4] == chunk && (chunk + rest)[4..] == rest;
  }

  /// The bits that padding leaves unused in the last character.
  predicate PadBitsAreZero(input: seq<Byte>)
    requires PaddedString(input)
  {
    match TrailingPads(input)
    case 0 => true
    case 1 => Value(input[|input| - 2]).value % 4 == 0
    case _ => Value(input[|input| - 3]).value % 16 == 0
  }

  /// How the bytes made of four sextets are encoded: all three, two or one of them.
  lemma EncodedThree(s0: nat, s1: nat, s2: nat, s3: nat)
    requires s0 < 64 && s1 < 64 && s2 < 64 && s3 < 64
    ensures EncodeGroup([(s0 * 4 + s1 / 16) % 256, (s1 * 16 + s2 / 4) % 256, (s2 * 64 + s3) % 256])
         == [Digit(s0), Digit(s1), Digit(s2), Digit(s3)]
  {
    hide Digit;
    Unpacked(s0, s1, s2, s3);
  }

  lemma EncodedTwo(s0: nat, s1: nat, s2: nat)
    requires s0 < 64 && s1 < 64 && s2 < 64
    ensures EncodeGroup([(s0 * 4 + s1 / 16) % 256, (s1 * 16 + s2 / 4) % 256])
         == [Digit(s0), Digit(s1), Digit(s2 / 4 * 4), PAD]
  {
    hide Digit;
    Parts(s2 / 4, 0, 4);
    Unpacked(s0, s1, s2 / 4 * 4, 0);
  }

  lemma EncodedOne(s0: nat, s1: nat)
    requires s0 < 64 && s1 < 64
    ensures EncodeGroup([(s0 * 4 + s1 / 16) % 256]) == [Digit(s0), Digit(s1 / 16 * 16), PAD, PAD]
  {
    hide Digit;
    Parts(s1 / 16, 0, 16);
    Unpacked(s0, s1 / 16 * 16, 0, 0);
  }

  lemma GroupReencodes(chunk: seq<Byte>)
    requires |chunk| == 4 && PaddedString(chunk)
    ensures DecodeChunk(chunk).Some? && 1 <= |DecodeChunk(chunk).value| <= 3
    ensures EncodeGroup(DecodeChunk(chunk).value) == chunk <==> PadBitsAreZero(chunk)
  {
    hide Value, Digit, EncodeGroup;
    GroupLength(chunk);
    var s0, s1 := Sextet(chunk[0]).value, Sextet(chunk[1]).value;
    var s2, s3 := Sextet(chunk[2]).value, Sextet(chunk[3]).value;
    DigitAndValue(0, chunk[0]);
    DigitAndValue(0, chunk[1]);
    DigitAndValue(0, chunk[2]);
    DigitAndValue(0, chunk[3]);
    var a, b, c := (s0 * 4 + s1 / 16) % 256, (s1 * 16 + s2 / 4) % 256, (s2 * 64 + s3) % 256;
    match TrailingPads(chunk) {
      case 0 =>
        assert DecodeChunk(chunk).value == [a, b, c];
        EncodedThree(s0, s1, s2, s3);
      case 1 =>
        assert DecodeChunk(chunk).value == [a, b];
        EncodedTwo(s0, s1, s2);
        LastDigit(s2, s2 / 4 * 4);
      case _ =>
        assert DecodeChunk(chunk).value == [a];
        EncodedOne(s0, s1);
        LastDigit(s1, s1 / 16 * 16);
    }
  }

  lemma LastDigit(v: nat, w: nat)
    requires v < 64 && w < 64
    ensures Digit(v) == Digit(w) <==> v == w
  {
    DigitAndValue(v, 0);
    DigitAndValue(w, 0);
  }

  /// Decoding and encoding again gives the same string back exactly when the
  /// unused bits are zero, which the decoder does not ask for (section 3.5 of
  /// RFC 4648 leaves that choice open).
  lemma {:induction false} ReencodesIffCanonical(input: seq<Byte>)
    requires PaddedString(input)
    ensures DecodeCompact(input).Some?
    ensures Encode(DecodeCompact(input).value) == input <==> PadBitsAreZero(input)
  {
    AcceptsPaddedStrings(input);
    GroupsReencode(input);
  }

  lemma {:induction false} GroupsReencode(input: seq<Byte>)
    requires PaddedString(input)
    ensures DecodeChunks(input).Some?
    ensures Encode(DecodeChunks(input).value) == input <==> PadBitsAreZero(input)
  {
    DecodedLength(input);
    if |input| == 4 {
      GroupLength(input);
      GroupReencodes(input);
      hide EncodeGroup, DecodeChunk, Value;
    } else if input != [] {
      var head, tail := input[..4], input[4..];
      FirstOfMany(input);
      GroupLength(head);
      GroupReencodes(head);
      DecodedLength(tail);
      GroupsReencode(tail);
      SamePadBits(input);
      ReencodeTail(head, tail, DecodeChunk(head).value, DecodeChunks(tail).value);
      hide EncodeGroup, DecodeChunk, Encode, PadBitsAreZero, PaddedString, TrailingPads;
      assert input == head + tail;
    }
  }

  lemma SamePadBits(input: seq<Byte>)
    requires PaddedString(input) && |input| > 4
    ensures PaddedString(input[4..])
    ensures PadBitsAreZero(input) <==> PadBitsAreZero(input[4..])
  {
    FirstOfMany(input);
    assert |input| >= 8;
    hide Value, PaddedString;
  }

  lemma ReencodeTail(head: seq<Byte>, tail: seq<Byte>, first: seq<Byte>, rest: seq<Byte>)
    requires |head| == 4 && |first| == 3 && EncodeGroup(first) == head && rest != []
    ensures Encode(first + rest) == head + tail <==> Encode(rest) == tail
  {
    hide EncodeGroup;
    assert (first + rest)[..3] == first && (first + rest)[3..] == rest;
    assert (head + tail)[4..] == tail && (head + Encode(rest))[4..] == Encode(rest);
  }

  // ----- Attachment text -----

  const MAX_CONTENT_PART_BYTES: nat := 8 * 1024 * 1024

  datatype Attachment = Payload(bytes: seq<Byte>) | TooLarge | NoData | Invalid

  function Compact(text: string): string
  {
    if text == "" then ""
    else (if IsWhitespace(text[0]) then "" else [text[0]]) + Compact(text[1..])
  }

  /// How many padding characters, at most two, the text ends with.
  function TrailingPadChars(text: string): nat
  {
    if text == "" || text[|text| - 1] != '=' then 0
    else if |text| == 1 || text[|text| - 2] != '=' then 1
    else 2
  }

  function DecodeBase64(text: string): Attachment
  {
    var compact := Compact(text);
    if PayloadLength(ByteLength(compact), TrailingPadChars(compact)) > MAX_CONTENT_PART_BYTES then TooLarge
    else if compact == "" then NoData
    else
      var decoded := DecodeCompact(Utf8(compact));
      if decoded.None? then Invalid else Payload(decoded.value)
  }

  lemma {:induction false} Utf8Snoc(text: string)
    requires text != ""
    ensures Utf8(text) == Utf8(text[..|text| - 1]) + Utf8Char(text[|text| - 1])
  {
    hide Utf8Char;
    if |text| > 1 {
      Utf8Snoc(text[1..]);
      assert text[..|text| - 1][1..] == text[1..][..|text| - 2];
    }
  }

  lemma LastByte(text: string)
    requires text != ""
    ensures var bytes := Utf8(text);
            && bytes != [] && (bytes[|bytes| - 1] == PAD <==> text[|text| - 1] == '=')
            && (text[|text| - 1] == '=' ==> bytes == Utf8(text[..|text| - 1]) + [PAD])
  {
    Utf8Snoc(text);
    Utf8OfPad();
    hide Utf8, Utf8Char;
  }

  /// Padding counted over characters is padding counted over bytes.
  lemma PadsOfCharsAndBytes(text: string)
    ensures TrailingPads(Utf8(text)) == TrailingPadChars(text)
  {
    hide Utf8, Utf8Char, TrailingPads;
    if text == "" {
      NoBytes();
    } else {
      LastByte(text);
      NoPads(Utf8(text));
      if text[|text| - 1] == '=' {
        var init := text[..|text| - 1];
        PadsBeforePad(Utf8(init));
        if init != "" {
          LastByte(init);
        } else {
          NoBytes();
        }
      }
    }
  }

  lemma PadsBeforePad(before: seq<Byte>)
    ensures TrailingPads(before + [PAD]) == if before != [] && before[|before| - 1] == PAD then 2 else 1
  {
  }

  lemma NoPads(bytes: seq<Byte>)
    ensures bytes == [] || bytes[|bytes| - 1] != PAD ==> TrailingPads(bytes) == 0
  {
  }

  lemma NoBytes()
    ensures Utf8("") == [] && TrailingPads([]) == 0
  {
  }

  lemma Utf8OfPad()
    ensures Utf8Char('=') == [PAD]
  {
  }

  /// For text that is valid base64 the size check, made before anything is
  /// allocated, is exact: it rejects the text just when the payload is too large.
  lemma SizeCheckIsExact(text: string)
    requires PaddedString(Utf8(Compact(text))) && Compact(text) != ""
    ensures DecodeCompact(Utf8(Compact(text))).Some?
    ensures var payload := DecodeCompact(Utf8(Compact(text))).value;
            DecodeBase64(text) == if |payload| > MAX_CONTENT_PART_BYTES then TooLarge else Payload(payload)
  {
    var compact := Compact(text);
    AcceptsPaddedStrings(Utf8(compact));
    DecodedLength(Utf8(compact));
    PadsOfCharsAndBytes(compact);
  }

  /// Text that is no padded string is refused: for its size when its characters would
  /// be too many anyway, as malformed otherwise. Blank text has no data.
  lemma MalformedIsRefused(text: string)
    ensures Compact(text) == "" <==> DecodeBase64(text) == NoData
    ensures Compact(text) != "" && !PaddedString(Utf8(Compact(text))) ==>
              DecodeBase64(text) == TooLarge || DecodeBase64(text) == Invalid
    ensures DecodeBase64(text) == Invalid ==> !PaddedString(Utf8(Compact(text)))
    ensures DecodeBase64(text) == TooLarge ==> |Utf8(Compact(text))| >= MAX_CONTENT_PART_BYTES
  {
    var compact := Compact(text);
    AcceptsPaddedStrings(Utf8(compact));
    hide Utf8, Compact, PaddedString, DecodeCompact, TrailingPadChars;
    assert compact == "" ==> ByteLength(compact) == 0;
  }

  /// However whitespace is mixed into the encoding of a payload, the payload comes
  /// back, unless it is empty or above the bound.
  lemma AttachmentRoundTrip(payload: seq<Byte>, text: string)
    requires Utf8(Compact(text)) == Encode(payload)
    ensures DecodeBase64(text)
         == if payload == [] then NoData
            else if |payload| > MAX_CONTENT_PART_BYTES then TooLarge
            else Payload(payload)
  {
    RoundTrip(payload);
    if payload != [] {
      NotEmpty(payload);
      SizeCheckIsExact(text);
    } else {
      assert Compact(text) == "" by { assert |Utf8(Compact(text))| == 0; EmptyUtf8(Compact(text)); }
    }
  }

  lemma EmptyUtf8(text: string)
    requires Utf8(text) == []
    ensures text == ""
  {
  }

  /// Whitespace anywhere in the text makes no difference.
  lemma WhitespaceIsIgnored(before: string, space: char, after: string)
    requires IsWhitespace(space)
    ensures DecodeBase64(before + [space] + after) == DecodeBase64(before + after)
  {
    hide DecodeBase64;
    assert before + [space] + after == before + ([space] + after);
    assert ([space] + after)[1..] == after;
    CompactAppend(before, [space] + after);
    CompactAppend(before, after);
    SameCompact(before + [space] + after, before + after);
  }

  lemma SameCompact(a: string, b: string)
    requires Compact(a) == Compact(b)
    ensures DecodeBase64(a) == DecodeBase64(b)
  {
    hide Compact;
  }

  lemma {:induction false} CompactAppend(a: string, b: string)
    ensures Compact(a + b) == Compact(a) + Compact(b)
  {
    hide IsWhitespace;
    if a == "" {
      assert a + b == b;
    } else {
      CompactAppend(a[1..], b);
      var head := if IsWhitespace(a[0]) then "" else [a[0]];
      assert (a + b)[0] == a[0] && (a + b)[1..] == a[1..] + b;
      assert Compact(a + b) == head + Compact(a[1..] + b);
      assert head + (Compact(a[1..]) + Compact(b)) == (head + Compact(a[1..])) + Compact(b);
    }
  }
}
