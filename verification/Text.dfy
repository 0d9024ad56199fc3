/// The few facts about strings that several parts of the host rely on.
module Text {
  import opened Wrappers

  type Byte = b: nat | b < 256

  /// Characters with the Unicode White_Space property.
  predicate IsWhitespace(c: char)
  {
    || '\t' <= c <= '\r' || c == ' ' || c == '\U{85}' || c == '\U{a0}' || c == '\U{1680}'
    || '\U{2000}' <= c <= '\U{200a}' || c == '\U{2028}' || c == '\U{2029}' || c == '\U{202f}'
    || c == '\U{205f}' || c == '\U{3000}'
  }

  predicate IsBlank(s: string)
  {
    forall i | 0 <= i < |s| :: IsWhitespace(s[i])
  }

  function Utf8Length(c: char): nat
  {
    if c < '\U{80}' then 1 else if c < '\U{800}' then 2 else if c < '\U{10000}' then 3 else 4
  }

  function ByteLength(s: string): nat
  {
    if s == "" then 0 else Utf8Length(s[0]) + ByteLength(s[1..])
  }

  /// The UTF-8 encoding of one character (section 3 of RFC 3629).
  function Utf8Char(c: char): (bytes: seq<Byte>)
    ensures |bytes| == Utf8Length(c)
    ensures bytes[|bytes| - 1] == '=' as int <==> c == '='
  {
    var n := c as int;
    if n < 0x80 then [n]
    else if n < 0x800 then [0xC0 + n / 64, 0x80 + n % 64]
    else if n < 0x10000 then [0xE0 + n / 4096, 0x80 + n / 64 % 64, 0x80 + n % 64]
    else [0xF0 + n / 262144, 0x80 + n / 4096 % 64, 0x80 + n / 64 % 64, 0x80 + n % 64]
  }

  function Utf8(text: string): (bytes: seq<Byte>)
    ensures |bytes| == ByteLength(text)
  {
    if text == "" then [] else Utf8Char(text[0]) + Utf8(text[1..])
  }

  lemma SameFirstChar(c: char, d: char, x: seq<Byte>, y: seq<Byte>)
    requires Utf8Char(c) + x == Utf8Char(d) + y
    ensures c == d && x == y
  {
    var s := Utf8Char(c) + x;
    assert s[0] == Utf8Char(c)[0] == Utf8Char(d)[0];
    assert Utf8Length(c) == Utf8Length(d);
    assert s[..Utf8Length(c)] == Utf8Char(c) == Utf8Char(d);
    assert s[Utf8Length(c)..] == x && s[Utf8Length(c)..] == y;
    SameCode(c, d);
  }

  lemma SixBitsEach(n: nat)
    ensures n == 64 * (n / 64) + n % 64
    ensures n / 64 == 64 * (n / 4096) + n / 64 % 64
    ensures n / 4096 == 64 * (n / 262144) + n / 4096 % 64
  {
  }

  lemma SameCode(c: char, d: char)
    requires Utf8Char(c) == Utf8Char(d)
    ensures c == d
  {
    var m, n, x, y := c as int, d as int, Utf8Char(c), Utf8Char(d);
    SixBitsEach(m);
    SixBitsEach(n);
    assert x[0] == y[0];
    if |x| == 2 {
      assert x[1] == y[1];
    } else if |x| == 3 {
      assert x[1] == y[1] && x[2] == y[2];
    } else if |x| == 4 {
      assert x[1] == y[1] && x[2] == y[2] && x[3] == y[3];
    }
    assert m == n;
  }

  /// Different texts have different encodings, so some decoder reads each one back.
  lemma {:induction false} Utf8IsInjective(a: string, b: string)
    requires Utf8(a) == Utf8(b)
    ensures a == b
  {
    if a != "" && b != "" {
      SameFirstChar(a[0], b[0], Utf8(a[1..]), Utf8(b[1..]));
      Utf8IsInjective(a[1..], b[1..]);
      assert a == [a[0]] + a[1..] && b == [b[0]] + b[1..];
    }
  }

  /// The number a run of decimal digits denotes; none when another character
  /// stands in it.
  function Digits(s: string): Option<nat>
  {
    if s == "" then Some(0)
    else
      var init, last := Digits(s[..|s| - 1]), s[|s| - 1];
      if init.None? || !('0' <= last <= '9') then None
      else Some(init.value * 10 + (last as int - '0' as int))
  }

  /// An unsigned number below a limit: at least one digit, perhaps after a plus.
  function ParseUnsigned(s: string, limit: nat): (r: Option<nat>)
    ensures r.Some? ==> r.value < limit
  {
    var digits := if s != "" && s[0] == '+' then s[1..] else s;
    if digits == "" || Digits(digits).None? || Digits(digits).value >= limit then None
    else Digits(digits)
  }

  /// The decimal notation of a number, without leading zeros.
  function Decimal(n: nat): (s: string)
    ensures s != "" && forall i | 0 <= i < |s| :: '0' <= s[i] <= '9'
  {
    if n < 10 then [DigitChar(n)] else Decimal(n / 10) + [DigitChar(n % 10)]
  }

  function DigitChar(d: nat): char
    requires d < 10
  {
    '0' + d as char
  }

  lemma {:induction false} DigitsOfDecimal(n: nat)
    ensures Digits(Decimal(n)) == Some(n)
  {
    if n < 10 {
      assert Decimal(n)[..0] == "";
    } else {
      DigitsOfDecimal(n / 10);
      assert Decimal(n)[..|Decimal(n)| - 1] == Decimal(n / 10);
    }
  }

  function Zeros(k: nat): string
  {
    if k == 0 then "" else "0" + Zeros(k - 1)
  }

  /// What may denote a number: perhaps a plus, perhaps zeros, and its decimal notation.
  ghost predicate Numeral(s: string, n: nat)
  {
    exists k: nat :: s == Zeros(k) + Decimal(n) || s == "+" + (Zeros(k) + Decimal(n))
  }

  lemma {:induction false} DigitsBehindZero(s: string)
    ensures Digits("0" + s) == Digits(s)
  {
    var t := "0" + s;
    assert t[..|t| - 1] == if s == "" then "" else "0" + s[..|s| - 1];
    if s == "" {
      assert Digits("") == Some(0);
    } else {
      DigitsBehindZero(s[..|s| - 1]);
    }
  }

  lemma {:induction false} DigitsBehindZeros(k: nat, s: string)
    ensures Digits(Zeros(k) + s) == Digits(s)
  {
    if k == 0 {
      assert Zeros(k) + s == s;
    } else {
      DigitsBehindZeros(k - 1, s);
      var rest := Zeros(k - 1);
      assert Zeros(k) + s == "0" + (rest + s);
      hide *;
      DigitsBehindZero(rest + s);
    }
  }

  lemma {:induction false} NoLeadingZero(s: string)
    requires s != "" && s[0] != '0' && Digits(s).Some?
    ensures Digits(s).value > 0 && s == Decimal(Digits(s).value)
  {
    var init, last := s[..|s| - 1], s[|s| - 1];
    assert s == init + [last];
    if init != "" {
      NoLeadingZero(init);
      var n := Digits(s).value;
      assert n / 10 == Digits(init).value && n % 10 == last as int - '0' as int;
    }
  }

  /// A run of digits is zeros and then the decimal notation of what it denotes.
  lemma {:induction false} DigitsAreDecimal(s: string) returns (k: nat)
    requires s != "" && Digits(s).Some?
    ensures s == Zeros(k) + Decimal(Digits(s).value)
  {
    if s[0] != '0' {
      NoLeadingZero(s);
      k := 0;
    } else if |s| == 1 {
      assert s == "0" && s[..0] == "";
      k := 0;
    } else {
      DigitsBehindZero(s[1..]);
      assert s == "0" + s[1..];
      k := DigitsAreDecimal(s[1..]);
      k := k + 1;
    }
  }

  /// Exactly the numerals of numbers below the limit are read, each as its number.
  lemma ParsesExactlyNumerals(s: string, limit: nat, n: nat)
    ensures ParseUnsigned(s, limit) == Some(n) <==> n < limit && Numeral(s, n)
  {
    hide Decimal, Digits, Zeros;
    if ParseUnsigned(s, limit) == Some(n) {
      ParsedIsNumeral(s, limit);
    }
    if n < limit && Numeral(s, n) {
      NumeralIsParsed(s, limit, n);
    }
  }

  lemma ParsedIsNumeral(s: string, limit: nat)
    requires ParseUnsigned(s, limit).Some?
    ensures Numeral(s, ParseUnsigned(s, limit).value)
  {
    var digits := if s != "" && s[0] == '+' then s[1..] else s;
    hide Decimal, Digits, Zeros;
    var k := DigitsAreDecimal(digits);
    assert s == digits || s == "+" + digits;
  }

  lemma NumeralIsParsed(s: string, limit: nat, n: nat)
    requires n < limit && Numeral(s, n)
    ensures ParseUnsigned(s, limit) == Some(n)
  {
    hide Decimal, Digits, Zeros;
    var k: nat :| s == Zeros(k) + Decimal(n) || s == "+" + (Zeros(k) + Decimal(n));
    var digits := Zeros(k) + Decimal(n);
    DigitsBehindZeros(k, Decimal(n));
    DigitsOfDecimal(n);
    StartsWithDigit(k, n);
    assert s != digits ==> s[1..] == digits && s[0] == '+';
  }

  lemma StartsWithDigit(k: nat, n: nat)
    ensures (Zeros(k) + Decimal(n))[0] != '+'
  {
  }

  predicate Contains(s: string, part: string)
  {
    exists i | 0 <= i <= |s| :: part <= s[i..]
  }

  /// The order of strings, character by character.
  predicate Less(a: string, b: string)
  {
    b != "" && (a == "" || a[0] < b[0] || (a[0] == b[0] && Less(a[1..], b[1..])))
  }

  lemma {:induction false} LessIsTotal(a: string, b: string)
    ensures !Less(a, a)
    ensures a != b ==> Less(a, b) != Less(b, a)
  {
    if a != "" {
      LessIsTotal(a[1..], if b != "" then b[1..] else "");
      if b != "" && a[0] == b[0] {
        assert a == [a[0]] + a[1..] && b == [b[0]] + b[1..];
      }
    }
  }

  lemma {:induction false} LessIsTransitive(a: string, b: string, c: string)
    requires Less(a, b) && Less(b, c)
    ensures Less(a, c)
  {
    if a != "" && a[0] == b[0] == c[0] {
      LessIsTransitive(a[1..], b[1..], c[1..]);
    }
  }

  predicate Without<T(==)>(s: seq<T>, c: T)
  {
    forall i | 0 <= i < |s| :: s[i] != c
  }

  /// What may follow a part of a sequence that a separator ends: nothing, or the
  /// separator and more.
  predicate EndsOrContinues<T(==)>(s: seq<T>, c: T)
  {
    s == [] || s[0] == c
  }

  /// A sequence splits at its first separator in one way only.
  lemma SameBefore<T>(c: T, a: seq<T>, b: seq<T>, x: seq<T>, y: seq<T>)
    requires Without(a, c) && Without(b, c) && EndsOrContinues(x, c) && EndsOrContinues(y, c) && a + x == b + y
    ensures a == b && x == y
  {
    var s := a + x;
    assert x != [] ==> s[|a|] == c;
    assert y != [] ==> s[|b|] == c;
    assert forall i | 0 <= i < |a| :: s[i] == a[i];
    assert forall i | 0 <= i < |b| :: s[i] == b[i];
    assert a == s[..|a|] && b == s[..|b|] && x == s[|a|..] && y == s[|b|..];
  }

  lemma NotBothLess(a: string, b: string)
    ensures Less(a, b) ==> !Less(b, a)
  {
    LessIsTotal(a, b);
    if Less(a, b) && Less(b, a) {
      LessIsTransitive(a, b, a);
    }
  }

  /// The order is total, so what is not less goes on not being less.
  lemma NotLessChain(a: string, b: string, c: string)
    ensures !Less(b, a) && !Less(c, b) ==> !Less(c, a)
  {
    LessIsTotal(b, a);
    LessIsTotal(c, b);
    if Less(c, a) && Less(a, b) {
      LessIsTransitive(c, a, b);
    }
  }
}
