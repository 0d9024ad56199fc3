/// File names of the filesystem job queue: the priority of a job and the name it
/// was submitted under both travel in the name of its file.
module QueueNames {
  import opened Wrappers
  import opened Text

  const I32_MAX: int := 0x7fff_ffff
  const U32_LIMIT: nat := 0x1_0000_0000
  const MARKER: string := ".processing-"

  type Priority = p: int | -0x8000_0000 <= p <= 0x7fff_ffff

  /// A UUID as it is printed, as far as names depend on it.
  predicate IsUuid(u: string)
  {
    u != "" && forall i | 0 <= i < |u| :: '0' <= u[i] <= '9' || 'a' <= u[i] <= 'f' || u[i] == '-'
  }

  // ----- Priorities -----

  function InboxKey(priority: Priority): (key: nat)
    ensures key < U32_LIMIT
  {
    I32_MAX - priority
  }

  /// Decimal digits of a number, cut or filled with zeros to a width.
  function Fixed(n: nat, width: nat): (s: string)
    ensures |s| == width && forall i | 0 <= i < |s| :: '0' <= s[i] <= '9'
  {
    if width == 0 then "" else Fixed(n / 10, width - 1) + [DigitChar(n % 10)]
  }

  function InboxFilename(priority: Priority, uuid: string): string
  {
    "p" + Fixed(InboxKey(priority), 10) + "-" + uuid + ".json"
  }

  function IndexOf(s: string, c: char): (i: nat)
    ensures i <= |s| && (i < |s| ==> s[i] == c) && forall j | 0 <= j < i :: s[j] != c
  {
    if s == "" || s[0] == c then 0 else 1 + IndexOf(s[1..], c)
  }

  function PriorityFromName(name: string): Priority
  {
    if name == "" || name[0] != 'p' then 0
    else
      var rest := name[1..];
      var dash := IndexOf(rest, '-');
      if dash == |rest| || dash != 10 then 0
      else match ParseUnsigned(rest[..dash], U32_LIMIT)
        case None => 0
        case Some(key) => I32_MAX - key
  }

  function Pow10(k: nat): (p: nat)
    ensures p > 0
  {
    if k == 0 then 1 else 10 * Pow10(k - 1)
  }

  lemma {:induction false} DigitsOfFixed(n: nat, width: nat)
    requires n < Pow10(width)
    ensures Digits(Fixed(n, width)) == Some(n)
  {
    if width > 0 {
      var s := Fixed(n, width);
      DigitsOfFixed(n / 10, width - 1);
      assert s[..|s| - 1] == Fixed(n / 10, width - 1);
      assert n == n / 10 * 10 + n % 10;
    }
  }

  lemma TenDigits()
    ensures Pow10(10) == 10_000_000_000
  {
    assert Pow10(1) == 10;
    assert Pow10(4) == 10_000;
    assert Pow10(7) == 10_000_000;
  }

  /// The priority of an admitted job is read back from the name of its file.
  lemma PriorityRoundTrip(priority: Priority, uuid: string)
    ensures PriorityFromName(InboxFilename(priority, uuid)) == priority
  {
    var key := Fixed(InboxKey(priority), 10);
    var name := InboxFilename(priority, uuid);
    TenDigits();
    DigitsOfFixed(InboxKey(priority), 10);
    hide Fixed, Pow10, Digits;
    var rest := name[1..];
    assert rest == key + "-" + uuid + ".json";
    assert forall j | 0 <= j < 10 :: rest[j] == key[j] != '-';
    assert rest[10] == '-';
    assert IndexOf(rest, '-') == 10;
    assert rest[..10] == key;
    assert key[0] != '+';
  }

  // ----- The order in which jobs are claimed -----

  /// A comes before b when its priority is higher, or equal and its name smaller.
  predicate Before(a: string, b: string)
  {
    PriorityFromName(a) > PriorityFromName(b) || (PriorityFromName(a) == PriorityFromName(b) && Less(a, b))
  }

  lemma BeforeIsStrictOrder(a: string, b: string, c: string)
    ensures !Before(a, a) && (a != b ==> Before(a, b) != Before(b, a))
    ensures Before(a, b) && Before(b, c) ==> Before(a, c)
  {
    LessIsTotal(a, b);
    hide PriorityFromName, Less;
    if Less(a, b) && Less(b, c) {
      LessIsTransitive(a, b, c);
    }
  }

  lemma {:induction false} LessByPrefix(common: string, a: string, b: string)
    ensures Less(common + a, common + b) == Less(a, b)
  {
    if common == "" {
      assert common + a == a && common + b == b;
    } else {
      LessByPrefix(common[1..], a, b);
      assert (common + a)[1..] == common[1..] + a && (common + b)[1..] == common[1..] + b;
    }
  }

  lemma {:induction false} LessExtends(a: string, b: string, x: string, y: string)
    requires |a| == |b| && Less(a, b)
    ensures Less(a + x, b + y)
  {
    assert (a + x)[1..] == a[1..] + x && (b + y)[1..] == b[1..] + y;
    if a[0] == b[0] {
      LessExtends(a[1..], b[1..], x, y);
    }
  }

  lemma {:induction false} FixedKeepsOrder(m: nat, n: nat, width: nat)
    requires m < n < Pow10(width)
    ensures Less(Fixed(m, width), Fixed(n, width))
  {
    if width > 0 {
      var a, b := Fixed(m / 10, width - 1), Fixed(n / 10, width - 1);
      var x, y := [DigitChar(m % 10)], [DigitChar(n % 10)];
      if m / 10 < n / 10 {
        FixedKeepsOrder(m / 10, n / 10, width - 1);
        LessExtends(a, b, x, y);
      } else {
        assert m / 10 == n / 10 && m % 10 < n % 10;
        assert Less(x, y);
        LessByPrefix(a, x, y);
      }
    }
  }

  /// Higher priority means a smaller name: the key reverses the order.
  lemma KeysReverseOrder(p: Priority, q: Priority, u: string, v: string)
    requires p > q
    ensures Less(InboxFilename(p, u), InboxFilename(q, v))
  {
    var a, b := Fixed(InboxKey(p), 10), Fixed(InboxKey(q), 10);
    var x, y := "-" + u + ".json", "-" + v + ".json";
    assert Less(a, b) by {
      TenDigits();
      FixedKeepsOrder(InboxKey(p), InboxKey(q), 10);
    }
    hide *;
    LessExtends(a, b, x, y);
    LessByPrefix("p", a + x, b + y);
    assert "p" + a + "-" + u + ".json" == "p" + (a + x);
    assert "p" + b + "-" + v + ".json" == "p" + (b + y);
    NameIs(p, u);
    NameIs(q, v);
  }

  lemma NameIs(p: Priority, u: string)
    ensures InboxFilename(p, u) == "p" + Fixed(InboxKey(p), 10) + "-" + u + ".json"
  {
  }

  /// Among admitted names the claim order is the plain order of names.
  lemma AdmittedNamesSortThemselves(p: Priority, q: Priority, u: string, v: string)
    ensures Before(InboxFilename(p, u), InboxFilename(q, v)) <==> Less(InboxFilename(p, u), InboxFilename(q, v))
  {
    PriorityRoundTrip(p, u);
    PriorityRoundTrip(q, v);
    hide InboxFilename, Less;
    if p > q {
      KeysReverseOrder(p, q, u, v);
    } else if p < q {
      KeysReverseOrder(q, p, v, u);
      LessIsTotal(InboxFilename(p, u), InboxFilename(q, v));
    }
  }

  // ----- Extensions, claims and archives -----

  /// The position of the last dot that starts an extension; none when there is no
  /// dot or only a leading one.
  function ExtensionDot(name: string): (r: Option<nat>)
    ensures r.Some? ==> 0 < r.value < |name| && name[r.value] == '.'
    ensures r.Some? ==> forall j | r.value < j < |name| :: name[j] != '.'
    ensures r.None? ==> forall j | 0 < j < |name| :: name[j] != '.'
  {
    if |name| <= 1 then None
    else if name[|name| - 1] == '.' then Some(|name| - 1)
    else ExtensionDot(name[..|name| - 1])
  }

  predicate HasExtension(name: string, extension: string)
  {
    var dot := ExtensionDot(name);
    dot.Some? && name[dot.value + 1..] == extension
  }

  predicate IsJobName(name: string)
  {
    HasExtension(name, "json")
  }

  function Stem(name: string): string
  {
    match ExtensionDot(name)
    case Some(dot) => name[..dot]
    case None => name
  }

  function WithExtension(name: string, extension: string): string
  {
    Stem(name) + "." + extension
  }

  predicate MarkerAt(name: string, i: nat)
  {
    i + |MARKER| <= |name| && name[i..i + |MARKER|] == MARKER
  }

  /// The name before the last claim marker, or all of it.
  function OriginalName(name: string): string
  {
    match LastMarker(name, |name|)
    case Some(i) => name[..i]
    case None => name
  }

  function LastMarker(name: string, below: nat): (r: Option<nat>)
    ensures r.Some? ==> r.value < below && MarkerAt(name, r.value)
    ensures r.Some? ==> forall j: nat | r.value < j < below :: !MarkerAt(name, j)
    ensures r.None? ==> forall j: nat | j < below :: !MarkerAt(name, j)
  {
    if below == 0 then None
    else if MarkerAt(name, below - 1) then Some(below - 1)
    else LastMarker(name, below - 1)
  }

  function ProcessingName(original: string, uuid: string): string
  {
    original + MARKER + uuid + ".json"
  }

  lemma ExtensionOf(stem: string, extension: string)
    requires stem != "" && forall i | 0 <= i < |extension| :: extension[i] != '.'
    ensures ExtensionDot(stem + "." + extension) == Some(|stem|)
    ensures HasExtension(stem + "." + extension, extension) && Stem(stem + "." + extension) == stem
  {
    hide ExtensionDot;
    var name := stem + "." + extension;
    var dot := |stem|;
    assert name[dot] == '.';
    assert name[dot + 1..] == extension;
    assert name[..dot] == stem;
    forall j | dot < j < |name| ensures name[j] != '.' {
      assert name[j] == extension[j - dot - 1];
    }
    LastDot(name, dot);
  }

  lemma LastDot(name: string, dot: nat)
    requires 0 < dot < |name| && name[dot] == '.' && forall j | dot < j < |name| :: name[j] != '.'
    ensures ExtensionDot(name) == Some(dot)
  {
    var r := ExtensionDot(name);
    hide ExtensionDot;
    assert r.Some?;
  }

  /// Stripping the claim marker gives back any name, even one that already holds
  /// a marker of its own.
  lemma OriginalNameRestored(original: string, uuid: string)
    requires IsUuid(uuid)
    ensures OriginalName(ProcessingName(original, uuid)) == original
    ensures IsJobName(ProcessingName(original, uuid))
  {
    hide LastMarker, IsUuid, ExtensionDot;
    var name := ProcessingName(original, uuid);
    assert MarkerAt(name, |original|);
    forall j: nat | j > |original| ensures !MarkerAt(name, j) {
      NoLaterMarker(original, uuid, j);
    }
    hide MarkerAt;
    assert LastMarker(name, |name|) == Some(|original|);
    assert name[..|original|] == original;
    ExtensionOf(original + MARKER + uuid, "json");
    assert original + MARKER + uuid + "." + "json" == name;
  }

  lemma NoLaterMarker(original: string, uuid: string, j: nat)
    requires IsUuid(uuid) && j > |original|
    ensures !MarkerAt(ProcessingName(original, uuid), j)
  {
    var name, k := ProcessingName(original, uuid), j - |original|;
    if j + |MARKER| <= |name| {
      assert name[j..j + |MARKER|][0] == name[j] == (MARKER + uuid + ".json")[k];
      assert MARKER[0] == '.';
      var dot := |MARKER| + |uuid|;
      assert k < dot;
    }
  }
}
