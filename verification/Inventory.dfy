/// The inventory of a workspace: a walk over its directories that lists files with
/// their digests, up to a number of files and a total size.
module Inventory {
  import opened Wrappers
  import opened Text
  import opened Sorting

  const MAX_FILES: nat := 10_000
  const MAX_TOTAL_BYTES: nat := 64 * 1024 * 1024

  /// How bytes read as text: lossily, where they are not UTF-8.
  type Decode = seq<Byte> -> string

  datatype Node = File(bytes: nat, sha256: string) | Dir(entries: seq<Entry>) | Symlink | Special

  datatype Entry = Entry(name: seq<Byte>, node: Node)

  datatype ArtifactFile = ArtifactFile(path: string, bytes: nat, sha256: string)

  /// A directory that waits to be walked, under its path from the root.
  datatype Pending = Pending(path: seq<Byte>, entries: seq<Entry>)

  // ----- What a walk should find -----

  const SLASH: Byte := 47
  const BACKSLASH: Byte := 92

  function Join(path: seq<Byte>, name: seq<Byte>): seq<Byte>
  {
    if path == [] then name else path + [SLASH] + name
  }

  /// Backslashes become slashes.
  function Slashed(path: string): (s: string)
    ensures |s| == |path|
  {
    seq(|path|, i requires 0 <= i < |path| => if path[i] == '\\' then '/' else path[i])
  }

  /// A path is listed as text with slashes only.
  function Shown(decode: Decode, path: seq<Byte>): string
  {
    Slashed(decode(path))
  }

  const GIT: seq<Byte> := [46, 103, 105, 116]
  const SHIKIGAMI: seq<Byte> := [46, 115, 104, 105, 107, 105, 103, 97, 109, 105]

  predicate Skipped(name: seq<Byte>)
  {
    name == GIT || name == SHIKIGAMI
  }

  function FilesIn(decode: Decode, path: seq<Byte>, e: Entry): seq<ArtifactFile>
    decreases e
  {
    match e.node
    case File(bytes, sha256) => [ArtifactFile(Shown(decode, Join(path, e.name)), bytes, sha256)]
    case Dir(entries) => if Skipped(e.name) then [] else FilesOf(decode, Join(path, e.name), entries)
    case _ => []
  }

  /// Every regular file below a directory, skipped directories and links apart.
  function FilesOf(decode: Decode, path: seq<Byte>, entries: seq<Entry>): seq<ArtifactFile>
    decreases entries
  {
    if entries == [] then []
    else FilesOf(decode, path, entries[..|entries| - 1]) + FilesIn(decode, path, entries[|entries| - 1])
  }

  function FilesOfAll(decode: Decode, stack: seq<Pending>): seq<ArtifactFile>
  {
    if stack == [] then []
    else FilesOfAll(decode, stack[..|stack| - 1]) + FilesOf(decode, stack[|stack| - 1].path, stack[|stack| - 1].entries)
  }

  function TotalBytes(files: seq<ArtifactFile>): nat
  {
    if files == [] then 0 else TotalBytes(files[..|files| - 1]) + files[|files| - 1].bytes
  }

  lemma {:induction false} TotalOfBoth(a: seq<ArtifactFile>, b: seq<ArtifactFile>)
    ensures TotalBytes(a + b) == TotalBytes(a) + TotalBytes(b)
  {
    if b == [] {
      assert a + b == a;
    } else {
      TotalOfBoth(a, b[..|b| - 1]);
      assert (a + b)[..|a + b| - 1] == a + b[..|b| - 1];
    }
  }

  lemma FilesUpTo(decode: Decode, path: seq<Byte>, entries: seq<Entry>, i: nat)
    requires i < |entries|
    ensures FilesOf(decode, path, entries[..i + 1])
         == FilesOf(decode, path, entries[..i]) + FilesIn(decode, path, entries[i])
  {
    assert entries[..i + 1][..i] == entries[..i];
  }

  lemma {:induction false} FilesFrom(decode: Decode, path: seq<Byte>, entries: seq<Entry>, i: nat)
    requires i <= |entries|
    ensures FilesOf(decode, path, entries) == FilesOf(decode, path, entries[..i]) + FilesOf(decode, path, entries[i..])
    decreases |entries|
  {
    hide FilesIn;
    if i < |entries| {
      var init := entries[..|entries| - 1];
      FilesFrom(decode, path, init, i);
      assert init[..i] == entries[..i] && init[i..] == entries[i..][..|entries| - i - 1];
      assert entries[i..][|entries| - i - 1] == entries[|entries| - 1];
    } else {
      assert entries[..i] == entries && entries[i..] == [];
    }
  }

  function Size(entries: seq<Entry>): nat
    decreases entries
  {
    if entries == [] then 0
    else
      var e := entries[|entries| - 1];
      Size(entries[..|entries| - 1]) + 1 + if e.node.Dir? then 1 + Size(e.node.entries) else 0
  }

  function SizeOfAll(stack: seq<Pending>): nat
  {
    if stack == [] then 0 else SizeOfAll(stack[..|stack| - 1]) + 1 + Size(stack[|stack| - 1].entries)
  }

  // ----- Which files are listed -----

  /// Following these names, directory by directory, leads to the node.
  ghost predicate Leads(entries: seq<Entry>, names: seq<seq<Byte>>, node: Node)
    decreases |names|
  {
    && names != []
    && exists e | e in entries ::
         && e.name == names[0]
         && if |names| == 1 then e.node == node else e.node.Dir? && Leads(e.node.entries, names[1..], node)
  }

  function JoinUnder(path: seq<Byte>, names: seq<seq<Byte>>): seq<Byte>
    decreases |names|
  {
    if names == [] then path else JoinUnder(Join(path, names[0]), names[1..])
  }

  /// The names lead to a regular file, through no directory of Git's or the host's,
  /// and it is listed under its path with its size and digest.
  ghost predicate ListedAt(decode: Decode, path: seq<Byte>, entries: seq<Entry>, names: seq<seq<Byte>>,
                           f: ArtifactFile)
  {
    && Leads(entries, names, File(f.bytes, f.sha256))
    && (forall i | 0 <= i < |names| - 1 :: names[i] != Utf8(".git") && names[i] != Utf8(".shikigami"))
    && f.path == Slashed(decode(JoinUnder(path, names)))
  }

  lemma AsciiFirst(text: string)
    requires text != "" && text[0] < '\U{80}'
    ensures Utf8(text) == [text[0] as int] + Utf8(text[1..])
  {
  }

  lemma {:induction false} AsciiText(text: string, bytes: seq<Byte>)
    requires |text| == |bytes| && forall i | 0 <= i < |text| :: text[i] < '\U{80}' && text[i] as int == bytes[i]
    ensures Utf8(text) == bytes
  {
    if text != "" {
      AsciiFirst(text);
      hide Utf8, Utf8Char, ByteLength;
      AsciiText(text[1..], bytes[1..]);
    }
  }

  /// The skipped names are `.git` and `.shikigami`.
  lemma SkippedNames()
    ensures Utf8(".git") == GIT && Utf8(".shikigami") == SHIKIGAMI
  {
    hide Utf8;
    AsciiText(".git", GIT);
    AsciiText(".shikigami", SHIKIGAMI);
  }

  lemma {:induction false} InOneOf(decode: Decode, path: seq<Byte>, entries: seq<Entry>, f: ArtifactFile)
    ensures f in FilesOf(decode, path, entries) ==> exists e :: e in entries && f in FilesIn(decode, path, e)
    ensures forall e | e in entries :: f in FilesIn(decode, path, e) ==> f in FilesOf(decode, path, entries)
    decreases |entries|
  {
    hide FilesIn;
    if entries != [] {
      var init, last := entries[..|entries| - 1], entries[|entries| - 1];
      InOneOf(decode, path, init, f);
      assert entries == init + [last];
      if f in FilesIn(decode, path, last) {
        assert last in entries;
      }
    }
  }

  lemma ListedOneDeeper(decode: Decode, path: seq<Byte>, e: Entry, below: seq<seq<Byte>>, f: ArtifactFile)
    requires e.node.Dir? && e.name != Utf8(".git") && e.name != Utf8(".shikigami")
    requires ListedAt(decode, Join(path, e.name), e.node.entries, below, f)
    ensures ListedAt(decode, path, [e], [e.name] + below, f)
  {
    hide Utf8, Slashed, Join;
    var names := [e.name] + below;
    assert names[1..] == below && e in [e];
    assert forall i | 1 <= i < |names| :: names[i] == below[i - 1];
  }

  lemma ListedHere(decode: Decode, path: seq<Byte>, e: Entry, f: ArtifactFile)
    requires e.node == File(f.bytes, f.sha256) && f.path == Shown(decode, Join(path, e.name))
    ensures ListedAt(decode, path, [e], [e.name], f)
  {
    hide Utf8, Slashed, Join;
    var names := [e.name];
    assert names[0] == e.name && names[1..] == [] && e in [e];
    assert JoinUnder(path, names) == JoinUnder(Join(path, e.name), []);
  }

  lemma {:induction false} ListedInIsLed(decode: Decode, path: seq<Byte>, e: Entry, f: ArtifactFile)
    returns (names: seq<seq<Byte>>)
    requires f in FilesIn(decode, path, e)
    ensures ListedAt(decode, path, [e], names, f)
    decreases e
  {
    SkippedNames();
    hide ListedAt, Utf8, Shown, Join;
    match e.node {
      case File(_, _) =>
        names := [e.name];
        ListedHere(decode, path, e, f);
      case Dir(entries) =>
        var below := ListedIsLed(decode, Join(path, e.name), entries, f);
        names := [e.name] + below;
        ListedOneDeeper(decode, path, e, below, f);
    }
  }

  lemma ListedAmong(decode: Decode, path: seq<Byte>, e: Entry, entries: seq<Entry>, names: seq<seq<Byte>>,
                    f: ArtifactFile)
    requires ListedAt(decode, path, [e], names, f) && e in entries
    ensures ListedAt(decode, path, entries, names, f)
  {
    hide Utf8, Slashed, JoinUnder;
  }

  lemma {:induction false} ListedIsLed(decode: Decode, path: seq<Byte>, entries: seq<Entry>, f: ArtifactFile)
    returns (names: seq<seq<Byte>>)
    requires f in FilesOf(decode, path, entries)
    ensures ListedAt(decode, path, entries, names, f)
    decreases entries
  {
    InOneOf(decode, path, entries, f);
    var e :| e in entries && f in FilesIn(decode, path, e);
    names := ListedInIsLed(decode, path, e, f);
    hide ListedAt;
    ListedAmong(decode, path, e, entries, names, f);
  }

  lemma {:induction false} LedIsListed(decode: Decode, path: seq<Byte>, entries: seq<Entry>, names: seq<seq<Byte>>,
                                       f: ArtifactFile)
    requires ListedAt(decode, path, entries, names, f)
    ensures f in FilesOf(decode, path, entries)
    decreases |names|
  {
    SkippedNames();
    hide Utf8, Slashed;
    var e :| e in entries && e.name == names[0]
      && if |names| == 1 then e.node == File(f.bytes, f.sha256)
         else e.node.Dir? && Leads(e.node.entries, names[1..], File(f.bytes, f.sha256));
    InOneOf(decode, path, entries, f);
    assert JoinUnder(path, names) == JoinUnder(Join(path, e.name), names[1..]);
    hide FilesOf, Join;
    if |names| > 1 {
      assert !Skipped(names[0]);
      assert ListedAt(decode, Join(path, e.name), e.node.entries, names[1..], f);
      LedIsListed(decode, Join(path, e.name), e.node.entries, names[1..], f);
    } else {
      assert names[1..] == [];
      assert FilesIn(decode, path, e) == [f];
    }
  }

  /// The files the walk should find are exactly the regular files that names lead to,
  /// through directories but those of Git and of the host.
  lemma ListedExactly(decode: Decode, entries: seq<Entry>, f: ArtifactFile)
    ensures f in FilesOf(decode, [], entries) <==> exists names :: ListedAt(decode, [], entries, names, f)
  {
    hide FilesOf, ListedAt;
    if f in FilesOf(decode, [], entries) {
      var names := ListedIsLed(decode, [], entries, f);
    }
    if names :| ListedAt(decode, [], entries, names, f) {
      LedIsListed(decode, [], entries, names, f);
    }
  }

  // ----- The order of the walk -----

  /// The files of a directory itself, in the order of its entries.
  function DirectFiles(decode: Decode, path: seq<Byte>, entries: seq<Entry>): seq<ArtifactFile>
  {
    if entries == [] then []
    else
      var e := entries[|entries| - 1];
      DirectFiles(decode, path, entries[..|entries| - 1]) + if e.node.File? then FilesIn(decode, path, e) else []
  }

  /// The directories in it that are walked later.
  function DirectDirs(path: seq<Byte>, entries: seq<Entry>): (dirs: seq<Pending>)
    ensures SizeOfAll(dirs) <= Size(entries)
  {
    if entries == [] then []
    else
      var e := entries[|entries| - 1];
      var before := DirectDirs(path, entries[..|entries| - 1]);
      if e.node.Dir? && !Skipped(e.name) then
        SizeOfOneMore(before, Pending(Join(path, e.name), e.node.entries));
        before + [Pending(Join(path, e.name), e.node.entries)]
      else before
  }

  lemma SizeOfOneMore(stack: seq<Pending>, p: Pending)
    ensures SizeOfAll(stack + [p]) == SizeOfAll(stack) + 1 + Size(p.entries)
  {
    assert (stack + [p])[..|stack|] == stack;
  }

  lemma FilesOfOneMore(decode: Decode, stack: seq<Pending>, p: Pending)
    ensures FilesOfAll(decode, stack + [p]) == FilesOfAll(decode, stack) + FilesOf(decode, p.path, p.entries)
  {
    assert (stack + [p])[..|stack|] == stack;
  }

  lemma {:induction false} PushedOnto(decode: Decode, stack: seq<Pending>, pushed: seq<Pending>)
    ensures FilesOfAll(decode, stack + pushed) == FilesOfAll(decode, stack) + FilesOfAll(decode, pushed)
    ensures SizeOfAll(stack + pushed) == SizeOfAll(stack) + SizeOfAll(pushed)
    decreases |pushed|
  {
    hide FilesOf, Size;
    if pushed == [] {
      assert stack + pushed == stack;
    } else {
      var init, last := pushed[..|pushed| - 1], pushed[|pushed| - 1];
      assert stack + pushed == (stack + init) + [last] && pushed == init + [last];
      hide *;
      PushedOnto(decode, stack, init);
      SizeOfOneMore(stack + init, last);
      FilesOfOneMore(decode, stack + init, last);
      SizeOfOneMore(init, last);
      FilesOfOneMore(decode, init, last);
    }
  }

  /// All files in the order a walk without limits meets them: directory by
  /// directory, the one pushed last first.
  function WalkOrder(decode: Decode, stack: seq<Pending>): seq<ArtifactFile>
    decreases SizeOfAll(stack)
  {
    if stack == [] then []
    else
      var dir, rest := stack[|stack| - 1], stack[..|stack| - 1];
      var dirs := DirectDirs(dir.path, dir.entries);
      PushedOnto(decode, rest, dirs);
      DirectFiles(decode, dir.path, dir.entries) + WalkOrder(decode, rest + dirs)
  }

  /// A listing is taken apart into two: nothing is lost, doubled or resized.
  ghost predicate Splits(all: seq<ArtifactFile>, a: seq<ArtifactFile>, b: seq<ArtifactFile>)
  {
    multiset(all) == multiset(a) + multiset(b) && |all| == |a| + |b| && TotalBytes(all) == TotalBytes(a) + TotalBytes(b)
  }

  lemma SplitsMore(all: seq<ArtifactFile>, a: seq<ArtifactFile>, b: seq<ArtifactFile>, x: seq<ArtifactFile>)
    requires Splits(all, a, b)
    ensures Splits(all + x, a + x, b) && Splits(all + x, a, b + x) && Splits(x + all, x + a, b)
  {
    TotalOfBoth(all, x);
    TotalOfBoth(a, x);
    TotalOfBoth(b, x);
    TotalOfBoth(x, all);
    TotalOfBoth(x, a);
  }

  /// One more entry adds to its directory's own files or to those below it.
  lemma OneMoreEntry(decode: Decode, path: seq<Byte>, entries: seq<Entry>)
    requires entries != []
    ensures var init, e := entries[..|entries| - 1], entries[|entries| - 1];
            var x := FilesIn(decode, path, e);
            var direct, later := DirectFiles(decode, path, entries), FilesOfAll(decode, DirectDirs(path, entries));
            && FilesOf(decode, path, entries) == FilesOf(decode, path, init) + x
            && direct == (if e.node.File? then DirectFiles(decode, path, init) + x else DirectFiles(decode, path, init))
            && later == (if e.node.File? then FilesOfAll(decode, DirectDirs(path, init))
                         else FilesOfAll(decode, DirectDirs(path, init)) + x)
  {
    var init, e := entries[..|entries| - 1], entries[|entries| - 1];
    var below := Pending(Join(path, e.name), if e.node.Dir? then e.node.entries else []);
    FilesOfOneMore(decode, DirectDirs(path, init), below);
    hide Shown, Size, SizeOfAll, Join, Skipped, FilesOfAll;
  }

  /// The files below a directory are its own and those of the directories in it.
  lemma {:induction false} DirectorySplits(decode: Decode, path: seq<Byte>, entries: seq<Entry>)
    ensures Splits(FilesOf(decode, path, entries), DirectFiles(decode, path, entries),
                   FilesOfAll(decode, DirectDirs(path, entries)))
  {
    if entries != [] {
      var init, e := entries[..|entries| - 1], entries[|entries| - 1];
      DirectorySplits(decode, path, init);
      var all, direct, later := FilesOf(decode, path, init), DirectFiles(decode, path, init),
        FilesOfAll(decode, DirectDirs(path, init));
      hide *;
      OneMoreEntry(decode, path, entries);
      SplitsMore(all, direct, later, FilesIn(decode, path, e));
    }
  }

  /// The walk meets every file the inventory is about, once.
  lemma {:induction false} WalkMeetsAll(decode: Decode, stack: seq<Pending>)
    ensures Splits(WalkOrder(decode, stack), FilesOfAll(decode, stack), [])
    decreases SizeOfAll(stack)
  {
    if stack != [] {
      var dir, rest := stack[|stack| - 1], stack[..|stack| - 1];
      var direct, dirs := DirectFiles(decode, dir.path, dir.entries), DirectDirs(dir.path, dir.entries);
      PushedOnto(decode, rest, dirs);
      WalkMeetsAll(decode, rest + dirs);
      DirectorySplits(decode, dir.path, dir.entries);
      hide FilesOf, DirectFiles, DirectDirs, Splits;
      SplitsFirst(direct, WalkOrder(decode, rest + dirs), FilesOfAll(decode, rest), FilesOfAll(decode, dirs),
                  FilesOf(decode, dir.path, dir.entries));
    } else {
      assert TotalBytes([]) == 0;
    }
  }

  lemma SplitsFirst(direct: seq<ArtifactFile>, later: seq<ArtifactFile>, rest: seq<ArtifactFile>,
                    below: seq<ArtifactFile>,
                    found: seq<ArtifactFile>)
    requires Splits(later, rest + below, []) && Splits(found, direct, below)
    ensures Splits(direct + later, rest + found, [])
  {
    hide TotalBytes;
    TotalOfBoth(direct, later);
    TotalOfBoth(rest, below);
    TotalOfBoth(rest, found);
  }

  // ----- What fits -----

  /// A listing within both limits whose last file was met before the byte limit was
  /// reached: at the limit even an empty file no longer fits.
  predicate Fits(files: seq<ArtifactFile>)
  {
    && |files| <= MAX_FILES && TotalBytes(files) <= MAX_TOTAL_BYTES
    && (files != [] ==> TotalBytes(files[..|files| - 1]) < MAX_TOTAL_BYTES)
  }

  lemma FitsWithOneMore(files: seq<ArtifactFile>, file: ArtifactFile)
    ensures TotalBytes(files + [file]) == TotalBytes(files) + file.bytes
    ensures Fits(files) ==>
              (Fits(files + [file]) <==>
                 |files| < MAX_FILES && TotalBytes(files) < MAX_TOTAL_BYTES
                   && TotalBytes(files) + file.bytes <= MAX_TOTAL_BYTES)
  {
    assert (files + [file])[..|files|] == files;
  }

  lemma PrefixFits(files: seq<ArtifactFile>, more: seq<ArtifactFile>)
    requires Fits(files + more)
    ensures Fits(files)
  {
    TotalOfBoth(files, more);
    if files != [] && more != [] {
      var init := (files + more)[..|files + more| - 1];
      assert init == files + more[..|more| - 1];
      TotalOfBoth(files, more[..|more| - 1]);
      var last := files[|files| - 1];
      assert TotalBytes(files) == TotalBytes(files[..|files| - 1]) + last.bytes;
    } else if more == [] {
      assert files + more == files;
    }
  }

  /// Whatever the order of the walk, all files fit when they leave a byte to spare,
  /// and do not when they are over a limit.
  lemma FitsByTotals(decode: Decode, entries: seq<Entry>)
    ensures var all, order := FilesOf(decode, [], entries), WalkOrder(decode, [Pending([], entries)]);
            && multiset(order) == multiset(all)
            && (|all| <= MAX_FILES && TotalBytes(all) < MAX_TOTAL_BYTES ==> Fits(order))
            && (Fits(order) ==> |all| <= MAX_FILES && TotalBytes(all) <= MAX_TOTAL_BYTES)
  {
    var root := Pending([], entries);
    WalkMeetsAll(decode, [root]);
    hide FilesOf, WalkOrder;
    assert [root][..0] == [] && [] + FilesOf(decode, [], entries) == FilesOf(decode, [], entries);
    assert TotalBytes([]) == 0;
    var order := WalkOrder(decode, [root]);
    if order != [] {
      assert TotalBytes(order) == TotalBytes(order[..|order| - 1]) + order[|order| - 1].bytes;
    }
  }

  // ----- The walk -----

  /// The entries of one directory: its files are listed and its directories pushed
  /// until a file no longer fits. Files left out are counted in `left`.
  method WalkDirectory(decode: Decode, dir: Pending, files: seq<ArtifactFile>, total: nat)
    returns (more: seq<ArtifactFile>, pushed: seq<Pending>, newTotal: nat, truncated: bool,
      ghost left: multiset<ArtifactFile>)
    requires Fits(files) && total == TotalBytes(files)
    ensures Fits(files + more) && newTotal == TotalBytes(files + more)
    ensures multiset(FilesOf(decode, dir.path, dir.entries))
         == multiset(more) + multiset(FilesOfAll(decode, pushed)) + left
    ensures truncated <==> left != multiset{}
    ensures truncated <==> !Fits(files + DirectFiles(decode, dir.path, dir.entries))
    ensures !truncated ==>
              more == DirectFiles(decode, dir.path, dir.entries) && pushed == DirectDirs(dir.path, dir.entries)
    ensures SizeOfAll(pushed) <= Size(dir.entries)
  {
    hide FilesOf, Shown, Fits, TotalBytes, Size, SizeOfAll, FilesOfAll;
    more, pushed, newTotal, truncated, left := [], [], total, false, multiset{};
    assert files + more == files && dir.entries[..0] == [];
    for i := 0 to |dir.entries|
      invariant Fits(files + more) && newTotal == TotalBytes(files + more)
      invariant more == DirectFiles(decode, dir.path, dir.entries[..i])
      invariant pushed == DirectDirs(dir.path, dir.entries[..i])
    {
      var entry := dir.entries[i];
      var path := Join(dir.path, entry.name);
      assert dir.entries[..i + 1][..i] == dir.entries[..i];
      if entry.node.Dir? && !Skipped(entry.name) {
        pushed := pushed + [Pending(path, entry.node.entries)];
      } else if entry.node.File? {
        var file := ArtifactFile(Shown(decode, path), entry.node.bytes, entry.node.sha256);
        FitsWithOneMore(files + more, file);
        FitsMeansBounds(files + more);
        if |files| + |more| >= MAX_FILES || newTotal >= MAX_TOTAL_BYTES || newTotal + file.bytes > MAX_TOTAL_BYTES {
          truncated := true;
          left := multiset(FilesOf(decode, dir.path, dir.entries[i..]));
          LeftOver(decode, dir, i, file);
          WhenFull(decode, dir, i, files, file);
          return;
        }
        assert files + (more + [file]) == (files + more) + [file];
        more, newTotal := more + [file], newTotal + file.bytes;
      } else {
        assert more + [] == more;
      }
    }
    assert dir.entries[..|dir.entries|] == dir.entries;
    WhenDone(decode, dir);
  }

  lemma FitsMeansBounds(files: seq<ArtifactFile>)
    requires Fits(files)
    ensures |files| <= MAX_FILES && TotalBytes(files) <= MAX_TOTAL_BYTES
  {
  }

  lemma WhenDone(decode: Decode, dir: Pending)
    ensures var direct, dirs := DirectFiles(decode, dir.path, dir.entries), DirectDirs(dir.path, dir.entries);
            multiset(FilesOf(decode, dir.path, dir.entries))
            == multiset(direct) + multiset(FilesOfAll(decode, dirs)) + multiset{}
  {
    DirectorySplits(decode, dir.path, dir.entries);
    hide FilesOf, DirectFiles, DirectDirs, FilesOfAll;
  }

  lemma WhenFull(decode: Decode, dir: Pending, i: nat, files: seq<ArtifactFile>, file: ArtifactFile)
    requires i < |dir.entries| && dir.entries[i].node.File? && FilesIn(decode, dir.path, dir.entries[i]) == [file]
    ensures var more, pushed := DirectFiles(decode, dir.path, dir.entries[..i]), DirectDirs(dir.path, dir.entries[..i]);
            && multiset(FilesOf(decode, dir.path, dir.entries))
               == multiset(more) + multiset(FilesOfAll(decode, pushed))
                    + multiset(FilesOf(decode, dir.path, dir.entries[i..]))
            && (!Fits((files + more) + [file]) ==> !Fits(files + DirectFiles(decode, dir.path, dir.entries)))
            && SizeOfAll(pushed) <= Size(dir.entries)
  {
    DirectorySplits(decode, dir.path, dir.entries[..i]);
    FilesFrom(decode, dir.path, dir.entries, i);
    SizeFrom(dir.entries, i);
    var more := DirectFiles(decode, dir.path, dir.entries[..i]);
    var rest := DirectFrom(decode, dir.path, dir.entries, i);
    hide FilesOf, Fits, DirectDirs;
    if Fits(files + DirectFiles(decode, dir.path, dir.entries)) {
      assert files + DirectFiles(decode, dir.path, dir.entries) == ((files + more) + [file]) + rest;
      PrefixFits((files + more) + [file], rest);
    }
  }

  /// The files of a directory from a file on.
  lemma {:induction false} DirectFrom(decode: Decode, path: seq<Byte>, entries: seq<Entry>, i: nat)
    returns (rest: seq<ArtifactFile>)
    requires i < |entries| && entries[i].node.File?
    ensures DirectFiles(decode, path, entries)
         == DirectFiles(decode, path, entries[..i]) + FilesIn(decode, path, entries[i]) + rest
    decreases |entries|
  {
    hide FilesIn;
    var init := entries[..|entries| - 1];
    if i == |entries| - 1 {
      rest := [];
    } else {
      rest := DirectFrom(decode, path, init, i);
      assert init[..i] == entries[..i];
      rest := rest + if entries[|entries| - 1].node.File? then FilesIn(decode, path, entries[|entries| - 1]) else [];
    }
  }

  lemma {:induction false} SizeFrom(entries: seq<Entry>, i: nat)
    requires i <= |entries|
    ensures Size(entries[..i]) <= Size(entries)
    decreases |entries|
  {
    if i < |entries| {
      var init := entries[..|entries| - 1];
      SizeFrom(init, i);
      assert init[..i] == entries[..i];
    } else {
      assert entries[..i] == entries;
    }
  }

  /// The file at which a directory is left is among those left out.
  lemma LeftOver(decode: Decode, dir: Pending, i: nat, file: ArtifactFile)
    requires i < |dir.entries| && FilesIn(decode, dir.path, dir.entries[i]) == [file]
    ensures file in multiset(FilesOf(decode, dir.path, dir.entries[i..]))
  {
    var tail := dir.entries[i..];
    FilesFrom(decode, dir.path, tail, 1);
    FilesUpTo(decode, dir.path, tail, 0);
    assert tail[..0] == [];
    assert (FilesOf(decode, dir.path, tail[..1]) + FilesOf(decode, dir.path, tail[1..]))[0] == file;
  }

  // ----- The inventory -----

  function PathOf(f: ArtifactFile): string
  {
    f.path
  }

  lemma {:induction false} InsertBytes(files: seq<ArtifactFile>, f: ArtifactFile)
    ensures TotalBytes(Insert(files, f, PathOf)) == TotalBytes(files) + f.bytes
  {
    hide TotalBytes, Less;
    TotalOfFirst(f, files);
    if files != [] && Less(files[0].path, f.path) {
      InsertBytes(files[1..], f);
      assert files == [files[0]] + files[1..];
      TotalOfFirst(files[0], files[1..]);
      TotalOfFirst(files[0], Insert(files[1..], f, PathOf));
    }
  }

  lemma {:induction false} SortBytes(files: seq<ArtifactFile>)
    ensures TotalBytes(SortBy(files, PathOf)) == TotalBytes(files)
  {
    if files != [] {
      SortBytes(files[1..]);
      InsertBytes(SortBy(files[1..], PathOf), files[0]);
      hide TotalBytes;
      TotalOfFirst(files[0], files[1..]);
      assert files == [files[0]] + files[1..];
    }
  }

  lemma TotalOfFirst(f: ArtifactFile, rest: seq<ArtifactFile>)
    ensures TotalBytes([f] + rest) == f.bytes + TotalBytes(rest)
  {
    TotalOfBoth([f], rest);
    assert [f][..0] == [];
  }

  /// The inventory of a workspace; none for a root that is no directory. It stays
  /// within both limits, lists only files the walk should find, in order and none
  /// more often than it is there, and lists them all exactly when it is not
  /// truncated; and that is when all files, in the order they are met, fit.
  method Take(decode: Decode, root: Option<seq<Entry>>) returns (files: seq<ArtifactFile>, truncated: bool)
    ensures root.None? ==> files == [] && !truncated
    ensures |files| <= MAX_FILES && TotalBytes(files) <= MAX_TOTAL_BYTES && SortedBy(files, PathOf)
    ensures root.Some? ==>
              && multiset(files) <= multiset(FilesOf(decode, [], root.value))
              && (truncated <==> multiset(files) != multiset(FilesOf(decode, [], root.value)))
              && (truncated <==> !Fits(WalkOrder(decode, [Pending([], root.value)])))
  {
    files, truncated := [], false;
    if root.None? {
      return;
    }
    hide FilesOf, TotalBytes, SortedBy, Accounted, Fits, DirectFiles, DirectDirs;
    var total := 0;
    var stack := [Pending([], root.value)];
    ghost var all, order := FilesOf(decode, [], root.value), WalkOrder(decode, stack);
    ghost var left: multiset<ArtifactFile> := multiset{};
    StartOfWalk(decode, Pending([], root.value));
    while stack != []
      invariant Fits(files) && total == TotalBytes(files)
      invariant Accounted(all, files, FilesOfAll(decode, stack), left)
      invariant truncated <==> left != multiset{}
      invariant !truncated ==> files + WalkOrder(decode, stack) == order
      invariant truncated ==> !Fits(order)
      decreases SizeOfAll(stack)
    {
      hide FilesOfAll, SizeOfAll;
      var dir := stack[|stack| - 1];
      Popped(decode, stack);
      stack := stack[..|stack| - 1];
      var more, pushed, newTotal, stopped;
      ghost var leftHere;
      more, pushed, newTotal, stopped, leftHere := WalkDirectory(decode, dir, files, total);
      ghost var found := FilesOf(decode, dir.path, dir.entries);
      AccountedAfter(all, files, FilesOfAll(decode, stack), left, found, more, FilesOfAll(decode, pushed), leftHere);
      PushedOnto(decode, stack, pushed);
      if !truncated {
        ghost var direct := DirectFiles(decode, dir.path, dir.entries);
        OrderFrom(files, direct, WalkOrder(decode, stack + DirectDirs(dir.path, dir.entries)), order);
      }
      files, total, stack := files + more, newTotal, stack + pushed;
      truncated := truncated || stopped;
      left := left + leftHere;
    }
    AllWalked(decode, all, files, left);
    assert files + [] == files;
    FitsMeansBounds(files);
    SortSorts(files, PathOf);
    SortBytes(files);
    SameSize(SortBy(files, PathOf), files);
    files := SortBy(files, PathOf);
  }

  lemma SameSize(a: seq<ArtifactFile>, b: seq<ArtifactFile>)
    requires multiset(a) == multiset(b)
    ensures |a| == |b|
  {
    assert |multiset(a)| == |multiset(b)|;
  }

  lemma OrderFrom(files: seq<ArtifactFile>, direct: seq<ArtifactFile>, rest: seq<ArtifactFile>,
                  order: seq<ArtifactFile>)
    requires files + (direct + rest) == order
    ensures (files + direct) + rest == order
    ensures !Fits(files + direct) ==> !Fits(order)
  {
    assert (files + direct) + rest == order;
    if Fits(order) {
      PrefixFits(files + direct, rest);
    }
  }

  /// Every file is listed, waits in a directory on the stack, or was left out.
  ghost predicate Accounted(all: seq<ArtifactFile>, files: seq<ArtifactFile>, rest: seq<ArtifactFile>,
                            left: multiset<ArtifactFile>)
  {
    multiset(all) == multiset(files) + multiset(rest) + left
  }

  lemma StartOfWalk(decode: Decode, root: Pending)
    ensures Accounted(FilesOf(decode, root.path, root.entries), [], FilesOfAll(decode, [root]), multiset{})
    ensures Fits([]) && TotalBytes([]) == 0
    ensures [] + WalkOrder(decode, [root]) == WalkOrder(decode, [root])
  {
    assert [root][..0] == [] && [root][0] == root;
    assert [] + FilesOf(decode, root.path, root.entries) == FilesOf(decode, root.path, root.entries);
  }

  lemma AccountedAfter(all: seq<ArtifactFile>, files: seq<ArtifactFile>, rest: seq<ArtifactFile>,
                       left: multiset<ArtifactFile>,
                       found: seq<ArtifactFile>, more: seq<ArtifactFile>, pushed: seq<ArtifactFile>,
                         leftHere: multiset<ArtifactFile>)
    requires Accounted(all, files, rest + found, left)
        && multiset(found) == multiset(more) + multiset(pushed) + leftHere
    ensures Accounted(all, files + more, rest + pushed, left + leftHere)
  {
  }

  lemma AllWalked(decode: Decode, all: seq<ArtifactFile>, files: seq<ArtifactFile>, left: multiset<ArtifactFile>)
    requires Accounted(all, files, FilesOfAll(decode, []), left)
    ensures multiset(files) <= multiset(all)
    ensures left != multiset{} <==> multiset(files) != multiset(all)
  {
    if multiset(files) == multiset(all) {
      forall f ensures left[f] == 0 {
        assert multiset(all)[f] == multiset(files)[f] + left[f];
      }
    }
  }

  lemma Popped(decode: Decode, stack: seq<Pending>)
    requires stack != []
    ensures var dir, rest := stack[|stack| - 1], stack[..|stack| - 1];
            && FilesOfAll(decode, stack) == FilesOfAll(decode, rest) + FilesOf(decode, dir.path, dir.entries)
            && SizeOfAll(stack) == SizeOfAll(rest) + 1 + Size(dir.entries)
            && WalkOrder(decode, stack) == DirectFiles(decode, dir.path, dir.entries)
                 + WalkOrder(decode, rest + DirectDirs(dir.path, dir.entries))
  {
  }

  // ----- One path, one file -----

  /// What file systems keep: names in a directory are distinct, not empty and
  /// without slashes.
  ghost predicate GoodNames(entries: seq<Entry>)
    decreases entries
  {
    && (forall e | e in entries ::
          e.name != [] && Without(e.name, SLASH) && (e.node.Dir? ==> GoodNames(e.node.entries)))
    && forall i, j | 0 <= i < j < |entries| :: entries[i].name != entries[j].name
  }

  function RawIn(path: seq<Byte>, e: Entry): seq<seq<Byte>>
    decreases e
  {
    match e.node
    case File(_, _) => [Join(path, e.name)]
    case Dir(entries) => if Skipped(e.name) then [] else RawOf(Join(path, e.name), entries)
    case _ => []
  }

  /// The paths of the files as they are, before they are listed as text.
  function RawOf(path: seq<Byte>, entries: seq<Entry>): seq<seq<Byte>>
    decreases entries
  {
    if entries == [] then [] else RawOf(path, entries[..|entries| - 1]) + RawIn(path, entries[|entries| - 1])
  }

  ghost predicate ShowsRaw(decode: Decode, files: seq<ArtifactFile>, raw: seq<seq<Byte>>)
  {
    |files| == |raw| && forall i | 0 <= i < |raw| :: files[i].path == Shown(decode, raw[i])
  }

  lemma {:induction false} ShownIn(decode: Decode, path: seq<Byte>, e: Entry)
    ensures ShowsRaw(decode, FilesIn(decode, path, e), RawIn(path, e))
    decreases e
  {
    if e.node.Dir? && !Skipped(e.name) {
      ShownOf(decode, Join(path, e.name), e.node.entries);
    }
  }

  lemma {:induction false} ShownOf(decode: Decode, path: seq<Byte>, entries: seq<Entry>)
    ensures ShowsRaw(decode, FilesOf(decode, path, entries), RawOf(path, entries))
    decreases entries
  {
    if entries != [] {
      hide Shown;
      ShownOf(decode, path, entries[..|entries| - 1]);
      ShownIn(decode, path, entries[|entries| - 1]);
    }
  }

  ghost predicate DistinctPaths(files: seq<ArtifactFile>)
  {
    forall i, j | 0 <= i < j < |files| :: files[i].path != files[j].path
  }

  /// The path is one below the entry: the entry's path, and then nothing or a
  /// slash and more.
  predicate Below(path: seq<Byte>, name: seq<Byte>, raw: seq<Byte>)
  {
    var p := Join(path, name);
    p <= raw && EndsOrContinues(raw[|p|..], SLASH)
  }

  lemma BelowOneName(path: seq<Byte>, a: seq<Byte>, b: seq<Byte>, raw: seq<Byte>)
    requires a != [] && b != [] && Without(a, SLASH) && Without(b, SLASH)
    requires Below(path, a, raw) && Below(path, b, raw)
    ensures a == b
  {
    var k := if path == [] then 0 else |path| + 1;
    var p, q := Join(path, a), Join(path, b);
    assert p[k..] == a && q[k..] == b;
    var x, y := raw[|p|..], raw[|q|..];
    assert raw == p + x && raw == q + y;
    assert a + x == raw[k..] && b + y == raw[k..];
    SameBefore(SLASH, a, b, x, y);
  }

  lemma BelowParent(path: seq<Byte>, name: seq<Byte>, inner: seq<Byte>, raw: seq<Byte>)
    requires Below(Join(path, name), inner, raw) && name != []
    ensures Below(path, name, raw)
  {
    var p := Join(path, name);
    assert Join(p, inner) == p + [SLASH] + inner;
    assert raw[|p|] == SLASH;
  }

  lemma {:induction false} PathsIn(path: seq<Byte>, e: Entry)
    requires e.name != [] && (e.node.Dir? ==> GoodNames(e.node.entries))
    ensures forall raw | raw in RawIn(path, e) :: Below(path, e.name, raw)
    ensures Distinct(RawIn(path, e))
    decreases e
  {
    if e.node.Dir? && !Skipped(e.name) {
      PathsUnder(Join(path, e.name), e.node.entries);
      forall raw | raw in RawIn(path, e) ensures Below(path, e.name, raw) {
        var inner :| inner in e.node.entries && Below(Join(path, e.name), inner.name, raw);
        BelowParent(path, e.name, inner.name, raw);
      }
    }
  }

  lemma {:induction false} PathsUnder(path: seq<Byte>, entries: seq<Entry>)
    requires GoodNames(entries)
    ensures forall raw | raw in RawOf(path, entries) :: exists e :: e in entries && Below(path, e.name, raw)
    ensures Distinct(RawOf(path, entries))
    decreases entries
  {
    if entries != [] {
      var init, last := entries[..|entries| - 1], entries[|entries| - 1];
      PathsUnder(path, init);
      PathsIn(path, last);
      var a, b := RawOf(path, init), RawIn(path, last);
      hide Below, RawIn;
      forall raw | raw in a ensures raw !in b {
        var e :| e in init && Below(path, e.name, raw);
        if raw in b {
          BelowOneName(path, e.name, last.name, raw);
        }
      }
      DistinctTogether(a, b);
      forall raw | raw in a + b ensures exists e :: e in entries && Below(path, e.name, raw) {
        if raw in a {
          var e :| e in init && Below(path, e.name, raw);
          assert e in entries;
        } else {
          assert last in entries && Below(path, last.name, raw);
        }
      }
    }
  }

  lemma DistinctTogether(a: seq<seq<Byte>>, b: seq<seq<Byte>>)
    requires Distinct(a) && Distinct(b) && forall raw | raw in a :: raw !in b
    ensures Distinct(a + b)
  {
    forall i, j | 0 <= i < j < |a + b| ensures (a + b)[i] != (a + b)[j] {
      assert i < |a| ==> (a + b)[i] in a;
      assert j >= |a| ==> (a + b)[j] in b;
    }
  }

  /// Two texts that differ, but in slashes against backslashes only.
  predicate SlashTwins(a: string, b: string)
  {
    && a != b && |a| == |b|
    && forall k | 0 <= k < |a| :: a[k] == b[k] || (a[k] == '/' && b[k] == '\\') || (a[k] == '\\' && b[k] == '/')
  }

  lemma SlashedAlike(a: string, b: string)
    ensures Slashed(a) == Slashed(b) <==> a == b || SlashTwins(a, b)
  {
    if Slashed(a) == Slashed(b) {
      forall k | 0 <= k < |a| ensures a[k] == b[k] || (a[k] == '/' && b[k] == '\\') || (a[k] == '\\' && b[k] == '/') {
        assert Slashed(a)[k] == Slashed(b)[k];
      }
    }
    if SlashTwins(a, b) {
      assert forall k | 0 <= k < |a| :: Slashed(a)[k] == Slashed(b)[k];
    }
  }

  /// Two paths that differ read alike: as one text, or as texts that differ in
  /// slashes against backslashes only.
  predicate ReadAlike(decode: Decode, a: seq<Byte>, b: seq<Byte>)
  {
    a != b && (decode(a) == decode(b) || SlashTwins(decode(a), decode(b)))
  }

  /// Every file of a workspace is listed under a path of its own exactly when no two
  /// of their paths read alike.
  lemma PathsAreDistinct(decode: Decode, entries: seq<Entry>)
    requires GoodNames(entries)
    ensures var raw := RawOf([], entries);
            DistinctPaths(FilesOf(decode, [], entries))
            <==> forall a, b | a in raw && b in raw :: !ReadAlike(decode, a, b)
  {
    ShownOf(decode, [], entries);
    PathsUnder([], entries);
    hide FilesOf, RawOf, GoodNames, Slashed, SlashTwins;
    var files, raw := FilesOf(decode, [], entries), RawOf([], entries);
    forall i, j | 0 <= i < j < |raw| ensures files[i].path != files[j].path <==> !ReadAlike(decode, raw[i], raw[j]) {
      SlashedAlike(decode(raw[i]), decode(raw[j]));
    }
    forall a, b | DistinctPaths(files) && a in raw && b in raw ensures !ReadAlike(decode, a, b) {
      var i :| 0 <= i < |raw| && raw[i] == a;
      var j :| 0 <= j < |raw| && raw[j] == b;
      SlashedAlike(decode(a), decode(b));
    }
  }

  // ----- Names that are text -----

  /// Text is read back as it was; what other bytes read as is left open.
  ghost predicate ReadsUtf8(decode: Decode)
  {
    forall text :: decode(Utf8(text)) == text
  }

  ghost predicate IsUtf8(bytes: seq<Byte>)
  {
    exists text :: bytes == Utf8(text)
  }

  ghost predicate TextNames(entries: seq<Entry>)
    decreases entries
  {
    forall e | e in entries :: IsUtf8(e.name) && (e.node.Dir? ==> TextNames(e.node.entries))
  }

  lemma {:induction false} Utf8OfBoth(a: string, b: string)
    ensures Utf8(a + b) == Utf8(a) + Utf8(b)
  {
    if a == "" {
      assert a + b == b;
    } else {
      var first, rest := Utf8Char(a[0]), a[1..];
      assert Utf8(a) == first + Utf8(rest);
      assert (a + b)[0] == a[0] && (a + b)[1..] == rest + b;
      assert Utf8(a + b) == first + Utf8(rest + b);
      hide *;
      Utf8OfBoth(rest, b);
    }
  }

  lemma JoinedText(path: seq<Byte>, name: seq<Byte>)
    requires IsUtf8(path) && IsUtf8(name)
    ensures IsUtf8(Join(path, name))
  {
    var p, n :| path == Utf8(p) && name == Utf8(n);
    Utf8OfBoth(p + "/", n);
    Utf8OfBoth(p, "/");
    assert Utf8("/") == [SLASH] by { assert Utf8Char('/') == [SLASH] && "/"[1..] == ""; }
  }

  lemma {:induction false} RawText(path: seq<Byte>, entries: seq<Entry>)
    requires TextNames(entries) && IsUtf8(path)
    ensures forall raw | raw in RawOf(path, entries) :: IsUtf8(raw)
    decreases entries
  {
    if entries != [] {
      var init, e := entries[..|entries| - 1], entries[|entries| - 1];
      hide IsUtf8, Join;
      RawText(path, init);
      JoinedText(path, e.name);
      if e.node.Dir? {
        RawText(Join(path, e.name), e.node.entries);
      }
    }
  }

  /// When all names are text, two paths read alike exactly when they differ in
  /// slashes against backslashes only.
  lemma TextPathsAreDistinct(decode: Decode, entries: seq<Entry>)
    requires GoodNames(entries) && TextNames(entries) && ReadsUtf8(decode)
    ensures var raw := RawOf([], entries);
            DistinctPaths(FilesOf(decode, [], entries))
            <==> forall a, b | a in raw && b in raw :: !SlashTwins(decode(a), decode(b))
  {
    PathsAreDistinct(decode, entries);
    assert [] == Utf8("");
    RawText([], entries);
    hide FilesOf, RawOf, GoodNames, Utf8, SlashTwins;
    var raw := RawOf([], entries);
    forall a, b | a in raw && b in raw ensures ReadAlike(decode, a, b) <==> SlashTwins(decode(a), decode(b)) {
      var s, t :| a == Utf8(s) && b == Utf8(t);
      assert decode(a) == s && decode(b) == t;
      NoTwinOfItself(s);
    }
  }

  lemma NoTwinOfItself(s: string)
    ensures !SlashTwins(s, s)
  {
  }

  ghost predicate NoBackslashes(entries: seq<Entry>)
    decreases entries
  {
    forall e | e in entries :: Without(e.name, BACKSLASH) && (e.node.Dir? ==> NoBackslashes(e.node.entries))
  }

  lemma {:induction false} RawWithoutBackslashes(path: seq<Byte>, entries: seq<Entry>)
    requires NoBackslashes(entries) && Without(path, BACKSLASH)
    ensures forall raw | raw in RawOf(path, entries) :: Without(raw, BACKSLASH)
    decreases entries
  {
    if entries != [] {
      var init, e := entries[..|entries| - 1], entries[|entries| - 1];
      RawWithoutBackslashes(path, init);
      if e.node.Dir? {
        RawWithoutBackslashes(Join(path, e.name), e.node.entries);
      }
    }
  }

  lemma {:induction false} TextWithoutBackslash(text: string)
    requires Without(Utf8(text), BACKSLASH)
    ensures Without(text, '\\')
  {
    if text != "" {
      var first, rest := Utf8Char(text[0]), Utf8(text[1..]);
      assert Utf8(text) == first + rest;
      assert forall i | 0 <= i < |rest| :: (first + rest)[|first| + i] == rest[i];
      assert (first + rest)[0] == first[0];
      TextWithoutBackslash(text[1..]);
    }
  }

  /// In particular every file has a path of its own when all names are text and none
  /// holds a backslash.
  lemma PlainPathsAreDistinct(decode: Decode, entries: seq<Entry>)
    requires GoodNames(entries) && TextNames(entries) && ReadsUtf8(decode) && NoBackslashes(entries)
    ensures DistinctPaths(FilesOf(decode, [], entries))
  {
    TextPathsAreDistinct(decode, entries);
    assert [] == Utf8("");
    RawText([], entries);
    RawWithoutBackslashes([], entries);
    hide FilesOf, RawOf, Utf8;
    var raw := RawOf([], entries);
    forall a, b | a in raw && b in raw ensures !SlashTwins(decode(a), decode(b)) {
      var s, t :| a == Utf8(s) && b == Utf8(t);
      TextWithoutBackslash(s);
      TextWithoutBackslash(t);
    }
  }

  // ----- Two files, one path -----

  lemma FilesOfTwo(decode: Decode, a: Entry, b: Entry)
    ensures FilesOf(decode, [], [a, b]) == FilesIn(decode, [], a) + FilesIn(decode, [], b)
  {
    hide FilesIn;
    var entries := [a, b];
    FilesUpTo(decode, [], entries, 0);
    FilesUpTo(decode, [], entries, 1);
    assert entries[..0] == [] && entries[..2] == entries;
  }

  /// A backslash in a name can give two files one path: `a\b` and `b` in `a`.
  lemma BackslashesCollide(decode: Decode)
    requires ReadsUtf8(decode)
    ensures var entries := [Entry([97, BACKSLASH, 98], File(1, "x")), Entry([97], Dir([Entry([98], File(2, "y"))]))];
            FilesOf(decode, [], entries) == [ArtifactFile("a/b", 1, "x"), ArtifactFile("a/b", 2, "y")]
  {
    var inner := [Entry([98], File(2, "y"))];
    var a, b := Entry([97, BACKSLASH, 98], File(1, "x")), Entry([97], Dir(inner));
    assert Utf8("a\\b") == [97, BACKSLASH, 98] && Utf8("a/b") == [97, SLASH, 98];
    assert Slashed("a\\b") == "a/b" && Slashed("a/b") == "a/b";
    assert Join([97], [98]) == [97, SLASH, 98];
    hide Utf8, ByteLength, Slashed;
    FilesOfTwo(decode, a, b);
    FilesUpTo(decode, [97], inner, 0);
    assert inner[..0] == [] && inner[..1] == inner;
  }

  /// So can names that are not text: the bytes 0xFF and 0xFE both read as the
  /// replacement character.
  lemma LossyNamesCollide(decode: Decode)
    requires decode([0xFF]) == "\U{fffd}" == decode([0xFE])
    ensures var entries := [Entry([0xFF], File(1, "x")), Entry([0xFE], File(2, "y"))];
            && GoodNames(entries) && NoBackslashes(entries)
            && FilesOf(decode, [], entries) == [ArtifactFile("\U{fffd}", 1, "x"), ArtifactFile("\U{fffd}", 2, "y")]
  {
    FilesOfTwo(decode, Entry([0xFF], File(1, "x")), Entry([0xFE], File(2, "y")));
    assert Slashed("\U{fffd}") == "\U{fffd}";
  }
}
