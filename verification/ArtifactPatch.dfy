/// The retained patch of a run: Git's output, read in pieces and cut off at a
/// bound that holds for the whole patch.
module ArtifactPatch {
  import opened Text
  import opened ArtifactChanges
  import opened Sorting

  const MAX_PATCH_BYTES: nat := 8 * 1024 * 1024

  /// What a Git command does: it is missing, it fails to start or to be read, or
  /// it writes its output in pieces and exits.
  datatype Command = Missing | Broken | Writes(pieces: seq<seq<Byte>>, success: bool)

  datatype Captured = Output(bytes: seq<Byte>, success: bool) | NotCaptured | CaptureError

  datatype Retained = Patch(bytes: seq<Byte>) | NoPatch | PatchError

  function Flat(pieces: seq<seq<Byte>>): seq<Byte>
  {
    if pieces == [] then [] else Flat(pieces[..|pieces| - 1]) + pieces[|pieces| - 1]
  }

  /// What capturing a command with a limit gives.
  function Capture(command: Command, limit: nat): Captured
  {
    match command
    case Missing => NotCaptured
    case Broken => CaptureError
    case Writes(pieces, success) => if |Flat(pieces)| > limit then NotCaptured else Output(Flat(pieces), success)
  }

  lemma {:induction false} FlatGrows(pieces: seq<seq<Byte>>, n: nat)
    requires n <= |pieces|
    ensures Flat(pieces[..n]) <= Flat(pieces)
    ensures n > 0 ==> Flat(pieces[..n]) == Flat(pieces[..n - 1]) + pieces[n - 1]
    decreases |pieces|
  {
    if n < |pieces| {
      FlatGrows(pieces[..|pieces| - 1], n);
      assert pieces[..|pieces| - 1][..n] == pieces[..n];
      assert n > 0 ==> pieces[..|pieces| - 1][..n - 1] == pieces[..n - 1];
    } else {
      assert pieces[..n] == pieces;
    }
  }

  /// Reads piece by piece and stops at the piece that would exceed the limit: never
  /// more than the limit is held, and all of the output when it fits.
  method BoundedGitOutput(command: Command, limit: nat) returns (r: Captured)
    ensures r == Capture(command, limit)
    ensures r.Output? ==> |r.bytes| <= limit
  {
    match command {
      case Missing => return NotCaptured;
      case Broken => return CaptureError;
      case Writes(pieces, success) =>
        var output := [];
        for n := 0 to |pieces|
          invariant output == Flat(pieces[..n]) && |output| <= limit
        {
          assert pieces[..n + 1][..n] == pieces[..n];
          if |output| + |pieces[n]| > limit {
            FlatGrows(pieces, n + 1);
            return NotCaptured;
          }
          output := output + pieces[n];
        }
        assert pieces[..|pieces|] == pieces;
        return Output(output, success);
    }
  }

  /// What Git would answer about the workspace.
  datatype Git = Git(isWorkspace: bool, diff: Command, ignored: string -> bool, tracked: string -> bool,
                     fileDiff: string -> Command)

  /// The changed files Git does not know, whose diffs are added one by one.
  function Untracked(git: Git, paths: seq<string>): seq<string>
  {
    if paths == [] then []
    else
      var last := paths[|paths| - 1];
      Untracked(git, paths[..|paths| - 1]) + if git.ignored(last) || git.tracked(last) then [] else [last]
  }

  function FilePatch(command: Command): seq<Byte>
  {
    if command.Writes? then Flat(command.pieces) else []
  }

  function FilePatches(git: Git, paths: seq<string>): seq<Byte>
  {
    if paths == [] then [] else FilePatches(git, paths[..|paths| - 1]) + FilePatch(git.fileDiff(paths[|paths| - 1]))
  }

  /// Git runs for each of the files.
  predicate AllWrite(git: Git, paths: seq<string>)
  {
    forall p | p in paths :: git.fileDiff(p).Writes?
  }

  function Present(changes: seq<Change>): seq<string>
  {
    if changes == [] then []
    else
      var last := changes[|changes| - 1];
      Present(changes[..|changes| - 1]) + if last.Deleted? then [] else [last.path]
  }

  /// The paths whose files are still there, in order.
  function ChangedPaths(changes: seq<Change>, files: seq<string>): seq<string>
  {
    Dedup(Sort(Listed(files, Present(changes))))
  }

  function Listed(files: seq<string>, wanted: seq<string>): seq<string>
  {
    if files == [] then [] else (if files[0] in wanted then [files[0]] else []) + Listed(files[1..], wanted)
  }

  /// The whole patch: the diff of tracked files, when it succeeds, and then the
  /// files Git does not know.
  function WholePatch(git: Git, untracked: seq<string>): seq<Byte>
  {
    (if git.diff.Writes? && git.diff.success then Flat(git.diff.pieces) else []) + FilePatches(git, untracked)
  }

  lemma {:induction false} UntrackedGrows(git: Git, paths: seq<string>, n: nat)
    requires n <= |paths|
    ensures Untracked(git, paths[..n]) <= Untracked(git, paths)
    decreases |paths|
  {
    if n < |paths| {
      UntrackedGrows(git, paths[..|paths| - 1], n);
      assert paths[..|paths| - 1][..n] == paths[..n];
    } else {
      assert paths[..n] == paths;
    }
  }

  lemma {:induction false} PatchesGrow(git: Git, some: seq<string>, all: seq<string>)
    requires some <= all
    ensures |FilePatches(git, some)| <= |FilePatches(git, all)|
    decreases |all|
  {
    if some != all {
      PatchesGrow(git, some, all[..|all| - 1]);
    }
  }

  // ----- Which files are added -----

  lemma {:induction false} UntrackedExactly(git: Git, paths: seq<string>)
    ensures forall p :: p in Untracked(git, paths) <==> p in paths && !git.ignored(p) && !git.tracked(p)
    ensures StrictlySorted(paths) ==> StrictlySorted(Untracked(git, paths))
  {
    if paths != [] {
      var init, last := paths[..|paths| - 1], paths[|paths| - 1];
      UntrackedExactly(git, init);
      assert paths == init + [last];
      hide Less;
      if StrictlySorted(paths) {
        forall p | p in Untracked(git, init) ensures Less(p, last) {
          var i :| 0 <= i < |init| && init[i] == p;
          assert Less(paths[i], paths[|init|]);
        }
      }
    }
  }

  lemma {:induction false} PresentExactly(changes: seq<Change>)
    ensures forall p :: p in Present(changes) <==> exists c :: c in changes && !c.Deleted? && c.path == p
  {
    if changes != [] {
      var init, last := changes[..|changes| - 1], changes[|changes| - 1];
      PresentExactly(init);
      assert changes == init + [last];
    }
  }

  lemma {:induction false} ListedExactly(files: seq<string>, wanted: seq<string>)
    ensures forall p :: p in Listed(files, wanted) <==> p in files && p in wanted
  {
    if files != [] {
      ListedExactly(files[1..], wanted);
      assert files == [files[0]] + files[1..];
    }
  }

  /// The files whose diffs are added are, in strict order of their paths, those that
  /// are there, were changed, and that Git neither ignores nor knows.
  lemma AddedFilesExactly(git: Git, changes: seq<Change>, files: seq<string>)
    ensures var added := Untracked(git, ChangedPaths(changes, files));
            && StrictlySorted(added)
            && forall p :: p in added <==>
                 && p in files && (exists c :: c in changes && !c.Deleted? && c.path == p)
                 && !git.ignored(p) && !git.tracked(p)
  {
    var listed := Listed(files, Present(changes));
    PresentExactly(changes);
    ListedExactly(files, Present(changes));
    SortSorts(listed, Itself);
    SortedElements(listed, Itself);
    DedupIsStrict(Sort(listed));
    UntrackedExactly(git, ChangedPaths(changes, files));
    hide Untracked, Present, Listed, SortBy, Dedup, StrictlySorted, SortedBy;
  }

  /// The whole patch begins with all of Git's diff when that succeeded, and is the
  /// files' diffs alone when it did not.
  lemma FailedDiffIsLeftOut(git: Git, untracked: seq<string>)
    requires git.diff.Writes?
    ensures git.diff.success ==> WholePatch(git, untracked)[..|Flat(git.diff.pieces)|] == Flat(git.diff.pieces)
    ensures git.diff.success ==> |WholePatch(git, untracked)| == |Flat(git.diff.pieces)| + |FilePatches(git, untracked)|
    ensures !git.diff.success ==> WholePatch(git, untracked) == FilePatches(git, untracked)
  {
    hide Flat, FilePatches;
  }

  /// The capture as it runs. A retained patch is never above the bound. When Git
  /// runs, a patch is retained exactly when there are changes in a Git workspace
  /// and the whole patch is not empty and fits, and then it is the whole patch.
  method CaptureGitDiff(git: Git, changes: seq<Change>, files: seq<string>) returns (r: Retained)
    ensures r.Patch? ==> 0 < |r.bytes| <= MAX_PATCH_BYTES && changes != [] && git.isWorkspace
    ensures changes != [] && git.isWorkspace && git.diff.Broken? ==> r == PatchError
    ensures changes == [] || !git.isWorkspace || git.diff.Missing? ==> r == NoPatch
    ensures var untracked := Untracked(git, ChangedPaths(changes, files));
            r.PatchError? ==> git.diff.Broken? || exists p :: p in untracked && git.fileDiff(p).Broken?
    ensures var untracked := Untracked(git, ChangedPaths(changes, files));
            git.diff.Writes? && AllWrite(git, untracked) ==>
              var whole := WholePatch(git, untracked);
              r == if changes != [] && git.isWorkspace && |Flat(git.diff.pieces)| <= MAX_PATCH_BYTES
                      && 0 < |whole| <= MAX_PATCH_BYTES
                   then Patch(whole) else NoPatch
  {
    if changes == [] || !git.isWorkspace {
      return NoPatch;
    }
    var tracked := BoundedGitOutput(git.diff, MAX_PATCH_BYTES);
    if !tracked.Output? {
      return if tracked.NotCaptured? then NoPatch else PatchError;
    }
    var base := if tracked.success then tracked.bytes else [];
    var patched := AddFilePatches(git, base, ChangedPaths(changes, files));
    hide ChangedPaths, Flat, Untracked, FilePatches, AllWrite;
    if !patched.Output? {
      return if patched.NotCaptured? then NoPatch else PatchError;
    }
    if patched.bytes == [] {
      return NoPatch;
    }
    r := Patch(patched.bytes);
  }

  /// The diffs of the files Git does not know, each cut off at what is left of the
  /// bound.
  method AddFilePatches(git: Git, base: seq<Byte>, paths: seq<string>) returns (r: Captured)
    requires |base| <= MAX_PATCH_BYTES
    ensures var whole := base + FilePatches(git, Untracked(git, paths));
            && (r.Output? ==> r.bytes == whole && |whole| <= MAX_PATCH_BYTES)
            && (!r.Output? && AllWrite(git, Untracked(git, paths)) ==> r.NotCaptured? && |whole| > MAX_PATCH_BYTES)
            && (r.CaptureError? ==> exists p :: p in Untracked(git, paths) && git.fileDiff(p).Broken?)
  {
    hide Flat, Untracked, FilePatches, AllWrite;
    var patch := base;
    ghost var done: seq<string> := [];
    NothingYet(git, paths);
    for n := 0 to |paths|
      invariant |patch| <= MAX_PATCH_BYTES
      invariant done == Untracked(git, paths[..n]) && patch == base + FilePatches(git, done)
    {
      var path := paths[n];
      OneMorePath(git, paths, n);
      if git.ignored(path) || git.tracked(path) {
        continue;
      }
      var more := BoundedGitOutput(git.fileDiff(path), MAX_PATCH_BYTES - |patch|);
      OneMorePatch(git, done, path);
      if !more.Output? {
        UntrackedGrows(git, paths, n + 1);
        PatchesGrow(git, done + [path], Untracked(git, paths));
        WritesWithin(git, done, path, Untracked(git, paths));
        return more;
      }
      assert patch + more.bytes == base + (FilePatches(git, done) + more.bytes);
      patch := patch + more.bytes;
      done := done + [path];
    }
    assert paths[..|paths|] == paths;
    r := Output(patch, true);
  }

  lemma WritesWithin(git: Git, done: seq<string>, path: string, untracked: seq<string>)
    requires done + [path] <= untracked
    ensures path in untracked && (AllWrite(git, untracked) ==> git.fileDiff(path).Writes?)
  {
    assert untracked[|done|] == path;
  }

  lemma NothingYet(git: Git, paths: seq<string>)
    ensures Untracked(git, paths[..0]) == [] && FilePatches(git, []) == []
  {
  }

  lemma OneMorePath(git: Git, paths: seq<string>, n: nat)
    requires n < |paths|
    ensures Untracked(git, paths[..n + 1])
         == Untracked(git, paths[..n]) + if git.ignored(paths[n]) || git.tracked(paths[n]) then [] else [paths[n]]
  {
    assert paths[..n + 1][..n] == paths[..n];
  }

  lemma OneMorePatch(git: Git, done: seq<string>, path: string)
    ensures FilePatches(git, done + [path]) == FilePatches(git, done) + FilePatch(git.fileDiff(path))
  {
    assert (done + [path])[..|done|] == done;
  }
}
