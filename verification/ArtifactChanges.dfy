/// What a run changed in the workspace: the difference of two inventories.
module ArtifactChanges {
  import opened Wrappers
  import opened Text
  import opened Sorting

  /// A file's path and the digest of its content.
  type Digests = map<string, string>

  datatype Change = Added(path: string, after: string) | Deleted(path: string, before: string)
                  | Modified(path: string, before: string, after: string)

  // ----- Paths in order -----

  predicate StrictlySorted(paths: seq<string>)
  {
    forall i, j | 0 <= i < j < |paths| :: Less(paths[i], paths[j])
  }

  function Itself(path: string): string
  {
    path
  }

  function Sort(paths: seq<string>): seq<string>
  {
    SortBy(paths, Itself)
  }

  function Dedup(paths: seq<string>): seq<string>
  {
    if |paths| <= 1 then paths
    else if paths[0] == paths[1] then Dedup(paths[1..])
    else [paths[0]] + Dedup(paths[1..])
  }

  lemma {:induction false} DedupIsStrict(paths: seq<string>)
    requires SortedBy(paths, Itself)
    ensures StrictlySorted(Dedup(paths)) && forall x :: x in Dedup(paths) <==> x in paths
  {
    if |paths| > 1 {
      DedupIsStrict(paths[1..]);
      if paths[0] != paths[1] {
        forall x | x in paths[1..] ensures Less(paths[0], x) {
          FirstIsLess(paths, x);
        }
      }
    }
  }

  lemma FirstIsLess(paths: seq<string>, x: string)
    requires SortedBy(paths, Itself) && |paths| > 1 && paths[0] != paths[1] && x in paths[1..]
    ensures Less(paths[0], x)
  {
    LessIsTotal(paths[0], paths[1]);
    LessIsTotal(paths[1], x);
    assert Less(paths[0], paths[1]);
    if paths[1] != x {
      LessIsTransitive(paths[0], paths[1], x);
    }
  }

  // ----- Changes -----

  function ChangeOf(before: Digests, after: Digests, path: string): Option<Change>
  {
    if path !in before && path in after then Some(Added(path, after[path]))
    else if path in before && path !in after then Some(Deleted(path, before[path]))
    else if path in before && path in after && before[path] != after[path] then
      Some(Modified(path, before[path], after[path]))
    else None
  }

  function ChangesAt(before: Digests, after: Digests, paths: seq<string>): seq<Change>
  {
    if paths == [] then []
    else
      var change := ChangeOf(before, after, paths[0]);
      (if change.Some? then [change.value] else []) + ChangesAt(before, after, paths[1..])
  }

  /// `beforePaths` and `afterPaths` are the keys of the two maps in their order.
  function Changes(before: Digests, after: Digests, beforePaths: seq<string>, afterPaths: seq<string>): seq<Change>
  {
    ChangesAt(before, after, Dedup(Sort(beforePaths + afterPaths)))
  }

  ghost predicate ListsKeys(paths: seq<string>, m: Digests)
  {
    forall p :: p in paths <==> p in m
  }

  /// What applying a change does to the digests of a workspace.
  function Apply(m: Digests, change: Change): Digests
  {
    match change
    case Added(path, after) => m[path := after]
    case Deleted(path, _) => m - {path}
    case Modified(path, _, after) => m[path := after]
  }

  function ApplyAll(m: Digests, changes: seq<Change>): Digests
    decreases |changes|
  {
    if changes == [] then m else ApplyAll(Apply(m, changes[0]), changes[1..])
  }

  function Undo(change: Change): Change
  {
    match change
    case Added(path, after) => Deleted(path, after)
    case Deleted(path, before) => Added(path, before)
    case Modified(path, before, after) => Modified(path, after, before)
  }

  function UndoAll(changes: seq<Change>): seq<Change>
  {
    seq(|changes|, i requires 0 <= i < |changes| => Undo(changes[i]))
  }

  function PathsOf(changes: seq<Change>): seq<string>
  {
    if changes == [] then [] else [changes[0].path] + PathsOf(changes[1..])
  }

  /// Agreement of two maps on one path.
  predicate Agree(a: Digests, b: Digests, p: string)
  {
    (p in a <==> p in b) && (p in a && p in b ==> a[p] == b[p])
  }

  function ApplyAt(m: Digests, before: Digests, after: Digests, path: string): Digests
  {
    var change := ChangeOf(before, after, path);
    if change.Some? then Apply(m, change.value) else m
  }

  lemma OneChangeApplies(m: Digests, before: Digests, after: Digests, path: string)
    requires Agree(m, before, path)
    ensures Agree(ApplyAt(m, before, after, path), after, path)
    ensures forall p | p != path :: Agree(ApplyAt(m, before, after, path), m, p)
  {
    var next := ApplyAt(m, before, after, path);
    if path !in before && path in after {
      assert next == m[path := after[path]];
    } else if path in before && path !in after {
      assert next == m - {path};
    } else if path in before && before[path] != after[path] {
      assert next == m[path := after[path]];
    }
  }

  lemma {:induction false} ChangesApply(m: Digests, before: Digests, after: Digests, paths: seq<string>)
    requires forall p | p in paths :: Agree(m, before, p)
    requires StrictlySorted(paths)
    ensures var end := ApplyAll(m, ChangesAt(before, after, paths));
            && (forall p | p in paths :: Agree(end, after, p))
            && (forall p | p !in paths :: Agree(end, m, p))
    decreases |paths|
  {
    if paths != [] {
      var path, rest := paths[0], paths[1..];
      var next := ApplyAt(m, before, after, path);
      LessIsTotal(path, path);
      assert path !in rest;
      OneChangeApplies(m, before, after, path);
      hide ChangeOf, Apply, Less, Agree, StrictlySorted;
      forall p | p in rest ensures Agree(next, before, p) {
        AgreeTrans(next, m, before, p);
      }
      ChangesApply(next, before, after, rest);
      var change, tail := ChangeOf(before, after, path), ChangesAt(before, after, rest);
      var end := ApplyAll(next, tail);
      assert ApplyAll(m, ChangesAt(before, after, paths)) == end by {
        assert change.Some? ==> ([change.value] + tail)[1..] == tail;
        assert [] + tail == tail;
      }
      AgreeTrans(end, next, after, path);
      forall p | p !in paths ensures Agree(end, m, p) {
        AgreeTrans(end, next, m, p);
      }
    }
  }

  lemma AgreeTrans(a: Digests, b: Digests, c: Digests, p: string)
    ensures Agree(a, b, p) && Agree(b, c, p) ==> Agree(a, c, p)
  {
  }

  lemma AgreeEverywhere(a: Digests, b: Digests)
    requires forall p :: Agree(a, b, p)
    ensures a == b
  {
    forall p ensures p in a <==> p in b {
      assert Agree(a, b, p);
    }
    forall p | p in a ensures p in b && a[p] == b[p] {
      assert Agree(a, b, p);
    }
  }

  lemma {:induction false} ChangePaths(before: Digests, after: Digests, paths: seq<string>)
    ensures var changes := ChangesAt(before, after, paths);
            && (forall c | c in changes :: c.path in paths && ChangeOf(before, after, c.path) == Some(c))
            && (forall p | p in paths && ChangeOf(before, after, p).Some? ::
                 ChangeOf(before, after, p).value in changes)
  {
    if paths != [] {
      ChangePaths(before, after, paths[1..]);
      PathOf(before, after, paths[0]);
      hide ChangeOf;
      var change, tail := ChangeOf(before, after, paths[0]), ChangesAt(before, after, paths[1..]);
      var head := if change.Some? then [change.value] else [];
      assert ChangesAt(before, after, paths) == head + tail;
      assert forall c | c in head + tail :: c in head || c in tail;
      assert forall p | p in paths :: p == paths[0] || p in paths[1..];
    }
  }

  lemma {:induction false} ChangesSorted(before: Digests, after: Digests, paths: seq<string>)
    requires StrictlySorted(paths)
    ensures StrictlySorted(PathsOf(ChangesAt(before, after, paths)))
    ensures forall p | p in PathsOf(ChangesAt(before, after, paths)) :: p in paths
  {
    if paths != [] {
      RestIsStrict(paths);
      ChangesSorted(before, after, paths[1..]);
      PathOf(before, after, paths[0]);
      hide ChangeOf, Less, StrictlySorted;
      var change, tail := ChangeOf(before, after, paths[0]), ChangesAt(before, after, paths[1..]);
      if change.Some? {
        PrependStrict(paths[0], PathsOf(tail));
        assert ([change.value] + tail)[1..] == tail;
      } else {
        assert [] + tail == tail;
      }
    }
  }

  lemma RestIsStrict(paths: seq<string>)
    requires paths != [] && StrictlySorted(paths)
    ensures StrictlySorted(paths[1..]) && forall p | p in paths[1..] :: Less(paths[0], p)
  {
    hide Less;
  }

  lemma PrependStrict(p: string, rest: seq<string>)
    requires StrictlySorted(rest) && forall x | x in rest :: Less(p, x)
    ensures StrictlySorted([p] + rest)
  {
    hide Less;
  }

  lemma PathOf(before: Digests, after: Digests, path: string)
    ensures ChangeOf(before, after, path).Some? ==> ChangeOf(before, after, path).value.path == path
  {
  }

  /// The changes, applied to what was there before, give what is there after; their
  /// paths are strictly sorted; each tells both digests right; and there are none
  /// exactly when nothing changed.
  lemma ChangesAreFaithful(before: Digests, after: Digests, beforePaths: seq<string>, afterPaths: seq<string>)
    requires ListsKeys(beforePaths, before) && ListsKeys(afterPaths, after)
    ensures var changes := Changes(before, after, beforePaths, afterPaths);
            && ApplyAll(before, changes) == after
            && StrictlySorted(PathsOf(changes))
            && (forall c | c in changes :: ChangeOf(before, after, c.path) == Some(c))
            && (changes == [] <==> before == after)
  {
    var paths := Dedup(Sort(beforePaths + afterPaths));
    SortSorts(beforePaths + afterPaths, Itself);
    SortedElements(beforePaths + afterPaths, Itself);
    DedupIsStrict(Sort(beforePaths + afterPaths));
    var changes := ChangesAt(before, after, paths);
    ChangesApply(before, before, after, paths);
    ChangePaths(before, after, paths);
    ChangesSorted(before, after, paths);
    assert forall p :: p in paths <==> p in before || p in after;
    AgreeEverywhere(ApplyAll(before, changes), after);
    if changes != [] {
      assert changes[0] in changes;
    }
  }

  lemma {:induction false} UndoneAt(before: Digests, after: Digests, paths: seq<string>)
    ensures ChangesAt(after, before, paths) == UndoAll(ChangesAt(before, after, paths))
  {
    if paths != [] {
      UndoneAt(before, after, paths[1..]);
      UndoneChange(before, after, paths[0]);
      hide ChangeOf, Undo;
    }
  }

  lemma UndoneChange(before: Digests, after: Digests, path: string)
    ensures var change := ChangeOf(before, after, path);
            ChangeOf(after, before, path) == if change.Some? then Some(Undo(change.value)) else None
  {
  }

  /// Undoing every change gives the earlier state back.
  lemma ChangesUndo(before: Digests, after: Digests, beforePaths: seq<string>, afterPaths: seq<string>)
    requires ListsKeys(beforePaths, before) && ListsKeys(afterPaths, after)
    ensures ApplyAll(after, UndoAll(Changes(before, after, beforePaths, afterPaths))) == before
  {
    var paths := Dedup(Sort(beforePaths + afterPaths));
    SortSorts(beforePaths + afterPaths, Itself);
    SortedElements(beforePaths + afterPaths, Itself);
    DedupIsStrict(Sort(beforePaths + afterPaths));
    UndoneAt(before, after, paths);
    ChangesApply(after, after, before, paths);
    assert forall p :: p in paths <==> p in before || p in after;
    AgreeEverywhere(ApplyAll(after, ChangesAt(after, before, paths)), before);
  }
}
