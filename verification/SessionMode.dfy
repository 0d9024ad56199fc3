/// The mode of an ACP session: unset or named, and frozen by the first prompt. The
/// host keeps sessions in memory and writes each change to a file, which may fail;
/// a restart leaves only the files.
module SessionMode {
  import opened Wrappers

  datatype Live = Live(mode: Option<string>, frozen: bool, runId: Option<string>)

  /// A session file. Files of older hosts carry no frozen flag.
  datatype Record = Record(mode: Option<string>, frozen: bool, runId: Option<string>)

  datatype Reply = Accepted | UnknownSession | BadMode | FrozenOther | NotPersisted

  /// One session as the host knows it, and the mode of every run of it so far.
  datatype State = State(live: Option<Live>, file: Option<Record>, driven: seq<Option<string>>)

  /// `known` is whether the catalog has the named mode, `saved` whether the file
  /// could be written, `driven` whether the accepted prompt got to start a run.
  datatype Step =
    | New(mode: Option<string>, known: bool, saved: bool)
    | Load
    | Prompt(mode: Option<string>, known: bool, saved: bool, drives: bool)
    | SetRunId(runId: Option<string>, saved: bool)
    | Restart

  predicate ReloadsFrozen(r: Record)
  {
    r.frozen || r.mode.Some? || r.runId.Some?
  }

  function Saved(s: State, live: Live, saved: bool): Option<Record>
  {
    if saved then Some(Record(live.mode, live.frozen, live.runId)) else s.file
  }

  function NextNew(s: State, mode: Option<string>, known: bool, saved: bool): (State, Reply)
  {
    if mode.Some? && !known then (s, BadMode)
    else
      var live := Live(mode, mode.Some?, None);
      if saved then (State(Some(live), Saved(s, live, true), []), Accepted) else (s, NotPersisted)
  }

  function NextLoad(s: State): (State, Reply)
  {
    if s.live.Some? then (s, Accepted)
    else if s.file.None? then (s, UnknownSession)
    else
      var r := s.file.value;
      (s.(live := Some(Live(r.mode, ReloadsFrozen(r), r.runId))), Accepted)
  }

  function NextPrompt(s: State, mode: Option<string>, known: bool, saved: bool, drives: bool): (State, Reply)
  {
    if s.live.None? then (s, UnknownSession)
    else
      var live := s.live.value;
      if live.frozen then
        if mode.Some? && live.mode != mode then (s, FrozenOther)
        else (s.(driven := if drives then s.driven + [live.mode] else s.driven), Accepted)
      else if mode.Some? && !known then (s, BadMode)
      else
        var now := live.(mode := if mode.Some? then mode else live.mode, frozen := true);
        var t := s.(live := Some(now), file := Saved(s, now, saved));
        if !saved then (t, NotPersisted)
        else (t.(driven := if drives then s.driven + [now.mode] else s.driven), Accepted)
  }

  function NextSetRunId(s: State, runId: Option<string>, saved: bool): (State, Reply)
  {
    if s.live.None? then (s, UnknownSession)
    else
      var now := s.live.value.(runId := runId);
      (s.(live := Some(now), file := Saved(s, now, saved)), if saved then Accepted else NotPersisted)
  }

  /// The step a host takes for one session.
  function Next(s: State, step: Step): State
    requires Enabled(s, step)
  {
    match step
    case New(mode, known, saved) => NextNew(s, mode, known, saved).0
    case Load => NextLoad(s).0
    case Prompt(mode, known, saved, drives) => NextPrompt(s, mode, known, saved, drives).0
    case SetRunId(runId, saved) => NextSetRunId(s, runId, saved).0
    case Restart => s.(live := None)
  }

  /// A session id is new only once, and the run id is set only from within an
  /// accepted prompt.
  predicate Enabled(s: State, step: Step)
  {
    && (step.New? ==> s == State(None, None, []))
    && (step.SetRunId? && s.live.Some? ==> s.live.value.frozen)
  }

  predicate CanRun(s: State, steps: seq<Step>)
    decreases |steps|
  {
    steps == [] || (Enabled(s, steps[0]) && CanRun(Next(s, steps[0]), steps[1..]))
  }

  function Run(s: State, steps: seq<Step>): State
    requires CanRun(s, steps)
    decreases |steps|
  {
    if steps == [] then s else Run(Next(s, steps[0]), steps[1..])
  }

  // ----- The host -----

  class Host {
    var sessions: map<string, Live>
    var files: map<string, Record>

    constructor (files: map<string, Record>)
      ensures this.files == files && sessions == map[]
    {
      this.files, sessions := files, map[];
    }

    function Of(id: string): State
      reads this
    {
      State(if id in sessions then Some(sessions[id]) else None, if id in files then Some(files[id]) else None, [])
    }

    twostate predicate OnlyChanged(id: string)
      reads this
    {
      forall other :: other != id ==> Of(other) == old(Of(other))
    }

    method Persist(id: string, live: Live, saved: bool)
      modifies this`files
      ensures files == if saved then old(files)[id := Record(live.mode, live.frozen, live.runId)] else old(files)
    {
      if saved {
        files := files[id := Record(live.mode, live.frozen, live.runId)];
      }
    }

    method SessionNew(id: string, mode: Option<string>, known: bool, saved: bool) returns (r: Reply)
      requires id !in sessions && id !in files
      modifies this
      ensures (Of(id), r) == NextNew(old(Of(id)), mode, known, saved) && OnlyChanged(id)
    {
      if mode.Some? && !known {
        return BadMode;
      }
      var live := Live(mode, mode.Some?, None);
      Persist(id, live, saved);
      if !saved {
        return NotPersisted;
      }
      sessions := sessions[id := live];
      r := Accepted;
    }

    method SessionLoad(id: string) returns (r: Reply)
      modifies this`sessions
      ensures (Of(id), r) == NextLoad(old(Of(id))) && OnlyChanged(id)
    {
      if id in sessions {
        return Accepted;
      }
      if id !in files {
        return UnknownSession;
      }
      var persisted := files[id];
      sessions := sessions[id := Live(persisted.mode, ReloadsFrozen(persisted), persisted.runId)];
      r := Accepted;
    }

    /// The part of a prompt under the session lock: `mode` is the one its run uses.
    method SessionPrompt(id: string, requested: Option<string>, known: bool, saved: bool)
      returns (r: Reply, mode: Option<string>)
      modifies this
      ensures (Of(id).(driven := if r == Accepted then [mode] else []), r)
          == NextPrompt(old(Of(id)), requested, known, saved, true)
      ensures OnlyChanged(id)
    {
      mode := None;
      if id !in sessions {
        return UnknownSession, None;
      }
      var live := sessions[id];
      if live.frozen {
        if requested.Some? && live.mode != requested {
          return FrozenOther, None;
        }
      } else {
        if requested.Some? {
          if !known {
            return BadMode, None;
          }
          live := live.(mode := requested);
        }
        live := live.(frozen := true);
        sessions := sessions[id := live];
        Persist(id, live, saved);
        if !saved {
          return NotPersisted, None;
        }
      }
      assert old(Of(id)).driven + [live.mode] == [live.mode];
      return Accepted, live.mode;
    }

    method SetRunId(id: string, runId: Option<string>, saved: bool) returns (r: Reply)
      modifies this
      ensures (Of(id), r) == NextSetRunId(old(Of(id)), runId, saved) && OnlyChanged(id)
    {
      if id !in sessions {
        return UnknownSession;
      }
      var live := sessions[id].(runId := runId);
      sessions := sessions[id := live];
      Persist(id, live, saved);
      r := if saved then Accepted else NotPersisted;
    }
  }

  // ----- Frozen means immutable -----

  /// The freeze is known in memory only: a restart now would lose it.
  predicate Exposed(s: State)
  {
    s.live.Some? && s.live.value.frozen && !(s.file.Some? && ReloadsFrozen(s.file.value))
  }

  /// All runs used one mode, memory and file agree with it once they are frozen,
  /// and after a run at least one of the two is.
  predicate Inv(s: State)
  {
    && (forall k | 0 <= k < |s.driven| :: s.driven[k] == s.driven[0])
    && (s.live.Some? && s.live.value.frozen && s.file.Some? && ReloadsFrozen(s.file.value) ==>
          s.live.value.mode == s.file.value.mode)
    && (s.live.Some? && s.live.value.frozen && s.driven != [] ==> s.live.value.mode == s.driven[0])
    && (s.file.Some? && ReloadsFrozen(s.file.value) && s.driven != [] ==> s.file.value.mode == s.driven[0])
    && (s.driven != [] ==> (s.live.Some? && s.live.value.frozen) || (s.file.Some? && ReloadsFrozen(s.file.value)))
    && (s.live.Some? && s.file.Some? && ReloadsFrozen(s.file.value) ==> s.live.value.frozen)
    && (s.live.Some? && !s.live.value.frozen ==> s.live.value.mode.None?)
    && (s.live.Some? ==> s.file.Some?)
  }

  /// No restart happens while a freeze is known in memory only.
  ghost predicate RestartsAreSafe(s: State, steps: seq<Step>)
    requires CanRun(s, steps)
    decreases |steps|
  {
    steps == [] || (!(steps[0].Restart? && Exposed(s)) && RestartsAreSafe(Next(s, steps[0]), steps[1..]))
  }

  lemma {:induction false} RunKeepsInv(s: State, steps: seq<Step>)
    requires Inv(s) && CanRun(s, steps) && RestartsAreSafe(s, steps)
    ensures Inv(Run(s, steps))
    decreases |steps|
  {
    if steps != [] {
      RunKeepsInv(Next(s, steps[0]), steps[1..]);
    }
  }

  /// A session that has no runs yet, as any file of this or an older host has it.
  function Unseen(file: Option<Record>): State
  {
    State(None, file, [])
  }

  /// Every run of a session uses the same mode, over every sequence of requests,
  /// failed writes and restarts, as long as no restart comes while the freeze was
  /// never written.
  lemma ModeIsImmutable(file: Option<Record>, steps: seq<Step>)
    requires CanRun(Unseen(file), steps) && RestartsAreSafe(Unseen(file), steps)
    ensures var s := Run(Unseen(file), steps);
            forall j, k | 0 <= j < |s.driven| && 0 <= k < |s.driven| :: s.driven[j] == s.driven[k]
  {
    RunKeepsInv(Unseen(file), steps);
  }

  /// The mode the session was made with is known wherever the session is known.
  predicate MadeWith(s: State, mode: string)
  {
    && s.file.Some? && s.file.value.mode == Some(mode)
    && (s.live.Some? ==> s.live.value.mode == Some(mode) && s.live.value.frozen)
    && forall k | 0 <= k < |s.driven| :: s.driven[k] == Some(mode)
  }

  lemma {:induction false} StaysMadeWith(s: State, steps: seq<Step>, mode: string)
    requires MadeWith(s, mode) && CanRun(s, steps)
    ensures MadeWith(Run(s, steps), mode)
    decreases |steps|
  {
    if steps != [] {
      StaysMadeWith(Next(s, steps[0]), steps[1..], mode);
    }
  }

  /// A session made with a mode of the catalog runs in that mode alone, whatever
  /// requests, failed writes and restarts come.
  lemma NamedModeIsUsed(mode: string, steps: seq<Step>)
    requires CanRun(NextNew(Unseen(None), Some(mode), true, true).0, steps)
    ensures var (made, r) := NextNew(Unseen(None), Some(mode), true, true);
            && r == Accepted
            && forall k | 0 <= k < |Run(made, steps).driven| :: Run(made, steps).driven[k] == Some(mode)
  {
    StaysMadeWith(NextNew(Unseen(None), Some(mode), true, true).0, steps, mode);
  }

  /// An accepted prompt freezes the session in its mode, when it had one frozen, and
  /// otherwise in the requested one or, without a request, in the mode it has; and
  /// that is the mode of its run.
  lemma AcceptedPromptRuns(s: State, mode: Option<string>, known: bool, saved: bool, drives: bool)
    requires NextPrompt(s, mode, known, saved, drives).1 == Accepted
    ensures var t := NextPrompt(s, mode, known, saved, drives).0;
            && s.live.Some? && t.live.Some? && t.live.value.frozen
            && t.live.value.mode == (if !s.live.value.frozen && mode.Some? then mode else s.live.value.mode)
            && (mode.Some? ==> t.live.value.mode == mode)
            && t.driven == (if drives then s.driven + [t.live.value.mode] else s.driven)
            && (!s.live.value.frozen ==>
                  t.file == Some(Record(t.live.value.mode, true, s.live.value.runId)) && (mode.Some? ==> known))
            && (s.live.value.frozen ==> t.live == s.live && t.file == s.file)
  {
  }

  /// The freeze can be exposed only by a first prompt whose write failed.
  lemma {:induction false} WrittenFreezeIsSafe(s: State, steps: seq<Step>)
    requires Inv(s) && !Exposed(s) && CanRun(s, steps)
    requires forall step | step in steps :: step.Prompt? ==> step.saved
    ensures RestartsAreSafe(s, steps)
    decreases |steps|
  {
    if steps != [] {
      assert steps[0] in steps;
      WrittenFreezeIsSafe(Next(s, steps[0]), steps[1..]);
    }
  }

  /// The condition is exact: wherever the freeze is exposed, a restart lets the next
  /// prompt choose any mode there is, whatever mode the session ran with before.
  lemma ExposedFreezeIsLost(s: State, other: string, saved: bool)
    requires Inv(s) && Exposed(s)
    ensures var after := Next(Next(Next(s, Restart), Load), Prompt(Some(other), true, true, true));
            after.driven == s.driven + [Some(other)] && after.live.value == Live(Some(other), true, None)
  {
  }

  /// And it does happen after a run: the first prompt's write fails and the prompt
  /// is refused, but the session is frozen in memory and the next prompt runs.
  lemma FreezeLost(mode: string, other: string)
    requires mode != other
    ensures var s0 := Unseen(None);
            var s1 := Next(s0, New(None, true, true));
            var s2 := Next(s1, Prompt(Some(mode), true, false, true));
            var s3 := Next(s2, Prompt(None, true, true, true));
            var s4 := Next(Next(s3, Restart), Load);
            var s5 := Next(s4, Prompt(Some(other), true, true, true));
            NextPrompt(s1, Some(mode), true, false, true).1 == NotPersisted && s5.driven == [Some(mode), Some(other)]
  {
  }

  /// A refused mode changes nothing: a first prompt that names an unknown mode
  /// leaves the session unfrozen, and a later one that names another mode leaves
  /// it as it is frozen.
  lemma RefusedModeChangesNothing(s: State, mode: Option<string>, known: bool, saved: bool, drives: bool)
    ensures var (t, r) := NextPrompt(s, mode, known, saved, drives);
            && (r == BadMode || r == FrozenOther || r == UnknownSession ==> t == s)
            && (r == BadMode <==> s.live.Some? && !s.live.value.frozen && mode.Some? && !known)
            && (r == FrozenOther <==> s.live.Some? && s.live.value.frozen && mode.Some? && mode != s.live.value.mode)
  {
  }

  /// A run id is kept in memory, and over a restart when it could be written; nothing
  /// else of the session changes.
  lemma RunIdIsKept(s: State, runId: Option<string>, saved: bool)
    requires s.live.Some?
    ensures var (t, r) := NextSetRunId(s, runId, saved);
            && (r == Accepted <==> saved) && t.driven == s.driven
            && t.live == Some(s.live.value.(runId := runId))
            && (!saved ==> t.file == s.file)
            && (saved ==>
                  var again := Next(Next(t, Restart), Load).live.value;
                  && again.runId == runId && again.mode == s.live.value.mode
                  && (s.live.value.frozen ==> again.frozen))
  {
  }

  /// Over a restart, a session reloads frozen exactly when its file has a mode, a
  /// run or the flag, and then with the mode of the file.
  lemma ReloadKeepsFreeze(s: State)
    requires s.file.Some?
    ensures var t := Next(Next(s, Restart), Load);
            && t.live.Some? && t.live.value.mode == s.file.value.mode && t.live.value.runId == s.file.value.runId
            && (t.live.value.frozen <==> s.file.value.mode.Some? || s.file.value.runId.Some? || s.file.value.frozen)
  {
  }
}
