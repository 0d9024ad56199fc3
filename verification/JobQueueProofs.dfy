/// Whole runs of the job queue: where every job is, what is never overwritten, how
/// deep the queue gets, and how often a job can be claimed.
module JobQueueProofs {
  import opened Wrappers
  import opened Text
  import opened QueueNames
  import opened JobQueue

  datatype Step =
    | Submit(job: QueueJob, capacity: nat, origin: nat, uuid: string, jobUuid: string)
    | Drop(name: string, contents: Contents, origin: nat)
    | Claim(name: string, uuid: string)
    | Settle(place: Place, outcome: RunOutcome, uuid: string)

  predicate NewOrigin(files: Files, origin: nat)
  {
    forall p | p in files && files[p].JobFile? :: files[p].origin != origin
  }

  predicate Enabled(files: Files, step: Step)
  {
    match step
    case Submit(_, _, origin, uuid, _) => NewOrigin(files, origin) && Fresh(files, uuid)
    case Drop(name, _, origin) => NewOrigin(files, origin) && Place(Inbox, name) !in files
    case Claim(name, uuid) => IsNext(files, name) && Fresh(files, uuid)
    case Settle(p, _, uuid) =>
      p in files && p.dir == Processing && files[p].JobFile? && files[p].contents != NotText && Fresh(files, uuid)
  }

  function Next(files: Files, retryLimit: nat, step: Step): Files
    requires Enabled(files, step)
  {
    match step
    case Submit(job, capacity, origin, uuid, jobUuid) => Admit(files, job, capacity, origin, uuid, jobUuid).0
    case Drop(name, contents, origin) => files[Place(Inbox, name) := JobFile(origin, contents)]
    case Claim(name, uuid) => Rename(files, Place(Inbox, name), ClaimedPlace(name, uuid))
    case Settle(p, outcome, uuid) => Finish(files, p, outcome, retryLimit, uuid)
  }

  // ----- One job file moves, others stay -----

  /// Where the job file at p is after the step.
  function Where(files: Files, retryLimit: nat, step: Step, p: Place): Place
    requires Enabled(files, step)
  {
    match step
    case Claim(name, uuid) => if p == Place(Inbox, name) then ClaimedPlace(name, uuid) else p
    case Settle(from, outcome, uuid) => if p == from then Target(files, p, outcome, retryLimit, uuid) else p
    case _ => p
  }

  function Retried(contents: Contents, outcome: RunOutcome, retryLimit: nat): bool
  {
    contents.Parsed? && outcome.RunFailed? && contents.job.attempt < retryLimit
  }

  function Target(files: Files, p: Place, outcome: RunOutcome, retryLimit: nat, uuid: string): Place
    requires p in files && files[p].JobFile? && files[p].contents != NotText
  {
    var contents := files[p].contents;
    if Retried(contents, outcome, retryLimit) then RetryPlace(contents.job, uuid)
    else if contents.Parsed? && outcome.Ran? then
      var result := Result(files, p, contents.job, outcome, uuid);
      ArchivePlace(files + result, p, ArchiveDir(contents, outcome), uuid)
    else ArchivePlace(files, p, FailedDir, uuid)
  }

  function ArchiveDir(contents: Contents, outcome: RunOutcome): Dir
  {
    if contents.Parsed? && outcome == Ran(true, false) then Done else FailedDir
  }

  function Result(files: Files, p: Place, job: QueueJob, outcome: RunOutcome, uuid: string): Files
    requires outcome.Ran?
  {
    map[ResultPlace(files, p, ResultDir(outcome.success, outcome.parked), uuid)
        := ResultFile(job.jobId, job.attempt, outcome.success, outcome.parked)]
  }

  /// The file a settled job leaves beside it: its result, or an error note.
  function Notes(files: Files, p: Place, outcome: RunOutcome, retryLimit: nat, uuid: string): Files
    requires p in files && files[p].JobFile? && files[p].contents != NotText
  {
    var contents := files[p].contents;
    if Retried(contents, outcome, retryLimit) then map[]
    else if contents.Parsed? && outcome.Ran? then Result(files, p, contents.job, outcome, uuid)
    else map[ErrorPlace(ArchivePlace(files, p, FailedDir, uuid)) := ErrorFile]
  }

  function MovedContents(contents: Contents, outcome: RunOutcome, retryLimit: nat): Contents
  {
    if Retried(contents, outcome, retryLimit) then Parsed(contents.job.(attempt := contents.job.attempt + 1))
    else contents
  }

  /// The shape of every claim and every settlement: one job file goes to a place
  /// nothing was at, and files that were not there before appear beside it.
  ghost predicate Moved(before: Files, after: Files, from: Place, to: Place, contents: Contents, notes: Files)
  {
    && from in before && before[from].JobFile? && to !in before && to !in notes
    && (forall n | n in notes :: n !in before && (n.dir == Done || n.dir == FailedDir) && !notes[n].JobFile?)
    && after == (before - {from})[to := JobFile(before[from].origin, contents)] + notes
  }

  lemma ClaimMoves(files: Files, name: string, uuid: string)
    requires Enabled(files, Claim(name, uuid)) && WellPlaced(files)
    ensures var from, to := Place(Inbox, name), ClaimedPlace(name, uuid);
            && Moved(files, Rename(files, from, to), from, to, files[from].contents, map[])
            && IsJobName(to.name) && IsJobName(OriginalName(to.name))
  {
    OriginalNameRestored(name, uuid);
    hide IsJobName, OriginalName, Before, Contains, ProcessingName, IsUuid;
    FreshNames(files, uuid, name, 0);
    var from, to := Place(Inbox, name), ClaimedPlace(name, uuid);
    assert files[from].JobFile?;
    assert Rename(files, from, to) == (files - {from})[to := files[from]] + map[];
  }

  lemma ArchiveTargets(files: Files, p: Place, dir: Dir, uuid: string, result: File)
    requires Fresh(files, uuid) && IsJobName(OriginalName(p.name))
    ensures var a := ArchivePlace(files, p, dir, uuid); a !in files && IsJobName(a.name) && a.dir == dir
    ensures var r := ResultPlace(files, p, dir, uuid);
            var a := ArchivePlace(files[r := result], p, dir, uuid);
            && r !in files && IsJobName(r.name) && r.dir == dir
            && a !in files && IsJobName(a.name) && a.dir == dir && a != r
  {
    hide IsJobName, OriginalName, Stem, Fresh;
    FreshNames(files, uuid, OriginalName(p.name), 0);
    ArchiveNames(OriginalName(p.name), uuid);
  }

  lemma RetryMoves(files: Files, p: Place, job: QueueJob, contents: Contents, uuid: string)
    requires p in files && files[p].JobFile? && Fresh(files, uuid)
    ensures var to := RetryPlace(job, uuid);
            Moved(files, files[to := JobFile(files[p].origin, contents)] - {p}, p, to, contents, map[])
  {
    hide Fresh, InboxFilename;
    FreshNames(files, uuid, "", job.priority);
    var to := RetryPlace(job, uuid);
    assert files[to := JobFile(files[p].origin, contents)] - {p}
        == (files - {p})[to := JobFile(files[p].origin, contents)] + map[];
  }

  lemma FailureMoves(files: Files, p: Place, uuid: string)
    requires p in files && files[p].JobFile? && Fresh(files, uuid) && WellPlaced(files) && p.dir == Processing
    ensures var to := ArchivePlace(files, p, FailedDir, uuid);
            && Moved(files, ArchiveFailed(files, p, uuid), p, to, files[p].contents, map[ErrorPlace(to) := ErrorFile])
            && IsJobName(to.name)
  {
    hide IsJobName, OriginalName, Stem, Fresh, ArchivePlace, WithExtension, IsErrorNote, NotedName;
    ArchiveTargets(files, p, FailedDir, uuid, ErrorFile);
    var to := ArchivePlace(files, p, FailedDir, uuid);
    NoteNamesItsJob(to.name);
    var note := ErrorPlace(to);
    assert note !in files;
    assert ArchiveFailed(files, p, uuid) == (files - {p})[to := files[p]] + map[note := ErrorFile];
  }

  lemma ResultMoves(files: Files, p: Place, dir: Dir, uuid: string, result: File)
    requires p in files && files[p].JobFile? && Fresh(files, uuid) && WellPlaced(files) && p.dir == Processing
    requires (dir == Done || dir == FailedDir) && !result.JobFile?
    ensures var r := ResultPlace(files, p, dir, uuid);
            var reported := files[r := result];
            var to := ArchivePlace(reported, p, dir, uuid);
            && p in reported
            && Moved(files, Rename(reported, p, to), p, to, files[p].contents, map[r := result])
            && IsJobName(to.name) && IsJobName(r.name) && to.dir == r.dir == dir
  {
    hide IsJobName, OriginalName, Stem, Fresh, ArchivePlace, ResultPlace, IsErrorNote, NotedName;
    ArchiveTargets(files, p, dir, uuid, result);
    var r := ResultPlace(files, p, dir, uuid);
    var reported := files[r := result];
    var to := ArchivePlace(reported, p, dir, uuid);
    assert Rename(reported, p, to) == (files - {p})[to := files[p]] + map[r := result];
  }

  lemma SettleMoves(files: Files, p: Place, outcome: RunOutcome, retryLimit: nat, uuid: string)
    requires Enabled(files, Settle(p, outcome, uuid)) && WellPlaced(files)
    ensures var c, to := files[p].contents, Target(files, p, outcome, retryLimit, uuid);
            && Moved(files, Finish(files, p, outcome, retryLimit, uuid), p, to, MovedContents(c, outcome, retryLimit),
                     Notes(files, p, outcome, retryLimit, uuid))
            && if Retried(c, outcome, retryLimit) then to.dir == Inbox
               else IsJobName(to.name) && to.dir == ArchiveDir(c, outcome)
    ensures forall n | n in Notes(files, p, outcome, retryLimit, uuid) ::
              IsJobName(n.name) || n == ErrorPlace(Target(files, p, outcome, retryLimit, uuid))
  {
    hide IsJobName, OriginalName, Stem, Fresh, ArchivePlace, ResultPlace, ErrorPlace, WellPlaced, Moved, RetryPlace;
    var c := files[p].contents;
    if Retried(c, outcome, retryLimit) {
      RetryMoves(files, p, c.job, MovedContents(c, outcome, retryLimit), uuid);
    } else if c.Parsed? && outcome.Ran? {
      var dir := ResultDir(outcome.success, outcome.parked);
      var result := ResultFile(c.job.jobId, c.job.attempt, outcome.success, outcome.parked);
      ResultMoves(files, p, dir, uuid, result);
      var r := ResultPlace(files, p, dir, uuid);
      assert files + map[r := result] == files[r := result];
    } else {
      FailureMoves(files, p, uuid);
    }
  }

  // ----- What every step keeps -----

  ghost predicate Good(files: Files)
  {
    WellPlaced(files) && DistinctOrigins(files)
  }

  function Origins(files: Files): set<nat>
  {
    set p | p in files && files[p].JobFile? :: files[p].origin
  }

  /// The job that enters the queue in this step, if one does.
  function Entering(files: Files, step: Step): set<nat>
  {
    match step
    case Submit(job, capacity, origin, uuid, jobUuid) =>
      if Admit(files, job, capacity, origin, uuid, jobUuid).1.Accepted? then {origin} else {}
    case Drop(_, _, origin) => {origin}
    case _ => {}
  }

  predicate SameJob(a: Contents, b: Contents)
  {
    a == b || (a.Parsed? && b.Parsed? && a.job.(attempt := b.job.attempt) == b.job)
  }

  /// What a moved job file means for the whole queue.
  lemma MovedConserves(before: Files, after: Files, from: Place, to: Place, contents: Contents, notes: Files)
    requires Moved(before, after, from, to, contents, notes)
    ensures Origins(after) == Origins(before)
    ensures DistinctOrigins(before) ==> DistinctOrigins(after)
    ensures forall p | p in before && p != from :: p in after && after[p] == before[p]
    ensures to in after && after[to] == JobFile(before[from].origin, contents)
    ensures after.Keys == before.Keys - {from} + {to} + notes.Keys
    ensures forall n | n in notes :: after[n] == notes[n]
  {
    assert forall p | p in before && p != from :: p in after && after[p] == before[p];
    assert forall p | p in after && after[p].JobFile? :: p == to || (p in before && p != from);
    forall o | o in Origins(before) ensures o in Origins(after) {
      var p :| p in before && before[p].JobFile? && before[p].origin == o;
      assert p == from || p in after;
    }
  }

  /// The job file that a claim or a settlement moves.
  function Mover(step: Step): Place
    requires step.Claim? || step.Settle?
  {
    if step.Claim? then Place(Inbox, step.name) else step.place
  }

  function NewContents(files: Files, retryLimit: nat, step: Step): Contents
    requires Enabled(files, step)
    requires step.Claim? || (step.Settle? && Mover(step) in files && files[Mover(step)].JobFile?)
    requires step.Claim? ==> Mover(step) in files && files[Mover(step)].JobFile?
  {
    var contents := files[Mover(step)].contents;
    if step.Claim? then contents else MovedContents(contents, step.outcome, retryLimit)
  }

  function NewNotes(files: Files, retryLimit: nat, step: Step): Files
    requires Enabled(files, step) && (step.Claim? || step.Settle?)
  {
    if step.Claim? then map[] else Notes(files, step.place, step.outcome, retryLimit, step.uuid)
  }

  lemma StepMoves(files: Files, retryLimit: nat, step: Step)
    requires Enabled(files, step) && Good(files) && (step.Claim? || step.Settle?)
    ensures var from := Mover(step);
            && from in files && files[from].JobFile?
            && Moved(files, Next(files, retryLimit, step), from, Where(files, retryLimit, step, from),
                     NewContents(files, retryLimit, step), NewNotes(files, retryLimit, step))
  {
    hide Moved, Rename, Finish, Target, ClaimedPlace, Notes, MovedContents, Before, Fresh, DistinctOrigins;
    match step {
      case Claim(name, uuid) =>
        assert files[Place(Inbox, name)].JobFile?;
        ClaimMoves(files, name, uuid);
      case Settle(p, outcome, uuid) => SettleMoves(files, p, outcome, retryLimit, uuid);
    }
  }

  /// Every step keeps every job, each in one place, and brings in only the job it
  /// submits; a job changes only in its attempt count.
  lemma StepConserves(files: Files, retryLimit: nat, step: Step)
    requires Enabled(files, step) && Good(files)
    ensures var after := Next(files, retryLimit, step);
            && Origins(after) == Origins(files) + Entering(files, step)
            && DistinctOrigins(after)
            && forall p | p in files && files[p].JobFile? ::
                 var q := Where(files, retryLimit, step, p);
                 q in after && after[q].JobFile? && after[q].origin == files[p].origin
                 && SameJob(files[p].contents, after[q].contents)
  {
    var after := Next(files, retryLimit, step);
    if step.Claim? || step.Settle? {
      hide Next, Where, Moved, Enabled, WellPlaced;
      StepMoves(files, retryLimit, step);
      MovedConserves(files, after, Mover(step), Where(files, retryLimit, step, Mover(step)),
                     NewContents(files, retryLimit, step), NewNotes(files, retryLimit, step));
      OthersStay(files, retryLimit, step);
    } else {
      EntersAlone(files, retryLimit, step);
    }
  }

  lemma OthersStay(files: Files, retryLimit: nat, step: Step)
    requires Enabled(files, step) && (step.Claim? || step.Settle?)
    ensures forall p | p != Mover(step) :: Where(files, retryLimit, step, p) == p
  {
  }

  lemma EntersAlone(files: Files, retryLimit: nat, step: Step)
    requires Enabled(files, step) && Good(files) && !step.Claim? && !step.Settle?
    ensures var after := Next(files, retryLimit, step);
            && Origins(after) == Origins(files) + Entering(files, step) && DistinctOrigins(after)
            && forall p | p in files :: p in after && after[p] == files[p]
  {
    hide InboxFilename, IsUuid, Contains, IsBlank, Depth, IsJobName;
    var after := Next(files, retryLimit, step);
    if step.Submit? {
      FreshNames(files, step.uuid, "", step.job.priority);
    }
    assert forall p | p in files :: p in after && after[p] == files[p];
    forall o | o in Origins(files) ensures o in Origins(after) {
      var p :| p in files && files[p].JobFile? && files[p].origin == o;
      assert p in after;
    }
    if Entering(files, step) != {} {
      var at := Place(Inbox, if step.Drop? then step.name else InboxFilename(step.job.priority, step.uuid));
      assert at in after && after[at].JobFile? && after[at].origin == step.origin;
    }
  }

  // ----- Nothing archived is overwritten -----

  predicate Archived(p: Place)
  {
    p.dir == Done || p.dir == FailedDir
  }

  /// The names a moved job and the files beside it get.
  ghost predicate WellNamed(to: Place, notes: Files)
  {
    && (to.dir != Inbox ==> IsJobName(to.name))
    && (to.dir == Processing ==> IsJobName(OriginalName(to.name)))
    && forall n | n in notes ::
         IsJobName(n.name) || (IsErrorNote(n.name) && Place(n.dir, NotedName(n.name)) == to)
  }

  lemma MovedWellPlaced(before: Files, after: Files, from: Place, to: Place, contents: Contents, notes: Files)
    requires Moved(before, after, from, to, contents, notes) && WellNamed(to, notes)
    requires WellPlaced(before) && !Archived(from)
    ensures WellPlaced(after)
  {
    hide IsJobName, OriginalName, NotedName;
    assert to in after && forall p | p in before && p != from :: p in after && after[p] == before[p];
    forall p | p in after && Archived(p) && !IsJobName(p.name)
      ensures IsErrorNote(p.name) && Place(p.dir, NotedName(p.name)) in after
    {
      assert p in notes || (p in before && p != from);
    }
    forall p | p in after && !Archived(p)
      ensures after[p].JobFile? && (p == to || (p in before && before[p] == after[p]))
    {
      assert p !in notes;
    }
  }

  lemma StepNames(files: Files, retryLimit: nat, step: Step)
    requires Enabled(files, step) && Good(files) && (step.Claim? || step.Settle?)
    ensures WellNamed(Where(files, retryLimit, step, Mover(step)), NewNotes(files, retryLimit, step))
  {
    match step {
      case Claim(name, uuid) => ClaimMoves(files, name, uuid);
      case Settle(p, outcome, uuid) =>
        SettleMoves(files, p, outcome, retryLimit, uuid);
        hide IsJobName, OriginalName, IsErrorNote, NotedName, Notes, Moved, Target, WellPlaced, WithExtension;
        var to := Target(files, p, outcome, retryLimit, uuid);
        if to.dir != Inbox {
          NoteNamesItsJob(to.name);
        } else {
          assert Notes(files, p, outcome, retryLimit, uuid) == map[]
              by { NoNotes(files, p, outcome, retryLimit, uuid); }
        }
    }
  }

  lemma NoNotes(files: Files, p: Place, outcome: RunOutcome, retryLimit: nat, uuid: string)
    requires p in files && files[p].JobFile? && files[p].contents != NotText
    requires Target(files, p, outcome, retryLimit, uuid).dir == Inbox
    ensures Notes(files, p, outcome, retryLimit, uuid) == map[]
  {
  }

  /// A step keeps the directories in order and every archived job, result and
  /// error note as it was.
  lemma StepKeepsArchives(files: Files, retryLimit: nat, step: Step)
    requires Enabled(files, step) && Good(files)
    ensures var after := Next(files, retryLimit, step);
            && WellPlaced(after)
            && forall p | p in files && Archived(p) ::
                 p in after && after[p] == files[p] && Where(files, retryLimit, step, p) == p
  {
    var after := Next(files, retryLimit, step);
    if step.Claim? || step.Settle? {
      assert !Archived(Mover(step));
      StepMoves(files, retryLimit, step);
      StepNames(files, retryLimit, step);
      OthersStay(files, retryLimit, step);
      hide Next, Where, Moved, Enabled, NewNotes, NewContents, Mover, Notes, WellPlaced;
      var from := Mover(step);
      var to, notes := Where(files, retryLimit, step, from), NewNotes(files, retryLimit, step);
      MovedConserves(files, after, from, to, NewContents(files, retryLimit, step), notes);
      MovedWellPlaced(files, after, from, to, NewContents(files, retryLimit, step), notes);
    } else {
      EntersAlone(files, retryLimit, step);
      hide InboxFilename, IsUuid, Contains, IsBlank, Depth, IsJobName, IsErrorNote, NotedName, OriginalName;
    }
  }

  // ----- Depth -----

  lemma MovedDepth(before: Files, after: Files, from: Place, to: Place, contents: Contents, notes: Files)
    requires Moved(before, after, from, to, contents, notes) && InQueue(from)
    ensures Depth(after) <= Depth(before)
  {
    hide IsJobName;
    forall p | p in Counted(after) ensures p in Counted(before) - {from} + {to} {
      assert p !in notes;
      assert p == to || (p in before && p != from);
    }
    assert from in Counted(before);
    SubsetIsSmaller(Counted(after), Counted(before) - {from} + {to});
  }

  lemma SubmitDepth(files: Files, at: Place, file: File)
    ensures Depth(files[at := file]) <= Depth(files) + 1
  {
    assert Counted(files[at := file]) <= Counted(files) + {at};
    SubsetIsSmaller(Counted(files[at := file]), Counted(files) + {at});
  }

  /// Only submissions and files dropped from outside make the queue deeper, and a
  /// submission only up to its capacity.
  lemma StepKeepsDepth(files: Files, retryLimit: nat, step: Step)
    requires Enabled(files, step) && Good(files) && !step.Drop?
    ensures var after := Next(files, retryLimit, step);
            Depth(after)
            <= if step.Submit? && Depth(files) < Bound(step.capacity) then Bound(step.capacity) else Depth(files)
  {
    if step.Submit? {
      hide InboxFilename, Fresh, IsBlank, Depth, WellPlaced, NewOrigin, DistinctOrigins;
      SubmitDepth(files, RetryPlace(step.job, step.uuid),
        JobFile(step.origin, Parsed(Admitted(step.job, step.jobUuid))));
    } else {
      StepMoves(files, retryLimit, step);
      MoverIsCounted(files, step);
      hide *;
      MovedDepth(files, Next(files, retryLimit, step), Mover(step), Where(files, retryLimit, step, Mover(step)),
                 NewContents(files, retryLimit, step), NewNotes(files, retryLimit, step));
    }
  }

  lemma MoverIsCounted(files: Files, step: Step)
    requires Enabled(files, step) && Good(files) && (step.Claim? || step.Settle?)
    ensures InQueue(Mover(step))
  {
    hide IsJobName, OriginalName, Before, IsErrorNote, NotedName;
  }

  // ----- How often a job is claimed -----

  function Retries(contents: Contents, retryLimit: nat): nat
  {
    if contents.Parsed? && contents.job.attempt < retryLimit then retryLimit - contents.job.attempt else 0
  }

  /// How many more times the job file at p can be claimed.
  function Budget(files: Files, retryLimit: nat, p: Place): nat
    requires p in files && files[p].JobFile?
  {
    match p.dir
    case Inbox => Retries(files[p].contents, retryLimit) + 1
    case Processing => Retries(files[p].contents, retryLimit)
    case _ => 0
  }

  function Claims(step: Step, p: Place): nat
  {
    if step.Claim? && p == Place(Inbox, step.name) then 1 else 0
  }

  lemma StepSpendsBudget(files: Files, retryLimit: nat, step: Step, p: Place)
    requires Enabled(files, step) && Good(files) && p in files && files[p].JobFile?
    ensures var after, q := Next(files, retryLimit, step), Where(files, retryLimit, step, p);
            && q in after && after[q].JobFile?
            && Budget(files, retryLimit, p) >= Budget(after, retryLimit, q) + Claims(step, p)
  {
    StepConserves(files, retryLimit, step);
    if step.Claim? || step.Settle? {
      StepMoves(files, retryLimit, step);
      OthersStay(files, retryLimit, step);
      StepDirs(files, retryLimit, step);
      hide Next, Where, Enabled, NewNotes, WellPlaced, IsJobName, Good, SameJob;
      var after, from := Next(files, retryLimit, step), Mover(step);
      MovedConserves(files, after, from, Where(files, retryLimit, step, from),
                     NewContents(files, retryLimit, step), NewNotes(files, retryLimit, step));
    } else {
      EntersAlone(files, retryLimit, step);
    }
  }

  /// Which directory the moved job file goes to.
  lemma StepDirs(files: Files, retryLimit: nat, step: Step)
    requires Enabled(files, step) && Good(files) && (step.Claim? || step.Settle?)
    ensures var from := Mover(step);
            && from in files && files[from].JobFile?
            && from.dir == (if step.Claim? then Inbox else Processing)
            && Where(files, retryLimit, step, from).dir
               == if step.Claim? then Processing
                  else if Retried(files[from].contents, step.outcome, retryLimit) then Inbox
                  else ArchiveDir(files[from].contents, step.outcome)
  {
    StepMoves(files, retryLimit, step);
    if step.Settle? {
      SettleMoves(files, step.place, step.outcome, retryLimit, step.uuid);
    }
    hide Moved, Notes, IsJobName, Target;
  }

  // ----- Whole runs -----

  ghost predicate CanRun(files: Files, retryLimit: nat, steps: seq<Step>)
    decreases |steps|
  {
    steps == [] || (Enabled(files, steps[0]) && CanRun(Next(files, retryLimit, steps[0]), retryLimit, steps[1..]))
  }

  function After(files: Files, retryLimit: nat, steps: seq<Step>): Files
    requires CanRun(files, retryLimit, steps)
    decreases |steps|
  {
    if steps == [] then files else After(Next(files, retryLimit, steps[0]), retryLimit, steps[1..])
  }

  /// Where the job file at p is after the run.
  function Follow(files: Files, retryLimit: nat, steps: seq<Step>, p: Place): Place
    requires CanRun(files, retryLimit, steps)
    decreases |steps|
  {
    if steps == [] then p
    else Follow(Next(files, retryLimit, steps[0]), retryLimit, steps[1..], Where(files, retryLimit, steps[0], p))
  }

  function TimesClaimed(files: Files, retryLimit: nat, steps: seq<Step>, p: Place): nat
    requires CanRun(files, retryLimit, steps)
    decreases |steps|
  {
    if steps == [] then 0
    else Claims(steps[0], p)
         + TimesClaimed(Next(files, retryLimit, steps[0]), retryLimit, steps[1..],
           Where(files, retryLimit, steps[0], p))
  }

  /// In the run, the job at p is settled by a run that succeeded and is not parked.
  ghost predicate Succeeds(files: Files, retryLimit: nat, steps: seq<Step>, p: Place)
    requires CanRun(files, retryLimit, steps)
    decreases |steps|
  {
    steps != []
    && ((steps[0].Settle? && steps[0].place == p && files[p].contents.Parsed? && steps[0].outcome == Ran(true, false))
        || Succeeds(Next(files, retryLimit, steps[0]), retryLimit, steps[1..], Where(files, retryLimit, steps[0], p)))
  }

  /// The directories stay in order over every run, and no archived job, result or
  /// error note is ever overwritten.
  lemma {:induction false} ArchivesAreForever(files: Files, retryLimit: nat, steps: seq<Step>)
    requires Good(files) && CanRun(files, retryLimit, steps)
    ensures Good(After(files, retryLimit, steps))
    ensures forall p | p in files && Archived(p) ::
              p in After(files, retryLimit, steps) && After(files, retryLimit, steps)[p] == files[p]
    decreases |steps|
  {
    if steps != [] {
      StepKeepsArchives(files, retryLimit, steps[0]);
      StepConserves(files, retryLimit, steps[0]);
      hide Next, Enabled, Where, WellPlaced, DistinctOrigins;
      ArchivesAreForever(Next(files, retryLimit, steps[0]), retryLimit, steps[1..]);
    }
  }

  /// The story of one job over every run: it is never lost and never doubled, it
  /// is claimed no more often than its attempts allow, and it lands in done
  /// exactly when a run of it succeeded and did not park.
  lemma {:induction false} JobStory(files: Files, retryLimit: nat, steps: seq<Step>, p: Place)
    requires Good(files) && CanRun(files, retryLimit, steps) && p in files && files[p].JobFile?
    ensures var end, q := After(files, retryLimit, steps), Follow(files, retryLimit, steps, p);
            && Good(end) && q in end && end[q].JobFile?
            && end[q].origin == files[p].origin && SameJob(files[p].contents, end[q].contents)
            && TimesClaimed(files, retryLimit, steps, p) + Budget(end, retryLimit, q) <= Budget(files, retryLimit, p)
            && (!Archived(p) ==> (q.dir == Done <==> Succeeds(files, retryLimit, steps, p)))
            && (Archived(p) ==> q == p && !Succeeds(files, retryLimit, steps, p))
    decreases |steps|
  {
    if steps != [] {
      var step := steps[0];
      var after, q := Next(files, retryLimit, step), Where(files, retryLimit, step, p);
      StepConserves(files, retryLimit, step);
      StepKeepsArchives(files, retryLimit, step);
      StepSpendsBudget(files, retryLimit, step, p);
      StepFate(files, retryLimit, step, p);
      hide Next, Enabled, Where, WellPlaced, DistinctOrigins, Budget, Claims;
      JobStory(after, retryLimit, steps[1..], q);
    }
  }

  lemma StepFate(files: Files, retryLimit: nat, step: Step, p: Place)
    requires Good(files) && Enabled(files, step) && p in files && files[p].JobFile?
    ensures var q := Where(files, retryLimit, step, p);
            && (step.Settle? && step.place == p ==>
                  !Archived(p) && (q.dir == Done <==> files[p].contents.Parsed? && step.outcome == Ran(true, false)))
            && (!(step.Settle? && step.place == p) && !Archived(p) ==> !Archived(q))
  {
    if step.Claim? || step.Settle? {
      StepDirs(files, retryLimit, step);
      OthersStay(files, retryLimit, step);
      hide Target, IsJobName, Notes;
    }
  }

  /// A job submitted with a first attempt is claimed at most once more than the
  /// retry limit.
  lemma ClaimedAtMost(files: Files, retryLimit: nat, steps: seq<Step>, p: Place)
    requires Good(files) && CanRun(files, retryLimit, steps) && p in files && files[p].JobFile?
        && files[p].contents.Parsed?
    ensures var a := files[p].contents.job.attempt;
            TimesClaimed(files, retryLimit, steps, p) <= (if a < retryLimit then retryLimit - a else 0) + 1
  {
    JobStory(files, retryLimit, steps, p);
  }

  /// Once within its bound, a queue that only its own operations fill stays there.
  lemma {:induction false} DepthStaysBounded(files: Files, retryLimit: nat, steps: seq<Step>, capacity: nat)
    requires Good(files) && CanRun(files, retryLimit, steps) && Depth(files) <= Bound(capacity)
    requires forall s | s in steps :: !s.Drop? && (s.Submit? ==> s.capacity <= capacity)
    ensures Depth(After(files, retryLimit, steps)) <= Bound(capacity)
    decreases |steps|
  {
    if steps != [] {
      assert steps[0] in steps;
      StepKeepsDepth(files, retryLimit, steps[0]);
      StepKeepsArchives(files, retryLimit, steps[0]);
      StepConserves(files, retryLimit, steps[0]);
      hide Next, Enabled, Where, WellPlaced, DistinctOrigins;
      DepthStaysBounded(Next(files, retryLimit, steps[0]), retryLimit, steps[1..], capacity);
    }
  }

  // ----- A closed inbox drains -----

  /// Claims and settlements a job file can still see.
  function Potential(p: Place, file: File, retryLimit: nat): nat
  {
    if !file.JobFile? then 0
    else match p.dir
      case Inbox => 2 * Retries(file.contents, retryLimit) + 2
      case Processing => 2 * Retries(file.contents, retryLimit) + 1
      case _ => 0
  }

  ghost function Work(files: Files, retryLimit: nat): nat
    decreases |files|
  {
    if files == map[] then 0
    else
      var p :| p in files;
      Potential(p, files[p], retryLimit) + Work(files - {p}, retryLimit)
  }

  lemma {:induction false} WorkAt(files: Files, retryLimit: nat, p: Place)
    requires p in files
    ensures Work(files, retryLimit) == Potential(p, files[p], retryLimit) + Work(files - {p}, retryLimit)
    decreases |files|
  {
    var q :| q in files && Work(files, retryLimit)
        == Potential(q, files[q], retryLimit) + Work(files - {q}, retryLimit);
    if q != p {
      WorkAt(files - {q}, retryLimit, p);
      WorkAt(files - {p}, retryLimit, q);
      assert files - {q} - {p} == files - {p} - {q};
    }
  }

  lemma {:induction false} NotesAreNoWork(files: Files, retryLimit: nat, notes: Files)
    requires forall n | n in notes :: n !in files && !notes[n].JobFile?
    ensures Work(files + notes, retryLimit) == Work(files, retryLimit)
    decreases |notes|
  {
    if notes == map[] {
      assert files + notes == files;
    } else {
      var n :| n in notes;
      hide *;
      var all, rest := files + notes, notes - {n};
      TakeBack(files, notes, n);
      NotesAreNoWork(files, retryLimit, rest);
      WorkAt(all, retryLimit, n);
      NoPotential(n, all[n], retryLimit);
    }
  }

  lemma TakeBack(files: Files, notes: Files, n: Place)
    requires n in notes && n !in files
    ensures n in files + notes && (files + notes)[n] == notes[n]
    ensures files + notes - {n} == files + (notes - {n})
  {
    assert (files + notes - {n}).Keys == (files + (notes - {n})).Keys;
  }

  lemma NoPotential(p: Place, file: File, retryLimit: nat)
    requires !file.JobFile?
    ensures Potential(p, file, retryLimit) == 0
  {
  }

  lemma MovedWork(before: Files, after: Files, from: Place, to: Place, contents: Contents, notes: Files,
                  retryLimit: nat)
    requires Moved(before, after, from, to, contents, notes)
    ensures to in after && after[to] == JobFile(before[from].origin, contents)
    ensures Work(after, retryLimit) - Potential(to, after[to], retryLimit)
         == Work(before, retryLimit) - Potential(from, before[from], retryLimit)
  {
    var core := (before - {from})[to := JobFile(before[from].origin, contents)];
    NotesAreNoWork(core, retryLimit, notes);
    WorkAt(core, retryLimit, to);
    WorkAt(before, retryLimit, from);
    assert core - {to} == before - {from};
  }

  /// Every claim and every settlement uses up work.
  lemma StepUsesWork(files: Files, retryLimit: nat, step: Step)
    requires Enabled(files, step) && Good(files) && (step.Claim? || step.Settle?)
    ensures Work(Next(files, retryLimit, step), retryLimit) < Work(files, retryLimit)
  {
    StepMoves(files, retryLimit, step);
    StepDirs(files, retryLimit, step);
    hide Next, Where, Moved, Enabled, WellPlaced, NewNotes, IsJobName;
    var from := Mover(step);
    MovedWork(files, Next(files, retryLimit, step), from, Where(files, retryLimit, step, from),
              NewContents(files, retryLimit, step), NewNotes(files, retryLimit, step), retryLimit);
  }

  /// Without new jobs every run ends, whatever the outcomes: it has no more steps
  /// than there is work.
  lemma {:induction false} ClosedInboxDrains(files: Files, retryLimit: nat, steps: seq<Step>)
    requires Good(files) && CanRun(files, retryLimit, steps)
    requires forall s | s in steps :: s.Claim? || s.Settle?
    ensures |steps| + Work(After(files, retryLimit, steps), retryLimit) <= Work(files, retryLimit)
    decreases |steps|
  {
    if steps != [] {
      var step := steps[0];
      assert step in steps;
      StepUsesWork(files, retryLimit, step);
      StepKeepsArchives(files, retryLimit, step);
      StepConserves(files, retryLimit, step);
      hide Next, Enabled, Where, WellPlaced, DistinctOrigins, Work;
      ClosedInboxDrains(Next(files, retryLimit, step), retryLimit, steps[1..]);
    }
  }

  // ----- The order of claims -----

  /// Claims with nothing else between them take jobs in the order of priority and
  /// name, each strictly after the one before.
  lemma {:induction false} DrainsInOrder(files: Files, retryLimit: nat, steps: seq<Step>, i: nat, j: nat)
    requires Good(files) && CanRun(files, retryLimit, steps) && (forall s | s in steps :: s.Claim?)
    requires i < j < |steps|
    ensures Before(steps[i].name, steps[j].name)
    ensures PriorityFromName(steps[i].name) >= PriorityFromName(steps[j].name)
    decreases |steps|
  {
    hide Before, PriorityFromName, Fresh, IsJobName;
    assert steps[0] in steps && steps[j] in steps;
    if i > 0 {
      StepKeepsArchives(files, retryLimit, steps[0]);
      StepConserves(files, retryLimit, steps[0]);
      hide Next, Enabled, WellPlaced, DistinctOrigins;
      DrainsInOrder(Next(files, retryLimit, steps[0]), retryLimit, steps[1..], i - 1, j - 1);
    } else {
      ClaimedFromInbox(Next(files, retryLimit, steps[0]), retryLimit, steps[1..], j - 1);
      StillInInbox(files, retryLimit, steps[0], steps[j].name);
    }
    hide *;
    HigherOrSame(steps[i].name, steps[j].name);
  }

  lemma StillInInbox(files: Files, retryLimit: nat, claim: Step, name: string)
    requires claim.Claim? && Enabled(files, claim)
    requires Place(Inbox, name) in Next(files, retryLimit, claim) && IsJobName(name)
    ensures Before(claim.name, name)
  {
    hide Before, IsJobName, ProcessingName, Fresh;
  }

  lemma HigherOrSame(a: string, b: string)
    requires Before(a, b)
    ensures PriorityFromName(a) >= PriorityFromName(b)
  {
  }

  /// During claims only, a job that is claimed was in the inbox all along.
  lemma {:induction false} ClaimedFromInbox(files: Files, retryLimit: nat, steps: seq<Step>, j: nat)
    requires CanRun(files, retryLimit, steps) && (forall s | s in steps :: s.Claim?) && j < |steps|
    ensures Place(Inbox, steps[j].name) in files && IsJobName(steps[j].name)
    decreases |steps|
  {
    hide Before, IsJobName, ProcessingName, Fresh;
    assert steps[0] in steps && steps[j] in steps;
    if j > 0 {
      ClaimedFromInbox(Next(files, retryLimit, steps[0]), retryLimit, steps[1..], j - 1);
    }
  }
}
