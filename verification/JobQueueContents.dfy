/// What the files of the job queue hold: that a settled job leaves what its run
/// came to, and that what is claimed is what was submitted.
module JobQueueContents {
  import opened Wrappers
  import opened Text
  import opened QueueNames
  import opened JobQueue
  import opened JobQueueProofs

  // ----- A settled job -----

  /// The run of the job failed and has attempts left.
  predicate MayRetry(contents: Contents, outcome: RunOutcome, retryLimit: nat)
  {
    outcome.RunFailed? && contents.Parsed? && contents.job.attempt < retryLimit
  }

  /// What a settled job leaves beside it.
  function NoteOn(contents: Contents, outcome: RunOutcome): File
    requires contents != NotText
  {
    if contents.Parsed? && outcome.Ran? then
      ResultFile(contents.job.jobId, contents.job.attempt, outcome.success, outcome.parked)
    else ErrorFile
  }

  /// The job at p is moved to `to` in one of the archives, under its own name unless
  /// that is taken, with the note beside it.
  ghost predicate ArchivedAs(before: Files, after: Files, p: Place, dir: Dir, to: Place, note: Place, file: File)
    requires p in before
  {
    && to.dir == note.dir == dir && to !in before && note !in before && to != note
    && (Place(dir, OriginalName(p.name)) !in before ==> to.name == OriginalName(p.name))
    && (file == ErrorFile ==> IsErrorNote(note.name) && NotedName(note.name) == to.name)
    && (file != ErrorFile && Place(dir, Stem(OriginalName(p.name)) + ".result.json") !in before ==>
          note.name == Stem(OriginalName(p.name)) + ".result.json")
    && after == (before - {p})[to := before[p]][note := file]
  }

  /// The job at p is back in the inbox, in a new file whose name tells its priority.
  ghost predicate PutBackAs(before: Files, after: Files, p: Place, to: Place, job: QueueJob)
    requires p in before && before[p].JobFile?
  {
    && to !in before && to.dir == Inbox && IsJobName(to.name) && PriorityFromName(to.name) == job.priority
    && after == (before - {p})[to := JobFile(before[p].origin, Parsed(job))]
  }

  /// After its run a job is put back with one more attempt exactly when the run failed
  /// and attempts are left. Otherwise it is archived as done, exactly when the run
  /// succeeded and did not park, or as failed; with what its run came to, or with an
  /// error note. Nothing else changes.
  lemma SettledAsItRan(files: Files, p: Place, outcome: RunOutcome, retryLimit: nat, uuid: string)
    returns (to: Place, note: Place)
    requires Enabled(files, Settle(p, outcome, uuid)) && WellPlaced(files)
    ensures var c, after := files[p].contents, Finish(files, p, outcome, retryLimit, uuid);
            if MayRetry(c, outcome, retryLimit) then
              PutBackAs(files, after, p, to, c.job.(attempt := c.job.attempt + 1))
            else
              ArchivedAs(files, after, p, if c.Parsed? && outcome == Ran(true, false) then Done else FailedDir,
                         to, note, NoteOn(c, outcome))
  {
    var c := files[p].contents;
    hide Fresh, ArchivedAs, IsJobName, OriginalName, InboxFilename, PriorityFromName, ArchivePlace, ErrorPlace;
    to, note := p, p;
    if MayRetry(c, outcome, retryLimit) {
      to := RetryPlace(c.job, uuid);
      FreshNames(files, uuid, "", c.job.priority);
      PriorityRoundTrip(c.job.priority, uuid);
      InboxNameIsJobName(c.job.priority, uuid);
      assert to != p;
    } else if c.Parsed? && outcome.Ran? {
      var dir := ResultDir(outcome.success, outcome.parked);
      ResultArchived(files, p, dir, uuid, NoteOn(c, outcome));
      note := ResultPlace(files, p, dir, uuid);
      to := ArchivePlace(files[note := NoteOn(c, outcome)], p, dir, uuid);
    } else {
      FailureArchived(files, p, uuid);
      to := ArchivePlace(files, p, FailedDir, uuid);
      note := ErrorPlace(to);
    }
  }

  lemma ResultArchived(files: Files, p: Place, dir: Dir, uuid: string, result: File)
    requires p in files && files[p].JobFile? && Fresh(files, uuid) && WellPlaced(files) && p.dir == Processing
    requires (dir == Done || dir == FailedDir) && result.ResultFile?
    ensures var note := ResultPlace(files, p, dir, uuid);
            var reported := files[note := result];
            var to := ArchivePlace(reported, p, dir, uuid);
            p in reported && ArchivedAs(files, Rename(reported, p, to), p, dir, to, note, result)
  {
    hide Fresh, IsJobName, OriginalName, Stem, IsErrorNote, NotedName;
    ArchiveTargets(files, p, dir, uuid, result);
    ArchiveNames(OriginalName(p.name), uuid);
    var note := ResultPlace(files, p, dir, uuid);
    var reported := files[note := result];
    var to := ArchivePlace(reported, p, dir, uuid);
    JobNameHasStem(OriginalName(p.name));
    var stem := Stem(OriginalName(p.name));
    assert |stem + ".json"| != |stem + ".result.json"| && (stem + ".json")[|stem|] != (stem + "-")[|stem|];
    assert (stem + "-" + uuid + ".result.json")[|stem|] == '-';
    assert Rename(reported, p, to) == (files - {p})[to := files[p]][note := result];
  }

  lemma FailureArchived(files: Files, p: Place, uuid: string)
    requires p in files && files[p].JobFile? && Fresh(files, uuid) && WellPlaced(files) && p.dir == Processing
    ensures var to := ArchivePlace(files, p, FailedDir, uuid);
            ArchivedAs(files, ArchiveFailed(files, p, uuid), p, FailedDir, to, ErrorPlace(to), ErrorFile)
  {
    FailureMoves(files, p, uuid);
    hide Fresh, IsJobName, OriginalName, Stem, IsErrorNote, NotedName, WithExtension;
    var to := ArchivePlace(files, p, FailedDir, uuid);
    NoteNamesItsJob(to.name);
  }

  // ----- From submission to claim -----

  /// How often, in the run, the job at p is put back after its run.
  function TimesPutBack(files: Files, retryLimit: nat, steps: seq<Step>, p: Place): nat
    requires CanRun(files, retryLimit, steps)
    decreases |steps|
  {
    if steps == [] then 0
    else
      var q := Where(files, retryLimit, steps[0], p);
      (if steps[0].Settle? && steps[0].place == p && q.dir == Inbox then 1 else 0)
      + TimesPutBack(Next(files, retryLimit, steps[0]), retryLimit, steps[1..], q)
  }

  /// The same job, that many attempts later.
  predicate Later(before: Contents, after: Contents, attempts: nat)
  {
    if before.Parsed? then after == Parsed(before.job.(attempt := before.job.attempt + attempts)) else after == before
  }

  lemma LaterStill(a: Contents, b: Contents, c: Contents, m: nat, n: nat)
    requires Later(a, b, m) && Later(b, c, n)
    ensures Later(a, c, m + n)
  {
  }

  lemma MovedIsLater(contents: Contents, outcome: RunOutcome, retryLimit: nat)
    ensures Later(contents, MovedContents(contents, outcome, retryLimit),
                  if Retried(contents, outcome, retryLimit) then 1 else 0)
    ensures Later(contents, contents, 0)
  {
  }

  lemma StepKeepsJob(files: Files, retryLimit: nat, step: Step, p: Place)
    requires Good(files) && Enabled(files, step) && p in files && files[p].JobFile?
    ensures var after, q := Next(files, retryLimit, step), Where(files, retryLimit, step, p);
            && q in after && after[q].JobFile? && after[q].origin == files[p].origin
            && Later(files[p].contents, after[q].contents,
                     if step.Settle? && step.place == p && q.dir == Inbox then 1 else 0)
  {
    if step.Claim? || step.Settle? {
      StepMoves(files, retryLimit, step);
      OthersStay(files, retryLimit, step);
      StepDirs(files, retryLimit, step);
      var after, from := Next(files, retryLimit, step), Mover(step);
      MovedIsLater(files[from].contents, if step.Settle? then step.outcome else RunFailed, retryLimit);
      MovedIsLater(files[p].contents, RunFailed, retryLimit);
      hide Next, Where, Enabled, NewNotes, Moved, Good, MovedContents, Retried, Later;
      MovedConserves(files, after, from, Where(files, retryLimit, step, from),
                     NewContents(files, retryLimit, step), NewNotes(files, retryLimit, step));
    } else {
      EntersAlone(files, retryLimit, step);
    }
  }

  /// Over every run a job stays the same but for its attempts, which count how often
  /// it was put back.
  lemma {:induction false} AttemptsCountPutBacks(files: Files, retryLimit: nat, steps: seq<Step>, p: Place)
    requires Good(files) && CanRun(files, retryLimit, steps) && p in files && files[p].JobFile?
    ensures var end, q := After(files, retryLimit, steps), Follow(files, retryLimit, steps, p);
            && q in end && end[q].JobFile? && end[q].origin == files[p].origin
            && Later(files[p].contents, end[q].contents, TimesPutBack(files, retryLimit, steps, p))
    decreases |steps|
  {
    if steps != [] {
      var step := steps[0];
      StepKeepsJob(files, retryLimit, step, p);
      StepConserves(files, retryLimit, step);
      StepKeepsArchives(files, retryLimit, step);
      var after, q := Next(files, retryLimit, step), Where(files, retryLimit, step, p);
      var end, at := After(files, retryLimit, steps), Follow(files, retryLimit, steps, p);
      var once := if step.Settle? && step.place == p && q.dir == Inbox then 1 else 0;
      assert TimesPutBack(files, retryLimit, steps, p) == once + TimesPutBack(after, retryLimit, steps[1..], q);
      assert end == After(after, retryLimit, steps[1..]) && at == Follow(after, retryLimit, steps[1..], q);
      assert CanRun(after, retryLimit, steps[1..]) && Good(after);
      hide *;
      AttemptsCountPutBacks(after, retryLimit, steps[1..], q);
      LaterStill(files[p].contents, after[q].contents, end[at].contents, once,
                 TimesPutBack(after, retryLimit, steps[1..], q));
    }
  }

  /// What is claimed under the origin of an accepted submission, after whatever steps,
  /// is the submitted job; its attempts count how often it was put back.
  lemma ClaimedAsSubmitted(files: Files, retryLimit: nat, submit: Step, steps: seq<Step>, claim: Step)
    requires Good(files) && submit.Submit? && Enabled(files, submit)
    requires Admit(files, submit.job, submit.capacity, submit.origin, submit.uuid, submit.jobUuid).1.Accepted?
    requires CanRun(Next(files, retryLimit, submit), retryLimit, steps)
    requires var end := After(Next(files, retryLimit, submit), retryLimit, steps);
             && claim.Claim? && Enabled(end, claim)
             && end[Place(Inbox, claim.name)].JobFile? && end[Place(Inbox, claim.name)].origin == submit.origin
    ensures var start := Next(files, retryLimit, submit);
            var claimed := After(start, retryLimit, steps)[Place(Inbox, claim.name)].contents;
            && claimed.Parsed?
            && IsSubmitted(claimed.job.(attempt := submit.job.attempt), submit.job, submit.jobUuid)
            && exists at :: at in start && at !in files
                 && claimed.job.attempt == submit.job.attempt + TimesPutBack(start, retryLimit, steps, at)
  {
    var start := Next(files, retryLimit, submit);
    var answer := Admit(files, submit.job, submit.capacity, submit.origin, submit.uuid, submit.jobUuid).1;
    SubmissionIsStored(files, submit.job, submit.capacity, submit.origin, submit.uuid, submit.jobUuid);
    StepConserves(files, retryLimit, submit);
    StepKeepsArchives(files, retryLimit, submit);
    var at :| AppearsInInbox(files, start, at, submit.origin, answer.job);
    hide Next, Admit, WellPlaced, AppearsInInbox;
    assert at in start && at !in files && start[at] == JobFile(submit.origin, Parsed(answer.job)) by {
      JustAppeared(files, start, at, submit.origin, answer.job);
    }
    AttemptsCountPutBacks(start, retryLimit, steps, at);
    ArchivesAreForever(start, retryLimit, steps);
    hide Enabled;
    assert Follow(start, retryLimit, steps, at) == Place(Inbox, claim.name);
  }

  lemma JustAppeared(before: Files, after: Files, at: Place, origin: nat, job: QueueJob)
    requires AppearsInInbox(before, after, at, origin, job)
    ensures at in after && at !in before && after[at] == JobFile(origin, Parsed(job))
  {
  }
}
