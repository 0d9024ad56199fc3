/// The memory of an empty inbox, step by step: the claimer scans, then reads the
/// directory's time stamp, then stores it, and others put jobs in between. Every
/// change of the inbox gives it a new stamp.
module IdleCache {
  import opened Wrappers

  /// Where the claimer is. `scanned` is the stamp the inbox had when the scan
  /// found nothing; `read` and `there` are the stamp and the number of jobs when
  /// the stamp was read.
  datatype Claimer =
    | Resting
    | Scanning
    | FoundNone(scanned: nat)
    | Marking(scanned: nat, read: nat, there: nat)
    | FoundSome
    | Took

  /// `pending` counts jobs that were written but whose writer has not yet cleared
  /// the memory. `memory` also keeps what was there when its stamp was read.
  datatype State = State(jobs: nat, stamp: nat, memory: Option<Memory>, claimer: Claimer, pending: nat)

  datatype Memory = Memory(scanned: nat, stamp: nat, there: nat)

  datatype Step =
    | AskMemory      // an idle memory ends the claim, otherwise it scans
    | Scan
    | ReadStamp
    | Store
    | Take           // the first job goes to processing
    | ForgetAfterTake
    | Write          // a submission or a retry renames its file into the inbox
    | Forget         // and then clears the memory
    | DropFile       // another program puts a job in
    | RemoveFile     // or takes one out
    | Touch          // a file that is no job comes or goes, such as one still being written

  predicate SaysIdle(s: State)
  {
    s.memory.Some? && s.memory.value.stamp == s.stamp
  }

  /// The memory says there is nothing to claim although there is.
  predicate HidesJob(s: State)
  {
    SaysIdle(s) && s.jobs > 0
  }

  predicate Enabled(s: State, step: Step)
  {
    match step
    case AskMemory => s.claimer.Resting?
    case Scan => s.claimer.Scanning?
    case ReadStamp => s.claimer.FoundNone?
    case Store => s.claimer.Marking?
    case Take => s.claimer.FoundSome? && s.jobs > 0
    case ForgetAfterTake => s.claimer.Took?
    case Forget => s.pending > 0
    case RemoveFile => s.jobs > 0
    case _ => true
  }

  function Next(s: State, step: Step): State
    requires Enabled(s, step)
  {
    match step
    case AskMemory => if SaysIdle(s) then s else s.(claimer := Scanning)
    case Scan => s.(claimer := if s.jobs == 0 then FoundNone(s.stamp) else FoundSome)
    case ReadStamp => s.(claimer := Marking(s.claimer.scanned, s.stamp, s.jobs))
    case Store =>
      s.(memory := Some(Memory(s.claimer.scanned, s.claimer.read, s.claimer.there)), claimer := Resting)
    case Take => s.(jobs := s.jobs - 1, stamp := s.stamp + 1, claimer := Took)
    case ForgetAfterTake => s.(memory := None, claimer := Resting)
    case Write => s.(jobs := s.jobs + 1, stamp := s.stamp + 1, pending := s.pending + 1)
    case Forget => s.(memory := None, pending := s.pending - 1)
    case DropFile => s.(jobs := s.jobs + 1, stamp := s.stamp + 1)
    case RemoveFile => s.(jobs := s.jobs - 1, stamp := s.stamp + 1)
    case Touch => s.(stamp := s.stamp + 1)
  }

  predicate CanRun(s: State, steps: seq<Step>)
    decreases |steps|
  {
    steps == [] || (Enabled(s, steps[0]) && CanRun(Next(s, steps[0]), steps[1..]))
  }

  function Run(s: State, steps: seq<Step>): State
    requires CanRun(s, steps)
    decreases |steps|
  {
    if steps == [] then s else Run(Next(s, steps[0]), steps[1..])
  }

  function Initial(jobs: nat): State
  {
    State(jobs, 0, None, Resting, 0)
  }

  /// What the stamps say about the jobs that were there.
  predicate Consistent(stamp: nat, jobs: nat, scanned: nat, read: nat, there: nat)
  {
    scanned <= read <= stamp && (scanned == read ==> there == 0) && (read == stamp ==> there == jobs)
  }

  ghost predicate Inv(s: State)
  {
    && (s.memory.Some? ==> var m := s.memory.value; Consistent(s.stamp, s.jobs, m.scanned, m.stamp, m.there))
    && match s.claimer
       case FoundNone(scanned) => scanned <= s.stamp && (scanned == s.stamp ==> s.jobs == 0)
       case Marking(scanned, read, there) => Consistent(s.stamp, s.jobs, scanned, read, there)
       case _ => true
  }

  lemma {:induction false} RunKeepsInv(s: State, steps: seq<Step>)
    requires CanRun(s, steps) && Inv(s)
    ensures Inv(Run(s, steps))
    decreases |steps|
  {
    if steps != [] {
      RunKeepsInv(Next(s, steps[0]), steps[1..]);
    }
  }

  /// As long as only jobs come and none is taken out, the stamps count the jobs that came in.
  ghost predicate CountsArrivals(s: State)
  {
    && (s.memory.Some? ==> s.memory.value.scanned + s.memory.value.there == s.memory.value.stamp)
    && match s.claimer
       case FoundNone(scanned) => scanned + s.jobs == s.stamp
       case Marking(scanned, read, there) => scanned + there == read
       case _ => true
  }

  lemma {:induction false} RunCountsArrivals(s: State, steps: seq<Step>)
    requires CanRun(s, steps) && CountsArrivals(s)
    requires forall step | step in steps :: !step.RemoveFile? && !step.Touch?
    ensures CountsArrivals(Run(s, steps))
    decreases |steps|
  {
    if steps != [] {
      assert steps[0] in steps;
      RunCountsArrivals(Next(s, steps[0]), steps[1..]);
    }
  }

  /// Over every interleaving in which only jobs come in, a memory that is in force
  /// hides jobs exactly when the stamp it holds is not the one its scan was made
  /// under: when the inbox changed between the two readings.
  lemma HidesExactlyWhatCameInBetween(jobs: nat, steps: seq<Step>)
    requires CanRun(Initial(jobs), steps) && SaysIdle(Run(Initial(jobs), steps))
    requires forall step | step in steps :: !step.RemoveFile? && !step.Touch?
    ensures var s := Run(Initial(jobs), steps);
            HidesJob(s) <==> s.memory.value.scanned < s.memory.value.stamp
  {
    RunKeepsInv(Initial(jobs), steps);
    RunCountsArrivals(Initial(jobs), steps);
  }

  /// When files are also taken out, or others come and go, a change in between is still needed to hide a
  /// job, and what is hidden is what was there when the stamp was read.
  lemma HidesOnlyAfterAChange(jobs: nat, steps: seq<Step>)
    requires CanRun(Initial(jobs), steps) && SaysIdle(Run(Initial(jobs), steps))
    ensures var s := Run(Initial(jobs), steps);
            && s.jobs == s.memory.value.there
            && (HidesJob(s) ==> s.memory.value.scanned < s.memory.value.stamp)
  {
    RunKeepsInv(Initial(jobs), steps);
  }

  /// Every change of the inbox ends the force of a memory there was, and so does every
  /// clearing of it; the next claim then scans.
  lemma ChangesAreNoticed(s: State, step: Step)
    requires Inv(s) && Enabled(s, step)
    requires ChangesInbox(step) || step.Take? || step.Forget? || step.ForgetAfterTake?
    ensures !SaysIdle(Next(s, step))
    ensures step.Forget? || step.ForgetAfterTake? ==> Next(s, step).memory == None
    ensures Enabled(Next(s, step), AskMemory) ==> Next(Next(s, step), AskMemory).claimer == Scanning
  {
  }

  // ----- Exactly which jobs are hidden -----

  predicate ChangesInbox(step: Step)
  {
    step.Write? || step.DropFile? || step.RemoveFile? || step.Touch?
  }

  predicate ByOthers(steps: seq<Step>)
  {
    forall step | step in steps :: ChangesInbox(step) || step.Forget?
  }

  /// Jobs that came in less those that were taken out.
  function Net(steps: seq<Step>): int
  {
    if steps == [] then 0
    else (if steps[0].Write? || steps[0].DropFile? then 1 else if steps[0].RemoveFile? then -1 else 0) + Net(steps[1..])
  }

  function Changes(steps: seq<Step>): (n: nat)
    ensures n == 0 <==> forall step | step in steps :: !ChangesInbox(step)
  {
    if steps == [] then 0
    else
      assert steps == [steps[0]] + steps[1..];
      (if ChangesInbox(steps[0]) then 1 else 0) + Changes(steps[1..])
  }

  lemma {:induction false} OthersRun(s: State, steps: seq<Step>)
    requires CanRun(s, steps) && ByOthers(steps)
    ensures var t := Run(s, steps);
            t.claimer == s.claimer && t.jobs == s.jobs + Net(steps) && t.stamp == s.stamp + Changes(steps)
    decreases |steps|
  {
    if steps != [] {
      assert steps[0] in steps;
      OthersRun(Next(s, steps[0]), steps[1..]);
    }
  }

  lemma {:induction false} RunInTwo(s: State, a: seq<Step>, b: seq<Step>)
    requires CanRun(s, a + b)
    ensures CanRun(s, a) && CanRun(Run(s, a), b) && Run(s, a + b) == Run(Run(s, a), b)
    decreases |a|
  {
    if a == [] {
      assert a + b == b;
    } else {
      assert (a + b)[0] == a[0] && (a + b)[1..] == a[1..] + b;
      hide Next, Enabled;
      RunInTwo(Next(s, a[0]), a[1..], b);
    }
  }

  lemma RunOne(s: State, step: Step, rest: seq<Step>)
    requires CanRun(s, [step] + rest)
    ensures Enabled(s, step) && CanRun(Next(s, step), rest) && Run(s, [step] + rest) == Run(Next(s, step), rest)
  {
    assert ([step] + rest)[1..] == rest;
  }

  /// Whatever the others do meanwhile: a claim that finds nothing stores a memory
  /// that is in force exactly when the inbox did not change after its stamp was read,
  /// and it then hides jobs exactly when more came in than were taken out between the
  /// scan and the reading of the stamp.
  lemma HidesTheNetArrivals(s: State, between: seq<Step>, after: seq<Step>)
    requires s.claimer.Scanning? && s.jobs == 0 && ByOthers(between) && ByOthers(after)
    requires CanRun(s, [Scan] + (between + ([ReadStamp] + (after + [Store]))))
    ensures var t := Run(s, [Scan] + (between + ([ReadStamp] + (after + [Store]))));
            && (SaysIdle(t) <==> forall step | step in after :: !ChangesInbox(step))
            && (HidesJob(t) <==> SaysIdle(t) && Net(between) > 0)
  {
    var s1 := Next(s, Scan);
    RunOne(s, Scan, between + ([ReadStamp] + (after + [Store])));
    RunInTwo(s1, between, [ReadStamp] + (after + [Store]));
    OthersRun(s1, between);
    var s2 := Run(s1, between);
    RunOne(s2, ReadStamp, after + [Store]);
    var s3 := Next(s2, ReadStamp);
    RunInTwo(s3, after, [Store]);
    OthersRun(s3, after);
    var s4 := Run(s3, after);
    RunOne(s4, Store, []);
    assert [Store] + [] == [Store];
    EmptyRun(Next(s4, Store));
    QuietAfter(after);
    hide CanRun, Run, Net, Changes;
  }

  /// Without a change of the inbox there is no net arrival either.
  lemma {:induction false} QuietAfter(steps: seq<Step>)
    requires ByOthers(steps)
    ensures Changes(steps) == 0 ==> Net(steps) == 0
  {
    if steps != [] {
      assert steps[0] in steps && forall step | step in steps[1..] :: step in steps;
      QuietAfter(steps[1..]);
    }
  }

  // ----- A hidden job -----

  /// It does happen: a job that arrives between the scan and the reading of the
  /// stamp is hidden, whether another program drops it in or a submission writes
  /// it and clears the memory before the claimer stores its own.
  lemma {:induction false} JobHidden()
    ensures var dropped := [AskMemory, Scan, DropFile, ReadStamp, Store];
            CanRun(Initial(0), dropped) && HidesJob(Run(Initial(0), dropped))
    ensures var submitted := [AskMemory, Scan, Write, ReadStamp, Forget, Store];
            CanRun(Initial(0), submitted) && HidesJob(Run(Initial(0), submitted))
              && Run(Initial(0), submitted).pending == 0
  {
    var s1 := Next(Initial(0), AskMemory);
    var s2 := Next(s1, Scan);
    var d3, w3 := Next(s2, DropFile), Next(s2, Write);
    var d4, w4 := Next(d3, ReadStamp), Next(w3, ReadStamp);
    var w5 := Next(w4, Forget);
    hide CanRun, Run;
    EmptyRun(Next(d4, Store));
    EmptyRun(Next(w5, Store));
    var d := Prepend(d4, Store, []);
    d := Prepend(d3, ReadStamp, d);
    d := Prepend(s2, DropFile, d);
    d := Prepend(s1, Scan, d);
    d := Prepend(Initial(0), AskMemory, d);
    var w := Prepend(w5, Store, []);
    w := Prepend(w4, Forget, w);
    w := Prepend(w3, ReadStamp, w);
    w := Prepend(s2, Write, w);
    w := Prepend(s1, Scan, w);
    w := Prepend(Initial(0), AskMemory, w);
    assert d == [AskMemory, Scan, DropFile, ReadStamp, Store];
    assert w == [AskMemory, Scan, Write, ReadStamp, Forget, Store];
  }

  lemma EmptyRun(s: State)
    ensures CanRun(s, []) && Run(s, []) == s
  {
  }

  lemma Prepend(s: State, step: Step, rest: seq<Step>) returns (steps: seq<Step>)
    requires Enabled(s, step) && CanRun(Next(s, step), rest)
    ensures steps == [step] + rest && CanRun(s, steps) && Run(s, steps) == Run(Next(s, step), rest)
  {
    steps := [step] + rest;
    assert steps[1..] == rest;
  }

  /// And once hidden, the job stays hidden however often the claimer asks: only a
  /// later change of the inbox, or a writer that has still to clear the memory,
  /// brings it back.
  lemma {:induction false} HiddenUntilTheInboxChanges(s: State, steps: seq<Step>)
    requires CanRun(s, steps) && HidesJob(s) && s.claimer.Resting? && s.pending == 0
    requires forall step | step in steps :: !ChangesInbox(step)
    ensures Run(s, steps) == s
    decreases |steps|
  {
    if steps != [] {
      assert steps[0] in steps;
      HiddenUntilTheInboxChanges(s, steps[1..]);
    }
  }
}
