/// The serve loop of the filesystem queue: several jobs at once, at most so many
/// in all, and a shutdown that lets the jobs already claimed finish.
module ServeLoop {
  import opened Wrappers

  /// What asking the queue for a job answers.
  datatype Offer = NoJob | Job | ClaimFailed

  /// How the work on a claimed job ends: with a result, with the job put back for
  /// a retry, or with an error or a panic.
  datatype JobEnd = Served(runId: string) | Requeued | Errored

  datatype Wake = TimerFired | ShutdownSeen | JobEnded

  /// A task that is joined: which of the running ones, and how it ended.
  datatype Joined = Joined(pick: nat, end: JobEnd)

  /// What the loop meets. In its turn `n` the shutdown flag reads as `shutdown(n)`,
  /// what wakes it is `wakes(n)`, and a task that then ends is `joins(n)`.
  datatype Host = Host(offers: nat -> Offer, healthWritten: nat -> bool, shutdown: nat -> bool, wakes: nat -> Wake,
                       joins: nat -> Joined)

  /// A turn of the loop is over when it wakes: by the timer, or with a task joined.
  /// `Claimed` and `NoneLeft` are what the queue answered when it was asked for the
  /// job numbered so; `Health` is the health as it was written.
  datatype Event =
    | Claimed(job: nat)
    | NoneLeft(job: nat)
    | Health(active: nat, lastRunId: Option<string>)
    | Ended(pick: nat, end: JobEnd)
    | Ticked
    | SawShutdown

  datatype ServeEnd = Finished(completed: nat) | ServeFailed | StillServing

  datatype Options = Options(concurrency: nat, maxJobs: Option<nat>)

  // ----- What a log says -----

  function Removed(jobs: seq<nat>, pick: nat): (rest: seq<nat>)
    requires jobs != []
    ensures |rest| == |jobs| - 1
  {
    var k := pick % |jobs|;
    jobs[..k] + jobs[k + 1..]
  }

  /// The jobs that are claimed and not yet joined.
  function Running(log: seq<Event>): seq<nat>
  {
    if log == [] then []
    else
      var running := Running(log[..|log| - 1]);
      match log[|log| - 1]
      case Claimed(job) => running + [job]
      case Ended(pick, _) => if running == [] then [] else Removed(running, pick)
      case _ => running
  }

  /// Jobs that are over: those that were put back count only when claimed again.
  function Completed(log: seq<Event>): nat
  {
    if log == [] then 0
    else Completed(log[..|log| - 1]) + if log[|log| - 1].Ended? && !log[|log| - 1].end.Requeued? then 1 else 0
  }

  predicate Within(o: Options, completed: nat, active: nat)
  {
    active <= o.concurrency && (o.maxJobs.Some? ==> completed + active <= o.maxJobs.value)
  }

  /// The last job that ended with a result.
  function LastRun(log: seq<Event>): Option<string>
  {
    if log == [] then None
    else match log[|log| - 1]
      case Ended(_, Served(id)) => Some(id)
      case _ => LastRun(log[..|log| - 1])
  }

  /// How many turns are over.
  function Turn(log: seq<Event>): nat
  {
    if log == [] then 0
    else Turn(log[..|log| - 1]) + if log[|log| - 1].Ended? || log[|log| - 1].Ticked? then 1 else 0
  }

  /// How often the queue was asked.
  function Asks(log: seq<Event>): nat
  {
    if log == [] then 0
    else Asks(log[..|log| - 1]) + if log[|log| - 1].Claimed? || log[|log| - 1].NoneLeft? then 1 else 0
  }

  /// One more job may be claimed.
  predicate Room(log: seq<Event>, o: Options)
  {
    |Running(log)| < o.concurrency && (o.maxJobs.Some? ==> Completed(log) + |Running(log)| < o.maxJobs.value)
  }

  /// The loop has claimed all it may, or all there was, and written its health.
  predicate Settled(log: seq<Event>, o: Options)
  {
    && log != [] && log[|log| - 1].Health?
    && (Room(log, o) ==> |log| > 1 && log[|log| - 2].NoneLeft?)
  }

  /// Outside shutdown, the end of a task is followed by a health that shows it.
  predicate HealthOwed(log: seq<Event>)
  {
    log != [] && log[|log| - 1].Ended? && !log[|log| - 1].end.Requeued? && SawShutdown !in log
  }

  /// The log is what the host makes of what it meets. At every point the bounds
  /// hold; in a turn in which the flag was unset the queue is asked for as long as one
  /// more job may be claimed, and what it gives is claimed, until it has none; the
  /// loop waits only then, and with its health written; the timer ends a turn only
  /// when shutdown does not; a task that ends is one that runs; and shutdown is seen
  /// exactly where it is, in the flag or as what wakes the loop, and then only tasks
  /// end.
  predicate Orderly(log: seq<Event>, host: Host, o: Options)
  {
    log == [] ||
    var before, e := log[..|log| - 1], log[|log| - 1];
    && Orderly(before, host, o)
    && Within(o, Completed(log), |Running(log)|)
    && (before == [] || HealthOwed(before) ==> e.Health?)
    && match e
       case Claimed(job) => host.offers(job).Job? && Asking(before, host, o, job)
       case NoneLeft(job) => host.offers(job).NoJob? && Asking(before, host, o, job)
       case Health(active, lastRunId) => active == |Running(before)| && lastRunId == LastRun(before)
       case Ended(pick, end) =>
         Running(before) != [] && host.joins(Turn(before)) == Joined(pick, end)
         && (SawShutdown in before
             || (!host.shutdown(Turn(before)) && host.wakes(Turn(before)).JobEnded? && Settled(before, o)))
       case Ticked =>
         && SawShutdown !in before && !host.shutdown(Turn(before)) && !host.wakes(Turn(before)).ShutdownSeen?
         && Settled(before, o)
       case SawShutdown =>
         && SawShutdown !in before
         && (host.shutdown(Turn(before)) || (host.wakes(Turn(before)).ShutdownSeen? && Settled(before, o)))
  }

  /// The queue may be asked for the job numbered so.
  predicate Asking(log: seq<Event>, host: Host, o: Options, job: nat)
  {
    && !host.shutdown(Turn(log)) && SawShutdown !in log && Room(log, o) && job == Asks(log)
    && (log != [] ==> !log[|log| - 1].NoneLeft?)
  }

  /// The loop never waits while it could work: when a turn ends outside shutdown, the
  /// bounds leave no room or the queue has just answered that it has no job, and the
  /// health written last shows how many jobs run and which ended last.
  lemma WaitsOnlyWhenSettled(log: seq<Event>, host: Host, o: Options, i: nat)
    requires Orderly(log, host, o) && i < |log| && SawShutdown !in log[..i] && (log[i].Ticked? || log[i].Ended?)
    ensures i > 0 && log[i - 1] == Health(|Running(log[..i])|, LastRun(log[..i]))
    ensures Room(log[..i], o) ==>
              && i > 1 && log[i - 2].NoneLeft? && log[i - 2].job == Asks(log[..i - 2])
              && host.offers(log[i - 2].job).NoJob?
  {
    var before := log[..i];
    EventFits(log, host, o, i);
    hide Orderly, Running, Completed, LastRun, Turn, Asks, Room;
    assert Settled(before, o);
    EventFits(log, host, o, i - 1);
    if Room(before, o) {
      EventFits(log, host, o, i - 2);
    }
    SameRunning(log, i - 1);
  }

  lemma SameRunning(log: seq<Event>, i: nat)
    requires i < |log| && log[i].Health?
    ensures Running(log[..i + 1]) == Running(log[..i]) && LastRun(log[..i + 1]) == LastRun(log[..i])
  {
    assert log[..i + 1][..i] == log[..i];
  }

  /// Each event of an orderly log fits what was before it.
  lemma EventFits(log: seq<Event>, host: Host, o: Options, i: nat)
    requires Orderly(log, host, o) && i < |log|
    ensures var before := log[..i];
            && (before == [] || HealthOwed(before) ==> log[i].Health?)
            && (log[i].NoneLeft? ==> host.offers(log[i].job).NoJob? && log[i].job == Asks(before))
            && (log[i].Claimed? ==> host.offers(log[i].job).Job? && log[i].job == Asks(before))
            && (log[i].Health? ==> log[i] == Health(|Running(before)|, LastRun(before)))
            && (log[i].Ticked? || (log[i].Ended? && SawShutdown !in before) ==> Settled(before, o))
  {
    OrderlyPrefix(log, host, o, i + 1);
    var upTo := log[..i + 1];
    assert upTo[..i] == log[..i] && upTo[i] == log[i] && upTo != [];
    hide Running, Completed, LastRun, Turn, Asks, Room, Settled, HealthOwed;
  }

  /// However the log is cut, the bounds hold at the cut.
  lemma {:induction false} OrderlyPrefix(log: seq<Event>, host: Host, o: Options, n: nat)
    requires Orderly(log, host, o) && n <= |log|
    ensures Orderly(log[..n], host, o) && (n == 0 || Within(o, Completed(log[..n]), |Running(log[..n])|))
    decreases |log|
  {
    if n < |log| {
      OrderlyPrefix(log[..|log| - 1], host, o, n);
      assert log[..|log| - 1][..n] == log[..n];
    } else {
      assert log[..n] == log;
    }
  }

  /// No job is claimed once shutdown was there to be seen: when one is claimed, the
  /// flag is unset in this turn and in every turn before, and in none of those did
  /// shutdown wake the loop.
  lemma NoClaimAfterShutdown(log: seq<Event>, host: Host, o: Options, i: nat)
    requires Orderly(log, host, o) && i < |log| && log[i].Claimed?
    ensures !host.shutdown(Turn(log[..i]))
    ensures forall turn: nat | turn < Turn(log[..i]) :: !host.shutdown(turn) && !host.wakes(turn).ShutdownSeen?
  {
    OrderlyPrefix(log, host, o, i + 1);
    var upTo := log[..i + 1];
    assert upTo[..i] == log[..i] && upTo[i] == log[i];
    forall turn: nat | turn < Turn(log[..i]) ensures !host.shutdown(turn) && !host.wakes(turn).ShutdownSeen? {
      PassedTurnsWereNot(log[..i], host, o, turn);
    }
  }

  /// A turn that is over before shutdown was seen was ended by something else.
  lemma {:induction false} PassedTurnsWereNot(log: seq<Event>, host: Host, o: Options, turn: nat)
    requires Orderly(log, host, o) && SawShutdown !in log && turn < Turn(log)
    ensures !host.shutdown(turn) && !host.wakes(turn).ShutdownSeen?
  {
    var before := log[..|log| - 1];
    assert SawShutdown !in before;
    if turn < Turn(before) {
      PassedTurnsWereNot(before, host, o, turn);
    }
  }

  function Claims(log: seq<Event>): nat
  {
    if log == [] then 0 else Claims(log[..|log| - 1]) + if log[|log| - 1].Claimed? then 1 else 0
  }

  function Ends(log: seq<Event>): nat
  {
    if log == [] then 0 else Ends(log[..|log| - 1]) + if log[|log| - 1].Ended? then 1 else 0
  }

  /// Every claimed job is either running or has ended once.
  lemma {:induction false} ClaimsAreAccountedFor(log: seq<Event>, host: Host, o: Options)
    requires Orderly(log, host, o)
    ensures Claims(log) == |Running(log)| + Ends(log) && Completed(log) <= Ends(log)
  {
    if log != [] {
      ClaimsAreAccountedFor(log[..|log| - 1], host, o);
    }
  }

  lemma OneMore(log: seq<Event>, e: Event)
    ensures (log + [e])[..|log|] == log && (log + [e])[|log|] == e
  {
  }

  /// How a loop that finishes leaves things: every claimed job has ended, within the
  /// limit, and it stopped for shutdown or after exactly as many jobs as it may do;
  /// the last health says that nothing runs.
  ghost predicate Finishes(log: seq<Event>, o: Options, completed: nat)
  {
    && completed == Completed(log) && Running(log) == [] && Claims(log) == Ends(log)
    && (o.maxJobs.Some? ==> completed <= o.maxJobs.value)
    && (SawShutdown in log || o.maxJobs == Some(completed))
    && log != [] && log[|log| - 1] == Health(0, LastRun(log))
  }

  lemma SameRoom(log: seq<Event>, health: Event, o: Options)
    requires health.Health?
    ensures Room(log + [health], o) <==> Room(log, o)
  {
    OneMore(log, health);
  }

  // ----- The loop -----

  class Server {
    const host: Host
    const o: Options
    var completed: nat
    var active: nat
    var lastRunId: Option<string>
    var jobs: seq<nat>
    var asked: nat
    var turns: nat
    var health: nat
    var log: seq<Event>

    constructor (host: Host, o: Options)
      ensures this.host == host && this.o == o && Valid() && log == []
    {
      this.host, this.o := host, o;
      completed, active, lastRunId, jobs := 0, 0, None, [];
      asked, turns, health, log := 0, 0, 0, [];
    }

    /// The counters agree with what happened, and the bounds hold.
    ghost predicate Valid()
      reads this
    {
      && Orderly(log, host, o) && turns == Turn(log) && jobs == Running(log) && active == |jobs|
      && completed == Completed(log) && Within(o, completed, active)
      && lastRunId == LastRun(log) && asked == Asks(log)
    }

    method WriteHealth() returns (ok: bool)
      requires Valid()
      modifies this`health, this`log
      ensures Valid() && health == old(health) + 1 && ok == host.healthWritten(old(health))
      ensures log == if ok then old(log) + [Health(active, lastRunId)] else old(log)
      ensures ok ==> !HealthOwed(log) && log != [] && !log[|log| - 1].NoneLeft?
    {
      OneMore(log, Health(active, lastRunId));
      hide Removed;
      ok := host.healthWritten(health);
      health := health + 1;
      if ok {
        log := log + [Health(active, lastRunId)];
      }
    }

    /// The join of one job, whichever ends first.
    method Join() returns (end: JobEnd)
      requires Valid() && jobs != [] && !HealthOwed(log)
      requires SawShutdown in log || (!host.shutdown(turns) && host.wakes(turns).JobEnded? && Settled(log, o))
      modifies this`completed, this`active, this`lastRunId, this`jobs, this`turns, this`log
      ensures Valid() && active == old(active) - 1 && turns == old(turns) + 1
      ensures log == old(log) + [Ended(host.joins(old(turns)).pick, end)] && end == host.joins(old(turns)).end
    {
      var joined := host.joins(turns);
      OneMore(log, Ended(joined.pick, joined.end));
      hide Removed, Settled, HealthOwed;
      log := log + [Ended(joined.pick, joined.end)];
      turns := turns + 1;
      jobs := Removed(jobs, joined.pick);
      active := active - 1;
      end := joined.end;
      match end {
        case Served(id) =>
          completed := completed + 1;
          lastRunId := Some(id);
        case Requeued =>
        case Errored => completed := completed + 1;
      }
    }

    /// Claims jobs until there is no room for more or no more is offered.
    method ClaimJobs() returns (ok: bool)
      requires Valid() && SawShutdown !in log && !host.shutdown(turns) && !HealthOwed(log)
      requires log != [] && !log[|log| - 1].NoneLeft?
      modifies this`active, this`jobs, this`asked, this`log
      ensures Valid() && SawShutdown !in log && !HealthOwed(log)
      ensures log != [] && (ok ==> !Room(log, o) || log[|log| - 1].NoneLeft?)
      ensures !ok ==> host.offers(asked).ClaimFailed?
    {
      hide Orderly, Running, Completed, LastRun, Turn, Asks, HealthOwed;
      ok := true;
      while active < o.concurrency && (o.maxJobs.None? || completed + active < o.maxJobs.value)
        invariant Valid() && SawShutdown !in log && !HealthOwed(log)
        invariant log != [] && !log[|log| - 1].NoneLeft?
        decreases o.concurrency - active
      {
        var offer := host.offers(asked);
        if offer.NoJob? {
          NoteNoneLeft();
          return true;
        } else if offer.ClaimFailed? {
          return false;
        }
        ClaimOne();
      }
    }

    /// A claimed job is spawned.
    method ClaimOne()
      requires log != [] && Valid() && host.offers(asked).Job? && Asking(log, host, o, asked) && !HealthOwed(log)
      modifies this`active, this`jobs, this`asked, this`log
      ensures Valid() && active == old(active) + 1 && log == old(log) + [Claimed(old(asked))] && !HealthOwed(log)
    {
      OneMore(log, Claimed(asked));
      log := log + [Claimed(asked)];
      jobs := jobs + [asked];
      active, asked := active + 1, asked + 1;
    }

    method NoteNoneLeft()
      requires log != [] && Valid() && host.offers(asked).NoJob? && Asking(log, host, o, asked) && !HealthOwed(log)
      modifies this`asked, this`log
      ensures Valid() && log == old(log) + [NoneLeft(old(asked))] && !HealthOwed(log)
    {
      OneMore(log, NoneLeft(asked));
      hide Removed;
      log := log + [NoneLeft(asked)];
      asked := asked + 1;
    }

    method NoteShutdown()
      requires log != [] && Valid() && SawShutdown !in log && !HealthOwed(log)
      requires host.shutdown(turns) || (host.wakes(turns).ShutdownSeen? && Settled(log, o))
      modifies this`log
      ensures Valid() && log == old(log) + [SawShutdown]
    {
      OneMore(log, SawShutdown);
      hide Removed, Settled, HealthOwed;
      log := log + [SawShutdown];
    }

    method Tick()
      requires Valid() && SawShutdown !in log && !host.shutdown(turns) && !host.wakes(turns).ShutdownSeen?
      requires Settled(log, o)
      modifies this`log, this`turns
      ensures Valid() && log == old(log) + [Ticked] && turns == old(turns) + 1
    {
      OneMore(log, Ticked);
      hide Removed;
      log := log + [Ticked];
      turns := turns + 1;
    }

    /// The loop waits for the timer, for shutdown, and for a task when one runs.
    method WakeUp() returns (ok: bool, stopping: bool)
      requires Valid() && SawShutdown !in log && !host.shutdown(turns) && Settled(log, o)
      modifies this
      ensures Valid() && (stopping <==> SawShutdown in log) && (ok ==> !HealthOwed(log))
      ensures log != [] && !log[|log| - 1].NoneLeft?
      ensures !stopping ==> turns == old(turns) + 1
      ensures !ok ==> health > 0 && !host.healthWritten(health - 1)
    {
      hide Removed, Orderly, Running, Completed, LastRun, Turn, Asks;
      ok, stopping := true, false;
      var wake := host.wakes(turns);
      if wake.ShutdownSeen? {
        stopping := true;
        NoteShutdown();
      } else if wake.JobEnded? && active > 0 {
        var jobEnd := Join();
        if !jobEnd.Requeued? {
          ok := WriteHealth();
        }
      } else {
        Tick();
      }
    }

    /// The jobs still running when shutdown is seen are all joined, and none is
    /// claimed.
    method Drain()
      requires Valid() && SawShutdown in log
      modifies this`completed, this`active, this`lastRunId, this`jobs, this`turns, this`log
      ensures Valid() && jobs == [] && SawShutdown in log && Claims(log) == old(Claims(log))
    {
      hide Orderly, Running, Completed, LastRun, Turn, Asks, Settled;
      while jobs != []
        invariant Valid() && SawShutdown in log && Claims(log) == old(Claims(log))
        decreases |jobs|
      {
        ghost var before := log;
        var end := Join();
        OneMore(before, log[|before|]);
      }
    }

    /// One turn of the loop; it is the last one when shutdown is seen, or when all
    /// jobs are done and none runs.
    method OneTurn() returns (ok: bool, last: bool, stopping: bool)
      requires Valid() && SawShutdown !in log && !HealthOwed(log) && log != [] && !log[|log| - 1].NoneLeft?
      modifies this
      ensures Valid() && (stopping <==> SawShutdown in log) && (stopping ==> last)
      ensures ok ==> !HealthOwed(log) && log != [] && !log[|log| - 1].NoneLeft?
      ensures last && !stopping ==> active == 0 && o.maxJobs == Some(completed)
      ensures !last && ok ==> turns == old(turns) + 1
      ensures !ok ==> (health > 0 && !host.healthWritten(health - 1)) || host.offers(asked).ClaimFailed?
    {
      hide Removed, Orderly, Running, Completed, LastRun, Turn, Asks;
      ok, last, stopping := true, false, false;
      if host.shutdown(turns) {
        NoteShutdown();
        return true, true, true;
      }
      if o.maxJobs.Some? && completed + active >= o.maxJobs.value && active == 0 {
        return true, true, false;
      }
      ok := ClaimJobs();
      if !ok {
        return;
      }
      SameRoom(log, Health(active, lastRunId), o);
      ok := WriteHealth();
      if !ok {
        return;
      }
      if o.maxJobs.Some? && completed >= o.maxJobs.value && active == 0 {
        return true, true, false;
      }
      ok, stopping := WakeUp();
      last := stopping;
    }

    /// A stop for shutdown lets the claimed jobs finish; any other has none left. The
    /// last health shows that.
    method Stop(stopping: bool) returns (end: ServeEnd)
      requires Valid() && (stopping <==> SawShutdown in log)
      requires !stopping ==> active == 0 && o.maxJobs == Some(completed)
      modifies this
      ensures Orderly(log, host, o) && !end.StillServing?
      ensures end.Finished? ==> Finishes(log, o, end.completed)
      ensures end.ServeFailed? ==> health > 0 && !host.healthWritten(health - 1)
    {
      hide Removed, Orderly, Running, Completed, LastRun, Claims, Ends, Turn, Asks;
      if stopping {
        Drain();
      }
      ghost var before := log;
      var ok := WriteHealth();
      if !ok {
        return ServeFailed;
      }
      ClaimsAreAccountedFor(log, host, o);
      end := Finished(completed);
    }

    /// `polls` bounds how long the loop is watched. The log is orderly whatever
    /// happens. The loop finishes only with no job unjoined, and then it has seen
    /// shutdown where it was, or done exactly as many jobs as it may; it is still
    /// serving only after as many turns as it was watched; and it fails only when a
    /// claim or a health write did.
    method RunUntilShutdown(polls: nat) returns (end: ServeEnd)
      requires Valid() && log == []
      modifies this
      ensures Orderly(log, host, o)
      ensures end.Finished? ==> Finishes(log, o, end.completed)
      ensures end.StillServing? ==> Turn(log) == polls && SawShutdown !in log
      ensures end.ServeFailed? ==>
                (health > 0 && !host.healthWritten(health - 1)) || host.offers(asked).ClaimFailed?
    {
      assert turns == 0;
      hide Removed, Orderly, Running, Completed, LastRun, Claims, Ends, Turn, Within, Asks, Finishes, HealthOwed;
      var last, stopping := false, false;
      var ok := WriteHealth();
      if !ok {
        return ServeFailed;
      }
      while !last
        invariant Valid() && (stopping <==> SawShutdown in log) && (!last ==> turns <= polls)
        invariant !HealthOwed(log) && log != [] && !log[|log| - 1].NoneLeft?
        invariant !last ==> !stopping
        invariant last && !stopping ==> active == 0 && o.maxJobs == Some(completed)
        decreases if last then 0 else 1 + polls - turns
      {
        if turns == polls {
          return StillServing;
        }
        ok, last, stopping := OneTurn();
        if !ok {
          return ServeFailed;
        }
      }
      end := Stop(stopping);
    }
  }
}
