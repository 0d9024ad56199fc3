/// The background run of the MCP host: one run at a time, and callers that wait
/// for it. Every region under the lock is one step; steps of the starter, of the
/// run's task and of any number of waiters interleave freely.
///
/// A watch receiver sees a change when its version is behind; seeing it makes
/// the version current.
module BackgroundRun {
  import opened Wrappers

  datatype Phase = Idle | Running | Finished

  datatype RunResult = Summary(text: string) | Failed(error: string)

  /// Where a caller of `wait` is. `observed` is the number of the run it found
  /// running when it first looked.
  datatype Waiter =
    | Subscribed(seen: nat)
    | Waiting(seen: nat, observed: nat)
    | Woken(seen: nat, observed: nat)
    | Reporting(observed: nat)
    | Reported(observed: nat, phase: Phase, result: Option<RunResult>)
    | NoRun
    | TimedOut

  /// `run` numbers the runs started so far and `results` remembers how each
  /// ended; `spawning` and `executing` count tasks about to be spawned and live.
  datatype State = State(phase: Phase, events: seq<string>, result: Option<RunResult>, version: nat,
                         spawning: nat, executing: nat, run: nat, results: map<nat, RunResult>,
                         waiters: map<nat, Waiter>)

  datatype Step =
    | Start
    | Spawn
    | Finish(lines: seq<string>, outcome: RunResult)
    | Subscribe(w: nat)
    | Observe(w: nat)
    | SeeChange(w: nat)
    | LookAgain(w: nat)
    | Report(w: nat)
    | GiveUp(w: nat)

  const Fresh := State(Idle, [], None, 0, 0, 0, 0, map[], map[])

  predicate Enabled(s: State, step: Step)
  {
    match step
    case Start => true
    case Spawn => s.spawning > 0
    case Finish(_, _) => s.executing > 0
    case Subscribe(w) => w !in s.waiters
    case Observe(w) => w in s.waiters && s.waiters[w].Subscribed?
    case SeeChange(w) => w in s.waiters && s.waiters[w].Waiting? && s.waiters[w].seen < s.version
    case LookAgain(w) => w in s.waiters && s.waiters[w].Woken?
    case Report(w) => w in s.waiters && s.waiters[w].Reporting?
    case GiveUp(w) => w in s.waiters && (s.waiters[w].Waiting? || s.waiters[w].Woken?)
  }

  function Started(s: State): State
  {
    if s.phase.Running? then s
    else s.(phase := Running, events := ["status=starting"], result := None, version := s.version + 1,
            spawning := s.spawning + 1, run := s.run + 1)
  }

  function Ended(s: State, lines: seq<string>, outcome: RunResult): State
    requires s.executing > 0
  {
    s.(phase := Finished, events := s.events + lines, result := Some(outcome), version := s.version + 1,
       executing := s.executing - 1, results := s.results[s.run := outcome])
  }

  function Next(s: State, step: Step): State
    requires Enabled(s, step)
  {
    match step
    case Start => Started(s)
    case Spawn => s.(spawning := s.spawning - 1, executing := s.executing + 1)
    case Finish(lines, outcome) => Ended(s, lines, outcome)
    case Subscribe(w) => s.(waiters := s.waiters[w := Subscribed(s.version)])
    case Observe(w) =>
      s.(waiters := s.waiters[w := match s.phase
                                   case Idle => NoRun
                                   case Finished => Reporting(s.run)
                                   case Running => Waiting(s.waiters[w].seen, s.run)])
    case SeeChange(w) => s.(waiters := s.waiters[w := Woken(s.version, s.waiters[w].observed)])
    case LookAgain(w) =>
      var waiter := s.waiters[w];
      s.(waiters := s.waiters[w := if s.phase.Finished? then Reporting(waiter.observed)
                                   else Waiting(waiter.seen, waiter.observed)])
    case Report(w) => s.(waiters := s.waiters[w := Reported(s.waiters[w].observed, s.phase, s.result)])
    case GiveUp(w) => s.(waiters := s.waiters[w := TimedOut])
  }

  // ----- Safety of every interleaving -----

  /// The waiter sleeps: the change it waits for has not been published.
  predicate Asleep(s: State, w: nat)
  {
    w in s.waiters && s.waiters[w].Waiting? && s.waiters[w].seen == s.version
  }

  ghost predicate WaiterInv(s: State, waiter: Waiter)
  {
    match waiter
    case Subscribed(seen) => seen <= s.version
    case Waiting(seen, observed) =>
      seen <= s.version && 1 <= observed <= s.run && (s.phase.Finished? ==> seen < s.version)
    case Woken(seen, observed) =>
      seen <= s.version && 1 <= observed <= s.run && (s.phase.Finished? && seen == s.version ==> s.run in s.results)
    case Reporting(observed) => observed in s.results
    case Reported(observed, _, _) => observed in s.results
    case NoRun => true
    case TimedOut => true
  }

  /// Single flight: exactly one task, spawned or about to be, while a run is
  /// running, and none otherwise; a result exactly when it is finished; and how
  /// each run but a running one ended is known.
  ghost predicate Inv(s: State)
  {
    && s.spawning + s.executing == (if s.phase.Running? then 1 else 0)
    && (s.result.Some? <==> s.phase.Finished?)
    && (s.phase.Idle? <==> s.run == 0)
    && (forall r: nat :: r in s.results <==> 1 <= r <= s.run && (r == s.run ==> s.phase.Finished?))
    && (s.phase.Finished? ==> s.result == Some(s.results[s.run]))
    && (forall w | w in s.waiters :: WaiterInv(s, s.waiters[w]))
  }

  ghost predicate Run(s: State, steps: seq<Step>, t: State)
    decreases |steps|
  {
    if steps == [] then s == t else Enabled(s, steps[0]) && Run(Next(s, steps[0]), steps[1..], t)
  }

  lemma StepKeepsInv(s: State, step: Step)
    requires Inv(s) && Enabled(s, step)
    ensures Inv(Next(s, step))
  {
    var t := Next(s, step);
    assert t.run == s.run || t.run == s.run + 1;
    forall w | w in t.waiters ensures WaiterInv(t, t.waiters[w]) {
      if w in s.waiters && t.waiters[w] == s.waiters[w] {
        assert WaiterInv(s, s.waiters[w]);
      }
    }
  }

  /// At every point of every interleaving the run is single flight, and no waiter
  /// sleeps through the end of a run: while one sleeps, a run is running.
  lemma {:induction false} SingleFlightAndNoMissedCompletion(s: State, steps: seq<Step>, t: State)
    requires Inv(s) && Run(s, steps, t)
    ensures Inv(t)
    ensures forall w | Asleep(t, w) :: t.phase.Running?
    decreases |steps|
  {
    if steps != [] {
      StepKeepsInv(s, steps[0]);
      SingleFlightAndNoMissedCompletion(Next(s, steps[0]), steps[1..], t);
    } else {
      forall w | Asleep(t, w) ensures t.phase.Running? { assert WaiterInv(t, t.waiters[w]); }
    }
  }

  /// The steps that end a run, in order.
  function Ends(steps: seq<Step>): (ends: seq<Step>)
    ensures forall e | e in ends :: e.Finish?
  {
    if steps == [] then [] else (if steps[0].Finish? then [steps[0]] else []) + Ends(steps[1..])
  }

  /// The steps that ended a run account for all results there are, one each, and for
  /// what is published when a run is over: its outcome and the lines it wrote.
  ghost predicate Published(s: State, ends: seq<Step>)
    requires forall e | e in ends :: e.Finish?
  {
    && |ends| == (if s.phase.Running? then s.run - 1 else s.run)
    && (forall r :: r in s.results <==> 1 <= r <= |ends|)
    && (forall k | 0 <= k < |ends| :: s.results[k + 1] == ends[k].outcome)
    && (s.phase.Running? ==> s.events == ["status=starting"])
    && (s.phase.Finished? ==>
          && ends != [] && s.result == Some(ends[|ends| - 1].outcome)
          && s.events == ["status=starting"] + ends[|ends| - 1].lines)
  }

  lemma StepPublishes(s: State, ends: seq<Step>, step: Step)
    requires Inv(s) && Enabled(s, step) && (forall e | e in ends :: e.Finish?) && Published(s, ends)
    ensures Published(Next(s, step), if step.Finish? then ends + [step] else ends)
  {
    var t := Next(s, step);
    if step.Finish? {
      var more := ends + [step];
      assert forall k | 0 <= k < |ends| :: more[k] == ends[k];
      assert s.phase.Running?;
    }
  }

  lemma RunFirst(s: State, steps: seq<Step>, t: State)
    requires Run(s, steps, t)
    ensures if steps == [] then s == t else Enabled(s, steps[0]) && Run(Next(s, steps[0]), steps[1..], t)
  {
  }

  lemma EndsFirst(before: seq<Step>, steps: seq<Step>)
    ensures before + Ends(steps)
         == if steps == [] then before
            else (if steps[0].Finish? then before + [steps[0]] else before) + Ends(steps[1..])
  {
    if steps != [] {
      var first, rest := if steps[0].Finish? then [steps[0]] else [], Ends(steps[1..]);
      assert Ends(steps) == first + rest;
      hide Ends;
      assert before + (first + rest) == (before + first) + rest;
    }
  }

  lemma {:induction false} RunPublishes(s: State, before: seq<Step>, steps: seq<Step>, t: State)
    requires Inv(s) && Run(s, steps, t) && (forall e | e in before :: e.Finish?) && Published(s, before)
    ensures Published(t, before + Ends(steps))
    decreases |steps|
  {
    hide *;
    RunFirst(s, steps, t);
    EndsFirst(before, steps);
    if steps != [] {
      StepKeepsInv(s, steps[0]);
      StepPublishes(s, before, steps[0]);
      RunPublishes(Next(s, steps[0]), if steps[0].Finish? then before + [steps[0]] else before, steps[1..], t);
    }
  }

  /// Over every interleaving as many runs have ended as there were steps that end one,
  /// each with the outcome of its step; and what is published when a run is over is
  /// the outcome of the last of these steps, and the lines it wrote.
  lemma PublishedAsItEnded(steps: seq<Step>, t: State)
    requires Run(Fresh, steps, t)
    ensures Published(t, Ends(steps))
  {
    FreshIsPublished();
    FreshIsSafe();
    hide *;
    RunPublishes(Fresh, [], steps, t);
    assert [] + Ends(steps) == Ends(steps);
  }

  lemma FreshIsPublished()
    ensures Published(Fresh, [])
  {
  }

  lemma FreshIsSafe()
    ensures Inv(Fresh)
  {
  }

  /// A sleeping waiter sleeps although the run it observed has ended exactly when
  /// another run has been started since: it then waits for that one.
  lemma SleepsPastItsRun(s: State, w: nat)
    requires Inv(s) && Asleep(s, w)
    ensures s.waiters[w].observed in s.results <==> s.waiters[w].observed < s.run
  {
    assert WaiterInv(s, s.waiters[w]);
  }

  /// A caller is told that there is no run exactly when none was ever started; it waits
  /// for the run under way, or reports the one that is over.
  lemma FoundAtFirst(s: State, w: nat)
    requires Inv(s) && Enabled(s, Observe(w))
    ensures var waiter := Next(s, Observe(w)).waiters[w];
            && (waiter.NoRun? <==> s.run == 0)
            && (waiter.Waiting? <==> s.run > 0 && s.run !in s.results)
            && (waiter.Reporting? <==> s.run in s.results)
            && (s.run > 0 ==> waiter.observed == s.run)
  {
    assert WaiterInv(s, s.waiters[w]);
  }

  /// A waiter that reports has seen its run end, and it reports that run's result
  /// exactly when no other run has been started since. Otherwise it reports a
  /// later run, which may still be running.
  lemma ReportsItsOwnRun(s: State, w: nat)
    requires Inv(s) && Enabled(s, Report(w))
    ensures var observed, report := s.waiters[w].observed, Next(s, Report(w)).waiters[w];
            && observed in s.results
            && (observed == s.run ==> report.phase.Finished? && report.result == Some(s.results[observed]))
            && (observed < s.run ==> report.phase.Running? || report.result == Some(s.results[s.run]))
  {
    assert WaiterInv(s, s.waiters[w]);
  }

  lemma StepFirst(s: State, step: Step, rest: seq<Step>, t: State)
    requires Enabled(s, step) && Run(Next(s, step), rest, t)
    ensures Run(s, [step] + rest, t)
  {
    assert ([step] + rest)[1..] == rest;
  }

  const OneWaiting := State(Running, ["status=starting"], None, 1, 0, 1, 1, map[], map[0 := Waiting(1, 1)])
  const Overtaken :=
    State(Running, ["status=starting"], None, 3, 1, 0, 2, map[1 := Summary("first")], map[0 := Waiting(3, 1)])

  lemma WaitForTheFirst()
    ensures Run(Fresh, [Start] + ([Spawn] + ([Subscribe(0)] + ([Observe(0)] + []))), OneWaiting)
  {
    var s1 := Next(Fresh, Start);
    var s2 := Next(s1, Spawn);
    var s3 := Next(s2, Subscribe(0));
    assert Next(s3, Observe(0)) == OneWaiting;
    assert Run(OneWaiting, [], OneWaiting);
    hide Run;
    StepFirst(s3, Observe(0), [], OneWaiting);
    StepFirst(s2, Subscribe(0), [Observe(0)] + [], OneWaiting);
    StepFirst(s1, Spawn, [Subscribe(0)] + ([Observe(0)] + []), OneWaiting);
    StepFirst(Fresh, Start, [Spawn] + ([Subscribe(0)] + ([Observe(0)] + [])), OneWaiting);
  }

  lemma RestartBeforeTheLook()
    ensures Run(OneWaiting, [Finish([], Summary("first"))] + ([Start] + ([SeeChange(0)] + ([LookAgain(0)] + []))),
        Overtaken)
  {
    var s1 := Next(OneWaiting, Finish([], Summary("first")));
    var s2 := Next(s1, Start);
    var s3 := Next(s2, SeeChange(0));
    assert Next(s3, LookAgain(0)) == Overtaken;
    assert Run(Overtaken, [], Overtaken);
    hide Run;
    StepFirst(s3, LookAgain(0), [], Overtaken);
    StepFirst(s2, SeeChange(0), [LookAgain(0)] + [], Overtaken);
    StepFirst(s1, Start, [SeeChange(0)] + ([LookAgain(0)] + []), Overtaken);
    StepFirst(OneWaiting, Finish([], Summary("first")), [Start] + ([SeeChange(0)] + ([LookAgain(0)] + [])), Overtaken);
  }

  lemma {:induction false} RunsCompose(s: State, before: seq<Step>, t: State, after: seq<Step>, u: State)
    requires Run(s, before, t) && Run(t, after, u)
    ensures Run(s, before + after, u)
    decreases |before|
  {
    if before == [] {
      assert before + after == after;
    } else {
      RunsCompose(Next(s, before[0]), before[1..], t, after, u);
      assert before + after == [before[0]] + (before[1..] + after);
      StepFirst(s, before[0], before[1..] + after, u);
    }
  }

  /// The interleaving in which a waiter sleeps on although its run has ended: the
  /// next run is started before the waiter looks.
  lemma RestartHidesCompletion()
    ensures exists steps: seq<Step>, t: State ::
        Run(Fresh, steps, t) && Asleep(t, 0) && t.waiters[0].observed in t.results
  {
    hide Run;
    var before := [Start] + ([Spawn] + ([Subscribe(0)] + ([Observe(0)] + [])));
    var after := [Finish([], Summary("first"))] + ([Start] + ([SeeChange(0)] + ([LookAgain(0)] + [])));
    WaitForTheFirst();
    RestartBeforeTheLook();
    RunsCompose(Fresh, before, OneWaiting, after, Overtaken);
    var steps := before + after;
    assert Run(Fresh, steps, Overtaken);
    assert Asleep(Overtaken, 0) && Overtaken.waiters[0].observed in Overtaken.results;
  }

  // ----- The steps in place -----

  class Lifecycle {
    var phase: Phase
    var events: seq<string>
    var result: Option<RunResult>
    var version: nat
    ghost var waiters: map<nat, Waiter>
    ghost var spawning: nat
    ghost var executing: nat
    ghost var run: nat
    ghost var results: map<nat, RunResult>

    ghost function Now(): State
      reads this
    {
      State(phase, events, result, version, spawning, executing, run, results, waiters)
    }

    constructor ()
      ensures Now() == Fresh && Inv(Now())
    {
      phase, events, result, version, waiters := Idle, [], None, 0, map[];
      spawning, executing, run, results := 0, 0, 0, map[];
    }

    /// Under the lock: refuse while a run is running, else begin the next one.
    method StartRun() returns (accepted: bool)
      requires Inv(Now())
      modifies this
      ensures Inv(Now()) && Now() == Started(old(Now()))
      ensures accepted <==> !old(phase).Running?
    {
      StepKeepsInv(Now(), Start);
      if phase.Running? {
        return false;
      }
      phase, events, result := Running, ["status=starting"], None;
      version := version + 1;
      spawning, run := spawning + 1, run + 1;
      accepted := true;
    }

    /// Under the lock, when a run is over: publish how it ended.
    method FinishRun(lines: seq<string>, outcome: RunResult)
      requires Inv(Now()) && executing > 0
      modifies this
      ensures Inv(Now()) && Now() == Ended(old(Now()), lines, outcome)
    {
      StepKeepsInv(Now(), Finish(lines, outcome));
      events := events + lines;
      phase, result := Finished, Some(outcome);
      version := version + 1;
      executing, results := executing - 1, results[run := outcome];
    }
  }
}
