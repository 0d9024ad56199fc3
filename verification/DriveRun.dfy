/// Running one claim's work under its lease: poll the run, renew the lease in
/// time, and stop the run when the lease is lost or shutdown is seen.
module DriveRun {
  import opened Wrappers
  import opened LeaseTiming
  import opened ClaimPort
  import opened FencedRetryProofs
  import FencedRetryExact

  /// `Unfinished` is a run observed for a bounded number of rounds only.
  datatype DriveEnd = RunOver(end: RunEnd) | LostFence(error: PlaneError) | Stopped | Unfinished

  function EndIn(wake: Wake): Option<RunEnd>
  {
    if wake.RunEnded? then Some(wake.end) else None
  }

  /// The run future is polled together with the heartbeat timer and the
  /// shutdown flag, until one of them is ready.
  function SelectRun(m: Adversary, s: Wire, o: Options): (Wire, Wake)
  {
    var sleep := NextHeartbeat(s.validUntil, s.now, o.heartbeatInterval);
    var woken := !m(s.pos).wake.TimerFired? && m(s.pos).latency <= sleep;
    var until := s.now + if woken then m(s.pos).latency else sleep;
    var wake := if woken then m(s.pos).wake else TimerFired;
    (s.(now := until, pos := s.pos + 1, log := s.log + [Polled(s.now, until, s.validUntil, EndIn(wake))]), wake)
  }

  function DrainAfterFenceLoss(m: Adversary, s: Wire, o: Options): Wire
  {
    var until := s.now + Min(m(s.pos).latency, FenceLossGrace(o.heartbeatInterval));
    s.(now := until, pos := s.pos + 1, log := s.log + [DrainedAfterFenceLoss(s.now, until, s.validUntil)])
  }

  function DrainOnShutdown(m: Adversary, s: Wire, o: Options): Wire
  {
    var window := ClaimCallWindow(s.validUntil, s.now, o.heartbeatInterval);
    var until := s.now + Min(m(s.pos).latency, if window.Some? then window.value else 0);
    s.(now := until, pos := s.pos + 1, log := s.log + [DrainedOnShutdown(s.now, until, s.validUntil)])
  }

  /// Renew the lease, or fail closed; None when the lease was renewed.
  function HeartbeatOrFail(m: Adversary, s: Wire, o: Options): (Wire, Option<DriveEnd>)
  {
    var window := ClaimCallWindow(s.validUntil, s.now, o.heartbeatInterval);
    if window.None? then (DrainAfterFenceLoss(m, s, o), Some(LostFence(FenceLost(NoSafeTime)))) else
    var (t, renewal) := Renew(m, s, window.value, o.claimTtl);
    match renewal
    case Granted(_) => (t, None)
    case RenewalRefused(error) => (DrainAfterFenceLoss(m, t, o), Some(LostFence(error)))
    case RenewalNoReply => (DrainAfterFenceLoss(m, t, o), Some(LostFence(FenceLost(HeartbeatDeadline))))
  }

  /// One turn of the select loop; None when the loop goes on.
  function Round(m: Adversary, s: Wire, o: Options): (Wire, Option<DriveEnd>)
  {
    var (s1, wake) := SelectRun(m, s, o);
    match wake
    case RunEnded(end) => (s1, Some(RunOver(end)))
    case ShutdownSeen => (DrainOnShutdown(m, s1, o), Some(Stopped))
    case TimerFired => HeartbeatOrFail(m, s1, o)
  }

  function Drive(m: Adversary, s: Wire, o: Options, rounds: nat): (Wire, DriveEnd)
    decreases rounds
  {
    if rounds == 0 then (s, Unfinished) else
    var (s1, end) := Round(m, s, o);
    match end
    case Some(e) => (s1, e)
    case None => Drive(m, s1, o, rounds - 1)
  }

  // ----- The loop -----

  method DriveClaimedRun(host: Host, claim: PlaneClaim, o: Options, rounds: nat) returns (end: DriveEnd)
    modifies host`now, host`pos, host`log, claim
    ensures (host.On(claim), end) == Drive(host.moves, old(host.On(claim)), o, rounds)
  {
    for left := rounds downto 0
      invariant Drive(host.moves, host.On(claim), o, left) == Drive(host.moves, old(host.On(claim)), o, rounds)
    {
      var ended := SelectOnce(host, claim, o);
      if ended.Some? {
        return ended.value;
      }
    }
    return Unfinished;
  }

  method SelectOnce(host: Host, claim: PlaneClaim, o: Options) returns (ended: Option<DriveEnd>)
    modifies host`now, host`pos, host`log, claim
    ensures (host.On(claim), ended) == Round(host.moves, old(host.On(claim)), o)
  {
    var wake := Select(host, claim, o);
    match wake {
      case RunEnded(end) => return Some(RunOver(end));
      case ShutdownSeen =>
        CancelAndDrainOnShutdown(host, claim, o);
        return Some(Stopped);
      case TimerFired =>
    }
    var window := ClaimCallWindow(claim.validUntil, host.now, o.heartbeatInterval);
    if window.None? {
      FailClosedAfterFenceLoss(host, claim, o);
      return Some(LostFence(FenceLost(NoSafeTime)));
    }
    var renewal := host.CallHeartbeat(claim, window.value, o.claimTtl);
    match renewal {
      case Granted(validUntil) =>
        claim.validUntil := validUntil;
        return None;
      case RenewalRefused(error) =>
        FailClosedAfterFenceLoss(host, claim, o);
        return Some(LostFence(error));
      case RenewalNoReply =>
        FailClosedAfterFenceLoss(host, claim, o);
        return Some(LostFence(FenceLost(HeartbeatDeadline)));
    }
  }

  method Select(host: Host, claim: PlaneClaim, o: Options) returns (wake: Wake)
    modifies host`now, host`pos, host`log
    ensures (host.On(claim), wake) == SelectRun(host.moves, old(host.On(claim)), o)
  {
    var sleep := NextHeartbeat(claim.validUntil, host.now, o.heartbeatInterval);
    var move := host.moves(host.pos);
    wake := if move.latency <= sleep then move.wake else TimerFired;
    var until := host.now + if wake.TimerFired? then sleep else move.latency;
    host.log := host.log + [Polled(host.now, until, claim.validUntil, EndIn(wake))];
    host.now, host.pos := until, host.pos + 1;
  }

  method CancelAndDrainOnShutdown(host: Host, claim: PlaneClaim, o: Options)
    modifies host`now, host`pos, host`log
    ensures host.On(claim) == DrainOnShutdown(host.moves, old(host.On(claim)), o)
  {
    var window := ClaimCallWindow(claim.validUntil, host.now, o.heartbeatInterval);
    var grace := match window case Some(w) => w case None => 0;
    var until := host.now + Min(host.moves(host.pos).latency, grace);
    host.log := host.log + [DrainedOnShutdown(host.now, until, claim.validUntil)];
    host.now, host.pos := until, host.pos + 1;
  }

  method FailClosedAfterFenceLoss(host: Host, claim: PlaneClaim, o: Options)
    modifies host`now, host`pos, host`log
    ensures host.On(claim) == DrainAfterFenceLoss(host.moves, old(host.On(claim)), o)
  {
    var until := host.now + Min(host.moves(host.pos).latency, FenceLossGrace(o.heartbeatInterval));
    host.log := host.log + [DrainedAfterFenceLoss(host.now, until, claim.validUntil)];
    host.now, host.pos := until, host.pos + 1;
  }

  // ----- What a run keeps -----

  predicate Drained(e: Event) { e.DrainedOnShutdown? || e.DrainedAfterFenceLoss? }

  /// The events of a driven run: it is polled, its lease is renewed, and it is
  /// drained at most once, at the end. No fenced call is dispatched. Each further
  /// poll comes right after a granted renewal.
  ghost predicate DriveEvents(log: seq<Event>, from: nat)
  {
    forall i | from <= i < |log| ::
      && (log[i].Polled? || log[i].Renewed? || Drained(log[i]))
      && (Drained(log[i]) ==> i == |log| - 1)
      && (log[i].Polled? && i > from ==> log[i - 1].Renewed? && log[i - 1].renewal.Granted?)
      && (log[i].Renewed? ==> i > from && log[i - 1].Polled?)
      && (log[i].Polled? && log[i].ended.Some? ==> i == |log| - 1)
  }

  /// How a drive ended is what its last events say.
  ghost predicate EndShown(log: seq<Event>, from: nat, end: DriveEnd)
  {
    && (end.RunOver? ==> from < |log| && log[|log| - 1].Polled? && log[|log| - 1].ended == Some(end.end))
    && (end.Stopped? <==> from < |log| && log[|log| - 1].DrainedOnShutdown?)
    && (end.LostFence? <==> from < |log| && log[|log| - 1].DrainedAfterFenceLoss?)
    && (end.LostFence? ==>
          && from + 1 < |log|
          && var before := log[|log| - 2];
             if before.Polled? then
               // lost by the host's own clock: the lease had 40 ms or less at the top of the round
               end.error == FenceLost(NoSafeTime) && before.deadline <= before.at + 2 * NO_SAFE_TIME
             else
               before.Renewed?
               && !before.renewal.Granted?
               && end.error
                  == if before.renewal.RenewalRefused? then before.renewal.error else FenceLost(HeartbeatDeadline))
  }

  lemma SelectKeeps(m: Adversary, s: Wire, o: Options)
    ensures var t := SelectRun(m, s, o).0;
            && OneMore(s, t) && t.log[|s.log|].Polled?
            && t.log[|s.log|].ended == EndIn(SelectRun(m, s, o).1)
            && (LeaseSafe(s) ==> LeaseSafe(t))
            && (SelectRun(m, s, o).1.TimerFired? ==>
                  ClaimCallWindow(t.validUntil, t.now, o.heartbeatInterval).Some?
                  || s.validUntil <= s.now + 2 * NO_SAFE_TIME)
  {
    HeartbeatIsReachedInTime(s.validUntil, s.now, o.heartbeatInterval, o.heartbeatInterval);
    if LeaseSafe(s) { OneMoreIsSafe(s, SelectRun(m, s, o).0); }
  }

  /// A run that needs `need` to clean up is not cut short after its fence was lost
  /// exactly when that is at most 50 ms, or at most the interval and five seconds.
  /// Nor is it on shutdown when the interval is as long and the lease a quarter
  /// second longer; without safe time on its lease it gets no time at all.
  lemma DrainKeeps(m: Adversary, s: Wire, o: Options)
    ensures var need, took := m(s.pos).latency, DrainAfterFenceLoss(m, s, o).now - s.now;
            && (took == need <==> need <= 50 * MS || (need <= o.heartbeatInterval && need <= 5 * SEC))
            && (took != need ==> took == 5 * SEC || took == 50 * MS || took == o.heartbeatInterval)
    ensures var need, took := m(s.pos).latency, DrainOnShutdown(m, s, o).now - s.now;
            && 0 <= took <= need
            && (need <= o.heartbeatInterval && s.now + need + 250 * MS <= s.validUntil ==> took == need)
            && (took < need && s.now + NO_SAFE_TIME < s.validUntil ==>
                  took == o.heartbeatInterval || s.now + took + 250 * MS >= s.validUntil)
            && (s.validUntil <= s.now + NO_SAFE_TIME ==> took == 0)
    ensures OneMore(s, DrainAfterFenceLoss(m, s, o)) && DrainAfterFenceLoss(m, s, o).log[|s.log|].DrainedAfterFenceLoss?
    ensures OneMore(s, DrainOnShutdown(m, s, o)) && DrainOnShutdown(m, s, o).log[|s.log|].DrainedOnShutdown?
    ensures LeaseSafe(s) ==> LeaseSafe(DrainAfterFenceLoss(m, s, o)) && LeaseSafe(DrainOnShutdown(m, s, o))
  {
    WindowKeepsMargin(s.validUntil, s.now, o.heartbeatInterval);
    if LeaseSafe(s) {
      OneMoreIsSafe(s, DrainAfterFenceLoss(m, s, o));
      OneMoreIsSafe(s, DrainOnShutdown(m, s, o));
    }
  }

  /// A heartbeat renews the lease and goes on, or is followed by the drain.
  lemma HeartbeatKeeps(m: Adversary, s: Wire, o: Options)
    ensures var (t, end) := HeartbeatOrFail(m, s, o);
            && s.log <= t.log
            && (LeaseSafe(s) ==> LeaseSafe(t))
            && (end.None? ==> |t.log| == |s.log| + 1 && t.log[|s.log|].Renewed? && t.log[|s.log|].renewal.Granted?)
            && (end.Some? ==> end.value.LostFence? && |t.log| > |s.log| && t.log[|t.log| - 1].DrainedAfterFenceLoss?)
            && (end.Some? && |t.log| == |s.log| + 1 ==>
                  end.value.error == FenceLost(NoSafeTime)
                  && ClaimCallWindow(s.validUntil, s.now, o.heartbeatInterval).None?)
            && (end.Some? && |t.log| != |s.log| + 1 ==>
                  && |t.log| == |s.log| + 2 && t.log[|s.log|].Renewed? && !t.log[|s.log|].renewal.Granted?
                  && end.value.error == if t.log[|s.log|].renewal.RenewalRefused? then t.log[|s.log|].renewal.error
                                        else FenceLost(HeartbeatDeadline))
  {
    hide LeaseSafe, ClaimCallWindow, Renew, DrainAfterFenceLoss;
    DrainKeeps(m, s, o);
    var window := ClaimCallWindow(s.validUntil, s.now, o.heartbeatInterval);
    if window.Some? {
      RenewKeeps(m, s, o);
      var t := Renew(m, s, window.value, o.claimTtl).0;
      DrainKeeps(m, t, o);
      assert DrainAfterFenceLoss(m, t, o).log[|s.log|] == t.log[|s.log|];
    }
  }

  lemma RoundKeeps(m: Adversary, s: Wire, o: Options)
    ensures var (t, end) := Round(m, s, o);
            && s.log <= t.log
            && |s.log| < |t.log| <= |s.log| + 3
            && s.pos < t.pos
            && (LeaseSafe(s) ==> LeaseSafe(t))
            && DriveEvents(t.log, |s.log|)
            && t.log[|s.log|].Polled? && t.log[|s.log|].at == s.now && t.log[|s.log|].deadline == s.validUntil
            && (end.Some? ==> end.value != Unfinished && EndShown(t.log, |s.log|, end.value))
            && (end == Some(Stopped) ==> t.pos == s.pos + 2 && m(s.pos).wake.ShutdownSeen?)
            && (end.None? ==> |t.log| == |s.log| + 2 && AllRenewed(t.log, |s.log|))
  {
    hide LeaseSafe, ClaimCallWindow, SelectRun, HeartbeatOrFail, DrainOnShutdown;
    SelectKeeps(m, s, o);
    SelectWoke(m, s, o);
    var (s1, wake) := SelectRun(m, s, o);
    AnswersMet(m, s1, o);
    DrainKeeps(m, s1, o);
    HeartbeatKeeps(m, s1, o);
    assert Round(m, s, o).0.log[|s.log|] == s1.log[|s.log|];
  }

  lemma SelectWoke(m: Adversary, s: Wire, o: Options)
    ensures var (t, wake) := SelectRun(m, s, o);
            t.pos == s.pos + 1 && (wake.ShutdownSeen? ==> m(s.pos).wake.ShutdownSeen?)
  {
  }

  lemma AnswersMet(m: Adversary, s: Wire, o: Options)
    ensures DrainOnShutdown(m, s, o).pos == s.pos + 1
    ensures HeartbeatOrFail(m, s, o).0.pos > s.pos && |HeartbeatOrFail(m, s, o).0.log| <= |s.log| + 2
  {
  }

  /// Whole-run lease safety, for every adversary and however long the run is
  /// watched: every event is in its lease, no fenced call is made, and a fence
  /// that the host declares lost by its own clock had at most 40 ms left when the
  /// round began. A run stops only when shutdown woke its last round, and it is
  /// unfinished only when every round watched was driven to a granted renewal.
  lemma {:induction false} DriveIsSafe(m: Adversary, s: Wire, o: Options, rounds: nat)
    ensures var (t, end) := Drive(m, s, o, rounds);
            && s.log <= t.log
            && s.pos <= t.pos
            && (LeaseSafe(s) ==> LeaseSafe(t))
            && DriveEvents(t.log, |s.log|)
            && EndShown(t.log, |s.log|, end)
            && (end.Stopped? ==> s.pos <= t.pos - 2 && m(t.pos - 2).wake.ShutdownSeen?)
            && (end.Unfinished? ==> |t.log| == |s.log| + 2 * rounds && AllRenewed(t.log, |s.log|))
            && (!end.Unfinished? ==> |s.log| < |t.log| <= |s.log| + 2 * rounds + 1)
    decreases rounds
  {
    hide LeaseSafe, Round, EndShown, DriveEvents, AllRenewed;
    if rounds > 0 {
      RoundKeeps(m, s, o);
      var (s1, end) := Round(m, s, o);
      if end.None? {
        DriveIsSafe(m, s1, o, rounds - 1);
        var (t, ended) := Drive(m, s1, o, rounds - 1);
        EventsFromLater(s1.log, t.log, |s.log|);
        EndShownFromLater(t.log, |s.log|, |s1.log|, ended);
      }
    } else {
      NotEnded(s.log);
    }
  }

  /// Rounds that went on are part of the drive.
  lemma EventsFromLater(before: seq<Event>, log: seq<Event>, from: nat)
    requires before <= log && |before| == from + 2 && AllRenewed(before, from)
    requires DriveEvents(log, |before|)
    ensures DriveEvents(log, from) && (AllRenewed(log, |before|) ==> AllRenewed(log, from))
    ensures log[|before| - 1] == before[|before| - 1] && before[|before| - 1].Renewed?
  {
    assert before[from] == log[from] && before[from + 1] == log[from + 1];
    assert before[from].Polled? && before[from + 1].Renewed? by {
      assert (from - from) % 2 == 0 && (from + 1 - from) % 2 == 1;
    }
  }

  lemma EndShownFromLater(log: seq<Event>, from: nat, later: nat, end: DriveEnd)
    requires from <= later <= |log| && EndShown(log, later, end)
    requires from < later == |log| ==> !Drained(log[|log| - 1])
    ensures EndShown(log, from, end)
  {
  }

  lemma NotEnded(log: seq<Event>)
    ensures EndShown(log, |log|, Unfinished) && DriveEvents(log, |log|) && AllRenewed(log, |log|)
  {
  }

  /// Nothing but rounds: a poll, then a granted renewal, and so on.
  ghost predicate AllRenewed(log: seq<Event>, from: nat)
  {
    forall i | from <= i < |log| ::
      if (i - from) % 2 == 0 then log[i].Polled? && log[i].ended.None? else log[i].Renewed? && log[i].renewal.Granted?
  }

  /// The run is polled past its deadline exactly in the rounds that began with a
  /// dead lease: the first one when the claim came with one, a later one when the
  /// grant before it had run out on arrival. A poll in a live lease also ends in it.
  lemma PolledInLeaseIffGrantLive(m: Adversary, s: Wire, o: Options, rounds: nat, i: nat)
    requires LeaseSafe(s)
    requires |s.log| <= i < |Drive(m, s, o, rounds).0.log| && Drive(m, s, o, rounds).0.log[i].Polled?
    ensures var log := Drive(m, s, o, rounds).0.log;
            if i == |s.log| then log[i].until < log[i].deadline <==> s.now < s.validUntil
            else
              && log[i - 1].Renewed? && log[i - 1].renewal.Granted?
              && (log[i].until < log[i].deadline <==> log[i - 1].until < log[i - 1].renewal.validUntil)
  {
    DriveIsSafe(m, s, o, rounds);
    FirstEvent(m, s, o, rounds);
    hide Drive;
    var t := Drive(m, s, o, rounds).0;
    assert InLease(t.log[i]);
    assert i > 0 ==> t.log[i].at == t.log[i - 1].until && t.log[i].deadline == NextDeadline(t.log[i - 1]);
  }

  // ----- Exactly how a drive ends -----

  /// What this round met before the heartbeat was due.
  predicate WokenBy(m: Adversary, s: Wire, o: Options, wake: Wake)
  {
    m(s.pos).wake == wake && m(s.pos).latency <= NextHeartbeat(s.validUntil, s.now, o.heartbeatInterval)
  }

  /// The heartbeat that is due in this round can be sent, and is answered in its
  /// window with a grant.
  predicate GoesOn(m: Adversary, s: Wire, o: Options)
  {
    var due := s.now + NextHeartbeat(s.validUntil, s.now, o.heartbeatInterval);
    var window := ClaimCallWindow(s.validUntil, due, o.heartbeatInterval);
    window.Some? && FencedRetryExact.HeartbeatGrants(m, s.pos + 1, window.value)
  }

  /// The round meets neither an end nor shutdown, and its heartbeat is granted.
  ghost predicate Continues(m: Adversary, s: Wire, o: Options)
  {
    !WokenBy(m, s, o, ShutdownSeen) && (forall e :: !WokenBy(m, s, o, RunEnded(e))) && GoesOn(m, s, o)
  }

  function EndOn(wake: Wake): DriveEnd
    requires !wake.TimerFired?
  {
    if wake.RunEnded? then RunOver(wake.end) else Stopped
  }

  lemma RoundEndsExactlyWhen(m: Adversary, s: Wire, o: Options, wake: Wake)
    requires !wake.TimerFired?
    ensures var end := Round(m, s, o).1;
            && (end == Some(EndOn(wake)) <==> WokenBy(m, s, o, wake))
            && (end.None? <==> Continues(m, s, o))
  {
    hide NextHeartbeat, ClaimCallWindow;
  }

  function NextRound(m: Adversary, s: Wire, o: Options): Wire
  {
    Round(m, s, o).0
  }

  /// The first `k` rounds go on, and the next one is woken so.
  ghost predicate WokenAfter(m: Adversary, s: Wire, o: Options, k: nat, wake: Wake)
    decreases k
  {
    if k == 0 then WokenBy(m, s, o, wake)
    else Continues(m, s, o) && WokenAfter(m, NextRound(m, s, o), o, k - 1, wake)
  }

  ghost predicate WokenWithin(m: Adversary, s: Wire, o: Options, rounds: nat, wake: Wake)
  {
    exists k: nat :: k < rounds && WokenAfter(m, s, o, k, wake)
  }

  /// However long it is watched, a drive ends with the end of its run, and with that
  /// one, exactly when the run ends before a heartbeat is due and every heartbeat
  /// before was granted; it stops exactly when shutdown is seen so.
  lemma {:induction false} DriveEndsExactlyWhen(m: Adversary, s: Wire, o: Options, rounds: nat, wake: Wake)
    requires !wake.TimerFired?
    ensures Drive(m, s, o, rounds).1 == EndOn(wake) <==> WokenWithin(m, s, o, rounds, wake)
    decreases rounds
  {
    hide *;
    if rounds == 0 {
      NoRounds(m, s, o, wake);
    } else {
      OneRoundMore(m, s, o, rounds);
      RoundEndsExactlyWhen(m, s, o, wake);
      WokenNowOrLater(m, s, o, rounds, wake);
      WokenEndsRound(m, s, o, wake);
      DriveEndsExactlyWhen(m, NextRound(m, s, o), o, rounds - 1, wake);
    }
  }

  lemma NoRounds(m: Adversary, s: Wire, o: Options, wake: Wake)
    requires !wake.TimerFired?
    ensures Drive(m, s, o, 0).1 != EndOn(wake) && !WokenWithin(m, s, o, 0, wake)
  {
  }

  lemma OneRoundMore(m: Adversary, s: Wire, o: Options, rounds: nat)
    requires rounds > 0
    ensures var end := Round(m, s, o).1;
            Drive(m, s, o, rounds).1 == if end.Some? then end.value else Drive(m, NextRound(m, s, o), o, rounds - 1).1
  {
    hide Round;
  }

  lemma WokenEndsRound(m: Adversary, s: Wire, o: Options, wake: Wake)
    requires !wake.TimerFired?
    ensures WokenBy(m, s, o, wake) ==> !Continues(m, s, o)
  {
  }

  lemma WokenNowOrLater(m: Adversary, s: Wire, o: Options, rounds: nat, wake: Wake)
    requires rounds > 0
    ensures WokenWithin(m, s, o, rounds, wake)
       <==> WokenBy(m, s, o, wake) || (Continues(m, s, o) && WokenWithin(m, NextRound(m, s, o), o, rounds - 1, wake))
  {
    hide WokenBy, Continues, NextRound;
    if WokenBy(m, s, o, wake) {
      assert WokenAfter(m, s, o, 0, wake);
    }
    if k: nat :| k < rounds && WokenAfter(m, s, o, k, wake) {
      assert k > 0 ==> WokenAfter(m, NextRound(m, s, o), o, k - 1, wake);
    }
    if Continues(m, s, o) {
      if k: nat :| k < rounds - 1 && WokenAfter(m, NextRound(m, s, o), o, k, wake) {
        assert WokenAfter(m, s, o, k + 1, wake);
      }
    }
  }

  // ----- When heartbeats are sent -----

  /// The poll there was ended by the heartbeat timer.
  predicate TimerEnded(log: seq<Event>, i: nat)
  {
    i + 1 < |log| && log[i].Polled? && (log[i + 1].Renewed? || log[i + 1].DrainedAfterFenceLoss?)
  }

  /// The timer fires after exactly the heartbeat interval when the lease has two of
  /// them left at the top of the round, after half of what is left otherwise, and at
  /// once in a dead lease; no poll lasts longer. No granted lease is longer than the
  /// one asked for.
  ghost predicate OnSchedule(log: seq<Event>, i: nat, o: Options)
    requires i < |log|
  {
    var e := log[i];
    && (e.Polled? ==> e.until <= e.at + o.heartbeatInterval)
    && (TimerEnded(log, i) ==>
          if e.at + 2 * o.heartbeatInterval <= e.deadline then e.until == e.at + o.heartbeatInterval
          else if e.at < e.deadline then e.deadline - e.at - 1 <= 2 * (e.until - e.at) <= e.deadline - e.at
          else e.until == e.at)
    && (e.Renewed? && e.renewal.Granted? ==> e.renewal.validUntil <= e.at + o.claimTtl)
  }

  lemma SelectOnSchedule(m: Adversary, s: Wire, o: Options)
    ensures var (t, wake) := SelectRun(m, s, o);
            && |t.log| == |s.log| + 1 && s.log <= t.log && t.log[|s.log|].Polled?
            && t.log[|s.log|].at == s.now && t.log[|s.log|].deadline == s.validUntil
            && t.log[|s.log|].until <= s.now + o.heartbeatInterval
            && (wake.TimerFired? ==>
                  t.log[|s.log|].until == s.now + NextHeartbeat(s.validUntil, s.now, o.heartbeatInterval))
  {
  }

  lemma RoundOnSchedule(m: Adversary, s: Wire, o: Options)
    ensures var t := Round(m, s, o).0; s.log <= t.log && forall i | |s.log| <= i < |t.log| :: OnSchedule(t.log, i, o)
  {
    RoundKeeps(m, s, o);
    SelectOnSchedule(m, s, o);
    HeartbeatIsReachedInTime(s.validUntil, s.now, o.heartbeatInterval, o.heartbeatInterval);
    hide SelectRun, NextHeartbeat, ClaimCallWindow, LeaseSafe, DriveEvents, EndShown, AllRenewed;
  }

  /// Over every drive, every heartbeat is sent when it is due.
  lemma {:induction false} HeartbeatsOnSchedule(m: Adversary, s: Wire, o: Options, rounds: nat)
    ensures var t := Drive(m, s, o, rounds).0;
            s.log <= t.log && forall i | |s.log| <= i < |t.log| :: OnSchedule(t.log, i, o)
    decreases rounds
  {
    if rounds > 0 {
      RoundOnSchedule(m, s, o);
      RoundKeeps(m, s, o);
      var (s1, end) := Round(m, s, o);
      if end.None? {
        HeartbeatsOnSchedule(m, s1, o, rounds - 1);
        var t := Drive(m, s1, o, rounds - 1).0;
        hide Round, Drive, LeaseSafe, EndShown;
        assert forall i | |s.log| <= i < |s1.log| :: t.log[i] == s1.log[i];
        assert s1.log[|s1.log| - 1].Renewed?;
      }
    }
  }

  /// So with a live lease at the start and only live grants, the run is never
  /// polled at or after its deadline.
  lemma LiveGrantsKeepTheRunInItsLease(m: Adversary, s: Wire, o: Options, rounds: nat)
    requires LeaseSafe(s) && s.now < s.validUntil
    ensures var t := Drive(m, s, o, rounds).0;
            (forall i | |s.log| <= i < |t.log| && t.log[i].Renewed? && t.log[i].renewal.Granted? ::
               t.log[i].until < t.log[i].renewal.validUntil)
            ==> forall i | |s.log| <= i < |t.log| && t.log[i].Polled? :: t.log[i].until < t.log[i].deadline
  {
    var t := Drive(m, s, o, rounds).0;
    hide Drive, LeaseSafe;
    if forall i | |s.log| <= i < |t.log| && t.log[i].Renewed? && t.log[i].renewal.Granted? ::
         t.log[i].until < t.log[i].renewal.validUntil {
      forall i | |s.log| <= i < |t.log| && t.log[i].Polled? ensures t.log[i].until < t.log[i].deadline {
        PolledInLeaseIffGrantLive(m, s, o, rounds, i);
      }
    }
  }

  lemma FirstEvent(m: Adversary, s: Wire, o: Options, rounds: nat)
    ensures var t := Drive(m, s, o, rounds).0;
            |t.log| > |s.log| ==> t.log[|s.log|].at == s.now && t.log[|s.log|].deadline == s.validUntil
  {
    hide LeaseSafe, Round;
    if rounds > 0 {
      RoundKeeps(m, s, o);
      var (s1, end) := Round(m, s, o);
      DriveIsSafe(m, s1, o, rounds - 1);
    }
  }

  /// A dead grant is possible although the plane granted time: a heartbeat that
  /// takes longer than what it grants. The next round then polls the run once at
  /// or after the deadline and fails closed.
  lemma DeadGrantPollsPastTheDeadline()
    ensures exists m: Adversary, s: Wire, o: Options ::
              && ValidOptions(o) && LeaseSafe(s) && s.now < s.validUntil
              && var (t, end) := Drive(m, s, o, 2);
                 end == LostFence(FenceLost(NoSafeTime))
                 && |t.log| == 4 && t.log[2].Polled? && t.log[2].deadline < t.log[2].at
  {
    var o := Options(200 * MS, 60 * SEC, 20 * SEC, 5);
    var slow := Move(10 * SEC, None, 1 * SEC, TimerFired, false);
    var m: Adversary := pos => slow;
    var s := Wire(0, 0, 60 * SEC, []);
    var (s1, e1) := Round(m, s, o);
    assert e1.None? && s1.log == [Polled(0, 20 * SEC, 60 * SEC, None),
        Renewed(20 * SEC, 30 * SEC, 60 * SEC, Granted(21 * SEC))];
    var (s2, e2) := Round(m, s1, o);
    assert s2.log[2] == Polled(30 * SEC, 30 * SEC, 21 * SEC, None);
    assert Drive(m, s1, o, 1) == (s2, LostFence(FenceLost(NoSafeTime)));
    assert Drive(m, s, o, 2) == (s2, LostFence(FenceLost(NoSafeTime)));
  }
}
