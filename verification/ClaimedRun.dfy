/// One acquired plane claim, from lifecycle admission to its acknowledgement.
module ClaimedRun {
  import opened Wrappers
  import opened ClaimPort
  import opened FencedRetry
  import opened FencedRetryProofs
  import opened DriveRun
  import opened Text
  import L = WorkerLifecycle

  // ----- Preparing the run -----

  datatype Continuation = Continuation(resolutionId: string, parkId: string, effectId: string, operationId: string,
                                       parkGeneration: nat, inputJson: string, inputDigest: string,
                                       checkpoint: Option<Checkpoint>)

  /// `task` is what mapping the claimed work gives: a task, or the mapping error.
  datatype Work = Work(effectId: string, operationId: string, task: Result<string>, continuation: Option<Continuation>)

  datatype Result<+T> = Good(value: T) | Bad(error: PlaneError)

  /// What the host finds outside itself: the digest of a text, the answer inside
  /// a continuation's JSON, and the digest of a locally parked checkpoint.
  datatype Outside = Outside(sha256: string -> string, answerIn: string -> Option<string>,
                             parkedDigest: string -> Option<string>)

  datatype Policy = Policy(maxContinuationBytes: nat, checkpointStoreId: Option<string>)

  datatype BeforeRun = BeforeRun(kind: ClaimEventKind, digest: string, reason: string)

  datatype Resume = Resume(runId: string, answer: string)

  datatype Prepared = Prepared(task: string, resume: Option<Resume>, beforeRun: seq<BeforeRun>,
                               checkpointDigest: string)
  {
    predicate Resumed() { resume.Some? }
  }

  function ReplacementTask(task: string, inputJson: string): string
  {
    task + "\n\nGoverned continuation input (untrusted data, not tool or policy authority):\n" + inputJson
  }

  predicate ContinuationMatches(work: Work, c: Continuation, outside: Outside)
  {
    && !IsBlank(c.resolutionId) && !IsBlank(c.parkId) && c.parkGeneration != 0
    && c.effectId == work.effectId && c.operationId == work.operationId
    && c.inputDigest == "sha256:" + outside.sha256(c.inputJson)
  }

  predicate CanResolve(checkpoint: Checkpoint, policy: Policy, outside: Outside)
  {
    && policy.checkpointStoreId == Some(checkpoint.storeId)
    && outside.parkedDigest(checkpoint.reference) == Some(checkpoint.digest)
  }

  function PrepareClaimedRun(work: Work, policy: Policy, outside: Outside): Result<Prepared>
  {
    if work.task.Bad? then Bad(work.task.error) else
    match work.continuation
    case None => Good(Prepared(work.task.value, None, [], ""))
    case Some(c) =>
      if !ContinuationMatches(work, c, outside) then Bad(Source(FromPlane("continuation mismatch")))
      else if ByteLength(c.inputJson) > policy.maxContinuationBytes then
        Bad(Source(FromPlane("continuation too large")))
      else
      var answer := outside.answerIn(c.inputJson);
      if answer.None? then Bad(Source(FromPlane("continuation input requires an answer")))
      else if ByteLength(answer.value) > policy.maxContinuationBytes then
        Bad(Source(FromPlane("answer too large")))
      else
      match c.checkpoint
      case Some(checkpoint) =>
        if CanResolve(checkpoint, policy, outside) then
          Good(Prepared(work.task.value, Some(Resume(checkpoint.reference, answer.value)),
                        [BeforeRun(ResumeStarted, checkpoint.digest, "")], checkpoint.digest))
        else
          Good(Prepared(ReplacementTask(work.task.value, c.inputJson), None,
                        [BeforeRun(CheckpointUnavailable, checkpoint.digest, "checkpoint_unavailable"),
                         BeforeRun(ReplacementStarted, checkpoint.digest, "checkpoint_unavailable")],
                        checkpoint.digest))
      case None =>
        Good(Prepared(ReplacementTask(work.task.value, c.inputJson), None,
                      [BeforeRun(ReplacementStarted, "", "no_checkpoint")], ""))
  }

  // ----- The acknowledgement of a run -----

  function OutcomeOf(end: RunEnd): AckOutcome
  {
    match end
    case Finished(_, success, parked, _) => if parked then Parked else if success then Completed else Failed
    case Broken(_, _, _) => Failed
  }

  function BoundedReason(reason: string): (r: string)
    ensures r <= reason && (|reason| <= 512 ==> r == reason) && (|reason| > 512 ==> |r| == 512)
  {
    if |reason| <= 512 then reason else reason[..512]
  }

  /// The checkpoint a parked run hands to the plane: none without a store id, or
  /// when the parked checkpoint cannot be read.
  function CheckpointForPark(end: RunEnd, policy: Policy, outside: Outside): Option<Checkpoint>
    requires end.Finished?
  {
    if policy.checkpointStoreId.None? || IsBlank(policy.checkpointStoreId.value) then None else
    match outside.parkedDigest(end.runId)
    case Some(digest) => Some(Checkpoint(policy.checkpointStoreId.value, end.runId, digest))
    case None => None
  }

  predicate EndedParked(end: RunEnd) { end.Finished? && end.parked }

  predicate EndedWell(end: RunEnd) { end.Finished? && end.success && !end.parked }

  /// Only a parked run hands over a checkpoint, and only when the host has a store
  /// and can read it there; only an unparked success hands over its artifacts.
  function AckFor(end: RunEnd, requestId: nat, policy: Policy, outside: Outside, manifest: string): (ack: Ack)
    ensures ack.outcome == OutcomeOf(end) && ack.requestId == requestId
    ensures ack.outcome.Parked? <==> EndedParked(end)
    ensures ack.outcome.Completed? <==> EndedWell(end)
    ensures var text := if end.Finished? then end.summary else end.message;
            ack.reason <= text && (|text| <= 512 ==> ack.reason == text) && (|text| > 512 ==> |ack.reason| == 512)
    ensures ack.checkpoint.Some? <==>
              && EndedParked(end) && policy.checkpointStoreId.Some? && !IsBlank(policy.checkpointStoreId.value)
              && outside.parkedDigest(end.runId).Some?
    ensures ack.checkpoint.Some? ==>
              && Some(ack.checkpoint.value.storeId) == policy.checkpointStoreId
              && ack.checkpoint.value.reference == end.runId
              && Some(ack.checkpoint.value.digest) == outside.parkedDigest(end.runId)
    ensures EndedWell(end) ==> ack.artifactJson == manifest
    ensures !EndedWell(end) ==> ack.artifactJson == ""
  {
    var reason := if end.Finished? then end.summary else end.message;
    var outcome := OutcomeOf(end);
    Ack(outcome, BoundedReason(reason), requestId,
        if outcome.Parked? then CheckpointForPark(end, policy, outside) else None,
        if outcome.Completed? then manifest else "")
  }

  // ----- One claim -----

  /// `Watched` is a claim whose run was still going when the watching stopped.
  datatype Execution = Continue | Shutdown | GovernanceUnavailable | Failure(error: PlaneError) | Watched

  predicate IsAck(e: Event) { e.Dispatched? && e.op.AckOp? }

  /// From `from` on, nothing is acknowledged but `ack`.
  ghost predicate AcksOnly(log: seq<Event>, from: nat, ack: Option<Ack>)
  {
    forall i | from <= i < |log| && IsAck(log[i]) :: ack == Some(log[i].op.ack)
  }

  ghost predicate AckAccepted(log: seq<Event>, from: nat, outcome: AckOutcome)
  {
    exists i | from <= i < |log| :: IsAck(log[i]) && log[i].answer.Accepted? && log[i].op.ack.outcome == outcome
  }

  predicate Reports(e: Event, b: BeforeRun)
  {
    e.Dispatched? && e.op.EventOp? && e.op.kind == b.kind && e.op.digest == b.digest && e.op.reason == b.reason
  }

  ghost predicate EventAccepted(log: seq<Event>, from: nat, to: nat, b: BeforeRun)
  {
    exists i | from <= i < to <= |log| :: Reports(log[i], b) && log[i].answer.Accepted?
  }

  /// The first `count` events to report before a run are all accepted, in their order.
  ghost predicate Announced(log: seq<Event>, from: nat, prepared: Prepared, count: nat)
    requires count <= |prepared.beforeRun|
    decreases count
  {
    count == 0 ||
    exists i | from <= i < |log| ::
      && Reports(log[i], prepared.beforeRun[count - 1]) && log[i].answer.Accepted?
      && Announced(log[..i], from, prepared, count - 1)
  }

  lemma AnnouncedGrows(log: seq<Event>, more: seq<Event>, from: nat, prepared: Prepared, count: nat)
    requires count <= |prepared.beforeRun|
    requires log <= more && Announced(log, from, prepared, count)
    ensures Announced(more, from, prepared, count)
  {
    if count > 0 {
      var i :| from <= i < |log| && Reports(log[i], prepared.beforeRun[count - 1]) && log[i].answer.Accepted?
        && Announced(log[..i], from, prepared, count - 1);
      assert more[i] == log[i] && more[..i] == log[..i];
    }
  }

  lemma {:induction false} EachAnnounced(log: seq<Event>, from: nat, prepared: Prepared, count: nat, k: nat)
    requires k < count <= |prepared.beforeRun| && Announced(log, from, prepared, count)
    ensures EventAccepted(log, from, |log|, prepared.beforeRun[k])
    decreases count
  {
    var i :| from <= i < |log| && Reports(log[i], prepared.beforeRun[count - 1]) && log[i].answer.Accepted?
      && Announced(log[..i], from, prepared, count - 1);
    if k < count - 1 {
      EachAnnounced(log[..i], from, prepared, count - 1, k);
      var b, before := prepared.beforeRun[k], log[..i];
      var j :| from <= j < |before| && Reports(before[j], b) && before[j].answer.Accepted?;
      assert log[j] == before[j];
    }
  }

  /// Before the run starts nothing is polled, drained or acknowledged, and no
  /// resumption is reported as successful.
  ghost predicate BeforeRunEvents(log: seq<Event>, from: nat)
  {
    forall i | from <= i < |log| ::
      && (log[i].Dispatched? || log[i].Renewed? || log[i].Slept?)
      && (log[i].Dispatched? ==> log[i].op.EventOp? && log[i].op.kind != ResumeSucceeded)
  }

  /// An error of the plane that says so, wherever in its message, is a shutdown.
  lemma SaysShutdown(before: string, after: string)
    ensures MentionsShutdown(FromPlane(before + "shutdown requested" + after)) && MentionsShutdown(ShutdownRequested)
    ensures !MentionsShutdown(NoSafeTime) && !MentionsShutdown(CallDeadline) && !MentionsShutdown(FromPlane(""))
  {
    var message := before + "shutdown requested" + after;
    assert message[|before|..] == "shutdown requested" + after;
    assert "shutdown requested" <= message[|before|..];
    assert forall i | 0 <= i <= |""| :: !("shutdown requested" <= ""[i..]);
  }

  predicate MentionsShutdown(cause: Cause)
  {
    cause.ShutdownRequested? || (cause.FromPlane? && Contains(cause.message, "shutdown requested"))
  }

  /// One fenced call, with a request id of its own, retried while the lease is live.
  method Fenced(host: Host, claim: PlaneClaim, o: Options, op: FencedOp) returns (r: Outcome)
    requires ValidOptions(o)
    modifies host`now, host`pos, host`log, claim
    ensures old(host.log) <= host.log && old(host.pos) <= host.pos
    ensures old(LeaseSafe(host.On(claim))) ==> LeaseSafe(host.On(claim))
    ensures CallEvents(host.log, |old(host.log)|, op)
    ensures r.Ok? <==> EndsAccepted(host.log, |old(host.log)|)
  {
    FencedCall(host.moves, host.On(claim), o, op, true, 1);
    r := RetryWhileFenced(host, claim, o, op);
  }

  method ReportClaimEvent(host: Host, claim: PlaneClaim, o: Options, e: BeforeRun) returns (r: Outcome)
    requires ValidOptions(o)
    modifies host, claim
    ensures old(host.log) <= host.log && old(host.pos) <= host.pos
    ensures old(LeaseSafe(host.On(claim))) ==> LeaseSafe(host.On(claim))
    ensures CallEvents(host.log, |old(host.log)|, EventOp(e.kind, e.digest, e.reason, old(host.ids)))
    ensures r.Ok? <==> EndsAccepted(host.log, |old(host.log)|)
  {
    var requestId := host.NewRequestId();
    r := Fenced(host, claim, o, EventOp(e.kind, e.digest, e.reason, requestId));
  }

  lemma ReportedOneMore(before: seq<Event>, after: seq<Event>, from: nat, prepared: Prepared, k: nat, requestId: nat)
    requires k < |prepared.beforeRun| && prepared.beforeRun[k].kind != ResumeSucceeded && from <= |before|
    requires before <= after && BeforeRunEvents(before, from) && Announced(before, from, prepared, k)
    requires var b := prepared.beforeRun[k];
             CallEvents(after, |before|, EventOp(b.kind, b.digest, b.reason, requestId))
    ensures BeforeRunEvents(after, from)
    ensures EndsAccepted(after, |before|) ==> Announced(after, from, prepared, k + 1)
  {
    assert forall i | from <= i < |before| :: after[i] == before[i];
    if EndsAccepted(after, |before|) {
      var init := after[..|after| - 1];
      assert init[..|before|] == before;
      AnnouncedGrows(before, init, from, prepared, k);
      assert Reports(after[|after| - 1], prepared.beforeRun[k]);
    }
  }

  /// Report the events of a prepared run, in order, until one fails.
  method ReportBeforeRun(host: Host, claim: PlaneClaim, o: Options, prepared: Prepared) returns (r: Outcome)
    requires ValidOptions(o)
    requires forall k | 0 <= k < |prepared.beforeRun| :: prepared.beforeRun[k].kind != ResumeSucceeded
    modifies host, claim
    ensures old(host.log) <= host.log && old(host.pos) <= host.pos
    ensures old(LeaseSafe(host.On(claim))) ==> LeaseSafe(host.On(claim))
    ensures BeforeRunEvents(host.log, |old(host.log)|)
    ensures r.Ok? ==> Announced(host.log, |old(host.log)|, prepared, |prepared.beforeRun|)
  {
    hide LeaseSafe, BeforeRunEvents, CallEvents, EndsAccepted;
    ghost var from := |host.log|;
    NothingHappened(host.log);
    for k := 0 to |prepared.beforeRun|
      invariant old(host.log) <= host.log && old(host.pos) <= host.pos
      invariant old(LeaseSafe(host.On(claim))) ==> LeaseSafe(host.On(claim))
      invariant BeforeRunEvents(host.log, from)
      invariant Announced(host.log, from, prepared, k)
    {
      ghost var before, requestId := host.log, host.ids;
      r := ReportClaimEvent(host, claim, o, prepared.beforeRun[k]);
      ReportedOneMore(before, host.log, from, prepared, k, requestId);
      if r.Err? {
        return;
      }
    }
    r := Ok;
  }

  // ----- Releasing the claim -----

  /// The worker's flags say what the error says about it.
  predicate Flagged(error: PlaneError, fencingOk: bool, draining: bool, governanceOk: bool)
  {
    match error
    case FenceLost(_) => !fencingOk
    case Source(cause) => if MentionsShutdown(cause) then draining else !governanceOk
    case Harness(_) => !governanceOk
    case Mapping(_) => true
  }

  /// An error drops the claim, and flags what it says about the worker.
  method LifecycleObserveError(lc: L.Lifecycle, id: string, error: PlaneError)
    modifies lc
    ensures L.ReleasedAs(old(lc.Booked()), lc.Booked(), id, None)
    ensures lc.fencingOk == (old(lc.fencingOk) && !error.FenceLost?)
    ensures lc.draining == (old(lc.draining) || (error.Source? && MentionsShutdown(error.cause)))
    ensures lc.governanceOk
         == (old(lc.governanceOk) && !error.Harness? && !(error.Source? && !MentionsShutdown(error.cause)))
  {
    hide L.ReleasedAs, MentionsShutdown;
    lc.DropActiveClaim(id);
    L.FlagAfterRelease(old(lc.Booked()), lc.Booked(), L.FenceFlagged, id, None);
    L.FlagAfterRelease(old(lc.Booked()), lc.Booked(), L.Draining, id, None);
    L.FlagAfterRelease(old(lc.Booked()), lc.Booked(), L.GovernanceDown, id, None);
    match error {
      case FenceLost(_) => lc.SetFenceLost();
      case Source(cause) =>
        if MentionsShutdown(cause) { lc.SetDraining(); } else { lc.SetGovernanceDown(); }
      case Harness(_) => lc.SetGovernanceDown();
      case Mapping(_) =>
    }
  }

  method DrainClaim(lc: L.Lifecycle, id: string)
    modifies lc
    ensures L.ReleasedAs(old(lc.Booked()), lc.Booked(), id, None) && lc.draining
    ensures lc.governanceOk == old(lc.governanceOk)
  {
    hide L.ReleasedAs;
    lc.SetDraining();
    lc.DropActiveClaim(id);
    L.FlagBeforeRelease(old(lc.Booked()), L.Draining, lc.Booked(), id, None);
  }

  /// Acknowledge, and release the claim: as ended with the acknowledged outcome
  /// when the plane accepted it, as dropped otherwise.
  method Settle(host: Host, lc: L.Lifecycle, claim: PlaneClaim, o: Options, ack: Ack) returns (r: Outcome)
    requires ValidOptions(o)
    modifies host`now, host`pos, host`log, claim, lc
    ensures old(host.log) <= host.log && old(host.pos) <= host.pos
    ensures old(LeaseSafe(host.On(claim))) ==> LeaseSafe(host.On(claim))
    ensures CallEvents(host.log, |old(host.log)|, AckOp(ack))
    ensures r.Ok? <==> EndsAccepted(host.log, |old(host.log)|)
    ensures L.ReleasedAs(old(lc.Booked()), lc.Booked(), claim.id, if r.Ok? then Some(ack.outcome) else None)
    ensures r.Ok? ==> lc.governanceOk == old(lc.governanceOk) && lc.draining == old(lc.draining)
    ensures r.Err? ==> Flagged(r.error, lc.fencingOk, lc.draining, lc.governanceOk)
  {
    r := Fenced(host, claim, o, AckOp(ack));
    if r.Err? {
      LifecycleObserveError(lc, claim.id, r.error);
    } else {
      lc.EndClaimTerminal(claim.id, ack.outcome);
    }
  }

  // ----- The whole claim -----

  /// Where in the log each phase of a claim begins: reporting before the run,
  /// driving the run, reporting its resumption, acknowledging.
  datatype Phases = Phases(report: nat, drive: nat, resumed: nat, settle: nat)

  /// Only the success of the resumption from `digest` is reported.
  ghost predicate ResumptionEvents(log: seq<Event>, from: nat, digest: string)
  {
    forall i | from <= i < |log| ::
      && (log[i].Dispatched? || log[i].Renewed? || log[i].Slept?)
      && (log[i].Dispatched? ==> Reports(log[i], BeforeRun(ResumeSucceeded, digest, "")))
  }

  /// Among the last two answers the host met before `pos` is shutdown: the flag
  /// was set when it was read, or shutdown is what woke the host.
  predicate ShutdownMet(m: Adversary, pos: nat)
  {
    pos > 0 && (m(pos - 1).stop || m(pos - 1).wake.ShutdownSeen? || (pos > 1 && m(pos - 2).wake.ShutdownSeen?))
  }

  /// Nothing but `rounds` rounds of the run, from the state `began` on.
  ghost predicate DroveOnly(host: Host, claim: PlaneClaim, began: Wire, o: Options, rounds: nat)
    reads host, claim
  {
    && (host.On(claim), Unfinished) == Drive(host.moves, began, o, rounds)
    && began.log <= host.log && |host.log| == |began.log| + 2 * rounds && AllRenewed(host.log, |began.log|)
  }

  predicate Succeeded(end: RunEnd) { end.Finished? && end.success }

  /// The run was polled there, and not again.
  ghost predicate LastPoll(log: seq<Event>, at: nat)
  {
    at < |log| && log[at].Polled? && forall i | at < i < |log| :: !log[i].Polled?
  }

  /// A run that ended was polled for the last time where its story says so.
  lemma EndWasPolled(log: seq<Event>, p: Phases, prepared: Prepared, end: Option<RunEnd>, ack: Option<Ack>)
    requires RunStory(log, p, prepared, end, ack) && ack.Some?
    ensures end.Some? && 0 < p.resumed && LastPoll(log, p.resumed - 1) && log[p.resumed - 1].ended == end
  {
    assert forall i | p.resumed <= i < p.settle :: log[i] == log[..p.settle][i];
  }

  /// From `drive` on: the run, the report of its resumption, the acknowledgement.
  ghost predicate RunStory(log: seq<Event>, p: Phases, prepared: Prepared, end: Option<RunEnd>, ack: Option<Ack>)
  {
    && p.drive <= p.resumed <= p.settle <= |log|
    && DriveEvents(log[..p.resumed], p.drive)
    && ResumptionEvents(log[..p.settle], p.resumed, prepared.checkpointDigest)
    && (if ack.Some? then CallEvents(log, p.settle, AckOp(ack.value)) && end.Some? else p.settle == |log|)
    && (end.Some? ==> p.drive < p.resumed && log[p.resumed - 1].Polled? && log[p.resumed - 1].ended == end)
    && (p.resumed < p.settle ==> end.Some? && prepared.Resumed() && Succeeded(end.value))
    && (ack.Some? && prepared.Resumed() && Succeeded(end.value) ==>
          p.resumed < p.settle && log[p.settle - 1].Dispatched? && log[p.settle - 1].answer.Accepted?)
  }

  /// Drive a prepared and announced run, and settle the claim with what came of it.
  method DriveAndSettle(host: Host, lc: L.Lifecycle, claim: PlaneClaim, prepared: Prepared, o: Options, policy: Policy,
                        outside: Outside, manifest: string, rounds: nat)
    returns (r: Execution, ghost p: Phases, ghost end: Option<RunEnd>, ghost ack: Option<Ack>)
    requires ValidOptions(o)
    modifies host, claim, lc
    ensures old(host.log) <= host.log && old(host.pos) <= host.pos
    ensures old(LeaseSafe(host.On(claim))) ==> LeaseSafe(host.On(claim))
    ensures p.drive == |old(host.log)| && RunStory(host.log, p, prepared, end, ack)
    ensures ack.Some? ==> ack.value == AckFor(end.value, ack.value.requestId, policy, outside, manifest)
    ensures r.Continue? || r.GovernanceUnavailable? <==> ack.Some? && EndsAccepted(host.log, p.settle)
    ensures r.GovernanceUnavailable? ==> end.value.Broken? && end.value.governance && !lc.governanceOk
    ensures r.Continue? ==> end.value.Finished? || !end.value.governance
    ensures r.Continue? ==> lc.draining == old(lc.draining)
    ensures r.Shutdown? ==> end.None? && lc.draining && ShutdownMet(host.moves, host.pos)
    ensures r.Failure? ==> Flagged(r.error, lc.fencingOk, lc.draining, lc.governanceOk)
    ensures r.Watched? ==> end.None? && lc.Booked() == old(lc.Booked())
    ensures r.Watched? ==> DroveOnly(host, claim, old(host.On(claim)), o, rounds)
    ensures !r.Watched? ==>
              L.ReleasedAs(old(lc.Booked()), lc.Booked(), claim.id,
                           if r.Continue? || r.GovernanceUnavailable? then Some(ack.value.outcome) else None)
  {
    hide LeaseSafe, Drive, AckFor, DriveEvents, CallEvents, ResumptionEvents, EndsAccepted, L.ReleasedAs;
    ghost var before := host.On(claim);
    ghost var from := |host.log|;
    var driven := DriveClaimedRun(host, claim, o, rounds);
    DriveIsSafe(host.moves, before, o, rounds);
    ghost var drove := host.log;
    p, end, ack := Phases(from, from, |drove|, |drove|), None, None;
    NothingHappened(drove);
    assert host.log[..|drove|] == drove;
    match driven {
      case Unfinished =>
        r := Watched;
      case LostFence(error) =>
        LifecycleObserveError(lc, claim.id, error);
        r := Failure(error);
      case Stopped =>
        DrainClaim(lc, claim.id);
        r := Shutdown;
      case RunOver(over) =>
        end := Some(over);
        if prepared.Resumed() && Succeeded(over) {
          var told := ReportClaimEvent(host, claim, o, BeforeRun(ResumeSucceeded, prepared.checkpointDigest, ""));
          ToldResumption(host.log, |drove|, prepared.checkpointDigest, old(host.ids));
          p := p.(settle := |host.log|);
          NothingHappened(host.log);
          assert host.log[..|drove|] == drove && host.log[..|host.log|] == host.log;
          if told.Err? {
            LifecycleObserveError(lc, claim.id, told.error);
            r := Failure(told.error);
            return;
          }
        }
        ghost var told := host.log;
        r := AcknowledgeRun(host, lc, claim, over, o, policy, outside, manifest);
        ack := Some(AckFor(over, host.ids - 1, policy, outside, manifest));
        assert host.log[..|told|] == told && host.log[..|drove|] == drove;
    }
  }

  /// Acknowledge a run that ended. A governance failure is flagged first.
  method AcknowledgeRun(host: Host, lc: L.Lifecycle, claim: PlaneClaim, end: RunEnd, o: Options, policy: Policy,
                        outside: Outside, manifest: string)
    returns (r: Execution)
    requires ValidOptions(o)
    modifies host, claim, lc
    ensures old(host.log) <= host.log && old(host.pos) <= host.pos && host.ids == old(host.ids) + 1
    ensures old(LeaseSafe(host.On(claim))) ==> LeaseSafe(host.On(claim))
    ensures CallEvents(host.log, |old(host.log)|, AckOp(AckFor(end, old(host.ids), policy, outside, manifest)))
    ensures r.Continue? || r.GovernanceUnavailable? || r.Failure?
    ensures !r.Failure? <==> EndsAccepted(host.log, |old(host.log)|)
    ensures r.Failure? ==> Flagged(r.error, lc.fencingOk, lc.draining, lc.governanceOk)
    ensures r.GovernanceUnavailable? ==> end.Broken? && end.governance && !lc.governanceOk
    ensures r.Continue? ==> end.Finished? || !end.governance
    ensures r.Continue? ==> lc.draining == old(lc.draining)
    ensures L.ReleasedAs(old(lc.Booked()), lc.Booked(), claim.id, if r.Failure? then None else Some(OutcomeOf(end)))
  {
    hide L.ReleasedAs, LeaseSafe, CallEvents, EndsAccepted, AckFor;
    var governanceFail := end.Broken? && end.governance;
    if governanceFail {
      lc.SetGovernanceDown();
    }
    var requestId := host.NewRequestId();
    var settled := Settle(host, lc, claim, o, AckFor(end, requestId, policy, outside, manifest));
    if governanceFail {
      L.FlagBeforeRelease(old(lc.Booked()), L.GovernanceDown, lc.Booked(), claim.id,
                          if settled.Ok? then Some(OutcomeOf(end)) else None);
    }
    r := if settled.Err? then Failure(settled.error)
         else if governanceFail then GovernanceUnavailable else Continue;
  }

  lemma ToldResumption(log: seq<Event>, from: nat, digest: string, requestId: nat)
    ensures CallEvents(log, from, EventOp(ResumeSucceeded, digest, "", requestId))
        ==> ResumptionEvents(log, from, digest)
    ensures EndsAccepted(log, from) ==> from < |log| && log[|log| - 1].Dispatched? && log[|log| - 1].answer.Accepted?
  {
  }

  /// The log of one whole claim: what is reported before the run, then the run.
  ghost predicate Story(log: seq<Event>, from: nat, p: Phases, prepared: Prepared, end: Option<RunEnd>,
                        ack: Option<Ack>)
  {
    && from <= p.drive
    && RunStory(log, p, prepared, end, ack)
    && BeforeRunEvents(log[..p.drive], from)
    && (p.drive < |log| ==> Announced(log[..p.drive], from, prepared, |prepared.beforeRun|))
  }

  /// For every number of rounds, the claim begun is released exactly once, as
  /// ended with the acknowledged outcome exactly when the plane accepted an
  /// acknowledgement and as dropped otherwise, or all these rounds were driven and
  /// each ended with a granted renewal. `began` is the state the run began in.
  method Execute(host: Host, lc: L.Lifecycle, claim: PlaneClaim, work: Work, o: Options, policy: Policy,
                 outside: Outside, manifest: string, rounds: nat)
    returns (r: Execution, ghost p: Phases, ghost end: Option<RunEnd>, ghost ack: Option<Ack>, ghost began: Wire)
    requires ValidOptions(o)
    modifies host, claim, lc
    ensures old(host.log) <= host.log && old(host.pos) <= host.pos
    ensures old(LeaseSafe(host.On(claim))) ==> LeaseSafe(host.On(claim))
    ensures var prepared := PrepareClaimedRun(work, policy, outside);
            if prepared.Good? then
              && Story(host.log, |old(host.log)|, p, prepared.value, end, ack)
              && (ack.Some? ==> ack.value == AckFor(end.value, ack.value.requestId, policy, outside, manifest))
            else
              && ack.Some? && ack.value.outcome == Failed && end.None?
              && p.settle == |old(host.log)| && CallEvents(host.log, p.settle, AckOp(ack.value))
    ensures r.Continue? || r.GovernanceUnavailable? <==> ack.Some? && EndsAccepted(host.log, p.settle)
    ensures PrepareClaimedRun(work, policy, outside).Good? && ack.Some? ==>
              && end.Some? && 0 < p.resumed && LastPoll(host.log, p.resumed - 1) && host.log[p.resumed - 1].ended == end
              && (ack.value.outcome.Completed? <==> EndedWell(end.value))
              && (ack.value.outcome.Parked? <==> EndedParked(end.value))
    ensures r.GovernanceUnavailable? ==> end.Some? && end.value.Broken? && end.value.governance && !lc.governanceOk
    ensures r.Continue? ==> end.None? || end.value.Finished? || !end.value.governance
    ensures r.Continue? ==> lc.draining == old(lc.draining)
    ensures r.Shutdown? ==> ack.None? && end.None? && lc.draining && ShutdownMet(host.moves, host.pos)
    ensures r.Failure? ==> Flagged(r.error, lc.fencingOk, lc.draining, lc.governanceOk)
    ensures |host.log| > p.drive && PrepareClaimedRun(work, policy, outside).Good? ==>
              began.pos > 0 && |began.log| == p.drive && !host.moves(began.pos - 1).stop
    ensures r.Watched? ==>
              && ack.None? && end.None? && lc.Booked() == L.Begun(old(lc.Booked()), claim.id, old(host.pos))
              && |began.log| == p.drive && DroveOnly(host, claim, began, o, rounds)
    ensures !r.Watched? ==>
              L.ReleasedAs(L.Begun(old(lc.Booked()), claim.id, old(host.pos)), lc.Booked(), claim.id,
                           if r.Continue? || r.GovernanceUnavailable? then Some(ack.value.outcome) else None)
  {
    hide LeaseSafe, AckFor, BeforeRunEvents, CallEvents, Announced, EndsAccepted, DriveEvents, ResumptionEvents,
         L.ReleasedAs, PrepareClaimedRun, BoundedReason, Describe, DroveOnly;
    lc.BeginClaim(claim.id, host.pos);
    began := host.On(claim);
    ghost var from := |host.log|;
    p, end, ack := Phases(from, from, from, from), None, None;
    var prepared := PrepareClaimedRun(work, policy, outside);
    if prepared.Bad? {
      var requestId := host.NewRequestId();
      var refusal := Ack(Failed, BoundedReason(Describe(prepared.error)), requestId, None, "");
      ack := Some(refusal);
      var settled := Settle(host, lc, claim, o, refusal);
      r := if settled.Ok? then Continue else Failure(settled.error);
      return;
    }
    BeforeRunKinds(work, policy, outside);
    var reported := ReportBeforeRun(host, claim, o, prepared.value);
    ghost var announced := host.log;
    p := Phases(from, |announced|, |announced|, |announced|);
    NothingHappened(announced);
    assert host.log[..|announced|] == announced;
    if reported.Err? {
      LifecycleObserveError(lc, claim.id, reported.error);
      r := Failure(reported.error);
      return;
    }
    ghost var quiet := host.On(claim);
    var stop := host.ShutdownFlag();
    LookingIsSafe(quiet);
    if stop {
      DrainClaim(lc, claim.id);
      r := Shutdown;
      return;
    }
    began := host.On(claim);
    r, p, end, ack := DriveAndSettle(host, lc, claim, prepared.value, o, policy, outside, manifest, rounds);
    assert host.log[..|announced|] == announced;
    if ack.Some? {
      EndWasPolled(host.log, p, prepared.value, end, ack);
    }
  }

  function Describe(error: PlaneError): string
  {
    match error
    case Mapping(message) => message
    case Harness(message) => message
    case Source(FromPlane(message)) => "plane intake: " + message
    case _ => "plane intake"
  }

  /// No preparation announces a successful resumption before the run.
  lemma BeforeRunKinds(work: Work, policy: Policy, outside: Outside)
    ensures var prepared := PrepareClaimedRun(work, policy, outside);
            prepared.Good? ==> forall k | 0 <= k < |prepared.value.beforeRun| ::
              prepared.value.beforeRun[k].kind != ResumeSucceeded
  {
  }

  /// Empty phases.
  lemma NothingHappened(log: seq<Event>)
    ensures BeforeRunEvents(log, |log|) && DriveEvents(log, |log|) && !EndsAccepted(log, |log|)
    ensures forall op: FencedOp :: CallEvents(log, |log|, op)
    ensures forall digest: string :: ResumptionEvents(log, |log|, digest)
  {
  }
}
