/// What the log of one claim says, read as a whole.
module ClaimedRunProofs {
  import opened Wrappers
  import opened ClaimPort
  import opened FencedRetryProofs
  import opened DriveRun
  import opened ClaimedRun
  import opened Text

  /// Every acknowledgement of a claim carries the same outcome, payload and
  /// request id, at most one is accepted, and none is sent when the run was
  /// drained, be it on shutdown or after its fence was lost.
  lemma OneOutcomePerClaim(log: seq<Event>, from: nat, p: Phases, prepared: Prepared, end: Option<RunEnd>,
                           ack: Option<Ack>)
    requires Story(log, from, p, prepared, end, ack)
    ensures AcksOnly(log, from, ack)
    ensures forall i, j | from <= i < j < |log| && IsAck(log[i]) && IsAck(log[j]) :: !log[i].answer.Accepted?
    ensures (exists i | from <= i < |log| :: Drained(log[i])) ==> ack.None?
    ensures forall outcome: AckOutcome ::
              AckAccepted(log, from, outcome) <==>
                ack.Some? && ack.value.outcome == outcome && EndsAccepted(log, p.settle)
  {
    assert forall i | from <= i < p.drive :: log[i] == log[..p.drive][i];
    assert forall i | p.drive <= i < p.resumed :: log[i] == log[..p.resumed][i];
    assert forall i | p.resumed <= i < p.settle :: log[i] == log[..p.settle][i];
    assert forall i | from <= i < p.settle :: !IsAck(log[i]);
    if ack.Some? && EndsAccepted(log, p.settle) {
      assert IsAck(log[|log| - 1]);
    }
  }

  /// The plane is told that a claim completed exactly when its run was polled to an
  /// unparked success, that it is parked exactly when it was polled to a parked end,
  /// and otherwise that it failed.
  lemma AcceptedAsItEnded(log: seq<Event>, from: nat, p: Phases, prepared: Prepared, end: Option<RunEnd>,
                          ack: Option<Ack>, policy: Policy, outside: Outside, manifest: string)
    requires Story(log, from, p, prepared, end, ack)
    requires ack.Some? ==> ack.value == AckFor(end.value, ack.value.requestId, policy, outside, manifest)
    ensures forall outcome: AckOutcome :: AckAccepted(log, from, outcome) ==>
              exists at: nat :: LastPoll(log, at) && log[at].ended.Some?
                && outcome == if EndedParked(log[at].ended.value) then Parked
                              else if EndedWell(log[at].ended.value) then Completed else Failed
    ensures ack.Some? && EndsAccepted(log, p.settle) ==> exists outcome: AckOutcome :: AckAccepted(log, from, outcome)
  {
    OneOutcomePerClaim(log, from, p, prepared, end, ack);
    if ack.Some? {
      EndWasPolled(log, p, prepared, end, ack);
      hide Story, AckFor, AckAccepted, LastPoll, OutcomeOf;
      assert EndsAccepted(log, p.settle) ==> AckAccepted(log, from, ack.value.outcome);
    }
  }

  /// A successful resumption is reported only for the checkpoint whose digest was
  /// announced, and accepted, as the start of the resumption; and the run was
  /// polled to a successful end in between.
  lemma SucceededOnlyAfterStarted(log: seq<Event>, from: nat, p: Phases, work: Work, policy: Policy, outside: Outside,
                                  end: Option<RunEnd>, ack: Option<Ack>, digest: string, i: nat)
    requires PrepareClaimedRun(work, policy, outside).Good?
    requires Story(log, from, p, PrepareClaimedRun(work, policy, outside).value, end, ack)
    requires from <= i < |log| && log[i].Dispatched? && log[i].op.EventOp?
    requires log[i].op.kind == ResumeSucceeded && log[i].op.digest == digest
    ensures EventAccepted(log, from, p.drive, BeforeRun(ResumeStarted, digest, ""))
    ensures exists j | p.drive <= j < i :: log[j].Polled? && log[j].ended.Some? && Succeeded(log[j].ended.value)
    ensures work.continuation.Some? && work.continuation.value.checkpoint.Some?
    ensures var c := work.continuation.value;
            && c.effectId == work.effectId && c.operationId == work.operationId
            && c.inputDigest == "sha256:" + outside.sha256(c.inputJson)
            && policy.checkpointStoreId == Some(c.checkpoint.value.storeId)
            && outside.parkedDigest(c.checkpoint.value.reference) == Some(digest)
  {
    var prepared := PrepareClaimedRun(work, policy, outside).value;
    assert forall k | from <= k < p.drive :: log[k] == log[..p.drive][k];
    assert forall k | p.drive <= k < p.resumed :: log[k] == log[..p.resumed][k];
    assert forall k | p.resumed <= k < p.settle :: log[k] == log[..p.settle][k];
    assert p.resumed <= i < p.settle;
    assert prepared.Resumed() && prepared.checkpointDigest == digest;
    assert prepared.beforeRun == [BeforeRun(ResumeStarted, digest, "")];
    var before := log[..p.drive];
    EachAnnounced(before, from, prepared, 1, 0);
    var k :| from <= k < |before| && Reports(before[k], prepared.beforeRun[0]) && before[k].answer.Accepted?;
    assert log[k] == before[k];
  }

  /// No run starts before the plane has accepted every event that announces it, one
  /// after the other.
  lemma RunOnlyAfterAnnounced(log: seq<Event>, from: nat, p: Phases, prepared: Prepared, end: Option<RunEnd>,
                              ack: Option<Ack>, i: nat)
    requires Story(log, from, p, prepared, end, ack)
    requires from <= i < |log| && log[i].Polled?
    ensures Announced(log[..i], from, prepared, |prepared.beforeRun|)
    ensures forall k | 0 <= k < |prepared.beforeRun| :: EventAccepted(log, from, i, prepared.beforeRun[k])
  {
    var before := log[..p.drive];
    assert forall k | from <= k < p.drive :: log[k] == before[k];
    assert i >= p.drive;
    AnnouncedGrows(before, log[..i], from, prepared, |prepared.beforeRun|);
    forall k | 0 <= k < |prepared.beforeRun| ensures EventAccepted(log, from, i, prepared.beforeRun[k]) {
      var b := prepared.beforeRun[k];
      EachAnnounced(before, from, prepared, |prepared.beforeRun|, k);
      var j :| from <= j < |before| && Reports(before[j], b) && before[j].answer.Accepted?;
      assert log[j] == before[j];
    }
  }

  /// A claim whose run resumed and succeeded is acknowledged only after the plane
  /// accepted that its resumption succeeded.
  lemma AckAfterResumption(log: seq<Event>, from: nat, p: Phases, prepared: Prepared, end: Option<RunEnd>,
                           ack: Option<Ack>, i: nat)
    requires Story(log, from, p, prepared, end, ack)
    requires from <= i < |log| && IsAck(log[i])
    requires prepared.Resumed() && Succeeded(end.value)
    ensures EventAccepted(log, from, i, BeforeRun(ResumeSucceeded, prepared.checkpointDigest, ""))
  {
    assert forall k | from <= k < p.drive :: log[k] == log[..p.drive][k];
    assert forall k | p.drive <= k < p.resumed :: log[k] == log[..p.resumed][k];
    assert forall k | p.resumed <= k < p.settle :: log[k] == log[..p.settle][k];
    assert i >= p.settle;
    assert Reports(log[p.settle - 1], BeforeRun(ResumeSucceeded, prepared.checkpointDigest, ""));
  }

  /// What is announced of a run: nothing without a continuation; its resumption when it
  /// resumes; and otherwise its replacement, and before it, when the plane named a
  /// checkpoint, that this is not there.
  ghost predicate Announces(prepared: Prepared, c: Option<Continuation>)
  {
    var events, digest := prepared.beforeRun, prepared.checkpointDigest;
    && (c.None? <==> events == [])
    && (prepared.Resumed() <==> |events| == 1 && events[0].kind == ResumeStarted)
    && (forall k | 0 <= k < |events| :: events[k].digest == digest)
    && (c.Some? && !prepared.Resumed() ==>
          && events[|events| - 1].kind == ReplacementStarted
          && (c.value.checkpoint.None? ==> |events| == 1 && events[0].reason == "no_checkpoint")
          && (c.value.checkpoint.Some? ==>
                && |events| == 2 && events[0].kind == CheckpointUnavailable
                && events[0].reason == events[1].reason == "checkpoint_unavailable"))
  }

  /// A replacement works on the mapped task with the plane's input behind it.
  lemma ReplacementCarriesInput(task: string, inputJson: string)
    ensures var r := ReplacementTask(task, inputJson);
            task <= r && |r| > |task| + |inputJson| && r[|r| - |inputJson|..] == inputJson
  {
  }

  /// Work is prepared exactly when it maps to a task and its continuation, if it
  /// has one, is the work's own and answered within the bound; and the run then
  /// resumes exactly when the host itself holds the checkpoint the plane names.
  /// Nothing of a continuation that is not its own reaches the run.
  lemma ResumesExactlyWhen(work: Work, policy: Policy, outside: Outside)
    ensures var prepared, c := PrepareClaimedRun(work, policy, outside), work.continuation;
            && (prepared.Good? <==>
                  && work.task.Good?
                  && (c.Some? ==>
                        && !IsBlank(c.value.resolutionId) && !IsBlank(c.value.parkId) && c.value.parkGeneration != 0
                        && c.value.effectId == work.effectId && c.value.operationId == work.operationId
                        && c.value.inputDigest == "sha256:" + outside.sha256(c.value.inputJson)
                        && ByteLength(c.value.inputJson) <= policy.maxContinuationBytes
                        && outside.answerIn(c.value.inputJson).Some?
                        && ByteLength(outside.answerIn(c.value.inputJson).value) <= policy.maxContinuationBytes))
            && (prepared.Good? ==>
                  && (prepared.value.Resumed() <==>
                        && c.Some? && c.value.checkpoint.Some?
                        && policy.checkpointStoreId == Some(c.value.checkpoint.value.storeId)
                        && outside.parkedDigest(c.value.checkpoint.value.reference)
                           == Some(c.value.checkpoint.value.digest))
                  && (prepared.value.Resumed() ==>
                        prepared.value.resume == Some(Resume(c.value.checkpoint.value.reference,
                                                             outside.answerIn(c.value.inputJson).value)))
                  && (c.None? ==> prepared.value.resume.None?))
  {
  }

  /// A prepared run works on the mapped task, unless it replaces one that cannot be
  /// resumed, and what is announced of it says which.
  lemma AnnouncesWhatItDoes(work: Work, policy: Policy, outside: Outside)
    requires PrepareClaimedRun(work, policy, outside).Good?
    ensures var prepared, c := PrepareClaimedRun(work, policy, outside).value, work.continuation;
            && prepared.task == (if c.None? || prepared.Resumed() then work.task.value
                                 else ReplacementTask(work.task.value, c.value.inputJson))
            && prepared.checkpointDigest
               == (if c.Some? && c.value.checkpoint.Some? then c.value.checkpoint.value.digest else "")
            && Announces(prepared, c)
  {
    hide ReplacementTask, ByteLength, ContinuationMatches;
  }
}
