/// One acquired agent-turn claim. It runs under the same lease protocol as a
/// plane claim, but is refused before it runs when its instance may not act,
/// retries its acknowledgement without needing a renewal, and is left
/// unacknowledged when the run is still active locally.
module AgentTurn {
  import opened Wrappers
  import opened ClaimPort
  import opened FencedRetry
  import opened FencedRetryProofs
  import opened DriveRun
  import opened ClaimedRun
  import opened Text
  import L = WorkerLifecycle

  datatype Turn = Turn(turnId: string, principalId: string, instancePrincipalId: string,
                       frozen: bool, killSwitched: bool, instructions: string)

  /// What the host finds outside itself: an error preparing the run, and the
  /// Action a parked run submitted.
  datatype TurnOutside = TurnOutside(prepareError: Option<PlaneError>, parkedAction: string -> Option<string>)

  predicate Refused(turn: Turn)
  {
    turn.frozen || turn.killSwitched || turn.principalId != turn.instancePrincipalId || IsBlank(turn.instructions)
  }

  function RefusalReason(turn: Turn): string
  {
    if turn.frozen then "site agent instance is frozen; refusal audited, no apply"
    else if turn.killSwitched then "site agent instance is kill-switched; refusal audited, no apply"
    else if turn.principalId != turn.instancePrincipalId then "turn principal does not match instance principal"
    else "published agent definition has no instructions"
  }

  /// A parked turn without an Action it could wait for fails.
  function TurnAckFor(end: RunEnd, outside: TurnOutside): (ack: TurnAck)
    ensures ack.outcome.Parked? <==> end.Finished? && end.parked && outside.parkedAction(end.runId).Some?
    ensures ack.outcome.Completed? <==> end.Finished? && !end.parked && end.success
    ensures ack.outcome.Parked? ==> Some(ack.parkedAction) == outside.parkedAction(end.runId)
    ensures !ack.outcome.Parked? ==> ack.parkedAction == ""
    ensures end.Finished? && (!end.parked || ack.outcome.Parked?) ==> ack.reason == BoundedReason(end.summary)
    ensures end.Broken? ==> ack.reason == BoundedReason(end.message)
  {
    match end
    case Finished(runId, success, parked, summary) =>
      if parked then
        match outside.parkedAction(runId)
        case Some(action) => TurnAck(Parked, BoundedReason(summary), action)
        case None => TurnAck(Failed, "parked turn has no Action submitted under this claim", "")
      else TurnAck(if success then Completed else Failed, BoundedReason(summary), "")
    case Broken(_, _, message) => TurnAck(Failed, BoundedReason(message), "")
  }

  method SettleTurn(host: Host, lc: L.Lifecycle, claim: PlaneClaim, o: Options, ack: TurnAck) returns (r: Outcome)
    requires ValidOptions(o)
    modifies host`now, host`pos, host`log, claim, lc
    ensures old(host.log) <= host.log && old(host.pos) <= host.pos
    ensures old(LeaseSafe(host.On(claim))) ==> LeaseSafe(host.On(claim))
    ensures CallEvents(host.log, |old(host.log)|, TurnOp(ack))
    ensures r.Ok? <==> EndsAccepted(host.log, |old(host.log)|)
    ensures L.ReleasedAs(old(lc.Booked()), lc.Booked(), claim.id, if r.Ok? then Some(ack.outcome) else None)
    ensures r.Ok? ==> lc.governanceOk == old(lc.governanceOk)
    ensures r.Err? ==> Flagged(r.error, lc.fencingOk, lc.draining, lc.governanceOk)
  {
    hide L.ReleasedAs, LeaseSafe, CallEvents, EndsAccepted, MentionsShutdown;
    FencedCall(host.moves, host.On(claim), o, TurnOp(ack), false, 1);
    r := AckWithRetry(host, claim, o, TurnOp(ack));
    if r.Err? {
      LifecycleObserveError(lc, claim.id, r.error);
    } else {
      lc.EndClaimTerminal(claim.id, ack.outcome);
    }
  }

  /// The turn's log: nothing but the run up to `settle`, and then nothing but
  /// dispatches of `ack`. A refused or unprepared turn never starts its run.
  ghost predicate TurnStory(log: seq<Event>, from: nat, settle: nat, end: Option<RunEnd>, ack: Option<TurnAck>)
  {
    && from <= settle <= |log|
    && DriveEvents(log[..settle], from)
    && (end.Some? ==> from < settle && log[settle - 1].Polled? && log[settle - 1].ended == end)
    && (if ack.Some? then CallEvents(log, settle, TurnOp(ack.value)) && (end.Some? || settle == from)
        else settle == |log|)
  }

  method ExecuteTurn(host: Host, lc: L.Lifecycle, claim: PlaneClaim, turn: Turn, o: Options, outside: TurnOutside,
                     rounds: nat)
    returns (r: Execution, ghost settle: nat, ghost end: Option<RunEnd>, ghost ack: Option<TurnAck>, ghost began: Wire)
    requires ValidOptions(o)
    modifies host, claim, lc
    ensures old(host.log) <= host.log && old(host.pos) <= host.pos
    ensures old(LeaseSafe(host.On(claim))) ==> LeaseSafe(host.On(claim))
    ensures TurnStory(host.log, |old(host.log)|, settle, end, ack)
    ensures turn.frozen || turn.killSwitched || turn.principalId != turn.instancePrincipalId
            || IsBlank(turn.instructions) || outside.prepareError.Some? ==>
              && end.None? && ack.Some? && ack.value.outcome.Failed? && ack.value.parkedAction == ""
              && ack.value.reason == BoundedReason(if Refused(turn) then RefusalReason(turn)
                                                   else Describe(outside.prepareError.value))
    ensures !Refused(turn) && outside.prepareError.None? && ack.Some? ==>
              end.Some? && ack.value == TurnAckFor(end.value, outside)
    ensures r.Continue? && ack.None? <==> end.Some? && end.value.Broken? && end.value.stillActive
    ensures r.Continue? && ack.None? ==> lc.draining
    ensures (r.Continue? && ack.Some?) || r.GovernanceUnavailable? <==> ack.Some? && EndsAccepted(host.log, settle)
    ensures r.GovernanceUnavailable? ==> end.Some? && end.value.Broken? && end.value.governance && !lc.governanceOk
    ensures r.Shutdown? || r.Watched? ==> ack.None? && end.None?
    ensures r.Shutdown? ==> lc.draining && ShutdownMet(host.moves, host.pos)
    ensures r.Failure? ==> Flagged(r.error, lc.fencingOk, lc.draining, lc.governanceOk)
    ensures !Refused(turn) && outside.prepareError.None? && |host.log| > |old(host.log)| ==>
              began.pos > 0 && began.log == old(host.log) && !host.moves(began.pos - 1).stop
    ensures r.Watched? ==>
              && lc.Booked() == L.Begun(old(lc.Booked()), claim.id, old(host.pos))
              && began.log == old(host.log) && DroveOnly(host, claim, began, o, rounds)
    ensures !r.Watched? ==>
              L.ReleasedAs(L.Begun(old(lc.Booked()), claim.id, old(host.pos)), lc.Booked(), claim.id,
                           if ack.Some? && EndsAccepted(host.log, settle) then Some(ack.value.outcome) else None)
  {
    hide LeaseSafe, CallEvents, EndsAccepted, DriveEvents, Drive, L.ReleasedAs, TurnAckFor, RefusalReason, Describe,
        BoundedReason;
    lc.BeginClaim(claim.id, host.pos);
    began := host.On(claim);
    ghost var from := host.log;
    settle, end, ack := |from|, None, None;
    NothingHappened(from);
    assert host.log[..|from|] == from;
    if Refused(turn) || outside.prepareError.Some? {
      var reason := if Refused(turn) then RefusalReason(turn) else Describe(outside.prepareError.value);
      var refusal := TurnAck(Failed, BoundedReason(reason), "");
      ack := Some(refusal);
      var settled := SettleTurn(host, lc, claim, o, refusal);
      assert host.log[..|from|] == from;
      r := if settled.Ok? then Continue else Failure(settled.error);
      return;
    }
    ghost var quiet := host.On(claim);
    var stop := host.ShutdownFlag();
    LookingIsSafe(quiet);
    if stop {
      DrainClaim(lc, claim.id);
      r := Shutdown;
      return;
    }
    began := host.On(claim);
    var driven := DriveClaimedRun(host, claim, o, rounds);
    DriveIsSafe(host.moves, began, o, rounds);
    ghost var drove := host.log;
    settle := |drove|;
    NothingHappened(drove);
    assert host.log[..|drove|] == drove;
    match driven {
      case Unfinished => r := Watched;
      case LostFence(error) =>
        LifecycleObserveError(lc, claim.id, error);
        r := Failure(error);
      case Stopped =>
        DrainClaim(lc, claim.id);
        r := Shutdown;
      case RunOver(over) =>
        end := Some(over);
        if over.Broken? && over.stillActive {
          DrainClaim(lc, claim.id);
          r := Continue;
          return;
        }
        r := AcknowledgeTurn(host, lc, claim, over, o, outside);
        ack := Some(TurnAckFor(over, outside));
        assert host.log[..|drove|] == drove;
    }
  }

  method AcknowledgeTurn(host: Host, lc: L.Lifecycle, claim: PlaneClaim, end: RunEnd, o: Options, outside: TurnOutside)
    returns (r: Execution)
    requires ValidOptions(o)
    modifies host`now, host`pos, host`log, claim, lc
    ensures old(host.log) <= host.log && old(host.pos) <= host.pos
    ensures old(LeaseSafe(host.On(claim))) ==> LeaseSafe(host.On(claim))
    ensures CallEvents(host.log, |old(host.log)|, TurnOp(TurnAckFor(end, outside)))
    ensures r.Continue? || r.GovernanceUnavailable? || r.Failure?
    ensures !r.Failure? <==> EndsAccepted(host.log, |old(host.log)|)
    ensures r.Failure? ==> Flagged(r.error, lc.fencingOk, lc.draining, lc.governanceOk)
    ensures r.GovernanceUnavailable? ==> end.Broken? && end.governance && !lc.governanceOk
    ensures L.ReleasedAs(old(lc.Booked()), lc.Booked(), claim.id,
                         if r.Failure? then None else Some(TurnAckFor(end, outside).outcome))
  {
    hide L.ReleasedAs, LeaseSafe, CallEvents, EndsAccepted, TurnAckFor;
    var governanceFail := end.Broken? && end.governance;
    var ack := TurnAckFor(end, outside);
    if governanceFail {
      lc.SetGovernanceDown();
    }
    var settled := SettleTurn(host, lc, claim, o, ack);
    if governanceFail {
      L.FlagBeforeRelease(old(lc.Booked()), L.GovernanceDown, lc.Booked(), claim.id,
                          if settled.Ok? then Some(ack.outcome) else None);
    }
    r := if settled.Err? then Failure(settled.error)
         else if governanceFail then GovernanceUnavailable else Continue;
  }
}
