/// The plane as a claimed run sees it: an adversary that decides how long every
/// awaited thing takes and what comes back, and a log of what the host did.
module ClaimPort {
  import opened Wrappers
  import opened LeaseTiming

  datatype AckOutcome = Completed | Failed | Parked

  datatype Checkpoint = Checkpoint(storeId: string, reference: string, digest: string)

  datatype Ack = Ack(outcome: AckOutcome, reason: string, requestId: nat,
                     checkpoint: Option<Checkpoint>, artifactJson: string)

  datatype ClaimEventKind = ResumeStarted | ResumeSucceeded | CheckpointUnavailable | ReplacementStarted

  /// The acknowledgement of an agent turn names the Action a parked turn waits for.
  datatype TurnAck = TurnAck(outcome: AckOutcome, reason: string, parkedAction: string)

  /// One fenced call, with everything it carries. All retries of it send this value.
  datatype FencedOp =
    | AckOp(ack: Ack)
    | EventOp(kind: ClaimEventKind, digest: string, reason: string, requestId: nat)
    | TurnOp(turn: TurnAck)

  datatype Cause =
    | NoSafeTime
    | CallDeadline
    | HeartbeatDeadline
    | ExpiredGrant
    | ShutdownRequested
    | FromPlane(message: string)

  datatype PlaneError =
    | FenceLost(cause: Cause)
    | Source(cause: Cause)
    | Mapping(message: string)
    | Harness(message: string)

  datatype Answer = Accepted | Refused(error: PlaneError) | NoReply

  datatype Renewal = Granted(validUntil: nat) | RenewalRefused(error: PlaneError) | RenewalNoReply

  /// How the run future ends: `parked` and `success` are independent flags of
  /// a finished run; a harness error may be a governance failure, or report that
  /// the local registry still holds the run.
  datatype RunEnd =
    | Finished(runId: string, success: bool, parked: bool, summary: string)
    | Broken(governance: bool, stillActive: bool, message: string)

  datatype Wake = TimerFired | RunEnded(end: RunEnd) | ShutdownSeen

  /// What the adversary does at one suspension point: after `latency`, the call
  /// is answered (`refusal` None: yes, with `granted` left on a renewed lease),
  /// or the run loop wakes; `stop` is what a look at the shutdown flag finds.
  datatype Move = Move(latency: nat, refusal: Option<PlaneError>, granted: nat, wake: Wake, stop: bool)

  /// Every event carries when it began, when it ended, and the lease deadline
  /// the host worked under.
  datatype Event =
    | Dispatched(at: nat, until: nat, deadline: nat, op: FencedOp, answer: Answer)
    | Renewed(at: nat, until: nat, deadline: nat, renewal: Renewal)
    | Slept(at: nat, until: nat, deadline: nat)
    | Polled(at: nat, until: nat, deadline: nat, ended: Option<RunEnd>)
    | DrainedOnShutdown(at: nat, until: nat, deadline: nat)
    | DrainedAfterFenceLoss(at: nat, until: nat, deadline: nat)

  datatype Options = Options(pollInterval: nat, claimTtl: nat, heartbeatInterval: nat, ackRetryLimit: nat)

  /// What `run_plane_serve` checks before it starts serving.
  predicate ValidOptions(o: Options)
  {
    0 < o.heartbeatInterval < o.claimTtl && o.ackRetryLimit > 0
  }

  type Adversary = nat -> Move

  /// Clock, next adversary move, lease deadline and log.
  datatype Wire = Wire(now: nat, pos: nat, validUntil: nat, log: seq<Event>)

  function Dispatch(m: Adversary, s: Wire, window: nat, op: FencedOp): (Wire, Answer)
  {
    var move := m(s.pos);
    var answer := if move.latency > window then NoReply
                  else if move.refusal.Some? then Refused(move.refusal.value) else Accepted;
    var until := s.now + Min(move.latency, window);
    (s.(now := until, pos := s.pos + 1,
        log := s.log + [Dispatched(s.now, until, s.validUntil, op, answer)]), answer)
  }

  function Renew(m: Adversary, s: Wire, window: nat, ttl: nat): (Wire, Renewal)
  {
    var move := m(s.pos);
    var grant := GrantedValidUntil(s.now, ttl, move.granted);
    var renewal := if move.latency > window then RenewalNoReply
                   else if move.refusal.Some? then RenewalRefused(move.refusal.value)
                   else if grant.None? then RenewalRefused(FenceLost(ExpiredGrant))
                   else Granted(grant.value);
    var until := s.now + Min(move.latency, window);
    (s.(now := until, pos := s.pos + 1,
        validUntil := if renewal.Granted? then renewal.validUntil else s.validUntil,
        log := s.log + [Renewed(s.now, until, s.validUntil, renewal)]), renewal)
  }

  /// Clock and log of the host while it works on one claim. `moves` is the
  /// adversary; `now`, `pos` and `log` only ever grow.
  class Host {
    const moves: Adversary
    var now: nat
    var pos: nat
    var ids: nat
    var log: seq<Event>

    constructor (moves: Adversary)
      ensures this.moves == moves && now == 0 && pos == 0 && ids == 0 && log == []
    {
      this.moves := moves;
      now, pos, ids, log := 0, 0, 0, [];
    }

    ghost function On(claim: PlaneClaim): Wire
      reads this, claim
    {
      Wire(now, pos, claim.validUntil, log)
    }

    /// A fresh request id, as a random UUID is fresh.
    method NewRequestId() returns (id: nat)
      modifies this`ids
      ensures id == old(ids) && ids == old(ids) + 1
    {
      id := ids;
      ids := ids + 1;
    }

    /// Look at the shutdown flag.
    method ShutdownFlag() returns (stop: bool)
      modifies this`pos
      ensures stop == moves(old(pos)).stop && pos == old(pos) + 1
    {
      stop := moves(pos).stop;
      pos := pos + 1;
    }

    /// Sleep, unless shutdown is seen first.
    method Pause(limit: nat) returns (shutdown: bool)
      modifies this`now, this`pos
      ensures shutdown == (moves(old(pos)).wake.ShutdownSeen? && moves(old(pos)).latency <= limit)
      ensures now == old(now) + if shutdown then moves(old(pos)).latency else limit
      ensures pos == old(pos) + 1
    {
      var move := moves(pos);
      shutdown := move.wake.ShutdownSeen? && move.latency <= limit;
      now := now + if shutdown then move.latency else limit;
      pos := pos + 1;
    }

    /// Ask the plane for work, unless shutdown is seen first.
    method AwaitOffer() returns (shutdown: bool)
      modifies this`now, this`pos
      ensures shutdown == moves(old(pos)).wake.ShutdownSeen?
      ensures now == old(now) + moves(old(pos)).latency && pos == old(pos) + 1
    {
      shutdown := moves(pos).wake.ShutdownSeen?;
      now := now + moves(pos).latency;
      pos := pos + 1;
    }

    /// Await a fenced call for at most `window`.
    method CallPlane(claim: PlaneClaim, window: nat, op: FencedOp) returns (answer: Answer)
      modifies this`now, this`pos, this`log
      ensures (On(claim), answer) == Dispatch(moves, old(On(claim)), window, op)
    {
      var move := moves(pos);
      if move.latency > window {
        answer := NoReply;
      } else {
        answer := match move.refusal case Some(error) => Refused(error) case None => Accepted;
      }
      var until := now + Min(move.latency, window);
      log := log + [Dispatched(now, until, claim.validUntil, op, answer)];
      now, pos := until, pos + 1;
    }

    /// Await a heartbeat for at most `window`; the caller adopts a granted lease.
    method CallHeartbeat(claim: PlaneClaim, window: nat, ttl: nat) returns (renewal: Renewal)
      modifies this`now, this`pos, this`log
      ensures (On(claim).(validUntil := if renewal.Granted? then renewal.validUntil else claim.validUntil), renewal)
           == Renew(moves, old(On(claim)), window, ttl)
    {
      var move := moves(pos);
      renewal := RenewalNoReply;
      if move.latency <= window {
        match move.refusal {
          case Some(error) => renewal := RenewalRefused(error);
          case None =>
            match GrantedValidUntil(now, ttl, move.granted) {
              case None => renewal := RenewalRefused(FenceLost(ExpiredGrant));
              case Some(validUntil) => renewal := Granted(validUntil);
            }
        }
      }
      var until := now + Min(move.latency, window);
      log := log + [Renewed(now, until, claim.validUntil, renewal)];
      now, pos := until, pos + 1;
    }
  }

  /// A claim the host holds; its lease deadline is overwritten by every renewal.
  class PlaneClaim {
    const id: string
    var validUntil: nat

    constructor (id: string, validUntil: nat)
      ensures this.id == id && this.validUntil == validUntil
    {
      this.id := id;
      this.validUntil := validUntil;
    }
  }
}
