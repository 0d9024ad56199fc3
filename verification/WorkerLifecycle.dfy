/// The published state of a plane worker: the claims it works on, its health
/// flags, and how many claims ended how.
module WorkerLifecycle {
  import opened Wrappers
  import opened ClaimPort

  datatype Op =
    | Began(id: string, at: nat)
    | Ended(id: string, outcome: AckOutcome)
    | Dropped(id: string)
    | Draining
    | FenceFlagged
    | GovernanceDown

  predicate Releases(op: Op, id: string)
  {
    (op.Ended? && op.id == id) || (op.Dropped? && op.id == id)
  }

  function ReleaseCount(ops: seq<Op>, id: string): nat
  {
    if ops == [] then 0
    else ReleaseCount(ops[..|ops| - 1], id) + if Releases(ops[|ops| - 1], id) then 1 else 0
  }

  lemma ReleaseCountOneMore(ops: seq<Op>, op: Op, id: string)
    ensures ReleaseCount(ops + [op], id) == ReleaseCount(ops, id) + if Releases(op, id) then 1 else 0
  {
    assert (ops + [op])[..|ops|] == ops;
  }

  /// The positions, among the answers the host met, at which claims were begun.
  function Begins(ops: seq<Op>): seq<nat>
  {
    if ops == [] then [] else Begins(ops[..|ops| - 1]) + if ops[|ops| - 1].Began? then [ops[|ops| - 1].at] else []
  }

  lemma BeginsOneMore(ops: seq<Op>, op: Op)
    ensures Begins(ops + [op]) == Begins(ops) + if op.Began? then [op.at] else []
  {
    assert (ops + [op])[..|ops|] == ops;
  }

  /// The ids other than `id`, in order.
  function Without(ids: seq<string>, id: string): seq<string>
  {
    if ids == [] then []
    else Without(ids[..|ids| - 1], id) + if ids[|ids| - 1] == id then [] else [ids[|ids| - 1]]
  }

  /// What is kept about claims: those at work, the calls made so far, and how
  /// many claims ended with each outcome.
  datatype Book = Book(active: seq<string>, ops: seq<Op>, completed: nat, failed: nat, parked: nat)

  function Begun(b: Book, id: string, at: nat): Book
  {
    b.(active := b.active + [id], ops := b.ops + [Began(id, at)])
  }

  /// Between the two books no claim was begun and this one was released exactly
  /// once: as ended with `outcome`, or without an outcome.
  ghost predicate ReleasedAs(before: Book, after: Book, id: string, outcome: Option<AckOutcome>)
  {
    && before.ops <= after.ops
    && ReleaseCount(after.ops, id) == ReleaseCount(before.ops, id) + 1
    && Begins(after.ops) == Begins(before.ops)
    && after.active == Without(before.active, id)
    && after.completed == before.completed + (if outcome == Some(Completed) then 1 else 0)
    && after.failed == before.failed + (if outcome == Some(Failed) then 1 else 0)
    && after.parked == before.parked + (if outcome == Some(Parked) then 1 else 0)
  }

  /// Flagging the worker before or after a release changes nothing about it.
  lemma FlagBeforeRelease(before: Book, flag: Op, after: Book, id: string, outcome: Option<AckOutcome>)
    requires flag.Draining? || flag.FenceFlagged? || flag.GovernanceDown?
    requires ReleasedAs(before.(ops := before.ops + [flag]), after, id, outcome)
    ensures ReleasedAs(before, after, id, outcome)
  {
    ReleaseCountOneMore(before.ops, flag, id);
    BeginsOneMore(before.ops, flag);
  }

  lemma FlagAfterRelease(before: Book, after: Book, flag: Op, id: string, outcome: Option<AckOutcome>)
    requires flag.Draining? || flag.FenceFlagged? || flag.GovernanceDown?
    requires ReleasedAs(before, after, id, outcome)
    ensures ReleasedAs(before, after.(ops := after.ops + [flag]), id, outcome)
  {
    ReleaseCountOneMore(after.ops, flag, id);
    BeginsOneMore(after.ops, flag);
  }

  /// A claim that was begun and released is gone from the active ones, and a
  /// claim of the same id that was not active before leaves them as they were.
  lemma {:induction false} BegunAndReleased(before: Book, after: Book, id: string, at: nat, outcome: Option<AckOutcome>)
    requires ReleasedAs(Begun(before, id, at), after, id, outcome)
    ensures ReleaseCount(after.ops, id) == ReleaseCount(before.ops, id) + 1
    ensures Begins(after.ops) == Begins(before.ops) + [at]
    ensures id !in after.active
    ensures id !in before.active ==> after.active == before.active
  {
    ReleaseCountOneMore(before.ops, Began(id, at), id);
    BeginsOneMore(before.ops, Began(id, at));
    assert (before.active + [id])[..|before.active|] == before.active;
    WithoutIsExact(before.active, id);
  }

  lemma {:induction false} WithoutIsExact(ids: seq<string>, id: string)
    ensures id !in Without(ids, id)
    ensures id !in ids ==> Without(ids, id) == ids
  {
    if ids != [] {
      WithoutIsExact(ids[..|ids| - 1], id);
    }
  }

  /// `ops` records the calls in order; the other fields are what is published.
  class Lifecycle {
    var activeClaimIds: seq<string>
    var draining: bool
    var governanceOk: bool
    var fencingOk: bool
    var terminalCompleted: nat
    var terminalFailed: nat
    var terminalParked: nat
    ghost var ops: seq<Op>

    constructor ()
      ensures Booked() == Book([], [], 0, 0, 0) && !draining && governanceOk && fencingOk
    {
      activeClaimIds, draining, governanceOk, fencingOk := [], false, true, true;
      terminalCompleted, terminalFailed, terminalParked := 0, 0, 0;
      ops := [];
    }

    ghost function Booked(): Book
      reads this
    {
      Book(activeClaimIds, ops, terminalCompleted, terminalFailed, terminalParked)
    }

    /// Ready: healthy, not draining, and at work on nothing. The worker takes one
    /// claim at a time.
    predicate AcceptingClaims()
      reads this
    {
      governanceOk && fencingOk && !draining && activeClaimIds == []
    }

    method BeginClaim(id: string, ghost at: nat)
      modifies this`activeClaimIds, this`fencingOk, this`ops
      ensures Booked() == Begun(old(Booked()), id, at) && fencingOk
    {
      activeClaimIds := activeClaimIds + [id];
      fencingOk := true;
      ops := ops + [Began(id, at)];
    }

    method EndClaimTerminal(id: string, outcome: AckOutcome)
      modifies this`activeClaimIds, this`terminalCompleted, this`terminalFailed, this`terminalParked, this`ops
      ensures ReleasedAs(old(Booked()), Booked(), id, Some(outcome))
    {
      hide ReleaseCount, Begins, Without;
      ReleaseCountOneMore(ops, Ended(id, outcome), id);
      BeginsOneMore(ops, Ended(id, outcome));
      activeClaimIds := Without(activeClaimIds, id);
      match outcome {
        case Completed => terminalCompleted := terminalCompleted + 1;
        case Failed => terminalFailed := terminalFailed + 1;
        case Parked => terminalParked := terminalParked + 1;
      }
      ops := ops + [Ended(id, outcome)];
    }

    method DropActiveClaim(id: string)
      modifies this`activeClaimIds, this`ops
      ensures ReleasedAs(old(Booked()), Booked(), id, None)
    {
      hide ReleaseCount, Begins, Without;
      ReleaseCountOneMore(ops, Dropped(id), id);
      BeginsOneMore(ops, Dropped(id));
      activeClaimIds := Without(activeClaimIds, id);
      ops := ops + [Dropped(id)];
    }

    method SetDraining()
      modifies this`draining, this`ops
      ensures draining && ops == old(ops) + [Draining]
    {
      draining := true;
      ops := ops + [Draining];
    }

    method SetFenceLost()
      modifies this`fencingOk, this`ops
      ensures !fencingOk && ops == old(ops) + [FenceFlagged]
    {
      fencingOk := false;
      ops := ops + [FenceFlagged];
    }

    method SetGovernanceDown()
      modifies this`governanceOk, this`ops
      ensures !governanceOk && ops == old(ops) + [GovernanceDown]
    {
      governanceOk := false;
      ops := ops + [GovernanceDown];
    }
  }
}
