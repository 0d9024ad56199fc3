/// The bounded event channel between a run and the session that forwards its
/// events: which events it may drop, and in what order the rest arrive.
module EventChannel {

  /// `Reported` stands for every event that is not a preview of a model turn.
  datatype HarnessEvent =
    | ModelTurn(turn: nat, contentPreview: string)
    | ContentTurn(turn: nat, partCount: nat)
    | Reported(kind: string, detail: string)

  datatype Received = Got(event: HarnessEvent) | Empty(closed: bool)

  predicate IsModelPreview(e: HarnessEvent)
  {
    e.ModelTurn? || e.ContentTurn?
  }

  function WithoutPreviews(events: seq<HarnessEvent>): seq<HarnessEvent>
  {
    if events == [] then []
    else (if IsModelPreview(events[0]) then [] else [events[0]]) + WithoutPreviews(events[1..])
  }

  function Previews(events: seq<HarnessEvent>): nat
  {
    if events == [] then 0 else (if IsModelPreview(events[0]) then 1 else 0) + Previews(events[1..])
  }

  /// The queue, with its history: what was emitted before it closed, and the
  /// positions, in what was emitted, of the events delivered and of those queued.
  datatype Channel = Channel(events: seq<HarnessEvent>, capacity: nat, closed: bool,
                             emitted: seq<HarnessEvent>, delivered: seq<nat>, queued: seq<nat>)

  function Opened(capacity: nat): Channel
  {
    Channel([], if capacity < 1 then 1 else capacity, false, [], [], [])
  }

  ghost predicate InRange(emitted: seq<HarnessEvent>, at: seq<nat>)
  {
    forall i | 0 <= i < |at| :: at[i] < |emitted|
  }

  /// The positions in `at` that do not hold a preview.
  function Lossless(emitted: seq<HarnessEvent>, at: seq<nat>): seq<nat>
    requires InRange(emitted, at)
  {
    if at == [] then []
    else (if IsModelPreview(emitted[at[0]]) then [] else [at[0]]) + Lossless(emitted, at[1..])
  }

  /// The events at these positions, in order.
  function Pick(emitted: seq<HarnessEvent>, at: seq<nat>): seq<HarnessEvent>
    requires InRange(emitted, at)
  {
    seq(|at|, i requires 0 <= i < |at| => emitted[at[i]])
  }

  function Enqueued(c: Channel, e: HarnessEvent): Channel
    requires InRange(c.emitted, c.queued)
  {
    if c.closed then c else
    var coalesce := IsModelPreview(e) && |c.events| >= c.capacity;
    c.(events := (if coalesce then WithoutPreviews(c.events) else c.events) + [e],
       emitted := c.emitted + [e],
       queued := (if coalesce then Lossless(c.emitted, c.queued) else c.queued) + [|c.emitted|])
  }

  function Popped(c: Channel): Channel
    requires c.events != [] && c.queued != []
  {
    c.(events := c.events[1..], delivered := c.delivered + [c.queued[0]], queued := c.queued[1..])
  }

  // ----- What the channel keeps -----

  ghost predicate Increasing(at: seq<nat>)
  {
    forall i, j | 0 <= i < j < |at| :: at[i] < at[j]
  }

  /// No preview is emitted after this one.
  ghost predicate IsLastPreview(emitted: seq<HarnessEvent>, n: nat)
    requires n < |emitted|
  {
    IsModelPreview(emitted[n]) && forall m | n < m < |emitted| :: !IsModelPreview(emitted[m])
  }

  /// What was delivered and what is queued are the events emitted at increasing
  /// positions. These include every event that is not a preview, and the preview
  /// emitted last. At most `capacity` previews wait.
  ghost predicate Faithful(c: Channel)
  {
    && c.capacity >= 1
    && InRange(c.emitted, c.delivered) && InRange(c.emitted, c.queued)
    && c.events == Pick(c.emitted, c.queued)
    && Increasing(c.delivered + c.queued)
    && (forall n | 0 <= n < |c.emitted| && (!IsModelPreview(c.emitted[n]) || IsLastPreview(c.emitted, n)) ::
          n in c.delivered || n in c.queued)
    && Previews(c.events) <= c.capacity
  }

  lemma OpenedIsFaithful(capacity: nat)
    ensures Faithful(Opened(capacity))
  {
  }

  lemma {:induction false} PreviewsAppend(events: seq<HarnessEvent>, e: HarnessEvent)
    ensures Previews(events + [e]) == Previews(events) + if IsModelPreview(e) then 1 else 0
    ensures Previews(events) <= |events|
  {
    if events == [] {
      assert events + [e] == [e];
    } else {
      PreviewsAppend(events[1..], e);
      assert (events + [e])[1..] == events[1..] + [e];
    }
  }

  /// Coalescing removes the previews and nothing else.
  lemma {:induction false} CoalescedEvents(emitted: seq<HarnessEvent>, at: seq<nat>)
    requires InRange(emitted, at)
    ensures InRange(emitted, Lossless(emitted, at))
    ensures WithoutPreviews(Pick(emitted, at)) == Pick(emitted, Lossless(emitted, at))
    ensures Previews(WithoutPreviews(Pick(emitted, at))) == 0
  {
    if at != [] {
      CoalescedEvents(emitted, at[1..]);
      assert Pick(emitted, at)[1..] == Pick(emitted, at[1..]);
      var rest := Lossless(emitted, at[1..]);
      assert Pick(emitted, [at[0]] + rest) == [emitted[at[0]]] + Pick(emitted, rest);
      assert Lossless(emitted, at) == if IsModelPreview(emitted[at[0]]) then rest else [at[0]] + rest;
    }
  }

  lemma {:induction false} LosslessPositions(emitted: seq<HarnessEvent>, at: seq<nat>)
    requires InRange(emitted, at)
    ensures forall n :: n in Lossless(emitted, at) <==> n in at && !IsModelPreview(emitted[n])
    ensures Increasing(at) ==> Increasing(Lossless(emitted, at))
  {
    if at != [] {
      LosslessPositions(emitted, at[1..]);
      assert at == [at[0]] + at[1..];
      if Increasing(at) {
        forall n | n in Lossless(emitted, at[1..]) ensures at[0] < n {
          var i :| 0 <= i < |at[1..]| && at[1..][i] == n;
          assert at[i + 1] == n;
        }
        IncreasingConcat([at[0]], Lossless(emitted, at[1..]));
      }
    }
  }

  lemma IncreasingConcat(a: seq<nat>, b: seq<nat>)
    ensures Increasing(a + b) <==> Increasing(a) && Increasing(b) && forall x, y | x in a && y in b :: x < y
  {
    var ab := a + b;
    if Increasing(ab) {
      forall i, j | 0 <= i < j < |a| ensures a[i] < a[j] { assert ab[i] < ab[j]; }
      forall i, j | 0 <= i < j < |b| ensures b[i] < b[j] { assert ab[|a| + i] < ab[|a| + j]; }
      forall x, y | x in a && y in b ensures x < y {
        var i, j :| 0 <= i < |a| && 0 <= j < |b| && a[i] == x && b[j] == y;
        assert ab[i] < ab[|a| + j];
      }
    }
    if Increasing(a) && Increasing(b) && forall x, y | x in a && y in b :: x < y {
      forall i, j | 0 <= i < j < |ab| ensures ab[i] < ab[j] {
        if j < |a| {
          assert a[i] < a[j];
        } else if i < |a| {
          assert a[i] in a && b[j - |a|] in b;
        } else {
          assert b[i - |a|] < b[j - |a|];
        }
      }
    }
  }

  /// Emitting keeps the channel faithful, whatever is queued.
  lemma EnqueuedIsFaithful(c: Channel, e: HarnessEvent)
    requires Faithful(c)
    ensures Faithful(Enqueued(c, e))
    ensures Enqueued(c, e).delivered == c.delivered
    ensures !c.closed ==> Enqueued(c, e).events != []
  {
    hide Increasing, IsLastPreview, Lossless, WithoutPreviews, Previews;
    if !c.closed {
      NothingLost(c, e);
      StaysInOrder(c, e);
      CoalescedEvents(c.emitted, c.queued);
      var t := Enqueued(c, e);
      var coalesce := IsModelPreview(e) && |c.events| >= c.capacity;
      var before := if coalesce then Lossless(c.emitted, c.queued) else c.queued;
      assert t.events == Pick(t.emitted, t.queued);
      PreviewsAppend(if coalesce then WithoutPreviews(c.events) else c.events, e);
    }
  }

  lemma StaysInOrder(c: Channel, e: HarnessEvent)
    requires Faithful(c) && !c.closed
    ensures var t := Enqueued(c, e); Increasing(t.delivered + t.queued)
  {
    var t := Enqueued(c, e);
    var before := if IsModelPreview(e) && |c.events| >= c.capacity then Lossless(c.emitted, c.queued) else c.queued;
    LosslessPositions(c.emitted, c.queued);
    hide Increasing, Lossless;
    IncreasingConcat(c.delivered, c.queued);
    IncreasingConcat(c.delivered, before);
    IncreasingConcat(c.delivered + before, [|c.emitted|]);
    SingleIsIncreasing(|c.emitted|);
    assert c.delivered + t.queued == (c.delivered + before) + [|c.emitted|];
  }

  lemma SingleIsIncreasing(n: nat)
    ensures Increasing([n])
  {
  }

  lemma NothingLost(c: Channel, e: HarnessEvent)
    requires Faithful(c) && !c.closed
    ensures var t := Enqueued(c, e);
            forall n | 0 <= n < |t.emitted| && (!IsModelPreview(t.emitted[n]) || IsLastPreview(t.emitted, n)) ::
              n in t.delivered || n in t.queued
  {
    var t := Enqueued(c, e);
    LosslessPositions(c.emitted, c.queued);
    assert t.queued[|t.queued| - 1] == |c.emitted|;
    forall n | 0 <= n < |t.emitted| && (!IsModelPreview(t.emitted[n]) || IsLastPreview(t.emitted, n))
      ensures n in t.delivered || n in t.queued
    {
      if n < |c.emitted| {
        assert t.emitted[n] == c.emitted[n];
        if IsModelPreview(c.emitted[n]) {
          assert !IsModelPreview(t.emitted[|c.emitted|]);
          assert forall m | n < m < |c.emitted| :: c.emitted[m] == t.emitted[m];
          assert IsLastPreview(c.emitted, n);
        }
      }
    }
  }

  lemma PoppedIsFaithful(c: Channel)
    requires Faithful(c) && c.events != []
    ensures Faithful(Popped(c))
    ensures Pick(c.emitted, Popped(c).delivered) == Pick(c.emitted, c.delivered) + [c.events[0]]
  {
    var t := Popped(c);
    assert t.delivered + t.queued == c.delivered + c.queued;
    assert forall n | n in c.queued :: n == c.queued[0] || n in c.queued[1..];
    assert c.queued[0] in t.delivered;
  }

  /// A bound on the queue itself: only events that may not be dropped can make
  /// it longer than its capacity.
  lemma {:induction false} QueueBound(events: seq<HarnessEvent>)
    ensures |events| == Previews(events) + |WithoutPreviews(events)|
  {
    if events != [] {
      QueueBound(events[1..]);
    }
  }

  // ----- What is dropped, and when -----

  /// A preview meets a queue that holds at least as many events as it has room for.
  predicate MeetsFull(c: Channel, e: HarnessEvent)
  {
    !c.closed && !e.Reported? && |c.events| >= c.capacity
  }

  /// A queued event leaves only by delivery, or when it is a preview and another
  /// preview meets a full queue; then all queued previews leave. What is emitted is
  /// queued last, unless the channel is closed.
  lemma DropsOnlyWhenFull(c: Channel, e: HarnessEvent)
    requires Faithful(c)
    ensures var t := Enqueued(c, e);
            && InRange(t.emitted, t.queued)
            && (c.closed ==> t == c)
            && (!c.closed ==> t.emitted == c.emitted + [e] && |c.emitted| in t.queued)
            && t.delivered == c.delivered && t.closed == c.closed && t.capacity == c.capacity
            && forall n | n in c.queued :: n !in t.queued <==> MeetsFull(c, e) && !c.emitted[n].Reported?
  {
    if !c.closed {
      LosslessPositions(c.emitted, c.queued);
      var t := Enqueued(c, e);
      assert t.queued[|t.queued| - 1] == |c.emitted|;
      forall n | n in c.queued ensures n < |c.emitted| && n != |c.emitted| {
        var i :| 0 <= i < |c.queued| && c.queued[i] == n;
      }
      EnqueuedIsFaithful(c, e);
    }
  }

  /// How many previews wait.
  function Waiting(events: seq<HarnessEvent>): nat
  {
    if events == [] then 0 else (if events[0].Reported? then 0 else 1) + Waiting(events[1..])
  }

  lemma {:induction false} LosslessLength(emitted: seq<HarnessEvent>, at: seq<nat>)
    requires InRange(emitted, at)
    ensures |at| == |Lossless(emitted, at)| + Waiting(Pick(emitted, at))
  {
    if at != [] {
      LosslessLength(emitted, at[1..]);
      assert Pick(emitted, at)[1..] == Pick(emitted, at[1..]);
    }
  }

  datatype Step = Emit(event: HarnessEvent) | Deliver | Close

  function Next(c: Channel, step: Step): Channel
    requires InRange(c.emitted, c.queued) && |c.queued| == |c.events|
  {
    match step
    case Emit(e) => Enqueued(c, e)
    case Deliver => if c.events == [] then c else Popped(c)
    case Close => c.(closed := true)
  }

  lemma NextIsFaithful(c: Channel, step: Step)
    requires Faithful(c)
    ensures Faithful(Next(c, step))
  {
    match step {
      case Emit(e) => EnqueuedIsFaithful(c, e);
      case Deliver => if c.events != [] { PoppedIsFaithful(c); }
      case Close =>
    }
  }

  function Run(c: Channel, steps: seq<Step>): (t: Channel)
    requires Faithful(c)
    ensures Faithful(t)
    decreases |steps|
  {
    if steps == [] then c
    else
      NextIsFaithful(c, steps[0]);
      Run(Next(c, steps[0]), steps[1..])
  }

  /// How many events are dropped over the run: the previews that wait whenever
  /// another preview meets a full queue.
  function DroppedIn(c: Channel, steps: seq<Step>): nat
    requires Faithful(c)
    decreases |steps|
  {
    if steps == [] then 0
    else
      NextIsFaithful(c, steps[0]);
      (if steps[0].Emit? && MeetsFull(c, steps[0].event) then Waiting(c.events) else 0)
      + DroppedIn(Next(c, steps[0]), steps[1..])
  }

  lemma StepDrops(c: Channel, step: Step)
    requires Faithful(c)
    ensures var t := Next(c, step);
            |t.emitted| - |t.delivered| - |t.queued|
            == |c.emitted| - |c.delivered| - |c.queued|
               + if step.Emit? && MeetsFull(c, step.event) then Waiting(c.events) else 0
  {
    if step.Emit? && MeetsFull(c, step.event) {
      LosslessLength(c.emitted, c.queued);
    }
  }

  /// Over every run, an event that was emitted is delivered, queued or dropped, and
  /// the dropped ones are counted exactly.
  lemma {:induction false} EveryEventIsAccountedFor(c: Channel, steps: seq<Step>)
    requires Faithful(c)
    ensures var t := Run(c, steps);
            |t.emitted| - |t.delivered| - |t.queued|
            == |c.emitted| - |c.delivered| - |c.queued| + DroppedIn(c, steps)
    decreases |steps|
  {
    if steps != [] {
      StepDrops(c, steps[0]);
      NextIsFaithful(c, steps[0]);
      hide Next, MeetsFull, Waiting, Faithful;
      EveryEventIsAccountedFor(Next(c, steps[0]), steps[1..]);
    }
  }

  /// So what is delivered and queued is everything that was emitted, in order,
  /// exactly when no waiting preview ever met another at a full queue.
  lemma AllArriveUnlessFull(capacity: nat, steps: seq<Step>)
    ensures var t := Run(Opened(capacity), steps);
            (forall i | 0 <= i < |t.delivered + t.queued| :: (t.delivered + t.queued)[i] == i)
            && |t.delivered + t.queued| == |t.emitted|
            <==> DroppedIn(Opened(capacity), steps) == 0
    ensures Opened(capacity).capacity == if capacity == 0 then 1 else capacity
  {
    OpenedIsFaithful(capacity);
    EveryEventIsAccountedFor(Opened(capacity), steps);
    var t := Run(Opened(capacity), steps);
    var all := t.delivered + t.queued;
    assert InRange(t.emitted, all);
    if |all| == |t.emitted| {
      FullRange(all, |t.emitted|);
    }
  }

  lemma FullRange(at: seq<nat>, n: nat)
    requires Increasing(at) && |at| == n && forall i | 0 <= i < |at| :: at[i] < n
    ensures forall i | 0 <= i < n :: at[i] == i
  {
    forall i | 0 <= i < n ensures at[i] == i {
      AtLeast(at, i);
      AtMost(at, n, i);
    }
  }

  lemma {:induction false} AtLeast(at: seq<nat>, i: nat)
    requires Increasing(at) && i < |at|
    ensures at[i] >= i
  {
    if i > 0 {
      AtLeast(at, i - 1);
    }
  }

  lemma {:induction false} AtMost(at: seq<nat>, n: nat, i: nat)
    requires Increasing(at) && i < |at| == n && forall k | 0 <= k < |at| :: at[k] < n
    ensures at[i] <= i
    decreases n - i
  {
    if i < n - 1 {
      AtMost(at, n, i + 1);
    }
  }

  // ----- The loop that drops previews -----

  lemma OneMoreRetained(events: seq<HarnessEvent>, i: nat, left: seq<HarnessEvent>)
    requires i < |events|
    ensures left + WithoutPreviews(events[i..])
         == (left + if IsModelPreview(events[i]) then [] else [events[i]]) + WithoutPreviews(events[i + 1..])
  {
    assert events[i..][0] == events[i] && events[i..][1..] == events[i + 1..];
  }

  lemma EndsRetained(events: seq<HarnessEvent>)
    ensures [] + WithoutPreviews(events[0..]) == WithoutPreviews(events)
    ensures forall left: seq<HarnessEvent> :: left + WithoutPreviews(events[|events|..]) == left
  {
    assert events[0..] == events && events[|events|..] == [];
  }

  // ----- The channel in place -----

  class AsyncChannel {
    var events: seq<HarnessEvent>
    const capacity: nat
    var closed: bool
    ghost var emitted: seq<HarnessEvent>
    ghost var delivered: seq<nat>
    ghost var queued: seq<nat>

    ghost function State(): Channel
      reads this
    {
      Channel(events, capacity, closed, emitted, delivered, queued)
    }

    ghost predicate Valid()
      reads this
    {
      Faithful(State())
    }

    constructor (capacity: nat)
      ensures Valid() && State() == Opened(capacity)
    {
      this.capacity := if capacity < 1 then 1 else capacity;
      events, closed, emitted, delivered, queued := [], false, [], [], [];
      new;
      OpenedIsFaithful(capacity);
    }

    method Emit(e: HarnessEvent)
      requires Valid()
      modifies this
      ensures Valid() && State() == Enqueued(old(State()), e)
    {
      EnqueuedIsFaithful(State(), e);
      if closed {
        return;
      }
      if IsModelPreview(e) && |events| >= capacity {
        queued := Lossless(emitted, queued);
        RetainOthers();
      }
      queued, emitted := queued + [|emitted|], emitted + [e];
      events := events + [e];
    }

    /// Drop the queued previews in place.
    method RetainOthers()
      modifies this`events
      ensures events == WithoutPreviews(old(events))
    {
      hide WithoutPreviews;
      var before := events;
      EndsRetained(before);
      var i, left := 0, [];
      while i < |before|
        invariant i <= |before|
        invariant WithoutPreviews(before) == left + WithoutPreviews(before[i..])
      {
        OneMoreRetained(before, i, left);
        if !IsModelPreview(before[i]) {
          left := left + [before[i]];
        } else {
          assert left + [] == left;
        }
        i := i + 1;
      }
      events := left;
    }

    method PopOrClosed() returns (r: Received)
      requires Valid()
      modifies this
      ensures Valid()
      ensures r.Got? <==> old(events) != []
      ensures r.Got? ==> r.event == old(events)[0] && State() == Popped(old(State()))
      ensures r.Empty? ==> State() == old(State()) && r.closed == closed
    {
      if events == [] {
        return Empty(closed);
      }
      PoppedIsFaithful(State());
      r := Got(events[0]);
      delivered, queued := delivered + [queued[0]], queued[1..];
      events := events[1..];
    }

    method Close()
      requires Valid()
      modifies this`closed
      ensures Valid() && State() == old(State()).(closed := true)
    {
      closed := true;
    }
  }
}
