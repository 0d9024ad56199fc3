/// The wakeup protocol of the event channel: emitters enqueue under the lock and
/// then notify one waiter, the dropped sink closes the queue and then notifies
/// all, and one receiver waits. Steps of all of them interleave freely.
///
/// The notifier behaves as its library documents: notifying one waiter wakes the
/// registered receiver or else stores one permit; notifying all wakes every
/// future created before, polled or not; a future that is dropped after it was
/// woken alone passes its wakeup on.
module ChannelWakeup {
  import opened EventChannel

  /// Where the receiver is inside `recv`. `seen` is how often all waiters had
  /// been notified when its current future was created.
  datatype Receiver =
    | Away
    | Created(seen: nat)
    | Looked(seen: nat)
    | Registered(seen: nat)
    | Woken

  /// `owedOne` emitters have enqueued but not yet notified; `owedAll` is the same
  /// for the closing sink. `answer` is what the last receive returned.
  datatype State = State(chan: Channel, receiver: Receiver, permit: bool, notifiedAll: nat,
                         owedOne: nat, owedAll: nat, answer: Received)

  datatype Step =
    | Enqueue(event: HarnessEvent)
    | NotifyOne
    | CloseQueue
    | NotifyAll
    | TryRecv
    | CreateFuture
    | Look
    | PollFuture
    | Resume
    | DropFuture

  function Start(capacity: nat): State
  {
    State(Opened(capacity), Away, false, 0, 0, 0, Empty(false))
  }

  predicate Enabled(s: State, step: Step)
  {
    match step
    case Enqueue(_) => true
    case NotifyOne => s.owedOne > 0
    case CloseQueue => true
    case NotifyAll => s.owedAll > 0
    case TryRecv => s.receiver.Away?
    case CreateFuture => s.receiver.Away?
    case Look => s.receiver.Created?
    case PollFuture => s.receiver.Looked?
    case Resume => s.receiver.Woken? || (s.receiver.Registered? && s.receiver.seen < s.notifiedAll)
    case DropFuture => !s.receiver.Away?
  }

  function Took(s: State): State
    requires Faithful(s.chan)
  {
    if s.chan.events == [] then s.(answer := Empty(s.chan.closed))
    else s.(chan := Popped(s.chan), answer := Got(s.chan.events[0]))
  }

  function Next(s: State, step: Step): State
    requires Faithful(s.chan) && Enabled(s, step)
  {
    match step
    case Enqueue(event) => s.(chan := Enqueued(s.chan, event), owedOne := s.owedOne + 1)
    case NotifyOne =>
      if s.receiver.Registered? && s.receiver.seen == s.notifiedAll
      then s.(receiver := Woken, owedOne := s.owedOne - 1)
      else s.(permit := true, owedOne := s.owedOne - 1)
    case CloseQueue => s.(chan := s.chan.(closed := true), owedAll := s.owedAll + 1)
    case NotifyAll => s.(notifiedAll := s.notifiedAll + 1, owedAll := s.owedAll - 1)
    case TryRecv => Took(s)
    case CreateFuture => s.(receiver := Created(s.notifiedAll))
    case Look =>
      if s.chan.events == [] && !s.chan.closed then s.(receiver := Looked(s.receiver.seen))
      else Took(s).(receiver := Away)
    case PollFuture =>
      // a future that is ready at once lets the loop create the next one
      if s.permit then s.(permit := false, receiver := Created(s.notifiedAll))
      else if s.receiver.seen < s.notifiedAll then s.(receiver := Created(s.notifiedAll))
      else s.(receiver := Registered(s.receiver.seen))
    case Resume => s.(receiver := Created(s.notifiedAll))
    case DropFuture => s.(receiver := Away, permit := s.permit || s.receiver.Woken?)
  }

  // ----- Safety of every interleaving -----

  /// The receiver waits and nothing has woken it yet.
  predicate Blocked(s: State)
  {
    s.receiver.Registered? && s.receiver.seen == s.notifiedAll
  }

  ghost predicate Inv(s: State)
  {
    && Faithful(s.chan)
    && (s.receiver.Created? || s.receiver.Looked? || s.receiver.Registered? ==> s.receiver.seen <= s.notifiedAll)
    && (s.receiver.Looked? ==>
          && (s.chan.events != [] ==> s.permit || s.owedOne > 0)
          && (s.chan.closed ==> s.receiver.seen < s.notifiedAll || s.owedAll > 0))
    && (Blocked(s) ==>
          && (s.chan.events != [] ==> s.owedOne > 0)
          && (s.chan.closed ==> s.owedAll > 0))
  }

  ghost predicate Run(s: State, steps: seq<Step>, t: State)
    requires Faithful(s.chan)
    decreases |steps|
  {
    if steps == [] then s == t
    else Enabled(s, steps[0]) && Faithful(Next(s, steps[0]).chan) && Run(Next(s, steps[0]), steps[1..], t)
  }

  lemma StepKeepsFaithful(s: State, step: Step)
    requires Faithful(s.chan) && Enabled(s, step)
    ensures Faithful(Next(s, step).chan)
  {
    match step
    case Enqueue(event) => EnqueuedIsFaithful(s.chan, event);
    case TryRecv => if s.chan.events != [] { PoppedIsFaithful(s.chan); }
    case Look => if s.chan.events != [] { PoppedIsFaithful(s.chan); }
    case _ =>
  }

  lemma StepKeepsInv(s: State, step: Step)
    requires Inv(s) && Enabled(s, step)
    ensures Inv(Next(s, step))
  {
    StepKeepsFaithful(s, step);
  }

  /// No lost wakeup: at every point of every interleaving, a receiver that is
  /// blocked while something is queued, or while the queue is closed, has the
  /// wakeup for it still on its way.
  lemma {:induction false} NoLostWakeup(s: State, steps: seq<Step>, t: State)
    requires Inv(s) && Run(s, steps, t)
    ensures Inv(t)
    decreases |steps|
  {
    if steps != [] {
      StepKeepsInv(s, steps[0]);
      NoLostWakeup(Next(s, steps[0]), steps[1..], t);
    }
  }

  lemma FromStart(capacity: nat, steps: seq<Step>, t: State)
    requires Faithful(Start(capacity).chan) && Run(Start(capacity), steps, t)
    ensures Inv(t)
    ensures Blocked(t) && t.chan.events != [] ==> t.owedOne > 0 && Next(t, NotifyOne).receiver == Woken
    ensures Blocked(t) && t.chan.closed ==> t.owedAll > 0 && Enabled(Next(t, NotifyAll), Resume)
  {
    hide Faithful, Run;
    NoLostWakeup(Start(capacity), steps, t);
  }

  /// A receive that finds something queued answers the event queued first and moves it
  /// to the delivered ones; one that finds nothing answers whether the queue is
  /// closed, unless it goes on waiting, which it does only for an open one.
  lemma ReceivesTheOldest(s: State, step: Step)
    requires Inv(s) && Enabled(s, step) && (step.TryRecv? || step.Look?)
    ensures var t := Next(s, step);
            && t.receiver == (if step.Look? && s.chan.events == [] && !s.chan.closed then Looked(s.receiver.seen)
                              else Away)
            && (s.chan.events != [] ==>
                  && t.chan.delivered == s.chan.delivered + [s.chan.queued[0]]
                  && t.answer == Got(s.chan.emitted[s.chan.queued[0]])
                  && t.chan.queued == s.chan.queued[1..] && t.chan.emitted == s.chan.emitted)
            && (s.chan.events == [] ==> t.chan == s.chan)
            && (s.chan.events == [] && t.receiver.Away? ==> t.answer == Empty(s.chan.closed))
  {
  }

  /// The end of the stream is reported only by a closed and empty queue; from
  /// then on the delivered events are all that will ever be, and every event that
  /// may not be dropped is among them.
  lemma EndOfStream(s: State)
    requires Inv(s) && Enabled(s, Look)
    ensures var t := Next(s, Look);
            t.receiver.Away? && t.answer == Empty(true) ==>
              && s.chan.closed && s.chan.events == []
              && (forall e: HarnessEvent :: Enqueued(t.chan, e) == t.chan)
              && (forall n | 0 <= n < |t.chan.emitted| && !IsModelPreview(t.chan.emitted[n]) :: n in t.chan.delivered)
  {
  }
}
