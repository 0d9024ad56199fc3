/// Replaying a conversation to a client: every tool call is shown once, under its
/// stable id, and the answers that follow are tied back to it.
module ToolReplay {
  import opened Wrappers
  import opened ToolCalls

  datatype Replay = Replay(turn: nat, ids: map<string, string>, updates: seq<Update>)

  function ShowCalls(r: Replay, calls: seq<ToolCall>, n: nat): (after: Replay)
    requires n <= |calls|
    ensures after.turn == r.turn
  {
    if n == 0 then r
    else
      var before, call := ShowCalls(r, calls, n - 1), calls[n - 1];
      var stable := StableId(call, r.turn, n - 1);
      var known := before.ids[ConversationId(call, r.turn, n - 1) := stable];
      before.(ids := if call.id != "" then known[call.id := stable] else known,
              updates := before.updates + [CallShown(stable, call.name, call.argsJson)])
  }

  function AnswerId(r: Replay, id: string): string
  {
    if id in r.ids then r.ids[id] else id
  }

  function AnswerUpdate(r: Replay, m: ChatMessage): Update
  {
    CallUpdate(AnswerId(r, m.toolCallId), m.content == "permission denied" || m.content == "cancelled", m.content)
  }

  function Next(r: Replay, m: ChatMessage): Replay
  {
    match m.role
    case User => if m.content != "" then r.(updates := r.updates + [UserChunk(m.content)]) else r
    case Assistant =>
      var turn := NextTurn(r.turn);
      var spoken := if m.content != "" then [AgentChunk(m.content, turn)] else [];
      ShowCalls(r.(turn := turn, updates := r.updates + spoken), m.toolCalls, |m.toolCalls|)
    case Tool => r.(updates := r.updates + [AnswerUpdate(r, m)])
    case Other => r
  }

  function ReplayOf(messages: seq<ChatMessage>): Replay
  {
    if messages == [] then Replay(0, map[], [])
    else Next(ReplayOf(messages[..|messages| - 1]), messages[|messages| - 1])
  }

  /// The replay as it runs.
  method ConversationUpdates(messages: seq<ChatMessage>) returns (updates: seq<Update>)
    ensures updates == ReplayOf(messages).updates
  {
    hide StableId, ConversationId;
    updates := [];
    var turn, callIds := 0, map[];
    for n := 0 to |messages|
      invariant Replay(turn, callIds, updates) == ReplayOf(messages[..n])
    {
      var message := messages[n];
      assert messages[..n + 1][..n] == messages[..n];
      ghost var before := Replay(turn, callIds, updates);
      match message.role {
        case User =>
          if message.content != "" {
            updates := updates + [UserChunk(message.content)];
          }
        case Assistant =>
          turn := NextTurn(turn);
          if message.content != "" {
            updates := updates + [AgentChunk(message.content, turn)];
          } else {
            assert updates + [] == updates;
          }
          ghost var spoken := Replay(turn, callIds, updates);
          for index := 0 to |message.toolCalls|
            invariant Replay(turn, callIds, updates) == ShowCalls(spoken, message.toolCalls, index)
          {
            var call := message.toolCalls[index];
            var stable := StableId(call, turn, index);
            callIds := callIds[ConversationId(call, turn, index) := stable];
            if call.id != "" {
              callIds := callIds[call.id := stable];
            }
            updates := updates + [CallShown(stable, call.name, call.argsJson)];
          }
        case Tool =>
          updates := updates + [AnswerUpdate(Replay(turn, callIds, updates), message)];
        case Other =>
      }
      assert Replay(turn, callIds, updates) == Next(before, message);
    }
    assert messages[..|messages|] == messages;
  }

  // ----- Well-formed conversations -----

  ghost predicate DistinctBatch(calls: seq<ToolCall>, turn: nat)
  {
    forall i, j | 0 <= i < j < |calls| :: ConversationId(calls[i], turn, i) != ConversationId(calls[j], turn, j)
  }

  /// The call at that place of the last batch has no answer yet.
  ghost predicate Open(messages: seq<ChatMessage>, i: nat)
  {
    LastAssistant(messages).Some? &&
    var at := LastAssistant(messages).value;
    i < |messages[at].toolCalls|
    && !AnsweredAfter(messages, at, ConversationId(messages[at].toolCalls[i], ReplayOf(messages).turn, i))
  }

  ghost predicate BatchAnswered(messages: seq<ChatMessage>)
  {
    forall i: nat :: !Open(messages, i)
  }

  /// Ids are distinct within a batch, and a batch is answered before the next turn.
  ghost predicate WellFormed(messages: seq<ChatMessage>)
  {
    messages == [] ||
    var before, m := messages[..|messages| - 1], messages[|messages| - 1];
    && WellFormed(before)
    && (m.role.Assistant? ==> BatchAnswered(before) && DistinctBatch(m.toolCalls, ReplayOf(messages).turn))
  }

  /// After the call shown at k comes an update that answers it.
  ghost predicate AnsweredLater(updates: seq<Update>, k: nat)
    requires k < |updates| && updates[k].CallShown?
  {
    exists l | k < l < |updates| :: updates[l].CallUpdate? && updates[l].id == updates[k].id
  }

  /// Every call shown is answered later under the same id.
  ghost predicate Correlated(updates: seq<Update>)
  {
    forall k | 0 <= k < |updates| && updates[k].CallShown? :: AnsweredLater(updates, k)
  }

  // ----- Why answers find their calls -----

  /// Each call of the batch is known under its conversation id.
  ghost predicate BatchKnown(r: Replay, calls: seq<ToolCall>, n: nat)
    requires n <= |calls|
  {
    forall i | 0 <= i < n ::
      var id := ConversationId(calls[i], r.turn, i);
      id in r.ids && r.ids[id] == StableId(calls[i], r.turn, i)
  }

  lemma {:induction false} ShownCallsAreKnown(r: Replay, calls: seq<ToolCall>, n: nat)
    requires n <= |calls| && DistinctBatch(calls, r.turn)
    ensures BatchKnown(ShowCalls(r, calls, n), calls, n)
  {
    if n > 0 {
      ShownCallsAreKnown(r, calls, n - 1);
      assert calls[n - 1].id != "" ==> ConversationId(calls[n - 1], r.turn, n - 1) == calls[n - 1].id;
      hide StableId, ConversationId;
    }
  }

  /// What showing a batch adds.
  lemma {:induction false} ShownCalls(r: Replay, calls: seq<ToolCall>, n: nat)
    requires n <= |calls|
    ensures var after := ShowCalls(r, calls, n).updates;
            && |after| == |r.updates| + n && r.updates <= after
            && forall k | |r.updates| <= k < |after| ::
                 var i := k - |r.updates|;
                 after[k] == CallShown(StableId(calls[i], r.turn, i), calls[i].name, calls[i].argsJson)
  {
    hide StableId;
    if n > 0 {
      ShownCalls(r, calls, n - 1);
    }
  }

  /// A call that is shown and not answered later belongs to the last batch and is
  /// open.
  ghost predicate OwedOnly(messages: seq<ChatMessage>)
  {
    var r := ReplayOf(messages);
    && (forall k | 0 <= k < |r.updates| && r.updates[k].CallShown? && !AnsweredLater(r.updates, k) ::
         Owed(messages, r.updates[k].id))
    && (LastAssistant(messages).Some? ==>
          var calls := messages[LastAssistant(messages).value].toolCalls;
          BatchKnown(r, calls, |calls|))
  }

  ghost predicate Owed(messages: seq<ChatMessage>, id: string)
  {
    LastAssistant(messages).Some? &&
    var at := LastAssistant(messages).value;
    exists i | 0 <= i < |messages[at].toolCalls| ::
      Open(messages, i) && StableId(messages[at].toolCalls[i], ReplayOf(messages).turn, i) == id
  }

  lemma AnsweredLaterInLonger(updates: seq<Update>, more: seq<Update>, k: nat)
    requires k < |updates| && updates[k].CallShown?
    ensures AnsweredLater(updates, k) ==> AnsweredLater(updates + more, k)
    ensures |more| == 1 && more[0].CallUpdate? && more[0].id == updates[k].id ==> AnsweredLater(updates + more, k)
  {
    var all := updates + more;
    assert forall l | 0 <= l < |updates| :: all[l] == updates[l];
    if |more| == 1 {
      assert all[|updates|] == more[0];
    }
  }

  lemma SameBatch(messages: seq<ChatMessage>)
    requires messages != [] && !messages[|messages| - 1].role.Assistant?
    ensures var before := messages[..|messages| - 1];
            LastAssistant(before) == LastAssistant(messages) && ReplayOf(before).turn == ReplayOf(messages).turn
            && ReplayOf(before).ids == ReplayOf(messages).ids
  {
  }

  /// An answer closes the call it names and no other call of the batch.
  lemma OpenAfterOneMore(messages: seq<ChatMessage>, i: nat)
    requires messages != [] && !messages[|messages| - 1].role.Assistant? && LastAssistant(messages).Some?
    requires i < |messages[LastAssistant(messages).value].toolCalls|
    ensures var before, m, at := messages[..|messages| - 1], messages[|messages| - 1], LastAssistant(messages).value;
            Open(messages, i) <==>
              Open(before, i)
              && !(m.role.Tool?
                   && m.toolCallId == ConversationId(messages[at].toolCalls[i], ReplayOf(messages).turn, i))
  {
    var before, m := messages[..|messages| - 1], messages[|messages| - 1];
    SameBatch(messages);
    hide ReplayOf, ConversationId, LastAssistant, AnsweredAfter, AnsweredBy;
    assert messages == before + [m];
    var at := LastAssistant(messages).value;
    var id := ConversationId(messages[at].toolCalls[i], ReplayOf(messages).turn, i);
    AnsweredInLonger(before, [m], at, id);
    AnsweredByOne(m, id);
  }

  lemma AnsweredByOne(m: ChatMessage, id: string)
    ensures AnsweredBy([m], id) <==> m.role.Tool? && m.toolCallId == id
  {
    assert [m][0] == m;
  }

  lemma {:induction false} OnlyOpenCallsAreOwed(messages: seq<ChatMessage>)
    requires WellFormed(messages)
    ensures OwedOnly(messages)
  {
    if messages != [] {
      var before, m := messages[..|messages| - 1], messages[|messages| - 1];
      OnlyOpenCallsAreOwed(before);
      if m.role.Assistant? {
        OwedAfterAssistant(messages);
      } else {
        OwedAfterOther(messages);
      }
    }
  }

  lemma {:induction false} OwedAfterAssistant(messages: seq<ChatMessage>)
    requires messages != [] && messages[|messages| - 1].role.Assistant? && WellFormed(messages)
    requires OwedOnly(messages[..|messages| - 1])
    ensures OwedOnly(messages)
  {
    var before, m := messages[..|messages| - 1], messages[|messages| - 1];
    var at, calls := |messages| - 1, m.toolCalls;
    var r := ReplayOf(messages);
    var spoken := SpokenReplay(ReplayOf(before), m);
    ShownCalls(spoken, calls, |calls|);
    ShownCallsAreKnown(spoken, calls, |calls|);
    assert r == ShowCalls(spoken, calls, |calls|) && LastAssistant(messages) == Some(at);
    hide ShowCalls, StableId, ConversationId, DistinctBatch, LastAssistant, AnsweredLater, ReplayOf, BatchKnown,
        AnsweredAfter;
    forall k | 0 <= k < |r.updates| && r.updates[k].CallShown?
      ensures AnsweredLater(r.updates, k) || Owed(messages, r.updates[k].id)
    {
      if k < |ReplayOf(before).updates| {
        BeforeIsAnswered(before, k);
        AnsweredInPrefix(ReplayOf(before).updates, r.updates, k);
      } else {
        NewCallIsOwed(messages, k - |spoken.updates|);
      }
    }
  }

  lemma AnsweredInPrefix(updates: seq<Update>, all: seq<Update>, k: nat)
    requires k < |updates| && updates[k].CallShown? && updates <= all && AnsweredLater(updates, k)
    ensures AnsweredLater(all, k)
  {
    AnsweredLaterInLonger(updates, all[|updates|..], k);
    assert all == updates + all[|updates|..];
  }

  lemma NewCallIsOwed(messages: seq<ChatMessage>, i: nat)
    requires messages != [] && messages[|messages| - 1].role.Assistant? && i < |messages[|messages| - 1].toolCalls|
    ensures Owed(messages, StableId(messages[|messages| - 1].toolCalls[i], ReplayOf(messages).turn, i))
  {
    hide ReplayOf, StableId, ConversationId;
    assert Open(messages, i);
  }

  function SpokenReplay(r: Replay, m: ChatMessage): Replay
  {
    var turn := NextTurn(r.turn);
    r.(turn := turn, updates := r.updates + if m.content != "" then [AgentChunk(m.content, turn)] else [])
  }

  lemma BeforeIsAnswered(messages: seq<ChatMessage>, k: nat)
    requires OwedOnly(messages) && BatchAnswered(messages)
    requires k < |ReplayOf(messages).updates| && ReplayOf(messages).updates[k].CallShown?
    ensures AnsweredLater(ReplayOf(messages).updates, k)
  {
    hide ReplayOf, AnsweredLater, Open;
  }

  lemma {:induction false} OwedAfterOther(messages: seq<ChatMessage>)
    requires messages != [] && !messages[|messages| - 1].role.Assistant? && OwedOnly(messages[..|messages| - 1])
    ensures OwedOnly(messages)
  {
    var before, m := messages[..|messages| - 1], messages[|messages| - 1];
    var r, q := ReplayOf(before), ReplayOf(messages);
    SameBatch(messages);
    var more := q.updates[|r.updates|..];
    assert q.updates == r.updates + more;
    assert |more| <= 1 && (|more| == 1 ==> !more[0].CallShown?);
    forall k | 0 <= k < |q.updates| && q.updates[k].CallShown?
      ensures AnsweredLater(q.updates, k) || Owed(messages, q.updates[k].id)
    {
      AnsweredLaterInLonger(r.updates, more, k);
      if !AnsweredLater(r.updates, k) {
        var at := LastAssistant(messages).value;
        var calls := messages[at].toolCalls;
        var i :| 0 <= i < |calls| && Open(before, i) && StableId(calls[i], r.turn, i) == r.updates[k].id;
        OpenAfterOneMore(messages, i);
        if !Open(messages, i) {
          assert more == [AnswerUpdate(r, m)];
          assert more[0].id == StableId(calls[i], r.turn, i);
        }
      }
    }
  }

  /// In a well-formed conversation whose last batch is answered, replay answers
  /// every call it shows, under the id it shows it, even when the model used the
  /// same id in several turns.
  lemma ReplayCorrelates(messages: seq<ChatMessage>)
    requires WellFormed(messages) && BatchAnswered(messages)
    ensures Correlated(ReplayOf(messages).updates)
  {
    OnlyOpenCallsAreOwed(messages);
    forall k | 0 <= k < |ReplayOf(messages).updates| && ReplayOf(messages).updates[k].CallShown?
      ensures AnsweredLater(ReplayOf(messages).updates, k)
    {
      BeforeIsAnswered(messages, k);
    }
  }

  // ----- What a client gets to see -----

  /// An update without the ids and numbers the replay makes up.
  datatype Sight = Said(role: Role, text: string) | Called(call: ToolCall) | Answered(content: string, failed: bool)

  function SightOf(u: Update): Sight
  {
    match u
    case UserChunk(content) => Said(User, content)
    case AgentChunk(content, _) => Said(Assistant, content)
    case CallShown(_, name, argsJson) => Called(ToolCall("", name, argsJson))
    case CallUpdate(_, failed, content) => Answered(content, failed)
  }

  function Sights(updates: seq<Update>): seq<Sight>
  {
    seq(|updates|, k requires 0 <= k < |updates| => SightOf(updates[k]))
  }

  /// What a message has to show: its text unless it is empty, every call, every answer,
  /// as failed when it was denied or cancelled.
  function SightsIn(m: ChatMessage): seq<Sight>
  {
    match m.role
    case User => if m.content == "" then [] else [Said(User, m.content)]
    case Assistant =>
      (if m.content == "" then [] else [Said(Assistant, m.content)])
      + CallSights(m.toolCalls)
    case Tool => [Answered(m.content, m.content in {"permission denied", "cancelled"})]
    case Other => []
  }

  function AllSights(messages: seq<ChatMessage>): seq<Sight>
  {
    if messages == [] then [] else AllSights(messages[..|messages| - 1]) + SightsIn(messages[|messages| - 1])
  }

  lemma MessageIsShown(r: Replay, m: ChatMessage)
    ensures Sights(Next(r, m).updates) == Sights(r.updates) + SightsIn(m)
  {
    if m.role.Assistant? {
      var spoken := SpokenReplay(r, m);
      assert Next(r, m) == ShowCalls(spoken, m.toolCalls, |m.toolCalls|);
      BatchIsShown(spoken, m.toolCalls);
      hide ShowCalls, Next;
      var said := SightsIn(ChatMessage(Assistant, m.content, "", []));
      assert Sights(spoken.updates) == Sights(r.updates) + said;
      assert SightsIn(m) == said + CallSights(m.toolCalls);
    }
  }

  function CallSights(calls: seq<ToolCall>): seq<Sight>
  {
    seq(|calls|, i requires 0 <= i < |calls| => Called(calls[i].(id := "")))
  }

  lemma BatchIsShown(r: Replay, calls: seq<ToolCall>)
    ensures Sights(ShowCalls(r, calls, |calls|).updates) == Sights(r.updates) + CallSights(calls)
  {
    ShownCalls(r, calls, |calls|);
    hide StableId, ShowCalls;
  }

  /// A replay shows every message of the conversation, in order and nothing else.
  lemma {:induction false} ReplayShowsAll(messages: seq<ChatMessage>)
    ensures Sights(ReplayOf(messages).updates) == AllSights(messages)
  {
    if messages != [] {
      ReplayShowsAll(messages[..|messages| - 1]);
      MessageIsShown(ReplayOf(messages[..|messages| - 1]), messages[|messages| - 1]);
      hide Sights, SightsIn, Next;
    }
  }

  // ----- Cancelling, then replaying -----

  function Assistants(messages: seq<ChatMessage>): nat
  {
    if messages == [] then 0
    else Assistants(messages[..|messages| - 1]) + if messages[|messages| - 1].role.Assistant? then 1 else 0
  }

  /// The replay numbers turns by counting assistant messages, up to its width.
  lemma {:induction false} TurnCountsAssistants(messages: seq<ChatMessage>)
    ensures ReplayOf(messages).turn == if Assistants(messages) <= U32_MAX then Assistants(messages) else U32_MAX
  {
    if messages != [] {
      TurnCountsAssistants(messages[..|messages| - 1]);
    }
  }

  lemma {:induction false} AnswersKeepTurn(messages: seq<ChatMessage>, more: seq<ChatMessage>)
    requires forall k | 0 <= k < |more| :: more[k].role.Tool?
    ensures ReplayOf(messages + more).turn == ReplayOf(messages).turn
        && ReplayOf(messages + more).ids == ReplayOf(messages).ids
    ensures WellFormed(messages) ==> WellFormed(messages + more)
    decreases |more|
  {
    var all := messages + more;
    if more == [] {
      assert all == messages;
    } else {
      var init := more[..|more| - 1];
      AnswersKeepTurn(messages, init);
      assert all[..|all| - 1] == messages + init;
      assert all[|all| - 1] == more[|more| - 1];
      SameBatch(all);
    }
  }

  lemma {:induction false} LastBatchIsDistinct(messages: seq<ChatMessage>)
    requires WellFormed(messages) && LastAssistant(messages).Some?
    ensures DistinctBatch(messages[LastAssistant(messages).value].toolCalls, ReplayOf(messages).turn)
  {
    if !messages[|messages| - 1].role.Assistant? {
      SameBatch(messages);
      LastBatchIsDistinct(messages[..|messages| - 1]);
    }
  }

  /// A cancellation made under other turn numbers never carries the id of a call
  /// that has none of its own.
  lemma NotCancelledUnderOtherNumbers(messages: seq<ChatMessage>, at: nat, turn: nat, completed: nat, i: nat)
    requires at < |messages| && i < |messages[at].toolCalls| && messages[at].toolCalls[i].id == "" && completed != turn
    requires DistinctBatch(messages[at].toolCalls, turn)
    ensures !AnsweredBy(Cancellations(messages, at, completed, |messages[at].toolCalls|), Synthesized(turn, i))
  {
    var batch := messages[at].toolCalls;
    var more := Cancellations(messages, at, completed, |batch|);
    forall k | 0 <= k < |more| ensures more[k].toolCallId != Synthesized(turn, i) {
      var j := CancelledInBatch(messages, at, completed, |batch|, more[k]);
      hide Cancellations, Synthesized;
      if batch[j].id == "" && Synthesized(completed, j) == Synthesized(turn, i) {
        SameNumbers(completed, j, turn, i, "", "");
      }
      assert i != j ==> ConversationId(batch[j], turn, j) != ConversationId(batch[i], turn, i);
    }
  }

  /// After cancelling, a call of the last batch is still open for a replay exactly
  /// when it has no id of its own, the checkpoint counts turns otherwise than the
  /// replay does, and no message answered it before under the replay's count. Only
  /// the ids within that batch need to be distinct.
  lemma OpenAfterClosing(messages: seq<ChatMessage>, completed: nat, i: nat)
    requires LastAssistant(messages).Some?
    requires DistinctBatch(messages[LastAssistant(messages).value].toolCalls, ReplayOf(messages).turn)
    requires i < |messages[LastAssistant(messages).value].toolCalls|
    ensures WellFormed(messages) ==> WellFormed(Closed(messages, completed))
    ensures ReplayOf(Closed(messages, completed)).turn == ReplayOf(messages).turn
    ensures Open(Closed(messages, completed), i) <==> OpenUnderReplay(messages, completed, i)
  {
    var at, turn := LastAssistant(messages).value, ReplayOf(messages).turn;
    var call := messages[at].toolCalls[i];
    var more := Cancellations(messages, at, completed, |messages[at].toolCalls|);
    CancellationsAnswer(messages, at, completed, |messages[at].toolCalls|);
    assert forall k | 0 <= k < |more| :: more[k] in more;
    SameLastAssistant(messages, more);
    AnswersKeepTurn(messages, more);
    AnsweredInLonger(messages, more, at, ConversationId(call, turn, i));
    if call.id == "" && completed != turn {
      NotCancelledUnderOtherNumbers(messages, at, turn, completed, i);
    }
    hide AnsweredAfter, AnsweredBy, LastAssistant, Cancellations, WellFormed, Synthesized, ReplayOf, DistinctBatch;
    assert (messages + more)[at] == messages[at];
  }

  predicate OpenUnderReplay(messages: seq<ChatMessage>, completed: nat, i: nat)
    requires LastAssistant(messages).Some? && i < |messages[LastAssistant(messages).value].toolCalls|
  {
    var at, turn := LastAssistant(messages).value, ReplayOf(messages).turn;
    messages[at].toolCalls[i].id == "" && completed != turn && !AnsweredAfter(messages, at, Synthesized(turn, i))
  }

  /// Cancel closes, replay correlates: when the checkpoint's turn count agrees with
  /// the conversation, every call shown by a later replay is answered.
  lemma CancelThenReplay(messages: seq<ChatMessage>, completed: nat)
    requires WellFormed(messages) && completed == ReplayOf(messages).turn
    ensures Correlated(ReplayOf(Closed(messages, completed)).updates)
  {
    var closed := Closed(messages, completed);
    ClosingAnswersTheBatch(messages, completed);
    if LastAssistant(messages).Some? {
      var at := LastAssistant(messages).value;
      assert closed[at] == messages[at];
      LastBatchIsDistinct(messages);
      forall i: nat ensures !Open(closed, i) {
        if i < |messages[at].toolCalls| {
          OpenAfterClosing(messages, completed, i);
        }
      }
      AnswersKeep(messages, completed);
    }
    ReplayCorrelates(closed);
  }

  lemma AnswersKeep(messages: seq<ChatMessage>, completed: nat)
    requires WellFormed(messages)
    ensures WellFormed(Closed(messages, completed))
  {
    if LastAssistant(messages).Some? {
      var at := LastAssistant(messages).value;
      var more := Cancellations(messages, at, completed, |messages[at].toolCalls|);
      CancellationsAnswer(messages, at, completed, |messages[at].toolCalls|);
      assert forall k | 0 <= k < |more| :: more[k] in more;
      AnswersKeepTurn(messages, more);
    }
  }

  // ----- Exactly when it fails -----

  /// No answer is tied to a turn above the given one.
  ghost predicate NoIdAbove(ids: map<string, string>, turn: nat)
  {
    forall key, t: nat, j: nat | key in ids && t > turn :: ids[key] != Synthesized(t, j)
  }

  /// Only its own id is tied to the call shown under the synthesized id.
  ghost predicate OnlyOwnId(ids: map<string, string>, turn: nat, i: nat)
  {
    forall key | key in ids && ids[key] == Synthesized(turn, i) :: key == Synthesized(turn, i)
  }

  lemma StableIsSynthesized(call: ToolCall, t: nat, j: nat, u: nat, i: nat)
    requires StableId(call, t, j) == Synthesized(u, i)
    ensures t == u && j == i
  {
    StableIdsDiffer(call, t, j, ToolCall("", "", ""), u, i);
  }

  lemma {:induction false} ShownIdsAbove(r: Replay, calls: seq<ToolCall>, n: nat)
    requires n <= |calls| && NoIdAbove(r.ids, r.turn)
    ensures NoIdAbove(ShowCalls(r, calls, n).ids, r.turn)
  {
    hide Synthesized, StableId, ConversationId;
    if n > 0 {
      ShownIdsAbove(r, calls, n - 1);
      forall t: nat, j: nat | t > r.turn ensures StableId(calls[n - 1], r.turn, n - 1) != Synthesized(t, j) {
        if StableId(calls[n - 1], r.turn, n - 1) == Synthesized(t, j) {
          StableIsSynthesized(calls[n - 1], r.turn, n - 1, t, j);
        }
      }
    }
  }

  lemma {:induction false} ShownIdsOwn(r: Replay, calls: seq<ToolCall>, n: nat, i: nat)
    requires n <= |calls| && i < |calls| && calls[i].id == ""
    requires OnlyOwnId(r.ids, r.turn, i)
    ensures OnlyOwnId(ShowCalls(r, calls, n).ids, r.turn, i)
  {
    if n > 0 {
      ShownIdsOwn(r, calls, n - 1, i);
      var stable := StableId(calls[n - 1], r.turn, n - 1);
      if stable == Synthesized(r.turn, i) {
        StableIsSynthesized(calls[n - 1], r.turn, n - 1, r.turn, i);
      }
      hide StableId, Synthesized;
    }
  }

  lemma {:induction false} IdsOfTurns(messages: seq<ChatMessage>)
    requires Assistants(messages) <= U32_MAX
    ensures NoIdAbove(ReplayOf(messages).ids, ReplayOf(messages).turn)
    ensures LastAssistant(messages).Some? ==>
              var calls := messages[LastAssistant(messages).value].toolCalls;
              forall i | 0 <= i < |calls| && calls[i].id == "" ::
                OnlyOwnId(ReplayOf(messages).ids, ReplayOf(messages).turn, i)
  {
    hide Synthesized;
    if messages != [] {
      var before, m := messages[..|messages| - 1], messages[|messages| - 1];
      IdsOfTurns(before);
      if m.role.Assistant? {
        TurnCountsAssistants(before);
        var spoken := SpokenReplay(ReplayOf(before), m);
        ShownIdsAbove(spoken, m.toolCalls, |m.toolCalls|);
        forall i | 0 <= i < |m.toolCalls| && m.toolCalls[i].id == ""
          ensures OnlyOwnId(ReplayOf(messages).ids, ReplayOf(messages).turn, i)
        {
          ShownIdsOwn(spoken, m.toolCalls, |m.toolCalls|, i);
        }
      } else {
        SameBatch(messages);
      }
    }
  }

  /// An open call without an id of its own is shown and never answered.
  lemma {:induction false} OpenIsNeverAnswered(messages: seq<ChatMessage>, i: nat) returns (k: nat)
    requires Assistants(messages) <= U32_MAX && Open(messages, i)
    requires messages[LastAssistant(messages).value].toolCalls[i].id == ""
    ensures var r := ReplayOf(messages);
            && k < |r.updates| && r.updates[k].CallShown? && r.updates[k].id == Synthesized(r.turn, i)
            && forall l | k < l < |r.updates| :: r.updates[l].CallUpdate? ==> r.updates[l].id != Synthesized(r.turn, i)
  {
    hide Synthesized, StableId;
    var before, m := messages[..|messages| - 1], messages[|messages| - 1];
    if m.role.Assistant? {
      var spoken := SpokenReplay(ReplayOf(before), m);
      ShownCalls(spoken, m.toolCalls, |m.toolCalls|);
      k := |spoken.updates| + i;
      assert StableId(m.toolCalls[i], spoken.turn, i) == Synthesized(spoken.turn, i)
          by { NoIdOfItsOwn(m.toolCalls[i], spoken.turn, i); }
    } else {
      SameBatch(messages);
      OpenAfterOneMore(messages, i);
      hide Open, LastAssistant;
      k := OpenIsNeverAnswered(before, i);
      IdsOfTurns(before);
      var r, q := ReplayOf(before), ReplayOf(messages);
      if m.role.Tool? {
        AnsweredElsewhere(r, m, i);
        assert q.updates == r.updates + [AnswerUpdate(r, m)];
      } else {
        assert q.updates == r.updates || (|q.updates| == |r.updates| + 1 && r.updates <= q.updates
            && q.updates[|r.updates|].UserChunk?);
      }
    }
  }

  lemma NoIdOfItsOwn(call: ToolCall, turn: nat, i: nat)
    requires call.id == ""
    ensures StableId(call, turn, i) == ConversationId(call, turn, i) == Synthesized(turn, i)
  {
  }

  lemma AnsweredElsewhere(r: Replay, m: ChatMessage, i: nat)
    requires OnlyOwnId(r.ids, r.turn, i) && m.toolCallId != Synthesized(r.turn, i)
    ensures AnswerUpdate(r, m).id != Synthesized(r.turn, i)
  {
  }

  /// For answers under the replay's own numbers: whatever turn count the calls are
  /// cancelled with, the replay is complete exactly when no call is left open so.
  lemma CancelUnderOwnNumbers(messages: seq<ChatMessage>, completed: nat)
    requires WellFormed(messages) && LastAssistant(messages).Some? && Assistants(messages) <= U32_MAX
    ensures Correlated(ReplayOf(Closed(messages, completed)).updates) <==>
              var calls := messages[LastAssistant(messages).value].toolCalls;
              forall i | 0 <= i < |calls| :: !OpenUnderReplay(messages, completed, i)
  {
    var closed, at := Closed(messages, completed), LastAssistant(messages).value;
    var calls := messages[at].toolCalls;
    ClosingAnswersTheBatch(messages, completed);
    assert closed[at] == messages[at];
    SameAssistants(messages, completed);
    AnswersKeep(messages, completed);
    LastBatchIsDistinct(messages);
    hide Closed, AnsweredAfter, WellFormed, LastAssistant, DistinctBatch;
    forall i | 0 <= i < |calls| ensures Open(closed, i) <==> OpenUnderReplay(messages, completed, i) {
      OpenAfterClosing(messages, completed, i);
    }
    if i :| 0 <= i < |calls| && OpenUnderReplay(messages, completed, i) {
      var k := OpenIsNeverAnswered(closed, i);
      assert !AnsweredLater(ReplayOf(closed).updates, k);
    } else {
      ReplayCorrelates(closed);
    }
  }

  lemma SameAssistants(messages: seq<ChatMessage>, completed: nat)
    ensures Assistants(Closed(messages, completed)) == Assistants(messages)
  {
    if LastAssistant(messages).Some? {
      var at := LastAssistant(messages).value;
      var more := Cancellations(messages, at, completed, |messages[at].toolCalls|);
      CancellationsAnswer(messages, at, completed, |messages[at].toolCalls|);
      assert forall k | 0 <= k < |more| :: more[k] in more;
      NoMoreAssistants(messages, more);
    }
  }

  lemma {:induction false} NoMoreAssistants(messages: seq<ChatMessage>, more: seq<ChatMessage>)
    requires forall k | 0 <= k < |more| :: more[k].role.Tool?
    ensures Assistants(messages + more) == Assistants(messages)
    decreases |more|
  {
    var all := messages + more;
    if more == [] {
      assert all == messages;
    } else {
      NoMoreAssistants(messages, more[..|more| - 1]);
      assert all[..|all| - 1] == messages + more[..|more| - 1];
    }
  }
}
