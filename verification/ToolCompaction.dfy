/// Histories a run recorded and a session compacted: calls were answered under the
/// run's turn numbers, or under the ids the model gave, and a replay numbers the
/// turns that are left from one on.
module ToolCompaction {
  import opened Wrappers
  import opened Text
  import opened ToolCalls
  import opened ToolReplay

  // ----- Recorded histories -----

  /// The ids under which the calls of a batch of this turn are answered.
  function BatchIds(calls: seq<ToolCall>, turn: nat): set<string>
  {
    set i | 0 <= i < |calls| :: ConversationId(calls[i], turn, i)
  }

  /// The ids the run writes on answers to a batch: those, and in a rejected batch the
  /// ids the model gave, which may be empty.
  function AnswerIds(calls: seq<ToolCall>, turn: nat): set<string>
  {
    BatchIds(calls, turn) + set c | c in calls :: c.id
  }

  function LastBatch(messages: seq<ChatMessage>): seq<ToolCall>
  {
    match LastAssistant(messages)
    case Some(at) => messages[at].toolCalls
    case None => []
  }

  /// The run's number of the turn the messages are in, when `first` turns were
  /// dropped in front of them.
  function TurnOf(messages: seq<ChatMessage>, first: nat): nat
  {
    first + Assistants(messages)
  }

  /// What the run wrote and compaction left: every answer is to the batch before it.
  ghost predicate Recorded(messages: seq<ChatMessage>, first: nat)
  {
    messages == [] ||
    var before, m := messages[..|messages| - 1], messages[|messages| - 1];
    && Recorded(before, first)
    && (m.role.Tool? ==> m.toolCallId in AnswerIds(LastBatch(before), TurnOf(before, first)))
  }

  /// The calls of the last turn are all answered under their conversation ids.
  ghost predicate AnsweredUnder(messages: seq<ChatMessage>, turn: nat)
  {
    LastAssistant(messages).Some? ==>
      var at := LastAssistant(messages).value;
      forall id | id in BatchIds(messages[at].toolCalls, turn) :: AnsweredAfter(messages, at, id)
  }

  /// Every batch but the last is answered so before the next turn.
  ghost predicate EarlierAnswered(messages: seq<ChatMessage>, first: nat)
  {
    messages == [] ||
    var before, m := messages[..|messages| - 1], messages[|messages| - 1];
    EarlierAnswered(before, first) && (m.role.Assistant? ==> AnsweredUnder(before, TurnOf(before, first)))
  }

  /// No two calls of a batch have the same id.
  ghost predicate DistinctBatches(messages: seq<ChatMessage>, first: nat)
  {
    messages == [] ||
    var before, m := messages[..|messages| - 1], messages[|messages| - 1];
    DistinctBatches(before, first) && (m.role.Assistant? ==> DistinctBatch(m.toolCalls, TurnOf(messages, first)))
  }

  ghost predicate EveryCallHasAnId(messages: seq<ChatMessage>)
  {
    forall m | m in messages && m.role.Assistant? :: forall c | c in m.toolCalls :: c.id != ""
  }

  /// The numbers of run and replay agree wherever they matter.
  ghost predicate SameNumbering(messages: seq<ChatMessage>, first: nat)
  {
    first == 0 || EveryCallHasAnId(messages)
  }

  // ----- Closing keeps a history recorded -----

  lemma {:induction false} AnswersKeepRecorded(messages: seq<ChatMessage>, first: nat, more: seq<ChatMessage>)
    requires Recorded(messages, first) && LastAssistant(messages).Some?
    requires forall c | c in more ::
               c.role.Tool? && c.toolCallId in AnswerIds(LastBatch(messages), TurnOf(messages, first))
    ensures Recorded(messages + more, first)
    decreases |more|
  {
    if more == [] {
      assert messages + more == messages;
    } else {
      var init, last := more[..|more| - 1], more[|more| - 1];
      assert last in more && forall c | c in init :: c in more;
      hide *;
      AnswersKeepRecorded(messages, first, init);
      SameTurnAfter(messages, init);
      RecordedOneMore(messages + init, first, last);
      assert messages + more == (messages + init) + [last];
    }
  }

  lemma RecordedOneMore(messages: seq<ChatMessage>, first: nat, m: ChatMessage)
    requires Recorded(messages, first)
    requires m.toolCallId in AnswerIds(LastBatch(messages), TurnOf(messages, first))
    ensures Recorded(messages + [m], first)
  {
    hide AnswerIds, LastBatch, Assistants;
    assert (messages + [m])[..|messages|] == messages;
  }

  lemma SameTurnAfter(messages: seq<ChatMessage>, more: seq<ChatMessage>)
    requires LastAssistant(messages).Some? && forall c | c in more :: c.role.Tool?
    ensures LastAssistant(messages + more) == LastAssistant(messages)
        && Assistants(messages + more) == Assistants(messages)
    ensures (messages + more)[LastAssistant(messages).value] == messages[LastAssistant(messages).value]
    ensures LastBatch(messages + more) == LastBatch(messages)
    ensures forall first :: TurnOf(messages + more, first) == TurnOf(messages, first)
  {
    assert forall k | 0 <= k < |more| :: more[k] in more;
    SameLastAssistant(messages, more);
    NoMoreAssistants(messages, more);
  }

  lemma {:induction false} ClosingKeepsRecorded(messages: seq<ChatMessage>, first: nat)
    requires Recorded(messages, first)
    ensures Recorded(Closed(messages, TurnOf(messages, first)), first)
    ensures Assistants(Closed(messages, TurnOf(messages, first))) == Assistants(messages)
    ensures SameNumbering(messages, first) ==> SameNumbering(Closed(messages, TurnOf(messages, first)), first)
  {
    var turn := TurnOf(messages, first);
    SameAssistants(messages, turn);
    if LastAssistant(messages).Some? {
      var at := LastAssistant(messages).value;
      var n := |messages[at].toolCalls|;
      var more := Cancellations(messages, at, turn, n);
      CancellationsAnswer(messages, at, turn, n);
      hide Recorded, Cancellations;
      forall c | c in more ensures c.role.Tool? && c.toolCallId in AnswerIds(messages[at].toolCalls, turn) {
        var i := CancelledInBatch(messages, at, turn, n, c);
        assert c.toolCallId in BatchIds(messages[at].toolCalls, turn);
      }
      AnswersKeepRecorded(messages, first, more);
      assert forall m | m in messages + more && m.role.Assistant? :: m in messages;
    }
  }

  // ----- When the replay is complete -----

  lemma {:induction false} SameIds(calls: seq<ToolCall>, a: nat, b: nat)
    requires a == b || forall c | c in calls :: c.id != ""
    ensures forall i | 0 <= i < |calls| :: ConversationId(calls[i], a, i) == ConversationId(calls[i], b, i)
    ensures DistinctBatch(calls, a) ==> DistinctBatch(calls, b)
  {
    hide Synthesized;
    assert forall i | 0 <= i < |calls| :: calls[i] in calls;
  }

  lemma {:induction false} RecordedIsWellFormed(messages: seq<ChatMessage>, first: nat)
    requires SameNumbering(messages, first) && EarlierAnswered(messages, first) && DistinctBatches(messages, first)
    requires Assistants(messages) <= U32_MAX
    ensures WellFormed(messages)
  {
    if messages != [] {
      var before, m := messages[..|messages| - 1], messages[|messages| - 1];
      assert EveryCallHasAnId(messages) ==> EveryCallHasAnId(before);
      RecordedIsWellFormed(before, first);
      TurnCountsAssistants(messages);
      TurnCountsAssistants(before);
      if m.role.Assistant? {
        assert m in messages;
        SameIds(m.toolCalls, TurnOf(messages, first), ReplayOf(messages).turn);
        AnsweredIsAnswered(before, first);
      }
    }
  }

  lemma {:induction false} AnsweredIsAnswered(messages: seq<ChatMessage>, first: nat)
    requires AnsweredUnder(messages, TurnOf(messages, first)) && SameNumbering(messages, first)
    requires ReplayOf(messages).turn == Assistants(messages)
    ensures BatchAnswered(messages)
  {
    if LastAssistant(messages).Some? {
      var calls := messages[LastAssistant(messages).value].toolCalls;
      assert messages[LastAssistant(messages).value] in messages;
      SameIds(calls, TurnOf(messages, first), ReplayOf(messages).turn);
      hide ReplayOf, LastAssistant, AnsweredAfter, ConversationId;
      var turn := TurnOf(messages, first);
      assert forall i | 0 <= i < |calls| :: ConversationId(calls[i], turn, i) in BatchIds(calls, turn);
    }
  }

  lemma {:induction false} CompleteReplay(messages: seq<ChatMessage>, first: nat)
    requires SameNumbering(messages, first) && EarlierAnswered(messages, first) && DistinctBatches(messages, first)
    requires TurnOf(messages, first) <= U32_MAX
    ensures Correlated(ReplayOf(Closed(messages, TurnOf(messages, first))).updates)
  {
    RecordedIsWellFormed(messages, first);
    TurnCountsAssistants(messages);
    if LastAssistant(messages).None? {
      CancelThenReplay(messages, ReplayOf(messages).turn);
    } else {
      CancelUnderOwnNumbers(messages, TurnOf(messages, first));
      var m := messages[LastAssistant(messages).value];
      assert m in messages;
      hide Correlated, Closed, ReplayOf, AnsweredAfter, LastAssistant;
      assert forall i | 0 <= i < |m.toolCalls| :: m.toolCalls[i] in m.toolCalls;
    }
  }

  // ----- What a replay ties to what -----

  /// The last call, among the first n, known under that id.
  function LastWith(calls: seq<ToolCall>, turn: nat, n: nat, id: string): (r: Option<nat>)
    requires n <= |calls|
    ensures r.Some? ==> r.value < n && ConversationId(calls[r.value], turn, r.value) == id
    ensures r.Some? ==> forall l | r.value < l < n :: ConversationId(calls[l], turn, l) != id
    ensures r.None? ==> forall l | 0 <= l < n :: ConversationId(calls[l], turn, l) != id
  {
    if n == 0 then None
    else if ConversationId(calls[n - 1], turn, n - 1) == id then Some(n - 1)
    else LastWith(calls, turn, n - 1, id)
  }

  /// Showing a batch ties each of its ids to the last call that has it, and leaves
  /// all other ids tied as they were.
  lemma {:induction false} IdsAfter(r: Replay, calls: seq<ToolCall>, n: nat, id: string)
    requires n <= |calls|
    ensures var after, last := ShowCalls(r, calls, n).ids, LastWith(calls, r.turn, n, id);
            && (id in after <==> last.Some? || id in r.ids)
            && (id in after ==> after[id] == if last.Some? then StableId(calls[last.value], r.turn, last.value)
                 else r.ids[id])
  {
    if n > 0 {
      IdsAfter(r, calls, n - 1, id);
      assert calls[n - 1].id != "" ==> ConversationId(calls[n - 1], r.turn, n - 1) == calls[n - 1].id;
      hide StableId, ConversationId;
    }
  }

  ghost predicate StableUpTo(id: string, turn: nat)
  {
    exists c: ToolCall, u: nat, j: nat :: u <= turn && id == StableId(c, u, j)
  }

  lemma {:induction false} NotStableYet(c: ToolCall, t: nat, i: nat, turn: nat)
    requires StableUpTo(StableId(c, t, i), turn)
    ensures t <= turn
  {
    hide StableId;
    var d: ToolCall, u: nat, j: nat :| u <= turn && StableId(c, t, i) == StableId(d, u, j);
    StableIdsDiffer(c, t, i, d, u, j);
  }

  /// Answers are tied to calls of turns replayed so far.
  lemma {:induction false} TiedToPastTurns(messages: seq<ChatMessage>, id: string)
    requires id in ReplayOf(messages).ids
    ensures StableUpTo(ReplayOf(messages).ids[id], ReplayOf(messages).turn)
  {
    hide StableId;
    var before, m := messages[..|messages| - 1], messages[|messages| - 1];
    var r := ReplayOf(before);
    if m.role.Assistant? {
      var spoken := SpokenReplay(r, m);
      IdsAfter(spoken, m.toolCalls, |m.toolCalls|, id);
      var last := LastWith(m.toolCalls, spoken.turn, |m.toolCalls|, id);
      if last.Some? {
        assert StableUpTo(StableId(m.toolCalls[last.value], spoken.turn, last.value), spoken.turn);
      } else {
        TiedToPastTurns(before, id);
        UpToLater(r.ids[id], r.turn, spoken.turn);
      }
    } else {
      SameBatch(messages);
      TiedToPastTurns(before, id);
    }
  }

  lemma {:induction false} UpToLater(id: string, turn: nat, later: nat)
    requires StableUpTo(id, turn) && turn <= later
    ensures StableUpTo(id, later)
  {
    var c: ToolCall, u: nat, j: nat :| u <= turn && id == StableId(c, u, j);
    assert u <= later;
  }

  /// What a batch just shown ties to an id.
  lemma TiedWhenShown(messages: seq<ChatMessage>, id: string)
    requires messages != [] && messages[|messages| - 1].role.Assistant? && Assistants(messages) <= U32_MAX
    ensures var before, calls, turn := messages[..|messages| - 1], messages[|messages| - 1].toolCalls,
        Assistants(messages);
            var ids, last := ReplayOf(messages).ids, LastWith(calls, turn, |calls|, id);
            && LastBatch(messages) == calls
            && (id in ids <==> last.Some? || id in ReplayOf(before).ids)
            && (id in ids ==> ids[id] == if last.Some? then StableId(calls[last.value], turn, last.value)
                 else ReplayOf(before).ids[id])
            && ReplayOf(before).turn == turn - 1
  {
    var before, m := messages[..|messages| - 1], messages[|messages| - 1];
    TurnCountsAssistants(before);
    TurnCountsAssistants(messages);
    IdsAfter(SpokenReplay(ReplayOf(before), m), m.toolCalls, |m.toolCalls|, id);
    hide StableId, ConversationId;
  }

  /// A call just shown is tied only to an id that it is the last to have.
  lemma {:induction false} OnlyLastIsTied(messages: seq<ChatMessage>, x: nat, id: string)
    requires messages != [] && messages[|messages| - 1].role.Assistant? && Assistants(messages) <= U32_MAX
    requires x < |messages[|messages| - 1].toolCalls| && id in ReplayOf(messages).ids
    requires ReplayOf(messages).ids[id] == StableId(messages[|messages| - 1].toolCalls[x], Assistants(messages), x)
    ensures var calls := messages[|messages| - 1].toolCalls;
            LastWith(calls, Assistants(messages), |calls|, id) == Some(x)
  {
    var before, calls, turn := messages[..|messages| - 1], messages[|messages| - 1].toolCalls, Assistants(messages);
    TiedWhenShown(messages, id);
    hide ReplayOf, StableId, LastWith, Assistants;
    var last := LastWith(calls, turn, |calls|, id);
    if last.None? {
      TiedToPastTurns(before, id);
      NotStableYet(calls[x], turn, x, ReplayOf(before).turn);
    } else {
      StableIdsDiffer(calls[last.value], turn, last.value, calls[x], turn, x);
    }
  }

  // ----- A call no answer reaches -----

  /// Only `key` can be tied to the shown id.
  ghost predicate TiedOnly(messages: seq<ChatMessage>, shown: string, key: string)
  {
    forall id | id in ReplayOf(messages).ids && ReplayOf(messages).ids[id] == shown :: id == key
  }

  /// And then no answer to the last batch carries it.
  ghost predicate OutOfReach(messages: seq<ChatMessage>, first: nat, shown: string, key: string)
  {
    TiedOnly(messages, shown, key)
    && (key in AnswerIds(LastBatch(messages), TurnOf(messages, first)) ==>
          forall id | id in ReplayOf(messages).ids :: ReplayOf(messages).ids[id] != shown)
  }

  /// The call is shown at k, and no update after it answers it.
  ghost predicate Unheard(messages: seq<ChatMessage>, shown: string, k: nat)
  {
    var updates := ReplayOf(messages).updates;
    && k < |updates| && updates[k].CallShown? && updates[k].id == shown
    && forall l | k < l < |updates| && updates[l].CallUpdate? :: updates[l].id != shown
  }

  /// Every id the replay knows the calls of the last batch by.
  lemma {:induction false} BatchIsTied(messages: seq<ChatMessage>, j: nat)
    requires Assistants(messages) <= U32_MAX && j < |LastBatch(messages)|
    ensures ConversationId(LastBatch(messages)[j], Assistants(messages), j) in ReplayOf(messages).ids
  {
    var m := messages[|messages| - 1];
    if m.role.Assistant? {
      var id := ConversationId(m.toolCalls[j], Assistants(messages), j);
      TiedWhenShown(messages, id);
    } else {
      SameBatch(messages);
      BatchIsTied(messages[..|messages| - 1], j);
    }
  }

  /// An answer that is tied to nothing is not shown under the id of a call either.
  lemma {:induction false} UntiedMisses(messages: seq<ChatMessage>, first: nat, id: string, c: ToolCall, t: nat, x: nat)
    requires TurnOf(messages, first) <= U32_MAX && t <= Assistants(messages)
    requires id in AnswerIds(LastBatch(messages), TurnOf(messages, first)) && id !in ReplayOf(messages).ids
    ensures id != StableId(c, t, x)
  {
    var calls, turn := LastBatch(messages), TurnOf(messages, first);
    StableIdStarts(c, t, x);
    hide ReplayOf, LastBatch, StableId, ConversationId, Synthesized, Assistants;
    if id in BatchIds(calls, turn) {
      var j :| 0 <= j < |calls| && ConversationId(calls[j], turn, j) == id;
      BatchIsTied(messages, j);
      OwnId(calls[j], turn, j);
      OwnId(calls[j], Assistants(messages), j);
      if calls[j].id == "" && id == StableId(c, t, x) {
        NoIdOfItsOwn(calls[j], turn, j);
        StableIdsDiffer(calls[j], turn, j, c, t, x);
      }
    } else {
      var d :| d in calls && d.id == id;
      var j :| 0 <= j < |calls| && calls[j] == d;
      BatchIsTied(messages, j);
      OwnId(d, Assistants(messages), j);
    }
  }

  lemma StableIdStarts(c: ToolCall, t: nat, x: nat)
    ensures StableId(c, t, x) != ""
  {
    assert Synthesized(t, x)[0] == 't';
  }

  /// An answer never reaches a call that is out of reach.
  lemma {:induction false} AnswerMisses(messages: seq<ChatMessage>, first: nat, m: ChatMessage, c: ToolCall, t: nat,
                                        x: nat, key: string)
    requires TurnOf(messages, first) <= U32_MAX && t <= Assistants(messages)
    requires m.toolCallId in AnswerIds(LastBatch(messages), TurnOf(messages, first))
    requires OutOfReach(messages, first, StableId(c, t, x), key)
    ensures AnswerUpdate(ReplayOf(messages), m).id != StableId(c, t, x)
  {
    hide ReplayOf, AnswerIds, StableId;
    if m.toolCallId !in ReplayOf(messages).ids {
      UntiedMisses(messages, first, m.toolCallId, c, t, x);
    }
  }

  /// A key that no later call without an id is answered under.
  ghost predicate SafeKey(messages: seq<ChatMessage>, first: nat, t: nat, i: nat, key: string)
  {
    key != "" && (SameNumbering(messages, first) || key == Synthesized(t, i))
  }

  /// With the next turn, a key that was tied to an earlier call is tied anew, or out
  /// of use.
  lemma {:induction false} OutOfReachBeyond(messages: seq<ChatMessage>, first: nat, c: ToolCall, t: nat, x: nat, i: nat,
                                            key: string)
    requires messages != [] && TurnOf(messages, first) <= U32_MAX && messages[|messages| - 1].role.Assistant?
    requires t < Assistants(messages) && SafeKey(messages, first, t, i, key)
    requires TiedOnly(messages[..|messages| - 1], StableId(c, t, x), key)
    ensures OutOfReach(messages, first, StableId(c, t, x), key)
  {
    var calls, turn := messages[|messages| - 1].toolCalls, Assistants(messages);
    LastBatchShown(messages);
    assert messages[|messages| - 1] in messages;
    assert first == 0 || (forall d | d in calls :: d.id != "") || key == Synthesized(t, i);
    hide StableId, ReplayOf, LastBatch, LastAssistant, Assistants, AnswerIds, LastWith, SafeKey, EveryCallHasAnId,
        Synthesized;
    forall id | id in ReplayOf(messages).ids && ReplayOf(messages).ids[id] == StableId(c, t, x)
      ensures id == key && key !in AnswerIds(calls, TurnOf(messages, first))
    {
      TiedStill(messages, c, t, x, id, key);
      KeyOutOfUse(calls, turn, first, t, i, key);
    }
  }

  /// What is tied to a call of an earlier turn was tied to it before, and is no id of
  /// the batch just shown.
  lemma {:induction false} TiedStill(messages: seq<ChatMessage>, c: ToolCall, t: nat, x: nat, id: string, key: string)
    requires messages != [] && Assistants(messages) <= U32_MAX && messages[|messages| - 1].role.Assistant?
    requires t < Assistants(messages) && TiedOnly(messages[..|messages| - 1], StableId(c, t, x), key)
    requires id in ReplayOf(messages).ids && ReplayOf(messages).ids[id] == StableId(c, t, x)
    ensures var calls := messages[|messages| - 1].toolCalls;
            id == key && LastWith(calls, Assistants(messages), |calls|, key).None?
  {
    var calls, turn := messages[|messages| - 1].toolCalls, Assistants(messages);
    TiedWhenShown(messages, id);
    hide StableId, ReplayOf, LastBatch, Assistants, LastWith;
    var last := LastWith(calls, turn, |calls|, id);
    if last.Some? {
      StableIdsDiffer(calls[last.value], turn, last.value, c, t, x);
    }
  }

  lemma {:induction false} KeyOutOfUse(calls: seq<ToolCall>, turn: nat, first: nat, t: nat, i: nat, key: string)
    requires key != "" && t < turn && LastWith(calls, turn, |calls|, key).None?
    requires first == 0 || (forall c | c in calls :: c.id != "") || key == Synthesized(t, i)
    ensures key !in AnswerIds(calls, first + turn)
  {
    hide LastWith, AnswerIds, Synthesized, ConversationId;
    forall j | 0 <= j < |calls| ensures calls[j].id != key && ConversationId(calls[j], first + turn, j) != key {
      assert calls[j] in calls;
      OwnId(calls[j], turn, j);
      OwnId(calls[j], first + turn, j);
      if calls[j].id == "" {
        NoIdOfItsOwn(calls[j], first + turn, j);
        NoIdOfItsOwn(calls[j], turn, j);
        if key == Synthesized(t, i) && Synthesized(first + turn, j) == key {
          SameNumbers(first + turn, j, t, i, "", "");
        }
      }
    }
    NotAnAnswerId(calls, first + turn, key);
  }

  lemma NotAnAnswerId(calls: seq<ToolCall>, turn: nat, key: string)
    ensures (forall j | 0 <= j < |calls| :: calls[j].id != key && ConversationId(calls[j], turn, j) != key)
            ==> key !in AnswerIds(calls, turn)
  {
    hide ConversationId;
  }

  lemma OwnId(c: ToolCall, turn: nat, i: nat)
    ensures c.id != "" ==> ConversationId(c, turn, i) == c.id
  {
  }

  /// Once out of reach and unheard, a call stays so.
  lemma {:induction false} UnheardForever(messages: seq<ChatMessage>, first: nat, p: nat, c: ToolCall, t: nat, x: nat,
                                          i: nat, key: string, k: nat)
    requires Recorded(messages, first) && TurnOf(messages, first) <= U32_MAX && p <= |messages|
    requires t <= Assistants(messages[..p]) && SafeKey(messages, first, t, i, key)
    requires Unheard(messages[..p], StableId(c, t, x), k) && OutOfReach(messages[..p], first, StableId(c, t, x), key)
    ensures Unheard(messages, StableId(c, t, x), k) && OutOfReach(messages, first, StableId(c, t, x), key)
    ensures t <= Assistants(messages)
    decreases |messages|
  {
    if p == |messages| {
      assert messages[..p] == messages;
    } else {
      var before, m := messages[..|messages| - 1], messages[|messages| - 1];
      assert messages[..p] == before[..p];
      assert EveryCallHasAnId(messages) ==> EveryCallHasAnId(before);
      UnheardForever(before, first, p, c, t, x, i, key, k);
      UnheardStep(messages, first, c, t, x, i, key, k);
    }
  }

  lemma {:induction false} UnheardStep(messages: seq<ChatMessage>, first: nat, c: ToolCall, t: nat, x: nat, i: nat,
                                       key: string, k: nat)
    requires messages != [] && Recorded(messages, first) && TurnOf(messages, first) <= U32_MAX
    requires t <= Assistants(messages[..|messages| - 1]) && SafeKey(messages, first, t, i, key)
    requires Unheard(messages[..|messages| - 1], StableId(c, t, x), k)
    requires OutOfReach(messages[..|messages| - 1], first, StableId(c, t, x), key)
    ensures Unheard(messages, StableId(c, t, x), k) && OutOfReach(messages, first, StableId(c, t, x), key)
    ensures t <= Assistants(messages)
  {
    var before, m := messages[..|messages| - 1], messages[|messages| - 1];
    assert m.role.Tool? ==> m.toolCallId in AnswerIds(LastBatch(before), TurnOf(before, first));
    hide Recorded, StableId, SafeKey, ReplayOf, LastBatch, AnswerIds, Unheard;
    if m.role.Assistant? {
      OutOfReachBeyond(messages, first, c, t, x, i, key);
    } else {
      SameReach(messages, first, StableId(c, t, x), key);
    }
    if m.role.Tool? {
      AnswerMisses(before, first, m, c, t, x, key);
    }
    UnheardOneMore(messages, StableId(c, t, x), k);
  }

  lemma SameReach(messages: seq<ChatMessage>, first: nat, shown: string, key: string)
    requires messages != [] && !messages[|messages| - 1].role.Assistant?
    requires OutOfReach(messages[..|messages| - 1], first, shown, key)
    ensures OutOfReach(messages, first, shown, key)
  {
    var before := messages[..|messages| - 1];
    SameBatch(messages);
    assert LastBatch(before) == LastBatch(messages) && TurnOf(before, first) == TurnOf(messages, first);
    hide ReplayOf, LastBatch, TurnOf, AnswerIds;
  }

  lemma UnheardOneMore(messages: seq<ChatMessage>, shown: string, k: nat)
    requires messages != [] && Unheard(messages[..|messages| - 1], shown, k)
    requires messages[|messages| - 1].role.Tool? ==>
               AnswerUpdate(ReplayOf(messages[..|messages| - 1]), messages[|messages| - 1]).id != shown
    ensures Unheard(messages, shown, k)
  {
    NoOtherUpdates(messages);
    hide ReplayOf, AnswerUpdate;
  }

  lemma ShownHere(messages: seq<ChatMessage>, x: nat) returns (k: nat)
    requires messages != [] && messages[|messages| - 1].role.Assistant? && Assistants(messages) <= U32_MAX
    requires x < |messages[|messages| - 1].toolCalls|
    ensures var updates := ReplayOf(messages).updates;
            && k < |updates| && updates[k].CallShown?
            && updates[k].id == StableId(messages[|messages| - 1].toolCalls[x], Assistants(messages), x)
            && forall l | k < l < |updates| :: !updates[l].CallUpdate?
  {
    var before, m := messages[..|messages| - 1], messages[|messages| - 1];
    TurnCountsAssistants(messages);
    var spoken := SpokenReplay(ReplayOf(before), m);
    ShownCalls(spoken, m.toolCalls, |m.toolCalls|);
    k := |spoken.updates| + x;
  }

  /// One more message adds updates behind, and an update of a call only when it is
  /// an answer.
  lemma NoOtherUpdates(messages: seq<ChatMessage>)
    requires messages != []
    ensures var r, m, updates := ReplayOf(messages[..|messages| - 1]), messages[|messages| - 1],
        ReplayOf(messages).updates;
            && r.updates <= updates
            && if m.role.Tool? then updates == r.updates + [AnswerUpdate(r, m)]
               else forall l | |r.updates| <= l < |updates| :: !updates[l].CallUpdate?
  {
    var r, m := ReplayOf(messages[..|messages| - 1]), messages[|messages| - 1];
    if m.role.Assistant? {
      ShownCalls(SpokenReplay(r, m), m.toolCalls, |m.toolCalls|);
    }
  }

  // ----- Three ways to a call that is never answered -----

  /// Two calls of a batch with one id: the replay forgets the first.
  lemma {:induction false} NothingTied(messages: seq<ChatMessage>, j: nat, l: nat)
    requires messages != [] && messages[|messages| - 1].role.Assistant? && Assistants(messages) <= U32_MAX
    requires j < l < |messages[|messages| - 1].toolCalls|
    requires var calls, turn := messages[|messages| - 1].toolCalls, Assistants(messages);
             ConversationId(calls[j], turn, j) == ConversationId(calls[l], turn, l)
    ensures var shown := StableId(messages[|messages| - 1].toolCalls[j], Assistants(messages), j);
            forall id | id in ReplayOf(messages).ids :: ReplayOf(messages).ids[id] != shown
  {
    var calls, turn := messages[|messages| - 1].toolCalls, Assistants(messages);
    hide *;
    forall id | id in ReplayOf(messages).ids && ReplayOf(messages).ids[id] == StableId(calls[j], turn, j)
      ensures false
    {
      OnlyLastIsTied(messages, j, id);
    }
  }

  lemma {:induction false} ForgottenWhenShown(messages: seq<ChatMessage>, first: nat, j: nat, l: nat) returns (k: nat)
    requires messages != [] && messages[|messages| - 1].role.Assistant? && Assistants(messages) <= U32_MAX
    requires j < l < |messages[|messages| - 1].toolCalls|
    requires var calls, turn := messages[|messages| - 1].toolCalls, Assistants(messages);
             ConversationId(calls[j], turn, j) == ConversationId(calls[l], turn, l)
    ensures var shown := StableId(messages[|messages| - 1].toolCalls[j], Assistants(messages), j);
            Unheard(messages, shown, k) && forall key :: OutOfReach(messages, first, shown, key)
  {
    NothingTied(messages, j, l);
    k := ShownHere(messages, j);
  }

  /// A call without an id, once turns were dropped: it, or the call before it whose
  /// id is the one the replay gives it, is out of reach as soon as it is shown.
  lemma {:induction false} NumberedAnewWhenShown(messages: seq<ChatMessage>, first: nat, i: nat)
    returns (k: nat, x: nat)
    requires messages != [] && messages[|messages| - 1].role.Assistant? && TurnOf(messages, first) <= U32_MAX
    requires first > 0 && i < |messages[|messages| - 1].toolCalls| && messages[|messages| - 1].toolCalls[i].id == ""
    ensures var calls, turn := messages[|messages| - 1].toolCalls, Assistants(messages);
            && x < |calls| && Unheard(messages, StableId(calls[x], turn, x), k)
            && OutOfReach(messages, first, StableId(calls[x], turn, x), Synthesized(turn, i))
  {
    var calls, turn := messages[|messages| - 1].toolCalls, Assistants(messages);
    var key := Synthesized(turn, i);
    NoIdOfItsOwn(calls[i], turn, i);
    if exists j | 0 <= j < i :: calls[j].id == key {
      x := NamedBelow(calls, key, i);
      NotEmpty(turn, i);
      OwnId(calls[x], turn, x);
      k := ForgottenWhenShown(messages, first, x, i);
    } else {
      x := i;
      k := ShownHere(messages, i);
      NumberedAnewAlone(messages, first, i);
    }
  }

  lemma {:induction false} NumberedAnewAlone(messages: seq<ChatMessage>, first: nat, i: nat)
    requires messages != [] && messages[|messages| - 1].role.Assistant? && TurnOf(messages, first) <= U32_MAX
    requires first > 0 && i < |messages[|messages| - 1].toolCalls| && messages[|messages| - 1].toolCalls[i].id == ""
    requires forall c | c in messages[|messages| - 1].toolCalls[..i] :: c.id != Synthesized(Assistants(messages), i)
    ensures var calls, turn := messages[|messages| - 1].toolCalls, Assistants(messages);
            OutOfReach(messages, first, StableId(calls[i], turn, i), Synthesized(turn, i))
  {
    var calls, turn := messages[|messages| - 1].toolCalls, Assistants(messages);
    var shown, key := StableId(calls[i], turn, i), Synthesized(turn, i);
    NoIdOfItsOwn(calls[i], turn, i);
    LastBatchShown(messages);
    assert TurnOf(messages, first) == first + turn;
    hide *;
    forall id | id in ReplayOf(messages).ids && ReplayOf(messages).ids[id] == shown
      ensures id == key && key !in AnswerIds(calls, first + turn)
    {
      OnlyLastIsTied(messages, i, id);
      OwnKeyUnused(calls, turn, first, i);
    }
    OutOfReachIf(messages, first, shown, key);
  }

  lemma OutOfReachIf(messages: seq<ChatMessage>, first: nat, shown: string, key: string)
    requires forall id | id in ReplayOf(messages).ids && ReplayOf(messages).ids[id] == shown ::
               id == key && key !in AnswerIds(LastBatch(messages), TurnOf(messages, first))
    ensures OutOfReach(messages, first, shown, key)
  {
    hide ReplayOf, AnswerIds, LastBatch, Assistants;
  }

  lemma NotEmpty(turn: nat, i: nat)
    ensures Synthesized(turn, i) != ""
  {
    assert Synthesized(turn, i)[0] == 't';
  }

  lemma LastBatchShown(messages: seq<ChatMessage>)
    requires messages != [] && messages[|messages| - 1].role.Assistant?
    ensures LastBatch(messages) == messages[|messages| - 1].toolCalls
  {
  }

  lemma {:induction false} OwnKeyUnused(calls: seq<ToolCall>, turn: nat, first: nat, i: nat)
    requires first > 0 && i < |calls| && calls[i].id == ""
    requires LastWith(calls, turn, |calls|, Synthesized(turn, i)) == Some(i)
    requires forall c | c in calls[..i] :: c.id != Synthesized(turn, i)
    ensures Synthesized(turn, i) !in AnswerIds(calls, first + turn)
  {
    var key := Synthesized(turn, i);
    NotEmpty(turn, i);
    hide LastWith, Synthesized, AnswerIds, ConversationId;
    forall j | 0 <= j < |calls| ensures calls[j].id != key && ConversationId(calls[j], first + turn, j) != key {
      assert j < i ==> calls[j] in calls[..i];
      OwnId(calls[j], turn, j);
      OwnId(calls[j], first + turn, j);
      if calls[j].id == "" && ConversationId(calls[j], first + turn, j) == key {
        NoIdOfItsOwn(calls[j], first + turn, j);
        SameNumbers(first + turn, j, turn, i, "", "");
      }
    }
    NotAnAnswerId(calls, first + turn, key);
  }

  function NamedBelow(calls: seq<ToolCall>, id: string, below: nat): (j: nat)
    requires below <= |calls| && exists j | 0 <= j < below :: calls[j].id == id
    ensures j < below && calls[j].id == id
  {
    if calls[below - 1].id == id then below - 1 else NamedBelow(calls, id, below - 1)
  }

  /// A call of the last batch that is not answered under the id the replay knows it
  /// by is not heard of in its turn, whatever other answers there are.
  lemma {:induction false} UnheardInItsTurn(messages: seq<ChatMessage>, first: nat, x: nat) returns (k: nat)
    requires Recorded(messages, first) && TurnOf(messages, first) <= U32_MAX && LastAssistant(messages).Some?
    requires x < |LastBatch(messages)|
    requires var key := ConversationId(LastBatch(messages)[x], Assistants(messages), x);
             !AnsweredAfter(messages, LastAssistant(messages).value, key)
    ensures var c, turn := LastBatch(messages)[x], Assistants(messages);
            && Unheard(messages, StableId(c, turn, x), k)
            && TiedOnly(messages, StableId(c, turn, x), ConversationId(c, turn, x))
  {
    var before, m := messages[..|messages| - 1], messages[|messages| - 1];
    var c, turn := LastBatch(messages)[x], Assistants(messages);
    var shown, key := StableId(c, turn, x), ConversationId(c, turn, x);
    if m.role.Assistant? {
      k := ShownHere(messages, x);
      LastBatchShown(messages);
      hide StableId, ReplayOf, LastWith, ConversationId;
      forall id | id in ReplayOf(messages).ids && ReplayOf(messages).ids[id] == shown ensures id == key {
        OnlyLastIsTied(messages, x, id);
      }
    } else {
      SameBatch(messages);
      UnansweredBefore(messages, key);
      assert LastBatch(before) == LastBatch(messages) && Assistants(before) == turn;
      k := UnheardInItsTurn(before, first, x);
      if m.role.Tool? {
        hide ReplayOf, StableId, AnswerIds, ConversationId, LastAssistant, LastBatch;
        if m.toolCallId !in ReplayOf(before).ids {
          UntiedMisses(before, first, m.toolCallId, c, turn, x);
        }
      }
      hide Recorded, StableId, ConversationId, LastAssistant;
      NoOtherUpdates(messages);
    }
  }

  lemma UnansweredBefore(messages: seq<ChatMessage>, key: string)
    requires messages != [] && !messages[|messages| - 1].role.Assistant? && LastAssistant(messages).Some?
    requires !AnsweredAfter(messages, LastAssistant(messages).value, key)
    ensures var at, m := LastAssistant(messages).value, messages[|messages| - 1];
            !AnsweredAfter(messages[..|messages| - 1], at, key) && (m.role.Tool? ==> m.toolCallId != key)
  {
    var before, m := messages[..|messages| - 1], messages[|messages| - 1];
    assert messages == before + [m];
    AnsweredInLonger(before, [m], LastAssistant(messages).value, key);
    AnsweredByOne(m, key);
  }

  // ----- Exactly when a replay is complete -----

  /// The first place where a batch has two calls with one id.
  lemma {:induction false} FindDuplicate(messages: seq<ChatMessage>, first: nat) returns (p: nat, j: nat, l: nat)
    requires !DistinctBatches(messages, first)
    ensures p < |messages| && messages[p].role.Assistant? && j < l < |messages[p].toolCalls|
    ensures var calls, turn := messages[p].toolCalls, TurnOf(messages[..p + 1], first);
            ConversationId(calls[j], turn, j) == ConversationId(calls[l], turn, l)
  {
    var before, m := messages[..|messages| - 1], messages[|messages| - 1];
    if !DistinctBatches(before, first) {
      p, j, l := FindDuplicate(before, first);
      assert messages[..p + 1] == before[..p + 1];
    } else {
      p := |messages| - 1;
      assert messages[..p + 1] == messages;
      var turn := TurnOf(messages, first);
      j, l :| 0 <= j < l < |m.toolCalls|
              && ConversationId(m.toolCalls[j], turn, j) == ConversationId(m.toolCalls[l], turn, l);
    }
  }

  /// The first next turn that begins although a call is not answered.
  lemma {:induction false} FindUnanswered(messages: seq<ChatMessage>, first: nat) returns (p: nat, x: nat)
    requires !EarlierAnswered(messages, first)
    ensures p < |messages| && messages[p].role.Assistant? && LastAssistant(messages[..p]).Some?
    ensures var before, turn := messages[..p], TurnOf(messages[..p], first);
            && x < |LastBatch(before)|
            && !AnsweredAfter(before, LastAssistant(before).value, ConversationId(LastBatch(before)[x], turn, x))
  {
    var before := messages[..|messages| - 1];
    if !EarlierAnswered(before, first) {
      p, x := FindUnanswered(before, first);
      assert messages[..p] == before[..p];
    } else {
      p := |messages| - 1;
      var at, turn := LastAssistant(before).value, TurnOf(before, first);
      var id :| id in BatchIds(before[at].toolCalls, turn) && !AnsweredAfter(before, at, id);
      x :| 0 <= x < |before[at].toolCalls| && ConversationId(before[at].toolCalls[x], turn, x) == id;
    }
  }

  lemma {:induction false} Monotone(messages: seq<ChatMessage>, p: nat)
    requires p <= |messages|
    ensures Assistants(messages[..p]) <= Assistants(messages)
    decreases |messages|
  {
    if p < |messages| {
      Monotone(messages[..|messages| - 1], p);
      assert messages[..|messages| - 1][..p] == messages[..p];
    } else {
      assert messages[..p] == messages;
    }
  }

  /// A call without an id in a history that lost turns is, or makes, a call that is
  /// never answered.
  lemma {:induction false} IncompleteByNumbers(all: seq<ChatMessage>, first: nat) returns (k: nat, shown: string)
    requires Recorded(all, first) && TurnOf(all, first) <= U32_MAX && !SameNumbering(all, first)
    ensures Unheard(all, shown, k)
  {
    var m :| m in all && m.role.Assistant? && exists c | c in m.toolCalls :: c.id == "";
    var p :| 0 <= p < |all| && all[p] == m;
    var i :| 0 <= i < |m.toolCalls| && m.toolCalls[i].id == "";
    Monotone(all, p + 1);
    var prefix, t := all[..p + 1], Assistants(all[..p + 1]);
    var x;
    k, x := NumberedAnewWhenShown(prefix, first, i);
    NotEmpty(t, i);
    shown := StableId(m.toolCalls[x], t, x);
    hide Recorded, Unheard, OutOfReach, StableId;
    UnheardForever(all, first, p + 1, m.toolCalls[x], t, x, i, Synthesized(t, i), k);
  }

  lemma {:induction false} IncompleteByDuplicate(all: seq<ChatMessage>, first: nat, p: nat, j: nat, l: nat)
    returns (k: nat, shown: string)
    requires Recorded(all, first) && TurnOf(all, first) <= U32_MAX && SameNumbering(all, first)
    requires p < |all| && all[p].role.Assistant? && j < l < |all[p].toolCalls|
    requires var calls, turn := all[p].toolCalls, TurnOf(all[..p + 1], first);
             ConversationId(calls[j], turn, j) == ConversationId(calls[l], turn, l)
    ensures Unheard(all, shown, k)
  {
    Monotone(all, p + 1);
    var prefix, t, calls := all[..p + 1], Assistants(all[..p + 1]), all[p].toolCalls;
    assert all[p] in all;
    SameIds(calls, TurnOf(prefix, first), t);
    k := ForgottenWhenShown(prefix, first, j, l);
    NotEmpty(t, j);
    shown := StableId(calls[j], t, j);
    hide Recorded, Unheard, OutOfReach, StableId;
    UnheardForever(all, first, p + 1, calls[j], t, j, j, Synthesized(t, j), k);
  }

  lemma {:induction false} IncompleteByMissing(all: seq<ChatMessage>, first: nat, p: nat, x: nat)
    returns (k: nat, shown: string)
    requires Recorded(all, first) && TurnOf(all, first) <= U32_MAX && SameNumbering(all, first)
    requires p < |all| && all[p].role.Assistant? && LastAssistant(all[..p]).Some? && x < |LastBatch(all[..p])|
    requires var before, turn := all[..p], TurnOf(all[..p], first);
             !AnsweredAfter(before, LastAssistant(before).value, ConversationId(LastBatch(before)[x], turn, x))
    ensures Unheard(all, shown, k)
  {
    var before, next := all[..p], all[..p + 1];
    Monotone(all, p);
    Monotone(all, p + 1);
    RecordedPrefix(all, first, p + 1);
    assert next[..|next| - 1] == before && next[|next| - 1] == all[p];
    assert EveryCallHasAnId(all) ==> EveryCallHasAnId(next);
    var t := Assistants(before);
    var c := LastBatch(before)[x];
    hide Recorded, StableId, ReplayOf, LastAssistant, LastBatch, EveryCallHasAnId, ConversationId, AnsweredAfter;
    k := MissedByNextTurn(next, first, x);
    shown := StableId(c, t, x);
    UnheardForever(all, first, p + 1, c, t, x, x, ConversationId(c, t, x), k);
  }

  /// When the next turn begins, a call that was not answered before is unheard and out
  /// of reach.
  lemma {:induction false} MissedByNextTurn(next: seq<ChatMessage>, first: nat, x: nat) returns (k: nat)
    requires Recorded(next, first) && TurnOf(next, first) <= U32_MAX && SameNumbering(next, first)
    requires next != [] && next[|next| - 1].role.Assistant?
    requires var before := next[..|next| - 1];
             && LastAssistant(before).Some? && x < |LastBatch(before)|
             && !AnsweredAfter(before, LastAssistant(before).value,
                               ConversationId(LastBatch(before)[x], TurnOf(before, first), x))
    ensures var before := next[..|next| - 1];
            var c, t := LastBatch(before)[x], Assistants(before);
            && Unheard(next, StableId(c, t, x), k)
            && OutOfReach(next, first, StableId(c, t, x), ConversationId(c, t, x))
            && SafeKey(next, first, t, x, ConversationId(c, t, x)) && t < Assistants(next)
  {
    var before := next[..|next| - 1];
    var t, calls := Assistants(before), LastBatch(before);
    assert before[LastAssistant(before).value] in next;
    SameIds(calls, TurnOf(before, first), t);
    NotEmpty(t, x);
    var c, key := calls[x], ConversationId(calls[x], t, x);
    assert key != "" && SafeKey(next, first, t, x, key) && Assistants(next) == t + 1;
    hide Recorded, StableId, ReplayOf, LastAssistant, LastBatch, Assistants, EveryCallHasAnId, SafeKey;
    RecordedInit(next, first);
    k := UnheardInItsTurn(before, first, x);
    OutOfReachBeyond(next, first, c, t, x, x, key);
    UnheardOneMore(next, StableId(c, t, x), k);
  }

  lemma RecordedInit(messages: seq<ChatMessage>, first: nat)
    requires messages != [] && Recorded(messages, first)
    ensures Recorded(messages[..|messages| - 1], first)
  {
  }

  lemma {:induction false} RecordedPrefix(messages: seq<ChatMessage>, first: nat, p: nat)
    requires Recorded(messages, first) && p <= |messages|
    ensures Recorded(messages[..p], first)
    decreases |messages|
  {
    if p < |messages| {
      RecordedPrefix(messages[..|messages| - 1], first, p);
      assert messages[..|messages| - 1][..p] == messages[..p];
    } else {
      assert messages[..p] == messages;
    }
  }

  /// A history the run recorded, of which compaction dropped the first turns, is
  /// cancelled with the run's turn count. The replay after it answers every call it
  /// shows exactly when nothing was dropped or every call that is left has an id,
  /// no two calls of a batch share one, and every earlier batch was answered under
  /// its conversation ids before the next turn.
  lemma {:induction false} ReplayCompleteExactly(messages: seq<ChatMessage>, first: nat)
    requires Recorded(messages, first) && TurnOf(messages, first) <= U32_MAX
    ensures Correlated(ReplayOf(Closed(messages, TurnOf(messages, first))).updates) <==>
              SameNumbering(messages, first) && DistinctBatches(messages, first) && EarlierAnswered(messages, first)
  {
    var all := Closed(messages, TurnOf(messages, first));
    ClosingKeepsRecorded(messages, first);
    ClosingAnswersTheBatch(messages, TurnOf(messages, first));
    var k, shown;
    if !SameNumbering(messages, first) {
      assert forall m | m in messages :: m in all;
      k, shown := IncompleteByNumbers(all, first);
    } else if !DistinctBatches(messages, first) {
      var p, j, l := FindDuplicate(messages, first);
      assert all[..p + 1] == messages[..p + 1] && all[p] == messages[p];
      k, shown := IncompleteByDuplicate(all, first, p, j, l);
    } else if !EarlierAnswered(messages, first) {
      var p, x := FindUnanswered(messages, first);
      assert all[..p] == messages[..p] && all[p] == messages[p];
      k, shown := IncompleteByMissing(all, first, p, x);
    } else {
      CompleteReplay(messages, first);
      return;
    }
    assert !AnsweredLater(ReplayOf(all).updates, k);
  }
}
