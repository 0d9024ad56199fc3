/// Two histories the run writes whose replay, after cancelling, shows a call that is
/// never answered.
module ReplayGaps {
  import opened Wrappers
  import opened Text
  import opened ToolCalls
  import opened ToolReplay
  import opened ToolCompaction

  function CallWith(id: string): ChatMessage
  {
    ChatMessage(Assistant, "", "", [ToolCall(id, "bash", "{}")])
  }

  function AnswerTo(id: string, content: string): ChatMessage
  {
    ChatMessage(Tool, content, id, [])
  }

  lemma SmallNumbers()
    ensures Synthesized(1, 0) == "tool-1-0" && Synthesized(1, 1) == "tool-1-1"
         && Synthesized(2, 0) == "tool-2-0" && Synthesized(7, 0) == "tool-7-0"
  {
    assert Decimal(0) == "0" && Decimal(1) == "1" && Decimal(2) == "2" && Decimal(7) == "7";
  }

  lemma ReplayOfOneMore(messages: seq<ChatMessage>, m: ChatMessage)
    ensures ReplayOf(messages + [m]) == ToolReplay.Next(ReplayOf(messages), m)
  {
    assert (messages + [m])[..|messages|] == messages;
  }

  lemma ReplayOfCall(r: Replay, id: string)
    requires r.turn < U32_MAX
    ensures var shown := StableId(ToolCall(id, "bash", "{}"), r.turn + 1, 0);
            var key := ConversationId(ToolCall(id, "bash", "{}"), r.turn + 1, 0);
            ToolReplay.Next(r, CallWith(id))
              == Replay(r.turn + 1, r.ids[key := shown], r.updates + [CallShown(shown, "bash", "{}")])
  {
    var spoken := r.(turn := r.turn + 1, updates := r.updates + []);
    assert r.updates + [] == r.updates;
    assert ShowCalls(spoken, CallWith(id).toolCalls, 0) == spoken;
    hide StableId, Synthesized;
    var stable := StableId(ToolCall(id, "bash", "{}"), r.turn + 1, 0);
    assert r.ids[id := stable][id := stable] == r.ids[id := stable];
  }

  /// What the replay makes of the call `x` as second turn and its cancellation.
  lemma LastTurn(messages: seq<ChatMessage>)
    requires ReplayOf(messages).turn == 1
    ensures ReplayOf(messages + [CallWith("x"), Cancelled("x")]).updates
         == ReplayOf(messages).updates
              + [CallShown("tool-2-0-x", "bash", "{}"), CallUpdate("tool-2-0-x", true, "cancelled")]
  {
    var c := CallWith("x");
    ReplayOfOneMore(messages, c);
    ReplayOfOneMore(messages + [c], Cancelled("x"));
    assert messages + [c, Cancelled("x")] == messages + [c] + [Cancelled("x")];
    SmallNumbers();
    assert StableId(ToolCall("x", "bash", "{}"), 2, 0) == "tool-2-0-x";
    ReplayOfCall(ReplayOf(messages), "x");
    hide StableId, Synthesized, ShowCalls, ReplayOf;
  }

  lemma ClosedLastTurn(messages: seq<ChatMessage>, turn: nat)
    ensures Closed(messages + [CallWith("x")], turn) == messages + [CallWith("x"), Cancelled("x")]
  {
    var all := messages + [CallWith("x")];
    assert LastAssistant(all) == Some(|messages|);
    assert !AnsweredAfter(all, |messages|, "x");
    assert ConversationId(all[|messages|].toolCalls[0], turn, 0) == "x";
    assert Cancellations(all, |messages|, turn, 0) == [];
    assert all + [Cancelled("x")] == messages + [CallWith("x"), Cancelled("x")];
  }

  /// A call that is shown first and whose id no update carries.
  lemma FirstIsUnanswered(updates: seq<Update>)
    requires updates != [] && updates[0].CallShown?
    requires forall u | u in updates[1..] && u.CallUpdate? :: u.id != updates[0].id
    ensures !Correlated(updates)
  {
    forall l | 0 < l < |updates| && updates[l].CallUpdate? ensures updates[l].id != updates[0].id {
      assert updates[l] == updates[1..][l - 1];
    }
    assert !AnsweredLater(updates, 0);
  }

  // ----- A compacted history -----

  function Compacted(): seq<ChatMessage>
  {
    [CallWith(""), AnswerTo("tool-7-0", "hi"), CallWith("x")]
  }

  lemma CompactedIsRecorded()
    ensures Recorded(Compacted(), 6) && TurnOf(Compacted(), 6) == 8
    ensures DistinctBatches(Compacted(), 6) && EarlierAnswered(Compacted(), 6)
  {
    var a, b, c := CallWith(""), AnswerTo("tool-7-0", "hi"), CallWith("x");
    var m0: seq<ChatMessage>, m1, m2, m3 := [], [a], [a, b], [a, b, c];
    assert m1[..0] == m0 && m2[..1] == m1 && m3[..2] == m2;
    SmallNumbers();
    hide Synthesized;
    assert Assistants(m0) == 0 && Assistants(m1) == 1 && Assistants(m2) == 1 && Assistants(m3) == 2;
    assert LastAssistant(m1) == Some(0) && LastAssistant(m2) == Some(0) && LastAssistant(m3) == Some(2);
    assert BatchIds(a.toolCalls, 7) == {"tool-7-0"} by { assert ConversationId(a.toolCalls[0], 7, 0) == "tool-7-0"; }
    assert m2[1].role.Tool? && m2[1].toolCallId == "tool-7-0";
    assert AnsweredUnder(m2, 7) && "tool-7-0" in AnswerIds(a.toolCalls, 7);
    hide AnswerIds, BatchIds, AnsweredUnder, ConversationId;
    assert Recorded(m1, 6) && DistinctBatches(m1, 6) && EarlierAnswered(m1, 6) by {
      assert Recorded(m0, 6) && DistinctBatches(m0, 6) && EarlierAnswered(m0, 6);
    }
  }

  /// The replay of the first turn: the call is shown, and its answer is tied to
  /// nothing.
  lemma CompactedFirstTurn()
    ensures ReplayOf([CallWith(""), AnswerTo("tool-7-0", "hi")])
         == Replay(1, map["tool-1-0" := "tool-1-0"],
                   [CallShown("tool-1-0", "bash", "{}"), CallUpdate("tool-7-0", false, "hi")])
  {
    var a, b := CallWith(""), AnswerTo("tool-7-0", "hi");
    SmallNumbers();
    ReplayOfOneMore([], a);
    ReplayOfOneMore([a], b);
    assert [] + [a] == [a] && [a] + [b] == [a, b];
    var r0 := Replay(0, map[], []);
    ReplayOfCall(r0, "");
    var r1 := Replay(1, map["tool-1-0" := "tool-1-0"], [CallShown("tool-1-0", "bash", "{}")]);
    assert ToolReplay.Next(r0, a) == r1;
    assert ToolReplay.Next(r1, b).updates == r1.updates + [CallUpdate("tool-7-0", false, "hi")];
    hide StableId, Synthesized, ShowCalls;
  }

  lemma CompactedUpdates()
    ensures ReplayOf(Closed(Compacted(), 8)).updates
         == [CallShown("tool-1-0", "bash", "{}"), CallUpdate("tool-7-0", false, "hi"),
             CallShown("tool-2-0-x", "bash", "{}"), CallUpdate("tool-2-0-x", true, "cancelled")]
  {
    var two := [CallWith(""), AnswerTo("tool-7-0", "hi")];
    assert Compacted() == two + [CallWith("x")];
    CompactedFirstTurn();
    hide ReplayOf, Closed, Compacted;
    ClosedLastTurn(two, 8);
    LastTurn(two);
  }

  /// Two turns are left of eight. In the first a call without an id was answered as
  /// `tool-7-0`; in the second a call is open. The replay after cancelling shows the
  /// first call as `tool-1-0` and never answers it.
  lemma CompactedReplayIncomplete()
    ensures Recorded(Compacted(), 6) && TurnOf(Compacted(), 6) == 8
    ensures DistinctBatches(Compacted(), 6) && EarlierAnswered(Compacted(), 6)
    ensures ReplayOf(Closed(Compacted(), 8)).updates
         == [CallShown("tool-1-0", "bash", "{}"), CallUpdate("tool-7-0", false, "hi"),
             CallShown("tool-2-0-x", "bash", "{}"), CallUpdate("tool-2-0-x", true, "cancelled")]
    ensures !Correlated(ReplayOf(Closed(Compacted(), 8)).updates)
  {
    hide *;
    CompactedIsRecorded();
    CompactedUpdates();
    FirstIsUnanswered(ReplayOf(Closed(Compacted(), 8)).updates);
  }

  // ----- A rejected batch -----

  const REJECTED := "tool batch rejected: report/escalate must be the only call"

  function RejectedBatch(): ChatMessage
  {
    ChatMessage(Assistant, "", "", [ToolCall("", "report", "{}"), ToolCall("", "bash", "{}")])
  }

  function Rejected(): seq<ChatMessage>
  {
    [RejectedBatch(), AnswerTo("", REJECTED), AnswerTo("", REJECTED), CallWith("x")]
  }

  lemma RejectedIsRecorded()
    ensures Recorded(Rejected(), 0) && TurnOf(Rejected(), 0) == 2 && SameNumbering(Rejected(), 0)
    ensures DistinctBatches(Rejected(), 0) && !EarlierAnswered(Rejected(), 0)
  {
    var a, b, c := RejectedBatch(), AnswerTo("", REJECTED), CallWith("x");
    var m0: seq<ChatMessage>, m1, m2, m3, m4 := [], [a], [a, b], [a, b, b], [a, b, b, c];
    assert m1[..0] == m0 && m2[..1] == m1 && m3[..2] == m2 && m4[..3] == m3;
    SmallNumbers();
    hide Synthesized;
    assert Assistants(m0) == 0 && Assistants(m1) == 1 && Assistants(m2) == 1 && Assistants(m3) == 1;
    assert Assistants(m4) == 2;
    assert LastAssistant(m1) == Some(0) && LastAssistant(m2) == Some(0) && LastAssistant(m3) == Some(0);
    assert ConversationId(a.toolCalls[0], 1, 0) == "tool-1-0" && ConversationId(a.toolCalls[1], 1, 1) == "tool-1-1";
    assert DistinctBatch(a.toolCalls, 1) && DistinctBatch(c.toolCalls, 2);
    assert !AnsweredAfter(m3, 0, "tool-1-0") && "tool-1-0" in BatchIds(a.toolCalls, 1);
    assert !AnsweredUnder(m3, 1);
    assert a.toolCalls[0] in a.toolCalls && "" in AnswerIds(a.toolCalls, 1);
    hide AnswerIds, BatchIds, AnsweredUnder, ConversationId, DistinctBatch;
    assert Recorded(m0, 0) && DistinctBatches(m0, 0);
    assert Recorded(m1, 0) && DistinctBatches(m1, 0);
    assert Recorded(m2, 0) && DistinctBatches(m2, 0);
  }

  lemma ReplayOfRejectedBatch()
    ensures ReplayOf([RejectedBatch()])
         == Replay(1, map["tool-1-0" := "tool-1-0", "tool-1-1" := "tool-1-1"],
                   [CallShown("tool-1-0", "report", "{}"), CallShown("tool-1-1", "bash", "{}")])
  {
    var a := RejectedBatch();
    SmallNumbers();
    ReplayOfOneMore([], a);
    assert [] + [a] == [a];
    hide Synthesized;
    var spoken := SpokenReplay(Replay(0, map[], []), a);
    assert spoken.updates == [];
    assert ShowCalls(spoken, a.toolCalls, 0) == spoken;
    assert ShowCalls(spoken, a.toolCalls, 1)
        == Replay(1, map["tool-1-0" := "tool-1-0"], [CallShown("tool-1-0", "report", "{}")]);
  }

  lemma RejectedFirstTurn()
    ensures ReplayOf([RejectedBatch(), AnswerTo("", REJECTED), AnswerTo("", REJECTED)])
         == Replay(1, map["tool-1-0" := "tool-1-0", "tool-1-1" := "tool-1-1"],
                   [CallShown("tool-1-0", "report", "{}"), CallShown("tool-1-1", "bash", "{}"),
                    CallUpdate("", false, REJECTED), CallUpdate("", false, REJECTED)])
  {
    var a, b := RejectedBatch(), AnswerTo("", REJECTED);
    ReplayOfRejectedBatch();
    ReplayOfOneMore([a], b);
    ReplayOfOneMore([a, b], b);
    assert [a] + [b] == [a, b] && [a, b] + [b] == [a, b, b];
    assert |REJECTED| > |"permission denied"| > |"cancelled"|;
    hide ReplayOf;
  }

  lemma RejectedUpdates()
    ensures Closed(Rejected(), 2) == Rejected() + [Cancelled("x")]
    ensures ReplayOf(Closed(Rejected(), 2)).updates
         == [CallShown("tool-1-0", "report", "{}"), CallShown("tool-1-1", "bash", "{}"),
             CallUpdate("", false, REJECTED), CallUpdate("", false, REJECTED),
             CallShown("tool-2-0-x", "bash", "{}"), CallUpdate("tool-2-0-x", true, "cancelled")]
  {
    var three := [RejectedBatch(), AnswerTo("", REJECTED), AnswerTo("", REJECTED)];
    assert Rejected() == three + [CallWith("x")];
    assert three + [CallWith("x"), Cancelled("x")] == Rejected() + [Cancelled("x")];
    hide *;
    RejectedFirstTurn();
    ClosedLastTurn(three, 2);
    LastTurn(three);
  }

  /// A batch with `report` beside another call is rejected, and its calls, which have
  /// no ids, are answered under the empty id. In the next turn a call is open. Nothing
  /// was dropped, and still the replay after cancelling never answers the first two
  /// calls it shows.
  lemma RejectedReplayIncomplete()
    ensures Recorded(Rejected(), 0) && TurnOf(Rejected(), 0) == 2 && DistinctBatches(Rejected(), 0)
    ensures Closed(Rejected(), 2) == Rejected() + [Cancelled("x")]
    ensures ReplayOf(Closed(Rejected(), 2)).updates
         == [CallShown("tool-1-0", "report", "{}"), CallShown("tool-1-1", "bash", "{}"),
             CallUpdate("", false, REJECTED), CallUpdate("", false, REJECTED),
             CallShown("tool-2-0-x", "bash", "{}"), CallUpdate("tool-2-0-x", true, "cancelled")]
    ensures !Correlated(ReplayOf(Closed(Rejected(), 2)).updates)
  {
    hide *;
    RejectedIsRecorded();
    RejectedUpdates();
    FirstIsUnanswered(ReplayOf(Closed(Rejected(), 2)).updates);
  }

  // ----- Why answers are to the batch before -----

  lemma StrayIsNotRecorded()
    ensures !Recorded([CallWith(""), AnswerTo("tool-7-0", "hi"), AnswerTo("tool-1-0", "hi")], 6)
  {
    var a, b, c := CallWith(""), AnswerTo("tool-7-0", "hi"), AnswerTo("tool-1-0", "hi");
    SmallNumbers();
    hide Synthesized;
    assert [a, b, c][..2] == [a, b] && [a, b][..1] == [a];
    assert LastAssistant([a]) == Some(0) && LastAssistant([a, b]) == Some(0);
    assert Assistants([a]) == 1 && Assistants([a, b]) == 1;
    assert BatchIds(a.toolCalls, 7) == {"tool-7-0"} by { assert ConversationId(a.toolCalls[0], 7, 0) == "tool-7-0"; }
    assert AnswerIds(a.toolCalls, 7) == {"tool-7-0", ""} by { assert a.toolCalls[0] in a.toolCalls; }
  }

  /// An answer under an id that is neither a conversation id nor a raw id of its
  /// batch could stand in for the one that is missing. The run writes none.
  lemma StrayAnswerStandsIn()
    ensures var messages := [CallWith(""), AnswerTo("tool-7-0", "hi"), AnswerTo("tool-1-0", "hi")];
            Correlated(ReplayOf(messages).updates) && !Recorded(messages, 6)
  {
    var a, b, c := CallWith(""), AnswerTo("tool-7-0", "hi"), AnswerTo("tool-1-0", "hi");
    CompactedFirstTurn();
    ReplayOfOneMore([a, b], c);
    assert [a, b] + [c] == [a, b, c];
    StrayIsNotRecorded();
    var updates := ReplayOf([a, b, c]).updates;
    hide ReplayOf, Recorded;
    assert updates == [CallShown("tool-1-0", "bash", "{}"), CallUpdate("tool-7-0", false, "hi"),
                       CallUpdate("tool-1-0", false, "hi")];
    assert updates[2].CallUpdate? && updates[2].id == updates[0].id;
    assert AnsweredLater(updates, 0);
  }
}
