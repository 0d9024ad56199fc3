/// Tool calls of a session: how a cancelled prompt answers the calls it leaves
/// open, and how a replayed history ties every call to its answer.
module ToolCalls {
  import opened Wrappers
  import opened Text

  const U32_MAX: nat := 0xffff_ffff

  datatype ToolCall = ToolCall(id: string, name: string, argsJson: string)

  datatype Role = User | Assistant | Tool | Other

  datatype ChatMessage = ChatMessage(role: Role, content: string, toolCallId: string, toolCalls: seq<ToolCall>)

  datatype Update =
    | UserChunk(content: string)
    | AgentChunk(content: string, turn: nat)
    | CallShown(id: string, name: string, argsJson: string)
    | CallUpdate(id: string, failed: bool, content: string)

  // ----- The two ids of a call -----

  function Synthesized(turn: nat, index: nat): string
  {
    "tool-" + Decimal(turn) + "-" + Decimal(index)
  }

  /// The id under which a tool message answers the call.
  function ConversationId(call: ToolCall, turn: nat, index: nat): string
  {
    if call.id == "" then Synthesized(turn, index) else call.id
  }

  /// The id under which the call is shown, the same after every restart.
  function StableId(call: ToolCall, turn: nat, index: nat): string
  {
    if call.id == "" || call.id == Synthesized(turn, index) then Synthesized(turn, index)
    else Synthesized(turn, index) + "-" + call.id
  }

  function NextTurn(turn: nat): nat
  {
    if turn < U32_MAX then turn + 1 else turn
  }

  lemma SameNumbers(t: nat, i: nat, u: nat, j: nat, x: string, y: string)
    requires EndsOrContinues(x, '-') && EndsOrContinues(y, '-') && Synthesized(t, i) + x == Synthesized(u, j) + y
    ensures t == u && i == j && x == y
  {
    hide Digits, Decimal;
    var left, right := "-" + Decimal(i) + x, "-" + Decimal(j) + y;
    assert Synthesized(t, i) + x == "tool-" + (Decimal(t) + left);
    assert Synthesized(u, j) + y == "tool-" + (Decimal(u) + right);
    assert Decimal(t) + left == ("tool-" + (Decimal(t) + left))[5..];
    assert Decimal(u) + right == ("tool-" + (Decimal(u) + right))[5..];
    SameBefore('-', Decimal(t), Decimal(u), left, right);
    assert Decimal(i) + x == left[1..] && Decimal(j) + y == right[1..];
    SameBefore('-', Decimal(i), Decimal(j), x, y);
    DigitsOfDecimal(t);
    DigitsOfDecimal(u);
    DigitsOfDecimal(i);
    DigitsOfDecimal(j);
  }

  /// Calls of different turns, or at different places of one, are shown under
  /// different ids, whatever ids the model gave them.
  lemma StableIdsDiffer(c: ToolCall, t: nat, i: nat, d: ToolCall, u: nat, j: nat)
    requires StableId(c, t, i) == StableId(d, u, j)
    ensures t == u && i == j
  {
    hide Synthesized;
    var x := if c.id == "" || c.id == Synthesized(t, i) then "" else "-" + c.id;
    var y := if d.id == "" || d.id == Synthesized(u, j) then "" else "-" + d.id;
    assert StableId(c, t, i) == Synthesized(t, i) + x;
    assert StableId(d, u, j) == Synthesized(u, j) + y;
    SameNumbers(t, i, u, j, x, y);
  }

  // ----- Closing the calls a cancelled prompt leaves open -----

  function LastAssistant(messages: seq<ChatMessage>): (r: Option<nat>)
    ensures r.Some? ==> r.value < |messages| && messages[r.value].role.Assistant?
    ensures r.Some? ==> forall k | r.value < k < |messages| :: !messages[k].role.Assistant?
    ensures r.None? ==> forall k | 0 <= k < |messages| :: !messages[k].role.Assistant?
  {
    if messages == [] then None
    else if messages[|messages| - 1].role.Assistant? then Some(|messages| - 1)
    else LastAssistant(messages[..|messages| - 1])
  }

  /// Some tool message after the position carries the id.
  predicate AnsweredAfter(messages: seq<ChatMessage>, at: nat, id: string)
  {
    exists k | at < k < |messages| :: messages[k].role.Tool? && messages[k].toolCallId == id
  }

  function Cancelled(id: string): ChatMessage
  {
    ChatMessage(Tool, "cancelled", id, [])
  }

  /// The messages that answer the first n calls of a batch as far as they are open.
  function Cancellations(messages: seq<ChatMessage>, at: nat, turn: nat, n: nat): seq<ChatMessage>
    requires at < |messages| && n <= |messages[at].toolCalls|
  {
    if n == 0 then []
    else
      var id := ConversationId(messages[at].toolCalls[n - 1], turn, n - 1);
      Cancellations(messages, at, turn, n - 1) + if AnsweredAfter(messages, at, id) then [] else [Cancelled(id)]
  }

  function Closed(messages: seq<ChatMessage>, turn: nat): seq<ChatMessage>
  {
    match LastAssistant(messages)
    case None => messages
    case Some(at) => messages + Cancellations(messages, at, turn, |messages[at].toolCalls|)
  }

  class Checkpoint {
    var messages: seq<ChatMessage>
    var completedTurns: nat

    constructor (messages: seq<ChatMessage>, completedTurns: nat)
      ensures this.messages == messages && this.completedTurns == completedTurns
    {
      this.messages, this.completedTurns := messages, completedTurns;
    }

    method CloseOutstandingToolCalls()
      modifies this`messages
      ensures messages == Closed(old(messages), completedTurns)
    {
      var last := LastAssistant(messages);
      if last.None? {
        return;
      }
      var before, at, turn := messages, last.value, completedTurns;
      var batch := before[at].toolCalls;
      var answered := set k | at < k < |before| && before[k].role.Tool? :: before[k].toolCallId;
      for index := 0 to |batch|
        invariant messages == before + Cancellations(before, at, turn, index)
      {
        var id := ConversationId(batch[index], turn, index);
        assert id in answered <==> AnsweredAfter(before, at, id);
        if id in answered || (batch[index].id != "" && batch[index].id in answered) {
          continue;
        }
        messages := messages + [Cancelled(id)];
      }
    }
  }

  predicate AnsweredBy(more: seq<ChatMessage>, id: string)
  {
    exists k | 0 <= k < |more| :: more[k].role.Tool? && more[k].toolCallId == id
  }

  lemma {:induction false} CancellationsAnswer(messages: seq<ChatMessage>, at: nat, turn: nat, n: nat)
    requires at < |messages| && n <= |messages[at].toolCalls|
    ensures forall c | c in Cancellations(messages, at, turn, n) ::
              c == Cancelled(c.toolCallId) && !AnsweredAfter(messages, at, c.toolCallId)
    ensures forall i | 0 <= i < n ::
              var id := ConversationId(messages[at].toolCalls[i], turn, i);
              AnsweredAfter(messages, at, id) || AnsweredBy(Cancellations(messages, at, turn, n), id)
  {
    if n > 0 {
      CancellationsAnswer(messages, at, turn, n - 1);
      hide ConversationId, AnsweredAfter, AnsweredBy;
      var before, more := Cancellations(messages, at, turn, n - 1), Cancellations(messages, at, turn, n);
      forall i | 0 <= i < n
        ensures var id := ConversationId(messages[at].toolCalls[i], turn, i);
                AnsweredAfter(messages, at, id) || AnsweredBy(more, id)
      {
        var id := ConversationId(messages[at].toolCalls[i], turn, i);
        if i < n - 1 {
          AnsweredByMore(before, more, id);
        } else if !AnsweredAfter(messages, at, id) {
          AnsweredByLast(more, id);
        }
      }
    }
  }

  lemma AnsweredByMore(before: seq<ChatMessage>, more: seq<ChatMessage>, id: string)
    requires before <= more
    ensures AnsweredBy(before, id) ==> AnsweredBy(more, id)
  {
  }

  lemma AnsweredByLast(more: seq<ChatMessage>, id: string)
    requires more != [] && more[|more| - 1] == Cancelled(id)
    ensures AnsweredBy(more, id)
  {
  }

  /// A cancellation is of a call of the batch.
  lemma {:induction false} CancelledInBatch(messages: seq<ChatMessage>, at: nat, turn: nat, n: nat, c: ChatMessage)
    returns (i: nat)
    requires at < |messages| && n <= |messages[at].toolCalls| && c in Cancellations(messages, at, turn, n)
    ensures i < n && c.toolCallId == ConversationId(messages[at].toolCalls[i], turn, i)
  {
    if c in Cancellations(messages, at, turn, n - 1) {
      i := CancelledInBatch(messages, at, turn, n - 1, c);
    } else {
      i := n - 1;
    }
  }

  lemma AnsweredInLonger(messages: seq<ChatMessage>, more: seq<ChatMessage>, at: nat, id: string)
    requires at < |messages|
    ensures AnsweredAfter(messages + more, at, id) <==> AnsweredAfter(messages, at, id) || AnsweredBy(more, id)
  {
    var all := messages + more;
    assert forall k | 0 <= k < |messages| :: all[k] == messages[k];
    assert forall k | 0 <= k < |more| :: all[|messages| + k] == more[k];
    assert forall k | |messages| <= k < |all| :: all[k] == more[k - |messages|];
  }

  lemma SameLastAssistant(messages: seq<ChatMessage>, more: seq<ChatMessage>)
    requires forall k | 0 <= k < |more| :: more[k].role.Tool?
    ensures LastAssistant(messages + more) == LastAssistant(messages)
  {
    var all := messages + more;
    assert forall k | 0 <= k < |messages| :: all[k] == messages[k];
    assert forall k | |messages| <= k < |all| :: all[k] == more[k - |messages|];
    hide LastAssistant;
    var r, q := LastAssistant(messages), LastAssistant(all);
    if r.Some? {
      assert all[r.value].role.Assistant?;
    }
  }

  /// Closing only appends, answers every call of the last batch, and answers with
  /// `cancelled` exactly those that had no answer.
  lemma ClosingAnswersTheBatch(messages: seq<ChatMessage>, turn: nat)
    ensures messages <= Closed(messages, turn)
    ensures LastAssistant(Closed(messages, turn)) == LastAssistant(messages)
    ensures LastAssistant(messages).Some? ==>
              var at := LastAssistant(messages).value;
              && forall i | 0 <= i < |messages[at].toolCalls| ::
                   AnsweredAfter(Closed(messages, turn), at, ConversationId(messages[at].toolCalls[i], turn, i))
    ensures LastAssistant(messages).Some? ==>
              var at := LastAssistant(messages).value;
              forall k | |messages| <= k < |Closed(messages, turn)| ::
                var added := Closed(messages, turn)[k];
                added == Cancelled(added.toolCallId) && !AnsweredAfter(messages, at, added.toolCallId)
  {
    if LastAssistant(messages).Some? {
      var at := LastAssistant(messages).value;
      var n := |messages[at].toolCalls|;
      var more := Cancellations(messages, at, turn, n);
      CancellationsAnswer(messages, at, turn, n);
      assert forall k | 0 <= k < |more| :: more[k] in more;
      SameLastAssistant(messages, more);
      hide AnsweredAfter, AnsweredBy;
      forall i | 0 <= i < n
        ensures AnsweredAfter(messages + more, at, ConversationId(messages[at].toolCalls[i], turn, i))
      {
        AnsweredInLonger(messages, more, at, ConversationId(messages[at].toolCalls[i], turn, i));
      }
    }
  }

  /// Closing twice is closing once.
  lemma ClosingIsIdempotent(messages: seq<ChatMessage>, turn: nat)
    ensures Closed(Closed(messages, turn), turn) == Closed(messages, turn)
  {
    ClosingAnswersTheBatch(messages, turn);
    if LastAssistant(messages).Some? {
      var all, at := Closed(messages, turn), LastAssistant(messages).value;
      assert all[at] == messages[at];
      NothingOpen(all, at, turn, |messages[at].toolCalls|);
    }
  }

  lemma {:induction false} NothingOpen(messages: seq<ChatMessage>, at: nat, turn: nat, n: nat)
    requires at < |messages| && n <= |messages[at].toolCalls|
    requires forall i | 0 <= i < n :: AnsweredAfter(messages, at, ConversationId(messages[at].toolCalls[i], turn, i))
    ensures Cancellations(messages, at, turn, n) == []
  {
    if n > 0 {
      NothingOpen(messages, at, turn, n - 1);
    }
  }
}
