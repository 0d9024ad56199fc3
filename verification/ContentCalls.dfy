/// Closing open tool calls in the content sidecar: the same answers as in the plain
/// history, each with a content part under an id nothing else has.
module ContentCalls {
  import opened Wrappers
  import opened Text
  import opened ToolCalls

  datatype ContentMessage = ContentMessage(role: Role, parts: seq<string>, toolCallId: string, toolCalls: seq<ToolCall>)

  // ----- Part ids -----

  /// The ids tried for the part of one call, in order.
  function Candidate(turn: nat, index: nat, k: nat): string
  {
    var base := "shikigami-cancel-" + Decimal(turn) + "-" + Decimal(index);
    if k == 0 then base else base + "-" + Decimal(k)
  }

  lemma CandidatesDiffer(turn: nat, index: nat, j: nat, k: nat)
    requires j != k
    ensures Candidate(turn, index, j) != Candidate(turn, index, k)
  {
    hide Decimal, Digits;
    DigitsOfDecimal(j);
    DigitsOfDecimal(k);
    var base := Candidate(turn, index, 0);
    var a, b := Candidate(turn, index, j), Candidate(turn, index, k);
    assert j > 0 ==> a[|base| + 1..] == Decimal(j);
    assert k > 0 ==> b[|base| + 1..] == Decimal(k);
    assert j > 0 ==> |a| > |base|;
    assert k > 0 ==> |b| > |base|;
  }

  /// Tries ids until one is new. There are more ids than parts can be in use, so
  /// this takes at most one try more than there are parts.
  method FreshPartId(used: set<string>, turn: nat, index: nat) returns (id: string, tries: nat)
    requires |used| <= U32_MAX
    ensures id !in used && 1 <= tries <= |used| + 1
    ensures id == Candidate(turn, index, tries - 1)
    ensures forall k | 0 <= k < tries - 1 :: Candidate(turn, index, k) in used
  {
    hide Candidate, Tried;
    id := Candidate(turn, index, 0);
    var suffix := 1;
    tries := 1;
    TriedIds(turn, index, 0);
    while id in used
      invariant 1 <= tries <= |used| + 1 && id == Candidate(turn, index, tries - 1)
      invariant suffix == if tries <= U32_MAX then tries else U32_MAX
      invariant Tried(turn, index, tries - 1) <= used
      invariant forall k | 0 <= k < tries - 1 :: Candidate(turn, index, k) in used
      decreases |used| + 1 - tries
    {
      TriedIds(turn, index, tries);
      SubsetIsSmaller(Tried(turn, index, tries), used);
      id := NumberedPart(turn, index, suffix);
      suffix := if suffix < U32_MAX then suffix + 1 else suffix;
      tries := tries + 1;
    }
  }

  ghost function Tried(turn: nat, index: nat, n: nat): set<string>
  {
    if n == 0 then {} else Tried(turn, index, n - 1) + {Candidate(turn, index, n - 1)}
  }

  lemma {:induction false} TriedIds(turn: nat, index: nat, n: nat)
    ensures |Tried(turn, index, n)| == n
    ensures n > 0 ==> Tried(turn, index, n) == Tried(turn, index, n - 1) + {Candidate(turn, index, n - 1)}
    ensures forall s | s in Tried(turn, index, n) :: exists k :: 0 <= k < n && s == Candidate(turn, index, k)
  {
    hide Candidate;
    if n > 0 {
      TriedIds(turn, index, n - 1);
      if Candidate(turn, index, n - 1) in Tried(turn, index, n - 1) {
        var k :| 0 <= k < n - 1 && Candidate(turn, index, n - 1) == Candidate(turn, index, k);
        CandidatesDiffer(turn, index, k, n - 1);
      }
    }
  }

  function NumberedPart(turn: nat, index: nat, suffix: nat): (s: string)
    requires suffix > 0
    ensures s == Candidate(turn, index, suffix)
  {
    "shikigami-cancel-" + Decimal(turn) + "-" + Decimal(index) + "-" + Decimal(suffix)
  }

  // ----- The sidecar -----

  function Plain(messages: seq<ContentMessage>): seq<ChatMessage>
  {
    seq(|messages|, k requires 0 <= k < |messages| =>
      ChatMessage(messages[k].role, "cancelled", messages[k].toolCallId, messages[k].toolCalls))
  }

  function Parts(messages: seq<ContentMessage>): seq<string>
  {
    if messages == [] then [] else Parts(messages[..|messages| - 1]) + messages[|messages| - 1].parts
  }

  lemma DistinctMore(parts: seq<string>, id: string)
    requires Distinct(parts) && id !in parts
    ensures Distinct(parts + [id])
  {
  }

  function UsedParts(messages: seq<ContentMessage>): set<string>
  {
    set p | p in Parts(messages)
  }

  lemma FewParts(parts: seq<string>)
    ensures |set p | p in parts| <= |parts|
  {
    if parts != [] {
      FewParts(parts[1..]);
      assert (set p | p in parts) == (set p | p in parts[1..]) + {parts[0]};
    }
  }

  /// The call there in the last batch has no answer.
  predicate IsOpen(messages: seq<ContentMessage>, turn: nat, i: int)
  {
    var plain := Plain(messages);
    var last := LastAssistant(plain);
    last.Some? && 0 <= i < |messages[last.value].toolCalls|
    && !AnsweredAfter(plain, last.value, ConversationId(messages[last.value].toolCalls[i], turn, i))
  }

  /// The message answers an open call of the last batch, with one part under an id
  /// tried for that call.
  ghost predicate PartOfItsCall(messages: seq<ContentMessage>, turn: nat, m: ContentMessage)
  {
    exists i: nat, k: nat ::
      && IsOpen(messages, turn, i) && m.parts == [Candidate(turn, i, k)]
      && m.toolCallId == ConversationId(messages[LastAssistant(Plain(messages)).value].toolCalls[i], turn, i)
  }

  /// Closes the open calls of the last batch; `stores` is whether the resolver
  /// stores each part. Nothing is saved when one is not stored.
  method CloseContentOutstandingCalls(messages: seq<ContentMessage>, turn: nat, stores: nat -> bool)
    returns (saved: Option<seq<ContentMessage>>)
    requires forall m | m in messages :: |m.toolCalls| + |Parts(messages)| <= U32_MAX
    ensures saved.Some? ==>
              && messages <= saved.value
              && Plain(saved.value) == Closed(Plain(messages), turn)
              && (Distinct(Parts(messages)) ==> Distinct(Parts(saved.value)))
              && forall k | |messages| <= k < |saved.value| :: PartOfItsCall(messages, turn, saved.value[k])
    ensures saved.Some? <==> forall i | IsOpen(messages, turn, i) :: stores(i)
  {
    hide LastAssistant, Candidate, ConversationId, Distinct, AnsweredIds, AnsweredAfter, Parts;
    var plain := Plain(messages);
    var last := LastAssistant(plain);
    if last.None? {
      return Some(messages);
    }
    var at := last.value;
    var batch := messages[at].toolCalls;
    var answered := AnsweredIds(messages, at);
    var used := UsedParts(messages);
    assert messages[at] in messages;
    FewParts(Parts(messages));
    var more: seq<ContentMessage> := [];
    assert messages + more == messages;
    hide UsedParts;
    for index := 0 to |batch|
      invariant Plain(more) == Cancellations(plain, at, turn, index)
      invariant used == UsedParts(messages + more) && |used| <= |Parts(messages)| + index
      invariant Distinct(Parts(messages)) ==> Distinct(Parts(messages + more))
      invariant forall k | 0 <= k < |more| :: PartOfItsCall(messages, turn, more[k])
      invariant forall i | 0 <= i < index && IsOpen(messages, turn, i) :: stores(i)
    {
      var id := ConversationId(batch[index], turn, index);
      AnsweredInPlain(messages, at, id);
      if id in answered || (batch[index].id != "" && batch[index].id in answered) {
        OwnIdAnswers(batch[index], turn, index);
        continue;
      }
      assert IsOpen(messages, turn, index);
      var part, tries := FreshPartId(used, turn, index);
      if !stores(index) {
        return None;
      }
      var message := ContentMessage(Tool, [part], id, []);
      OneMore(messages, more, message);
      assert PartOfItsCall(messages, turn, message);
      used := used + {part};
      more := more + [message];
    }
    saved := Some(messages + more);
    PlainOfBoth(messages, more);
  }

  lemma PlainOfBoth(messages: seq<ContentMessage>, more: seq<ContentMessage>)
    ensures Plain(messages + more) == Plain(messages) + Plain(more)
  {
  }

  lemma OneMore(messages: seq<ContentMessage>, more: seq<ContentMessage>, message: ContentMessage)
    requires |message.parts| == 1 && message.role.Tool? && message.toolCalls == []
    ensures Plain(more + [message]) == Plain(more) + [Cancelled(message.toolCallId)]
    ensures UsedParts(messages + (more + [message])) == UsedParts(messages + more) + {message.parts[0]}
    ensures message.parts[0] !in UsedParts(messages + more) && Distinct(Parts(messages + more)) ==>
              Distinct(Parts(messages + (more + [message])))
  {
    var all := messages + more;
    assert all + [message] == messages + (more + [message]);
    assert (all + [message])[..|all|] == all;
    var part := message.parts[0];
    assert message.parts == [part];
    if part !in UsedParts(all) && Distinct(Parts(all)) {
      DistinctMore(Parts(all), part);
    }
  }

  function AnsweredIds(messages: seq<ContentMessage>, at: nat): set<string>
  {
    set k | at < k < |messages| && messages[k].role.Tool? :: messages[k].toolCallId
  }

  lemma AnsweredInPlain(messages: seq<ContentMessage>, at: nat, id: string)
    ensures id in AnsweredIds(messages, at) <==> AnsweredAfter(Plain(messages), at, id)
  {
    var plain := Plain(messages);
    assert forall k | 0 <= k < |messages| ::
        plain[k].role == messages[k].role && plain[k].toolCallId == messages[k].toolCallId;
    if id in AnsweredIds(messages, at) {
      var k :| at < k < |messages| && messages[k].role.Tool? && messages[k].toolCallId == id;
      assert plain[k].role.Tool?;
    }
  }

  lemma OwnIdAnswers(call: ToolCall, turn: nat, index: nat)
    ensures call.id != "" ==> ConversationId(call, turn, index) == call.id
  {
  }
}
