/**
  Regrouping a flat history into balanced call/result messages
  (moss/context/manager.py _native_history_messages, moss/context/native_history.py).

  A block remembers the position of the history entry it shows, so that "emitted exactly
  once" can be stated; its text is not modelled.
*/
module NativeHistory {
  import opened History

  datatype Block =
    | CallBlock(callId: string, position: nat)
    | ResultBlock(callId: string, source: Option<nat>)
    | TextBlock(position: nat)

  datatype Message = Message(role: Role, blocks: seq<Block>)

  predicate IsCall(e: Entry) {
    e.native && e.callId != ""
  }

  predicate IsResult(e: Entry) {
    e.callId != "" && e.role == Tool && !e.native
  }

  /** result_positions: only the first result of an id counts. */
  function FirstResult(entries: seq<Entry>, callId: string): (r: Option<nat>)
    ensures r.Some? ==> r.value < |entries| && IsResult(entries[r.value]) && entries[r.value].callId == callId
    ensures r.Some? ==> forall k :: 0 <= k < r.value && IsResult(entries[k]) ==> entries[k].callId != callId
    ensures r.None? ==> forall k :: 0 <= k < |entries| && IsResult(entries[k]) ==> entries[k].callId != callId
  {
    if |entries| == 0 then None
    else
      var last := |entries| - 1;
      var r := FirstResult(entries[..last], callId);
      if r.Some? then r
      else if IsResult(entries[last]) && entries[last].callId == callId then Some(last)
      else None
  }

  predicate CalledBefore(entries: seq<Entry>, callId: string, n: nat)
    requires n <= |entries|
  {
    exists j :: 0 <= j < n && IsCall(entries[j]) && entries[j].callId == callId
  }

  /** The result entry the call at position `k` is shown with: each result goes to the first call of its id. */
  function ResultFor(entries: seq<Entry>, k: nat): Option<nat>
    requires k < |entries|
  {
    if IsCall(entries[k]) && !CalledBefore(entries, entries[k].callId, k)
    then FirstResult(entries, entries[k].callId)
    else None
  }

  /** The `consumed` set once all calls before `n` have been handled. */
  ghost function Consumed(entries: seq<Entry>, n: nat): set<nat>
    requires n <= |entries|
  {
    set k | 0 <= k < n && ResultFor(entries, k).Some? :: ResultFor(entries, k).value
  }

  function GroupEnd(entries: seq<Entry>, i: nat): (g: nat)
    requires i <= |entries|
    ensures i <= g <= |entries|
    ensures i < |entries| && IsCall(entries[i]) ==> i < g
    ensures forall k :: i <= k < g ==> IsCall(entries[k])
    ensures g < |entries| ==> !IsCall(entries[g])
    decreases |entries| - i
  {
    if i < |entries| && IsCall(entries[i]) then GroupEnd(entries, i + 1) else i
  }

  function CallBlocks(entries: seq<Entry>, i: nat, g: nat): seq<Block>
    requires i <= g <= |entries|
  {
    seq(g - i, k requires 0 <= k < g - i => CallBlock(entries[i + k].callId, i + k))
  }

  function ResultBlocks(entries: seq<Entry>, i: nat, g: nat): seq<Block>
    requires i <= g <= |entries|
  {
    seq(g - i, k requires 0 <= k < g - i => ResultBlock(entries[i + k].callId, ResultFor(entries, i + k)))
  }

  /** The result at position `i` already went out with an earlier call. */
  predicate SentWithCall(entries: seq<Entry>, i: nat)
    requires i < |entries|
  {
    IsResult(entries[i]) && exists k :: 0 <= k < i && ResultFor(entries, k) == Some(i)
  }

  function TextRole(e: Entry): Role {
    if e.role == Assistant then Assistant else User
  }

  function Translate(entries: seq<Entry>, i: nat): seq<Message>
    requires i <= |entries|
    decreases |entries| - i
  {
    if i == |entries| then []
    else if IsCall(entries[i]) then
      var g := GroupEnd(entries, i);
      [Message(Assistant, CallBlocks(entries, i, g)), Message(Tool, ResultBlocks(entries, i, g))] + Translate(entries, g)
    else if SentWithCall(entries, i) then Translate(entries, i + 1)
    else [Message(TextRole(entries[i]), [TextBlock(i)])] + Translate(entries, i + 1)
  }

  // ---- The loops ----

  method NativeToolTurn(entries: seq<Entry>, i: nat, g: nat, before: set<nat>)
    returns (turn: seq<Message>, consumed: set<nat>)
    requires i < g <= |entries| && forall k :: i <= k < g ==> IsCall(entries[k])
    requires before == Consumed(entries, i)
    ensures turn == [Message(Assistant, CallBlocks(entries, i, g)), Message(Tool, ResultBlocks(entries, i, g))]
    ensures consumed == Consumed(entries, g)
  {
    consumed := before;
    var callBlocks: seq<Block>, resultBlocks: seq<Block> := [], [];
    for k := i to g
      invariant callBlocks == CallBlocks(entries, i, k) && resultBlocks == ResultBlocks(entries, i, k)
      invariant consumed == Consumed(entries, k)
    {
      var callId := entries[k].callId;
      callBlocks := callBlocks + [CallBlock(callId, k)];
      var position := FirstResult(entries, callId);
      ConsumedIff(entries, k);
      ConsumedGrows(entries, k);
      if position.None? || position.value in consumed {
        resultBlocks := resultBlocks + [ResultBlock(callId, None)];
      } else {
        consumed := consumed + {position.value};
        resultBlocks := resultBlocks + [ResultBlock(callId, position)];
      }
    }
    turn := [Message(Assistant, callBlocks), Message(Tool, resultBlocks)];
  }

  method NativeHistoryMessages(entries: seq<Entry>) returns (messages: seq<Message>)
    ensures messages == Translate(entries, 0)
    ensures Balanced(messages)
  {
    TranslateBalanced(entries, 0);
    EmptySuffix(entries);
    hide ResultFor, Balanced, CallBlocks, ResultBlocks, Consumed, SentWithCall, Translate;
    messages := [];
    ConsumedNothing(entries);
    var consumed: set<nat> := {};
    var index := 0;
    while index < |entries|
      invariant index <= |entries|
      invariant consumed == Consumed(entries, index)
      invariant messages + Translate(entries, index) == Translate(entries, 0)
    {
      if IsCall(entries[index]) {
        var start := index;
        while index < |entries| && IsCall(entries[index])
          invariant start <= index <= |entries| && GroupEnd(entries, start) == GroupEnd(entries, index)
          invariant start < index || IsCall(entries[index])
          invariant forall k :: start <= k < index ==> IsCall(entries[k])
        {
          index := index + 1;
        }
        var turn;
        turn, consumed := NativeToolTurn(entries, start, index, consumed);
        TurnStep(entries, start, messages);
        messages := messages + turn;
        continue;
      }
      ConsumedHas(entries, index);
      NoResultForOthers(entries, index);
      OtherStep(entries, index, messages);
      ConsumedGrows(entries, index);
      index := index + 1;
      if IsResult(entries[index - 1]) && index - 1 in consumed {
        assert messages + [] == messages;
        continue;
      }
      messages := messages + [Message(TextRole(entries[index - 1]), [TextBlock(index - 1)])];
    }
  }

  lemma EmptySuffix(entries: seq<Entry>)
    ensures Translate(entries, |entries|) == []
  {
  }

  lemma TurnStep(entries: seq<Entry>, i: nat, messages: seq<Message>)
    requires i < |entries| && IsCall(entries[i])
    ensures var g := GroupEnd(entries, i);
            messages + [Message(Assistant, CallBlocks(entries, i, g)), Message(Tool, ResultBlocks(entries, i, g))]
              + Translate(entries, g)
            == messages + Translate(entries, i)
  {
  }

  lemma OtherStep(entries: seq<Entry>, i: nat, messages: seq<Message>)
    requires i < |entries| && !IsCall(entries[i])
    ensures messages + (if SentWithCall(entries, i) then [] else [Message(TextRole(entries[i]), [TextBlock(i)])])
              + Translate(entries, i + 1)
            == messages + Translate(entries, i)
  {
  }

  lemma ConsumedIff(entries: seq<Entry>, k: nat)
    requires k < |entries| && IsCall(entries[k])
    ensures FirstResult(entries, entries[k].callId).Some? ==>
              (FirstResult(entries, entries[k].callId).value in Consumed(entries, k)
               <==> CalledBefore(entries, entries[k].callId, k))
  {
    if CalledBefore(entries, entries[k].callId, k) && FirstResult(entries, entries[k].callId).Some? {
      var j := FirstCall(entries, entries[k].callId, k);
      assert ResultFor(entries, j) == FirstResult(entries, entries[k].callId);
    }
  }

  lemma FirstCall(entries: seq<Entry>, callId: string, n: nat) returns (j: nat)
    requires n <= |entries| && CalledBefore(entries, callId, n)
    ensures j < n && IsCall(entries[j]) && entries[j].callId == callId && !CalledBefore(entries, callId, j)
  {
    j := 0;
    while !(IsCall(entries[j]) && entries[j].callId == callId)
      invariant j < n && !CalledBefore(entries, callId, j)
      decreases n - j
    {
      j := j + 1;
    }
  }

  lemma ConsumedGrows(entries: seq<Entry>, k: nat)
    requires k < |entries|
    ensures Consumed(entries, k + 1)
         == Consumed(entries, k) + if ResultFor(entries, k).Some? then {ResultFor(entries, k).value} else {}
  {
  }

  lemma ConsumedNothing(entries: seq<Entry>)
    ensures Consumed(entries, 0) == {}
  {
  }

  lemma NoResultForOthers(entries: seq<Entry>, k: nat)
    requires k < |entries| && !IsCall(entries[k])
    ensures ResultFor(entries, k).None?
  {
  }

  lemma ConsumedHas(entries: seq<Entry>, i: nat)
    requires i < |entries|
    ensures IsResult(entries[i]) && i in Consumed(entries, i) <==> SentWithCall(entries, i)
  {
  }

  // ---- Balance ----

  predicate IsCallMessage(m: Message) {
    m.role == Assistant && |m.blocks| > 0 && forall b <- m.blocks :: b.CallBlock?
  }

  /** `r` answers `c`: one result per call, same ids, same order. */
  predicate Answers(r: Message, c: Message) {
    && r.role == Tool && |r.blocks| == |c.blocks|
    && forall k :: 0 <= k < |c.blocks| ==> r.blocks[k].ResultBlock? && c.blocks[k].CallBlock? && r.blocks[k].callId == c.blocks[k].callId
  }

  predicate IsTextMessage(m: Message) {
    m.role != Tool && forall b <- m.blocks :: b.TextBlock?
  }

  /** Calls are answered at once and completely; no result block stands without its call. */
  predicate Balanced(messages: seq<Message>) {
    forall k :: 0 <= k < |messages| ==> Fits(messages, k)
  }

  predicate Fits(messages: seq<Message>, k: nat)
    requires k < |messages|
  {
    || IsTextMessage(messages[k])
    || (IsCallMessage(messages[k]) && k + 1 < |messages| && Answers(messages[k + 1], messages[k]))
    || (k > 0 && IsCallMessage(messages[k - 1]) && Answers(messages[k], messages[k - 1]))
  }

  lemma {:induction false} TranslateBalanced(entries: seq<Entry>, i: nat)
    requires i <= |entries|
    ensures Balanced(Translate(entries, i))
    decreases |entries| - i
  {
    if i < |entries| {
      if IsCall(entries[i]) {
        var g := GroupEnd(entries, i);
        TranslateBalanced(entries, g);
        var c, r := Message(Assistant, CallBlocks(entries, i, g)), Message(Tool, ResultBlocks(entries, i, g));
        assert IsCallMessage(c) && Answers(r, c);
        assert Fits([c, r], 0) && Fits([c, r], 1);
        BalancedPrepend([c, r], Translate(entries, g));
      } else {
        TranslateBalanced(entries, i + 1);
        if !SentWithCall(entries, i) {
          var m := Message(TextRole(entries[i]), [TextBlock(i)]);
          assert IsTextMessage(m) && Fits([m], 0);
          BalancedPrepend([m], Translate(entries, i + 1));
        }
      }
    }
  }

  lemma {:induction false} BalancedPrepend(front: seq<Message>, rest: seq<Message>)
    requires Balanced(front) && Balanced(rest)
    ensures Balanced(front + rest)
  {
    hide IsTextMessage, IsCallMessage, Answers;
    var all := front + rest;
    forall k | 0 <= k < |all|
      ensures Fits(all, k)
    {
      if k < |front| {
        assert Fits(front, k) && all[k] == front[k];
        assert k + 1 < |front| ==> all[k + 1] == front[k + 1];
        assert k > 0 ==> all[k - 1] == front[k - 1];
      } else {
        var j := k - |front|;
        assert Fits(rest, j) && all[k] == rest[j];
        assert j + 1 < |rest| ==> all[k + 1] == rest[j + 1];
        assert j > 0 ==> all[k - 1] == rest[j - 1];
      }
    }
  }

  // ---- The conversation keeps its order and its speakers ----

  /** A block says what its history entry says, in a message of the right speaker. */
  ghost predicate Truthful(entries: seq<Entry>, m: Message, b: Block) {
    match b
    case TextBlock(p) =>
      p < |entries| && !(entries[p].native && entries[p].callId != "") && m.blocks == [b] && m.role == if entries[p].role == Assistant then Assistant else User
    case CallBlock(callId, p) =>
      p < |entries| && m.role == Assistant && entries[p].native && entries[p].callId == callId != ""
    case ResultBlock(callId, None) => m.role == Tool
    case ResultBlock(callId, Some(p)) =>
      p < |entries| && m.role == Tool && entries[p].role == Tool && !entries[p].native && entries[p].callId == callId
  }

  /** The position of the entry a block was made for; a result travels with its call. */
  function Own(b: Block): Option<nat> {
    match b
    case CallBlock(_, p) => Some(p)
    case ResultBlock(_, _) => None
    case TextBlock(p) => Some(p)
  }

  /** Blocks of entries from position `i` on, in their order. */
  ghost predicate InOrder(messages: seq<Message>, i: nat) {
    && (forall k, x :: 0 <= k < |messages| && 0 <= x < |messages[k].blocks| && Own(messages[k].blocks[x]).Some? ==>
          i <= Own(messages[k].blocks[x]).value)
    && (forall k, l, x, y ::
          0 <= k <= l < |messages| && 0 <= x < |messages[k].blocks| && 0 <= y < |messages[l].blocks| && (k < l || x < y) ==>
            Own(messages[k].blocks[x]).Some? && Own(messages[l].blocks[y]).Some? ==>
              Own(messages[k].blocks[x]).value < Own(messages[l].blocks[y]).value)
  }

  lemma {:induction false} ConversationKept(entries: seq<Entry>, i: nat)
    requires i <= |entries|
    ensures forall m <- Translate(entries, i), b <- m.blocks :: Truthful(entries, m, b)
    ensures InOrder(Translate(entries, i), i)
    decreases |entries| - i
  {
    hide SentWithCall, ResultFor, InOrder, Truthful;
    if i == |entries| {
      EmptyInOrder(i);
    } else if IsCall(entries[i]) {
      var g := GroupEnd(entries, i);
      ConversationKept(entries, g);
      var c, r := Message(Assistant, CallBlocks(entries, i, g)), Message(Tool, ResultBlocks(entries, i, g));
      PairTruthful(entries, i, g);
      PairInOrder(entries, i, g, Translate(entries, g));
      assert forall m <- [c, r] + Translate(entries, g) :: m == c || m == r || m in Translate(entries, g);
    } else {
      ConversationKept(entries, i + 1);
      var m := Message(TextRole(entries[i]), [TextBlock(i)]);
      TextTruthful(entries, i);
      TextInOrder(entries, i, Translate(entries, i + 1));
      var rest := Translate(entries, i + 1);
      var all := [m] + rest;
      assert forall k :: 0 <= k < |all| ==> all[k] == m || all[k] in rest;
    }
  }

  lemma EmptyInOrder(i: nat)
    ensures InOrder([], i)
  {
  }

  lemma PairTruthful(entries: seq<Entry>, i: nat, g: nat)
    requires i <= g <= |entries| && forall k :: i <= k < g ==> IsCall(entries[k])
    ensures var c, r := Message(Assistant, CallBlocks(entries, i, g)), Message(Tool, ResultBlocks(entries, i, g));
            (forall b <- c.blocks :: Truthful(entries, c, b)) && (forall b <- r.blocks :: Truthful(entries, r, b))
  {
    hide CalledBefore;
    var r := Message(Tool, ResultBlocks(entries, i, g));
    forall k | 0 <= k < g - i
      ensures Truthful(entries, r, r.blocks[k])
    {
      assert ResultFor(entries, i + k).Some? ==> ResultFor(entries, i + k) == FirstResult(entries, entries[i + k].callId);
    }
  }

  lemma PairInOrder(entries: seq<Entry>, i: nat, g: nat, rest: seq<Message>)
    requires i < g <= |entries| && InOrder(rest, g)
    ensures InOrder([Message(Assistant, CallBlocks(entries, i, g)), Message(Tool, ResultBlocks(entries, i, g))] + rest, i)
  {
    hide ResultFor;
  }

  lemma TextTruthful(entries: seq<Entry>, i: nat)
    requires i < |entries| && !IsCall(entries[i])
    ensures var m := Message(TextRole(entries[i]), [TextBlock(i)]); forall b <- m.blocks :: Truthful(entries, m, b)
  {
  }

  lemma TextInOrder(entries: seq<Entry>, i: nat, rest: seq<Message>)
    requires i < |entries| && InOrder(rest, i + 1)
    ensures InOrder(rest, i) && InOrder([Message(TextRole(entries[i]), [TextBlock(i)])] + rest, i)
  {
  }

  // ---- Every entry is emitted exactly once ----

  predicate Shows(b: Block, p: nat) {
    match b
    case CallBlock(_, position) => position == p
    case ResultBlock(_, source) => source == Some(p)
    case TextBlock(position) => position == p
  }

  function UsesIn(blocks: seq<Block>, p: nat): nat {
    if |blocks| == 0 then 0
    else UsesIn(blocks[..|blocks| - 1], p) + if Shows(blocks[|blocks| - 1], p) then 1 else 0
  }

  /** How often the history entry at position `p` is shown. */
  function Uses(messages: seq<Message>, p: nat): nat {
    if |messages| == 0 then 0 else UsesIn(messages[0].blocks, p) + Uses(messages[1..], p)
  }

  lemma {:induction false} UsesConcat(a: seq<Message>, b: seq<Message>, p: nat)
    ensures Uses(a + b, p) == Uses(a, p) + Uses(b, p)
    decreases |a|
  {
    if |a| == 0 {
      assert a + b == b;
    } else {
      UsesConcat(a[1..], b, p);
      assert (a + b)[1..] == a[1..] + b && (a + b)[0] == a[0];
    }
  }

  lemma {:induction false} CallBlocksUse(entries: seq<Entry>, i: nat, g: nat, p: nat)
    requires i <= g <= |entries|
    ensures UsesIn(CallBlocks(entries, i, g), p) == if i <= p < g then 1 else 0
    decreases g
  {
    if i < g {
      CallBlocksUse(entries, i, g - 1, p);
      assert CallBlocks(entries, i, g)[..g - 1 - i] == CallBlocks(entries, i, g - 1);
    }
  }

  /** Some call in [i, g) is shown with the entry at `p`. */
  predicate Answered(entries: seq<Entry>, i: nat, g: nat, p: nat)
    requires i <= g <= |entries|
  {
    exists k :: i <= k < g && ResultFor(entries, k) == Some(p)
  }

  lemma {:induction false} ResultGoesToOneCall(entries: seq<Entry>, j: nat, k: nat, p: nat)
    requires j < |entries| && k < |entries|
    requires ResultFor(entries, j) == Some(p) && ResultFor(entries, k) == Some(p)
    ensures j == k
  {
    assert forall i :: 0 <= i < j && IsCall(entries[i]) ==> entries[i].callId != entries[j].callId;
    assert forall i :: 0 <= i < k && IsCall(entries[i]) ==> entries[i].callId != entries[k].callId;
  }

  lemma {:induction false} AnsweredSplits(entries: seq<Entry>, i: nat, m: nat, g: nat, p: nat)
    requires i <= m <= g <= |entries|
    ensures Answered(entries, i, g, p) <==> Answered(entries, i, m, p) || Answered(entries, m, g, p)
    ensures !(Answered(entries, i, m, p) && Answered(entries, m, g, p))
  {
    hide ResultFor;
    forall j, k | i <= j < m <= k < g && ResultFor(entries, j) == Some(p)
      ensures ResultFor(entries, k) != Some(p)
    {
      if ResultFor(entries, k) == Some(p) {
        ResultGoesToOneCall(entries, j, k, p);
      }
    }
  }

  lemma {:induction false} ResultBlocksUse(entries: seq<Entry>, i: nat, g: nat, p: nat)
    requires i <= g <= |entries|
    ensures UsesIn(ResultBlocks(entries, i, g), p) == if Answered(entries, i, g, p) then 1 else 0
    decreases g
  {
    hide ResultFor;
    if i < g {
      ResultBlocksUse(entries, i, g - 1, p);
      assert ResultBlocks(entries, i, g)[..g - 1 - i] == ResultBlocks(entries, i, g - 1);
      AnsweredSplits(entries, i, g - 1, g, p);
    }
  }

  /** What Translate shows of position `p` on its own account. */
  predicate ShownDirectly(entries: seq<Entry>, i: nat, p: nat)
    requires i <= |entries|
  {
    i <= p < |entries| && (IsCall(entries[p]) || !SentWithCall(entries, p))
  }

  lemma {:induction false} TranslateUses(entries: seq<Entry>, i: nat, p: nat)
    requires i <= |entries|
    ensures Uses(Translate(entries, i), p)
         == (if ShownDirectly(entries, i, p) then 1 else 0) + (if Answered(entries, i, |entries|, p) then 1 else 0)
    decreases |entries| - i
  {
    hide ResultFor, SentWithCall, Answered, Uses;
    if i == |entries| {
      NoUses(entries, p);
    } else if IsCall(entries[i]) {
      var g := GroupEnd(entries, i);
      TranslateUses(entries, g, p);
      var c, r := Message(Assistant, CallBlocks(entries, i, g)), Message(Tool, ResultBlocks(entries, i, g));
      UsesConcat([c, r], Translate(entries, g), p);
      UsesPair(c, r, p);
      CallBlocksUse(entries, i, g, p);
      ResultBlocksUse(entries, i, g, p);
      AnsweredSplits(entries, i, g, |entries|, p);
    } else {
      TranslateUses(entries, i + 1, p);
      AnsweredSplits(entries, i, i + 1, |entries|, p);
      NotACall(entries, i, p);
      if !SentWithCall(entries, i) {
        var m := Message(TextRole(entries[i]), [TextBlock(i)]);
        UsesConcat([m], Translate(entries, i + 1), p);
        UsesText(m, i, p);
      }
    }
  }

  lemma NoUses(entries: seq<Entry>, p: nat)
    ensures Uses([], p) == 0 && !Answered(entries, |entries|, |entries|, p)
  {
  }

  lemma UsesPair(c: Message, r: Message, p: nat)
    ensures Uses([c, r], p) == UsesIn(c.blocks, p) + UsesIn(r.blocks, p)
  {
    assert [c, r][1..] == [r] && [r][1..] == [];
    assert Uses([], p) == 0 && Uses([r], p) == UsesIn(r.blocks, p);
  }

  lemma UsesText(m: Message, i: nat, p: nat)
    requires m.blocks == [TextBlock(i)]
    ensures Uses([m], p) == if p == i then 1 else 0
  {
    assert [m][1..] == [] && [TextBlock(i)][..0] == [];
    assert Uses([], p) == 0 && UsesIn([], p) == 0;
  }

  lemma NotACall(entries: seq<Entry>, i: nat, p: nat)
    requires i < |entries| && !IsCall(entries[i])
    ensures !Answered(entries, i, i + 1, p)
  {
  }

  /** No result stands before the first call of its id. */
  predicate ResultsFollowCalls(entries: seq<Entry>) {
    forall p, k :: 0 <= p < k < |entries| && EarlyFor(entries[p], entries[k]) ==>
                     exists j :: 0 <= j < p && entries[j].native && entries[j].callId == entries[p].callId
  }

  /** A tool result that stands ahead of a call of the same id. */
  predicate EarlyFor(result: Entry, call: Entry) {
    result.role == Tool && !result.native && call.native && result.callId == call.callId != ""
  }

  /** A result that some call is shown with, placed before all calls of its id, is the only thing emitted twice. */
  lemma {:induction false} UsesOf(entries: seq<Entry>, p: nat)
    requires p < |entries|
    ensures var uses := Uses(Translate(entries, 0), p);
            uses == if exists k :: p < k < |entries| && ResultFor(entries, k) == Some(p) then 2 else 1
  {
    TranslateUses(entries, 0, p);
    hide ResultFor, Uses;
    AnsweredSplits(entries, 0, p, |entries|, p);
    if k :| 0 <= k < |entries| && ResultFor(entries, k) == Some(p) {
      AnswerIsAResult(entries, k, p);
    }
  }

  lemma AnswerIsAResult(entries: seq<Entry>, k: nat, p: nat)
    requires k < |entries| && ResultFor(entries, k) == Some(p)
    ensures p < |entries| && IsResult(entries[p]) && IsCall(entries[k]) && k != p && entries[k].callId == entries[p].callId
    ensures !CalledBefore(entries, entries[p].callId, k)
  {
  }

  /** Every entry is emitted exactly once if and only if results follow their calls. */
  lemma {:induction false} EmittedExactlyOnceIff(entries: seq<Entry>)
    ensures (forall p :: 0 <= p < |entries| ==> Uses(Translate(entries, 0), p) == 1) <==> ResultsFollowCalls(entries)
  {
    hide Uses, Translate;
    forall p | 0 <= p < |entries| { UsesOf(entries, p); }
    if ResultsFollowCalls(entries) {
      forall p, k | 0 <= p < k < |entries|
        ensures ResultFor(entries, k) != Some(p)
      {
        assert EarlyFor(entries[p], entries[k]) ==> CalledBefore(entries, entries[p].callId, p);
        if ResultFor(entries, k) == Some(p) {
          AnswerIsAResult(entries, k, p);
        }
      }
    } else {
      var p, k :| 0 <= p < k < |entries| && EarlyFor(entries[p], entries[k])
                  && !exists j :: 0 <= j < p && entries[j].native && entries[j].callId == entries[p].callId;
      assert !CalledBefore(entries, entries[p].callId, p);
      var q, j := EarlyResult(entries, p, k);
      assert Uses(Translate(entries, 0), q) == 2;
    }
  }

  /** An early result of some id makes the first result of that id, shown with the first call, early too. */
  lemma {:induction false} EarlyResult(entries: seq<Entry>, p: nat, k: nat) returns (q: nat, j: nat)
    requires p < k < |entries| && IsResult(entries[p]) && IsCall(entries[k])
    requires entries[p].callId == entries[k].callId && !CalledBefore(entries, entries[p].callId, p)
    ensures q < j < |entries| && ResultFor(entries, j) == Some(q)
  {
    var callId := entries[p].callId;
    q := FirstResult(entries, callId).value;
    assert CalledBefore(entries, callId, k + 1);
    j := FirstCall(entries, callId, k + 1);
    assert j >= p && j != p;
  }
}
