/**
  The session-level compaction state machine of moss/context/service.py.

  `Session` is the mutable object; every method is tied to a step of the pure machine
  `Apply`, and the theorems are about all runs of that machine.
*/
module Session {
  import opened History
  import opened Compaction

  /** `turns[n]` is the content of turns-<n>.jsonl, the raw entries behind the n-th summary. */
  datatype State = State(history: seq<Entry>, compactions: nat, turns: map<nat, seq<Entry>>)

  function OnlyPending(es: seq<Entry>): seq<Entry> {
    if |es| == 0 then []
    else OnlyPending(es[..|es| - 1]) + if es[|es| - 1].pending then [es[|es| - 1]] else []
  }

  function NonPending(es: seq<Entry>): seq<Entry> {
    if |es| == 0 then []
    else NonPending(es[..|es| - 1]) + if es[|es| - 1].pending then [] else [es[|es| - 1]]
  }

  function Settled(e: Entry): Entry {
    e.(pending := false)
  }

  function Summary(n: nat, text: string): Entry {
    Entry(System, false, "", text, false, Some(n))
  }

  function AfterCompact(s: State, text: string): State {
    var compactable := NonPending(s.history);
    var covered := Covered(compactable, KEEP_RECENT_STEPS);
    var n := s.compactions + 1;
    if forall e <- covered :: e.compaction.Some? then s
    else State([Summary(n, text)] + OnlyPending(s.history) + Remaining(compactable, KEEP_RECENT_STEPS),
               n, s.turns[n := covered])
  }

  function AfterClear(s: State): State {
    s.(history := seq(|s.history|, i requires 0 <= i < |s.history| => Settled(s.history[i])))
  }

  /** Without a pending mark left, everything is compactable. */
  lemma {:induction false} AllSettled(es: seq<Entry>)
    requires forall e <- es :: !e.pending
    ensures OnlyPending(es) == [] && NonPending(es) == es
    decreases |es|
  {
    if |es| > 0 {
      AllSettled(es[..|es| - 1]);
      assert es[|es| - 1] in es;
    }
  }

  class Session {
    var history: seq<Entry>
    var compactions: nat
    var turns: map<nat, seq<Entry>>

    function Now(): State
      reads this
    {
      State(history, compactions, turns)
    }

    constructor ()
      ensures Now() == Empty
    {
      history, compactions, turns := [], 0, map[];
    }

    method Record(item: Entry)
      modifies this`history
      ensures Now() == old(Now()).(history := old(history) + [item])
    {
      history := history + [item];
    }

    method ClearPendingHistory()
      modifies this`history
      ensures Now() == AfterClear(old(Now()))
      ensures |history| == |old(history)|
      ensures forall i :: 0 <= i < |history| ==>
                var e := old(history)[i];
                history[i] == Entry(e.role, e.native, e.callId, e.content, false, e.compaction)
      ensures OnlyPending(history) == [] && NonPending(history) == history
    {
      for i := 0 to |history|
        invariant |history| == |old(history)|
        invariant forall k :: 0 <= k < i ==> history[k] == Settled(old(history)[k])
        invariant forall k :: i <= k < |history| ==> history[k] == old(history)[k]
      {
        history := history[i := Settled(history[i])];
      }
      AllSettled(history);
    }

    /** The two lists compact_context works on. */
    method SplitPending() returns (pending: seq<Entry>, compactable: seq<Entry>)
      ensures pending == OnlyPending(history) && compactable == NonPending(history)
    {
      pending, compactable := [], [];
      for i := 0 to |history|
        invariant pending == OnlyPending(history[..i]) && compactable == NonPending(history[..i])
      {
        assert history[..i + 1][..i] == history[..i];
        if history[i].pending {
          pending := pending + [history[i]];
        } else {
          compactable := compactable + [history[i]];
        }
      }
      assert history[..|history|] == history;
    }

    /** `text` is the rendered summary; the two early returns of the source leave everything unchanged. */
    method CompactContext(text: string) returns (compacted: bool)
      modifies this
      ensures Now() == AfterCompact(old(Now()), text)
      ensures compacted <==> compactions == old(compactions) + 1
      ensures compacted ==> |history| > 0 && history[0] == Entry(System, false, "", text, false, Some(compactions))
      ensures !compacted ==> Now() == old(Now())
    {
      hide OnlyPending, NonPending, Covered, Remaining;
      var pending, compactable := SplitPending();
      var covered, remaining := Compact(compactable);
      CompactionIsClosed(compactable, KEEP_RECENT_STEPS);
      if covered.None? || forall e <- covered.value :: e.compaction.Some? {
        return false;
      }
      assert remaining == compactable[|covered.value|..] == Remaining(compactable, KEEP_RECENT_STEPS);
      turns := turns[compactions + 1 := covered.value];
      history := [Summary(compactions + 1, text)] + pending + remaining;
      compactions := compactions + 1;
      return true;
    }
  }

  const Empty := State([], 0, map[])

  // ---- Runs ----

  datatype Op =
    | RecordItem(role: Role, native: bool, callId: string, content: string, pending: bool)
    | CompactNow(text: string)
    | ClearPending

  /** A recorded item is never itself a summary. */
  function Item(op: Op): Entry
    requires op.RecordItem?
  {
    Entry(op.role, op.native, op.callId, op.content, op.pending, None)
  }

  function Apply(s: State, op: Op): State {
    match op
    case RecordItem(_, _, _, _, _) => s.(history := s.history + [Item(op)])
    case CompactNow(text) => AfterCompact(s, text)
    case ClearPending => AfterClear(s)
  }

  function Run(ops: seq<Op>): State {
    if |ops| == 0 then Empty else Apply(Run(ops[..|ops| - 1]), ops[|ops| - 1])
  }

  /** Everything a run ever recorded, pending marks aside. */
  function Recorded(ops: seq<Op>): multiset<Entry> {
    if |ops| == 0 then multiset{}
    else
      var op := ops[|ops| - 1];
      Recorded(ops[..|ops| - 1]) + if op.RecordItem? then multiset{Entry(op.role, op.native, op.callId, op.content, false, None)} else multiset{}
  }

  // ---- Expanding summaries ----

  ghost predicate Below(es: seq<Entry>, bound: nat) {
    forall e <- es :: e.compaction.Some? ==> e.compaction.value < bound
  }

  /** Summary `n` is backed by turns that mention older summaries only. */
  ghost predicate Backed(turns: map<nat, seq<Entry>>, bound: nat) {
    forall n :: n in turns && n < bound ==> Below(turns[n], n)
  }

  /** Replace every summary below `bound`, recursively, by the turns stored for it. */
  function Expand(turns: map<nat, seq<Entry>>, es: seq<Entry>, bound: nat): multiset<Entry>
    decreases bound, |es|
  {
    if |es| == 0 then multiset{}
    else
      var e := es[|es| - 1];
      Expand(turns, es[..|es| - 1], bound) +
      if e.compaction.Some? && e.compaction.value < bound && e.compaction.value in turns
      then Expand(turns, turns[e.compaction.value], e.compaction.value)
      else multiset{Settled(e)}
  }

  lemma ExpandUnfold(turns: map<nat, seq<Entry>>, es: seq<Entry>, e: Entry, bound: nat)
    ensures Expand(turns, es + [e], bound) == Expand(turns, es, bound) + Expand(turns, [e], bound)
  {
    assert (es + [e])[..|es|] == es && [e][..0] == [];
  }

  lemma ExpandNothing(turns: map<nat, seq<Entry>>, bound: nat)
    ensures Expand(turns, [], bound) == multiset{}
  {
  }

  lemma Regroup<T>(a: multiset<T>, b: multiset<T>, c: multiset<T>)
    ensures (a + b) + c == a + (b + c)
  {
  }

  lemma {:induction false} ExpandConcat(turns: map<nat, seq<Entry>>, xs: seq<Entry>, ys: seq<Entry>, bound: nat)
    ensures Expand(turns, xs + ys, bound) == Expand(turns, xs, bound) + Expand(turns, ys, bound)
    decreases |ys|
  {
    hide Expand;
    if |ys| == 0 {
      assert xs + ys == xs && ys == [];
      ExpandNothing(turns, bound);
    } else {
      var front, last := ys[..|ys| - 1], ys[|ys| - 1];
      ExpandConcat(turns, xs, front, bound);
      ExpandUnfold(turns, xs + front, last, bound);
      ExpandUnfold(turns, front, last, bound);
      assert front + [last] == ys && (xs + front) + [last] == xs + ys;
      Regroup(Expand(turns, xs, bound), Expand(turns, front, bound), Expand(turns, [last], bound));
    }
  }

  lemma {:induction false} ExpandSplit(turns: map<nat, seq<Entry>>, es: seq<Entry>, bound: nat)
    ensures Expand(turns, es, bound) == Expand(turns, OnlyPending(es), bound) + Expand(turns, NonPending(es), bound)
    decreases |es|
  {
    if |es| > 0 {
      var front, last := es[..|es| - 1], es[|es| - 1];
      FilterLast(es);
      hide Expand, OnlyPending, NonPending;
      ExpandSplit(turns, front, bound);
      assert front + [last] == es;
      ExpandUnfold(turns, front, last, bound);
      var pending, others, one := Expand(turns, OnlyPending(front), bound), Expand(turns, NonPending(front), bound),
                                  Expand(turns, [last], bound);
      Shuffle(pending, others, one);
      if last.pending {
        ExpandUnfold(turns, OnlyPending(front), last, bound);
      } else {
        ExpandUnfold(turns, NonPending(front), last, bound);
      }
    }
  }

  lemma Shuffle<T>(a: multiset<T>, b: multiset<T>, c: multiset<T>)
    ensures (a + b) + c == (a + c) + b == a + (b + c)
    ensures b + (a + c) == a + (b + c)
  {
  }

  lemma FilterLast(es: seq<Entry>)
    requires |es| > 0
    ensures var front, last := es[..|es| - 1], [es[|es| - 1]];
            if last[0].pending
            then OnlyPending(es) == OnlyPending(front) + last && NonPending(es) == NonPending(front)
            else OnlyPending(es) == OnlyPending(front) && NonPending(es) == NonPending(front) + last
  {
  }

  lemma {:induction false} ExpandSettled(turns: map<nat, seq<Entry>>, es: seq<Entry>, settled: seq<Entry>, bound: nat)
    requires |es| == |settled| && forall i :: 0 <= i < |es| ==> settled[i] == Settled(es[i])
    ensures Expand(turns, settled, bound) == Expand(turns, es, bound)
    decreases |es|
  {
    if |es| > 0 {
      ExpandSettled(turns, es[..|es| - 1], settled[..|es| - 1], bound);
    }
  }

  /** Storing a new turns file, under a number no old summary uses, changes no old expansion. */
  lemma {:induction false} ExpandStable(old_: map<nat, seq<Entry>>, n: nat, stored: seq<Entry>,
                                        es: seq<Entry>, bound: nat, bound': nat)
    requires Backed(old_, n) && Below(es, bound) && bound <= n && bound <= bound'
    ensures Expand(old_[n := stored], es, bound') == Expand(old_, es, bound)
    decreases bound, |es|
  {
    if |es| > 0 {
      var front, e := es[..|es| - 1], es[|es| - 1];
      assert Below(front, bound);
      ExpandStable(old_, n, stored, front, bound, bound');
      assert e in es;
      if e.compaction.Some? && e.compaction.value in old_ {
        var k := e.compaction.value;
        ExpandStable(old_, n, stored, old_[k], k, k);
      }
    }
  }

  /** Clearing the marks: nothing but the marks changes, and all of it becomes compactable. */
  lemma {:induction false} ClearedHistory(s: State)
    ensures var s' := Apply(s, ClearPending);
            && |s'.history| == |s.history| && s'.compactions == s.compactions && s'.turns == s.turns
            && (forall i :: 0 <= i < |s.history| ==>
                  var e := s.history[i];
                  s'.history[i] == Entry(e.role, e.native, e.callId, e.content, false, e.compaction))
            && OnlyPending(s'.history) == [] && NonPending(s'.history) == s'.history
  {
    AllSettled(Apply(s, ClearPending).history);
  }

  /**
    What a compaction leaves: unless everything it covers is a summary already, the covered
    entries are stored under the next number, and the history is the summary, the pending
    entries, and what the last three steps, and an incomplete one before them, hold.
  */
  lemma CompactedHistory(s: State, text: string)
    ensures var compactable, s' := NonPending(s.history), Apply(s, CompactNow(text));
            var covered, n := Covered(compactable, 3), s.compactions + 1;
            if forall e <- covered :: e.compaction.Some? then s' == s
            else && s'.compactions == n && s'.turns == s.turns[n := covered]
                 && |covered| <= |compactable|
                 && s'.history == [Entry(System, false, "", text, false, Some(n))] + OnlyPending(s.history) + compactable[|covered|..]
  {
    hide Covered, Remaining, OnlyPending, NonPending;
    CompactionIsClosed(NonPending(s.history), 3);
  }

  // ---- The invariant of every run ----

  ghost predicate Valid(s: State) {
    && Below(s.history, s.compactions + 1)
    && Backed(s.turns, s.compactions + 1)
    && (forall n :: n in s.turns <==> 1 <= n <= s.compactions)
  }

  function Contents(s: State): multiset<Entry> {
    Expand(s.turns, s.history, s.compactions + 1)
  }

  lemma {:induction false} FilterBelow(es: seq<Entry>, bound: nat)
    requires Below(es, bound)
    ensures Below(OnlyPending(es), bound) && Below(NonPending(es), bound)
    decreases |es|
  {
    if |es| > 0 {
      FilterBelow(es[..|es| - 1], bound);
      assert es[|es| - 1] in es;
    }
  }

  lemma {:induction false} CompactValid(s: State, text: string, pending: seq<Entry>, covered: seq<Entry>, remaining: seq<Entry>)
    requires Valid(s)
    requires pending == OnlyPending(s.history) && covered + remaining == NonPending(s.history)
    ensures var n := s.compactions + 1;
            Below(pending, n) && Below(covered, n) && Below(remaining, n)
            && Valid(State([Summary(n, text)] + (pending + remaining), n, s.turns[n := covered]))
  {
    var n := s.compactions + 1;
    FilterBelow(s.history, n);
    hide Below, OnlyPending, NonPending;
    BelowConcat(covered, remaining, n);
    BelowConcat(pending, remaining, n);
    BelowSummary(n, text, pending + remaining);
  }

  lemma {:induction false} CompactContents(turns: map<nat, seq<Entry>>, n: nat, text: string,
                                           pending: seq<Entry>, covered: seq<Entry>, remaining: seq<Entry>)
    requires Backed(turns, n) && Below(pending, n) && Below(covered, n) && Below(remaining, n)
    ensures Expand(turns[n := covered], [Summary(n, text)] + (pending + remaining), n + 1)
         == Expand(turns, pending, n) + Expand(turns, covered + remaining, n)
  {
    hide Expand, Backed, Below;
    BelowConcat(pending, remaining, n);
    ExpandStable(turns, n, covered, covered, n, n);
    ExpandStable(turns, n, covered, pending + remaining, n, n + 1);
    ExpandConcat(turns, covered, remaining, n);
    ExpandConcat(turns, pending, remaining, n);
    ExpandConcat(turns[n := covered], [Summary(n, text)], pending + remaining, n + 1);
    ExpandOne(turns[n := covered], Summary(n, text), n + 1);
    Shuffle(Expand(turns, pending, n), Expand(turns, covered, n), Expand(turns, remaining, n));
  }

  lemma BelowSummary(n: nat, text: string, tail: seq<Entry>)
    requires Below(tail, n)
    ensures Below([Summary(n, text)] + tail, n + 1)
  {
  }

  lemma {:induction false} CompactKeepsContents(s: State, text: string)
    requires Valid(s)
    ensures Valid(AfterCompact(s, text)) && Contents(AfterCompact(s, text)) == Contents(s)
  {
    var s', n, pending, compactable := AfterCompact(s, text), s.compactions + 1, OnlyPending(s.history), NonPending(s.history);
    hide Covered, Remaining, OnlyPending, NonPending, Expand;
    var covered, remaining := Covered(compactable, KEEP_RECENT_STEPS), Remaining(compactable, KEEP_RECENT_STEPS);
    if s' != s {
      CompactionIsClosed(compactable, KEEP_RECENT_STEPS);
      CompactValid(s, text, pending, covered, remaining);
      ExpandSplit(s.turns, s.history, n);
      CompactContents(s.turns, n, text, pending, covered, remaining);
      assert s' == State([Summary(n, text)] + (pending + remaining), n, s.turns[n := covered]);
    }
  }

  lemma BelowConcat(xs: seq<Entry>, ys: seq<Entry>, bound: nat)
    ensures Below(xs + ys, bound) <==> Below(xs, bound) && Below(ys, bound)
  {
    assert (forall e <- xs :: e in xs + ys) && forall e <- ys :: e in xs + ys;
  }

  lemma ExpandOne(turns: map<nat, seq<Entry>>, e: Entry, bound: nat)
    requires e.compaction.Some? && e.compaction.value < bound && e.compaction.value in turns
    ensures Expand(turns, [e], bound) == Expand(turns, turns[e.compaction.value], e.compaction.value)
  {
    assert [e][..0] == [];
  }

  lemma ExpandPlain(turns: map<nat, seq<Entry>>, e: Entry, bound: nat)
    requires e.compaction.None?
    ensures Expand(turns, [e], bound) == multiset{Settled(e)}
  {
    assert [e][..0] == [];
  }

  lemma {:induction false} StepKeepsContents(s: State, op: Op)
    requires Valid(s)
    ensures Valid(Apply(s, op))
    ensures Contents(Apply(s, op))
         == Contents(s) + if op.RecordItem? then multiset{Entry(op.role, op.native, op.callId, op.content, false, None)} else multiset{}
  {
    hide Expand, AfterCompact;
    match op
    case RecordItem(_, _, _, _, _) =>
      BelowConcat(s.history, [Item(op)], s.compactions + 1);
      ExpandConcat(s.turns, s.history, [Item(op)], s.compactions + 1);
      ExpandPlain(s.turns, Item(op), s.compactions + 1);
    case CompactNow(text) =>
      CompactKeepsContents(s, text);
    case ClearPending =>
      var s' := AfterClear(s);
      ExpandSettled(s.turns, s.history, s'.history, s.compactions + 1);
      assert forall i :: 0 <= i < |s.history| ==> s.history[i] in s.history;
  }

  /**
    Nothing is lost over a whole session: expanding every summary by the turns stored
    for it gives back, as a multiset, every entry ever recorded.
  */
  lemma {:induction false} NothingLost(ops: seq<Op>)
    ensures Valid(Run(ops)) && Contents(Run(ops)) == Recorded(ops)
    decreases |ops|
  {
    if |ops| > 0 {
      NothingLost(ops[..|ops| - 1]);
      StepKeepsContents(Run(ops[..|ops| - 1]), ops[|ops| - 1]);
    }
  }

  // ---- A second compaction with nothing new does nothing ----

  lemma {:induction false} FilterSummary(summary: Entry, es: seq<Entry>)
    requires !summary.pending
    ensures NonPending([summary] + es) == [summary] + NonPending(es)
    decreases |es|
  {
    if |es| == 0 {
      assert [summary] + es == [summary] && [summary][..0] == [];
    } else {
      FilterSummary(summary, es[..|es| - 1]);
      assert ([summary] + es)[..|es|] == [summary] + es[..|es| - 1];
    }
  }

  lemma {:induction false} FilterPure(pending: seq<Entry>, rest: seq<Entry>)
    requires (forall e <- pending :: e.pending) && (forall e <- rest :: !e.pending)
    ensures NonPending(pending + rest) == rest
    decreases |pending| + |rest|
  {
    hide Covered, Remaining;
    var es := pending + rest;
    if |rest| > 0 {
      FilterPure(pending, rest[..|rest| - 1]);
      assert es[..|es| - 1] == pending + rest[..|rest| - 1];
      assert rest[|rest| - 1] in rest;
    } else if |pending| > 0 {
      FilterPure(pending[..|pending| - 1], rest);
      assert es[..|es| - 1] == pending[..|pending| - 1] + rest;
      assert pending[|pending| - 1] in pending;
    }
  }

  lemma {:induction false} FilterSound(es: seq<Entry>)
    ensures (forall e <- OnlyPending(es) :: e.pending) && (forall e <- NonPending(es) :: !e.pending)
    decreases |es|
  {
    if |es| > 0 {
      FilterSound(es[..|es| - 1]);
    }
  }

  /** What a compaction that does something leaves to the next one. */
  lemma {:induction false} AfterFirst(s: State, text: string)
    requires AfterCompact(s, text) != s
    ensures var compactable := NonPending(s.history);
            && Covered(compactable, KEEP_RECENT_STEPS) != []
            && NonPending(AfterCompact(s, text).history)
               == [Summary(s.compactions + 1, text)] + Remaining(compactable, KEEP_RECENT_STEPS)
  {
    hide Covered, Remaining, OnlyPending, NonPending;
    var pending, compactable := OnlyPending(s.history), NonPending(s.history);
    var remaining := Remaining(compactable, KEEP_RECENT_STEPS);
    FilterSound(s.history);
    CompactionIsClosed(compactable, KEEP_RECENT_STEPS);
    RemainingNotPending(Covered(compactable, KEEP_RECENT_STEPS), remaining);
    FilterPure(pending, remaining);
    FilterSummary(Summary(s.compactions + 1, text), pending + remaining);
    assert AfterCompact(s, text).history == [Summary(s.compactions + 1, text)] + (pending + remaining);
  }

  lemma RemainingNotPending(covered: seq<Entry>, remaining: seq<Entry>)
    requires forall e <- covered + remaining :: !e.pending
    ensures forall e <- remaining :: !e.pending
  {
    assert forall e <- remaining :: e in covered + remaining;
  }

  /** Right after a compaction, another one creates no artifact and changes nothing. */
  lemma {:induction false} SecondCompactIsNoOp(s: State, first: string, second: string)
    ensures var s' := AfterCompact(s, first);
            AfterCompact(s', second) == s'
  {
    hide AfterCompact, NonPending, Covered, Remaining;
    var s' := AfterCompact(s, first);
    if s' == s {
      SameForAnyText(s, first, second);
    } else {
      var summary := Summary(s.compactions + 1, first);
      AfterFirst(s, first);
      CompactionIsIdempotent(NonPending(s.history), KEEP_RECENT_STEPS, summary);
      CoveringSummaryIsNoOp(s', summary, second);
    }
  }

  /** Whether there is anything to compact does not depend on how the summary will read. */
  lemma SameForAnyText(s: State, first: string, second: string)
    requires AfterCompact(s, first) == s
    ensures AfterCompact(s, second) == s
  {
    hide Covered, Remaining, OnlyPending, NonPending;
  }

  /** The second early return: everything covered is a summary already. */
  lemma CoveringSummaryIsNoOp(s: State, summary: Entry, text: string)
    requires Covered(NonPending(s.history), KEEP_RECENT_STEPS) == [summary] && summary.compaction.Some?
    ensures AfterCompact(s, text) == s
  {
    hide Covered, Remaining, OnlyPending, NonPending;
  }
}
