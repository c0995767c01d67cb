/**
  Segmenting a history into causal units and cutting it (moss/context/compaction.py).

  `Canonical` is a reference definition of a correct segmentation; the loop of
  execution_steps computes the one canonical segmentation of its input.
*/
module Compaction {
  import opened History

  const KEEP_RECENT_STEPS: nat := 3

  predicate IsCall(e: Entry) {
    e.role == Assistant && e.native
  }

  // ---- The segmentation loop ----

  datatype Segmenting = Segmenting(steps: seq<Step>, pending: Step)

  function Feed(s: Segmenting, item: Entry): Segmenting {
    if IsCall(item) then s.(pending := s.pending + [item])
    else if item.role == Tool then Segmenting(s.steps + [s.pending + [item]], [])
    else if item.role == System && |s.steps| > 0 && |s.pending| == 0 then
      var last := |s.steps| - 1;
      s.(steps := s.steps[..last] + [s.steps[last] + [item]])
    else if |s.pending| > 0 then Segmenting(s.steps + [s.pending] + [[item]], [])
    else s.(steps := s.steps + [[item]])
  }

  function Segment(history: seq<Entry>): Segmenting {
    if |history| == 0 then Segmenting([], [])
    else Feed(Segment(history[..|history| - 1]), history[|history| - 1])
  }

  function Steps(history: seq<Entry>): seq<Step> {
    var s := Segment(history);
    if |s.pending| > 0 then s.steps + [s.pending] else s.steps
  }

  method ExecutionSteps(history: seq<Entry>) returns (steps: seq<Step>)
    ensures steps == Steps(history)
    ensures Canonical(steps) && Flatten(steps) == history
  {
    steps := [];
    var pending: Step := [];
    for index := 0 to |history|
      invariant Segmenting(steps, pending) == Segment(history[..index])
    {
      var item := history[index];
      assert history[..index + 1][..index] == history[..index];
      if item.role == Assistant && item.native {
        pending := pending + [item];
        continue;
      }
      if item.role == Tool {
        steps := steps + [pending + [item]];
        pending := [];
        continue;
      }
      if item.role == System && |steps| > 0 && |pending| == 0 {
        steps := steps[..|steps| - 1] + [steps[|steps| - 1] + [item]];
        continue;
      }
      if |pending| > 0 {
        steps := steps + [pending];
        pending := [];
      }
      steps := steps + [[item]];
    }
    assert history[..|history|] == history;
    if |pending| > 0 {
      steps := steps + [pending];
    }
    StepsAreCanonical(history);
  }

  // ---- What a correct segmentation is ----

  predicate AllSystem(s: Step) {
    forall e <- s :: e.role == System
  }

  /** Calls that never got a result. */
  predicate Open(s: Step) {
    |s| > 0 && forall e <- s :: IsCall(e)
  }

  /** Calls, the result they led to (at position `k`), then the notices it triggered. */
  predicate ToolStepAt(s: Step, k: nat) {
    k < |s| && s[k].role == Tool && (forall e <- s[..k] :: IsCall(e)) && AllSystem(s[k + 1..])
  }

  /** Any other entry, then the notices it triggered. */
  predicate Other(s: Step) {
    |s| > 0 && !IsCall(s[0]) && s[0].role != Tool && AllSystem(s[1..])
  }

  ghost predicate Unit(s: Step) {
    Open(s) || Other(s) || exists k: nat :: ToolStepAt(s, k)
  }

  /** What may follow what: an open step ends only at a plain entry, a closed one absorbs notices. */
  predicate Follows(s: Step, t: Step)
    requires |s| > 0 && |t| > 0
  {
    if Open(s) then Other(t) else t[0].role != System
  }

  ghost predicate Canonical(steps: seq<Step>) {
    && (forall k :: 0 <= k < |steps| ==> Unit(steps[k]))
    && (forall k :: 0 <= k < |steps| - 1 ==> Follows(steps[k], steps[k + 1]))
  }

  // ---- The loop yields a canonical segmentation of exactly its input ----

  ghost predicate Sound(s: Segmenting, history: seq<Entry>) {
    && Canonical(s.steps)
    && (|s.steps| > 0 ==> !Open(s.steps[|s.steps| - 1]))
    && (forall e <- s.pending :: IsCall(e))
    && Flatten(s.steps) + s.pending == history
  }

  lemma {:induction false} PushStep(steps: seq<Step>, t: Step)
    requires Canonical(steps) && Unit(t)
    requires |steps| > 0 ==> Follows(steps[|steps| - 1], t)
    ensures Canonical(steps + [t]) && Flatten(steps + [t]) == Flatten(steps) + t
  {
    assert (steps + [t])[..|steps|] == steps;
  }

  lemma {:induction false} AbsorbNotice(steps: seq<Step>, item: Entry)
    requires Canonical(steps) && |steps| > 0 && !Open(steps[|steps| - 1])
    requires item.role == System
    ensures var last := |steps| - 1;
            var grown := steps[..last] + [steps[last] + [item]];
            Canonical(grown) && !Open(grown[last]) && Flatten(grown) == Flatten(steps) + [item]
  {
    var last := |steps| - 1;
    var s, t := steps[last], steps[last] + [item];
    if Other(s) {
      assert t[1..] == s[1..] + [item];
    } else {
      var k: nat :| ToolStepAt(s, k);
      assert t[..k] == s[..k] && t[k + 1..] == s[k + 1..] + [item];
      assert ToolStepAt(t, k);
    }
    assert t[0] == s[0];
    assert steps[..last] + [s] == steps;
    FlattenAppend(steps[..last], [s]);
    PushStep(steps[..last], t);
  }

  lemma {:induction false} FeedPlain(s: Segmenting, history: seq<Entry>, item: Entry)
    requires Sound(s, history) && !IsCall(item) && item.role != Tool
    requires item.role == System ==> |s.steps| == 0 || |s.pending| > 0
    ensures Sound(Feed(s, item), history + [item])
  {
    hide Canonical, Flatten;
    assert Other([item]) && !Open([item]);
    if |s.pending| > 0 {
      assert s.pending[0] in s.pending;
      PushStep(s.steps, s.pending);
      PushStep(s.steps + [s.pending], [item]);
    } else {
      PushStep(s.steps, [item]);
    }
  }

  lemma {:induction false} FeedResult(s: Segmenting, history: seq<Entry>, item: Entry)
    requires Sound(s, history) && item.role == Tool
    ensures Sound(Feed(s, item), history + [item])
  {
    hide Canonical, Flatten;
    var t := s.pending + [item];
    assert t[..|s.pending|] == s.pending && t[|s.pending| + 1..] == [];
    assert ToolStepAt(t, |s.pending|);
    assert item in t;
    if |s.pending| > 0 {
      assert s.pending[0] in s.pending;
    }
    PushStep(s.steps, t);
  }

  lemma {:induction false} FeedSound(s: Segmenting, history: seq<Entry>, item: Entry)
    requires Sound(s, history)
    ensures Sound(Feed(s, item), history + [item])
  {
    hide Canonical, Flatten, Open;
    if IsCall(item) {
    } else if item.role == Tool {
      FeedResult(s, history, item);
    } else if item.role == System && |s.steps| > 0 && |s.pending| == 0 {
      AbsorbNotice(s.steps, item);
      assert s.pending == [];
    } else {
      FeedPlain(s, history, item);
    }
  }

  lemma {:induction false} SegmentSound(history: seq<Entry>)
    ensures Sound(Segment(history), history)
    decreases |history|
  {
    if |history| > 0 {
      var front := history[..|history| - 1];
      SegmentSound(front);
      FeedSound(Segment(front), front, history[|history| - 1]);
      assert front + [history[|history| - 1]] == history;
    }
  }

  /** Nothing is dropped, duplicated or reordered, and every step is a causal unit. */
  lemma {:induction false} StepsAreCanonical(history: seq<Entry>)
    ensures Canonical(Steps(history)) && Flatten(Steps(history)) == history
  {
    SegmentSound(history);
    var s := Segment(history);
    if |s.pending| > 0 {
      assert s.pending[0] in s.pending;
      PushStep(s.steps, s.pending);
    }
  }

  // ---- ... and it is the only one ----

  lemma {:induction false} FeedOne(history: seq<Entry>, item: Entry)
    ensures Segment(history + [item]) == Feed(Segment(history), item)
  {
    assert (history + [item])[..|history|] == history;
  }

  lemma {:induction false} FeedCalls(history: seq<Entry>, calls: Step)
    requires forall e <- calls :: IsCall(e)
    ensures Segment(history + calls) == Segment(history).(pending := Segment(history).pending + calls)
    decreases |calls|
  {
    hide Segment;
    if |calls| == 0 {
      assert history + calls == history;
    } else {
      var front, e := calls[..|calls| - 1], calls[|calls| - 1];
      assert e in calls && front + [e] == calls;
      FeedCalls(history, front);
      FeedOne(history + front, e);
      assert history + calls == history + front + [e];
    }
  }

  lemma {:induction false} FeedNotices(history: seq<Entry>, front: seq<Step>, last: Step, notices: Step)
    requires AllSystem(notices) && Segment(history) == Segmenting(front + [last], [])
    ensures Segment(history + notices) == Segmenting(front + [last + notices], [])
    decreases |notices|
  {
    hide Segment;
    if |notices| == 0 {
      assert history + notices == history && last + notices == last;
    } else {
      var init, e := notices[..|notices| - 1], notices[|notices| - 1];
      assert e in notices && init + [e] == notices;
      FeedNotices(history, front, last, init);
      FeedOne(history + init, e);
      assert history + notices == history + init + [e];
      assert (front + [last + init])[..|front|] == front;
      assert last + notices == last + init + [e];
    }
  }

  /** The state of the loop after consuming the steps of a canonical segmentation. */
  function After(steps: seq<Step>): Segmenting {
    if |steps| > 0 && Open(steps[|steps| - 1])
    then Segmenting(steps[..|steps| - 1], steps[|steps| - 1])
    else Segmenting(steps, [])
  }

  lemma {:induction false} FeedOtherStep(steps: seq<Step>, history: seq<Entry>, t: Step)
    requires Segment(history) == After(steps) && Other(t)
    requires |steps| > 0 ==> |steps[|steps| - 1]| > 0 && Follows(steps[|steps| - 1], t)
    ensures Segment(history + t) == Segmenting(steps + [t], [])
  {
    hide Segment, AllSystem;
    FeedOne(history, t[0]);
    assert Segment(history + [t[0]]) == Segmenting(steps + [[t[0]]], []) by {
      if |steps| > 0 {
        assert steps[..|steps| - 1] + [steps[|steps| - 1]] == steps;
      }
    }
    FeedNotices(history + [t[0]], steps, [t[0]], t[1..]);
    assert history + [t[0]] + t[1..] == history + t;
    assert [t[0]] + t[1..] == t;
  }

  lemma {:induction false} FeedToolStep(steps: seq<Step>, history: seq<Entry>, t: Step, k: nat)
    requires Segment(history) == Segmenting(steps, []) && ToolStepAt(t, k)
    ensures Segment(history + t) == Segmenting(steps + [t], [])
  {
    hide Segment, AllSystem;
    FeedCalls(history, t[..k]);
    FeedOne(history + t[..k], t[k]);
    var h := history + t[..k] + [t[k]];
    assert [] + t[..k] == t[..k];
    FeedNotices(h, steps, t[..k] + [t[k]], t[k + 1..]);
    assert t[..k] + [t[k]] + t[k + 1..] == t;
    assert h + t[k + 1..] == history + t;
  }

  lemma {:induction false} FeedStep(steps: seq<Step>, history: seq<Entry>, t: Step)
    requires Segment(history) == After(steps) && Unit(t)
    requires |steps| > 0 ==> |steps[|steps| - 1]| > 0 && Follows(steps[|steps| - 1], t)
    ensures Segment(history + t) == After(steps + [t])
  {
    hide Segment, AllSystem;
    assert (steps + [t])[..|steps|] == steps;
    assert t[0] in t;
    if Other(t) {
      FeedOtherStep(steps, history, t);
    } else if Open(t) {
      FeedCalls(history, t);
      assert [] + t == t;
    } else {
      var k: nat :| ToolStepAt(t, k);
      assert t[k] in t;
      if k > 0 { assert t[0] in t[..k]; }
      FeedToolStep(steps, history, t, k);
    }
  }

  lemma EmptySegment()
    ensures Segment([]) == After([])
  {
  }

  lemma {:induction false} SegmentOfCanonical(steps: seq<Step>)
    requires Canonical(steps)
    ensures Segment(Flatten(steps)) == After(steps)
    decreases |steps|
  {
    hide Segment, After;
    if |steps| == 0 {
      EmptySegment();
    } else {
      var front := steps[..|steps| - 1];
      SegmentOfCanonical(front);
      if |front| > 0 {
        assert Unit(front[|front| - 1]) && Follows(steps[|front| - 1], steps[|front|]);
      }
      FeedStep(front, Flatten(front), steps[|steps| - 1]);
      assert front + [steps[|steps| - 1]] == steps;
    }
  }

  /** Main result on segmentation: canonical segmentations are determined by their entries. */
  lemma {:induction false} SegmentationIsUnique(steps: seq<Step>)
    requires Canonical(steps)
    ensures Steps(Flatten(steps)) == steps
  {
    SegmentOfCanonical(steps);
    if |steps| > 0 {
      assert steps[..|steps| - 1] + [steps[|steps| - 1]] == steps;
      assert Unit(steps[|steps| - 1]);
    }
  }

  // ---- The stable cut ----

  /** step_is_complete: a step with calls must hold a tool entry. */
  predicate Complete(s: Step) {
    (forall e <- s :: !e.native) || exists e <- s :: e.role == Tool
  }

  function RetreatFrom(steps: seq<Step>, cut: nat): (c: nat)
    requires cut <= |steps|
    ensures c <= cut && (c > 0 ==> Complete(steps[c - 1]))
    ensures forall k :: c <= k < cut ==> !Complete(steps[k])
  {
    if cut > 0 && !Complete(steps[cut - 1]) then RetreatFrom(steps, cut - 1) else cut
  }

  function Cut(steps: seq<Step>, keepRecent: nat): (c: nat)
    ensures c <= |steps|
  {
    RetreatFrom(steps, if |steps| <= keepRecent then 0 else |steps| - keepRecent)
  }

  method CompactableSteps(steps: seq<Step>, keepRecent: nat) returns (compacted: seq<Step>, kept: seq<Step>)
    ensures compacted == steps[..Cut(steps, keepRecent)] && kept == steps[Cut(steps, keepRecent)..]
    ensures |kept| >= keepRecent || compacted == []
    ensures compacted != [] ==> Complete(compacted[|compacted| - 1])
  {
    var cut: nat := if |steps| <= keepRecent then 0 else |steps| - keepRecent;
    while cut > 0 && !Complete(steps[cut - 1])
      invariant cut <= |steps| && cut + keepRecent <= Maximum(|steps|, keepRecent)
      invariant Cut(steps, keepRecent) == RetreatFrom(steps, cut)
    {
      cut := cut - 1;
    }
    return steps[..cut], steps[cut..];
  }

  function Maximum(x: nat, y: nat): nat {
    if x <= y then y else x
  }

  /** What compact covers, and what it hands back as remaining history. */
  function Covered(history: seq<Entry>, keepRecent: nat): seq<Entry> {
    var steps := Steps(history);
    Flatten(steps[..Cut(steps, keepRecent)])
  }

  function Remaining(history: seq<Entry>, keepRecent: nat): seq<Entry> {
    var steps := Steps(history);
    Flatten(steps[Cut(steps, keepRecent)..])
  }

  /** compact, without the prose of the artifact: `None` when there is nothing to cover. */
  method Compact(history: seq<Entry>, keepRecent: nat := KEEP_RECENT_STEPS)
    returns (covered: Option<seq<Entry>>, remaining: seq<Entry>)
    ensures covered.Some? <==> Covered(history, keepRecent) != []
    ensures covered.Some? ==> covered.value == Covered(history, keepRecent) && covered.value + remaining == history
    ensures covered.None? ==> remaining == history
  {
    var steps := ExecutionSteps(history);
    var compacted, kept := CompactableSteps(steps, keepRecent);
    CompactionIsClosed(history, keepRecent);
    if Flatten(compacted) == [] {
      return None, history;
    }
    return Some(Flatten(compacted)), Flatten(kept);
  }

  /** Covered followed by remaining is the history, in order. */
  lemma {:induction false} CompactionIsClosed(history: seq<Entry>, keepRecent: nat)
    ensures Covered(history, keepRecent) + Remaining(history, keepRecent) == history
  {
    hide Steps, Canonical;
    var steps := Steps(history);
    var cut := Cut(steps, keepRecent);
    StepsAreCanonical(history);
    FlattenAppend(steps[..cut], steps[cut..]);
    assert steps[..cut] + steps[cut..] == steps;
  }

  // ---- Compaction is idempotent ----

  lemma {:induction false} ClosedUnits(s: Step)
    requires Complete(s) && |s| > 0
    ensures !Open(s)
  {
    assert s[0] in s;
  }

  /** A cut after a complete step leaves a canonical rest that a summary does not disturb. */
  lemma {:induction false} KeptSurvivesSummary(steps: seq<Step>, cut: nat, summary: Entry)
    requires Canonical(steps) && 0 < cut <= |steps| && Complete(steps[cut - 1])
    requires summary.role == System && !summary.native
    ensures Canonical([[summary]] + steps[cut..])
  {
    var after := [[summary]] + steps[cut..];
    assert Other([summary]) && !Open([summary]);
    assert Unit(steps[cut - 1]);
    ClosedUnits(steps[cut - 1]);
    forall k | 0 <= k < |after|
      ensures Unit(after[k])
    {
      assert k > 0 ==> after[k] == steps[cut + k - 1];
    }
    forall k | 0 <= k < |after| - 1
      ensures Follows(after[k], after[k + 1])
    {
      assert after[k + 1] == steps[cut + k];
      assert k > 0 ==> after[k] == steps[cut + k - 1];
      assert Follows(steps[cut + k - 1], steps[cut + k]);
    }
  }

  /** The second cut falls exactly after the summary. */
  lemma {:induction false} SecondCut(steps: seq<Step>, keepRecent: nat, summary: Entry)
    requires Cut(steps, keepRecent) > 0
    requires !summary.native
    ensures Cut([[summary]] + steps[Cut(steps, keepRecent)..], keepRecent) == 1
  {
    var cut := Cut(steps, keepRecent);
    var after := [[summary]] + steps[cut..];
    assert forall k :: 1 <= k < |after| ==> after[k] == steps[cut + k - 1];
    RetreatIs(after, |after| - keepRecent, 1);
  }

  /** The cut is characterised by its two properties. */
  lemma {:induction false} RetreatIs(steps: seq<Step>, start: nat, c: nat)
    requires c <= start <= |steps| && (c > 0 ==> Complete(steps[c - 1]))
    requires forall k :: c <= k < start ==> !Complete(steps[k])
    ensures RetreatFrom(steps, start) == c
    decreases start
  {
    if c < start {
      RetreatIs(steps, start - 1, c);
    }
  }

  /**
    Idempotence.  Once the summary stands for the covered entries, segmenting again
    gives the summary on its own followed by the very same kept steps, so another
    round covers the summary and nothing else.
  */
  lemma {:induction false} CompactionIsIdempotent(history: seq<Entry>, keepRecent: nat, summary: Entry)
    requires Covered(history, keepRecent) != []
    requires summary.role == System && !summary.native
    ensures var steps := Steps(history);
            Steps([summary] + Remaining(history, keepRecent)) == [[summary]] + steps[Cut(steps, keepRecent)..]
    ensures Covered([summary] + Remaining(history, keepRecent), keepRecent) == [summary]
    ensures Remaining([summary] + Remaining(history, keepRecent), keepRecent) == Remaining(history, keepRecent)
  {
    hide Steps, Canonical, Cut;
    var steps := Steps(history);
    var cut := Cut(steps, keepRecent);
    StepsAreCanonical(history);
    CutIsComplete(steps, keepRecent);
    assert cut > 0;
    KeptSurvivesSummary(steps, cut, summary);
    var after := [[summary]] + steps[cut..];
    SegmentationIsUnique(after);
    FlattenAppend([[summary]], steps[cut..]);
    assert Flatten([[summary]]) == [summary] by {
      assert [[summary]][..0] == [];
    }
    SecondCut(steps, keepRecent, summary);
    assert after[..1] == [[summary]] && after[1..] == steps[cut..];
  }

  lemma CutIsComplete(steps: seq<Step>, keepRecent: nat)
    ensures var c := Cut(steps, keepRecent); c > 0 ==> Complete(steps[c - 1])
  {
  }

  // ---- When compaction separates a call from its result ----

  /** The cut leaves call `callId` among the covered entries and its result among the kept ones. */
  ghost predicate Separates(steps: seq<Step>, cut: nat)
    requires cut <= |steps|
  {
    exists s, t :: 0 <= s < cut <= t < |steps| && ResultElsewhere(steps[s], steps[t])
  }

  /** Step `t` holds a result for a call that sits in step `s`. */
  ghost predicate ResultElsewhere(s: Step, t: Step) {
    exists c, r :: c in s && r in t && c.native && c.callId != "" && r.role == Tool && r.callId == c.callId
  }

  lemma {:induction false} EveryCompleteCutIsReachable(steps: seq<Step>, cut: nat)
    requires 0 < cut <= |steps| && Complete(steps[cut - 1])
    ensures Cut(steps, |steps| - cut) == cut
  {
  }

  /** Some complete step lies between a call's step (inclusive) and a later step holding its result. */
  ghost predicate Separable(steps: seq<Step>) {
    exists s, c, t :: 0 <= s <= c < t < |steps| && ResultElsewhere(steps[s], steps[t]) && Complete(steps[c])
  }

  lemma {:induction false} SeparableSteps(steps: seq<Step>)
    requires Separable(steps)
    ensures exists keepRecent: nat :: Separates(steps, Cut(steps, keepRecent))
  {
    hide Cut, ResultElsewhere, Complete;
    var s, c, t :| 0 <= s <= c < t < |steps| && ResultElsewhere(steps[s], steps[t]) && Complete(steps[c]);
    EveryCompleteCutIsReachable(steps, c + 1);
    assert Separates(steps, c + 1);
  }

  lemma {:induction false} SeparatedByCut(steps: seq<Step>, keepRecent: nat)
    requires Separates(steps, Cut(steps, keepRecent))
    ensures Separable(steps)
  {
    hide Cut, ResultElsewhere, Complete;
    var cut := Cut(steps, keepRecent);
    var s, t :| 0 <= s < cut <= t < |steps| && ResultElsewhere(steps[s], steps[t]);
    CutIsComplete(steps, keepRecent);
  }

  /**
    The documented rule that a call and its result stay on one side of the cut holds,
    for every keepRecent, exactly when the segmentation is not separable.
  */
  lemma {:induction false} CallsStayWithResultsIff(history: seq<Entry>)
    ensures (forall keepRecent: nat :: !Separates(Steps(history), Cut(Steps(history), keepRecent)))
            <==> !Separable(Steps(history))
  {
    hide Steps, Cut, Separates, Separable;
    var steps := Steps(history);
    if Separable(steps) {
      SeparableSteps(steps);
    } else {
      forall keepRecent: nat
        ensures !Separates(steps, Cut(steps, keepRecent))
      {
        if Separates(steps, Cut(steps, keepRecent)) {
          SeparatedByCut(steps, keepRecent);
        }
      }
    }
  }

  const CallA := Entry(Assistant, true, "a", "")
  const CallB := Entry(Assistant, true, "b", "")
  const ResultA := Entry(Tool, false, "a", "")
  const ResultB := Entry(Tool, false, "b", "")

  const Batch := [CallA, CallB, ResultA, ResultB]
  const BatchSteps := [[CallA, CallB, ResultA], [ResultB]]

  /** Every result after the first of a batch is a step of its own. */
  lemma {:induction false} BatchSegments()
    ensures Steps(Batch) == BatchSteps
  {
    hide Steps, Flatten;
    var first := [CallA, CallB, ResultA];
    assert ToolStepAt(first, 2) && ToolStepAt([ResultB], 0);
    assert ResultA in first && !Open(first);
    assert Canonical(BatchSteps);
    hide Canonical, Open;
    BatchParts(first, [ResultB]);
    assert BatchSteps == [first, [ResultB]] && BatchSteps[..1] + BatchSteps[1..] == BatchSteps;
    FlattenAppend(BatchSteps[..1], BatchSteps[1..]);
    assert Flatten(BatchSteps) == Batch;
    SegmentationIsUnique(BatchSteps);
  }

  /** A batch of two native calls does break the rule: result "b" is kept while call "b" is covered. */
  lemma {:induction false} BatchOfTwoIsSeparated()
    ensures Covered(Batch, 1) == [CallA, CallB, ResultA]
    ensures Remaining(Batch, 1) == [ResultB]
    ensures Separable(Steps(Batch))
  {
    hide Steps, Cut, Flatten, Open, Canonical;
    BatchSegments();
    var first, second := [CallA, CallB, ResultA], [ResultB];
    assert Complete(first) by { assert ResultA in first; }
    BatchParts(first, second);
    EveryCompleteCutIsReachable(BatchSteps, 1);
    assert CallB in first && ResultB in second && ResultElsewhere(BatchSteps[0], BatchSteps[1]);
  }

  lemma BatchParts(first: Step, second: Step)
    ensures Flatten([first, second][..1]) == first && Flatten([first, second][1..]) == second
  {
    assert [first, second][..1] == [first] && [first, second][1..] == [second];
    assert [first][..0] == [] && [second][..0] == [];
  }
}
