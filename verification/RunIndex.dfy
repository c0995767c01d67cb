/**
  The run index: an append-only log of partial updates, folded by run id, rewritten once it
  has grown past three lines per run, and the retention rule read off it (moss/runs/index.py).

  A line is one parsed JSON record; numbers stand as their text.
*/
module RunIndex {
  import opened Collections
  import opened History
  import opened TextSort

  const COMPACTION_FACTOR := 3

  datatype Field = StartedAt | Status | StopReason | TaskSummary | CostUsd | Pinned

  datatype Value = Text(text: string) | Flag(on: bool) | Null

  type Fields = map<Field, Value>

  datatype Line = Line(runId: string, fields: Fields)

  /** str(entry.get("started_at", "")). */
  function StartedKey(line: Line): string {
    if StartedAt !in line.fields then ""
    else match line.fields[StartedAt]
      case Text(text) => text
      case Flag(on) => if on then "True" else "False"
      case Null => "None"
  }

  /** bool(entry.get("pinned")). */
  predicate IsPinned(line: Line) {
    Pinned in line.fields &&
    match line.fields[Pinned]
    case Text(text) => text != ""
    case Flag(on) => on
    case Null => false
  }

  // ---- What the log means: the fields last written for each run ----

  function Apply(runs: map<string, Fields>, line: Line): map<string, Fields> {
    if line.runId == "" then runs
    else runs[line.runId := (if line.runId in runs then runs[line.runId] else map[]) + line.fields]
  }

  function AsMap(log: seq<Line>): map<string, Fields> {
    if |log| == 0 then map[] else Apply(AsMap(log[..|log| - 1]), log[|log| - 1])
  }

  /** The value of the last line of a run that sets the field. */
  function Latest(log: seq<Line>, runId: string, field: Field): Option<Value> {
    if |log| == 0 then None
    else if log[|log| - 1].runId == runId && field in log[|log| - 1].fields then Some(log[|log| - 1].fields[field])
    else Latest(log[..|log| - 1], runId, field)
  }

  ghost predicate Mentions(log: seq<Line>, runId: string) {
    exists i :: 0 <= i < |log| && log[i].runId == runId
  }

  lemma MentionsExtend(log: seq<Line>, runId: string)
    requires |log| > 0
    ensures Mentions(log, runId) <==> log[|log| - 1].runId == runId || Mentions(log[..|log| - 1], runId)
  {
    var front := log[..|log| - 1];
    if Mentions(log, runId) {
      var i :| 0 <= i < |log| && log[i].runId == runId;
      assert i < |front| ==> front[i].runId == runId;
    }
    if Mentions(front, runId) {
      var i :| 0 <= i < |front| && front[i].runId == runId;
      assert log[i].runId == runId;
    }
  }

  lemma {:induction false} MapHoldsLatest(log: seq<Line>, runId: string, field: Field)
    requires runId != ""
    ensures runId in AsMap(log) <==> Mentions(log, runId)
    ensures Latest(log, runId, field) ==
            if runId in AsMap(log) && field in AsMap(log)[runId] then Some(AsMap(log)[runId][field]) else None
    decreases |log|
  {
    if |log| > 0 {
      hide Mentions;
      var front, last := log[..|log| - 1], log[|log| - 1];
      MapHoldsLatest(front, runId, field);
      MentionsExtend(log, runId);
    }
  }

  lemma AsMapExtend(log: seq<Line>, line: Line)
    ensures AsMap(log + [line]) == Apply(AsMap(log), line)
  {
    assert (log + [line])[..|log|] == log;
  }

  // ---- Folding into an insertion-ordered dict ----

  function IndexOf(folded: seq<Line>, runId: string): (at: nat)
    ensures at <= |folded|
    ensures at < |folded| ==> folded[at].runId == runId
    ensures at == |folded| ==> forall i :: 0 <= i < |folded| ==> folded[i].runId != runId
  {
    if |folded| == 0 then 0
    else
      var at := IndexOf(folded[..|folded| - 1], runId);
      if at < |folded| - 1 || folded[|folded| - 1].runId == runId then at else |folded|
  }

  function FoldLine(folded: seq<Line>, line: Line): seq<Line> {
    var at := IndexOf(folded, line.runId);
    if line.runId == "" then folded
    else if at < |folded| then folded[at := Line(line.runId, folded[at].fields + line.fields)]
    else folded + [Line(line.runId, map[] + line.fields)]
  }

  function Fold(log: seq<Line>): seq<Line> {
    if |log| == 0 then [] else FoldLine(Fold(log[..|log| - 1]), log[|log| - 1])
  }

  ghost predicate Distinct(lines: seq<Line>) {
    && (forall i :: 0 <= i < |lines| ==> lines[i].runId != "")
    && (forall i, j :: 0 <= i < j < |lines| ==> lines[i].runId != lines[j].runId)
  }

  /** One line per run of the map, with that run's fields. */
  ghost predicate Describes(lines: seq<Line>, runs: map<string, Fields>) {
    && Distinct(lines)
    && (forall i :: 0 <= i < |lines| ==> lines[i].runId in runs && runs[lines[i].runId] == lines[i].fields)
    && (forall id :: id in runs ==> exists i :: 0 <= i < |lines| && lines[i].runId == id)
  }

  lemma {:induction false} FoldLineDescribes(folded: seq<Line>, runs: map<string, Fields>, line: Line)
    requires Describes(folded, runs)
    ensures Describes(FoldLine(folded, line), Apply(runs, line))
  {
    hide IndexOf;
    var at := IndexOf(folded, line.runId);
    var after, target := FoldLine(folded, line), Apply(runs, line);
    if line.runId != "" {
      FoldLineDistinct(folded, line);
      FoldLineCovers(folded, runs, line);
    }
  }

  lemma {:induction false} FoldLineDistinct(folded: seq<Line>, line: Line)
    requires Distinct(folded)
    ensures Distinct(FoldLine(folded, line))
  {
  }

  lemma {:induction false} FoldLineCovers(folded: seq<Line>, runs: map<string, Fields>, line: Line)
    requires line.runId != ""
    requires forall id :: id in runs ==> exists i :: 0 <= i < |folded| && folded[i].runId == id
    ensures forall id :: id in Apply(runs, line) ==>
              exists i :: 0 <= i < |FoldLine(folded, line)| && FoldLine(folded, line)[i].runId == id
  {
    hide IndexOf;
    var at := IndexOf(folded, line.runId);
    var after := FoldLine(folded, line);
    assert after[at].runId == line.runId;
    forall id | id in Apply(runs, line)
      ensures exists i :: 0 <= i < |after| && after[i].runId == id
    {
      if id != line.runId {
        var i :| 0 <= i < |folded| && folded[i].runId == id;
        assert after[i].runId == id;
      }
    }
  }

  lemma {:induction false} FoldDescribes(log: seq<Line>)
    ensures Describes(Fold(log), AsMap(log))
    decreases |log|
  {
    if |log| > 0 {
      hide Describes, FoldLine, Apply;
      FoldDescribes(log[..|log| - 1]);
      FoldLineDescribes(Fold(log[..|log| - 1]), AsMap(log[..|log| - 1]), log[|log| - 1]);
    } else {
      assert Fold(log) == [] && AsMap(log) == map[];
    }
  }

  /** A list with one line per run folds to itself. */
  lemma {:induction false} FoldOfDistinct(lines: seq<Line>)
    requires Distinct(lines)
    ensures Fold(lines) == lines
    decreases |lines|
  {
    if |lines| > 0 {
      hide IndexOf;
      var front, last := lines[..|lines| - 1], lines[|lines| - 1];
      FoldOfDistinct(front);
      assert IndexOf(front, last.runId) == |front|;
      assert map[] + last.fields == last.fields;
      assert FoldLine(front, last) == front + [last];
    }
  }

  /** What a list with one line per run describes is unique. */
  lemma DescribesOneMap(lines: seq<Line>, a: map<string, Fields>, b: map<string, Fields>)
    requires Describes(lines, a) && Describes(lines, b)
    ensures a == b
  {
    forall id
      ensures id in a <==> id in b
      ensures id in a ==> a[id] == b[id]
    {
      if id in a {
        var i :| 0 <= i < |lines| && lines[i].runId == id;
      }
      if id in b {
        var i :| 0 <= i < |lines| && lines[i].runId == id;
      }
    }
  }

  lemma {:induction false} DescribesItself(lines: seq<Line>, runs: map<string, Fields>)
    requires Describes(lines, runs)
    ensures AsMap(lines) == runs && Fold(lines) == lines
  {
    hide Fold, AsMap;
    FoldOfDistinct(lines);
    FoldDescribes(lines);
    DescribesOneMap(lines, AsMap(lines), runs);
  }

  // ---- entries() ----

  function ByStart(lines: seq<Line>): seq<Keyed<Line>> {
    seq(|lines|, i requires 0 <= i < |lines| => Keyed(StartedKey(lines[i]), lines[i]))
  }

  function Items(keyed: seq<Keyed<Line>>): seq<Line> {
    seq(|keyed|, i requires 0 <= i < |keyed| => keyed[i].item)
  }

  /** sorted(lines, key=started_at, reverse=True). */
  function NewestFirst(lines: seq<Line>): seq<Line> {
    Items(Sorted(ByStart(lines), true))
  }

  function EntriesOf(log: seq<Line>): seq<Line> {
    NewestFirst(Fold(log))
  }

  ghost predicate Descending(lines: seq<Line>) {
    forall i, j :: 0 <= i < j < |lines| ==> !Before(StartedKey(lines[i]), StartedKey(lines[j]))
  }

  lemma ItemsOfByStart(lines: seq<Line>)
    ensures Items(ByStart(lines)) == lines
  {
  }

  lemma {:induction false} NewestFirstSorts(lines: seq<Line>)
    ensures Descending(NewestFirst(lines)) && multiset(NewestFirst(lines)) == multiset(lines)
    ensures ByStart(NewestFirst(lines)) == Sorted(ByStart(lines), true)
  {
    hide Before, Sorted, WithKey, StartedKey;
    var keyed := ByStart(lines);
    var sorted := Sorted(keyed, true);
    SortedIsStableOrderedPermutation(keyed, true);
    SameMembers(sorted, keyed);
    forall i | 0 <= i < |sorted|
      ensures sorted[i].key == StartedKey(sorted[i].item)
    {
      assert sorted[i] in keyed;
    }
    assert ByStart(Items(sorted)) == sorted;
    ItemsBag(sorted, keyed);
    ItemsOfByStart(lines);
    forall i, j | 0 <= i < j < |sorted|
      ensures !Before(StartedKey(Items(sorted)[i]), StartedKey(Items(sorted)[j]))
    {
      assert !Precedes(sorted[j].key, sorted[i].key, true);
    }
  }

  lemma ItemsExtend(keyed: seq<Keyed<Line>>, x: Keyed<Line>)
    ensures Items(keyed + [x]) == Items(keyed) + [x.item]
  {
  }

  /** Permuting keyed lines permutes the lines. */
  lemma {:induction false} ItemsBag(a: seq<Keyed<Line>>, b: seq<Keyed<Line>>)
    requires multiset(a) == multiset(b)
    ensures multiset(Items(a)) == multiset(Items(b))
    decreases |a|
  {
    SameMembers(a, b);
    if |a| > 0 {
      hide Items;
      var last := a[|a| - 1];
      assert last in b;
      var i :| 0 <= i < |b| && b[i] == last;
      assert a == a[..|a| - 1] + [last] && b == b[..i] + [last] + b[i + 1..];
      RemoveOne(a[..|a| - 1], last, b[..i], b[i + 1..]);
      ItemsBag(a[..|a| - 1], b[..i] + b[i + 1..]);
      ItemsExtend(a[..|a| - 1], last);
      ItemsInsert(b[..i], last, b[i + 1..]);
    }
  }

  lemma ItemsInsert(front: seq<Keyed<Line>>, x: Keyed<Line>, back: seq<Keyed<Line>>)
    ensures multiset(Items(front + [x] + back)) == multiset(Items(front + back)) + multiset{x.item}
  {
    assert Items(front + [x] + back) == Items(front) + [x.item] + Items(back);
    assert Items(front + back) == Items(front) + Items(back);
  }

  /** No line is repeated when each run has one. */
  lemma DistinctCounts(lines: seq<Line>, i: nat)
    requires Distinct(lines) && i < |lines|
    ensures multiset(lines)[lines[i]] == 1
  {
    assert lines == lines[..i] + [lines[i]] + lines[i + 1..];
    assert lines[i] !in lines[..i] && lines[i] !in lines[i + 1..];
  }

  lemma RepeatCounts(lines: seq<Line>, i: nat, j: nat)
    requires i < j < |lines| && lines[i] == lines[j]
    ensures multiset(lines)[lines[i]] >= 2
  {
    assert lines == lines[..j] + lines[j..] && lines[i] in lines[..j] && lines[j] in lines[j..];
  }

  lemma {:induction false} PermutedDistinct(a: seq<Line>, b: seq<Line>)
    requires multiset(a) == multiset(b) && Distinct(b)
    ensures Distinct(a)
  {
    SameMembers(a, b);
    forall i, j | 0 <= i < j < |a|
      ensures a[i].runId != a[j].runId
    {
      var p :| 0 <= p < |b| && b[p] == a[i];
      var q :| 0 <= q < |b| && b[q] == a[j];
      DistinctCounts(b, p);
      if a[i] == a[j] {
        RepeatCounts(a, i, j);
      }
    }
  }

  lemma {:induction false} PermutedDescribes(a: seq<Line>, b: seq<Line>, runs: map<string, Fields>)
    requires multiset(a) == multiset(b) && Describes(b, runs)
    ensures Describes(a, runs)
  {
    PermutedDistinct(a, b);
    SameMembers(a, b);
    SameMembers(b, a);
    forall id | id in runs
      ensures exists i :: 0 <= i < |a| && a[i].runId == id
    {
      var p :| 0 <= p < |b| && b[p].runId == id;
      assert b[p] in a;
    }
  }

  /** entries() lists each recorded run once, with its latest fields, newest first. */
  lemma {:induction false} EntriesDescribe(log: seq<Line>)
    ensures Describes(EntriesOf(log), AsMap(log)) && Descending(EntriesOf(log))
  {
    hide NewestFirst, Fold, AsMap, Describes, Descending;
    FoldDescribes(log);
    NewestFirstSorts(Fold(log));
    PermutedDescribes(NewestFirst(Fold(log)), Fold(log), AsMap(log));
  }

  /** The text a run is listed under: a missing start counts as empty, other values as Python writes them. */
  ghost predicate StartsAs(line: Line, text: string) {
    if StartedAt !in line.fields then text == ""
    else
      match line.fields[StartedAt]
      case Text(start) => text == start
      case Flag(on) => (on && text == "True") || (!on && text == "False")
      case Null => text == "None"
  }

  lemma {:induction false} LaterStartsAreListedFirst(log: seq<Line>, i: nat, j: nat, earlier: string, later: string)
    requires i < |EntriesOf(log)| && j < |EntriesOf(log)|
    requires StartsAs(EntriesOf(log)[i], later) && StartsAs(EntriesOf(log)[j], earlier) && Before(earlier, later)
    ensures i < j
  {
    hide EntriesOf, Before;
    EntriesDescribe(log);
    PrecedesIsWeakOrder(earlier, later, earlier, false);
  }

  /**
    Rewriting the log as its own entries is invisible: entries() is the same list, in the
    same order, and the log still means the same map.
  */
  lemma {:induction false} RewriteIsInvisible(log: seq<Line>)
    ensures EntriesOf(EntriesOf(log)) == EntriesOf(log)
    ensures AsMap(EntriesOf(log)) == AsMap(log)
  {
    hide Fold, AsMap, Describes, Descending, Sorted, ByStart, Items, Ordered;
    EntriesDescribe(log);
    DescribesItself(EntriesOf(log), AsMap(log));
    NewestFirstSorts(Fold(log));
    SortedIsStableOrderedPermutation(ByStart(Fold(log)), true);
    SortOfOrdered(Sorted(ByStart(Fold(log)), true), true);
  }

  // ---- The index object ----

  /** `written` is every line ever recorded since the index was empty. */
  class Index {
    var log: seq<Line>
    ghost var written: seq<Line>

    ghost predicate Valid()
      reads this
    {
      && AsMap(log) == AsMap(written)
      && (EntriesOf(log) != [] ==> |log| <= COMPACTION_FACTOR * |EntriesOf(log)|)
    }

    constructor ()
      ensures Valid() && log == [] && written == []
    {
      log, written := [], [];
    }

    method Entries() returns (entries: seq<Line>)
      ensures entries == EntriesOf(log)
    {
      hide FoldLine, NewestFirst;
      var folded: seq<Line> := [];
      for i := 0 to |log|
        invariant folded == Fold(log[..i])
      {
        assert log[..i + 1][..i] == log[..i];
        folded := FoldLine(folded, log[i]);
      }
      assert log[..|log|] == log;
      entries := NewestFirst(folded);
    }

    /** Append, then rewrite once there are more than three lines for each run. */
    method Record(runId: string, fields: Fields) returns (payload: Line)
      requires Valid()
      modifies this
      ensures Valid() && payload == Line(runId, fields) && written == old(written) + [payload]
      ensures EntriesOf(log) == EntriesOf(old(log) + [payload])
      ensures log == old(log) + [payload] || log == EntriesOf(old(log) + [payload])
      ensures runId != "" ==> 0 < |log| <= 3 * |EntriesOf(log)|
    {
      hide AsMap, EntriesOf;
      payload := Line(runId, fields);
      AsMapExtend(log, payload);
      AsMapExtend(written, payload);
      log, written := log + [payload], written + [payload];
      ghost var appended := log;
      var compacted := CompactIfNeeded();
      if runId != "" {
        NamedRunIsListed(appended, payload);
      }
    }

    method CompactIfNeeded() returns (compacted: bool)
      modifies this`log
      ensures log == if compacted then EntriesOf(old(log)) else old(log)
      ensures EntriesOf(log) == EntriesOf(old(log)) && AsMap(log) == AsMap(old(log))
      ensures EntriesOf(log) != [] ==> |log| <= COMPACTION_FACTOR * |EntriesOf(log)|
    {
      hide AsMap, EntriesOf;
      var entries := Entries();
      if |entries| == 0 || |log| <= |entries| * COMPACTION_FACTOR {
        return false;
      }
      RewriteIsInvisible(log);
      log := entries;
      compacted := true;
    }
  }

  lemma {:induction false} NamedRunIsListed(log: seq<Line>, line: Line)
    requires line.runId != "" && |log| > 0 && log[|log| - 1] == line
    ensures EntriesOf(log) != []
  {
    hide EntriesOf;
    EntriesDescribe(log);
    assert line.runId in AsMap(log);
  }

  // ---- What a rewrite can change later ----

  /**
    After a rewrite the log goes on meaning the same map whatever is appended, but runs whose
    started_at become equal later may be listed in another order than without the rewrite.
  */
  lemma {:induction false} LaterMeaningUnchanged(log: seq<Line>, more: seq<Line>)
    ensures AsMap(EntriesOf(log) + more) == AsMap(log + more)
    decreases |more|
  {
    hide AsMap, EntriesOf;
    if |more| == 0 {
      RewriteIsInvisible(log);
      assert log + more == log && EntriesOf(log) + more == EntriesOf(log);
    } else {
      hide Apply;
      var init, last := more[..|more| - 1], more[|more| - 1];
      LaterMeaningUnchanged(log, init);
      AsMapExtend(log + init, last);
      AsMapExtend(EntriesOf(log) + init, last);
      assert (log + init) + [last] == log + more && (EntriesOf(log) + init) + [last] == EntriesOf(log) + more;
    }
  }

  ghost predicate DistinctStarts(lines: seq<Line>) {
    forall i, j :: 0 <= i < j < |lines| ==> StartedKey(lines[i]) != StartedKey(lines[j])
  }

  ghost predicate StrictlyDescending(lines: seq<Line>) {
    forall i, j :: 0 <= i < j < |lines| ==> Before(StartedKey(lines[j]), StartedKey(lines[i]))
  }

  lemma DistinctStartsAreStrict(lines: seq<Line>)
    requires Descending(lines) && DistinctStarts(lines)
    ensures StrictlyDescending(lines)
  {
    hide Before, StartedKey;
    forall i, j | 0 <= i < j < |lines|
      ensures Before(StartedKey(lines[j]), StartedKey(lines[i]))
    {
      BeforeTotal(StartedKey(lines[i]), StartedKey(lines[j]));
    }
  }

  lemma LastsAgree(a: seq<Line>, b: seq<Line>)
    requires StrictlyDescending(a) && StrictlyDescending(b) && |a| > 0 && |b| > 0
    requires a[|a| - 1] in b && b[|b| - 1] in a
    ensures a[|a| - 1] == b[|b| - 1]
  {
    hide Before, StartedKey;
    var i :| 0 <= i < |a| && a[i] == b[|b| - 1];
    var j :| 0 <= j < |b| && b[j] == a[|a| - 1];
    if i < |a| - 1 && j < |b| - 1 {
      BeforeAsymmetric(StartedKey(a[|a| - 1]), StartedKey(b[|b| - 1]));
    }
  }

  lemma FrontMembers(a: seq<Line>, b: seq<Line>)
    requires StrictlyDescending(a) && |a| > 0 && |b| > 0 && a[|a| - 1] == b[|b| - 1]
    requires forall i :: 0 <= i < |a| ==> a[i] in b
    ensures StrictlyDescending(a[..|a| - 1])
    ensures forall i :: 0 <= i < |a| - 1 ==> a[i] in b[..|b| - 1]
  {
    hide Before, StartedKey;
    forall i | 0 <= i < |a| - 1
      ensures a[i] in b[..|b| - 1]
    {
      var j :| 0 <= j < |b| && b[j] == a[i];
      if j == |b| - 1 {
        BeforeAsymmetric(StartedKey(a[|a| - 1]), StartedKey(a[i]));
      } else {
        assert b[..|b| - 1][j] == a[i];
      }
    }
  }

  /** There is one way to list runs in strictly descending order. */
  lemma {:induction false} StrictOrderIsUnique(a: seq<Line>, b: seq<Line>)
    requires StrictlyDescending(a) && StrictlyDescending(b)
    requires forall i :: 0 <= i < |a| ==> a[i] in b
    requires forall i :: 0 <= i < |b| ==> b[i] in a
    ensures a == b
    decreases |a|
  {
    hide StrictlyDescending;
    assert |a| > 0 ==> a[0] in b;
    assert |b| > 0 ==> b[0] in a;
    if |a| > 0 && |b| > 0 {
      LastsAgree(a, b);
      FrontMembers(a, b);
      FrontMembers(b, a);
      StrictOrderIsUnique(a[..|a| - 1], b[..|b| - 1]);
      assert a == a[..|a| - 1] + [a[|a| - 1]] && b == b[..|b| - 1] + [b[|b| - 1]];
    }
  }

  lemma SameRunsSameLines(a: seq<Line>, b: seq<Line>, runs: map<string, Fields>)
    requires Describes(a, runs) && Describes(b, runs)
    ensures forall i :: 0 <= i < |a| ==> a[i] in b
    ensures DistinctStarts(a) ==> DistinctStarts(b)
  {
    hide StartedKey;
    forall i | 0 <= i < |a|
      ensures a[i] in b
    {
      var j :| 0 <= j < |b| && b[j].runId == a[i].runId;
      assert a[i] == b[j];
    }
    forall i, j | 0 <= i < j < |b| && DistinctStarts(a)
      ensures StartedKey(b[i]) != StartedKey(b[j])
    {
      var p :| 0 <= p < |a| && a[p].runId == b[i].runId;
      var q :| 0 <= q < |a| && a[q].runId == b[j].runId;
      assert a[p] == b[i] && a[q] == b[j];
    }
  }

  /** With distinct start times, a rewrite never changes any later listing either. */
  lemma {:induction false} LaterListingUnchanged(log: seq<Line>, more: seq<Line>)
    requires DistinctStarts(EntriesOf(log + more))
    ensures EntriesOf(EntriesOf(log) + more) == EntriesOf(log + more)
  {
    hide EntriesOf, AsMap, Describes, Descending, DistinctStarts, StrictlyDescending;
    var plain, rewritten := EntriesOf(log + more), EntriesOf(EntriesOf(log) + more);
    LaterMeaningUnchanged(log, more);
    EntriesDescribe(log + more);
    EntriesDescribe(EntriesOf(log) + more);
    SameRunsSameLines(plain, rewritten, AsMap(log + more));
    SameRunsSameLines(rewritten, plain, AsMap(log + more));
    DistinctStartsAreStrict(plain);
    DistinctStartsAreStrict(rewritten);
    StrictOrderIsUnique(plain, rewritten);
  }

  // ---- ... and for ever ----

  function Touched(line: Line): Line {
    Line(line.runId, line.fields + map[StartedAt := Text("")])
  }

  /** One update per run that gives all of them the same start. */
  function Level(lines: seq<Line>): seq<Line> {
    seq(|lines|, i requires 0 <= i < |lines| => Line(lines[i].runId, map[StartedAt := Text("")]))
  }

  function AllTouched(lines: seq<Line>): seq<Line> {
    seq(|lines|, i requires 0 <= i < |lines| => Touched(lines[i]))
  }

  /** Folding the updates for `order` into `lines`: the order of `lines` stays. */
  lemma {:induction false} LevelFolds(log: seq<Line>, lines: seq<Line>, order: seq<Line>, n: nat)
    requires Distinct(lines) && Distinct(order) && n <= |order| && Fold(log) == lines
    requires forall i :: 0 <= i < |order| ==> Mentions(lines, order[i].runId)
    ensures var folded := Fold(log + Level(order)[..n]);
            && |folded| == |lines|
            && forall i :: 0 <= i < |lines| ==>
                 folded[i] == if Mentions(order[..n], lines[i].runId) then Touched(lines[i]) else lines[i]
    decreases n
  {
    hide IndexOf, Fold;
    if n == 0 {
      assert log + Level(order)[..0] == log;
    } else {
      LevelFolds(log, lines, order, n - 1);
      var before := Fold(log + Level(order)[..n - 1]);
      var line := Level(order)[n - 1];
      assert log + Level(order)[..n] == (log + Level(order)[..n - 1]) + [line];
      FoldExtend(log + Level(order)[..n - 1], line);
      MentionsExtend(order[..n], line.runId);
      TouchOne(lines, order, n, before, line);
    }
  }

  lemma {:induction false} TouchOne(lines: seq<Line>, order: seq<Line>, n: nat, before: seq<Line>, line: Line)
    requires Distinct(lines) && Distinct(order) && 0 < n <= |order| && line == Level(order)[n - 1]
    requires Mentions(lines, line.runId) && |before| == |lines|
    requires forall i :: 0 <= i < |lines| ==>
               before[i] == if Mentions(order[..n - 1], lines[i].runId) then Touched(lines[i]) else lines[i]
    ensures |FoldLine(before, line)| == |lines|
    ensures forall i :: 0 <= i < |lines| ==>
              FoldLine(before, line)[i] == if Mentions(order[..n], lines[i].runId) then Touched(lines[i]) else lines[i]
  {
    hide IndexOf;
    var at :| 0 <= at < |lines| && lines[at].runId == line.runId;
    assert before[at].runId == line.runId;
    assert forall i :: 0 <= i < |lines| ==> before[i].runId == lines[i].runId;
    assert IndexOf(before, line.runId) == at;
    NotMentioned(order, n - 1);
    assert order[..n][..n - 1] == order[..n - 1];
    forall i | 0 <= i < |lines|
      ensures Mentions(order[..n], lines[i].runId) <==> i == at || Mentions(order[..n - 1], lines[i].runId)
    {
      MentionsExtend(order[..n], lines[i].runId);
    }
  }

  lemma NotMentioned(order: seq<Line>, n: nat)
    requires Distinct(order) && n < |order|
    ensures !Mentions(order[..n], order[n].runId)
  {
  }

  /** Once all starts are equal, the listing shows the order in which the runs were folded. */
  lemma {:induction false} LevelShowsOrder(log: seq<Line>, order: seq<Line>)
    requires Distinct(order) && forall i :: 0 <= i < |order| ==> Mentions(Fold(log), order[i].runId)
    requires forall i :: 0 <= i < |Fold(log)| ==> Mentions(order, Fold(log)[i].runId)
    ensures EntriesOf(log + Level(order)) == AllTouched(Fold(log))
  {
    hide Fold, Level, AsMap, IndexOf;
    FoldDescribes(log);
    var lines := Fold(log);
    LevelFolds(log, lines, order, |order|);
    assert Level(order)[..|order|] == Level(order) && order[..|order|] == order by { LevelLength(order); }
    assert Fold(log + Level(order)) == AllTouched(lines);
    EqualStartsKeepOrder(AllTouched(lines));
  }

  lemma LevelLength(order: seq<Line>)
    ensures |Level(order)| == |order|
  {
  }

  lemma EqualStartsKeepOrder(lines: seq<Line>)
    requires forall i :: 0 <= i < |lines| ==> StartedKey(lines[i]) == ""
    ensures NewestFirst(lines) == lines
  {
    hide StartedKey, Sorted;
    SortOfOrdered(ByStart(lines), true);
    ItemsOfByStart(lines);
  }

  /**
    A rewrite stays invisible whatever is appended later if and only if the runs were
    already folded in the order of the listing.
  */
  lemma {:induction false} RewriteInvisibleForeverIff(log: seq<Line>)
    ensures (forall more :: EntriesOf(EntriesOf(log) + more) == EntriesOf(log + more)) <==> Fold(log) == EntriesOf(log)
  {
    hide Fold, AsMap, Level, Mentions, Distinct, NewestFirst;
    var lines, listed := Fold(log), EntriesOf(log);
    FoldDescribes(log);
    EntriesDescribe(log);
    DescribesItself(listed, AsMap(log));
    if lines == listed {
      forall more
        ensures EntriesOf(listed + more) == EntriesOf(log + more)
      {
        FoldAfter(log, listed, more);
      }
    } else {
      SameMentions(lines, listed, AsMap(log));
      SameMentions(listed, lines, AsMap(log));
      SameMentions(lines, lines, AsMap(log));
      LevelShowsOrder(log, lines);
      LevelShowsOrder(listed, lines);
      TouchedOrder(lines, listed, AsMap(log));
      assert EntriesOf(listed + Level(lines)) != EntriesOf(log + Level(lines));
    }
  }

  lemma {:induction false} FoldAfter(a: seq<Line>, b: seq<Line>, more: seq<Line>)
    requires Fold(a) == Fold(b)
    ensures Fold(a + more) == Fold(b + more)
    decreases |more|
  {
    hide FoldLine, Fold;
    if |more| == 0 {
      assert a + more == a && b + more == b;
    } else {
      var front, last := more[..|more| - 1], more[|more| - 1];
      FoldAfter(a, b, front);
      FoldExtend(a + front, last);
      FoldExtend(b + front, last);
      assert (a + front) + [last] == a + more && (b + front) + [last] == b + more;
    }
  }

  lemma SameMentions(a: seq<Line>, b: seq<Line>, runs: map<string, Fields>)
    requires Describes(a, runs) && Describes(b, runs)
    ensures Distinct(a) && forall i :: 0 <= i < |a| ==> Mentions(b, a[i].runId)
  {
  }

  /** Two lists of the same runs in different orders still differ when all starts are made equal. */
  lemma {:induction false} TouchedOrder(a: seq<Line>, b: seq<Line>, runs: map<string, Fields>)
    requires Describes(a, runs) && Describes(b, runs) && a != b
    ensures AllTouched(a) != AllTouched(b)
  {
    if |a| == |b| {
      var i :| 0 <= i < |a| && a[i] != b[i];
      assert AllTouched(a)[i].runId == a[i].runId && AllTouched(b)[i].runId == b[i].runId;
    }
  }

  // ---- ... while the listed runs keep their starts ----

  /** Two lists whose runs of equal start come in the same order. */
  ghost predicate SameGroups(a: seq<Line>, b: seq<Line>) {
    forall key :: WithKey(ByStart(a), key) == WithKey(ByStart(b), key)
  }

  lemma {:induction false} SameGroupsListAlike(a: seq<Line>, b: seq<Line>)
    requires SameGroups(a, b)
    ensures NewestFirst(a) == NewestFirst(b)
  {
    hide Sorted, WithKey, ByStart, Items, Ordered;
    SortedIsStableOrderedPermutation(ByStart(a), true);
    SortedIsStableOrderedPermutation(ByStart(b), true);
    OrderedIsDetermined(Sorted(ByStart(a), true), Sorted(ByStart(b), true), true);
  }

  /** What an update does to the runs of one start, when it does not change that start. */
  function Patched(group: seq<Keyed<Line>>, line: Line): seq<Keyed<Line>> {
    seq(|group|, i requires 0 <= i < |group| => PatchOne(group[i], line))
  }

  function PatchOne(x: Keyed<Line>, line: Line): Keyed<Line> {
    if x.item.runId == line.runId then Keyed(x.key, Line(line.runId, x.item.fields + line.fields)) else x
  }

  /** The update leaves the start of `run` alone. */
  predicate KeepsStart(run: Line, line: Line) {
    StartedKey(Line(run.runId, run.fields + line.fields)) == StartedKey(run)
  }

  lemma PatchedExtend(group: seq<Keyed<Line>>, x: Keyed<Line>, line: Line)
    ensures Patched(group + [x], line) == Patched(group, line) + [PatchOne(x, line)]
  {
  }

  lemma {:induction false} PatchedGroup(keyed: seq<Keyed<Line>>, line: Line, key: string)
    ensures WithKey(Patched(keyed, line), key) == Patched(WithKey(keyed, key), line)
    decreases |keyed|
  {
    hide WithKey, Patched;
    if |keyed| > 0 {
      var front, last := keyed[..|keyed| - 1], keyed[|keyed| - 1];
      assert front + [last] == keyed;
      PatchedGroup(front, line, key);
      PatchedExtend(front, last, line);
      WithKeyExtend(Patched(front, line), PatchOne(last, line), key);
      WithKeyExtend(front, last, key);
      PatchedExtend(WithKey(front, key), last, line);
      assert WithKey(front, key) + [] == WithKey(front, key);
      assert Patched(front, line) + [PatchOne(last, line)] == Patched(keyed, line);
    } else {
      NothingPatched(line, key);
      assert keyed == [];
    }
  }

  lemma NothingPatched(line: Line, key: string)
    ensures Patched([], line) == [] && WithKey<Line>([], key) == []
  {
  }

  /** An update of a listed run patches the list in place. */
  lemma {:induction false} FoldPatches(lines: seq<Line>, line: Line)
    requires Distinct(lines) && Mentions(lines, line.runId)
    requires forall i :: 0 <= i < |lines| && lines[i].runId == line.runId ==> KeepsStart(lines[i], line)
    ensures ByStart(FoldLine(lines, line)) == Patched(ByStart(lines), line)
  {
    hide IndexOf, StartedKey;
    var at := IndexOf(lines, line.runId);
    var i :| 0 <= i < |lines| && lines[i].runId == line.runId;
    assert at == i && line.runId != "";
    var after := FoldLine(lines, line);
    forall j | 0 <= j < |lines|
      ensures ByStart(after)[j] == Patched(ByStart(lines), line)[j]
    {
      if j == at {
        assert KeepsStart(lines[j], line);
      }
    }
  }

  lemma {:induction false} PatchKeepsGroups(a: seq<Line>, b: seq<Line>, line: Line)
    requires Distinct(a) && Distinct(b) && SameGroups(a, b)
    requires Mentions(a, line.runId) && Mentions(b, line.runId)
    requires forall i :: 0 <= i < |a| && a[i].runId == line.runId ==> KeepsStart(a[i], line)
    requires forall i :: 0 <= i < |b| && b[i].runId == line.runId ==> KeepsStart(b[i], line)
    ensures SameGroups(FoldLine(a, line), FoldLine(b, line))
  {
    hide FoldLine, KeepsStart, WithKey, Patched, Distinct, Mentions, ByStart;
    FoldPatches(a, line);
    FoldPatches(b, line);
    forall key
      ensures WithKey(ByStart(FoldLine(a, line)), key) == WithKey(ByStart(FoldLine(b, line)), key)
    {
      PatchedGroup(ByStart(a), line, key);
      PatchedGroup(ByStart(b), line, key);
    }
  }

  /** Folding a line into listed runs followed by newer ones touches just one of the two parts. */
  lemma {:induction false} SplitFold(a: seq<Line>, n: seq<Line>, line: Line)
    requires Distinct(a + n) && line.runId != ""
    ensures FoldLine(a + n, line) == if Mentions(a, line.runId) then FoldLine(a, line) + n else a + FoldLine(n, line)
  {
    hide IndexOf;
    var at, inA, inN := IndexOf(a + n, line.runId), IndexOf(a, line.runId), IndexOf(n, line.runId);
    if Mentions(a, line.runId) {
      assert (a + n)[inA].runId == line.runId;
      assert at == inA;
    } else {
      assert inA == |a|;
      assert forall i :: 0 <= i < |n| ==> (a + n)[|a| + i] == n[i];
      assert forall i :: 0 <= i < |a| ==> (a + n)[i] == a[i];
      assert inN < |n| ==> (a + n)[|a| + inN].runId == line.runId;
      assert at == |a| + inN;
    }
  }

  /** Later lines leave the starts of the runs listed so far unchanged; of newer runs they may say anything. */
  ghost predicate StartsSettled(runs: map<string, Fields>, more: seq<Line>) {
    forall k :: 0 <= k < |more| && more[k].runId in runs && StartedAt in more[k].fields ==>
                  StartedKey(more[k]) == StartedKey(Line(more[k].runId, runs[more[k].runId]))
  }

  /** `lines` holds exactly the runs of the map, with their original starts. */
  ghost predicate Settled(lines: seq<Line>, runs: map<string, Fields>) {
    && (forall id :: Mentions(lines, id) <==> id in runs)
    && forall i :: 0 <= i < |lines| ==>
         lines[i].runId in runs && StartedKey(lines[i]) == StartedKey(Line(lines[i].runId, runs[lines[i].runId]))
  }

  lemma SameIds(lines: seq<Line>, after: seq<Line>)
    requires |after| == |lines| && forall i :: 0 <= i < |lines| ==> after[i].runId == lines[i].runId
    ensures forall id :: Mentions(after, id) <==> Mentions(lines, id)
  {
    forall id
      ensures Mentions(after, id) <==> Mentions(lines, id)
    {
      if Mentions(lines, id) {
        var i :| 0 <= i < |lines| && lines[i].runId == id;
        assert after[i].runId == id;
      }
      if Mentions(after, id) {
        var i :| 0 <= i < |after| && after[i].runId == id;
        assert lines[i].runId == id;
      }
    }
  }

  lemma StartKept(run: Line, line: Line, original: Line)
    requires StartedKey(run) == StartedKey(original)
    requires StartedAt in line.fields ==> StartedKey(line) == StartedKey(original)
    ensures KeepsStart(run, line)
  {
  }

  lemma SettledStep(lines: seq<Line>, runs: map<string, Fields>, line: Line)
    requires Distinct(lines) && Settled(lines, runs) && line.runId in runs && line.runId != ""
    requires StartedAt in line.fields ==> StartedKey(line) == StartedKey(Line(line.runId, runs[line.runId]))
    ensures forall i :: 0 <= i < |lines| && lines[i].runId == line.runId ==> KeepsStart(lines[i], line)
    ensures Settled(FoldLine(lines, line), runs)
  {
    hide IndexOf, StartedKey, Mentions;
    var original := Line(line.runId, runs[line.runId]);
    forall i | 0 <= i < |lines| && lines[i].runId == line.runId
      ensures KeepsStart(lines[i], line)
    {
      StartKept(lines[i], line, original);
    }
    UpdatedInPlace(lines, line);
    SameIds(lines, FoldLine(lines, line));
  }

  /** Folding a mentioned run changes its line where it stands. */
  lemma UpdatedInPlace(lines: seq<Line>, line: Line)
    requires Mentions(lines, line.runId) && line.runId != ""
    ensures var at, after := IndexOf(lines, line.runId), FoldLine(lines, line);
            && at < |lines| && lines[at].runId == line.runId
            && after == lines[at := Line(line.runId, lines[at].fields + line.fields)]
  {
    hide IndexOf;
    var i :| 0 <= i < |lines| && lines[i].runId == line.runId;
  }

  /** The two folds side by side: the listed runs in their two orders, then the same newer runs. */
  lemma {:induction false} FoldsInParallel(log: seq<Line>, rewritten: seq<Line>, runs: map<string, Fields>, more: seq<Line>)
    returns (a: seq<Line>, b: seq<Line>, n: seq<Line>)
    requires Distinct(Fold(log)) && Distinct(Fold(rewritten)) && SameGroups(Fold(log), Fold(rewritten))
    requires Settled(Fold(log), runs) && Settled(Fold(rewritten), runs) && StartsSettled(runs, more)
    ensures Fold(log + more) == a + n && Fold(rewritten + more) == b + n && SameGroups(a, b)
    ensures Settled(a, runs) && Settled(b, runs)
    decreases |more|
  {
    hide Fold, FoldLine, SameGroups, Settled, StartedKey, Mentions;
    if |more| == 0 {
      a, b, n := Fold(log), Fold(rewritten), [];
      assert log + more == log && rewritten + more == rewritten;
    } else {
      var front, line := more[..|more| - 1], more[|more| - 1];
      a, b, n := FoldsInParallel(log, rewritten, runs, front);
      assert (log + front) + [line] == log + more && (rewritten + front) + [line] == rewritten + more;
      FoldExtend(log + front, line);
      FoldExtend(rewritten + front, line);
      FoldIsDistinct(log + front);
      FoldIsDistinct(rewritten + front);
      a, b, n := ParallelStep(a, b, n, runs, line);
    }
  }

  lemma FoldIsDistinct(log: seq<Line>)
    ensures Distinct(Fold(log))
  {
    hide Fold, AsMap;
    FoldDescribes(log);
  }

  lemma {:induction false} ParallelStep(a: seq<Line>, b: seq<Line>, n: seq<Line>, runs: map<string, Fields>, line: Line)
    returns (a': seq<Line>, b': seq<Line>, n': seq<Line>)
    requires Distinct(a + n) && Distinct(b + n) && SameGroups(a, b) && Settled(a, runs) && Settled(b, runs)
    requires line.runId in runs && StartedAt in line.fields ==>
               StartedKey(line) == StartedKey(Line(line.runId, runs[line.runId]))
    ensures FoldLine(a + n, line) == a' + n' && FoldLine(b + n, line) == b' + n' && SameGroups(a', b')
    ensures Settled(a', runs) && Settled(b', runs)
  {
    a', b', n' := a, b, n;
    DistinctParts(a, n);
    DistinctParts(b, n);
    if line.runId != "" {
      SplitFold(a, n, line);
      SplitFold(b, n, line);
      MentionedIff(a, runs, line.runId);
      MentionedIff(b, runs, line.runId);
      hide FoldLine, SameGroups, StartedKey, Mentions, Distinct;
      if line.runId in runs {
        SettledStep(a, runs, line);
        SettledStep(b, runs, line);
        hide Settled;
        PatchKeepsGroups(a, b, line);
        a', b' := FoldLine(a, line), FoldLine(b, line);
      } else {
        n' := FoldLine(n, line);
      }
    }
  }

  lemma MentionedIff(lines: seq<Line>, runs: map<string, Fields>, id: string)
    requires Settled(lines, runs)
    ensures Mentions(lines, id) <==> id in runs
  {
  }

  lemma DistinctParts(a: seq<Line>, n: seq<Line>)
    requires Distinct(a + n)
    ensures Distinct(a)
  {
    assert forall i :: 0 <= i < |a| ==> (a + n)[i] == a[i];
  }

  lemma {:induction false} DescribedIsSettled(lines: seq<Line>, runs: map<string, Fields>)
    requires Describes(lines, runs)
    ensures Settled(lines, runs) && Distinct(lines)
  {
    hide StartedKey;
    forall id
      ensures Mentions(lines, id) <==> id in runs
    {
    }
    assert forall i :: 0 <= i < |lines| ==> Line(lines[i].runId, runs[lines[i].runId]) == lines[i];
  }

  lemma {:induction false} SameGroupsConcat(a: seq<Line>, b: seq<Line>, n: seq<Line>)
    requires SameGroups(a, b)
    ensures SameGroups(a + n, b + n)
  {
    hide WithKey, StartedKey;
    forall key
      ensures WithKey(ByStart(a + n), key) == WithKey(ByStart(b + n), key)
    {
      WithKeyConcat(ByStart(a), ByStart(n), key);
      WithKeyConcat(ByStart(b), ByStart(n), key);
      assert ByStart(a + n) == ByStart(a) + ByStart(n) && ByStart(b + n) == ByStart(b) + ByStart(n);
    }
  }

  /** The listing groups the runs of equal start as the fold does. */
  lemma {:induction false} ListingKeepsGroups(log: seq<Line>)
    ensures SameGroups(Fold(log), EntriesOf(log))
  {
    hide Fold, WithKey, Sorted, Ordered, NewestFirst, StartedKey;
    NewestFirstSorts(Fold(log));
    SortedIsStableOrderedPermutation(ByStart(Fold(log)), true);
  }

  /**
    As long as later appends leave the starts of the listed runs alone, a rewrite never
    shows in any later listing, runs of equal start included.
  */
  lemma {:induction false} RewriteInvisibleToSettledRuns(log: seq<Line>, more: seq<Line>)
    requires StartsSettled(AsMap(log), more)
    ensures EntriesOf(EntriesOf(log) + more) == EntriesOf(log + more)
  {
    hide Fold, AsMap, Describes, Distinct, SameGroups, Settled, StartsSettled, NewestFirst;
    var listed := EntriesOf(log);
    FoldDescribes(log);
    EntriesDescribe(log);
    DescribesItself(listed, AsMap(log));
    DescribedIsSettled(Fold(log), AsMap(log));
    DescribedIsSettled(listed, AsMap(log));
    ListingKeepsGroups(log);
    var a, b, n := FoldsInParallel(log, listed, AsMap(log), more);
    SameGroupsConcat(a, b, n);
    SameGroupsListAlike(a + n, b + n);
  }

  lemma {:induction false} TwoNewestFirst(x: Line, y: Line)
    ensures NewestFirst([x, y]) == if Before(StartedKey(x), StartedKey(y)) then [y, x] else [x, y]
  {
    hide Before, StartedKey;
    var kx, ky := Keyed(StartedKey(x), x), Keyed(StartedKey(y), y);
    assert ByStart([x, y]) == [kx, ky];
    assert [kx, ky][..1] == [kx] && [kx][..0] == [];
    assert Sorted([kx], true) == [kx];
    assert Insert([kx], ky, true) == if Before(StartedKey(x), StartedKey(y)) then [ky, kx] else [kx, ky];
  }

  lemma FoldExtend(log: seq<Line>, line: Line)
    ensures Fold(log + [line]) == FoldLine(Fold(log), line)
  {
    assert (log + [line])[..|log|] == log;
  }

  function Started(runId: string, at: string): Line {
    Line(runId, map[StartedAt := Text(at)])
  }

  /** ... but when two start times become equal, the rewrite shows in the order. */
  lemma {:induction false} RewriteCanReorderTies()
    ensures var log, more := [Started("a", "1"), Started("b", "2")], [Started("a", "2")];
            EntriesOf(log + more) == [Started("a", "2"), Started("b", "2")] &&
            EntriesOf(EntriesOf(log) + more) == [Started("b", "2"), Started("a", "2")]
  {
    var a1, a2, b2 := Started("a", "1"), Started("a", "2"), Started("b", "2");
    assert Before("1", "2") && !Before("2", "2");
    assert a1.fields + a2.fields == a2.fields;
    FoldOfDistinct([a1, b2]);
    FoldOfDistinct([b2, a1]);
    TwoNewestFirst(a1, b2);
    FoldExtend([a1, b2], a2);
    FoldExtend([b2, a1], a2);
    TieFolds(a1, a2, b2);
    TwoNewestFirst(a2, b2);
    TwoNewestFirst(b2, a2);
  }

  lemma TieFolds(a1: Line, a2: Line, b2: Line)
    requires a1.runId == a2.runId == "a" && b2.runId == "b" && a1.fields + a2.fields == a2.fields
    ensures FoldLine([a1, b2], a2) == [a2, b2] && FoldLine([b2, a1], a2) == [b2, a2]
  {
    hide IndexOf;
    var x, y := [a1, b2], [b2, a1];
    assert x[0].runId == "a" && y[1].runId == "a" && x[1].runId == "b" && y[0].runId == "b";
  }
}
