/**
  Which runs the retention policy archives (moss/runs/index.py, expired_run_ids).

  `stamp` stands for datetime.fromisoformat: the instant a started_at text denotes, in
  microseconds, or None when the text is not a timestamp.
*/
module Retention {
  import opened Collections
  import opened History
  import opened TextSort
  import opened RunIndex

  const MICROSECONDS_PER_DAY := 86_400_000_000

  datatype Policy = Policy(keepCount: Option<int>, keepDays: Option<int>, protectedRuns: set<string>, now: int)

  function StartOf(line: Line, stamp: string -> Option<int>): Option<int> {
    if StartedAt in line.fields then stamp(StartedKey(line)) else None
  }

  predicate WithinDays(line: Line, policy: Policy, stamp: string -> Option<int>) {
    policy.keepDays.Some? && StartOf(line, stamp).Some? &&
    policy.now - StartOf(line, stamp).value <= policy.keepDays.value * MICROSECONDS_PER_DAY
  }

  /** Whether the run at `position` of the newest-first list is archived. */
  predicate Expires(line: Line, position: nat, policy: Policy, stamp: string -> Option<int>) {
    && line.runId != "" && line.runId !in policy.protectedRuns && !IsPinned(line)
    && policy.keepCount.Some? && position >= policy.keepCount.value
    && !WithinDays(line, policy, stamp)
  }

  /** Without a count limit nothing is archived, whatever the day limit says. */
  method ExpiredRunIds(entries: seq<Line>, policy: Policy, stamp: string -> Option<int>)
    returns (expired: seq<string>)
    ensures var ordered := NewestFirst(entries);
            forall id :: id in expired <==>
              exists p :: 0 <= p < |ordered| && ordered[p].runId == id && Expires(ordered[p], p, policy, stamp)
    ensures policy.keepCount.None? ==> expired == []
  {
    hide NewestFirst, IsPinned, StartedKey;
    var ordered := NewestFirst(entries);
    expired := [];
    for position := 0 to |ordered|
      invariant forall id :: id in expired <==>
                  exists p :: 0 <= p < position && ordered[p].runId == id && Expires(ordered[p], p, policy, stamp)
      invariant policy.keepCount.None? ==> expired == []
    {
      var entry := ordered[position];
      if entry.runId == "" || entry.runId in policy.protectedRuns || IsPinned(entry) {
        continue;
      }
      var recentEnough := policy.keepCount.None? || position < policy.keepCount.value;
      if recentEnough {
        continue;
      }
      var started := StartOf(entry, stamp);
      if policy.keepDays.Some? && started.Some? &&
        policy.now - started.value <= policy.keepDays.value * MICROSECONDS_PER_DAY {
        continue;
      }
      expired := expired + [entry.runId];
    }
  }

  /** No pin, or one that is off, empty or null. */
  predicate Unpinned(line: Line) {
    Pinned !in line.fields || line.fields[Pinned] == Flag(false) || line.fields[Pinned] == Text("") || line.fields[Pinned] == Null
  }

  /** The run has a start that can be read, and this is it. */
  ghost predicate Began(line: Line, stamp: string -> Option<int>, start: int) {
    StartedAt in line.fields && exists text :: StartsAs(line, text) && stamp(text) == Some(start)
  }

  lemma BeganIff(line: Line, stamp: string -> Option<int>)
    ensures forall start :: Began(line, stamp, start) <==> StartOf(line, stamp) == Some(start)
  {
    assert StartsAs(line, StartedKey(line));
  }

  // ---- Ranks, independently of any sorting ----

  /** The other runs that started strictly later, comparing started_at as text. */
  ghost function Newer(entries: seq<Line>, line: Line): set<Line> {
    set other | other in entries && Before(StartedKey(line), StartedKey(other))
  }

  /** The other runs that did not start earlier. */
  ghost function NoOlder(entries: seq<Line>, line: Line): set<Line> {
    set other | other in entries && other != line && !Before(StartedKey(other), StartedKey(line))
  }

  lemma {:induction false} DistinctPrefixCounts(lines: seq<Line>, n: nat)
    requires Distinct(lines) && n <= |lines|
    ensures |set i | 0 <= i < n :: lines[i]| == n
  {
    if n > 0 {
      DistinctPrefixCounts(lines, n - 1);
      var shorter := set i | 0 <= i < n - 1 :: lines[i];
      assert (set i | 0 <= i < n :: lines[i]) == shorter + {lines[n - 1]};
      assert lines[n - 1] !in shorter;
    }
  }

  /** A run's position lies between its number of strictly newer runs and of runs no older. */
  lemma {:induction false} PositionBetweenRanks(entries: seq<Line>, p: nat)
    requires Distinct(entries) && p < |NewestFirst(entries)|
    ensures var line := NewestFirst(entries)[p];
            |Newer(entries, line)| <= p <= |NoOlder(entries, line)|
  {
    hide Before, StartedKey, NewestFirst;
    var ordered := NewestFirst(entries);
    var line := ordered[p];
    NewestFirstSorts(entries);
    PermutedDistinct(ordered, entries);
    SameMembers(ordered, entries);
    SameMembers(entries, ordered);
    var earlier := set i | 0 <= i < p :: ordered[i];
    DistinctPrefixCounts(ordered, p);
    NewerComeEarlier(entries, ordered, p);
    EarlierAreNoOlder(entries, ordered, p);
    SubsetCounts(Newer(entries, line), earlier);
    SubsetCounts(earlier, NoOlder(entries, line));
  }

  lemma NewerComeEarlier(entries: seq<Line>, ordered: seq<Line>, p: nat)
    requires Descending(ordered) && p < |ordered|
    requires forall i :: 0 <= i < |entries| ==> entries[i] in ordered
    ensures Newer(entries, ordered[p]) <= set i | 0 <= i < p :: ordered[i]
  {
    hide Before, StartedKey;
    forall other | other in Newer(entries, ordered[p])
      ensures other in set i | 0 <= i < p :: ordered[i]
    {
      var e :| 0 <= e < |entries| && entries[e] == other;
      var i :| 0 <= i < |ordered| && ordered[i] == other;
      if i == p {
        PrecedesIsWeakOrder(StartedKey(other), StartedKey(other), StartedKey(other), false);
      }
    }
  }

  lemma EarlierAreNoOlder(entries: seq<Line>, ordered: seq<Line>, p: nat)
    requires Descending(ordered) && Distinct(ordered) && p < |ordered|
    requires forall i :: 0 <= i < |ordered| ==> ordered[i] in entries
    ensures (set i | 0 <= i < p :: ordered[i]) <= NoOlder(entries, ordered[p])
  {
    hide Before, StartedKey;
  }

  /**
    Retention is conservative.  An archived run is a listed run that is neither pinned nor
    protected, is not among the newest keepCount, and whose start, if readable, lies more
    than keepDays back.
  */
  lemma {:induction false} ExpiredRunsAreOld(entries: seq<Line>, p: nat, policy: Policy, stamp: string -> Option<int>)
    requires Distinct(entries) && p < |NewestFirst(entries)|
    requires Expires(NewestFirst(entries)[p], p, policy, stamp)
    ensures var line := NewestFirst(entries)[p];
            && line in entries && Unpinned(line) && line.runId !in policy.protectedRuns
            && policy.keepCount.Some? && |NoOlder(entries, line)| >= policy.keepCount.value
            && forall start :: policy.keepDays.Some? && Began(line, stamp, start) ==>
                  policy.now - start > policy.keepDays.value * 86_400_000_000
  {
    BeganIff(NewestFirst(entries)[p], stamp);
    hide NewestFirst, StartedKey, Began;
    PositionBetweenRanks(entries, p);
    NewestFirstSorts(entries);
    SameMembers(NewestFirst(entries), entries);
  }

  /** ... and complete: enough strictly newer runs, and nothing that protects it, archive a run. */
  lemma {:induction false} OldRunsExpire(entries: seq<Line>, p: nat, policy: Policy, stamp: string -> Option<int>)
    requires Distinct(entries) && p < |NewestFirst(entries)|
    requires var line := NewestFirst(entries)[p];
             && Unpinned(line) && line.runId !in policy.protectedRuns
             && policy.keepCount.Some? && |Newer(entries, line)| >= policy.keepCount.value
             && !WithinDays(line, policy, stamp)
    ensures Expires(NewestFirst(entries)[p], p, policy, stamp)
  {
    hide NewestFirst, StartedKey, WithinDays, Newer;
    PositionBetweenRanks(entries, p);
    NewestFirstSorts(entries);
    PermutedDistinct(NewestFirst(entries), entries);
  }

  /**
    Behind keepCount strictly newer runs, the day limit spares a run if and only if its
    start can be read and is recent; with an unreadable start it is archived whatever its age.
  */
  lemma {:induction false} DayLimitSparesIff(entries: seq<Line>, p: nat, policy: Policy, stamp: string -> Option<int>)
    requires Distinct(entries) && p < |NewestFirst(entries)|
    requires var line := NewestFirst(entries)[p];
             && Unpinned(line) && line.runId !in policy.protectedRuns
             && policy.keepCount.Some? && |Newer(entries, line)| >= policy.keepCount.value
    ensures var line := NewestFirst(entries)[p];
            && (!Expires(line, p, policy, stamp) <==>
                  exists start, days :: policy.keepDays == Some(days) && Began(line, stamp, start) &&
                    policy.now - start <= days * 86_400_000_000)
            && ((forall start :: !Began(line, stamp, start)) ==> Expires(line, p, policy, stamp))
  {
    BeganIff(NewestFirst(entries)[p], stamp);
    hide NewestFirst, StartedKey, Newer, Began;
    var line := NewestFirst(entries)[p];
    if WithinDays(line, policy, stamp) {
      var start, days := StartOf(line, stamp).value, policy.keepDays.value;
      assert policy.keepDays == Some(days) && Began(line, stamp, start);
    } else {
      OldRunsExpire(entries, p, policy, stamp);
    }
  }
}
