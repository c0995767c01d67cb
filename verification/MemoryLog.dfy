/**
  The append-only record log of moss/memory/store.py: folding by id, and compaction.

  A text or subject is a list of words; regular expressions and JSON are not modelled.
  Times are in microseconds.
*/
module MemoryLog {
  import opened History

  type Text = seq<string>

  datatype Trust = ToolTrust | ModelTrust | UserTrust
  datatype Status = Active | Superseded | NeedsReview | Tombstone

  datatype Record = Record(
    id: string,
    scope: string,
    scopeKey: string,
    topic: string,
    subject: Text,
    text: Text,
    trust: Trust,
    hasSources: bool,
    createdAt: int,
    observedAt: int,
    status: Status,
    supersedes: seq<string>,
    legacy: bool)

  /** _validate_durable_record */
  predicate Durable(r: Record) {
    r.trust != ToolTrust && (r.legacy || r.hasSources)
  }

  predicate Recallable(r: Record) {
    r.status == Active || r.status == NeedsReview
  }

  // ---- Folding: the last write of an id wins, in the place of its first ----

  function IndexOf(view: seq<Record>, id: string): (k: nat)
    ensures k <= |view|
    ensures k < |view| ==> view[k].id == id
    ensures forall j :: 0 <= j < k ==> view[j].id != id
  {
    if |view| == 0 || view[0].id == id then 0 else 1 + IndexOf(view[1..], id)
  }

  function Upsert(view: seq<Record>, r: Record): seq<Record> {
    var k := IndexOf(view, r.id);
    if k < |view| then view[k := r] else view + [r]
  }

  function Fold(view: seq<Record>, log: seq<Record>): seq<Record> {
    if |log| == 0 then view else Upsert(Fold(view, log[..|log| - 1]), log[|log| - 1])
  }

  function AllRecords(log: seq<Record>): seq<Record> {
    Fold([], log)
  }

  predicate Distinct(view: seq<Record>) {
    forall i, j :: 0 <= i < j < |view| ==> view[i].id != view[j].id
  }

  lemma {:induction false} FoldDistinct(view: seq<Record>, log: seq<Record>)
    requires Distinct(view)
    ensures Distinct(Fold(view, log))
    decreases |log|
  {
    if |log| > 0 {
      FoldDistinct(view, log[..|log| - 1]);
    }
  }

  lemma {:induction false} FoldConcat(view: seq<Record>, log: seq<Record>, more: seq<Record>)
    ensures Fold(view, log + more) == Fold(Fold(view, log), more)
    decreases |more|
  {
    if |more| == 0 {
      assert log + more == log;
    } else {
      FoldConcat(view, log, more[..|more| - 1]);
      assert (log + more)[..|log + more| - 1] == log + more[..|more| - 1];
    }
  }

  lemma {:induction false} FoldOfDistinct(view: seq<Record>)
    requires Distinct(view)
    ensures AllRecords(view) == view
    decreases |view|
  {
    if |view| > 0 {
      var front := view[..|view| - 1];
      FoldOfDistinct(front);
      assert IndexOf(front, view[|view| - 1].id) == |front|;
      assert front + [view[|view| - 1]] == view;
    }
  }

  /** Replacing any prefix of the log by its compaction is invisible, now and to every later append. */
  lemma {:induction false} CompactionIsInvisible(log: seq<Record>, more: seq<Record>)
    ensures AllRecords(AllRecords(log) + more) == AllRecords(log + more)
    ensures AllRecords(AllRecords(log)) == AllRecords(log)
  {
    FoldDistinct([], log);
    FoldOfDistinct(AllRecords(log));
    FoldConcat([], AllRecords(log), more);
    FoldConcat([], log, more);
  }

  // ---- Refinement of a last-write-wins map ----

  function Latest(log: seq<Record>): map<string, Record> {
    if |log| == 0 then map[] else Latest(log[..|log| - 1])[log[|log| - 1].id := log[|log| - 1]]
  }

  /** The view lists exactly the entries of `m`, one per id. */
  ghost predicate Lists(view: seq<Record>, m: map<string, Record>) {
    && Distinct(view)
    && (forall r <- view :: r.id in m && m[r.id] == r)
    && (forall id <- m :: m[id].id == id && m[id] in view)
  }

  lemma {:induction false} UpsertLists(view: seq<Record>, m: map<string, Record>, r: Record)
    requires Lists(view, m)
    ensures Lists(Upsert(view, r), m[r.id := r])
  {
    var view', m' := Upsert(view, r), m[r.id := r];
    var k := IndexOf(view, r.id);
    assert view'[k] == r;
    forall id | id in m'
      ensures m'[id] in view'
    {
      if id != r.id {
        var j :| 0 <= j < |view| && view[j] == m[id];
        assert view'[j] == m[id];
      }
    }
  }

  /** The log refines the map from id to its last written record. */
  lemma {:induction false} LogRefinesLastWriteMap(log: seq<Record>)
    ensures Lists(AllRecords(log), Latest(log))
    decreases |log|
  {
    if |log| > 0 {
      LogRefinesLastWriteMap(log[..|log| - 1]);
      UpsertLists(AllRecords(log[..|log| - 1]), Latest(log[..|log| - 1]), log[|log| - 1]);
    }
  }

  lemma {:induction false} LatestKept(log: seq<Record>, more: seq<Record>, id: string)
    requires forall r <- more :: r.id != id
    requires id in Latest(log)
    ensures id in Latest(log + more) && Latest(log + more)[id] == Latest(log)[id]
    decreases |more|
  {
    if |more| == 0 {
      assert log + more == log;
    } else {
      assert more[|more| - 1] in more;
      LatestKept(log, more[..|more| - 1], id);
      assert (log + more)[..|log + more| - 1] == log + more[..|more| - 1];
    }
  }

  /** A tombstoned id stays unrecallable whatever else is appended and however often the log is compacted. */
  lemma {:induction false} TombstoneSurvives(log: seq<Record>, more: seq<Record>, id: string)
    requires id in Latest(log) && Latest(log)[id].status == Tombstone
    requires forall r <- more :: r.id != id
    ensures forall r <- AllRecords(AllRecords(log) + more) :: r.id == id ==> !Recallable(r)
  {
    CompactionIsInvisible(log, more);
    LogRefinesLastWriteMap(log + more);
    LatestKept(log, more, id);
  }

  /** An id is recalled exactly when its last write left it active or up for review. */
  lemma {:induction false} RecalledIff(log: seq<Record>, id: string)
    ensures (exists r <- AllRecords(log) :: r.id == id && Recallable(r)) <==>
            id in Latest(log) && (Latest(log)[id].status == Active || Latest(log)[id].status == NeedsReview)
  {
    LogRefinesLastWriteMap(log);
    if id in Latest(log) {
      assert Latest(log)[id] in AllRecords(log);
    }
  }
}
