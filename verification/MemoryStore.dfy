/**
  The durable memory store (moss/memory/store.py): conflict resolution, updates,
  deletion and freshness on top of the record log.
*/
module MemoryStore {
  import opened History
  import opened MemoryLog

  // ---- subject_for ----

  const STOP_WORDS: set<string> := {"a", "an", "the", "is", "are", "be", "to"}
  const SUBJECT_WORDS: nat := 6

  /** The verb families of the subject patterns, in the order they are tried. */
  const PATTERNS: seq<set<string>> := [{"is"}, {"are"}, {"use", "uses"}, {"should"}]

  function DropStopWords(words: Text): Text {
    if |words| == 0 then []
    else DropStopWords(words[..|words| - 1]) + if words[|words| - 1] in STOP_WORDS then [] else [words[|words| - 1]]
  }

  function Normalize(words: Text): Text {
    var kept := DropStopWords(words);
    if |kept| <= SUBJECT_WORDS then kept else kept[..SUBJECT_WORDS]
  }

  /** First word of `verbs` with something on both sides, or `|words|`. */
  function VerbAt(words: Text, verbs: set<string>, from: nat): (i: nat)
    requires 1 <= from
    ensures i <= |words| && (from <= i || i == |words|)
    ensures i < |words| ==> i + 1 < |words| && words[i] in verbs && forall k :: from <= k < i ==> words[k] !in verbs
    ensures i == |words| ==> forall k :: from <= k < |words| - 1 ==> words[k] !in verbs
    decreases |words| - from
  {
    if from + 1 >= |words| then |words|
    else if words[from] in verbs then from
    else VerbAt(words, verbs, from + 1)
  }

  function SubjectWith(words: Text, patterns: seq<set<string>>): Text {
    if |patterns| == 0 then Normalize(words)
    else
      var i := VerbAt(words, patterns[0], 1);
      if i < |words| then Normalize(words[..i]) else SubjectWith(words, patterns[1..])
  }

  /** _subject_for on English words, without aliases. */
  function SubjectFor(words: Text): Text {
    SubjectWith(words, PATTERNS)
  }

  // ---- append_resolving_conflicts ----

  function Rank(t: Trust): nat {
    match t
    case ToolTrust => 0
    case ModelTrust => 1
    case UserTrust => 2
  }

  /**
    What the store is parameterised by: `canon` is subject_for with the aliases of the
    moment, `conflict` is _texts_conflict, and `hash` is _record_id.
  */
  datatype Env = Env(canon: Text -> Text, conflict: (Text, Text) -> bool, hash: Record -> string)

  /** What make_record hashes: everything but the id itself, the status and the dates of no consequence. */
  function Identity(r: Record): Record {
    r.(id := "", createdAt := 0, status := Active, legacy := false)
  }

  function Hashed(env: Env, r: Record): Record {
    r.(id := env.hash(Identity(r)))
  }

  predicate SameKey(a: Record, b: Record) {
    a.scope == b.scope && a.scopeKey == b.scopeKey && a.topic == b.topic && a.subject == b.subject
  }

  predicate IsPeer(env: Env, old_: Record, record: Record) {
    && old_.status == Active
    && old_.scope == record.scope && old_.scopeKey == record.scopeKey && old_.topic == record.topic
    && env.canon(old_.subject) == record.subject
  }

  predicate Later(a: Record, b: Record) {
    a.observedAt > b.observedAt || (a.observedAt == b.observedAt && a.createdAt > b.createdAt)
  }

  /** Index of the peer that max() picks: the first of the latest ones. */
  function BestPeer(env: Env, view: seq<Record>, record: Record): (best: Option<nat>)
    ensures best.Some? ==> best.value < |view| && IsPeer(env, view[best.value], record)
    ensures best.None? ==> forall r <- view :: !IsPeer(env, r, record)
  {
    if |view| == 0 then None
    else
      var last := |view| - 1;
      var best := BestPeer(env, view[..last], record);
      if !IsPeer(env, view[last], record) then best
      else if best.None? || Later(view[last], view[best.value]) then Some(last)
      else best
  }

  const HOUR := 3_600_000_000

  function Abs(x: int): int {
    if x < 0 then -x else x
  }

  /** The records the call appends, new record first or last as the source writes them. */
  function Resolution(env: Env, view: seq<Record>, record: Record): seq<Record> {
    var best := BestPeer(env, view, record);
    if best.None? then [record]
    else
      var old_ := view[best.value];
      var oldRank, newRank := Rank(old_.trust), Rank(record.trust);
      if newRank == oldRank && Abs(record.observedAt - old_.observedAt) < HOUR && env.conflict(old_.text, record.text)
      then [old_.(status := NeedsReview), record.(status := NeedsReview)]
      else if newRank > oldRank || (newRank == oldRank && record.observedAt > old_.observedAt)
      then [Hashed(env, record.(supersedes := [old_.id])), old_.(status := Superseded)]
      else [record.(status := Superseded)]
  }

  // ---- The operations as steps on the folded view ----

  datatype Op =
    | Learn(draft: Record)
    | Update(target: string, text: Text, trust: Option<Trust>, observedAt: int, createdAt: int)
    | Delete(target: string)
    | RefreshFreshness(stale: Record -> bool)

  function Drafted(env: Env, draft: Record): Record {
    Hashed(env, draft.(subject := env.canon(draft.text), status := Active, supersedes := []))
  }

  function Updated(env: Env, old_: Record, op: Op): Record
    requires op.Update?
  {
    Hashed(env, old_.(text := op.text, trust := if op.trust.Some? then op.trust.value else old_.trust,
                      createdAt := op.createdAt, observedAt := op.observedAt, status := Active, supersedes := [old_.id]))
  }

  function Staled(view: seq<Record>, stale: Record -> bool): seq<Record> {
    if |view| == 0 then []
    else
      var r := view[|view| - 1];
      Staled(view[..|view| - 1], stale) + if r.status == Active && stale(r) then [r.(status := NeedsReview)] else []
  }

  /** What one call appends to the log; empty when it raises. */
  function Writes(env: Env, view: seq<Record>, op: Op): seq<Record> {
    match op
    case Learn(draft) =>
      var record := Drafted(env, draft);
      if Durable(record) then Resolution(env, view, record) else []
    case Update(target, _, _, _, _) =>
      var k := IndexOf(view, target);
      if k == |view| || view[k].status != Active then []
      else
        var new_ := Updated(env, view[k], op);
        if Durable(new_) then [new_, view[k].(status := Superseded)] else []
    case Delete(target) =>
      var k := IndexOf(view, target);
      if k == |view| then [] else [view[k].(status := Tombstone)]
    case RefreshFreshness(stale) => Staled(view, stale)
  }

  function Apply(env: Env, view: seq<Record>, op: Op): seq<Record> {
    Fold(view, Writes(env, view, op))
  }

  // ---- The object ----

  predicate AllDurable(records: seq<Record>) {
    forall r <- records :: Durable(r)
  }

  class MemoryStore {
    var log: seq<Record>
    const compactThreshold: nat
    const env: Env

    /** Nothing that fails validation was ever written. */
    ghost predicate Valid()
      reads this
    {
      AllDurable(log)
    }

    function View(): seq<Record>
      reads this
    {
      AllRecords(log)
    }

    constructor (threshold: nat, env: Env)
      ensures Valid() && View() == [] && this.env == env
    {
      log := [];
      this.env := env;
      compactThreshold := if threshold < 1 then 1 else threshold;
    }

    method CurrentRecords() returns (records: seq<Record>)
      ensures records == View()
    {
      records := [];
      for k := 0 to |log|
        invariant records == Fold([], log[..k])
      {
        assert log[..k + 1][..k] == log[..k];
        records := Upsert(records, log[k]);
      }
      assert log[..|log|] == log;
    }

    method Compact()
      requires Valid()
      modifies this`log
      ensures Valid() && View() == old(View())
      ensures log == old(View())
    {
      CompactionIsInvisible(log, []);
      ViewMembers([], log);
      log := CurrentRecords();
    }

    /** append and append_many: all or nothing, and compaction past the threshold does not show. */
    method AppendMany(records: seq<Record>) returns (ok: bool)
      requires Valid()
      modifies this`log
      ensures Valid()
      ensures ok <==> AllDurable(records)
      ensures View() == if ok then Fold(old(View()), records) else old(View())
      ensures ok && |records| > 0 ==> |log| <= compactThreshold || log == View()
    {
      if !AllDurable(records) {
        return false;
      }
      if |records| == 0 {
        return true;
      }
      FoldConcat([], log, records);
      log := log + records;
      if |log| > compactThreshold {
        Compact();
      }
      return true;
    }

    method AppendResolvingConflicts(draft: Record) returns (written: bool)
      requires Valid()
      modifies this`log
      ensures Valid() && View() == Apply(env, old(View()), Learn(draft))
    {
      FoldNothing(View());
      hide Fold, BestPeer;
      var view := CurrentRecords();
      ViewMembers([], log);
      var record := Drafted(env, draft);
      if !Durable(record) {
        return false;
      }
      var peer := BestPeer(env, view, record);
      if peer.None? {
        written := AppendMany([record]);
        return;
      }
      var old_ := view[peer.value];
      assert old_ in view;
      var oldRank, newRank := Rank(old_.trust), Rank(record.trust);
      var secondsApart := Abs(record.observedAt - old_.observedAt);
      if newRank == oldRank && secondsApart < HOUR && env.conflict(old_.text, record.text) {
        written := AppendMany([old_.(status := NeedsReview), record.(status := NeedsReview)]);
      } else if newRank > oldRank || (newRank == oldRank && record.observedAt > old_.observedAt) {
        written := AppendMany([Hashed(env, record.(supersedes := [old_.id])), old_.(status := Superseded)]);
      } else {
        written := AppendMany([record.(status := Superseded)]);
      }
    }

    method UpdateRecord(op: Op) returns (written: bool)
      requires Valid() && op.Update?
      modifies this`log
      ensures Valid() && View() == Apply(env, old(View()), op)
    {
      var view := CurrentRecords();
      ViewMembers([], log);
      var k := IndexOf(view, op.target);
      if k == |view| || view[k].status != Active {
        return false;
      }
      assert view[k] in view;
      written := AppendMany([Updated(env, view[k], op), view[k].(status := Superseded)]);
    }

    method DeleteRecord(target: string) returns (written: bool)
      requires Valid()
      modifies this`log
      ensures Valid() && View() == Apply(env, old(View()), Delete(target))
    {
      var view := CurrentRecords();
      ViewMembers([], log);
      var k := IndexOf(view, target);
      if k == |view| {
        return false;
      }
      assert view[k] in view;
      written := AppendMany([view[k].(status := Tombstone)]);
    }

    method Refresh(stale: Record -> bool)
      requires Valid()
      modifies this`log
      ensures Valid() && View() == Apply(env, old(View()), RefreshFreshness(stale))
    {
      hide Fold;
      var view := CurrentRecords();
      ViewMembers([], log);
      var marked := [];
      for k := 0 to |view|
        invariant marked == Staled(view[..k], stale)
        invariant AllDurable(marked)
      {
        assert view[..k + 1][..k] == view[..k] && view[k] in view;
        if view[k].status == Active && stale(view[k]) {
          marked := marked + [view[k].(status := NeedsReview)];
        }
      }
      assert view[..|view|] == view;
      var _ := AppendMany(marked);
    }
  }

  lemma FoldNothing(view: seq<Record>)
    ensures Fold(view, []) == view
  {
  }

  lemma {:induction false} ViewMembers(view: seq<Record>, log: seq<Record>)
    ensures forall r <- Fold(view, log) :: r in view || r in log
    ensures |Fold(view, log)| <= |view| + |log|
    decreases |log|
  {
    if |log| > 0 {
      var front := log[..|log| - 1];
      ViewMembers(view, front);
      assert forall r <- front :: r in log;
      assert log[|log| - 1] in log;
      forall r | r in Fold(view, log)
        ensures r in view || r in log
      {
        assert r in Fold(view, front) || r == log[|log| - 1];
      }
    }
  }
}
