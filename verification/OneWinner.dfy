/**
  One active winner per fact: what every run of the memory store keeps
  (moss/memory/store.py:237-293, 364-392).
*/
module OneWinner {
  import opened History
  import opened MemoryLog
  import opened MemoryStore

  // ---- The invariant ----

  ghost predicate OneActivePerKey(view: seq<Record>) {
    forall i, j :: 0 <= i < j < |view| && SameKey(view[i], view[j]) ==>
                     view[i].status != Active || view[j].status != Active
  }

  /** Every id a record supersedes belongs to an earlier record that is no longer active. */
  ghost predicate SupersedesEarlier(view: seq<Record>) {
    forall i, id :: 0 <= i < |view| && id in view[i].supersedes ==>
                      IndexOf(view, id) < i && view[IndexOf(view, id)].status != Active
  }

  /** Every id is the hash of its record's contents. */
  ghost predicate HashedView(env: Env, view: seq<Record>) {
    forall i :: 0 <= i < |view| ==> view[i].id == env.hash(Identity(view[i]))
  }

  ghost predicate InjectiveHash(env: Env) {
    forall a, b :: env.hash(Identity(a)) == env.hash(Identity(b)) ==> Identity(a) == Identity(b)
  }

  /** What holds whatever subjects are made of. */
  ghost predicate Base(env: Env, view: seq<Record>) {
    Distinct(view) && SupersedesEarlier(view) && HashedView(env, view)
  }

  ghost predicate CanonSubjects(env: Env, view: seq<Record>) {
    forall i :: 0 <= i < |view| ==> env.canon(view[i].subject) == view[i].subject
  }

  ghost predicate Inv(env: Env, view: seq<Record>) {
    Base(env, view) && OneActivePerKey(view) && CanonSubjects(env, view)
  }

  /** Records stay in place with their contents, are never reactivated, and tombstones stay tombstones. */
  ghost predicate Evolves(view: seq<Record>, view': seq<Record>) {
    && |view| <= |view'|
    && forall i :: 0 <= i < |view| ==>
                     && view'[i].id == view[i].id && Identity(view'[i]) == Identity(view[i])
                     && (view[i].status != Active ==> view'[i].status != Active)
                     && (view[i].status == Tombstone ==> view'[i].status == Tombstone)
  }

  lemma EvolvesReflexive(view: seq<Record>)
    ensures Evolves(view, view)
  {
  }

  lemma {:induction false} EvolvesTransitive(a: seq<Record>, b: seq<Record>, c: seq<Record>)
    requires Evolves(a, b) && Evolves(b, c)
    ensures Evolves(a, c)
  {
  }

  // ---- Two elementary changes ----

  lemma {:induction false} IndexIs(view: seq<Record>, k: nat)
    requires Distinct(view) && k < |view|
    ensures IndexOf(view, view[k].id) == k
  {
  }

  function WithStatus(view: seq<Record>, k: nat, status: Status): seq<Record>
    requires k < |view|
  {
    view[k := view[k].(status := status)]
  }

  lemma {:induction false} SameIndex(view: seq<Record>, view': seq<Record>, id: string)
    requires |view| <= |view'| && forall i :: 0 <= i < |view| ==> view'[i].id == view[i].id
    requires IndexOf(view, id) < |view|
    ensures IndexOf(view', id) == IndexOf(view, id)
  {
  }

  lemma FreshId(view: seq<Record>, id: string)
    requires IndexOf(view, id) == |view|
    ensures forall i :: 0 <= i < |view| ==> view[i].id != id
  {
  }

  lemma {:induction false} RetireLinks(view: seq<Record>, k: nat, status: Status)
    requires SupersedesEarlier(view) && k < |view| && status != Active
    ensures SupersedesEarlier(WithStatus(view, k, status))
  {
    hide IndexOf;
    var view' := WithStatus(view, k, status);
    forall i, id | 0 <= i < |view'| && id in view'[i].supersedes
      ensures IndexOf(view', id) < i && view'[IndexOf(view', id)].status != Active
    {
      assert id in view[i].supersedes;
      SameIndex(view, view', id);
    }
  }

  lemma {:induction false} Retire(env: Env, view: seq<Record>, k: nat, status: Status)
    requires Base(env, view) && k < |view| && status != Active
    requires view[k].status == Tombstone ==> status == Tombstone
    ensures Base(env, WithStatus(view, k, status)) && Evolves(view, WithStatus(view, k, status))
    ensures Upsert(view, view[k].(status := status)) == WithStatus(view, k, status)
    ensures OneActivePerKey(view) ==> OneActivePerKey(WithStatus(view, k, status))
  {
    hide IndexOf, SupersedesEarlier, OneActivePerKey;
    IndexIs(view, k);
    RetireLinks(view, k, status);
    RetireKeys(view, k, status);
  }

  lemma RetireKeys(view: seq<Record>, k: nat, status: Status)
    requires k < |view| && status != Active
    ensures OneActivePerKey(view) ==> OneActivePerKey(WithStatus(view, k, status))
  {
  }

  /** No active record holds the key of `r`. */
  ghost predicate KeyIsFree(view: seq<Record>, r: Record) {
    forall i :: 0 <= i < |view| && SameKey(view[i], r) ==> view[i].status != Active
  }

  lemma {:induction false} AdmitLinks(view: seq<Record>, r: Record)
    requires SupersedesEarlier(view)
    requires forall id <- r.supersedes :: IndexOf(view, id) < |view| && view[IndexOf(view, id)].status != Active
    ensures SupersedesEarlier(view + [r])
  {
    hide IndexOf;
    var view' := view + [r];
    forall i, id | 0 <= i < |view'| && id in view'[i].supersedes
      ensures IndexOf(view', id) < i && view'[IndexOf(view', id)].status != Active
    {
      SameIndex(view, view', id);
    }
  }

  lemma {:induction false} Admit(env: Env, view: seq<Record>, r: Record)
    requires Base(env, view) && IndexOf(view, r.id) == |view| && r.id == env.hash(Identity(r))
    requires forall id <- r.supersedes :: IndexOf(view, id) < |view| && view[IndexOf(view, id)].status != Active
    ensures Base(env, view + [r]) && Evolves(view, view + [r])
    ensures Upsert(view, r) == view + [r]
  {
    hide IndexOf, SupersedesEarlier;
    AdmitLinks(view, r);
    FreshId(view, r.id);
  }

  /** A new record keeps one winner per key exactly when it is inactive or its key is free. */
  lemma AdmitKeysIff(view: seq<Record>, r: Record)
    ensures OneActivePerKey(view + [r]) <==> OneActivePerKey(view) && (r.status == Active ==> KeyIsFree(view, r))
  {
    var view' := view + [r];
    if OneActivePerKey(view') {
      assert forall i :: 0 <= i < |view| ==> view'[i] == view[i];
      assert view'[|view|] == r;
    }
  }

  lemma FoldOne(view: seq<Record>, a: Record)
    ensures Fold(view, [a]) == Upsert(view, a)
  {
    assert [a][..0] == [];
    assert Fold(view, []) == view;
  }

  lemma FoldTwo(view: seq<Record>, a: Record, b: Record)
    ensures Fold(view, [a, b]) == Upsert(Upsert(view, a), b)
  {
    FoldOne(view, a);
    assert [a, b][..1] == [a];
  }

  lemma UpsertNew(view: seq<Record>, r: Record)
    requires IndexOf(view, r.id) == |view|
    ensures Upsert(view, r) == view + [r]
  {
  }

  lemma UpsertAt(view: seq<Record>, r: Record, k: nat, view': seq<Record>)
    requires k < |view| && |view'| == |view| && Distinct(view') && r.id == view[k].id
    requires forall i :: 0 <= i < |view| ==> view'[i].id == view[i].id
    requires view' == view[k := r]
    ensures Upsert(view, r) == view'
  {
    assert Distinct(view);
    IndexIs(view, k);
  }

  lemma {:induction false} StillFresh(view: seq<Record>, k: nat, status: Status, id: string)
    requires k < |view| && IndexOf(view, id) == |view|
    ensures IndexOf(WithStatus(view, k, status), id) == |view|
  {
    FreshId(view, id);
    assert forall i :: 0 <= i < |view| ==> WithStatus(view, k, status)[i].id == view[i].id;
  }

  lemma {:induction false} Replaced(view: seq<Record>, k: nat, status: Status, r: Record)
    requires Distinct(view) && IndexOf(view, r.id) == |view| && k < |view|
    ensures Fold(view, [view[k].(status := status), r]) == WithStatus(view, k, status) + [r]
    ensures Fold(view, [r, view[k].(status := status)]) == WithStatus(view, k, status) + [r]
  {
    hide Fold, Upsert, IndexOf;
    var old_, mid := view[k].(status := status), WithStatus(view, k, status);
    FoldTwo(view, old_, r);
    FoldTwo(view, r, old_);
    UpsertAt(view, old_, k, mid);
    StillFresh(view, k, status, r.id);
    UpsertNew(mid, r);
    UpsertNew(view, r);
    FreshId(view, r.id);
    UpsertAt(view + [r], old_, k, mid + [r]);
  }

  /** Retire record `k` and admit `r`, in either order of writing. */
  lemma {:induction false} RetireAndAdmit(env: Env, view: seq<Record>, k: nat, status: Status, r: Record)
    requires Base(env, view) && k < |view| && view[k].status == Active && status != Active
    requires IndexOf(view, r.id) == |view| && r.id == env.hash(Identity(r))
    requires r.supersedes == [] || r.supersedes == [view[k].id]
    ensures var old_ := view[k].(status := status);
            var view' := WithStatus(view, k, status) + [r];
            && Base(env, view') && Evolves(view, view')
            && Fold(view, [old_, r]) == view' && Fold(view, [r, old_]) == view'
  {
    hide Base, Fold, Upsert, IndexOf;
    var mid := WithStatus(view, k, status);
    BaseDistinct(env, view);
    Retire(env, view, k, status);
    BaseDistinct(env, mid);
    StillFresh(view, k, status, r.id);
    IndexIs(mid, k);
    assert mid[k].id == view[k].id;
    Admit(env, mid, r);
    EvolvesTransitive(view, mid, mid + [r]);
    Replaced(view, k, status, r);
  }

  lemma BaseDistinct(env: Env, view: seq<Record>)
    requires Base(env, view)
    ensures Distinct(view)
  {
  }

  /** The retired winner's key is free afterwards. */
  lemma {:induction false} KeyFreed(view: seq<Record>, k: nat, status: Status, r: Record)
    requires OneActivePerKey(view) && k < |view| && view[k].status == Active && status != Active
    requires SameKey(view[k], r)
    ensures KeyIsFree(WithStatus(view, k, status), r)
  {
    forall i | 0 <= i < |view| && SameKey(view[i], r)
      ensures WithStatus(view, k, status)[i].status != Active
    {
      assert i < k ==> SameKey(view[i], view[k]);
      assert i > k ==> SameKey(view[k], view[i]);
    }
  }

  // ---- New ids are fresh ----

  ghost predicate FreshTime(view: seq<Record>, at: int) {
    forall i :: 0 <= i < |view| ==> view[i].observedAt != at
  }

  /** A record observed at a new time has new contents, and so a new id. */
  lemma {:induction false} NewId(env: Env, view: seq<Record>, r: Record)
    requires InjectiveHash(env) && HashedView(env, view)
    requires FreshTime(view, r.observedAt) && r.id == env.hash(Identity(r))
    ensures IndexOf(view, r.id) == |view|
  {
    hide InjectiveHash;
    var k := IndexOf(view, r.id);
    if k < |view| {
      SameHash(env, view[k], r);
    }
  }

  lemma SameHash(env: Env, a: Record, b: Record)
    requires InjectiveHash(env)
    ensures env.hash(Identity(a)) == env.hash(Identity(b)) ==> a.observedAt == b.observedAt
  {
    assert Identity(a).observedAt == a.observedAt && Identity(b).observedAt == b.observedAt;
  }

  /** The id is that of the contents: status, dates of writing and the legacy mark do not count. */
  lemma {:induction false} SameIdIff(env: Env, a: Record, b: Record)
    requires InjectiveHash(env)
    ensures Hashed(env, a).id == Hashed(env, b).id <==>
            && a.scope == b.scope && a.scopeKey == b.scopeKey && a.topic == b.topic && a.subject == b.subject && a.text == b.text
            && a.trust == b.trust && a.hasSources == b.hasSources && a.observedAt == b.observedAt && a.supersedes == b.supersedes
  {
    var x, y := Identity(a), Identity(b);
    assert env.hash(x) == env.hash(y) ==> x == y;
  }

  /** When the operation writes a record, the time it is observed at. */
  function Time(op: Op): Option<int> {
    match op
    case Learn(draft) => Some(draft.observedAt)
    case Update(_, _, _, observedAt, _) => Some(observedAt)
    case _ => None
  }

  ghost predicate FreshOp(view: seq<Record>, op: Op) {
    Time(op).Some? ==> FreshTime(view, Time(op).value)
  }

  // ---- append_resolving_conflicts ----

  predicate Conflicts(env: Env, old_: Record, r: Record) {
    Rank(r.trust) == Rank(old_.trust) && Abs(r.observedAt - old_.observedAt) < HOUR && env.conflict(old_.text, r.text)
  }

  predicate Beats(old_: Record, r: Record) {
    Rank(r.trust) > Rank(old_.trust) || (Rank(r.trust) == Rank(old_.trust) && r.observedAt > old_.observedAt)
  }

  /** The view after learning. */
  function Learned(env: Env, view: seq<Record>, draft: Record): seq<Record> {
    var r := Drafted(env, draft);
    var best := BestPeer(env, view, r);
    if !Durable(r) then view
    else if best.None? then view + [r]
    else
      var k := best.value;
      if Conflicts(env, view[k], r) then WithStatus(view, k, NeedsReview) + [r.(status := NeedsReview)]
      else if Beats(view[k], r) then WithStatus(view, k, Superseded) + [Hashed(env, r.(supersedes := [view[k].id]))]
      else view + [r.(status := Superseded)]
  }

  lemma {:induction false} LearnApplies(env: Env, view: seq<Record>, draft: Record)
    requires InjectiveHash(env) && Base(env, view) && FreshTime(view, draft.observedAt)
    ensures Apply(env, view, Learn(draft)) == Learned(env, view, draft)
    ensures Base(env, Learned(env, view, draft)) && Evolves(view, Learned(env, view, draft))
  {
    hide InjectiveHash, Fold, Upsert, IndexOf, BestPeer, FreshTime, Base, Evolves;
    var r := Drafted(env, draft);
    var best := BestPeer(env, view, r);
    FoldNothing(view);
    EvolvesReflexive(view);
    RecordIsNew(env, view, r);
    if best.None? {
      AdmitAlone(env, view, r);
    } else if Conflicts(env, view[best.value], r) {
      RetireAndAdmit(env, view, best.value, NeedsReview, r.(status := NeedsReview));
    } else if Beats(view[best.value], r) {
      var winner := Hashed(env, r.(supersedes := [view[best.value].id]));
      RecordIsNew(env, view, winner);
      RetireAndAdmit(env, view, best.value, Superseded, winner);
    } else {
      AdmitAlone(env, view, r.(status := Superseded));
    }
  }

  lemma {:induction false} AdmitAlone(env: Env, view: seq<Record>, r: Record)
    requires Base(env, view) && IndexOf(view, r.id) == |view| && r.id == env.hash(Identity(r)) && r.supersedes == []
    ensures Base(env, view + [r]) && Evolves(view, view + [r]) && Fold(view, [r]) == view + [r]
  {
    hide Base, Evolves, Upsert, Fold;
    Admit(env, view, r);
    FoldOne(view, r);
  }

  lemma RecordIsNew(env: Env, view: seq<Record>, r: Record)
    requires InjectiveHash(env) && Base(env, view) && FreshTime(view, r.observedAt)
    requires r.id == env.hash(Identity(r))
    ensures IndexOf(view, r.id) == |view|
  {
    NewId(env, view, r);
  }

  // ---- The other operations ----

  lemma {:induction false} UpdateApplies(env: Env, view: seq<Record>, op: Op)
    requires InjectiveHash(env) && Base(env, view) && op.Update? && FreshTime(view, op.observedAt)
    ensures var k, view' := IndexOf(view, op.target), Apply(env, view, op);
            && Base(env, view') && Evolves(view, view')
            && view' == if k < |view| && view[k].status == Active && Durable(Updated(env, view[k], op))
                        then WithStatus(view, k, Superseded) + [Updated(env, view[k], op)] else view
  {
    hide InjectiveHash, Base, Fold, Upsert;
    FoldNothing(view);
    EvolvesReflexive(view);
    var k := IndexOf(view, op.target);
    if k < |view| && view[k].status == Active {
      hide IndexOf;
      RecordIsNew(env, view, Updated(env, view[k], op));
      RetireAndAdmit(env, view, k, Superseded, Updated(env, view[k], op));
    }
  }

  /** An update keeps its record's key, and so one winner per key. */
  lemma {:induction false} UpdateKeeps(env: Env, view: seq<Record>, op: Op)
    requires InjectiveHash(env) && Base(env, view) && op.Update? && FreshTime(view, op.observedAt)
    ensures OneActivePerKey(view) ==> OneActivePerKey(Apply(env, view, op))
    ensures CanonSubjects(env, view) ==> CanonSubjects(env, Apply(env, view, op))
  {
    hide InjectiveHash, Base, Apply;
    UpdateApplies(env, view, op);
    var k := IndexOf(view, op.target);
    if k < |view| && view[k].status == Active && OneActivePerKey(view) {
      var new_ := Updated(env, view[k], op);
      hide OneActivePerKey;
      assert SameKey(view[k], new_);
      KeyFreed(view, k, Superseded, new_);
      RetireKeys(view, k, Superseded);
      AdmitKeysIff(WithStatus(view, k, Superseded), new_);
    }
  }

  lemma {:induction false} DeleteKeeps(env: Env, view: seq<Record>, target: string)
    requires Base(env, view)
    ensures var view' := Apply(env, view, Delete(target));
            && Base(env, view') && Evolves(view, view') && |view'| == |view|
            && (OneActivePerKey(view) ==> OneActivePerKey(view'))
            && (CanonSubjects(env, view) ==> CanonSubjects(env, view'))
            && forall r <- view' :: r.id == target ==> r.status == Tombstone
  {
    hide Base, Fold, Upsert, OneActivePerKey;
    FoldNothing(view);
    EvolvesReflexive(view);
    var k := IndexOf(view, target);
    var view' := Apply(env, view, Delete(target));
    if k < |view| {
      hide IndexOf;
      Retire(env, view, k, Tombstone);
      FoldOne(view, view[k].(status := Tombstone));
      BaseDistinct(env, view');
      forall i | 0 <= i < |view'| && view'[i].id == target
        ensures view'[i].status == Tombstone
      {
        assert view'[k].id == target;
        assert i == k;
      }
    } else {
      FreshId(view, target);
    }
  }

  /** Freshness: the first `n` records examined, the rest untouched. */
  lemma {:induction false} StaledPrefix(env: Env, view: seq<Record>, stale: Record -> bool, n: nat)
    requires Base(env, view) && n <= |view|
    ensures var view' := Fold(view, Staled(view[..n], stale));
            && Base(env, view') && Evolves(view, view') && |view'| == |view|
            && (OneActivePerKey(view) ==> OneActivePerKey(view'))
            && forall j :: n <= j < |view| ==> view'[j] == view[j]
    decreases n
  {
    hide Base, Fold, Upsert, IndexOf, OneActivePerKey;
    if n == 0 {
      FoldNothing(view);
      EvolvesReflexive(view);
    } else {
      StaledPrefix(env, view, stale, n - 1);
      var r, before := view[n - 1], Staled(view[..n - 1], stale);
      var mid := Fold(view, before);
      assert view[..n][..n - 1] == view[..n - 1];
      if r.status == Active && stale(r) {
        Retire(env, mid, n - 1, NeedsReview);
        FoldConcat(view, before, [r.(status := NeedsReview)]);
        FoldOne(mid, r.(status := NeedsReview));
        EvolvesTransitive(view, mid, WithStatus(mid, n - 1, NeedsReview));
      } else {
        assert before + [] == before;
      }
    }
  }

  // ---- Every operation keeps the base, whatever canon does ----

  /** What is new behind the old records was observed at the time of the operation. */
  ghost predicate GrownBy(view: seq<Record>, view': seq<Record>, op: Op) {
    forall i :: |view| <= i < |view'| ==> Time(op) == Some(view'[i].observedAt)
  }

  lemma {:induction false} StepBase(env: Env, view: seq<Record>, op: Op)
    requires InjectiveHash(env) && Base(env, view) && FreshOp(view, op)
    ensures Base(env, Apply(env, view, op)) && Evolves(view, Apply(env, view, op)) && GrownBy(view, Apply(env, view, op), op)
  {
    hide InjectiveHash, Base, Apply, Evolves, FreshTime, IndexOf, BestPeer;
    match op
    case Learn(draft) => LearnApplies(env, view, draft);
    case Update(_, _, _, _, _) => UpdateApplies(env, view, op);
    case Delete(target) => DeleteKeeps(env, view, target);
    case RefreshFreshness(stale) => RefreshKeeps(env, view, stale);
  }

  lemma {:induction false} RefreshKeeps(env: Env, view: seq<Record>, stale: Record -> bool)
    requires Base(env, view)
    ensures var view' := Apply(env, view, RefreshFreshness(stale));
            && Base(env, view') && Evolves(view, view') && |view'| == |view|
            && (OneActivePerKey(view) ==> OneActivePerKey(view'))
            && (CanonSubjects(env, view) ==> CanonSubjects(env, view'))
  {
    hide Base, Fold, OneActivePerKey, Staled;
    StaledPrefix(env, view, stale, |view|);
    assert view[..|view|] == view;
  }

  function RunOps(env: Env, ops: seq<Op>): seq<Record> {
    if |ops| == 0 then [] else Apply(env, RunOps(env, ops[..|ops| - 1]), ops[|ops| - 1])
  }

  lemma RunUnfold(env: Env, ops: seq<Op>)
    requires |ops| > 0
    ensures RunOps(env, ops) == Apply(env, RunOps(env, ops[..|ops| - 1]), ops[|ops| - 1])
  {
  }

  /** No two operations observe at the same time. */
  ghost predicate DistinctTimes(ops: seq<Op>) {
    forall j, k :: 0 <= j < k < |ops| && Time(ops[j]).Some? ==> Time(ops[j]) != Time(ops[k])
  }

  ghost predicate TimesKnown(view: seq<Record>, ops: seq<Op>) {
    forall i :: 0 <= i < |view| ==> exists k :: 0 <= k < |ops| && Time(ops[k]) == Some(view[i].observedAt)
  }

  lemma NewTime(view: seq<Record>, ops: seq<Op>)
    requires |ops| > 0 && DistinctTimes(ops) && TimesKnown(view, ops[..|ops| - 1])
    ensures FreshOp(view, ops[|ops| - 1])
  {
    var front, op := ops[..|ops| - 1], ops[|ops| - 1];
    forall i | 0 <= i < |view| && Time(op).Some?
      ensures view[i].observedAt != Time(op).value
    {
      var k :| 0 <= k < |front| && Time(front[k]) == Some(view[i].observedAt);
      assert Time(ops[k]) != Time(ops[|ops| - 1]);
    }
  }

  lemma TimesGrow(view: seq<Record>, view': seq<Record>, ops: seq<Op>)
    requires |ops| > 0 && TimesKnown(view, ops[..|ops| - 1])
    requires Evolves(view, view') && GrownBy(view, view', ops[|ops| - 1])
    ensures TimesKnown(view', ops)
  {
    forall i | 0 <= i < |view'|
      ensures exists k :: 0 <= k < |ops| && Time(ops[k]) == Some(view'[i].observedAt)
    {
      if i < |view| {
        var k :| 0 <= k < |ops| - 1 && Time(ops[..|ops| - 1][k]) == Some(view[i].observedAt);
        assert Identity(view'[i]).observedAt == Identity(view[i]).observedAt;
        assert Time(ops[k]) == Some(view'[i].observedAt);
      } else {
        assert Time(ops[|ops| - 1]) == Some(view'[i].observedAt);
      }
    }
  }

  lemma EmptyRun(env: Env)
    ensures RunOps(env, []) == [] && Inv(env, []) && TimesKnown([], [])
  {
  }

  /** Distinct ids, content hashes and backward links to inactive records hold after every run. */
  lemma {:induction false} EveryRunKeepsBase(env: Env, ops: seq<Op>)
    requires InjectiveHash(env) && DistinctTimes(ops)
    ensures Base(env, RunOps(env, ops)) && TimesKnown(RunOps(env, ops), ops)
    decreases |ops|
  {
    hide InjectiveHash, Base, Apply, RunOps, DistinctTimes, TimesKnown, Evolves, GrownBy, FreshOp;
    if |ops| == 0 {
      EmptyRun(env);
      assert ops == [];
      BaseOfInv(env, []);
    } else {
      var front := ops[..|ops| - 1];
      DistinctPrefix(ops, |front|);
      EveryRunKeepsBase(env, front);
      NewTime(RunOps(env, front), ops);
      StepBase(env, RunOps(env, front), ops[|ops| - 1]);
      RunUnfold(env, ops);
      TimesGrow(RunOps(env, front), RunOps(env, ops), ops);
    }
  }

  lemma BaseOfInv(env: Env, view: seq<Record>)
    requires Inv(env, view)
    ensures Base(env, view)
  {
  }

  lemma DistinctPrefix(ops: seq<Op>, n: nat)
    requires DistinctTimes(ops) && n <= |ops|
    ensures DistinctTimes(ops[..n])
  {
  }

  /** Along any run, superseded ids stay inactive and a forgotten record is never recalled again. */
  lemma {:induction false} HistoryIsMonotone(env: Env, ops: seq<Op>, more: seq<Op>)
    requires InjectiveHash(env) && DistinctTimes(ops + more)
    ensures Evolves(RunOps(env, ops), RunOps(env, ops + more))
    decreases |more|
  {
    hide InjectiveHash, Base, Apply, Evolves, RunOps, DistinctTimes, TimesKnown, GrownBy, FreshOp;
    if |more| == 0 {
      assert ops + more == ops;
      EvolvesReflexive(RunOps(env, ops));
    } else {
      var all, front := ops + more, ops + more[..|more| - 1];
      assert all[..|all| - 1] == front;
      DistinctPrefix(all, |front|);
      HistoryIsMonotone(env, ops, more[..|more| - 1]);
      EveryRunKeepsBase(env, front);
      NewTime(RunOps(env, front), all);
      StepBase(env, RunOps(env, front), all[|all| - 1]);
      RunUnfold(env, all);
      EvolvesTransitive(RunOps(env, ops), RunOps(env, front), RunOps(env, all));
    }
  }

  // ---- When learning keeps one winner ----

  /** For every active record whose subject some text has, that record is the peer such a text resolves against. */
  ghost predicate LearnSafe(env: Env, view: seq<Record>) {
    forall i, t :: 0 <= i < |view| && view[i].status == Active && env.canon(t) == view[i].subject ==>
                     BestPeer(env, view, view[i]) == Some(i)
  }

  /** The peer depends on the key alone. */
  lemma {:induction false} PeerOfKey(env: Env, view: seq<Record>, a: Record, b: Record)
    requires SameKey(a, b)
    ensures BestPeer(env, view, a) == BestPeer(env, view, b)
    decreases |view|
  {
    if |view| > 0 {
      PeerOfKey(env, view[..|view| - 1], a, b);
    }
  }

  lemma {:induction false} SafeLearnKeeps(env: Env, view: seq<Record>, draft: Record)
    requires OneActivePerKey(view) && LearnSafe(env, view)
    ensures OneActivePerKey(Learned(env, view, draft))
  {
    hide BestPeer, OneActivePerKey, LearnSafe;
    var r := Drafted(env, draft);
    var best := BestPeer(env, view, r);
    if Durable(r) {
      OnlyPeerHoldsKey(env, view, r, draft.text);
      if best.None? {
        AdmitKeysIff(view, r);
      } else {
        var k := best.value;
        var winner := Hashed(env, r.(supersedes := [view[k].id]));
        RetireKeys(view, k, NeedsReview);
        RetireKeys(view, k, Superseded);
        AdmitKeysIff(WithStatus(view, k, NeedsReview), r.(status := NeedsReview));
        AdmitKeysIff(WithStatus(view, k, Superseded), winner);
        AdmitKeysIff(view, r.(status := Superseded));
      }
    }
  }

  /** In a safe view nobody but the best peer holds the key of what is learned. */
  lemma {:induction false} OnlyPeerHoldsKey(env: Env, view: seq<Record>, r: Record, t: Text)
    requires LearnSafe(env, view) && r.subject == env.canon(t)
    ensures forall i :: 0 <= i < |view| && SameKey(view[i], r) && view[i].status == Active ==> BestPeer(env, view, r) == Some(i)
  {
    hide BestPeer;
    forall i | 0 <= i < |view| && SameKey(view[i], r) && view[i].status == Active
      ensures BestPeer(env, view, r) == Some(i)
    {
      PeerOfKey(env, view, view[i], r);
      assert env.canon(t) == view[i].subject;
    }
  }

  function Latest(view: seq<Record>): (at: int)
    ensures forall i :: 0 <= i < |view| ==> view[i].observedAt <= at
  {
    if |view| == 0 then 0
    else
      var at := Latest(view[..|view| - 1]);
      if view[|view| - 1].observedAt > at then view[|view| - 1].observedAt else at
  }

  /** A user's statement of text `t` under the key of `like`, later than everything known. */
  function Statement(view: seq<Record>, like: Record, t: Text): Record {
    like.(text := t, trust := UserTrust, hasSources := true, observedAt := Latest(view) + HOUR)
  }

  lemma {:induction false} UnsafeLearnBreaks(env: Env, view: seq<Record>, i: nat, t: Text)
    requires i < |view| && view[i].status == Active && env.canon(t) == view[i].subject
    requires BestPeer(env, view, view[i]) != Some(i)
    ensures !OneActivePerKey(Learned(env, view, Statement(view, view[i], t)))
    ensures FreshTime(view, Statement(view, view[i], t).observedAt)
  {
    hide BestPeer, Latest;
    var draft := Statement(view, view[i], t);
    var r := Drafted(env, draft);
    assert SameKey(view[i], r);
    PeerOfKey(env, view, view[i], r);
    var best := BestPeer(env, view, r);
    var after := Learned(env, view, draft);
    if best.Some? {
      var k := best.value;
      assert Rank(r.trust) >= Rank(view[k].trust) && r.observedAt - view[k].observedAt >= HOUR;
      assert !Conflicts(env, view[k], r) && Beats(view[k], r);
      assert after[i] == view[i];
    }
    assert SameKey(after[i], after[|view|]) && after[i].status == Active && after[|view|].status == Active;
  }

  /**
    Learning keeps one winner per key in a given store, whatever is learned next, if and
    only if for every active record whose subject some text has, that record is the one
    such a text is resolved against.
  */
  lemma {:induction false} LearnKeepsIff(env: Env, view: seq<Record>)
    requires InjectiveHash(env) && Base(env, view) && OneActivePerKey(view)
    ensures (forall draft: Record :: FreshTime(view, draft.observedAt) ==> OneActivePerKey(Apply(env, view, Learn(draft))))
            <==> LearnSafe(env, view)
  {
    hide InjectiveHash, Base, OneActivePerKey, Apply, FreshTime, Learned, BestPeer, Statement;
    if LearnSafe(env, view) {
      forall draft: Record | FreshTime(view, draft.observedAt)
        ensures OneActivePerKey(Apply(env, view, Learn(draft)))
      {
        LearnApplies(env, view, draft);
        SafeLearnKeeps(env, view, draft);
      }
    } else {
      var i, t :| 0 <= i < |view| && view[i].status == Active && env.canon(t) == view[i].subject
                  && BestPeer(env, view, view[i]) != Some(i);
      UnsafeLearnBreaks(env, view, i, t);
      LearnApplies(env, view, Statement(view, view[i], t));
    }
  }

  /** One canon that fixes all stored subjects makes every store with one winner per key safe. */
  lemma {:induction false} CanonIsSafe(env: Env, view: seq<Record>)
    requires OneActivePerKey(view) && CanonSubjects(env, view)
    ensures LearnSafe(env, view)
  {
    hide BestPeer;
    forall i, t | 0 <= i < |view| && view[i].status == Active && env.canon(t) == view[i].subject
      ensures BestPeer(env, view, view[i]) == Some(i)
    {
      assert view[i] in view && IsPeer(env, view[i], view[i]);
      var k := BestPeer(env, view, view[i]).value;
      assert SameKey(view[k], view[i]) && SameKey(view[i], view[k]);
    }
  }

  /** The fact a draft states once its subject is canonical. */
  ghost predicate Stable(env: Env, text: Text) {
    env.canon(env.canon(text)) == env.canon(text)
  }

  lemma {:induction false} LearnKeeps(env: Env, view: seq<Record>, draft: Record)
    requires InjectiveHash(env) && Inv(env, view) && FreshTime(view, draft.observedAt) && Stable(env, draft.text)
    ensures Inv(env, Apply(env, view, Learn(draft)))
  {
    hide InjectiveHash, Base, OneActivePerKey, Apply, FreshTime, BestPeer, LearnSafe;
    LearnApplies(env, view, draft);
    CanonIsSafe(env, view);
    SafeLearnKeeps(env, view, draft);
  }

  lemma {:induction false} StepKeeps(env: Env, view: seq<Record>, op: Op)
    requires InjectiveHash(env) && Inv(env, view) && FreshOp(view, op) && (op.Learn? ==> Stable(env, op.draft.text))
    ensures Inv(env, Apply(env, view, op))
  {
    hide InjectiveHash, Base, OneActivePerKey, CanonSubjects, Apply, FreshTime;
    StepBase(env, view, op);
    match op
    case Learn(draft) => LearnKeeps(env, view, draft);
    case Update(_, _, _, _, _) => UpdateKeeps(env, view, op);
    case Delete(target) => DeleteKeeps(env, view, target);
    case RefreshFreshness(stale) => RefreshKeeps(env, view, stale);
  }

  // ---- One winner over all runs ----

  /** Both callers skip a text that an active record already has. */
  ghost predicate NotDuplicate(view: seq<Record>, text: Text) {
    forall i :: 0 <= i < |view| && view[i].status == Active ==> view[i].text != text
  }

  /** Observation times are distinct, and every learned text is admitted and no duplicate. */
  ghost predicate Admissible(env: Env, ops: seq<Op>, texts: Text -> bool) {
    && DistinctTimes(ops)
    && forall k :: 0 <= k < |ops| && ops[k].Learn? ==>
                     texts(ops[k].draft.text) && NotDuplicate(RunOps(env, ops[..k]), ops[k].draft.text)
  }

  lemma AdmissiblePrefix(env: Env, ops: seq<Op>, texts: Text -> bool, n: nat)
    requires Admissible(env, ops, texts) && n < |ops|
    ensures Admissible(env, ops[..n], texts) && DistinctTimes(ops)
    ensures ops[n].Learn? ==> texts(ops[n].draft.text)
  {
    assert forall k :: 0 <= k < n ==> ops[..n][..k] == ops[..k];
  }

  /** The invariant holds after every run whose learned texts have stable subjects. */
  lemma {:induction false} EveryRunKeepsInv(env: Env, ops: seq<Op>, texts: Text -> bool)
    requires InjectiveHash(env) && Admissible(env, ops, texts)
    requires forall t :: texts(t) ==> Stable(env, t)
    ensures Inv(env, RunOps(env, ops))
    decreases |ops|
  {
    hide InjectiveHash, Inv, Apply, Stable, RunOps, Admissible, DistinctTimes, TimesKnown, FreshOp;
    if |ops| == 0 {
      EmptyRun(env);
      assert ops == [];
    } else {
      var front, op := ops[..|ops| - 1], ops[|ops| - 1];
      AdmissiblePrefix(env, ops, texts, |front|);
      EveryRunKeepsInv(env, front, texts);
      DistinctPrefix(ops, |front|);
      EveryRunKeepsBase(env, front);
      NewTime(RunOps(env, front), ops);
      assert op.Learn? ==> texts(op.draft.text);
      StepKeeps(env, RunOps(env, front), op);
      RunUnfold(env, ops);
    }
  }

  lemma AdmittedAlone(env: Env, view: seq<Record>, draft: Record)
    requires InjectiveHash(env) && Base(env, view) && FreshTime(view, draft.observedAt)
    requires Durable(Drafted(env, draft))
    requires forall i :: 0 <= i < |view| ==> !IsPeer(env, view[i], Drafted(env, draft))
    ensures Apply(env, view, Learn(draft)) == view + [Drafted(env, draft)]
  {
    hide InjectiveHash, Base, Apply, BestPeer;
    LearnApplies(env, view, draft);
  }

  /**
    Learn a text with an unstable subject, reword it, learn the text again: the first
    record's successor and the new one are both active under the same subject.
  */
  lemma {:induction false} UnstableTextHasTwoWinners(env: Env, text: Text, texts: Text -> bool) returns (ops: seq<Op>)
    requires InjectiveHash(env) && !Stable(env, text) && texts(text)
    ensures Admissible(env, ops, texts) && !OneActivePerKey(RunOps(env, ops))
  {
    var first := Record("", "project", "", "topic", [], text, UserTrust, true, 0, 0, Active, [], false);
    var second := first.(observedAt := 2);
    var a, c := Drafted(env, first), Drafted(env, second);
    var reword := Update(a.id, text + ["x"], None, 1, 0);
    var b := Updated(env, a, reword);
    ops := [Learn(first), reword, Learn(second)];
    UnstableSteps(env, first, second, reword);
    RunOfThree(env, ops);
    hide Apply, InjectiveHash, RunOps, Hashed, OneActivePerKey, Admissible;
    EmptyRun(env);
    LongerText(text);
    AdmissibleThree(env, ops, texts);
    var last := RunOps(env, ops);
    assert last[1] == Updated(env, Drafted(env, first), reword) && last[2] == Drafted(env, second);
    RewordedKey(env, first, second, reword);
    TwoHolders(last, 1, 2);
  }

  lemma AdmissibleThree(env: Env, ops: seq<Op>, texts: Text -> bool)
    requires |ops| == 3 && ops[0].Learn? && ops[1].Update? && ops[2].Learn?
    requires Time(ops[0]) == Some(0) && Time(ops[1]) == Some(1) && Time(ops[2]) == Some(2)
    requires texts(ops[0].draft.text) && texts(ops[2].draft.text)
    requires NotDuplicate(RunOps(env, ops[..2]), ops[2].draft.text)
    ensures Admissible(env, ops, texts)
  {
    hide Apply;
    assert ops[..0] == [] && RunOps(env, []) == [];
  }

  lemma RewordedKey(env: Env, first: Record, second: Record, reword: Op)
    requires reword.Update? && second == first.(observedAt := second.observedAt)
    ensures var b, c := Updated(env, Drafted(env, first), reword), Drafted(env, second);
            SameKey(b, c) && b.status == c.status == Active && b.text == reword.text
  {
  }

  lemma LongerText(text: Text)
    ensures text + ["x"] != text
  {
    assert |text + ["x"]| != |text|;
  }

  lemma TwoHolders(view: seq<Record>, i: nat, j: nat)
    requires i < j < |view| && SameKey(view[i], view[j]) && view[i].status == view[j].status == Active
    ensures !OneActivePerKey(view)
  {
  }

  lemma UnstableSteps(env: Env, first: Record, second: Record, reword: Op)
    requires InjectiveHash(env) && !Stable(env, first.text) && Durable(Drafted(env, first))
    requires second == first.(observedAt := 2) && first.observedAt == 0
    requires reword.Update? && reword.target == Drafted(env, first).id && reword.trust.None? && reword.observedAt == 1
    ensures var a, c := Drafted(env, first), Drafted(env, second);
            var b := Updated(env, a, reword);
            && Apply(env, [], Learn(first)) == [a]
            && Apply(env, [a], reword) == [a.(status := Superseded), b]
            && Apply(env, [a.(status := Superseded), b], Learn(second)) == [a.(status := Superseded), b, c]
  {
    hide InjectiveHash, Apply, Base;
    var a, c := Drafted(env, first), Drafted(env, second);
    var two := [a.(status := Superseded), Updated(env, a, reword)];
    FirstLearned(env, first);
    Reworded(env, a, reword);
    AdmittedAlone(env, two, second);
    assert two + [c] == [two[0], two[1], c];
  }

  lemma FirstLearned(env: Env, draft: Record)
    requires InjectiveHash(env) && Durable(Drafted(env, draft))
    ensures Apply(env, [], Learn(draft)) == [Drafted(env, draft)] && Base(env, [Drafted(env, draft)])
  {
    EmptyRun(env);
    BaseOfInv(env, []);
    LearnApplies(env, [], draft);
    assert [] + [Drafted(env, draft)] == [Drafted(env, draft)];
  }

  lemma Reworded(env: Env, a: Record, op: Op)
    requires InjectiveHash(env) && Base(env, [a]) && a.status == Active && Durable(a)
    requires op.Update? && op.target == a.id && op.trust.None? && op.observedAt != a.observedAt
    ensures var two := [a.(status := Superseded), Updated(env, a, op)];
            Apply(env, [a], op) == two && Base(env, two)
  {
    hide InjectiveHash, Base, Apply;
    assert [a][0] == a;
    UpdateApplies(env, [a], op);
    assert WithStatus([a], 0, Superseded) + [Updated(env, a, op)] == [a.(status := Superseded), Updated(env, a, op)];
  }

  lemma RunOfThree(env: Env, ops: seq<Op>)
    requires |ops| == 3
    ensures RunOps(env, ops[..1]) == Apply(env, [], ops[0])
    ensures RunOps(env, ops[..2]) == Apply(env, RunOps(env, ops[..1]), ops[1])
    ensures RunOps(env, ops) == Apply(env, RunOps(env, ops[..2]), ops[2])
  {
    hide Apply;
    assert ops[..1][..0] == [] && ops[..2][..1] == ops[..1];
    assert RunOps(env, []) == [];
  }

  /**
    Main result: over all runs on admitted texts, duplicates skipped, there is one active
    record per (scope, scope key, topic, subject), exactly when subject_for is stable on them.
  */
  lemma {:induction false} OneWinnerIff(env: Env, texts: Text -> bool)
    requires InjectiveHash(env)
    ensures (forall ops :: Admissible(env, ops, texts) ==> OneActivePerKey(RunOps(env, ops)))
            <==> (forall t :: texts(t) ==> Stable(env, t))
  {
    hide InjectiveHash, Stable, Admissible, RunOps, OneActivePerKey;
    if t :| texts(t) && !Stable(env, t) {
      var ops := UnstableTextHasTwoWinners(env, t, texts);
    } else {
      forall ops | Admissible(env, ops, texts)
        ensures OneActivePerKey(RunOps(env, ops))
      {
        EveryRunKeepsInv(env, ops, texts);
        WinnersOfInv(env, RunOps(env, ops));
      }
    }
  }

  lemma WinnersOfInv(env: Env, view: seq<Record>)
    requires Inv(env, view)
    ensures OneActivePerKey(view)
  {
  }

  // ---- Aliases that change along a run ----

  /** A run in which operation k is resolved with the aliases of its own moment. */
  function RunAliased(env: Env, canons: seq<Text -> Text>, ops: seq<Op>): seq<Record>
    requires |canons| == |ops|
  {
    if |ops| == 0 then []
    else
      var last := |ops| - 1;
      Apply(env.(canon := canons[last]), RunAliased(env, canons[..last], ops[..last]), ops[last])
  }

  /** With aliases that stay the same it is an ordinary run. */
  lemma {:induction false} SameAliasesSameRun(env: Env, canons: seq<Text -> Text>, ops: seq<Op>)
    requires |canons| == |ops| && forall k :: 0 <= k < |ops| ==> canons[k] == env.canon
    ensures RunAliased(env, canons, ops) == RunOps(env, ops)
    decreases |ops|
  {
    if |ops| > 0 {
      hide Apply;
      SameAliasesSameRun(env, canons[..|ops| - 1], ops[..|ops| - 1]);
      assert env.(canon := env.canon) == env;
    }
  }

  /** One winner per key survives changing aliases as long as every store is safe when something is learned. */
  lemma {:induction false} AliasedRunKeepsOneWinner(env: Env, canons: seq<Text -> Text>, ops: seq<Op>)
    requires InjectiveHash(env) && |canons| == |ops| && DistinctTimes(ops)
    requires forall k :: 0 <= k < |ops| && ops[k].Learn? ==>
               LearnSafe(env.(canon := canons[k]), RunAliased(env, canons[..k], ops[..k]))
    ensures Base(env, RunAliased(env, canons, ops)) && OneActivePerKey(RunAliased(env, canons, ops))
    ensures TimesKnown(RunAliased(env, canons, ops), ops)
    decreases |ops|
  {
    hide InjectiveHash, Apply, OneActivePerKey, DistinctTimes, TimesKnown, LearnSafe, FreshOp, Evolves, GrownBy;
    if |ops| == 0 {
      EmptyRun(env);
      WinnersOfInv(env, []);
      assert ops == [];
    } else {
      var last := |ops| - 1;
      var front, op, now := ops[..last], ops[last], env.(canon := canons[last]);
      assert forall k :: 0 <= k < last ==> canons[..last][..k] == canons[..k] && front[..k] == ops[..k];
      DistinctPrefix(ops, last);
      AliasedRunKeepsOneWinner(env, canons[..last], front);
      var view := RunAliased(env, canons[..last], front);
      NewTime(view, ops);
      SameHashes(env, now);
      StepBase(now, view, op);
      SafeStepKeeps(now, view, op);
      TimesGrow(view, RunAliased(env, canons, ops), ops);
    }
  }

  lemma SameHashes(env: Env, now: Env)
    requires env.hash == now.hash
    ensures InjectiveHash(env) ==> InjectiveHash(now)
  {
  }

  lemma {:induction false} SafeStepKeeps(env: Env, view: seq<Record>, op: Op)
    requires InjectiveHash(env) && Base(env, view) && OneActivePerKey(view) && FreshOp(view, op)
    requires op.Learn? ==> LearnSafe(env, view)
    ensures OneActivePerKey(Apply(env, view, op))
  {
    hide InjectiveHash, Base, OneActivePerKey, CanonSubjects, Apply, FreshTime, LearnSafe, Learned;
    match op
    case Learn(draft) => LearnApplies(env, view, draft); SafeLearnKeeps(env, view, draft);
    case Update(_, _, _, _, _) => UpdateKeeps(env, view, op);
    case Delete(target) => DeleteKeeps(env, view, target);
    case RefreshFreshness(stale) => RefreshKeeps(env, view, stale);
  }

  /**
    An alias x = z written while x and z both have active records: the later one, on x, is
    the peer, so the record on z is never retired.  The store has one winner per key and is not safe.
  */
  lemma {:induction false} NewAliasIsUnsafe(env: Env, x: Record, z: Record)
    requires env.canon(x.subject) == env.canon(z.subject) == z.subject != x.subject
    requires x.status == z.status == Active && x.scope == z.scope && x.scopeKey == z.scopeKey && x.topic == z.topic
    requires x.observedAt > z.observedAt
    ensures OneActivePerKey([z, x]) && !LearnSafe(env, [z, x])
  {
    var view := [z, x];
    assert view[..1] == [z] && [z][..0] == [];
    assert IsPeer(env, z, z) && IsPeer(env, x, z) && Later(x, z);
    assert BestPeer(env, [z], z) == Some(0);
    assert BestPeer(env, view, z) == Some(1);
    assert view[0] == z && env.canon(z.subject) == view[0].subject;
  }

  // ---- supersedes chains ----

  /** Consecutive indexes are linked by `supersedes`. */
  ghost predicate Chain(view: seq<Record>, path: seq<nat>) {
    && |path| > 0
    && (forall n :: 0 <= n < |path| ==> path[n] < |view|)
    && forall n :: 0 <= n < |path| - 1 ==> view[path[n + 1]].id in view[path[n]].supersedes
  }

  lemma {:induction false} ChainDescends(env: Env, view: seq<Record>, path: seq<nat>)
    requires Base(env, view) && Chain(view, path) && |path| > 1
    ensures path[|path| - 1] < path[0]
    decreases |path|
  {
    var last := |path| - 1;
    IndexIs(view, path[last]);
    if last > 1 {
      ChainDescends(env, view, path[..last]);
    }
  }

  /** No record supersedes itself, directly or through others. */
  lemma {:induction false} SupersedesIsAcyclic(env: Env, view: seq<Record>, path: seq<nat>)
    requires Base(env, view) && Chain(view, path)
    ensures path[0] == path[|path| - 1] ==> |path| == 1
  {
    if |path| > 1 {
      ChainDescends(env, view, path);
    }
  }

  // ---- What each operation does, in plain values ----

  /** An active record about what the draft states. */
  predicate SameFact(env: Env, old_: Record, draft: Record) {
    && old_.status == Active && old_.scope == draft.scope && old_.scopeKey == draft.scopeKey && old_.topic == draft.topic
    && env.canon(old_.subject) == env.canon(draft.text)
  }

  /** `i` was observed last among the records about the draft's fact, then created last, then stored first. */
  ghost predicate LatestOnFact(env: Env, view: seq<Record>, draft: Record, i: nat) {
    && i < |view| && SameFact(env, view[i], draft)
    && forall j :: 0 <= j < |view| && j != i && SameFact(env, view[j], draft) ==>
         || view[j].observedAt < view[i].observedAt
         || (view[j].observedAt == view[i].observedAt &&
             (view[j].createdAt < view[i].createdAt || (view[j].createdAt == view[i].createdAt && i < j)))
  }

  lemma {:induction false} LatestIsBest(env: Env, view: seq<Record>, draft: Record, i: nat)
    requires LatestOnFact(env, view, draft, i)
    ensures BestPeer(env, view, Drafted(env, draft)) == Some(i)
    decreases |view|
  {
    var last := |view| - 1;
    if i < last {
      assert LatestOnFact(env, view[..last], draft, i);
      LatestIsBest(env, view[..last], draft, i);
    } else {
      hide BestPeer;
      var r := Drafted(env, draft);
      var best := BestPeer(env, view[..last], r);
      assert best.Some? ==> view[..last][best.value] == view[best.value] && SameFact(env, view[best.value], draft);
      assert BestPeer(env, view, r) == Some(i) by {
        LastIsBest(env, view, r);
      }
    }
  }

  lemma {:induction false} LastIsBest(env: Env, view: seq<Record>, r: Record)
    requires |view| > 0 && IsPeer(env, view[|view| - 1], r)
    requires var best := BestPeer(env, view[..|view| - 1], r);
             best.Some? ==> Later(view[|view| - 1], view[best.value])
    ensures BestPeer(env, view, r) == Some(|view| - 1)
  {
  }

  predicate MoreTrusted(a: Trust, b: Trust) {
    (a == UserTrust && b != UserTrust) || (a == ModelTrust && b == ToolTrust)
  }

  /** The stored record says what the draft said. */
  predicate Says(env: Env, r: Record, draft: Record) {
    && r.scope == draft.scope && r.scopeKey == draft.scopeKey && r.topic == draft.topic
    && r.subject == env.canon(draft.text) && r.text == draft.text && r.trust == draft.trust
    && r.hasSources == draft.hasSources && r.legacy == draft.legacy
    && r.createdAt == draft.createdAt && r.observedAt == draft.observedAt
    && r.id == env.hash(Identity(r))
  }

  /**
    Learning a durable fact about which the store already has one: two statements of equal
    trust within the hour that contradict each other both go to review; otherwise the more
    trusted one wins, whenever it was observed, and among equals the one observed later.
    No other record changes.
  */
  lemma {:induction false} LearnOutcome(env: Env, view: seq<Record>, draft: Record, i: nat)
    requires InjectiveHash(env) && Base(env, view) && FreshTime(view, draft.observedAt)
    requires draft.trust != ToolTrust && (draft.legacy || draft.hasSources)
    requires LatestOnFact(env, view, draft, i)
    ensures var view', old_ := Apply(env, view, Learn(draft)), view[i];
            var apart := draft.observedAt - old_.observedAt;
            && |view'| == |view| + 1 && (forall j :: 0 <= j < |view| && j != i ==> view'[j] == view[j])
            && Says(env, view'[|view|], draft)
            && if draft.trust == old_.trust && -3_600_000_000 < apart < 3_600_000_000 && env.conflict(old_.text, draft.text)
               then view'[i] == old_.(status := NeedsReview) && view'[|view|].status == NeedsReview && view'[|view|].supersedes == []
               else if MoreTrusted(draft.trust, old_.trust) || (draft.trust == old_.trust && apart > 0)
               then view'[i] == old_.(status := Superseded) && view'[|view|].status == Active && view'[|view|].supersedes == [old_.id]
               else view'[i] == old_ && view'[|view|].status == Superseded && view'[|view|].supersedes == []
  {
    hide InjectiveHash, Base, Apply, BestPeer, FreshTime, LatestOnFact;
    LearnApplies(env, view, draft);
    LatestIsBest(env, view, draft, i);
    assert i < |view| by { InView(env, view, draft, i); }
  }

  lemma InView(env: Env, view: seq<Record>, draft: Record, i: nat)
    requires LatestOnFact(env, view, draft, i)
    ensures i < |view|
  {
  }

  /** A durable fact the store has nothing about becomes active; anything else is refused and changes nothing. */
  lemma {:induction false} LearnAloneIff(env: Env, view: seq<Record>, draft: Record)
    requires InjectiveHash(env) && Base(env, view) && FreshTime(view, draft.observedAt)
    requires forall i :: 0 <= i < |view| ==> !SameFact(env, view[i], draft)
    ensures var view' := Apply(env, view, Learn(draft));
            if draft.trust != ToolTrust && (draft.legacy || draft.hasSources)
            then |view'| == |view| + 1 && view'[..|view|] == view && Says(env, view'[|view|], draft)
                 && view'[|view|].status == Active && view'[|view|].supersedes == []
            else view' == view
  {
    hide InjectiveHash, Base, Apply, BestPeer, FreshTime;
    LearnApplies(env, view, draft);
    var best := BestPeer(env, view, Drafted(env, draft));
    assert best.None?;
  }

  /** What a user said stays in force under everything a model or a tool says. */
  lemma {:induction false} LowerTrustNeverDisplaces(env: Env, view: seq<Record>, draft: Record, i: nat)
    requires InjectiveHash(env) && Base(env, view) && FreshTime(view, draft.observedAt)
    requires i < |view| && view[i].status == Active
    requires (view[i].trust == UserTrust && draft.trust != UserTrust) || (view[i].trust == ModelTrust && draft.trust == ToolTrust)
    ensures var view' := Apply(env, view, Learn(draft));
            i < |view'| && view'[i] == view[i]
  {
    hide InjectiveHash, Base, Apply, BestPeer;
    LearnApplies(env, view, draft);
  }

  /** An update replaces the text of an active record under its old key and retires the record, or changes nothing. */
  lemma {:induction false} UpdateOutcome(env: Env, view: seq<Record>, op: Op, i: nat)
    requires InjectiveHash(env) && Base(env, view) && op.Update? && FreshTime(view, op.observedAt)
    requires i < |view| && view[i].id == op.target
    ensures var view', old_ := Apply(env, view, op), view[i];
            var trust := if op.trust.Some? then op.trust.value else old_.trust;
            if old_.status == Active && trust != ToolTrust && (old_.legacy || old_.hasSources)
            then && |view'| == |view| + 1 && view'[i] == old_.(status := Superseded)
                 && (forall j :: 0 <= j < |view| && j != i ==> view'[j] == view[j])
                 && var new_ := view'[|view|];
                    && new_.id == env.hash(Identity(new_)) && new_.supersedes == [old_.id] && new_.status == Active
                    && new_.scope == old_.scope && new_.scopeKey == old_.scopeKey && new_.topic == old_.topic
                    && new_.subject == old_.subject && new_.text == op.text && new_.trust == trust
                    && new_.hasSources == old_.hasSources && new_.legacy == old_.legacy
                    && new_.createdAt == op.createdAt && new_.observedAt == op.observedAt
            else view' == view
  {
    hide InjectiveHash, Base, Apply, FreshTime;
    UpdateApplies(env, view, op);
    BaseDistinct(env, view);
    IndexIs(view, i);
  }

  /** The freshness pass sends exactly the stale active records to review; the others stay as they are. */
  lemma {:induction false} RefreshOutcome(env: Env, view: seq<Record>, stale: Record -> bool, i: nat)
    requires Base(env, view) && i < |view|
    ensures var view' := Apply(env, view, RefreshFreshness(stale));
            |view'| == |view| &&
            view'[i] == if view[i].status == Active && stale(view[i]) then view[i].(status := NeedsReview) else view[i]
  {
    hide Fold, Staled;
    StaledRecords(env, view, stale, |view|);
    assert view[..|view|] == view;
  }

  lemma {:induction false} StaledRecords(env: Env, view: seq<Record>, stale: Record -> bool, n: nat)
    requires Base(env, view) && n <= |view|
    ensures var view' := Fold(view, Staled(view[..n], stale));
            |view'| == |view| && forall i :: 0 <= i < n ==>
              view'[i] == if view[i].status == Active && stale(view[i]) then view[i].(status := NeedsReview) else view[i]
    decreases n
  {
    hide Base, Fold, Staled, Evolves;
    StaledPrefix(env, view, stale, n);
    if n > 0 {
      StaledRecords(env, view, stale, n - 1);
      StaledStep(env, view, stale, n);
    }
  }

  lemma {:induction false} StaledStep(env: Env, view: seq<Record>, stale: Record -> bool, n: nat)
    requires Base(env, view) && 0 < n <= |view|
    ensures var r, mid := view[n - 1], Fold(view, Staled(view[..n - 1], stale));
            && |mid| == |view| && mid[n - 1] == r
            && Fold(view, Staled(view[..n], stale))
               == if r.status == Active && stale(r) then WithStatus(mid, n - 1, NeedsReview) else mid
  {
    hide Base, Fold, Upsert, IndexOf, Evolves;
    StaledPrefix(env, view, stale, n - 1);
    var r, before := view[n - 1], Staled(view[..n - 1], stale);
    assert view[..n][..n - 1] == view[..n - 1];
    if r.status == Active && stale(r) {
      Retire(env, Fold(view, before), n - 1, NeedsReview);
      FoldConcat(view, before, [r.(status := NeedsReview)]);
      FoldOne(Fold(view, before), r.(status := NeedsReview));
    } else {
      assert before + [] == before;
    }
  }

  // ---- subject_for itself ----

  predicate NoStopWords(words: Text) {
    forall w <- words :: w !in STOP_WORDS
  }

  lemma {:induction false} DropStopWordsSound(words: Text)
    ensures NoStopWords(DropStopWords(words))
    ensures NoStopWords(words) ==> DropStopWords(words) == words
    decreases |words|
  {
    if |words| > 0 {
      var front := words[..|words| - 1];
      DropStopWordsSound(front);
      assert words[|words| - 1] in words && forall w <- front :: w in words;
      assert front + [words[|words| - 1]] == words;
    }
  }

  lemma {:induction false} NormalForm(words: Text)
    ensures NoStopWords(Normalize(words)) && |Normalize(words)| <= SUBJECT_WORDS
    ensures NoStopWords(words) && |words| <= SUBJECT_WORDS ==> Normalize(words) == words
  {
    DropStopWordsSound(words);
    var kept := DropStopWords(words);
    assert forall w <- Normalize(words) :: w in kept;
  }

  lemma {:induction false} SubjectIsNormal(words: Text, patterns: seq<set<string>>)
    ensures var s := SubjectWith(words, patterns); NoStopWords(s) && |s| <= SUBJECT_WORDS
    decreases |patterns|
  {
    hide Normalize, NoStopWords;
    if |patterns| == 0 {
      NormalForm(words);
    } else {
      var i := VerbAt(words, patterns[0], 1);
      if i < |words| { NormalForm(words[..i]); } else { SubjectIsNormal(words, patterns[1..]); }
    }
  }

  /** A verb of `patterns` strictly inside `words`. */
  predicate HasInnerVerb(words: Text, patterns: seq<set<string>>) {
    exists k, p :: 1 <= k < |words| - 1 && 0 <= p < |patterns| && words[k] in patterns[p]
  }

  lemma {:induction false} SubjectOfNormal(words: Text, patterns: seq<set<string>>)
    requires NoStopWords(words) && |words| <= SUBJECT_WORDS
    ensures SubjectWith(words, patterns) == words <==> !HasInnerVerb(words, patterns)
    decreases |patterns|
  {
    if |patterns| == 0 {
      NormalForm(words);
    } else {
      var i := VerbAt(words, patterns[0], 1);
      if i < |words| {
        assert forall w <- words[..i] :: w in words;
        NormalForm(words[..i]);
        assert HasInnerVerb(words, patterns);
      } else {
        SubjectOfNormal(words, patterns[1..]);
        assert forall p :: 0 < p < |patterns| ==> patterns[p] == patterns[1..][p - 1];
        if HasInnerVerb(words, patterns) {
          var k, p :| 1 <= k < |words| - 1 && 0 <= p < |patterns| && words[k] in patterns[p];
          assert p > 0 && words[k] in patterns[1..][p - 1];
        }
      }
    }
  }

  /** A subject has at most six words, none of them a stop word. */
  lemma {:induction false} SubjectReads(text: Text)
    ensures var s := SubjectFor(text);
            |s| <= 6 && forall w <- s ::
              w != "a" && w != "an" && w != "the" && w != "is" && w != "are" && w != "be" && w != "to"
  {
    hide SubjectWith;
    SubjectIsNormal(text, PATTERNS);
  }

  /**
    subject_for is stable on a text exactly when its subject has none of the other pattern
    verbs strictly inside; "is" and "are" are never in a subject.
  */
  lemma {:induction false} SubjectForStableIff(env: Env, text: Text)
    requires env.canon == SubjectFor
    ensures var s := SubjectFor(text);
            Stable(env, text) <==>
            !exists k :: 1 <= k < |s| - 1 && (s[k] == "use" || s[k] == "uses" || s[k] == "should")
  {
    hide SubjectWith;
    var s := SubjectFor(text);
    SubjectIsNormal(text, PATTERNS);
    SubjectOfNormal(s, PATTERNS);
    assert PATTERNS[2] == {"use", "uses"} && PATTERNS[3] == {"should"};
    forall k | 1 <= k < |s| - 1
      ensures (exists p :: 0 <= p < |PATTERNS| && s[k] in PATTERNS[p]) <==>
              s[k] == "use" || s[k] == "uses" || s[k] == "should"
    {
      assert s[k] in s;
      assert s[k] in PATTERNS[2] <==> s[k] == "use" || s[k] == "uses";
      assert s[k] in PATTERNS[3] <==> s[k] == "should";
    }
  }

  lemma {:induction false} FirstIs(text: Text)
    requires |text| == 5 && text[3] == "is" && text[1] != "is" && text[2] != "is"
    ensures VerbAt(text, {"is"}, 1) == 3
  {
  }

  lemma {:induction false} SplitAtIs(text: Text)
    requires VerbAt(text, {"is"}, 1) == 3 < |text|
    ensures SubjectFor(text) == Normalize(text[..3])
  {
    hide VerbAt, Normalize;
    assert PATTERNS[0] == {"is"};
  }

  /** "team uses docker is good" has the subject "team uses docker", whose own subject is "team". */
  lemma {:induction false} TeamUsesDockerIsUnstable(env: Env)
    requires env.canon == SubjectFor
    ensures SubjectFor(["team", "uses", "docker", "is", "good"]) == ["team", "uses", "docker"]
    ensures !Stable(env, ["team", "uses", "docker", "is", "good"])
  {
    hide VerbAt, SubjectFor, Normalize, Stable;
    var text := ["team", "uses", "docker", "is", "good"];
    var subject := ["team", "uses", "docker"];
    FirstIs(text);
    SplitAtIs(text);
    assert text[..3] == subject;
    NormalForm(subject);
    SubjectForStableIff(env, text);
    assert HasInnerVerb(subject, PATTERNS) by {
      assert subject[1] in PATTERNS[2];
    }
  }

  /** Two facts about docker, neither a repetition of the other, are both winners for "team uses docker". */
  lemma {:induction false} DockerHasTwoWinners(env: Env) returns (ops: seq<Op>)
    requires env.canon == SubjectFor && InjectiveHash(env)
    ensures Admissible(env, ops, text => true)
    ensures forall op <- ops :: op.Learn? && SubjectFor(op.draft.text) == ["team", "uses", "docker"]
    ensures !OneActivePerKey(RunOps(env, ops))
  {
    hide VerbAt, SubjectFor, Normalize, Stable, InjectiveHash, Apply, Base;
    var good, slow := ["team", "uses", "docker", "is", "good"], ["team", "uses", "docker", "is", "slow"];
    var first := Record("", "project", "", "topic", [], good, UserTrust, true, 0, 0, Active, [], false);
    var second := first.(text := slow, observedAt := 1);
    TeamUsesDockerIsUnstable(env);
    FirstIs(slow);
    SplitAtIs(slow);
    assert slow[..3] == ["team", "uses", "docker"];
    NormalForm(slow[..3]);
    NotItsOwnPeer(env, good);
    var a, b := Drafted(env, first), Drafted(env, second);
    FirstLearned(env, first);
    AdmittedAlone(env, [a], second);
    ops := [Learn(first), Learn(second)];
    EmptyRun(env);
    assert ops[..0] == [] && ops[..1] == [ops[0]] && [ops[0]][..0] == [];
    assert RunOps(env, ops[..1]) == [a];
    assert RunOps(env, ops) == [a] + [b];
    assert good[4] != slow[4];
    assert SameKey(([a] + [b])[0], ([a] + [b])[1]);
  }

  lemma NotItsOwnPeer(env: Env, text: Text)
    requires !Stable(env, text)
    ensures env.canon(env.canon(text)) != env.canon(text)
  {
  }
}
