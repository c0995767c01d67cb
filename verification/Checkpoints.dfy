/**
  The checkpoint forest of a session: create, prune, rewind and fork
  (moss/runs/checkpoint.py, moss/runs/rewind.py).

  An insertion-ordered dict is a sequence without repeated ids.  "" is the absent parent.
*/
module Checkpoints {
  import opened History

  const CHECKPOINT_HISTORY_LIMIT: nat := 40

  datatype Checkpoint = Checkpoint(id: string, parent: string, historyLength: nat)

  datatype State = State(items: seq<Checkpoint>, currentId: string)

  function IndexOf(items: seq<Checkpoint>, id: string): (k: nat)
    ensures k <= |items|
    ensures k < |items| ==> items[k].id == id
    ensures forall j :: 0 <= j < k ==> items[j].id != id
  {
    if |items| == 0 || items[0].id == id then 0 else 1 + IndexOf(items[1..], id)
  }

  predicate Has(items: seq<Checkpoint>, id: string) {
    IndexOf(items, id) < |items|
  }

  predicate DistinctIds(items: seq<Checkpoint>) {
    && (forall i, j :: 0 <= i < j < |items| ==> items[i].id != items[j].id)
    && forall i :: 0 <= i < |items| ==> items[i].id != ""
  }

  /** Every parent is absent or was inserted earlier. */
  ghost predicate Forest(items: seq<Checkpoint>) {
    forall i, j :: 0 <= i < |items| && 0 <= j < |items| && items[j].id == items[i].parent ==> j < i
  }

  /** A fresh id: neither stored nor remembered as a parent. */
  ghost predicate Unused(s: State, id: string) {
    id != "" && !Has(s.items, id) && id != s.currentId && forall c <- s.items :: c.parent != id
  }

  ghost predicate Valid(s: State) {
    && DistinctIds(s.items) && Forest(s.items)
    && if s.items == [] then s.currentId == "" else Has(s.items, s.currentId)
  }

  // ---- Operations ----

  /** create_checkpoint before pruning: the current checkpoint, if it is still there, becomes the parent. */
  function Extended(s: State, id: string, historyLength: nat): State {
    var parent := if Has(s.items, s.currentId) then s.currentId else "";
    State(s.items + [Checkpoint(id, parent, historyLength)], id)
  }

  /** items[-limit:], which for a limit of 0 is all of them. */
  function Newest(items: seq<Checkpoint>, limit: nat): seq<Checkpoint> {
    if limit == 0 || |items| <= limit then items else items[|items| - limit..]
  }

  function Pruned(s: State, limit: nat): State {
    if |s.items| <= limit then s
    else
      var kept := Newest(s.items, limit);
      if s.currentId == "" || Has(kept, s.currentId) || !Has(s.items, s.currentId) then s.(items := kept)
      else s.(items := kept + [s.items[IndexOf(s.items, s.currentId)]])
  }

  function Created(s: State, id: string, historyLength: nat): State {
    Pruned(Extended(s, id, historyLength), CHECKPOINT_HISTORY_LIMIT)
  }

  /** _rewind_session: back to an existing checkpoint, dropping everything inserted after it. */
  function Rewound(s: State, id: string): State {
    if Has(s.items, id) then State(s.items[..IndexOf(s.items, id) + 1], id) else s
  }

  // ---- The ancestor chain ----

  function Rank(items: seq<Checkpoint>, id: string): nat {
    if Has(items, id) then IndexOf(items, id) + 1 else 0
  }

  /** The checkpoint and its ancestors that are still stored, nearest first. */
  function Ancestry(items: seq<Checkpoint>, id: string): seq<Checkpoint>
    requires DistinctIds(items) && Forest(items)
    decreases Rank(items, id)
  {
    if id == "" || !Has(items, id) then []
    else [items[IndexOf(items, id)]] + Ancestry(items, items[IndexOf(items, id)].parent)
  }

  function Reversed(cs: seq<Checkpoint>): seq<Checkpoint> {
    if |cs| == 0 then [] else Reversed(cs[1..]) + [cs[0]]
  }

  /** fork_session: the chain from the root to the fork, in that order. */
  function Forked(s: State, id: string): State
    requires Valid(s) && Has(s.items, id)
  {
    State(Reversed(Ancestry(s.items, id)), id)
  }

  class Session {
    var state: State
    var historyLength: nat

    constructor ()
      ensures Valid(state) && state == State([], "")
    {
      state, historyLength := State([], ""), 0;
    }

    method CreateCheckpoint(id: string)
      requires Valid(state) && Unused(state, id)
      modifies this`state
      ensures state == Created(old(state), id, historyLength)
      ensures Valid(state) && state.currentId == id && |state.items| <= CHECKPOINT_HISTORY_LIMIT
    {
      CreateKeepsForest(state, id, historyLength);
      var parent := if Has(state.items, state.currentId) then state.currentId else "";
      state := state.(items := state.items + [Checkpoint(id, parent, historyLength)]);
      state := state.(currentId := id);
      PruneCheckpoints(CHECKPOINT_HISTORY_LIMIT);
    }

    method PruneCheckpoints(limit: nat)
      modifies this`state
      ensures state == Pruned(old(state), limit)
    {
      if |state.items| <= limit {
        return;
      }
      var kept := if limit == 0 then state.items else state.items[|state.items| - limit..];
      var k := IndexOf(state.items, state.currentId);
      if state.currentId != "" && !Has(kept, state.currentId) && k < |state.items| {
        kept := kept + [state.items[k]];
      }
      state := state.(items := kept);
    }

    /** The ancestor walk of fork_session; the order of insertion makes it end. */
    method ForkSession(id: string) returns (forked: Option<State>, keep: nat)
      requires Valid(state)
      ensures forked.None? <==> !Has(state.items, id)
      ensures forked.Some? ==> Has(state.items, id) && forked.value == Forked(state, id) && Valid(forked.value)
      ensures forked.Some? ==> keep == state.items[IndexOf(state.items, id)].historyLength
    {
      if !Has(state.items, id) {
        return None, 0;
      }
      keep := state.items[IndexOf(state.items, id)].historyLength;
      var ancestry: seq<Checkpoint> := [];
      var cursor := id;
      while cursor != "" && Has(state.items, cursor)
        invariant ancestry + Ancestry(state.items, cursor) == Ancestry(state.items, id)
        decreases Rank(state.items, cursor)
      {
        var c := state.items[IndexOf(state.items, cursor)];
        AncestryStep(state.items, cursor);
        assert ancestry + ([c] + Ancestry(state.items, c.parent)) == ancestry + [c] + Ancestry(state.items, c.parent);
        ancestry := ancestry + [c];
        cursor := c.parent;
      }
      assert ancestry + [] == ancestry;
      ForkIsRootToFork(state, id);
      return Some(State(Reversed(ancestry), id)), keep;
    }
  }

  lemma AncestryStep(items: seq<Checkpoint>, id: string)
    requires DistinctIds(items) && Forest(items) && id != "" && Has(items, id)
    ensures var c := items[IndexOf(items, id)];
            Ancestry(items, id) == [c] + Ancestry(items, c.parent)
            && Rank(items, c.parent) < Rank(items, id)
  {
  }

  // ---- The forest survives every operation ----

  lemma {:induction false} IndexIs(items: seq<Checkpoint>, k: nat)
    requires DistinctIds(items) && k < |items|
    ensures IndexOf(items, items[k].id) == k
  {
  }

  lemma {:induction false} SliceKeepsForest(items: seq<Checkpoint>, lo: nat, hi: nat)
    requires DistinctIds(items) && Forest(items) && lo <= hi <= |items|
    ensures DistinctIds(items[lo..hi]) && Forest(items[lo..hi])
  {
    var slice := items[lo..hi];
    forall i, j | 0 <= i < |slice| && 0 <= j < |slice| && slice[j].id == slice[i].parent
      ensures j < i
    {
      assert items[lo + j].id == items[lo + i].parent;
    }
  }

  lemma {:induction false} ExtendKeepsForest(s: State, id: string, historyLength: nat)
    requires Valid(s) && Unused(s, id)
    ensures DistinctIds(Extended(s, id, historyLength).items) && Forest(Extended(s, id, historyLength).items)
  {
    hide IndexOf;
    var e := Extended(s, id, historyLength).items;
    NotStored(s.items, id);
    forall i, j | 0 <= i < |e| && 0 <= j < |e| && e[j].id == e[i].parent
      ensures j < i
    {
      assert i < |s.items| ==> s.items[i] in s.items;
    }
  }

  lemma NotStored(items: seq<Checkpoint>, id: string)
    requires !Has(items, id)
    ensures forall i :: 0 <= i < |items| ==> items[i].id != id
  {
  }

  /** After a create the new checkpoint is current, stored, last, and a child of the former current one. */
  lemma {:induction false} CreateKeepsForest(s: State, id: string, historyLength: nat)
    requires Valid(s) && Unused(s, id)
    ensures var s' := Created(s, id, historyLength);
            && Valid(s') && s'.currentId == id && 0 < |s'.items| <= CHECKPOINT_HISTORY_LIMIT
            && s'.items[|s'.items| - 1] == Checkpoint(id, s.currentId, historyLength)
  {
    hide IndexOf, Has, Forest, DistinctIds, Unused;
    ExtendKeepsForest(s, id, historyLength);
    CurrentIsParent(s);
    LastSurvivesPrune(Extended(s, id, historyLength), CHECKPOINT_HISTORY_LIMIT);
  }

  /** A create keeps all earlier checkpoints, or the 39 newest of them. */
  lemma {:induction false} CreateKeepsNewest(s: State, id: string, historyLength: nat)
    requires Valid(s) && Unused(s, id)
    ensures var kept := Created(s, id, historyLength).items;
            && |kept| == (if |s.items| < 40 then |s.items| + 1 else 40)
            && forall k :: 0 <= k < |kept| - 1 ==> kept[k] == s.items[|s.items| + 1 - |kept| + k]
  {
    var extended := Extended(s, id, historyLength);
    var newest := Newest(extended.items, 40);
    assert newest[|newest| - 1].id == id;
  }

  lemma CurrentIsParent(s: State)
    requires Valid(s)
    ensures (if Has(s.items, s.currentId) then s.currentId else "") == s.currentId
  {
  }

  /** Pruning never drops a current checkpoint that was inserted last. */
  lemma {:induction false} LastSurvivesPrune(s: State, limit: nat)
    requires DistinctIds(s.items) && Forest(s.items) && limit > 0
    requires |s.items| > 0 && s.items[|s.items| - 1].id == s.currentId
    ensures var s' := Pruned(s, limit);
            && Valid(s') && s'.currentId == s.currentId && 0 < |s'.items| <= limit
            && s'.items[|s'.items| - 1] == s.items[|s.items| - 1]
  {
    hide IndexOf, Forest;
    var lo := if |s.items| > limit then |s.items| - limit else 0;
    SliceKeepsForest(s.items, lo, |s.items|);
    var kept := s.items[lo..];
    assert kept == s.items[lo..|s.items|] && kept[|kept| - 1].id == s.currentId;
    IndexIs(kept, |kept| - 1);
  }

  /**
    Pruning an arbitrary session keeps the forest exactly when the current checkpoint is
    among the newest, or none of those is its child: otherwise it is put back behind its children.
  */
  lemma {:induction false} PruneKeepsForestIff(s: State, limit: nat)
    requires Valid(s)
    ensures Forest(Pruned(s, limit).items) <==>
            Has(Newest(s.items, limit), s.currentId) || forall c <- Newest(s.items, limit) :: c.parent != s.currentId || c.parent == ""
    ensures s.items != [] ==> Has(Pruned(s, limit).items, s.currentId)
    ensures limit > 0 ==> |Pruned(s, limit).items| <= limit + 1
    ensures limit == 0 ==> Pruned(s, limit) == s
  {
    hide IndexOf;
    var kept, items := Newest(s.items, limit), Pruned(s, limit).items;
    var lo := if limit == 0 || |s.items| <= limit then 0 else |s.items| - limit;
    SliceKeepsForest(s.items, lo, |s.items|);
    assert s.items[lo..|s.items|] == kept;
    if !Has(kept, s.currentId) && s.items != [] {
      PutBack(s, kept, lo);
    }
  }

  lemma {:induction false} PutBack(s: State, kept: seq<Checkpoint>, lo: nat)
    requires Valid(s) && s.items != [] && lo <= |s.items| && kept == s.items[lo..] && !Has(kept, s.currentId)
    requires Forest(kept)
    ensures var back := kept + [s.items[IndexOf(s.items, s.currentId)]];
            && Has(back, s.currentId)
            && (Forest(back) <==> forall c <- kept :: c.parent != s.currentId || c.parent == "")
  {
    hide IndexOf;
    var k := IndexOf(s.items, s.currentId);
    var current := s.items[k];
    var back := kept + [current];
    assert current.id == s.currentId && current.id != "";
    NotStored(kept, s.currentId);
    Found(back, |kept|);
    assert k < lo;
    if c :| c in kept && c.parent == s.currentId {
      var i :| 0 <= i < |kept| && kept[i] == c;
      assert back[i].parent == back[|kept|].id;
    } else {
      assert current.id != current.parent;
      assert forall i :: 0 <= i < |kept| ==> kept[i] in kept && kept[i].parent != s.currentId;
      forall i, j | 0 <= i < |back| && 0 <= j < |back| && back[j].id == back[i].parent
        ensures j < i
      {
        if i == |kept| && j < |kept| {
          assert s.items[lo + j].id == s.items[k].parent;
        }
      }
    }
  }

  lemma Found(items: seq<Checkpoint>, k: nat)
    requires k < |items|
    ensures Has(items, items[k].id)
  {
  }

  /** A prune keeps the newest `limit` checkpoints in their order, and behind them the current one if it is older. */
  lemma {:induction false} PruneKeepsNewest(s: State, limit: nat)
    requires Valid(s) && 0 < limit < |s.items|
    ensures var kept, newest := Pruned(s, limit).items, s.items[|s.items| - limit..];
            && newest <= kept && Pruned(s, limit).currentId == s.currentId
            && ((exists c <- newest :: c.id == s.currentId) ==> kept == newest)
            && ((forall c <- newest :: c.id != s.currentId) ==>
                  |kept| == limit + 1 && kept[limit] in s.items && kept[limit].id == s.currentId)
  {
    var newest := s.items[|s.items| - limit..];
    StoredIff(newest);
    CurrentStored(s);
    hide IndexOf, Forest, Has, DistinctIds;
  }

  lemma CurrentStored(s: State)
    requires Valid(s) && s.items != []
    ensures Has(s.items, s.currentId) && s.currentId != ""
    ensures s.items[IndexOf(s.items, s.currentId)].id == s.currentId
  {
  }

  /** A rewind keeps the target and what was inserted before it, and makes it current; an unknown id changes nothing. */
  lemma {:induction false} RewindKeepsPrefix(s: State, k: nat)
    requires Valid(s) && k < |s.items|
    ensures Rewound(s, s.items[k].id) == State(s.items[..k + 1], s.items[k].id)
  {
    IndexIs(s.items, k);
  }

  lemma RewindOfUnknown(s: State, id: string)
    requires forall c <- s.items :: c.id != id
    ensures Rewound(s, id) == s
  {
  }

  lemma {:induction false} RewindKeepsForest(s: State, id: string)
    requires Valid(s)
    ensures Valid(Rewound(s, id)) && (Has(s.items, id) ==> Rewound(s, id).currentId == id)
  {
    if Has(s.items, id) {
      var k := IndexOf(s.items, id);
      SliceKeepsForest(s.items, 0, k + 1);
      assert s.items[..k + 1] == s.items[0..k + 1];
      IndexIs(s.items[..k + 1], k);
    }
  }

  // ---- A fork is the chain from the root ----

  lemma {:induction false} ReversedAt(cs: seq<Checkpoint>, k: nat)
    requires k < |cs|
    ensures |Reversed(cs)| == |cs| && Reversed(cs)[k] == cs[|cs| - 1 - k]
    decreases |cs|
  {
    if |cs| > 1 {
      ReversedAt(cs[1..], if k < |cs| - 1 then k else 0);
    } else {
      assert Reversed(cs[1..]) == [];
    }
  }

  lemma {:induction false} ReversedAll(cs: seq<Checkpoint>)
    ensures |Reversed(cs)| == |cs|
    ensures forall k :: 0 <= k < |cs| ==> Reversed(cs)[k] == cs[|cs| - 1 - k]
  {
    forall k | 0 <= k < |cs|
      ensures |Reversed(cs)| == |cs| && Reversed(cs)[k] == cs[|cs| - 1 - k]
    {
      ReversedAt(cs, k);
    }
    if |cs| == 0 {
      assert Reversed(cs) == [];
    } else {
      ReversedAt(cs, 0);
    }
  }

  ghost predicate Linked(chain: seq<Checkpoint>) {
    forall j, k :: 0 <= j < k < |chain| && k == j + 1 ==> chain[j].parent == chain[k].id
  }

  /** Consecutive elements are child and parent, down to one whose parent is not stored. */
  ghost predicate ParentChain(items: seq<Checkpoint>, chain: seq<Checkpoint>) {
    && (forall k :: 0 <= k < |chain| ==> Has(items, chain[k].id) && chain[k] == items[IndexOf(items, chain[k].id)])
    && Linked(chain)
    && (|chain| > 0 ==> chain[|chain| - 1].parent == "" || !Has(items, chain[|chain| - 1].parent))
  }

  lemma LinkedPrepend(c: Checkpoint, rest: seq<Checkpoint>)
    requires Linked(rest) && (|rest| > 0 ==> c.parent == rest[0].id)
    ensures Linked([c] + rest)
  {
    var chain := [c] + rest;
    forall j, k | 0 <= j < k < |chain| && k == j + 1
      ensures chain[j].parent == chain[k].id
    {
      assert j > 0 ==> rest[j - 1].parent == rest[k - 1].id;
    }
  }

  lemma ChainPrepend(items: seq<Checkpoint>, id: string, rest: seq<Checkpoint>)
    requires Has(items, id) && ParentChain(items, rest)
    requires var parent := items[IndexOf(items, id)].parent;
             if parent != "" && Has(items, parent) then |rest| > 0 && rest[0].id == parent else rest == []
    ensures ParentChain(items, [items[IndexOf(items, id)]] + rest)
  {
    var c := items[IndexOf(items, id)];
    assert c.id == id;
    hide IndexOf, Linked;
    LinkedPrepend(c, rest);
  }

  lemma NoAncestry(items: seq<Checkpoint>, id: string)
    requires DistinctIds(items) && Forest(items) && (id == "" || !Has(items, id))
    ensures Ancestry(items, id) == [] && ParentChain(items, [])
  {
  }

  lemma {:induction false} AncestryIsParentChain(items: seq<Checkpoint>, id: string)
    requires DistinctIds(items) && Forest(items)
    ensures var chain := Ancestry(items, id);
            ParentChain(items, chain) && (if id != "" && Has(items, id) then |chain| > 0 && chain[0].id == id else chain == [])
    decreases Rank(items, id)
  {
    if id != "" && Has(items, id) {
      hide IndexOf, Forest, DistinctIds, ParentChain, Ancestry;
      var c := items[IndexOf(items, id)];
      AncestryStep(items, id);
      AncestryIsParentChain(items, c.parent);
      ChainPrepend(items, id, Ancestry(items, c.parent));
    } else {
      NoAncestry(items, id);
    }
  }

  lemma {:induction false} ParentChainDescends(items: seq<Checkpoint>, chain: seq<Checkpoint>, i: nat, j: nat)
    requires Forest(items) && ParentChain(items, chain) && i < j < |chain|
    ensures IndexOf(items, chain[j].id) < IndexOf(items, chain[i].id)
    decreases j
  {
    hide IndexOf;
    var a, b := IndexOf(items, chain[j - 1].id), IndexOf(items, chain[j].id);
    assert chain[j - 1].parent == chain[j].id;
    assert items[b].id == items[a].parent;
    if i < j - 1 {
      ParentChainDescends(items, chain, i, j - 1);
    }
  }

  /**
    A forked session holds exactly the stored ancestors of the fork, root first: each
    one's parent is the one before it, the last is the fork, and the first has no stored parent.
  */
  lemma {:induction false} ForkIsRootToFork(s: State, id: string)
    requires Valid(s) && Has(s.items, id)
    ensures var f := Forked(s, id);
            && Valid(f) && |f.items| > 0 && f.items[|f.items| - 1].id == id
            && (forall c <- f.items :: c in s.items)
            && (forall k :: 0 < k < |f.items| ==> f.items[k].parent == f.items[k - 1].id)
            && (f.items[0].parent == "" || !Has(s.items, f.items[0].parent))
  {
    hide IndexOf, Ancestry, Reversed, Forest, DistinctIds, ParentChain;
    var chain := Ancestry(s.items, id);
    StoredIdsNonempty(s.items, id);
    AncestryIsParentChain(s.items, id);
    ReversedAll(chain);
    ReversedChainIsForest(s.items, chain, Reversed(chain));
  }

  /** A parent chain read backwards is a forest whose last element is where the chain began. */
  lemma {:induction false} ChainIsStored(items: seq<Checkpoint>, chain: seq<Checkpoint>, k: nat)
    requires ParentChain(items, chain) && k < |chain|
    ensures Has(items, chain[k].id) && chain[k] == items[IndexOf(items, chain[k].id)] && chain[k] in items
  {
    hide IndexOf;
  }

  lemma ChainLinks(items: seq<Checkpoint>, chain: seq<Checkpoint>, k: nat)
    requires ParentChain(items, chain) && k + 1 < |chain|
    ensures chain[k].parent == chain[k + 1].id
  {
  }

  lemma ChainEnds(items: seq<Checkpoint>, chain: seq<Checkpoint>)
    requires ParentChain(items, chain) && |chain| > 0
    ensures chain[|chain| - 1].parent == "" || !Has(items, chain[|chain| - 1].parent)
  {
  }

  lemma LastIsStored(items: seq<Checkpoint>)
    requires DistinctIds(items) && |items| > 0
    ensures Has(items, items[|items| - 1].id)
  {
    IndexIs(items, |items| - 1);
  }

  lemma {:induction false} ReversedChainIsForest(items: seq<Checkpoint>, chain: seq<Checkpoint>, f: seq<Checkpoint>)
    requires DistinctIds(items) && Forest(items) && ParentChain(items, chain) && |f| == |chain| > 0
    requires forall k :: 0 <= k < |f| ==> f[k] == chain[|chain| - 1 - k]
    ensures DistinctIds(f) && Forest(f) && Has(f, chain[0].id)
    ensures forall i :: 0 <= i < |f| ==> f[i] in items
    ensures forall k :: 0 < k < |f| ==> f[k].parent == f[k - 1].id
    ensures f[0].parent == "" || !Has(items, f[0].parent)
  {
    hide IndexOf, Forest, DistinctIds, ParentChain;
    forall i, j | 0 <= i < j < |f|
      ensures IndexOf(items, f[i].id) < IndexOf(items, f[j].id)
    {
      ParentChainDescends(items, chain, |f| - 1 - j, |f| - 1 - i);
    }
    forall i | 0 <= i < |f|
      ensures Has(items, f[i].id) && f[i] == items[IndexOf(items, f[i].id)] && f[i] in items
    {
      ChainIsStored(items, chain, |chain| - 1 - i);
    }
    forall k | 0 < k < |f|
      ensures f[k].parent == f[k - 1].id
    {
      ChainLinks(items, chain, |f| - 1 - k);
    }
    ChainEnds(items, chain);
    RisingIsForest(items, f);
    LastIsStored(f);
  }

  /** Stored checkpoints taken in insertion order form a forest. */
  lemma {:induction false} RisingIsForest(items: seq<Checkpoint>, f: seq<Checkpoint>)
    requires DistinctIds(items) && Forest(items)
    requires forall i :: 0 <= i < |f| ==> Has(items, f[i].id) && f[i] == items[IndexOf(items, f[i].id)]
    requires forall i, j :: 0 <= i < j < |f| ==> IndexOf(items, f[i].id) < IndexOf(items, f[j].id)
    ensures DistinctIds(f) && Forest(f)
  {
    hide IndexOf;
    forall i, j | 0 <= i < |f| && 0 <= j < |f| && f[j].id == f[i].parent
      ensures j < i
    {
      var a, b := IndexOf(items, f[i].id), IndexOf(items, f[j].id);
      assert items[b].id == items[a].parent;
    }
  }

  lemma StoredIdsNonempty(items: seq<Checkpoint>, id: string)
    requires DistinctIds(items) && Has(items, id)
    ensures id != ""
  {
  }

  // ---- All runs ----

  datatype Op = Create(id: string, historyLength: nat) | Rewind(id: string) | Fork(id: string)

  function Apply(s: State, op: Op): State {
    match op
    case Create(id, historyLength) => Created(s, id, historyLength)
    case Rewind(id) => Rewound(s, id)
    case Fork(id) => ForkOrStay(s, id)
  }

  /** A fork replaces the session under consideration by the new one. */
  function ForkOrStay(s: State, id: string): State {
    if IsForest(s) && Has(s.items, id) then State(Reversed(Ancestry(s.items, id)), id) else s
  }

  /** Valid, in executable form. */
  predicate IsForest(s: State) {
    && DistinctIds(s.items)
    && forall i :: 0 <= i < |s.items| ==> forall j :: 0 <= j < |s.items| && s.items[j].id == s.items[i].parent ==> j < i
  }

  function Run(ops: seq<Op>): State {
    if |ops| == 0 then State([], "") else Apply(Run(ops[..|ops| - 1]), ops[|ops| - 1])
  }

  /** Ids handed out so far. */
  function Issued(ops: seq<Op>): set<string> {
    if |ops| == 0 then {}
    else Issued(ops[..|ops| - 1]) + if ops[|ops| - 1].Create? then {ops[|ops| - 1].id} else {}
  }

  /** Every create brings an id that no earlier create of the run used. */
  ghost predicate FreshIds(ops: seq<Op>) {
    forall k :: 0 <= k < |ops| && ops[k].Create? ==> ops[k].id != "" && ops[k].id !in Issued(ops[..k])
  }

  ghost predicate OnlyMentions(s: State, ids: set<string>) {
    && (s.currentId == "" || s.currentId in ids)
    && forall c <- s.items :: c.id in ids && (c.parent == "" || c.parent in ids)
  }

  lemma {:induction false} StepKeeps(s: State, op: Op, ids: set<string>)
    requires Valid(s) && OnlyMentions(s, ids)
    requires op.Create? ==> op.id != "" && op.id !in ids
    ensures Valid(Apply(s, op))
    ensures OnlyMentions(Apply(s, op), ids + if op.Create? then {op.id} else {})
    ensures op.Create? ==> |Apply(s, op).items| <= CHECKPOINT_HISTORY_LIMIT
  {
    hide IndexOf;
    match op
    case Create(id, historyLength) =>
      Mentioned(s, id, ids);
      CreateKeepsForest(s, id, historyLength);
      assert forall c <- Created(s, id, historyLength).items :: c in Extended(s, id, historyLength).items;
    case Rewind(id) =>
      RewindKeepsForest(s, id);
      if Has(s.items, id) {
        Mentioned(s, id, ids);
        assert forall c <- Rewound(s, id).items :: c in s.items;
      }
    case Fork(id) =>
      if Has(s.items, id) {
        Mentioned(s, id, ids);
        ForkIsRootToFork(s, id);
      }
  }

  lemma Mentioned(s: State, id: string, ids: set<string>)
    requires Valid(s) && OnlyMentions(s, ids)
    ensures Has(s.items, id) ==> id in ids
    ensures id != "" && id !in ids ==> Unused(s, id)
  {
    if Has(s.items, id) {
      assert s.items[IndexOf(s.items, id)] in s.items;
    }
  }

  /**
    What each operation leaves: a create, a new last checkpoint under the former current
    one; a rewind to a stored checkpoint, everything up to it; a fork of one, its chain
    from the root; and an unknown id changes nothing.
  */
  lemma {:induction false} OperationOutcome(s: State, op: Op)
    requires Valid(s) && (op.Create? ==> Unused(s, op.id))
    ensures var s' := Apply(s, op);
            match op
            case Create(id, historyLength) =>
              s'.currentId == id && |s'.items| > 0 && s'.items[|s'.items| - 1] == Checkpoint(id, s.currentId, historyLength)
            case Rewind(id) =>
              && (forall k :: 0 <= k < |s.items| && s.items[k].id == id ==> s' == State(s.items[..k + 1], id))
              && ((forall c <- s.items :: c.id != id) ==> s' == s)
            case Fork(id) =>
              && ((exists c <- s.items :: c.id == id) ==>
                    && s'.currentId == id && |s'.items| > 0 && s'.items[|s'.items| - 1].id == id
                    && (forall c <- s'.items :: c in s.items)
                    && (forall k :: 0 < k < |s'.items| ==> s'.items[k].parent == s'.items[k - 1].id)
                    && forall c <- s.items :: c.id != "" ==> s'.items[0].parent != c.id)
              && ((forall c <- s.items :: c.id != id) ==> s' == s)
  {
    hide IndexOf, Ancestry, Reversed;
    match op
    case Create(id, historyLength) => CreateKeepsForest(s, id, historyLength);
    case Rewind(id) =>
      forall k | 0 <= k < |s.items| && s.items[k].id == id
        ensures Rewound(s, id) == State(s.items[..k + 1], id)
      {
        RewindKeepsPrefix(s, k);
      }
    case Fork(id) =>
      StoredIff(s.items);
      if Has(s.items, id) {
        ForkIsRootToFork(s, id);
      }
  }

  lemma StoredIff(items: seq<Checkpoint>)
    ensures forall id :: Has(items, id) <==> exists c <- items :: c.id == id
  {
    forall id
      ensures Has(items, id) <==> exists c <- items :: c.id == id
    {
      if Has(items, id) {
        assert items[IndexOf(items, id)] in items;
      }
    }
  }

  /** Over any sequence of creates, prunes, rewinds and forks with fresh ids, checkpoints stay a forest. */
  lemma {:induction false} CheckpointsStayAForest(ops: seq<Op>)
    requires FreshIds(ops)
    ensures Valid(Run(ops)) && OnlyMentions(Run(ops), Issued(ops))
    ensures |ops| > 0 ==> Run(ops) == Apply(Run(ops[..|ops| - 1]), ops[|ops| - 1])
    ensures |ops| > 0 && ops[|ops| - 1].Create? ==> |Run(ops).items| <= CHECKPOINT_HISTORY_LIMIT
    decreases |ops|
  {
    if |ops| > 0 {
      hide Valid, Apply, OnlyMentions;
      var front := ops[..|ops| - 1];
      assert forall k :: 0 <= k < |front| ==> front[..k] == ops[..k];
      CheckpointsStayAForest(front);
      StepKeeps(Run(front), ops[|ops| - 1], Issued(front));
    }
  }
}
