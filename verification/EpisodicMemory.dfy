/**
  Keeping episodic notes within a token budget (moss/memory/service.py).

  A note's value and rendered size are taken as given.
*/
module EpisodicMemory {
  import opened Collections

  datatype Note = Note(text: string, index: int, value: real, tokens: nat)

  /** min's key: value first, then the note's index. */
  predicate Below(a: Note, b: Note) {
    a.value < b.value || (a.value == b.value && a.index < b.index)
  }

  /** `a` goes before `b`, or they are told apart by neither value nor index. */
  predicate NoBetter(a: Note, b: Note) {
    a.value < b.value || (a.value == b.value && a.index <= b.index)
  }

  function TotalTokens(notes: seq<Note>): nat {
    if |notes| == 0 then 0 else TotalTokens(notes[..|notes| - 1]) + notes[|notes| - 1].tokens
  }

  lemma {:induction false} TokensConcat(a: seq<Note>, b: seq<Note>)
    ensures TotalTokens(a + b) == TotalTokens(a) + TotalTokens(b)
    decreases |b|
  {
    if |b| == 0 {
      assert a + b == a;
    } else {
      TokensConcat(a, b[..|b| - 1]);
      assert (a + b)[..|a + b| - 1] == a + b[..|b| - 1];
    }
  }

  /** The first of the least notes. */
  method Weakest(notes: seq<Note>) returns (victim: nat)
    requires |notes| > 0
    ensures victim < |notes|
    ensures forall i :: 0 <= i < |notes| ==> !Below(notes[i], notes[victim])
    ensures forall i :: 0 <= i < victim ==> Below(notes[victim], notes[i])
    ensures forall i :: 0 <= i < |notes| ==> NoBetter(notes[victim], notes[i])
  {
    victim := 0;
    for i := 1 to |notes|
      invariant victim < i
      invariant forall k :: 0 <= k < i ==> !Below(notes[k], notes[victim])
      invariant forall k :: 0 <= k < victim ==> Below(notes[victim], notes[k])
    {
      if Below(notes[i], notes[victim]) {
        victim := i;
      }
    }
  }

  function Without(notes: seq<Note>, i: nat): (rest: seq<Note>)
    requires i < |notes|
    ensures |rest| == |notes| - 1
  {
    notes[..i] + notes[i + 1..]
  }

  /** `kept` keeps its order: it is `notes` with the positions outside `at` left out. */
  ghost predicate Subsequence(kept: seq<Note>, notes: seq<Note>, at: seq<nat>) {
    && |at| == |kept|
    && (forall i :: 0 <= i < |at| ==> at[i] < |notes| && notes[at[i]] == kept[i])
    && (forall i, j :: 0 <= i < j < |at| ==> at[i] < at[j])
  }

  lemma RemoveKeepsOrder(kept: seq<Note>, notes: seq<Note>, at: seq<nat>, victim: nat) returns (left: seq<nat>)
    requires Subsequence(kept, notes, at) && victim < |kept|
    ensures Subsequence(Without(kept, victim), notes, left)
  {
    left := at[..victim] + at[victim + 1..];
  }

  lemma RemoveOneNote(kept: seq<Note>, victim: nat)
    requires victim < |kept|
    ensures var rest := Without(kept, victim);
            && multiset(kept) == multiset(rest) + multiset{kept[victim]}
            && TotalTokens(kept) == TotalTokens(rest) + kept[victim].tokens
            && forall i :: 0 <= i < |rest| ==> rest[i] in kept
  {
    assert kept == kept[..victim] + ([kept[victim]] + kept[victim + 1..]);
    TokensConcat(kept[..victim], [kept[victim]] + kept[victim + 1..]);
    TokensConcat([kept[victim]], kept[victim + 1..]);
    TokensConcat(kept[..victim], kept[victim + 1..]);
    assert [kept[victim]][..0] == [];
  }

  /** No note of `evicted` outranks one of `kept`, or one evicted after it. */
  ghost predicate WeakestFirst(kept: seq<Note>, evicted: seq<Note>) {
    && (forall i, j :: 0 <= i < |evicted| && 0 <= j < |kept| ==> NoBetter(evicted[i], kept[j]))
    && (forall i, j :: 0 <= i < j < |evicted| ==> NoBetter(evicted[i], evicted[j]))
  }

  lemma WeakestGoesNext(kept: seq<Note>, evicted: seq<Note>, victim: nat)
    requires WeakestFirst(kept, evicted) && victim < |kept|
    requires forall i :: 0 <= i < |kept| ==> NoBetter(kept[victim], kept[i])
    ensures WeakestFirst(Without(kept, victim), evicted + [kept[victim]])
  {
    hide NoBetter;
    var rest, more := Without(kept, victim), evicted + [kept[victim]];
    assert forall j :: 0 <= j < |rest| ==> rest[j] == if j < victim then kept[j] else kept[j + 1];
  }

  /** Everything is either kept or evicted. */
  ghost predicate Divided(notes: seq<Note>, kept: seq<Note>, evicted: seq<Note>) {
    multiset(kept) + multiset(evicted) == multiset(notes)
  }

  lemma DividedNext(notes: seq<Note>, kept: seq<Note>, evicted: seq<Note>, victim: nat)
    requires Divided(notes, kept, evicted) && victim < |kept|
    ensures Divided(notes, Without(kept, victim), evicted + [kept[victim]])
  {
    RemoveOneNote(kept, victim);
  }

  lemma NothingEvicted(notes: seq<Note>) returns (at: seq<nat>)
    ensures WeakestFirst(notes, []) && Divided(notes, notes, []) && Subsequence(notes, notes, at)
  {
    at := seq(|notes|, (i: nat) => i);
  }

  /**
    Evicts from the weakest note up, and no more than needed: what is left fits, the
    order of the notes left is kept, no evicted note outranks a kept one or a later
    evicted one, and the last evicted note would not have fitted.
  */
  method Evict(notes: seq<Note>, budget: int) returns (kept: seq<Note>, evicted: seq<Note>, ghost at: seq<nat>)
    ensures TotalTokens(kept) <= budget || kept == []
    ensures Divided(notes, kept, evicted) && Subsequence(kept, notes, at) && WeakestFirst(kept, evicted)
    ensures evicted != [] ==> TotalTokens(kept) + evicted[|evicted| - 1].tokens > budget
    ensures TotalTokens(notes) <= budget ==> kept == notes
  {
    hide Below, NoBetter, TotalTokens, WeakestFirst, Divided, Subsequence, Without;
    kept, evicted := notes, [];
    at := NothingEvicted(notes);
    while |kept| > 0 && TotalTokens(kept) > budget
      invariant Divided(notes, kept, evicted) && Subsequence(kept, notes, at) && WeakestFirst(kept, evicted)
      invariant evicted != [] ==> TotalTokens(kept) + evicted[|evicted| - 1].tokens > budget
      invariant TotalTokens(notes) <= budget ==> kept == notes
      decreases |kept|
    {
      var victim := Weakest(kept);
      RemoveOneNote(kept, victim);
      DividedNext(notes, kept, evicted, victim);
      WeakestGoesNext(kept, evicted, victim);
      at := RemoveKeepsOrder(kept, notes, at, victim);
      evicted := evicted + [kept[victim]];
      kept := Without(kept, victim);
    }
  }

  /** Value decides who goes, and among equal values the older index. */
  lemma ValueDecides(kept: seq<Note>, evicted: seq<Note>)
    requires WeakestFirst(kept, evicted)
    ensures forall gone <- evicted, left <- kept :: gone.value <= left.value && (gone.value == left.value ==> gone.index <= left.index)
  {
    forall gone, left | gone in evicted && left in kept
      ensures gone.value <= left.value && (gone.value == left.value ==> gone.index <= left.index)
    {
      assert NoBetter(gone, left);
    }
  }

  lemma {:induction false} TokensOfPermutation(a: seq<Note>, b: seq<Note>)
    requires multiset(a) == multiset(b)
    ensures TotalTokens(a) == TotalTokens(b)
    decreases |a|
  {
    SameMembers(a, b);
    if |a| > 0 {
      hide TotalTokens;
      var front, last := a[..|a| - 1], a[|a| - 1];
      assert last in b;
      var i :| 0 <= i < |b| && b[i] == last;
      assert a == front + [last] && b == b[..i] + [last] + b[i + 1..];
      RemoveOne(front, last, b[..i], b[i + 1..]);
      TokensOfPermutation(front, b[..i] + b[i + 1..]);
      TokensConcat(front, [last]);
      TokensWithout(b, i);
      OneNote(last);
    }
  }

  lemma TokensWithout(notes: seq<Note>, i: nat)
    requires i < |notes|
    ensures TotalTokens(notes) == TotalTokens(Without(notes, i)) + notes[i].tokens
  {
    RemoveOneNote(notes, i);
  }

  lemma OneNote(note: Note)
    ensures TotalTokens([note]) == note.tokens
  {
    assert [note][..0] == [];
  }

  /** Tokens are conserved: what is kept and what goes to cold storage add up to what there was. */
  lemma {:induction false} EvictionConserves(notes: seq<Note>, kept: seq<Note>, evicted: seq<Note>)
    requires Divided(notes, kept, evicted)
    ensures TotalTokens(kept) + TotalTokens(evicted) == TotalTokens(notes)
  {
    assert multiset(kept + evicted) == multiset(notes);
    TokensOfPermutation(kept + evicted, notes);
    TokensConcat(kept, evicted);
  }
}
