/**
  Recording model calls to a cassette directory and replaying them by fingerprint
  (moss/providers/recording.py).

  A fingerprint is the SHA-256 text of a canonical request, taken as given; redaction and
  JSON are the identity.
*/
module Recording {
  import opened Collections
  import opened History
  import opened TextSort

  datatype CallRecord = CallRecord(fingerprint: string, response: string)

  /** One file of the cassette directory, keyed by its name; the manifest is not an entry. */
  type File = Keyed<CallRecord>

  // ---- File names and their text order ----

  function DigitChar(d: nat): char
    requires d < 10
  {
    '0' + d as char
  }

  function Decimal(n: nat): string {
    if n < 10 then [DigitChar(n)] else Decimal(n / 10) + [DigitChar(n % 10)]
  }

  /** Python's {n:03d}. */
  function Padded(n: nat): string {
    if n < 10 then "00" + Decimal(n) else if n < 100 then "0" + Decimal(n) else Decimal(n)
  }

  function NameOf(sequence: nat, fingerprint: string): string {
    Padded(sequence) + "-" + (if |fingerprint| <= 12 then fingerprint else fingerprint[..12]) + ".json"
  }

  /** entry_paths: the files in text order of their names. */
  function EntryPaths(files: seq<File>): seq<File> {
    Sorted(files, false)
  }

  // ---- Recording ----

  class Cassette {
    var files: seq<File>

    constructor ()
      ensures files == []
    {
      files := [];
    }

    /** write_entry with next_sequence: the number of entries already there. */
    method Record(call: CallRecord)
      modifies this
      ensures files == old(files) + [Keyed(NameOf(|old(files)|, call.fingerprint), call)]
    {
      var sequence := |files|;
      files := files + [Keyed(NameOf(sequence, call.fingerprint), call)];
    }
  }

  /** The directory after recording `calls` into an empty cassette. */
  function Recorded(calls: seq<CallRecord>): seq<File> {
    seq(|calls|, i requires 0 <= i < |calls| => Keyed(NameOf(i, calls[i].fingerprint), calls[i]))
  }

  method RecordAll(calls: seq<CallRecord>) returns (cassette: Cassette)
    ensures cassette.files == Recorded(calls)
  {
    cassette := new Cassette();
    for i := 0 to |calls|
      invariant cassette.files == Recorded(calls[..i])
      invariant fresh(cassette)
    {
      cassette.Record(calls[i]);
    }
    assert calls[..|calls|] == calls;
  }

  function Entries(files: seq<File>): seq<CallRecord> {
    seq(|files|, i requires 0 <= i < |files| => files[i].item)
  }

  // ---- Replay ----

  /** The queue of one fingerprint. */
  function Queue(entries: seq<CallRecord>, fingerprint: string): seq<CallRecord> {
    if |entries| == 0 then []
    else
      Queue(entries[..|entries| - 1], fingerprint) +
      if entries[|entries| - 1].fingerprint == fingerprint then [entries[|entries| - 1]] else []
  }

  function Asked(requests: seq<string>, fingerprint: string): nat {
    if |requests| == 0 then 0
    else Asked(requests[..|requests| - 1], fingerprint) + if requests[|requests| - 1] == fingerprint then 1 else 0
  }

  /** _take for the k-th request of a fingerprint: its k-th entry, then the last one for ever. */
  function Taken(queue: seq<CallRecord>, k: nat): Option<string> {
    if |queue| == 0 then None else Some(queue[if k < |queue| then k else |queue| - 1].response)
  }

  /** What a replay client answers to the n-th of `requests`. */
  function Answer(entries: seq<CallRecord>, requests: seq<string>, n: nat): Option<string>
    requires n < |requests|
  {
    Taken(Queue(entries, requests[n]), Asked(requests[..n], requests[n]))
  }

  lemma AskedOneMore(requests: seq<string>, asked: string)
    ensures forall f :: Asked(requests + [asked], f) == Asked(requests, f) + if asked == f then 1 else 0
  {
    assert (requests + [asked])[..|requests|] == requests;
  }

  /** `entries` and `asked` record what was loaded and what has been requested so far. */
  class ReplayClient {
    var queues: map<string, seq<CallRecord>>
    var cursor: map<string, nat>
    ghost var entries: seq<CallRecord>
    ghost var asked: seq<string>

    constructor (cassette: seq<File>)
      ensures Valid() && entries == Entries(EntryPaths(cassette)) && asked == []
    {
      var loaded := Entries(EntryPaths(cassette));
      var qs: map<string, seq<CallRecord>> := map[];
      for i := 0 to |loaded|
        invariant forall f :: f in qs <==> Queue(loaded[..i], f) != []
        invariant forall f :: f in qs ==> qs[f] == Queue(loaded[..i], f)
      {
        assert loaded[..i + 1][..i] == loaded[..i];
        var f := loaded[i].fingerprint;
        qs := qs[f := (if f in qs then qs[f] else []) + [loaded[i]]];
      }
      assert loaded[..|loaded|] == loaded;
      queues := qs;
      cursor := map f | f in qs :: 0;
      entries := loaded;
      asked := [];
    }

    ghost predicate Valid()
      reads this
    {
      && (forall f :: f in queues <==> Queue(entries, f) != [])
      && (forall f :: f in queues ==> queues[f] == Queue(entries, f))
      && cursor.Keys == queues.Keys
      && (forall f :: f in cursor ==> cursor[f] == Asked(asked, f))
    }

    method Take(fingerprint: string) returns (response: Option<string>)
      requires Valid()
      modifies this`cursor, this`asked
      ensures Valid() && asked == old(asked) + [fingerprint]
      ensures response == Taken(Queue(entries, fingerprint), Asked(old(asked), fingerprint))
    {
      hide Queue, Asked;
      AskedOneMore(asked, fingerprint);
      asked := asked + [fingerprint];
      if fingerprint !in queues {
        return None;
      }
      var queue := queues[fingerprint];
      var index := cursor[fingerprint];
      cursor := cursor[fingerprint := index + 1];
      return Some(queue[if index < |queue| then index else |queue| - 1].response);
    }
  }

  /** A whole session against one cassette: every request gets its `Answer`. */
  method ReplayAll(cassette: seq<File>, requests: seq<string>) returns (responses: seq<Option<string>>)
    ensures |responses| == |requests|
    ensures forall n :: 0 <= n < |requests| ==> responses[n] == Answer(Entries(EntryPaths(cassette)), requests, n)
  {
    hide EntryPaths, Queue, Asked, Taken, Entries;
    var client := new ReplayClient(cassette);
    responses := [];
    for n := 0 to |requests|
      invariant fresh(client) && client.Valid() && client.asked == requests[..n] && |responses| == n
      invariant client.entries == Entries(EntryPaths(cassette))
      invariant forall k :: 0 <= k < n ==> responses[k] == Answer(Entries(EntryPaths(cassette)), requests, k)
    {
      var response := client.Take(requests[n]);
      responses := responses + [response];
      assert requests[..n] + [requests[n]] == requests[..n + 1];
    }
  }

  // ---- Names sort in recording order up to 1000 entries ----

  lemma {:induction false} BeforeAfterPrefix(p: string, a: string, b: string)
    ensures Before(p + a, p + b) <==> Before(a, b)
    decreases |p|
  {
    if |p| == 0 {
      assert p + a == a && p + b == b;
    } else {
      assert (p + a)[1..] == p[1..] + a && (p + b)[1..] == p[1..] + b;
      BeforeAfterPrefix(p[1..], a, b);
    }
  }

  lemma BeforeByFirst(a: string, b: string)
    requires |a| > 0 && |b| > 0 && a[0] < b[0]
    ensures Before(a, b) && !Before(b, a)
  {
  }

  lemma PaddedThree(n: nat)
    requires n < 1000
    ensures Padded(n) == [DigitChar(n / 100), DigitChar(n / 10 % 10), DigitChar(n % 10)]
  {
    assert DigitChar(0) == '0';
    if n < 10 {
      assert Padded(n) == ['0', '0'] + [DigitChar(n)];
    } else if n < 100 {
      assert Decimal(n) == [DigitChar(n / 10)] + [DigitChar(n % 10)];
      assert Padded(n) == ['0'] + [DigitChar(n / 10), DigitChar(n % 10)];
    } else {
      assert Decimal(n / 10) == [DigitChar(n / 10 / 10)] + [DigitChar(n / 10 % 10)];
      assert n / 10 / 10 == n / 100;
    }
  }

  lemma DigitsCompare(i: nat, j: nat)
    requires i < j < 1000
    ensures i / 100 < 10 && j / 100 < 10
    ensures i / 100 < j / 100 || (i / 100 == j / 100 &&
            (i / 10 % 10 < j / 10 % 10 || (i / 10 % 10 == j / 10 % 10 && i % 10 < j % 10)))
  {
    assert i / 100 <= j / 100;
    assert i == 100 * (i / 100) + 10 * (i / 10 % 10) + i % 10 by { DigitsAddUp(i); }
    assert j == 100 * (j / 100) + 10 * (j / 10 % 10) + j % 10 by { DigitsAddUp(j); }
  }

  lemma DigitsAddUp(i: nat)
    ensures i == 100 * (i / 100) + 10 * (i / 10 % 10) + i % 10
  {
    var t := i / 10;
    assert i / 100 == t / 10;
  }

  /** Three padded digits compare as numbers. */
  lemma {:induction false} PaddedOrder(i: nat, j: nat, a: string, b: string)
    requires i < j < 1000
    ensures Before(Padded(i) + a, Padded(j) + b)
  {
    hide Padded, Before, DigitChar;
    PaddedThree(i);
    PaddedThree(j);
    DigitsCompare(i, j);
    DigitOrder(i / 100, i / 10 % 10, i % 10, j / 100, j / 10 % 10, j % 10, a, b);
  }

  lemma DigitsRise(i: nat, j: nat)
    requires i < 10 && j < 10
    ensures i < j ==> DigitChar(i) < DigitChar(j)
  {
  }

  lemma {:induction false} DigitOrder(i2: nat, i1: nat, i0: nat, j2: nat, j1: nat, j0: nat, a: string, b: string)
    requires i2 < 10 && i1 < 10 && i0 < 10 && j2 < 10 && j1 < 10 && j0 < 10
    requires i2 < j2 || (i2 == j2 && (i1 < j1 || (i1 == j1 && i0 < j0)))
    ensures Before([DigitChar(i2), DigitChar(i1), DigitChar(i0)] + a, [DigitChar(j2), DigitChar(j1), DigitChar(j0)] + b)
  {
    hide DigitChar;
    DigitsRise(i2, j2);
    DigitsRise(i1, j1);
    DigitsRise(i0, j0);
    var x, y := [DigitChar(i2), DigitChar(i1), DigitChar(i0)] + a, [DigitChar(j2), DigitChar(j1), DigitChar(j0)] + b;
    if i2 == j2 {
      assert x[1..][0] == DigitChar(i1) && y[1..][0] == DigitChar(j1);
      if i1 == j1 {
        assert x[1..][1..][0] == DigitChar(i0) && y[1..][1..][0] == DigitChar(j0);
        BeforeByFirst(x[1..][1..], y[1..][1..]);
      } else {
        BeforeByFirst(x[1..], y[1..]);
      }
    }
  }

  /** The files are in strictly ascending text order as recorded. */
  ghost predicate Ascending(files: seq<File>) {
    forall i, j :: 0 <= i < j < |files| ==> Before(files[i].key, files[j].key)
  }

  lemma AscendingIsOrdered(files: seq<File>)
    requires Ascending(files)
    ensures Ordered(files, false)
  {
    hide Before;
    forall i, j | 0 <= i < j < |files|
      ensures !Precedes(files[j].key, files[i].key, false)
    {
      BeforeAsymmetric(files[i].key, files[j].key);
    }
  }

  lemma {:induction false} RecordedAscending(calls: seq<CallRecord>)
    requires |calls| <= 1000
    ensures Ascending(Recorded(calls))
  {
    hide Before, Padded;
    var files := Recorded(calls);
    forall i, j | 0 <= i < j < |files|
      ensures Before(files[i].key, files[j].key)
    {
      var a := "-" + (if |calls[i].fingerprint| <= 12 then calls[i].fingerprint else calls[i].fingerprint[..12]) + ".json";
      var b := "-" + (if |calls[j].fingerprint| <= 12 then calls[j].fingerprint else calls[j].fingerprint[..12]) + ".json";
      PaddedOrder(i, j, a, b);
      assert files[i].key == Padded(i) + a && files[j].key == Padded(j) + b;
    }
  }

  /** Up to 1000 recorded calls are loaded in the order they were made. */
  lemma {:induction false} LoadedInOrder(calls: seq<CallRecord>)
    requires |calls| <= 1000
    ensures Entries(EntryPaths(Recorded(calls))) == calls
  {
    hide Sorted, NameOf, Ascending;
    RecordedAscending(calls);
    AscendingIsOrdered(Recorded(calls));
    SortOfOrdered(Recorded(calls), false);
  }

  // ---- Round trip ----

  /** The response recorded for the k-th call of a fingerprint. */
  ghost predicate IsKthCall(calls: seq<CallRecord>, fingerprint: string, k: nat, c: nat) {
    c < |calls| && calls[c].fingerprint == fingerprint && |Queue(calls[..c], fingerprint)| == k
  }

  lemma {:induction false} QueueAt(calls: seq<CallRecord>, fingerprint: string, c: nat)
    requires c < |calls| && calls[c].fingerprint == fingerprint
    ensures var k := |Queue(calls[..c], fingerprint)|;
            k < |Queue(calls, fingerprint)| && Queue(calls, fingerprint)[k] == calls[c]
    decreases |calls|
  {
    var front := calls[..|calls| - 1];
    if c < |front| {
      QueueAt(front, fingerprint, c);
      assert front[..c] == calls[..c];
    } else {
      assert calls[..c] == front;
    }
  }

  /**
    Round trip.  With up to 1000 recorded calls, the k-th request of a fingerprint gets
    the response of its k-th recorded call, whatever is asked in between; replaying the
    same requests, or any interleaving that keeps each fingerprint's own order, never misses.
  */
  lemma {:induction false} RoundTrip(calls: seq<CallRecord>, requests: seq<string>, n: nat, c: nat)
    requires |calls| <= 1000 && n < |requests|
    requires IsKthCall(calls, requests[n], Asked(requests[..n], requests[n]), c)
    ensures Answer(Entries(EntryPaths(Recorded(calls))), requests, n) == Some(calls[c].response)
  {
    LoadedInOrder(calls);
    QueueAt(calls, requests[n], c);
  }

  /** The last recorded call of a fingerprint. */
  ghost predicate IsLastCall(calls: seq<CallRecord>, fingerprint: string, c: nat) {
    c < |calls| && calls[c].fingerprint == fingerprint && forall i :: c < i < |calls| ==> calls[i].fingerprint != fingerprint
  }

  lemma {:induction false} QueueEmptyIff(calls: seq<CallRecord>, fingerprint: string)
    ensures Queue(calls, fingerprint) == [] <==> forall i :: 0 <= i < |calls| ==> calls[i].fingerprint != fingerprint
    decreases |calls|
  {
    if |calls| > 0 {
      QueueEmptyIff(calls[..|calls| - 1], fingerprint);
    }
  }

  lemma {:induction false} QueueEnd(calls: seq<CallRecord>, fingerprint: string, c: nat)
    requires IsLastCall(calls, fingerprint, c)
    ensures Queue(calls, fingerprint) != [] && Queue(calls, fingerprint)[|Queue(calls, fingerprint)| - 1] == calls[c]
    decreases |calls|
  {
    if c < |calls| - 1 {
      QueueEnd(calls[..|calls| - 1], fingerprint, c);
    }
  }

  /**
    Past its recorded calls a fingerprint keeps getting the response of the last one, and
    a fingerprint that was never recorded gets none.
  */
  lemma {:induction false} LastResponseRepeats(calls: seq<CallRecord>, requests: seq<string>, n: nat, c: nat)
    requires |calls| <= 1000 && n < |requests|
    ensures IsLastCall(calls, requests[n], c) && Asked(requests[..n], requests[n]) >= |Queue(calls, requests[n])| ==>
              Answer(Entries(EntryPaths(Recorded(calls))), requests, n) == Some(calls[c].response)
    ensures (forall i :: 0 <= i < |calls| ==> calls[i].fingerprint != requests[n]) <==>
              Answer(Entries(EntryPaths(Recorded(calls))), requests, n) == None
  {
    hide Queue, Asked;
    LoadedInOrder(calls);
    QueueEmptyIff(calls, requests[n]);
    if IsLastCall(calls, requests[n], c) {
      QueueEnd(calls, requests[n], c);
    }
  }

  function Fingerprints(calls: seq<CallRecord>): seq<string> {
    seq(|calls|, i requires 0 <= i < |calls| => calls[i].fingerprint)
  }

  lemma {:induction false} AskedIsQueued(calls: seq<CallRecord>, fingerprint: string)
    ensures Asked(Fingerprints(calls), fingerprint) == |Queue(calls, fingerprint)|
    decreases |calls|
  {
    if |calls| > 0 {
      AskedIsQueued(calls[..|calls| - 1], fingerprint);
      assert Fingerprints(calls)[..|calls| - 1] == Fingerprints(calls[..|calls| - 1]);
    }
  }

  /** Replays of `n` calls give back the recorded responses in order. */
  ghost predicate Faithful(calls: seq<CallRecord>) {
    forall n :: 0 <= n < |calls| ==>
      Answer(Entries(EntryPaths(Recorded(calls))), Fingerprints(calls), n) == Some(calls[n].response)
  }

  lemma {:induction false} SameOrderRoundTrip(calls: seq<CallRecord>)
    requires |calls| <= 1000
    ensures Faithful(calls)
  {
    forall n | 0 <= n < |calls|
      ensures Answer(Entries(EntryPaths(Recorded(calls))), Fingerprints(calls), n) == Some(calls[n].response)
    {
      AskedIsQueued(calls[..n], calls[n].fingerprint);
      assert Fingerprints(calls)[..n] == Fingerprints(calls[..n]);
      RoundTrip(calls, Fingerprints(calls), n, n);
    }
  }

  // ---- ... and not beyond ----

  /** The 1001st file sorts before the 102nd. */
  lemma {:induction false} ThousandSortsEarly(a: string, b: string)
    ensures Before(Padded(1000) + a, Padded(101) + b)
  {
    assert Decimal(10) == [DigitChar(1)] + [DigitChar(0)];
    assert Decimal(100) == [DigitChar(1), DigitChar(0)] + [DigitChar(0)];
    assert Decimal(1000) == [DigitChar(1), DigitChar(0), DigitChar(0)] + [DigitChar(0)];
    PaddedThree(101);
    hide Decimal;
    var x, y := Padded(1000) + a, Padded(101) + b;
    assert x == [DigitChar(1), DigitChar(0)] + ([DigitChar(0), DigitChar(0)] + a);
    assert y == [DigitChar(1), DigitChar(0)] + ([DigitChar(1)] + b);
    BeforeByFirst([DigitChar(0), DigitChar(0)] + a, [DigitChar(1)] + b);
    BeforeAfterPrefix([DigitChar(1), DigitChar(0)], [DigitChar(0), DigitChar(0)] + a, [DigitChar(1)] + b);
  }

  /** `n` calls of one request with different answers. */
  function Repeats(n: nat): seq<CallRecord> {
    seq(n, i requires 0 <= i < n => CallRecord("f", seq(i, (_: nat) => 'x')))
  }

  lemma {:induction false} OneQueue(entries: seq<CallRecord>)
    requires forall i :: 0 <= i < |entries| ==> entries[i].fingerprint == "f"
    ensures Queue(entries, "f") == entries
    decreases |entries|
  {
    if |entries| > 0 {
      OneQueue(entries[..|entries| - 1]);
    }
  }

  /** What a replay answers to the k-th repeat when the files are loaded in order `sorted`. */
  lemma {:induction false} RepeatAnswer(n: nat, k: nat, sorted: seq<File>)
    requires k < n == |sorted|
    requires forall i :: 0 <= i < n ==> sorted[i].item.fingerprint == "f"
    ensures Answer(Entries(sorted), Fingerprints(Repeats(n)), k) == Some(sorted[k].item.response)
  {
    hide Queue, Asked;
    var calls := Repeats(n);
    OneQueue(Entries(sorted));
    assert Fingerprints(calls)[..k] == Fingerprints(calls[..k]);
    AskedIsQueued(calls[..k], "f");
    OneQueue(calls[..k]);
  }

  lemma RecordedRepeat(n: nat, i: nat)
    requires i < n
    ensures Recorded(Repeats(n))[i] == Keyed(NameOf(i, "f"), Repeats(n)[i])
    ensures Repeats(n)[i].fingerprint == "f" && |Repeats(n)[i].response| == i
  {
  }

  lemma {:induction false} AtSameIndex(n: nat, sorted: seq<File>, k: nat)
    requires k < n == |sorted|
    requires forall i :: 0 <= i < n ==> sorted[i] in Recorded(Repeats(n))
    requires Faithful(Repeats(n)) && EntryPaths(Recorded(Repeats(n))) == sorted
    ensures sorted[k] == Recorded(Repeats(n))[k]
  {
    hide Answer, NameOf, Sorted, Entries;
    forall i | 0 <= i < n
      ensures sorted[i].item.fingerprint == "f"
    {
      var j :| 0 <= j < n && sorted[i] == Recorded(Repeats(n))[j];
      RecordedRepeat(n, j);
    }
    RepeatAnswer(n, k, sorted);
    var j :| 0 <= j < n && sorted[k] == Recorded(Repeats(n))[j];
    RecordedRepeat(n, j);
    RecordedRepeat(n, k);
  }

  /** If repeats replay faithfully, their files must already be in text order. */
  lemma {:induction false} FaithfulRepeatsAreSorted(n: nat)
    requires Faithful(Repeats(n))
    ensures EntryPaths(Recorded(Repeats(n))) == Recorded(Repeats(n))
  {
    hide Sorted, Faithful, Repeats, Ordered;
    var files := Recorded(Repeats(n));
    assert |files| == n by { RepeatsLength(n); }
    var sorted := EntryPaths(files);
    SortedIsStableOrderedPermutation(files, false);
    SameMembers(sorted, files);
    forall k | 0 <= k < n
      ensures sorted[k] == files[k]
    {
      AtSameIndex(n, sorted, k);
    }
  }

  lemma RepeatsLength(n: nat)
    ensures |Repeats(n)| == n
  {
  }

  /** ... but from 1001 repeats on they are not. */
  lemma {:induction false} ManyRepeatsAreUnordered(n: nat)
    requires n > 1000
    ensures !Ordered(Recorded(Repeats(n)), false)
  {
    hide Before, Padded, Repeats;
    RepeatsLength(n);
    var files := Recorded(Repeats(n));
    var tail := "-" + "f" + ".json";
    ThousandSortsEarly(tail, tail);
    RecordedRepeat(n, 1000);
    RecordedRepeat(n, 101);
    assert files[1000].key == Padded(1000) + tail && files[101].key == Padded(101) + tail;
  }

  lemma {:induction false} TooManyRepeats(n: nat)
    requires n > 1000
    ensures !Faithful(Repeats(n))
  {
    hide Faithful, Sorted, Ordered, Recorded;
    ManyRepeatsAreUnordered(n);
    SortedIsStableOrderedPermutation(Recorded(Repeats(n)), false);
    if Faithful(Repeats(n)) {
      FaithfulRepeatsAreSorted(n);
    }
  }

  /** Every recording of `n` calls replays faithfully exactly when n is at most 1000. */
  lemma {:induction false} FaithfulUpToThousandIff(n: nat)
    ensures (forall calls: seq<CallRecord> :: |calls| == n ==> Faithful(calls)) <==> n <= 1000
  {
    hide Faithful;
    if n <= 1000 {
      forall calls: seq<CallRecord> | |calls| == n
        ensures Faithful(calls)
      {
        SameOrderRoundTrip(calls);
      }
    } else {
      TooManyRepeats(n);
      RepeatsLength(n);
    }
  }
}
