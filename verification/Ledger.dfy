/**
  Two-phase action bookkeeping and crash reconciliation
  (moss/runs/ledger.py, moss/execution/executor.py).

  SHA-256 is modelled as an injective constructor.  The executor records fingerprints
  without the "sha256:" prefix that file_sha adds, so there are two constructors; the
  `Tagging` parameter switches to a single form, which is what the design describes.
*/
module Ledger {
  import opened History

  type Path = string
  type Disk = map<Path, string>

  datatype Fingerprint = Bare(content: string) | Tagged(content: string)
  datatype Tagging = AsWired | Uniform

  function Read(disk: Disk, p: Path): Option<string> {
    if p in disk then Some(disk[p]) else None
  }

  /** ledger.file_sha: a missing file has no fingerprint. */
  function FileSha(disk: Disk, p: Path): Option<Fingerprint> {
    if p in disk then Some(Tagged(disk[p])) else None
  }

  /** executor._file_sha256 */
  function ReceiptSha(tagging: Tagging, content: Option<string>): Option<Fingerprint> {
    match content
    case None => None
    case Some(text) => if tagging == AsWired then Some(Bare(text)) else Some(Tagged(text))
  }

  // ---- Actions and what they write ----

  datatype Action =
    | WriteFile(path: Path, content: string)
    | EditFile(path: Path, oldText: string, newText: string)
    | RunShell(command: string)

  function Find(text: string, sub: string): (r: Option<nat>)
    requires sub != ""
    ensures r.Some? ==> r.value + |sub| <= |text| && text[r.value..r.value + |sub|] == sub
  {
    if |text| < |sub| then None
    else if text[..|sub|] == sub then Some(0)
    else
      match Find(text[1..], sub)
      case None => None
      case Some(k) => assert text[1..][k..k + |sub|] == text[k + 1..k + 1 + |sub|]; Some(k + 1)
  }

  predicate OccursAt(text: string, sub: string, k: nat) {
    k + |sub| <= |text| && text[k..k + |sub|] == sub
  }

  /** str.find: the first occurrence, or none. */
  lemma {:induction false} FindIsFirst(text: string, sub: string)
    requires sub != ""
    ensures Find(text, sub).Some? ==>
              OccursAt(text, sub, Find(text, sub).value) && forall j: nat :: j < Find(text, sub).value ==> !OccursAt(text, sub, j)
    ensures Find(text, sub).None? ==> forall j: nat :: !OccursAt(text, sub, j)
    decreases |text|
  {
    if |text| >= |sub| && text[..|sub|] != sub {
      FindIsFirst(text[1..], sub);
      forall j: nat | j > 0
        ensures OccursAt(text, sub, j) <==> OccursAt(text[1..], sub, j - 1)
      {
        if j + |sub| <= |text| {
          assert text[1..][j - 1..j - 1 + |sub|] == text[j..j + |sub|];
        }
      }
    }
  }

  /** str.count: non-overlapping occurrences. */
  function Count(text: string, sub: string): nat
    requires sub != ""
    decreases |text|
  {
    match Find(text, sub)
    case None => 0
    case Some(k) => 1 + Count(text[k + |sub|..], sub)
  }

  /** The text occurs at `k`, not before, and not again behind that occurrence. */
  ghost predicate OnceAt(text: string, sub: string, k: nat) {
    && OccursAt(text, sub, k)
    && (forall j: nat :: j < k ==> !OccursAt(text, sub, j))
    && (forall j: nat :: j >= k + |sub| ==> !OccursAt(text, sub, j))
  }

  lemma {:induction false} CountIsOneIff(text: string, sub: string)
    requires sub != ""
    ensures Count(text, sub) == 0 <==> forall j: nat :: !OccursAt(text, sub, j)
    ensures Count(text, sub) == 1 <==> exists k: nat :: OnceAt(text, sub, k)
    ensures forall k: nat :: OnceAt(text, sub, k) ==> Find(text, sub) == Some(k)
  {
    hide Find;
    FindIsFirst(text, sub);
    forall k: nat | OnceAt(text, sub, k)
      ensures Find(text, sub) == Some(k)
    {
      assert OccursAt(text, sub, k);
    }
    if Find(text, sub).Some? {
      var k := Find(text, sub).value;
      var rest := text[k + |sub|..];
      FindIsFirst(rest, sub);
      forall j: nat
        ensures OccursAt(rest, sub, j) <==> OccursAt(text, sub, j + (k + |sub|))
      {
        if j + |sub| <= |rest| {
          assert rest[j..j + |sub|] == text[j + (k + |sub|)..j + (k + |sub|) + |sub|];
        }
      }
      assert forall j: nat :: j >= k + |sub| && OccursAt(text, sub, j) ==> OccursAt(rest, sub, j - (k + |sub|));
      assert Count(text, sub) == 1 <==> OnceAt(text, sub, k);
    }
  }

  function ReplaceFirst(text: string, sub: string, new_: string): string
    requires sub != ""
  {
    match Find(text, sub)
    case None => text
    case Some(k) => text[..k] + new_ + text[k + |sub|..]
  }

  /** The content the action leaves in its target, or `None` when the tool raises instead. */
  function Target(a: Action, before: Option<string>): Option<string> {
    match a
    case WriteFile(_, content) => Some(content)
    case EditFile(_, oldText, newText) =>
      if before.Some? && oldText != "" && Count(before.value, oldText) == 1
      then Some(ReplaceFirst(before.value, oldText, newText))
      else None
    case RunShell(_) => None
  }

  function Perform(a: Action, disk: Disk): Disk {
    if a.RunShell? then disk
    else
      var target := Target(a, Read(disk, a.path));
      if target.Some? then disk[a.path := target.value] else disk
  }

  // ---- Trace events ----

  datatype Intent = Intent(
    id: nat,
    action: Action,
    expected: seq<(Path, Option<Fingerprint>)>,
    intended: Option<Fingerprint>)
  {
    predicate Idempotent() {
      action.WriteFile? || action.EditFile?
    }
  }

  datatype Event = IntentEvent(intent: Intent) | ReceiptEvent(id: nat) | OtherEvent

  /** ledger.intended_sha */
  function IntendedSha(a: Action, disk: Disk): Option<Fingerprint> {
    if a.RunShell? then None
    else
      var target := Target(a, Read(disk, a.path));
      if target.Some? then Some(Tagged(target.value)) else None
  }

  function Receipts(events: seq<Event>): set<nat> {
    set e | e in events && e.ReceiptEvent? :: e.id
  }

  /** First intent of every action id, in order. */
  function Intents(events: seq<Event>): seq<Intent> {
    if |events| == 0 then []
    else
      var front, e := Intents(events[..|events| - 1]), events[|events| - 1];
      if e.IntentEvent? && forall i <- front :: i.id != e.intent.id then front + [e.intent] else front
  }

  function Without(intents: seq<Intent>, done: set<nat>): seq<Intent> {
    if |intents| == 0 then []
    else
      Without(intents[..|intents| - 1], done) +
      if intents[|intents| - 1].id in done then [] else [intents[|intents| - 1]]
  }

  /** Intents that no receipt answers. */
  function Pending(events: seq<Event>): seq<Intent> {
    Without(Intents(events), Receipts(events))
  }

  method PairActions(events: seq<Event>) returns (receipts: set<nat>, pending: seq<Intent>)
    ensures receipts == Receipts(events)
    ensures pending == Pending(events)
  {
    var intents: seq<Intent> := [];
    receipts := {};
    for k := 0 to |events|
      invariant intents == Intents(events[..k]) && receipts == Receipts(events[..k])
    {
      assert events[..k + 1][..k] == events[..k];
      assert events[..k + 1] == events[..k] + [events[k]];
      match events[k]
      case IntentEvent(intent) =>
        if forall i <- intents :: i.id != intent.id {
          intents := intents + [intent];
        }
      case ReceiptEvent(id) =>
        receipts := receipts + {id};
      case OtherEvent =>
    }
    assert events[..|events|] == events;
    pending := [];
    for k := 0 to |intents|
      invariant pending == Without(intents[..k], receipts)
    {
      assert intents[..k + 1][..k] == intents[..k];
      if intents[k].id !in receipts {
        pending := pending + [intents[k]];
      }
    }
    assert intents[..|intents|] == intents;
  }

  // ---- Reconciliation ----

  datatype Status = AlreadyApplied | Replayable | PendingUnknown(reason: string)

  /** What the loop over the recorded paths answers when it starts with these. */
  function FirstMatch(expected: seq<(Path, Option<Fingerprint>)>, target: Fingerprint, disk: Disk,
                      resolves: Path -> bool): Status
  {
    if |expected| == 0 then PendingUnknown("third_party_change")
    else
      var (path, before) := expected[0];
      if !resolves(path) then PendingUnknown("path_unresolvable")
      else if FileSha(disk, path) == Some(target) then AlreadyApplied
      else if FileSha(disk, path) == before then Replayable
      else FirstMatch(expected[1..], target, disk, resolves)
  }

  function Classified(intent: Intent, disk: Disk, resolves: Path -> bool): Status {
    if !intent.Idempotent() then PendingUnknown("non_idempotent_tool")
    else if |intent.expected| == 0 || intent.intended.None? then PendingUnknown("no_recorded_fingerprint")
    else FirstMatch(intent.expected, intent.intended.value, disk, resolves)
  }

  method Classify(intent: Intent, disk: Disk, resolves: Path -> bool) returns (status: Status)
    ensures status == Classified(intent, disk, resolves)
    ensures status == AlreadyApplied ==>
              exists e <- intent.expected :: FileSha(disk, e.0).Some? && FileSha(disk, e.0) == intent.intended
    ensures status == Replayable ==> exists e <- intent.expected :: FileSha(disk, e.0) == e.1
    ensures !intent.Idempotent() ==> status.PendingUnknown?
  {
    if !intent.Idempotent() {
      return PendingUnknown("non_idempotent_tool");
    }
    if |intent.expected| == 0 || intent.intended.None? {
      return PendingUnknown("no_recorded_fingerprint");
    }
    var target := intent.intended.value;
    for k := 0 to |intent.expected|
      invariant Classified(intent, disk, resolves) == FirstMatch(intent.expected[k..], target, disk, resolves)
    {
      var (path, before) := intent.expected[k];
      assert intent.expected[k] in intent.expected && intent.expected[k..][1..] == intent.expected[k + 1..];
      if !resolves(path) {
        return PendingUnknown("path_unresolvable");
      }
      var current := FileSha(disk, path);
      if current == Some(target) {
        return AlreadyApplied;
      }
      if current == before {
        return Replayable;
      }
    }
    return PendingUnknown("third_party_change");
  }

  method Reconcile(events: seq<Event>, disk: Disk, resolves: Path -> bool) returns (outcomes: seq<Status>)
    ensures |outcomes| == |Pending(events)|
    ensures forall k :: 0 <= k < |outcomes| ==> outcomes[k] == Classified(Pending(events)[k], disk, resolves)
  {
    var _, pending := PairActions(events);
    outcomes := [];
    for k := 0 to |pending|
      invariant |outcomes| == k
      invariant forall i :: 0 <= i < k ==> outcomes[i] == Classified(pending[i], disk, resolves)
    {
      var status := Classify(pending[k], disk, resolves);
      outcomes := outcomes + [status];
    }
  }
}
