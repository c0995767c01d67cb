/**
  One run's serial risky actions as a state machine over (disk, trace, program counter),
  with a crash and third-party edits possible between any two steps
  (moss/execution/executor.py execute, moss/runs/store.py mark_interrupted_runs).
*/
module Recovery {
  import opened History
  import opened Ledger

  /**
    Where ToolExecutor.execute is.  `before` is what the target held when the receipt was
    taken, ahead of the approval prompt.
  */
  datatype Pc =
    | Idle
    | Approved(action: Action, before: Option<string>)
    | Checked(action: Action, before: Option<string>)
    | Running(intent: Intent, before: Option<string>)
    | Acted(intent: Intent, before: Option<string>)
    | Crashed

  /** `tampered` collects the paths third parties wrote since the last approval; `before` survives a crash. */
  datatype State = State(
    tagging: Tagging,
    disk: Disk,
    trace: seq<Event>,
    pc: Pc,
    nextId: nat,
    before: Option<string>,
    tampered: set<Path>)

  datatype Label =
    | Approve(action: Action)
    | Check
    | Refuse
    | EmitIntent
    | Act
    | ActRaises
    | ShellWrites(path: Path, content: Option<string>)
    | EmitReceipt
    | Crash
    | ThirdParty(path: Path, content: Option<string>)

  function Put(disk: Disk, p: Path, content: Option<string>): Disk {
    match content
    case None => disk - {p}
    case Some(text) => disk[p := text]
  }

  function Before(a: Action, disk: Disk): Option<string> {
    if a.RunShell? then None else Read(disk, a.path)
  }

  /** The receipt's fingerprints: one path for the file tools, none for the shell. */
  function Expected(tagging: Tagging, a: Action, before: Option<string>): seq<(Path, Option<Fingerprint>)> {
    if a.RunShell? then [] else [(a.path, ReceiptSha(tagging, before))]
  }

  /** A label whose step is not the next one leaves the state alone. */
  function Step(s: State, l: Label): State {
    match l
    case Approve(a) =>
      if s.pc.Idle?
      then s.(pc := Approved(a, Before(a, s.disk)), before := Before(a, s.disk), tampered := {})
      else s
    case Check =>
      if s.pc.Approved?
      // A changed fingerprint means the approval was for another content: rejected.
      then s.(pc := if Before(s.pc.action, s.disk) == s.pc.before then Checked(s.pc.action, s.pc.before) else Idle)
      else s
    case Refuse =>
      // Approval denied, or the target turned into a symlink.
      if s.pc.Approved? then s.(pc := Idle) else s
    case EmitIntent =>
      if s.pc.Checked?
      then
        var a := s.pc.action;
        var i := Intent(s.nextId, a, Expected(s.tagging, a, s.pc.before), IntendedSha(a, s.disk));
        s.(pc := Running(i, s.pc.before), nextId := s.nextId + 1, trace := s.trace + [IntentEvent(i)])
      else s
    case Act =>
      if s.pc.Running?
      then s.(pc := Acted(s.pc.intent, s.pc.before), disk := Perform(s.pc.intent.action, s.disk))
      else s
    case ActRaises =>
      if s.pc.Running? then s.(pc := Acted(s.pc.intent, s.pc.before)) else s
    case ShellWrites(p, content) =>
      if s.pc.Running? && s.pc.intent.action.RunShell? then s.(disk := Put(s.disk, p, content)) else s
    case EmitReceipt =>
      // Success and failure alike leave a receipt.
      if s.pc.Acted? then s.(pc := Idle, trace := s.trace + [ReceiptEvent(s.pc.intent.id)]) else s
    case Crash => s.(pc := Crashed)
    case ThirdParty(p, content) => s.(disk := Put(s.disk, p, content), tampered := s.tampered + {p})
  }

  function Start(tagging: Tagging, disk: Disk): State {
    State(tagging, disk, [], Idle, 0, None, {})
  }

  function Run(tagging: Tagging, disk: Disk, labels: seq<Label>): State {
    if |labels| == 0 then Start(tagging, disk)
    else Step(Run(tagging, disk, labels[..|labels| - 1]), labels[|labels| - 1])
  }

  // ---- Pending intents along a run ----

  lemma {:induction false} PendingAfterIntent(trace: seq<Event>, i: Intent)
    requires forall j <- Intents(trace) :: j.id != i.id
    requires i.id !in Receipts(trace)
    ensures Pending(trace + [IntentEvent(i)]) == Pending(trace) + [i]
    ensures Intents(trace + [IntentEvent(i)]) == Intents(trace) + [i]
  {
    var grown := trace + [IntentEvent(i)];
    assert grown[..|trace|] == trace;
    assert Receipts(grown) == Receipts(trace);
    assert (Intents(trace) + [i])[..|Intents(trace)|] == Intents(trace);
  }

  lemma {:induction false} WithoutOne(intents: seq<Intent>, done: set<nat>, i: Intent)
    requires Without(intents, done) == [i]
    ensures Without(intents, done + {i.id}) == []
    decreases |intents|
  {
    var front, last := intents[..|intents| - 1], intents[|intents| - 1];
    if last.id in done {
      WithoutOne(front, done, i);
    } else {
      assert Without(intents, done) == Without(front, done) + [last];
      assert Without(front, done) == [] && last == i by {
        assert |Without(front, done)| == 0;
        assert Without(intents, done)[0] == last;
      }
      WithoutMore(front, done, i.id);
    }
  }

  lemma {:induction false} WithoutMore(intents: seq<Intent>, done: set<nat>, id: nat)
    requires Without(intents, done) == []
    ensures Without(intents, done + {id}) == []
    decreases |intents|
  {
    if |intents| > 0 {
      WithoutMore(intents[..|intents| - 1], done, id);
    }
  }

  lemma {:induction false} PendingAfterReceipt(trace: seq<Event>, i: Intent)
    requires Pending(trace) == [i]
    ensures Pending(trace + [ReceiptEvent(i.id)]) == []
    ensures Intents(trace + [ReceiptEvent(i.id)]) == Intents(trace)
  {
    var grown := trace + [ReceiptEvent(i.id)];
    assert grown[..|trace|] == trace;
    assert Receipts(grown) == Receipts(trace) + {i.id};
    WithoutOne(Intents(trace), Receipts(trace), i);
  }

  // ---- The invariant of every run ----

  /** Ids are handed out in order, so a new one is fresh. */
  ghost predicate FreshIds(s: State) {
    && (forall i <- Intents(s.trace) :: i.id < s.nextId)
    && (forall id <- Receipts(s.trace) :: id < s.nextId)
  }

  /** What an emitted intent says, given the content `before` it was approved on. */
  ghost predicate Recorded(tagging: Tagging, i: Intent, before: Option<string>) {
    i.expected == Expected(tagging, i.action, before)
  }

  /** Unless a third party interfered, the target holds its old or its intended content. */
  ghost predicate Undisturbed(s: State, i: Intent) {
    !i.action.RunShell? && i.action.path !in s.tampered ==>
      var now, target := Read(s.disk, i.action.path), Target(i.action, s.before);
      && i.intended == (if target.Some? then Some(Tagged(target.value)) else None)
      && (now == s.before || (target.Some? && now == target))
  }

  ghost predicate Unstarted(s: State, a: Action, before: Option<string>) {
    before == s.before && (!a.RunShell? && a.path !in s.tampered ==> Read(s.disk, a.path) == before)
  }

  ghost predicate Inv(s: State) {
    && FreshIds(s)
    && match s.pc
       case Idle => Pending(s.trace) == []
       case Approved(a, before) => Pending(s.trace) == [] && Unstarted(s, a, before)
       case Checked(a, before) => Pending(s.trace) == [] && Unstarted(s, a, before)
       case Running(i, before) =>
         Pending(s.trace) == [i] && before == s.before && Recorded(s.tagging, i, before) && Undisturbed(s, i)
         && Unstarted(s, i.action, before)
       case Acted(i, before) =>
         Pending(s.trace) == [i] && before == s.before && Recorded(s.tagging, i, before) && Undisturbed(s, i)
       case Crashed =>
         Pending(s.trace) == [] ||
         exists i :: Pending(s.trace) == [i] && Recorded(s.tagging, i, s.before) && Undisturbed(s, i)
  }

  lemma {:induction false} IntentStep(s: State)
    requires Inv(s) && s.pc.Checked?
    ensures Inv(Step(s, EmitIntent))
  {
    hide Pending, Intents;
    var s' := Step(s, EmitIntent);
    PendingAfterIntent(s.trace, s'.pc.intent);
    assert Receipts(s'.trace) == Receipts(s.trace);
  }

  lemma {:induction false} ReceiptStep(s: State)
    requires Inv(s) && s.pc.Acted?
    ensures Inv(Step(s, EmitReceipt))
  {
    hide Pending, Intents;
    var s' := Step(s, EmitReceipt);
    PendingAfterReceipt(s.trace, s.pc.intent);
    assert Receipts(s'.trace) == Receipts(s.trace) + {s.pc.intent.id};
    PendingAreIntents(s.trace);
    assert s.pc.intent in Pending(s.trace);
  }

  lemma {:induction false} PendingAreIntents(trace: seq<Event>)
    ensures forall i <- Pending(trace) :: i in Intents(trace)
  {
    WithoutMembers(Intents(trace), Receipts(trace));
  }

  lemma {:induction false} WithoutMembers(intents: seq<Intent>, done: set<nat>)
    ensures forall i <- Without(intents, done) :: i in intents
    decreases |intents|
  {
    if |intents| > 0 {
      WithoutMembers(intents[..|intents| - 1], done);
    }
  }

  lemma {:induction false} ThirdPartyStep(s: State, p: Path, content: Option<string>)
    requires Inv(s)
    ensures Inv(Step(s, ThirdParty(p, content)))
  {
    hide Pending, Intents, Target;
    var s' := Step(s, ThirdParty(p, content));
    if s.pc.Crashed? && Pending(s.trace) != [] {
      var i :| Pending(s.trace) == [i] && Recorded(s.tagging, i, s.before) && Undisturbed(s, i);
      assert Undisturbed(s', i);
    }
  }

  lemma {:induction false} CrashStep(s: State)
    requires Inv(s)
    ensures Inv(Step(s, Crash))
  {
    hide Pending, Intents, Target;
    var s' := Step(s, Crash);
    if s.pc.Running? || s.pc.Acted? {
      assert Undisturbed(s', s.pc.intent);
    } else if s.pc.Crashed? && Pending(s.trace) != [] {
      var i :| Pending(s.trace) == [i] && Recorded(s.tagging, i, s.before) && Undisturbed(s, i);
      assert Undisturbed(s', i);
    }
  }

  lemma {:induction false} StepInv(s: State, l: Label)
    requires Inv(s)
    ensures Inv(Step(s, l))
  {
    hide Pending, Intents, Target;
    match l
    case EmitIntent => if s.pc.Checked? { IntentStep(s); }
    case EmitReceipt => if s.pc.Acted? { ReceiptStep(s); }
    case ThirdParty(p, content) => ThirdPartyStep(s, p, content);
    case Crash => CrashStep(s);
    case _ =>
  }

  lemma StartInv(tagging: Tagging, disk: Disk)
    ensures Inv(Start(tagging, disk))
  {
    assert Intents([]) == [];
  }

  lemma KeepsTagging(s: State, l: Label)
    ensures Step(s, l).tagging == s.tagging
  {
  }

  lemma {:induction false} RunInv(tagging: Tagging, disk: Disk, labels: seq<Label>)
    ensures Inv(Run(tagging, disk, labels)) && Run(tagging, disk, labels).tagging == tagging
    decreases |labels|
  {
    hide Inv, Step;
    if |labels| == 0 {
      StartInv(tagging, disk);
    } else {
      RunInv(tagging, disk, labels[..|labels| - 1]);
      KeepsTagging(Run(tagging, disk, labels[..|labels| - 1]), labels[|labels| - 1]);
      StepInv(Run(tagging, disk, labels[..|labels| - 1]), labels[|labels| - 1]);
    }
  }

  // ---- Main results ----

  /** A crash at any point leaves at most one intent without a receipt. */
  lemma {:induction false} AtMostOnePending(tagging: Tagging, disk: Disk, labels: seq<Label>)
    ensures |Pending(Run(tagging, disk, labels).trace)| <= 1
  {
    RunInv(tagging, disk, labels);
  }

  /** The one pending intent of a crashed run is classified against the disk as it is now. */
  ghost predicate PendingIn(s: State, i: Intent) {
    Pending(s.trace) == [i]
  }

  lemma {:induction false} PendingFacts(tagging: Tagging, disk: Disk, labels: seq<Label>, i: Intent)
    requires PendingIn(Run(tagging, disk, labels), i)
    ensures var s := Run(tagging, disk, labels);
            Recorded(tagging, i, s.before) && Undisturbed(s, i)
  {
    hide Pending, Undisturbed, Recorded, FreshIds;
    RunInv(tagging, disk, labels);
    var s := Run(tagging, disk, labels);
    assert [i][0] == i;
    if s.pc.Crashed? {
      var j :| Pending(s.trace) == [j] && Recorded(s.tagging, j, s.before) && Undisturbed(s, j);
      assert j == [j][0];
    } else {
      assert s.pc.Running? || s.pc.Acted?;
      assert s.pc.intent == [s.pc.intent][0];
    }
  }

  /** The classification loop on the single path of a file action. */
  lemma ClassifiedFileAction(i: Intent, disk: Disk, resolves: Path -> bool, before: Option<Fingerprint>)
    requires !i.action.RunShell? && i.expected == [(i.action.path, before)]
    ensures Classified(i, disk, resolves) ==
            if i.intended.None? then PendingUnknown("no_recorded_fingerprint")
            else if !resolves(i.action.path) then PendingUnknown("path_unresolvable")
            else if FileSha(disk, i.action.path) == i.intended then AlreadyApplied
            else if FileSha(disk, i.action.path) == before then Replayable
            else PendingUnknown("third_party_change")
  {
    if i.intended.Some? {
      var target := i.intended.value;
      assert FirstMatch([], target, disk, resolves) == PendingUnknown("third_party_change");
      assert i.expected[0] == (i.action.path, before) && i.expected[1..] == [];
    }
  }

  /**
    Safety under arbitrary interference: already_applied is said only with the intended
    content on disk, replayable only with the content the action was approved on, and a
    shell command is never declared replayable.
  */
  lemma {:induction false} NeverWronglyResolved(tagging: Tagging, disk: Disk, labels: seq<Label>, i: Intent,
                                                resolves: Path -> bool)
    requires PendingIn(Run(tagging, disk, labels), i)
    ensures var s := Run(tagging, disk, labels);
            var status := Classified(i, s.disk, resolves);
            && (i.action.RunShell? ==> status == PendingUnknown("non_idempotent_tool"))
            && (status == AlreadyApplied ==>
                  i.intended == FileSha(s.disk, i.action.path) && i.action.path in s.disk)
            && (status == Replayable ==> Read(s.disk, i.action.path) == s.before)
  {
    hide Pending, Undisturbed, Run;
    PendingFacts(tagging, disk, labels, i);
    if !i.action.RunShell? {
      var s := Run(tagging, disk, labels);
      ClassifiedFileAction(i, s.disk, resolves, ReceiptSha(tagging, s.before));
    }
  }

  /** What a resumed run does with the outcome: skip, run again, or leave it to a person. */
  function Resume(status: Status, a: Action, disk: Disk): Disk {
    if status == Replayable then Perform(a, disk) else disk
  }

  /** The action can be resolved without a person asking. */
  predicate Resolved(status: Status) {
    status == AlreadyApplied || status == Replayable
  }

  /**
    Exactly-once, as the code is wired and as it was designed.  Without third-party
    edits to the target, a pending file action is resolved exactly when the fingerprints
    share one form, or the intended content is already there, or the target did not
    exist when the action was approved; and acting on the outcome then leaves the
    intended content.
  */
  lemma {:induction false} ExactlyOnceIff(tagging: Tagging, disk: Disk, labels: seq<Label>, i: Intent,
                                          resolves: Path -> bool)
    requires PendingIn(Run(tagging, disk, labels), i) && !i.action.RunShell?
    requires i.action.path !in Run(tagging, disk, labels).tampered
    requires i.intended.Some? && resolves(i.action.path)
    ensures var s := Run(tagging, disk, labels);
            var status := Classified(i, s.disk, resolves);
            var target := Target(i.action, s.before);
            && (Resolved(status) <==>
                  tagging == Uniform || Read(s.disk, i.action.path) == target || s.before.None?)
            && (status == AlreadyApplied <==> Read(s.disk, i.action.path) == target)
            && (Resolved(status) ==> Read(Resume(status, i.action, s.disk), i.action.path) == target)
  {
    hide Pending, Run, Target, Classified;
    PendingFacts(tagging, disk, labels, i);
    var s := Run(tagging, disk, labels);
    ClassifiedFileAction(i, s.disk, resolves, ReceiptSha(tagging, s.before));
  }

  /**
    As wired, a write to an existing file that crashes before its effect is handed to a
    person as a third-party change although nobody touched the file.
  */
  lemma WiredMisreadsUntouchedFile()
    ensures var labels := [Approve(WriteFile("a", "new")), Check, EmitIntent, Crash];
            var s := Run(AsWired, map["a" := "old"], labels);
            && s.disk == map["a" := "old"]
            && |Pending(s.trace)| == 1
            && Classified(Pending(s.trace)[0], s.disk, (p: Path) => true) == PendingUnknown("third_party_change")
  {
    hide Pending, Run, Classified, Intents;
    var disk := map["a" := "old"];
    var i := Intent(0, WriteFile("a", "new"), [("a", Some(Bare("old")))], Some(Tagged("new")));
    CrashBeforeEffect("a", "old", "new");
    EmptyTrace();
    PendingAfterIntent([], i);
    assert [] + [IntentEvent(i)] == [IntentEvent(i)];
    ClassifiedFileAction(i, disk, (p: Path) => true, Some(Bare("old")));
  }

  lemma CrashBeforeEffect(p: Path, old_: string, new_: string)
    ensures var a := WriteFile(p, new_);
            var s := Run(AsWired, map[p := old_], [Approve(a), Check, EmitIntent, Crash]);
            && s.disk == map[p := old_]
            && s.trace == [IntentEvent(Intent(0, a, [(p, Some(Bare(old_)))], Some(Tagged(new_))))]
  {
    hide Run, Count, Find;
    var a := WriteFile(p, new_);
    RunOfFour(AsWired, map[p := old_], [Approve(a), Check, EmitIntent, Crash]);
    var s1 := Step(Start(AsWired, map[p := old_]), Approve(a));
    assert s1.pc == Approved(a, Some(old_));
    var s2 := Step(s1, Check);
    assert s2.pc == Checked(a, Some(old_));
    var s3 := Step(s2, EmitIntent);
  }

  lemma EmptyTrace()
    ensures Pending([]) == [] && Intents([]) == [] && Receipts([]) == {}
  {
  }

  lemma RunOfFour(tagging: Tagging, disk: Disk, ls: seq<Label>)
    requires |ls| == 4
    ensures Run(tagging, disk, ls)
         == Step(Step(Step(Step(Start(tagging, disk), ls[0]), ls[1]), ls[2]), ls[3])
  {
    hide Step;
    assert ls[..3][..2] == ls[..2] && ls[..2][..1] == ls[..1] && ls[..1][..0] == [];
    assert Run(tagging, disk, ls[..1]) == Step(Start(tagging, disk), ls[0]);
    assert Run(tagging, disk, ls[..2]) == Step(Run(tagging, disk, ls[..1]), ls[1]);
    assert Run(tagging, disk, ls[..3]) == Step(Run(tagging, disk, ls[..2]), ls[2]);
  }

  // ---- Approvals ----

  /** The machine from any state on. */
  function Proceed(s: State, labels: seq<Label>): State {
    if |labels| == 0 then s else Step(Proceed(s, labels[..|labels| - 1]), labels[|labels| - 1])
  }

  lemma {:induction false} RunOn(tagging: Tagging, disk: Disk, before: seq<Label>, after: seq<Label>)
    ensures Run(tagging, disk, before + after) == Proceed(Run(tagging, disk, before), after)
    decreases |after|
  {
    hide Step;
    if |after| == 0 {
      assert before + after == before;
    } else {
      RunOn(tagging, disk, before, after[..|after| - 1]);
      assert (before + after)[..|before + after| - 1] == before + after[..|after| - 1];
    }
  }

  /** What a disk holds after the third-party writes among the labels, and nothing else. */
  function Tampered(disk: Disk, labels: seq<Label>): Disk {
    if |labels| == 0 then disk
    else
      var front := Tampered(disk, labels[..|labels| - 1]);
      match labels[|labels| - 1]
      case ThirdParty(p, None) => map q | q in front && q != p :: front[q]
      case ThirdParty(p, Some(text)) => front[p := text]
      case _ => front
  }

  ghost predicate OnlyThirdParties(labels: seq<Label>) {
    forall l <- labels :: l.ThirdParty?
  }

  /** With nothing approved, the agent neither announces nor writes anything. */
  lemma {:induction false} QuietUntilApproval(s: State, labels: seq<Label>)
    requires s.pc.Idle? && forall l <- labels :: !l.Approve?
    ensures var m := Proceed(s, labels);
            (m.pc.Idle? || m.pc.Crashed?) && m.trace == s.trace && m.disk == Tampered(s.disk, labels)
    decreases |labels|
  {
    if |labels| > 0 {
      QuietUntilApproval(s, labels[..|labels| - 1]);
      assert labels[|labels| - 1] in labels;
    }
  }

  /** While the approval is out, third parties change the disk and nothing else happens. */
  lemma {:induction false} ApprovalWaits(s: State, a: Action, mid: seq<Label>)
    requires s.pc.Idle? && OnlyThirdParties(mid)
    ensures var m := Proceed(Step(s, Approve(a)), mid);
            && m.disk == Tampered(s.disk, mid) && m.trace == s.trace && m.nextId == s.nextId && m.tagging == s.tagging
            && m.pc == Approved(a, if a.RunShell? then None else Read(s.disk, a.path))
            && forall p :: p in m.tampered <==> exists l <- mid :: l.ThirdParty? && l.path == p
    decreases |mid|
  {
    if |mid| > 0 {
      var front, last := mid[..|mid| - 1], mid[|mid| - 1];
      ApprovalWaits(s, a, front);
      assert forall l :: l in mid <==> l in front || l == last by { assert mid == front + [last]; }
      assert last in mid && OnlyThirdParties(front);
    }
  }

  /** The target still holds what it held when the action was approved; a shell command has no target. */
  predicate StillAsApproved(a: Action, approvedOn: Disk, now: Disk) {
    a.RunShell? || ((a.path in approvedOn <==> a.path in now) && (a.path in now ==> approvedOn[a.path] == now[a.path]))
  }

  /**
    An approval is for one content of the target: whatever third parties did while it was
    out, the check lets the action go on if and only if the target still holds that
    content.  If not, or if the approval was denied, the trace gets no intent and the
    agent writes nothing until it is asked again.
  */
  lemma {:induction false} StaleApprovalIsRejected(tagging: Tagging, disk: Disk, before: seq<Label>, a: Action,
                                                   mid: seq<Label>, answer: Label, after: seq<Label>)
    requires Run(tagging, disk, before).pc.Idle? && OnlyThirdParties(mid)
    requires answer == Check || answer == Refuse
    requires forall l <- after :: !l.Approve?
    ensures var s := Run(tagging, disk, before);
            var late := Tampered(s.disk, mid);
            var m := Run(tagging, disk, before + ([Approve(a)] + mid + [answer]));
            && m.disk == late && m.trace == s.trace
            && (answer == Check && StillAsApproved(a, s.disk, late) <==> m.pc.Checked?)
            && (m.pc.Checked? ==> m.pc.action == a)
            && (!m.pc.Checked? ==>
                  var end := Run(tagging, disk, before + ([Approve(a)] + mid + [answer]) + after);
                  end.trace == s.trace && end.disk == Tampered(late, after))
  {
    hide Run, Tampered;
    var s := Run(tagging, disk, before);
    AnswerStep(s, a, mid, answer);
    RunOn(tagging, disk, before, [Approve(a)] + mid + [answer]);
    RunOn(tagging, disk, before + ([Approve(a)] + mid + [answer]), after);
    var m := Run(tagging, disk, before + ([Approve(a)] + mid + [answer]));
    if !m.pc.Checked? {
      QuietUntilApproval(m, after);
    }
  }

  lemma {:induction false} AnswerStep(s: State, a: Action, mid: seq<Label>, answer: Label)
    requires s.pc.Idle? && OnlyThirdParties(mid) && (answer == Check || answer == Refuse)
    ensures var m := Proceed(s, [Approve(a)] + mid + [answer]);
            var late := Tampered(s.disk, mid);
            && m.disk == late && m.trace == s.trace && m.nextId == s.nextId
            && (answer == Check && StillAsApproved(a, s.disk, late) <==> m.pc.Checked?)
            && (m.pc.Checked? ==> m.pc.action == a)
            && (!m.pc.Checked? ==> m.pc.Idle?)
  {
    ProceedFirst(s, Approve(a), mid + [answer]);
    assert [Approve(a)] + mid + [answer] == [Approve(a)] + (mid + [answer]);
    assert (mid + [answer])[..|mid|] == mid;
    ApprovalWaits(s, a, mid);
    hide Tampered;
  }

  lemma {:induction false} ProceedFirst(s: State, l: Label, labels: seq<Label>)
    ensures Proceed(s, [l] + labels) == Proceed(Step(s, l), labels)
    decreases |labels|
  {
    hide Step;
    if |labels| == 0 {
      assert [l] + labels == [l] && [l][..0] == [];
      assert Proceed(s, []) == s;
    } else {
      ProceedFirst(s, l, labels[..|labels| - 1]);
      assert ([l] + labels)[..|labels|] == [l] + labels[..|labels| - 1];
    }
  }

  /** What running an action to its end does to the disk; a shell command writes by steps of its own. */
  ghost predicate Effect(a: Action, before: Disk, after: Disk) {
    match a
    case WriteFile(p, content) => after == before[p := content]
    case EditFile(p, oldText, newText) =>
      if p in before && oldText != "" && exists k: nat :: OnceAt(before[p], oldText, k)
      then exists k: nat :: OnceAt(before[p], oldText, k) && after == before[p := before[p][..k] + newText + before[p][k + |oldText|..]]
      else after == before
    case RunShell(_) => after == before
  }

  lemma {:induction false} PerformHasEffect(a: Action, disk: Disk)
    ensures Effect(a, disk, Perform(a, disk))
  {
    if a.EditFile? && a.path in disk && a.oldText != "" {
      CountIsOneIff(disk[a.path], a.oldText);
      FindIsFirst(disk[a.path], a.oldText);
      hide Count, Find;
      if Count(disk[a.path], a.oldText) == 1 {
        assert OnceAt(disk[a.path], a.oldText, Find(disk[a.path], a.oldText).value);
      }
    }
  }

  /**
    A checked action goes through: its intent is announced before anything is written,
    with the fingerprint of what the target is going to hold; then its effect and nothing
    else reaches the disk; then the receipt answers the intent and the agent is idle again.
  */
  lemma {:induction false} CheckedActionCompletes(tagging: Tagging, disk: Disk, labels: seq<Label>)
    requires Run(tagging, disk, labels).pc.Checked?
    ensures var s := Run(tagging, disk, labels);
            var a := s.pc.action;
            var announced := Run(tagging, disk, labels + [EmitIntent]);
            var end := Run(tagging, disk, labels + [EmitIntent, Act, EmitReceipt]);
            exists i: Intent ::
              && i.action == a && announced.trace == s.trace + [IntentEvent(i)] && announced.disk == s.disk
              && Pending(announced.trace) == [i]
              && (i.intended.Some? ==> FileSha(end.disk, a.path) == i.intended)
              && Effect(a, s.disk, end.disk)
              && end.trace == announced.trace + [ReceiptEvent(i.id)] && Pending(end.trace) == [] && end.pc == Idle
  {
    hide Pending, Intents, Run, Effect, Target;
    var s := Run(tagging, disk, labels);
    var a := s.pc.action;
    RunInv(tagging, disk, labels);
    RunOn(tagging, disk, labels, [EmitIntent]);
    RunOn(tagging, disk, labels, [EmitIntent, Act, EmitReceipt]);
    ProceedThree(s, EmitIntent, Act, EmitReceipt);
    PerformHasEffect(a, s.disk);
    IntentStep(s);
    var s1 := Step(s, EmitIntent);
    PendingAfterReceipt(s1.trace, s1.pc.intent);
  }

  /** An action that raises is answered all the same, and has written nothing. */
  lemma {:induction false} RaisedActionIsAnswered(tagging: Tagging, disk: Disk, labels: seq<Label>)
    requires Run(tagging, disk, labels).pc.Checked?
    ensures var s, end := Run(tagging, disk, labels), Run(tagging, disk, labels + [EmitIntent, ActRaises, EmitReceipt]);
            end.disk == s.disk && Pending(end.trace) == [] && end.pc == Idle && |end.trace| == |s.trace| + 2
  {
    hide Pending, Intents, Run, Target;
    var s := Run(tagging, disk, labels);
    RunInv(tagging, disk, labels);
    RunOn(tagging, disk, labels, [EmitIntent, ActRaises, EmitReceipt]);
    ProceedThree(s, EmitIntent, ActRaises, EmitReceipt);
    IntentStep(s);
    var s1 := Step(s, EmitIntent);
    PendingAfterReceipt(s1.trace, s1.pc.intent);
  }

  /** A shell command writes whatever it likes while it runs, and nothing before or after. */
  lemma ShellWritesWhileItRuns(s: State, p: Path, content: Option<string>)
    ensures var after := Step(s, ShellWrites(p, content));
            if s.pc.Running? && s.pc.intent.action.RunShell?
            then Read(after.disk, p) == content && (forall q :: q != p ==> Read(after.disk, q) == Read(s.disk, q)) && after.pc == s.pc
            else after == s
  {
  }

  /** A crashed agent does nothing more: the trace ends, and only third parties write. */
  lemma {:induction false} CrashIsFinal(tagging: Tagging, disk: Disk, labels: seq<Label>, after: seq<Label>)
    ensures var s, end := Run(tagging, disk, labels), Run(tagging, disk, labels + ([Crash] + after));
            end.pc == Crashed && end.trace == s.trace && end.disk == Tampered(s.disk, after)
  {
    hide Run, Tampered;
    var s := Run(tagging, disk, labels);
    RunOn(tagging, disk, labels, [Crash] + after);
    ProceedFirst(s, Crash, after);
    CrashedIsSilent(Step(s, Crash), after);
  }

  lemma {:induction false} CrashedIsSilent(s: State, labels: seq<Label>)
    requires s.pc == Crashed
    ensures var m := Proceed(s, labels); m.pc == Crashed && m.trace == s.trace && m.disk == Tampered(s.disk, labels)
    decreases |labels|
  {
    if |labels| > 0 {
      CrashedIsSilent(s, labels[..|labels| - 1]);
    }
  }

  lemma {:induction false} ProceedThree(s: State, l1: Label, l2: Label, l3: Label)
    ensures Proceed(s, [l1]) == Step(s, l1)
    ensures Proceed(s, [l1, l2, l3]) == Step(Step(Step(s, l1), l2), l3)
  {
    hide Step;
    assert [l1, l2, l3][..2][..1] == [l1] && [l1, l2, l3][..2] == [l1, l2] && [l1, l2][..1] == [l1] && [l1][..0] == [];
    assert Proceed(s, []) == s;
    assert Proceed(s, [l1]) == Step(s, l1);
    assert Proceed(s, [l1, l2]) == Step(Step(s, l1), l2);
  }

  /** Writing ahead: apart from third parties, the disk changes only while the intent of the action is unanswered. */
  lemma {:induction false} WritesAreAnnounced(tagging: Tagging, disk: Disk, labels: seq<Label>, l: Label)
    requires !l.ThirdParty? && Run(tagging, disk, labels + [l]).disk != Run(tagging, disk, labels).disk
    ensures var s := Run(tagging, disk, labels);
            exists i :: Pending(s.trace) == [i]
              && (i.action.RunShell? || (l == Act && Effect(i.action, s.disk, Run(tagging, disk, labels + [l]).disk)))
  {
    hide Pending, Intents, Effect, Target;
    assert (labels + [l])[..|labels|] == labels;
    RunInv(tagging, disk, labels);
    var s := Run(tagging, disk, labels);
    assert s.pc.Running?;
    PerformHasEffect(s.pc.intent.action, s.disk);
  }

  // ---- Why reconciliation must look at the disk ----

  /**
    Blindly replaying an edit that already took effect is harmless exactly when its old
    text no longer occurs once, or it replaces a text by itself.
  */
  lemma {:induction false} EditReplayHarmlessIff(a: Action, before: string, after: string)
    requires a.EditFile? && Target(a, Some(before)) == Some(after)
    ensures (Target(a, Some(after)) == None || Target(a, Some(after)) == Some(after))
            <==> (Count(after, a.oldText) != 1 || a.oldText == a.newText)
  {
    hide Count, Find;
    if Count(after, a.oldText) == 1 {
      CountFinds(after, a.oldText);
      var k := Find(after, a.oldText).value;
      var again := after[..k] + a.newText + after[k + |a.oldText|..];
      assert after == after[..k] + a.oldText + after[k + |a.oldText|..];
      if again == after {
        assert |again| == |after| && again[k..k + |a.newText|] == a.newText;
      }
    }
  }

  /** "a" replaced by "ab" in the text "a": a second replay makes it "abb". */
  lemma EditReplayCanHarm()
    ensures var edit := EditFile("f", "a", "ab");
            Target(edit, Some("a")) == Some("ab") && Target(edit, Some("ab")) == Some("abb")
  {
    assert Find("a", "a") == Some(0) && Find("ab", "a") == Some(0);
    assert "a"[1..] == "" && "ab"[1..] == "b" && "b"[..1][0] == 'b' && "b"[1..] == "";
    assert Find("", "a") == None && Find("b", "a") == None;
    assert Count("", "a") == 0 && Count("b", "a") == 0;
    assert Count("a", "a") == 1 && Count("ab", "a") == 1;
    assert ReplaceFirst("a", "a", "ab") == "ab" && ReplaceFirst("ab", "a", "ab") == "abb";
  }

  lemma CountFinds(text: string, sub: string)
    requires sub != "" && Count(text, sub) == 1
    ensures Find(text, sub).Some?
  {
  }
}
