/**
  The structured handoff a compaction extracts from the covered entries and events
  (moss/context/compaction.py, extract_rule).

  `clip` stands for the 200-character clipping; findings, which only render text, are
  not modelled.
*/
module Handoff {

  datatype ToolStatus = Ok | PartialSuccess | Error | OtherStatus

  datatype PlanStep = PlanStep(id: string, title: string, done: bool)

  /** `question` of a stall and `action` of a tool event are the texts the source builds from the payload. */
  datatype Event =
    | PlanUpdated(steps: seq<PlanStep>)
    | Stalled(question: string)
    | Executed(name: string, action: string, status: ToolStatus, errorCode: string, paths: seq<string>)
    | OtherEvent

  datatype Extraction = Extraction(
    goals: seq<string>,
    plan: seq<PlanStep>,
    completed: seq<string>,
    excluded: seq<string>,
    questions: seq<string>)

  const WRITE_TOOLS: set<string> := {"write_file", "edit_file", "run_shell"}
  const EXCLUDING_ERROR_CODES: set<string> := {"approval_denied", "capability_denied", "command_denied", "tool_not_allowed"}
  const REFUSED_NOTE := "some approaches were refused; pick a different one instead of retrying them"

  function JoinPaths(paths: seq<string>): string {
    if |paths| == 0 then "" else if |paths| == 1 then paths[0]
    else JoinPaths(paths[..|paths| - 1]) + ", " + paths[|paths| - 1]
  }

  predicate Refused(e: Event) {
    e.Executed? && e.errorCode in EXCLUDING_ERROR_CODES
  }

  predicate Completes(e: Event) {
    e.Executed? && !Refused(e) && e.status == Ok && e.name in WRITE_TOOLS
  }

  predicate HalfDone(e: Event) {
    e.Executed? && !Refused(e) && e.status == PartialSuccess
  }

  function CompletedEntry(e: Event): string
    requires e.Executed?
  {
    if |e.paths| == 0 then e.action else e.action + " -> changed " + JoinPaths(e.paths)
  }

  function RefusedEntry(e: Event): string
    requires e.Executed?
  {
    e.action + " -> " + e.errorCode
  }

  function PartialNote(e: Event): string
    requires e.Executed?
  {
    e.action + " -> partial_success (" + (if e.errorCode == "" then "partially applied" else e.errorCode) + ")"
  }

  function StepQuestion(step: PlanStep): string {
    "plan step " + step.id + " not done: " + step.title
  }

  function AddNew(list: seq<string>, entry: string): seq<string> {
    if entry in list then list else list + [entry]
  }

  /** The check sees the whole text, the list gets the clipped one. */
  function AddClipped(list: seq<string>, entry: string, clip: string -> string): seq<string> {
    if entry in list then list else list + [clip(entry)]
  }

  function Goals(texts: seq<string>, clip: string -> string): seq<string> {
    if |texts| == 0 then []
    else
      var front, text := Goals(texts[..|texts| - 1], clip), texts[|texts| - 1];
      if text == "" then front else AddClipped(front, text, clip)
  }

  function Read(x: Extraction, e: Event, clip: string -> string): Extraction {
    if e.PlanUpdated? then x.(plan := e.steps)
    else if e.Stalled? then x.(questions := AddClipped(x.questions, e.question, clip))
    else if Refused(e) then x.(excluded := AddNew(x.excluded, RefusedEntry(e)))
    else if Completes(e) then x.(completed := AddNew(x.completed, CompletedEntry(e)))
    else if HalfDone(e) then x.(questions := AddNew(x.questions, PartialNote(e)))
    else x
  }

  function ReadAll(goals: seq<string>, events: seq<Event>, clip: string -> string): Extraction {
    if |events| == 0 then Extraction(goals, [], [], [], [])
    else Read(ReadAll(goals, events[..|events| - 1], clip), events[|events| - 1], clip)
  }

  function AskPlan(questions: seq<string>, plan: seq<PlanStep>): seq<string> {
    if |plan| == 0 then questions
    else
      var front, step := AskPlan(questions, plan[..|plan| - 1]), plan[|plan| - 1];
      if step.done then front else AddNew(front, StepQuestion(step))
  }

  function Extracted(texts: seq<string>, events: seq<Event>, clip: string -> string): Extraction {
    var x := ReadAll(Goals(texts, clip), events, clip);
    var asked := AskPlan(x.questions, x.plan);
    x.(questions := if x.excluded == [] then asked else asked + [REFUSED_NOTE])
  }

  method ExtractRule(texts: seq<string>, events: seq<Event>, clip: string -> string) returns (x: Extraction)
    ensures x == Extracted(texts, events, clip)
    ensures forall entry :: entry in x.completed <==> exists e <- events :: Completes(e) && CompletedEntry(e) == entry
    ensures forall entry :: entry in x.excluded <==> exists e <- events :: Refused(e) && RefusedEntry(e) == entry
    ensures forall e <- events :: HalfDone(e) ==> PartialNote(e) in x.questions
    ensures forall step <- x.plan :: !step.done ==> StepQuestion(step) in x.questions
    ensures (exists e <- events :: Refused(e)) <==> x.excluded != []
  {
    hide AddNew, AddClipped, Refused, RefusedEntry, Completes, CompletedEntry, HalfDone, PartialNote, StepQuestion;
    x := Extraction([], [], [], [], []);
    for k := 0 to |texts|
      invariant x == Extraction(Goals(texts[..k], clip), [], [], [], [])
    {
      assert texts[..k + 1][..k] == texts[..k];
      if texts[k] != "" {
        x := x.(goals := AddClipped(x.goals, texts[k], clip));
      }
    }
    assert texts[..|texts|] == texts;
    ghost var goals := x.goals;
    for k := 0 to |events|
      invariant x == ReadAll(goals, events[..k], clip)
    {
      assert events[..k + 1][..k] == events[..k];
      x := Read(x, events[k], clip);
    }
    assert events[..|events|] == events;
    var questions := x.questions;
    for k := 0 to |x.plan|
      invariant questions == AskPlan(x.questions, x.plan[..k])
    {
      assert x.plan[..k + 1][..k] == x.plan[..k];
      if !x.plan[k].done {
        questions := AddNew(questions, StepQuestion(x.plan[k]));
      }
    }
    assert x.plan[..|x.plan|] == x.plan;
    ReadAllMeaning(goals, events, clip);
    AskPlanMeaning(x.questions, x.plan);
    RefusedIff(x.excluded, events);
    if x.excluded != [] {
      questions := questions + [REFUSED_NOTE];
    }
    x := x.(questions := questions);
  }

  ghost predicate NoRepeats(list: seq<string>) {
    forall i, j :: 0 <= i < j < |list| ==> list[i] != list[j]
  }

  lemma AddNewMeaning(list: seq<string>, entry: string)
    ensures forall x :: x in AddNew(list, entry) <==> x in list || x == entry
    ensures NoRepeats(list) ==> NoRepeats(AddNew(list, entry))
  {
  }

  lemma AddClippedKeeps(list: seq<string>, entry: string, clip: string -> string)
    ensures forall x :: x in list ==> x in AddClipped(list, entry, clip)
  {
  }

  /**
    An entry is completed exactly when some write succeeded with it: a refused or partial
    action never gets there.  Every partial success is left as a question.
  */
  lemma {:induction false} ReadAllMeaning(goals: seq<string>, events: seq<Event>, clip: string -> string)
    ensures var x := ReadAll(goals, events, clip);
            && (forall entry :: entry in x.completed <==> exists e <- events :: Completes(e) && CompletedEntry(e) == entry)
            && (forall entry :: entry in x.excluded <==> exists e <- events :: Refused(e) && RefusedEntry(e) == entry)
            && (forall e <- events :: HalfDone(e) ==> PartialNote(e) in x.questions)
            && NoRepeats(x.completed) && NoRepeats(x.excluded) && x.goals == goals
    decreases |events|
  {
    hide AddNew, AddClipped, Refused, Completes, HalfDone, CompletedEntry, RefusedEntry, PartialNote;
    if |events| > 0 {
      var front, last := events[..|events| - 1], events[|events| - 1];
      ReadAllMeaning(goals, front, clip);
      var x := ReadAll(goals, front, clip);
      OneKind(last);
      assert forall e :: e in events <==> e in front || e == last by { assert events == front + [last]; }
      if last.Executed? {
        AddNewMeaning(x.excluded, RefusedEntry(last));
        AddNewMeaning(x.completed, CompletedEntry(last));
        AddNewMeaning(x.questions, PartialNote(last));
      } else if last.Stalled? {
        AddClippedKeeps(x.questions, last.question, clip);
      }
    }
  }

  lemma RefusedIff(excluded: seq<string>, events: seq<Event>)
    requires forall entry :: entry in excluded <==> exists e <- events :: Refused(e) && RefusedEntry(e) == entry
    ensures (exists e <- events :: Refused(e)) <==> excluded != []
  {
    hide Refused, RefusedEntry;
    assert excluded != [] ==> excluded[0] in excluded;
    forall e | e in events && Refused(e)
      ensures excluded != []
    {
      OneKind(e);
      assert RefusedEntry(e) in excluded;
    }
  }

  lemma OneKind(e: Event)
    ensures Refused(e) ==> e.Executed? && !Completes(e) && !HalfDone(e)
    ensures Completes(e) ==> e.Executed? && !HalfDone(e)
    ensures HalfDone(e) ==> e.Executed?
  {
  }

  lemma {:induction false} AskPlanMeaning(questions: seq<string>, plan: seq<PlanStep>)
    ensures forall q :: q in questions ==> q in AskPlan(questions, plan)
    ensures forall step <- plan :: !step.done ==> StepQuestion(step) in AskPlan(questions, plan)
    decreases |plan|
  {
    hide AddNew, StepQuestion;
    if |plan| > 0 {
      var front, last := plan[..|plan| - 1], plan[|plan| - 1];
      AskPlanMeaning(questions, front);
      AddNewMeaning(AskPlan(questions, front), StepQuestion(last));
      assert forall step :: step in plan ==> step in front || step == last;
    }
  }

  // ---- What the extraction says, in the words of the events ----

  /** The plan is the one of the last update. */
  lemma {:induction false} PlanIsLatest(goals: seq<string>, events: seq<Event>, clip: string -> string)
    ensures var plan := ReadAll(goals, events, clip).plan;
            && ((forall e <- events :: !e.PlanUpdated?) ==> plan == [])
            && forall k :: 0 <= k < |events| && IsLastPlan(events, k) ==> plan == events[k].steps
    decreases |events|
  {
    if |events| > 0 {
      hide AddNew, AddClipped, Refused, Completes, HalfDone;
      var front := events[..|events| - 1];
      PlanIsLatest(goals, front, clip);
      assert forall e <- front :: e in events;
      assert events[|events| - 1] in events;
      assert forall k :: 0 <= k < |front| && IsLastPlan(events, k) ==> IsLastPlan(front, k) && !events[|front|].PlanUpdated?;
    }
  }

  ghost predicate IsLastPlan(events: seq<Event>, k: nat)
    requires k < |events|
  {
    events[k].PlanUpdated? && forall j :: k < j < |events| ==> !events[j].PlanUpdated?
  }

  predicate Asks(e: Event, q: string, clip: string -> string) {
    (e.Stalled? && q == clip(e.question)) || (HalfDone(e) && q == PartialNote(e))
  }

  ghost predicate Sourced(q: string, events: seq<Event>, clip: string -> string) {
    exists e <- events :: Asks(e, q, clip)
  }

  lemma {:induction false} QuestionsOfEvents(goals: seq<string>, events: seq<Event>, clip: string -> string)
    ensures var questions := ReadAll(goals, events, clip).questions;
            && (forall q <- questions :: Sourced(q, events, clip))
            && forall e <- events :: e.Stalled? ==> e.question in questions || clip(e.question) in questions
    decreases |events|
  {
    if |events| > 0 {
      hide Refused, Completes, HalfDone, PartialNote, CompletedEntry, RefusedEntry;
      var front, last := events[..|events| - 1], events[|events| - 1];
      QuestionsOfEvents(goals, front, clip);
      assert forall e :: e in events <==> e in front || e == last by { assert events == front + [last]; }
      OneKind(last);
      var x := ReadAll(goals, front, clip);
      assert ReadAll(goals, events, clip) == Read(x, last, clip);
      assert forall q <- Read(x, last, clip).questions :: q in x.questions || Asks(last, q, clip);
      assert forall q <- x.questions :: q in Read(x, last, clip).questions;
      forall q | q in Read(x, last, clip).questions
        ensures Sourced(q, events, clip)
      {
        if q in x.questions {
          assert Sourced(q, front, clip);
          var e :| e in front && Asks(e, q, clip);
          assert e in events;
        } else {
          assert last in events && Asks(last, q, clip);
        }
      }
    }
  }

  lemma {:induction false} PlanAsksSound(questions: seq<string>, plan: seq<PlanStep>)
    ensures forall q <- AskPlan(questions, plan) :: q in questions || exists step <- plan :: !step.done && q == StepQuestion(step)
    decreases |plan|
  {
    if |plan| > 0 {
      hide StepQuestion;
      var front, last := plan[..|plan| - 1], plan[|plan| - 1];
      PlanAsksSound(questions, front);
      assert forall step :: step in plan <==> step in front || step == last by { assert plan == front + [last]; }
      assert forall q <- AskPlan(questions, plan) :: q in AskPlan(questions, front) || (!last.done && q == StepQuestion(last));
    }
  }

  /** The four ways an action is refused. */
  predicate RefusedCode(code: string) {
    code == "approval_denied" || code == "capability_denied" || code == "command_denied" || code == "tool_not_allowed"
  }

  /**
    Where every line of the handoff comes from.  Completed work is a write that succeeded,
    refusals name the refusal, and every open question is a stall, a half-done action or a
    plan step not done; a closing remark says that something was refused.
  */
  lemma {:induction false} EveryLineHasItsEvent(texts: seq<string>, events: seq<Event>, clip: string -> string)
    ensures var x := Extracted(texts, events, clip);
            && (forall entry :: entry in x.completed <==>
                  exists e <- events :: e.Executed? && !RefusedCode(e.errorCode) && e.status == Ok
                    && (e.name == "write_file" || e.name == "edit_file" || e.name == "run_shell")
                    && entry == if e.paths == [] then e.action else e.action + " -> changed " + JoinPaths(e.paths))
            && (forall entry :: entry in x.excluded <==>
                  exists e <- events :: e.Executed? && RefusedCode(e.errorCode) && entry == e.action + " -> " + e.errorCode)
            && (forall q <- x.questions ::
                  || (exists e <- events :: e.Stalled? && q == clip(e.question))
                  || (exists e <- events :: e.Executed? && !RefusedCode(e.errorCode) && e.status == PartialSuccess
                        && q == e.action + " -> partial_success ("
                               + (if e.errorCode == "" then "partially applied" else e.errorCode) + ")")
                  || (exists step <- x.plan :: !step.done && q == "plan step " + step.id + " not done: " + step.title)
                  || (x.excluded != [] &&
                        q == "some approaches were refused; pick a different one instead of retrying them"))
            && (forall e <- events :: e.Executed? && !RefusedCode(e.errorCode) && e.status == PartialSuccess ==>
                  e.action + " -> partial_success (" + (if e.errorCode == "" then "partially applied" else e.errorCode) + ")"
                  in x.questions)
            && (forall e <- events :: e.Stalled? ==> e.question in x.questions || clip(e.question) in x.questions)
            && (forall step <- x.plan :: !step.done ==> "plan step " + step.id + " not done: " + step.title in x.questions)
            && (x.excluded != [] ==>
                  x.questions != [] &&
                  x.questions[|x.questions| - 1] == "some approaches were refused; pick a different one instead of retrying them")
  {
    hide ReadAll, AskPlan, Goals, JoinPaths;
    var goals := Goals(texts, clip);
    var read := ReadAll(goals, events, clip);
    ReadAllMeaning(goals, events, clip);
    QuestionsOfEvents(goals, events, clip);
    PlanAsksSound(read.questions, read.plan);
    AskPlanMeaning(read.questions, read.plan);
    var x := Extracted(texts, events, clip);
    forall q | q in x.questions
      ensures || Sourced(q, events, clip)
              || (exists step <- x.plan :: !step.done && q == StepQuestion(step))
              || (x.excluded != [] && q == REFUSED_NOTE)
    {
      assert q in AskPlan(read.questions, read.plan) || (x.excluded != [] && q == REFUSED_NOTE);
    }
  }

  /** The lists are in the order of the events: reading on only adds at their ends. */
  lemma {:induction false} ListsGrow(goals: seq<string>, events: seq<Event>, k: nat, clip: string -> string)
    requires k <= |events|
    ensures var before, x := ReadAll(goals, events[..k], clip), ReadAll(goals, events, clip);
            before.completed <= x.completed && before.excluded <= x.excluded && before.questions <= x.questions
    decreases |events|
  {
    hide Refused, Completes, HalfDone, CompletedEntry, RefusedEntry, PartialNote;
    if k < |events| {
      var front := events[..|events| - 1];
      ListsGrow(goals, front, k, clip);
      assert front[..k] == events[..k];
      OneKind(events[|events| - 1]);
    } else {
      assert events[..k] == events;
    }
  }

  /** Paths are joined with commas: a list of paths reads as the texts of its parts. */
  lemma {:induction false} JoinPathsConcat(front: seq<string>, back: seq<string>)
    requires front != [] && back != []
    ensures JoinPaths(front + back) == JoinPaths(front) + ", " + JoinPaths(back)
    ensures JoinPaths([back[0]]) == back[0]
    decreases |back|
  {
    var all := front + back;
    assert all[..|all| - 1] == front + back[..|back| - 1];
    if |back| > 1 {
      JoinPathsConcat(front, back[..|back| - 1]);
      assert JoinPaths(all) == JoinPaths(front + back[..|back| - 1]) + ", " + back[|back| - 1];
    } else {
      assert back[..0] == [] && front + [] == front;
    }
  }

  // ---- Repeated goals ----

  lemma {:induction false} ShortGoalsDistinct(texts: seq<string>, clip: string -> string)
    requires forall text <- texts :: text != "" ==> clip(text) == text
    ensures NoRepeats(Goals(texts, clip))
    decreases |texts|
  {
    if |texts| > 0 {
      var front, last := texts[..|texts| - 1], texts[|texts| - 1];
      assert forall text <- front :: text in texts;
      ShortGoalsDistinct(front, clip);
      assert last in texts;
    }
  }

  lemma LongGoalRepeats(text: string, clip: string -> string)
    requires text != "" && clip(text) != text
    ensures !NoRepeats(Goals([text, text], clip))
  {
    var one := [text];
    assert [text, text][..1] == one && one[..0] == [];
    assert Goals(one, clip) == [clip(text)];
    assert Goals([text, text], clip) == [clip(text), clip(text)];
    assert Goals([text, text], clip)[0] == Goals([text, text], clip)[1];
  }

  /** Goals are listed without repeats, for every history, exactly when none of the texts needs clipping. */
  lemma {:induction false} GoalsDistinctIff(admitted: string -> bool, clip: string -> string)
    ensures (forall texts: seq<string> :: (forall text <- texts :: admitted(text)) ==> NoRepeats(Goals(texts, clip)))
            <==> (forall text :: admitted(text) && text != "" ==> clip(text) == text)
  {
    hide Goals, NoRepeats;
    if text :| admitted(text) && text != "" && clip(text) != text {
      LongGoalRepeats(text, clip);
      assert forall t <- [text, text] :: admitted(t);
    } else {
      forall texts: seq<string> | forall text <- texts :: admitted(text)
        ensures NoRepeats(Goals(texts, clip))
      {
        ShortGoalsDistinct(texts, clip);
      }
    }
  }
}
