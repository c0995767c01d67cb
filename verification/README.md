# moss: a verified model

moss is a local coding agent. This project models, in Dafny, the machinery around its model
calls: the two-phase action ledger and its crash recovery, context compaction and prompt
assembly, the append-only stores, the run lease, the agent loop and its budget, record and
replay, and two algorithmic kernels. Each Dafny module follows one component.

| component | modules |
|---|---|
| crash recovery of risky actions | Ledger, Recovery |
| compaction, handoff, session history | History, Compaction, Handoff, Session |
| prompt assembly and clipping | TokenBudget, PromptBudget, NativeHistory |
| durable memory | MemoryLog, MemoryStore, OneWinner, EpisodicMemory, EditDistance |
| lease, loop, budget | Lease, AgentLoop, RunBudget |
| runs on disk | AtomicIO, RunIndex, Retention, Checkpoints, Recording |
| evaluation | Estimators |
| shared facts | Collections, TextSort |

Code that changes things step by step is a class or a method with loops, proved against a
specification function; the main theorems are lemmas about those functions over all inputs,
runs or interleavings. `dafny verify dfyconfig.toml` checks everything.

## What the proofs say about the code

Where a documented promise does not hold for every input, the code is kept as it is and the
exact condition is proved.

- Fingerprints: the executor writes them bare, the ledger compares them with a `sha256:` prefix
  (`moss/execution/executor.py:142-147`, `moss/runs/ledger.py:55-60`). An untouched existing file is
  therefore never replayable; with one form it always is (`Recovery.ExactlyOnceIff`).
- `edit_file` is documented as idempotent (`moss/runs/ledger.py:31-33`); repeating it is harmless
  only when its old text no longer occurs exactly once or it changes nothing
  (`Recovery.EditReplayHarmlessIff`). Reconciliation is safe because it looks at the disk.
- "Causal units are never split" (`moss/context/compaction.py:16-17`) fails for batches of native
  calls (`Compaction.CallsStayWithResultsIff`).
- Handoff goals can repeat when a text is longer than the clip (`Handoff.GoalsDistinctIff`).
- One active memory record per subject needs subjects that are fixpoints
  (`OneWinner.OneWinnerIff`, `OneWinner.SubjectForStableIff`).
- A result recorded before its call is sent twice (`NativeHistory.EmittedExactlyOnceIff`).
- The lease protects a live punctual owner except from a takeover judged before the lease was
  written, since the running status is stored first (`moss/runs/coordinator.py:119-125`), and from an
  observer on another machine with the same or a missing host name (`Lease.LeaseSafeIff`).
- Two lost heartbeats are covered only from a ttl of 3 seconds on (`Lease.TwoLostBeatsToleratedIff`).
- A soft-budget notice is lost when the compaction trigger asks first
  (`RunBudget.NoticeStillPossibleIff`). Calls of unknown price count for nothing against the cost
  limit, which is what the comment at `moss/agent/budget.py:33-35` means to prevent
  (`RunBudget.CostLimitIff`).
- Replay is faithful up to 1000 recorded calls and not beyond
  (`Recording.FaithfulUpToThousandIff`): names are padded to three digits and sorted as text.
- Retention: with the count limit off, the day limit archives nothing; an unreadable start time
  is archived whatever its age (`Retention.ExpiredRunIds`, `Retention.DayLimitSparesIff`). Start times
  are compared as text.
- A rewrite of the run index changes no listing now, nor later while the listed runs keep their
  starts (`RunIndex.RewriteInvisibleToSettledRuns`), but can reorder runs whose start times are changed
  to equal ones, unless they were folded in listing order already
  (`RunIndex.RewriteInvisibleForeverIff`).
- Pruning puts a current checkpoint that is not among the newest back behind its children; creating
  never gets there, since the newest is current (`Checkpoints.PruneKeepsForestIff`).
- A failed fsync still resets the append counter, and a new process starts counting at zero, so more
  than fsync_every - 1 lines of a file can be unsynced (`AtomicIO.BoundKeptUnlessSpoiled`,
  `AtomicIO.BoundCanFail`).
- A run whose status is already terminal when an exception strikes gets no second ending: its
  run_finished is missing exactly when the fault came between the two
  (`AgentLoop.AgentRun.Run`, `AgentLoop.StrandedRun`); it is never doubled.
- Aliases added while both names have active facts leave two winners (`OneWinner.LearnKeepsIff`,
  `OneWinner.NewAliasIsUnsafe`).

## Assumptions

- SHA-256 and other content hashes are injective; JSON encoding and redaction are the identity;
  generated ids are fresh. Memory records get their ids from their contents, and no two are observed
  at the same instant.
- Bookkeeping writes of intents and receipts succeed; approval, policy and hooks are arbitrary
  answers; tools and models are oracles that may raise before or after taking effect.
- Clocks of different machines agree; a heartbeat takes effect at once; a boot id names one boot
  of one machine.
- A rename is atomic; after a power cut an unsynced file holds some prefix of its data, and an
  unsynced rename may or may not have happened.
- Quotients are exact (`real`), not floating point.

## Model

| member | source | states |
|---|---|---|
| Recovery.AtMostOnePending | moss/execution/executor.py:520-631 | for every run of serial actions, with crashes and third-party edits anywhere, at most one intent has no receipt |
| Recovery.NeverWronglyResolved | moss/runs/ledger.py:166-203 | under arbitrary third-party edits, already_applied implies the intended content is on disk, replayable implies the target is exactly as it was approved, and a shell action is never replayable |
| Recovery.StaleApprovalIsRejected | moss/execution/executor.py:488-518 | over all runs: whatever third parties write between an approval and its check, the action goes on if and only if the target still holds what it held when it was approved; otherwise, and after a denial, no intent enters the trace and the agent writes nothing before the next approval |
| Recovery.CheckedActionCompletes | moss/execution/executor.py:520-631 | a checked action announces its intent before anything is written, then exactly its effect reaches the disk (the content of a write; an edit of a text that occurs once and nowhere else), with the announced fingerprint, then its receipt answers the intent |
| Recovery.WritesAreAnnounced | moss/execution/executor.py:520-531 | over all runs, apart from third parties the disk changes only while the intent of the action is unanswered, and by the effect of that action |
| Recovery.CrashIsFinal | moss/execution/executor.py:520-531 | a crashed agent adds nothing to the trace and writes nothing |
| Recovery.RaisedActionIsAnswered | moss/execution/executor.py:613-631 | an action that raises has its intent answered all the same |
| Recovery.ShellWritesWhileItRuns | moss/execution/executor.py:520-535 | a shell command may write anything while it runs, and nothing before or after |
| Recovery.ExactlyOnceIff | moss/runs/ledger.py:132-203 | when nobody else wrote the target, a pending file action is resolved if and only if the two fingerprint forms agree, or the intended content is already there, or the file was absent at approval; skipping or replaying accordingly then leaves the intended content |
| Recovery.WiredMisreadsUntouchedFile | moss/execution/executor.py:142-147 | as wired (executor fingerprints without the sha256: prefix), an untouched existing file is classified third_party_change: the documented replay is refused |
| Recovery.EditReplayHarmlessIff | moss/runs/ledger.py:31-33 | blindly repeating an applied edit_file is harmless if and only if its old text no longer occurs exactly once or the edit changes nothing; the stated idempotence of the tool holds only then |
| Recovery.EditReplayCanHarm | moss/runs/ledger.py:31-33 | a concrete edit, a to ab, whose second application changes the text again |
| Recovery.RunInv | moss/execution/executor.py:520-631 | the invariant of the crash machine (fresh ids, at most one open intent, intent fingerprints are those approved, target holds old or intended content unless tampered with) holds after every run |
| Recovery.StepInv | moss/execution/executor.py:490-655 | every single step keeps that invariant: approve, stale check, refuse, intent, effect, raise, receipt, crash, third-party write |
| Recovery.PendingAfterIntent | moss/execution/executor.py:633-655 | a new intent becomes the one pending action |
| Recovery.PendingAfterReceipt | moss/execution/executor.py:704-731 | its receipt, on success or failure alike, leaves nothing pending |
| Ledger.PairActions | moss/runs/ledger.py:132-150 | pairing a trace returns the receipts and, in order, the first intent of every action id that no receipt answers |
| Ledger.Classify | moss/runs/ledger.py:166-203 | the classification is the first verdict along the recorded paths; already_applied and replayable are each witnessed by a path with that fingerprint; a non-idempotent tool is always pending_unknown |
| Ledger.Reconcile | moss/runs/ledger.py:153-163 | every pending action, in order, is classified against the disk |
| Ledger.FindIsFirst | moss/runs/ledger.py:69-88 | the text search behind the intended content of an edit finds the first occurrence, or none exists |
| Ledger.CountIsOneIff | moss/runs/ledger.py:69-88 | a text counts as occurring once if and only if it occurs at some place, not before it, and not again behind it |
| Compaction.ExecutionSteps | moss/context/compaction.py:119-147 | the segmentation loop returns a canonical list of causal units whose concatenation is the history: nothing dropped, duplicated or reordered |
| Compaction.SegmentationIsUnique | moss/context/compaction.py:119-147 | the canonical segmentation of a history is unique: re-segmenting the entries of any canonical list gives it back |
| Compaction.StepsAreCanonical | moss/context/compaction.py:119-147 | the specification of the loop is canonical and flattens to its input |
| Compaction.CompactableSteps | moss/context/compaction.py:156-164 | the cut keeps at least keep_recent steps or covers nothing, and never ends on a step whose calls have no result |
| Compaction.Compact | moss/context/compaction.py:299-360 | covered followed by remaining is the history in order; None exactly when nothing is covered |
| Compaction.CompactionIsClosed | moss/context/compaction.py:15-15 | covered plus kept is everything, for every keep_recent |
| Compaction.KeptSurvivesSummary | moss/context/compaction.py:156-164 | after a cut behind a complete step, a summary in front of the kept steps leaves them canonical |
| Compaction.SecondCut | moss/context/compaction.py:156-164 | the second cut falls exactly behind the summary |
| Compaction.CompactionIsIdempotent | moss/context/compaction.py:299-360 | segmenting summary plus kept entries gives the summary alone followed by the same kept steps, so another compaction covers only the summary |
| Compaction.EveryCompleteCutIsReachable | moss/context/compaction.py:156-164 | every boundary behind a complete step is the cut for some keep_recent |
| Compaction.CallsStayWithResultsIff | moss/context/compaction.py:16-17 | the documented rule that calls and results are never separated holds for every keep_recent if and only if no complete step lies between a call and a later step with its result |
| Compaction.BatchOfTwoIsSeparated | moss/context/compaction.py:129-135 | a batch of two native calls breaks the rule: the second result is kept while its call is covered |
| Handoff.ExtractRule | moss/context/compaction.py:204-290 | an entry is completed exactly when some write succeeded with it, excluded exactly when some action was refused; every partial success and every open plan step is left as a question; the closing notice appears exactly when something was refused |
| Handoff.ReadAllMeaning | moss/context/compaction.py:214-278 | the same for the event fold, and neither list ever repeats an entry |
| Handoff.EveryLineHasItsEvent | moss/context/compaction.py:204-290 | in the words of the events: which lines stand for completed work, refusals and open questions, each with the event or plan step it comes from, and each such event or step with its line |
| Handoff.PlanIsLatest | moss/context/compaction.py:216-219 | the plan is that of the last update, or empty |
| Handoff.ListsGrow | moss/context/compaction.py:214-278 | the lists are in the order of the events |
| Handoff.GoalsDistinctIff | moss/context/compaction.py:207-212 | goals are free of repeats for all histories if and only if no text is changed by clipping: the check compares the whole text with clipped ones |
| Session.Session.Record | moss/context/service.py:202-206 | the new entry is appended and nothing else changes |
| Session.Session.ClearPendingHistory | moss/context/service.py:188-200 | every pending mark is cleared in place; every other field of every entry, the order and the length stay, and all entries are compactable |
| Session.ClearedHistory | moss/context/service.py:188-200 | clearing changes no role, call id, text or summary number, leaves no entry pending, and makes the whole history compactable |
| Session.Session.SplitPending | moss/context/service.py:627-634 | the pending entries and the others, each in order |
| Session.Session.CompactContext | moss/context/service.py:615-665 | one compaction is exactly one step of the pure machine, with a system entry holding the summary in front, and otherwise leaves the session unchanged |
| Session.CompactedHistory | moss/context/service.py:615-665 | unless everything covered is a summary already, the covered entries are stored under the next number and the history becomes the summary, the pending entries and the kept ones, in that order |
| Session.StepKeepsContents | moss/context/service.py:615-665 | every operation keeps the invariant, and the recursively expanded contents change only by a recorded entry |
| Session.NothingLost | moss/context/service.py:615-665 | after any sequence of record, compact and clear-pending, expanding every summary by its stored turns gives back, as a multiset, every entry ever recorded |
| Session.ExpandStable | moss/context/service.py:640-665 | storing a new turns file never changes what older summaries expand to |
| Session.SecondCompactIsNoOp | moss/context/service.py:635-639 | a second compaction with nothing new creates no artifact and changes nothing |
| MemoryLog.CompactionIsInvisible | moss/memory/store.py:394-399 | replacing any prefix of the log by its compaction leaves all_records unchanged, now and after every later append; compaction is idempotent |
| MemoryLog.LogRefinesLastWriteMap | moss/memory/store.py:205-209 | all_records lists exactly the entries of the last-write-wins map by id |
| MemoryLog.TombstoneSurvives | moss/memory/store.py:386-392 | a tombstoned id stays unrecallable through any later appends of other ids and any compaction |
| MemoryLog.RecalledIff | moss/memory/store.py:205-215 | an id is recalled exactly when its last write left it active or up for review |
| MemoryStore.MemoryStore.CurrentRecords | moss/memory/store.py:205-209 | the dict fold over the log is the specified view |
| MemoryStore.MemoryStore.AppendMany | moss/memory/store.py:179-203 | all records are written or none; threshold compaction does not show in the view and bounds the log |
| MemoryStore.MemoryStore.Compact | moss/memory/store.py:394-399 | the log becomes its own view, and the view is unchanged |
| MemoryStore.MemoryStore.AppendResolvingConflicts | moss/memory/store.py:237-271 | one learned fact is exactly one Learn step of the view |
| MemoryStore.MemoryStore.UpdateRecord | moss/memory/store.py:364-384 | an update is exactly one Update step of the view |
| MemoryStore.MemoryStore.DeleteRecord | moss/memory/store.py:386-392 | a delete is exactly one Delete step of the view |
| MemoryStore.MemoryStore.Refresh | moss/memory/store.py:273-293 | a freshness pass is exactly one RefreshFreshness step of the view |
| MemoryStore.BestPeer | moss/memory/store.py:244-255 | the resolved peer is an active record of the same scope, key, topic and canonical subject, absent only when there is none |
| OneWinner.OneWinnerIff | moss/memory/store.py:237-271 | over all runs with content-hashed ids, distinct observation times and exact duplicates skipped, each (scope, scope key, topic, subject) has at most one active record if and only if subject_for is a fixpoint on its own results for the learned texts |
| OneWinner.EveryRunKeepsInv | moss/memory/store.py:237-293 | one active record per key, canonical subjects and the base hold after every run on stable texts |
| OneWinner.EveryRunKeepsBase | moss/memory/store.py:237-392 | distinct ids, ids that hash their contents, and supersedes links to earlier inactive records hold after every run, whatever subject_for does |
| OneWinner.LearnKeepsIff | moss/memory/store.py:244-271 | in a given store, every next append_resolving_conflicts keeps one winner if and only if each active record whose subject some text has is the peer such a text resolves against |
| OneWinner.AliasedRunKeepsOneWinner | moss/memory/store.py:217-271 | with aliases that change between operations, one winner per key survives as long as that condition holds whenever something is learned |
| OneWinner.SameAliasesSameRun | moss/memory/store.py:217-235 | with unchanging aliases that is an ordinary run |
| OneWinner.NewAliasIsUnsafe | moss/memory/store.py:217-255 | an alias x = z written while both have active records, the one on x later, breaks the condition: the record on z is never retired |
| OneWinner.LearnKeeps | moss/memory/store.py:237-271 | append_resolving_conflicts keeps the invariant on a stable text |
| OneWinner.UpdateKeeps | moss/memory/store.py:364-384 | an update keeps one active record per key and canonical subjects |
| OneWinner.DeleteKeeps | moss/memory/store.py:386-392 | a delete keeps the base and one active record per key, and tombstones every record of the id |
| OneWinner.StaledPrefix | moss/memory/store.py:273-293 | refresh_freshness keeps the base and one active record per key, record by record |
| OneWinner.HistoryIsMonotone | moss/memory/store.py:237-392 | along any continuation, whatever the texts, records keep their contents and place, inactive ones stay so and a forgotten one is never recalled |
| OneWinner.SupersedesIsAcyclic | moss/memory/store.py:259-271 | in every store of the base, so after every run, no record supersedes itself, directly or through others |
| OneWinner.LowerTrustNeverDisplaces | moss/memory/store.py:256-271 | an active record of a user stays as it is whatever a model or a tool says, and a model's whatever a tool says |
| OneWinner.LearnOutcome | moss/memory/store.py:237-271 | learning a durable fact the store has one about, in plain values: statements of equal trust that contradict each other within the hour both go to review; otherwise the more trusted one wins whenever it was observed, and among equals the one observed later; the peer is the one observed last; nothing else changes |
| OneWinner.LearnAloneIff | moss/memory/store.py:237-255 | a durable fact the store has nothing about becomes active; one that is not durable changes nothing |
| OneWinner.UpdateOutcome | moss/memory/store.py:364-384 | an update adds the reworded record under the old key with a link to the old one, which is superseded, or changes nothing |
| OneWinner.RefreshOutcome | moss/memory/store.py:273-293 | the freshness pass sends exactly the stale active records to review |
| OneWinner.SameIdIff | moss/memory/records.py:132-158 | two records get the same id if and only if their hashed contents agree; status, creation time and the legacy mark do not count |
| OneWinner.UnstableTextHasTwoWinners | moss/memory/store.py:244-254 | learning a text with an unstable subject, rewording the record and learning the text again leaves two active winners, with hashed ids and no duplicate |
| OneWinner.SubjectForStableIff | moss/memory/store.py:73-81 | the subject of a text is a fixpoint if and only if it has no use, uses or should strictly inside |
| OneWinner.SubjectReads | moss/memory/store.py:64-70 | a subject has at most six words and no stop word |
| OneWinner.TeamUsesDockerIsUnstable | moss/memory/store.py:73-81 | a concrete unstable text: team uses docker is good |
| OneWinner.DockerHasTwoWinners | moss/memory/store.py:237-254 | two different facts about team uses docker, learned one after the other, are both active winners of that subject |
| NativeHistory.NativeToolTurn | moss/context/native_history.py:8-41 | one group becomes a call message and a result message with the same ids in order, and each stored result is given out once |
| NativeHistory.NativeHistoryMessages | moss/context/manager.py:597-681 | the index loop yields the specified translation, and it is balanced |
| NativeHistory.TranslateBalanced | moss/context/manager.py:597-681 | for every history each call message is directly followed by one result message with the same ids, and no result block lacks its call |
| NativeHistory.ConversationKept | moss/context/manager.py:597-681 | calls and texts appear in the order of the history, each in a message of its own speaker; a result block shows a stored tool result of its call id; exactly the native calls with an id are shown as calls |
| NativeHistory.UsesOf | moss/context/manager.py:597-681 | an entry is emitted twice when a later call is shown with it, and otherwise exactly once |
| NativeHistory.EmittedExactlyOnceIff | moss/context/manager.py:597-681 | every history entry is emitted exactly once if and only if results follow their calls |
| TokenBudget.CountTokens | moss/context/token_budget.py:50-69 | the counting loop computes the estimate; it is zero only for the empty text and between a quarter and all of the characters |
| TokenBudget.EstimateMonotone | moss/context/token_budget.py:50-69 | inserting text anywhere never lowers the estimate |
| TokenBudget.EstimateMeans | moss/context/token_budget.py:50-69 | wide characters count one token each, the others four to a token, rounded up |
| TokenBudget.WideCharacter | moss/context/token_budget.py:27-47 | which characters are wide, by code point |
| TokenBudget.CalibratedMeans | moss/context/token_budget.py:192-201 | a calibrated estimate is the least whole number that is not below the scaled one |
| TokenBudget.ClipToBudget | moss/context/token_budget.py:72-117 | the clipped text fits the limit, an already fitting text is returned whole, and under a monotone measure no larger kept count fits |
| TokenBudget.ClipIsBest | moss/context/token_budget.py:103-117 | the same about the binary search as a function |
| TokenBudget.InsertionMonotone | moss/context/token_budget.py:72-82 | any measure that only grows on insertion is monotone in the kept characters for head, tail and middle |
| TokenBudget.EstimatesAreMonotone | moss/context/token_budget.py:192-201 | estimate_tokens and every positive calibration of it meet that condition, so the search is exact on every text |
| PromptBudget.Build | moss/context/manager.py:286-409 | the loop ends with the budgets of the specified reduction; the prompt fits, or every reducible section is exhausted (budget or rendered size at the floor, or the fixed empty transcript); with default floors it is budget or size at the floor, and every section stays within its budget |
| PromptBudget.FindReducible | moss/context/manager.py:349-372 | the first section in order that can still be lowered by the overflow |
| PromptBudget.SlackDrops | moss/context/manager.py:349-392 | every reduction strictly lowers the sum of budgets above their floors, so the loop terminates |
| PromptBudget.NothingReducedWhenItFits | moss/context/manager.py:349-350 | a prompt that fits keeps all its budgets |
| PromptBudget.RequestNeverClipped | moss/context/manager.py:1053-1065 | whatever the budgets, the prompt ends with the whole current request, trailing blanks aside |
| PromptBudget.PromptShowsEverySection | moss/context/manager.py:1053-1065 | the prompt character by character: every section that is not blank with its full rendered text behind its purpose line, in the order prefix, transcript, memory, relevant memory, constraints, and the request last; only blanks at the two ends are trimmed |
| PromptBudget.BlankSectionLeavesNoTrace | moss/context/manager.py:1060-1062 | a blank section contributes nothing: any other blank text gives the same prompt |
| PromptBudget.BlankIff | moss/context/manager.py:1061-1061 | strip() leaves nothing exactly of a text of blanks |
| PromptBudget.ReductionIsARunOfRounds | moss/context/manager.py:344-392 | the reduction is a sequence of rounds, stated on their own: the first section in order that can be lowered gives up the overflow as far as its floor allows, and the loop ends only when the prompt fits or no round is possible |
| PromptBudget.RenderSections | moss/context/manager.py:749-765 | every section is rendered from its own budget and stays within it, save a non-positive budget or the fixed empty transcript |
| PromptBudget.RenderRelevantMemory | moss/context/manager.py:767-838 | the rendering is the specified greedy one and stays within a positive budget; a budget of 0 gives nothing |
| PromptBudget.RelevantWholeWhenItFits | moss/context/manager.py:767-838 | relevant memory is shown whole whenever it fits |
| PromptBudget.RelevantMemoryReads | moss/context/manager.py:767-779 | its full text: the title, the anchor line if there is one, then a bullet for every note, or the line saying there is none |
| PromptBudget.RenderItem | moss/context/manager.py:1042-1051 | a tool result keeps its tags around the clipped content, and fitting content is kept verbatim |
| PromptBudget.CompressedHistory | moss/context/manager.py:885-921 | newest first, each entry is kept whole, clipped or dropped, and what is kept fits |
| PromptBudget.CompressedWholeWhenItFits | moss/context/manager.py:885-921 | compressed history is shown whole whenever it fits |
| PromptBudget.UsedIsTheirText | moss/context/manager.py:899-912 | what the loop counts as used is, in characters, the text of the kept lines |
| PromptBudget.FullHistory | moss/context/manager.py:931-941 | all items in order, each rendered under the budget |
| PromptBudget.RenderTranscript | moss/context/manager.py:857-929 | full history if it fits, else compressed, else the clipped tail; a non-empty history never exceeds a positive budget |
| PromptBudget.EmptyTranscriptIsSmall | moss/context/manager.py:860-864 | the empty transcript fits under every default floor, by tokens and by characters |
| PromptBudget.PhaseShiftConserves | moss/context/manager.py:231-248 | the edit-phase shift moves a twentieth of the total, or the room history has above its floor if that is less, in halves; prefix, memory and the total stay |
| PromptBudget.DefaultFloorsAreQuarters | moss/context/manager.py:741-747 | the default floors are a quarter of each budget, at least 20, and meet the condition of Build |
| EditDistance.LevenshteinSimilarity | moss/memory/service.py:1244-1263 | the two-row loop computes one minus the normalised recursive distance; the score is in [0,1] and 1 exactly for equal texts |
| EditDistance.NextRow | moss/memory/service.py:1254-1262 | one pass turns a row of the distance table into the next |
| EditDistance.LevIsAMetric | moss/memory/service.py:1244-1263 | the distance is zero only for equal texts, symmetric, obeys the triangle inequality and is at most the longer length |
| EditDistance.LevIsLeastEditCount | moss/memory/service.py:1244-1263 | the distance is the length of a shortest path of single-character edits |
| EditDistance.SimilarityIsAScore | moss/memory/service.py:1244-1263 | the similarity is a symmetric score in [0,1], 1 exactly for equal texts |
| EditDistance.SimilarityCountsEdits | moss/memory/service.py:1244-1263 | what is missing from 1, times the longer length, is the edit distance |
| EpisodicMemory.Evict | moss/memory/service.py:987-1001 | what is left fits the token budget in its old order, no evicted note is worth more than a kept or later evicted one (of equal value, none has the larger index), and no note is evicted needlessly |
| EpisodicMemory.Weakest | moss/memory/service.py:991-994 | the victim has the least value, of those the least index, and is the first such |
| EpisodicMemory.EvictionConserves | moss/memory/service.py:987-1001 | kept and evicted tokens add up to what there was |
| Lease.LeaseFile.Acquire | moss/runs/lease.py:117-128 | the lease names this process, host and boot with a fresh heartbeat |
| Lease.LeaseFile.Heartbeat | moss/runs/lease.py:130-141 | an own lease is refreshed, a missing or foreign one acquired |
| Lease.LeaseFile.Release | moss/runs/lease.py:143-150 | the lease file is gone, and the answer tells whether it existed |
| Lease.LeaseSafeIff | moss/runs/lease.py:159-193 | over all interleavings of beats, deaths, reboots and takeovers, a live punctual owner keeps its run from acquire on if and only if no takeover judged before acquire is still in flight and no other machine has the owner's host name, or either name is missing |
| Lease.MistakenHostBreaksSafety | moss/runs/lease.py:159-182 | an observer on a machine mistaken for the owner's, where no process has the owner's pid, judges the live punctual owner takeable |
| Lease.TakeoverInFlightBreaksSafety | moss/runs/store.py:337-389 | such an earlier takeover unlinks the lease of the live owner |
| Lease.NoLeaseIsTakeable | moss/runs/coordinator.py:119-125 | it exists: between writing the running status and acquiring, the run reads as stale to everybody |
| Lease.LiveOwnerJudgedIff | moss/runs/lease.py:159-193 | a live punctual owner is judged takeable if and only if the observer has another pid, sits on another machine with an equal or missing host name, and can compare boot ids or finds no such pid |
| Lease.PunctualRunIsSafe | moss/runs/lease.py:159-193 | along every punctual run nobody takes or is about to take the run, if the owner's machine cannot be mistaken |
| Lease.StepSafe | moss/runs/lease.py:159-193 | each step keeps that |
| Lease.DeadOwnerIsInterruptedIff | moss/runs/lease.py:159-193 | once ttl has passed since the last beat, an observer finds the run interrupted if and only if its pid differs from the recorded one |
| Lease.WaitingSuffices | moss/runs/lease.py:159-193 | wherever in a run the owner died, once ttl has passed since its last beat every observer with another pid may take the run: as interrupted, or as stale if the file is already gone |
| Lease.CrashIsSeenAtOnce | moss/runs/lease.py:159-193 | a crash of the owner or of its machine is recognised from that machine at once, until a process there gets its pid |
| Lease.RebootEndsLease | moss/runs/lease.py:169-182 | a restart of the machine ends the lease at once even if the pid is given away again, since the boot id differs |
| Lease.ReleasedStaysReleased | moss/runs/lease.py:143-150 | no later step brings a released lease back |
| Lease.BeatRenewsLease | moss/runs/lease.py:130-141 | a heartbeat of a live owner makes its lease whole and fresh, even one that was taken from it |
| Lease.TwoLostBeatsToleratedIff | moss/runs/lease.py:214-246 | two consecutive lost background beats keep the lease fresh in every schedule if and only if ttl is at least 3 seconds |
| AgentLoop.AgentRun.Run | moss/agent/loop.py:95-114 | the run ends within the larger of 3*max_steps and max_steps + 4 iterations, and makes exactly that many when no fault strikes, no turn ends it and its steps are not used up, with the run invariant kept; it raises exactly when it met a fault, and otherwise is closed; a run that met one fault has its run_finished if and only if the fault struck while the status was running or after run_finished was written, and in the first case it is closed as failed |
| AgentLoop.AgentRun.RunLoop | moss/agent/loop.py:182-501 | at most the larger of 3*max_steps and max_steps + 4 iterations, and exactly that many attempts when no turn ends the run and the steps are not used up; tool steps stay within max_steps, model turns within attempts + 1, and Completed needs a final answer |
| AgentLoop.AgentRun.OneTurn | moss/agent/loop.py:195-345 | one iteration counts at most one attempt; hard budget, overflow and model error end it with their status; it raises exactly when it met a fault |
| AgentLoop.AgentRun.AskModel | moss/agent/loop.py:209-345 | a prompt that cannot be sent or a model error ends the run as failed, and nothing else does; a model turn is counted only for a sent request |
| AgentLoop.AgentRun.ActOnReply | moss/agent/loop.py:346-461 | the step count grows by the calls that fit; the run completes exactly on a final answer that needs no verification round |
| AgentLoop.AgentRun.ExecuteToolBatch | moss/agent/loop.py:559-657 | the batch is cut to the remaining steps, and every call, step and event of it is accounted for |
| AgentLoop.AgentRun.MaybeNudgeConvergence | moss/agent/loop.py:737-769 | the notice is sent once, when 80 percent of at least 12 steps are used |
| AgentLoop.AgentRun.RequestVerification | moss/agent/loop.py:412-430 | the verification request is made once, in the trace and in the history |
| AgentLoop.AgentRun.SynthesizeFinalAnswer | moss/agent/loop.py:771-846 | at most one extra model turn |
| AgentLoop.AgentRun.StopAtLimit | moss/agent/loop.py:463-501 | out of steps or attempts, the run is closed as stopped |
| AgentLoop.AgentRun.FinishEarly | moss/agent/loop.py:848-924 | budget, overflow and model-error endings report the cause, then checkpoint and run_finished with the terminal status |
| AgentLoop.AgentRun.FinishSuccess | moss/agent/loop.py:432-461 | success records the answer, then checkpoint and run_finished |
| AgentLoop.AgentRun.FinishInterrupted | moss/agent/loop.py:926-973 | unless a fault strikes again, a run still running is closed as failed with run_interrupted, checkpoint_created and run_finished; a run with a terminal status is left as it is |
| AgentLoop.StrandedRun | moss/agent/loop.py:437-458 | a concrete schedule: one fault at the checkpoint after the status became completed leaves a completed run without run_finished |
| AgentLoop.AgentRun.CloseRun | moss/agent/loop.py:439-461 | every ending leaves exactly checkpoint_created and run_finished, in that order |
| RunBudget.Budget.Consume | moss/agent/budget.py:41-52 | steps and tokens add up each in its own dimension, elapsed time is replaced unless zero, and an unknown price changes no cost |
| RunBudget.Budget.HardExceeded | moss/agent/budget.py:63-70 | the first dimension at its limit; there is one exactly when steps, tokens, time or known cost have reached a limit that is set |
| RunBudget.Budget.SoftExceeded | moss/agent/budget.py:72-84 | the first unreported dimension at 80 percent, which is then marked |
| RunBudget.DueMeans | moss/agent/budget.py:54-84 | the answer in plain values: the first of steps, input tokens, output tokens, time and cost that has reached its limit; a limit of 0 is none, and an unknown cost reaches nothing |
| RunBudget.SpendingAddsUp | moss/agent/budget.py:41-52 | over every run steps and tokens are the sums of what was used, each in its own dimension, and the clock shows the last reading that was not zero |
| RunBudget.ReportedOnce | moss/agent/budget.py:72-84 | over every run each dimension is reported at most once |
| RunBudget.NoticeStillPossibleIff | moss/agent/loop.py:526-541 | a dimension past its soft threshold can still get its notice if and only if nobody has asked about it: the compaction trigger asks and discards the answer |
| RunBudget.CompactionSwallowsNotice | moss/agent/loop.py:539-540 | a threshold crossed before the compaction question never gets its notice |
| RunBudget.HardIsPermanent | moss/agent/budget.py:63-70 | once over a limit always over it, and the soft threshold is reached no later |
| RunBudget.CostLimitIff | moss/agent/budget.py:48-70 | the cost limit stops a run if and only if the known prices alone reach it |
| RunBudget.UnknownPriceNeverStops | moss/agent/budget.py:33-35 | so with no known price at all the cost limit stops nothing |
| Checkpoints.Session.CreateCheckpoint | moss/runs/checkpoint.py:411-452 | the new checkpoint is current, the forest stays valid and at most 40 items remain |
| Checkpoints.Session.PruneCheckpoints | moss/runs/checkpoint.py:398-408 | the items become items[-limit:], with the current one put back when it is not among them |
| Checkpoints.Session.ForkSession | moss/runs/checkpoint.py:218-254 | the ancestor walk ends, fails exactly on an unknown id, and gives a valid session with the specified chain and history length |
| Checkpoints.ForkIsRootToFork | moss/runs/checkpoint.py:218-254 | a fork holds exactly the stored ancestors, root first: each parent directly before its child, the fork last, and no stored parent before the first |
| Checkpoints.CreateKeepsForest | moss/runs/checkpoint.py:398-452 | after a create the new checkpoint is last, current and child of the former current one |
| Checkpoints.PruneKeepsForestIff | moss/runs/checkpoint.py:398-408 | pruning any valid session keeps the forest if and only if the current checkpoint is among the newest or has no child there; the current one always survives, in at most limit + 1 items, and a limit of 0 prunes nothing |
| Checkpoints.PruneKeepsNewest | moss/runs/checkpoint.py:398-408 | exactly the newest limit checkpoints stay, in order, and behind them the current one if it is older |
| Checkpoints.CreateKeepsNewest | moss/runs/checkpoint.py:398-452 | a create keeps all earlier checkpoints or the 39 newest |
| Checkpoints.OperationOutcome | moss/runs/checkpoint.py:204-254 | what create, rewind and fork leave of any valid session; an unknown id changes nothing |
| Checkpoints.RewindKeepsForest | moss/runs/rewind.py:120-147 | rewinding keeps the forest and makes the target current |
| Checkpoints.AncestryIsParentChain | moss/runs/checkpoint.py:236-244 | the walk follows parents until one is not stored |
| Checkpoints.CheckpointsStayAForest | moss/runs/checkpoint.py:204-254 | over every sequence of create, prune, rewind and fork with fresh ids every parent is absent or earlier, and the current id is stored |
| Recording.Cassette.Record | moss/providers/recording.py:150-160 | the next file carries the count of files so far and the fingerprint prefix |
| Recording.RecordAll | moss/providers/recording.py:224-234 | a session of calls leaves one file per call, in order |
| Recording.ReplayClient.constructor | moss/providers/recording.py:295-302 | the queues hold the sorted entries by fingerprint |
| Recording.ReplayClient.Take | moss/providers/recording.py:307-316 | the k-th request of a fingerprint gets its k-th entry, then the last one for ever |
| Recording.ReplayAll | moss/providers/recording.py:307-316 | a whole session of requests gets exactly the specified answers |
| Recording.LoadedInOrder | moss/providers/recording.py:134-160 | up to 1000 recorded calls are loaded in the order they were made |
| Recording.RoundTrip | moss/providers/recording.py:295-316 | up to 1000 calls: the k-th request of a fingerprint gets the response of its k-th recorded call, whatever is asked in between |
| Recording.LastResponseRepeats | moss/providers/recording.py:307-316 | past its recorded calls a fingerprint keeps getting its last response, and one never recorded gets none |
| Recording.SameOrderRoundTrip | moss/providers/recording.py:295-316 | replaying the same requests in the same order gives every recorded response, with no miss |
| Recording.FaithfulUpToThousandIff | moss/providers/recording.py:153-160 | recordings of n calls replay faithfully for all calls if and only if n is at most 1000 |
| TextSort.SortedIsStableOrderedPermutation | moss/providers/recording.py:134-137 | sorting by text, in either direction, is an ordered stable permutation |
| TextSort.OrderedIsDetermined | moss/runs/index.py:92-92 | an ordered list is determined by its groups of equal keys |
| TextSort.BeforeIff | moss/runs/index.py:92-92 | text order: a proper prefix comes first, otherwise the smaller character where two texts first differ |
| RunIndex.Index.Entries | moss/runs/index.py:81-92 | the fold of the log by run id, newest first |
| RunIndex.Index.Record | moss/runs/index.py:124-148 | the record is appended, automatic compaction leaves entries() unchanged, and with a non-empty id the log has at most three lines per run; the log always means what was ever written |
| RunIndex.Index.CompactIfNeeded | moss/runs/index.py:135-148 | either the log is unchanged or it is rewritten as its entries; what it lists and means is the same |
| RunIndex.EntriesDescribe | moss/runs/index.py:81-92 | entries() lists each recorded run once with its merged fields, in descending start order |
| RunIndex.LaterStartsAreListedFirst | moss/runs/index.py:86-92 | of two listed runs the one with the later start text comes first; a missing start counts as empty |
| RunIndex.MapHoldsLatest | moss/runs/index.py:84-91 | the merged fields of a run are the values last written for each field |
| RunIndex.RewriteIsInvisible | moss/runs/index.py:143-148 | rewriting the log as its entries changes neither the listing, order included, nor the meaning |
| RunIndex.LaterMeaningUnchanged | moss/runs/index.py:135-148 | nor the meaning after any later appends |
| RunIndex.LaterListingUnchanged | moss/runs/index.py:135-148 | nor any later listing with distinct start times |
| RunIndex.RewriteInvisibleToSettledRuns | moss/runs/index.py:135-148 | nor any later listing, runs of equal start included, as long as later lines leave the starts of the listed runs alone |
| RunIndex.RewriteInvisibleForeverIff | moss/runs/index.py:135-148 | a rewrite stays invisible under every later append, order included, if and only if the runs were already folded in listing order |
| RunIndex.RewriteCanReorderTies | moss/runs/index.py:92-92 | but a later tie of start times can be listed in another order than without the rewrite |
| Retention.ExpiredRunIds | moss/runs/index.py:192-213 | a run is archived exactly when some position of the newest-first list makes it expire; without a count limit nothing is |
| Retention.ExpiredRunsAreOld | moss/runs/index.py:192-213 | an archived run is not protected and has no pin that is on, has at least keep_count runs that started no earlier, and started more than keep_days ago if its start can be read |
| Retention.OldRunsExpire | moss/runs/index.py:192-213 | conversely, keep_count strictly newer runs and nothing that protects it archive a run |
| Retention.DayLimitSparesIff | moss/runs/index.py:207-212 | behind keep_count strictly newer runs, the day limit spares an unprotected run if and only if its start is readable and recent; an unreadable start is archived |
| AtomicIO.Appender.AppendLine | moss/atomic_io.py:133-153 | the terminated line is appended to its file only; the counter and the unsynced lines of that file change as specified, no other file's do, and a failed fsync is noted by name |
| AtomicIO.AppendWritesOneRecord | moss/atomic_io.py:133-153 | appending a record to a file of complete records gives exactly one more, whether or not it brings its own newline |
| AtomicIO.Appender.RestartProcess | moss/atomic_io.py:31-33 | a new process starts with empty counters and no noted degradation, the files and their unsynced lines as they were |
| AtomicIO.BoundKeptIff | moss/atomic_io.py:143-152 | from a given state of a file, appends of one process with working fsyncs never leave more than fsync_every - 1 lines unsynced if and only if no more lines are unsynced than the process has counted |
| AtomicIO.BoundKeptUnlessSpoiled | moss/atomic_io.py:133-186 | over every history of appends, tail truncations and process restarts, that is so if and only if, since the last working fsync of the file, no due fsync failed and no process ended with unsynced lines |
| AtomicIO.ShortProcessesPileUp | moss/atomic_io.py:143-152 | k processes that each end before their first fsync leave k*(fsync_every - 1) lines unsynced, every fsync working |
| AtomicIO.BoundCanFail | moss/atomic_io.py:25-33 | with the default interval of 20, two such processes leave 38 lines at risk, and one failed fsync leaves 20 |
| AtomicIO.Appender.TruncatePartialTail | moss/atomic_io.py:156-186 | a missing file is left alone; otherwise the file is truncated as specified, the dropped bytes counted, the event noted under its own name, and a working fsync makes the rest of the file durable |
| AtomicIO.TornTailIff | moss/atomic_io.py:156-186 | behind complete records, truncation restores exactly the records if and only if the rest does not end in a carriage return |
| AtomicIO.TornAppendRecovers | moss/atomic_io.py:156-186 | whatever part of an append reached the file, truncation leaves the old records, or all with the new one if its newline was written |
| AtomicIO.ReadLastLine | moss/atomic_io.py:189-215 | for every chunk size the backward loop gives the whole-file answer |
| AtomicIO.TailDecides | moss/atomic_io.py:205-213 | once a newline is inside the stripped tail, the rest of the file cannot matter |
| AtomicIO.LastRecordIsLastLine | moss/atomic_io.py:189-215 | the last non-empty record is found behind any number of blank lines |
| AtomicIO.RecoveredLastLine | moss/atomic_io.py:156-215 | after recovery from a torn append the last line is the last complete record |
| AtomicIO.PowerSafeIff | moss/atomic_io.py:92-98 | a sequence of write steps leaves old or new content at every power cut if and only if it never renames an unsynced file |
| AtomicIO.WriteAtomicIsAtomic | moss/atomic_io.py:92-125 | the order used with fsync is safe and ends durably new; without fsync, or with rename before fsync, it is not |
| Estimators.DrawsCount | moss/evaluation/stats.py:37-47 | math.comb counts the k-element subsets |
| Estimators.EstimatorsAreShares | moss/evaluation/stats.py:37-47 | the estimators are the fractions of k-subsets that succeed throughout and at least once, and the first is at most the second |
| Estimators.MonotoneInSuccesses | moss/evaluation/stats.py:37-47 | more successes never lower either estimate |
| Estimators.AgreeAtOne | moss/evaluation/stats.py:37-47 | at k = 1 both are the plain success rate |
| Estimators.EstimateIff | moss/evaluation/stats.py:30-47 | a value is returned exactly for valid inputs, and it is a probability |

## Left out

- Provider clients, streaming, JSON extraction, command line, terminal rendering, sandbox and policy: plumbing around external effects.
- Approval dialogs, hooks, MCP, skills, delegation: arbitrary answers in the models above.
- Parallel tool batches: only the history they write in order is modelled; memory updates of parallel and serial batches differ and are not compared.
- Recovery.RunInv: every file action carries its approval fingerprint; a path that cannot be resolved at approval time is not modelled.
- Undo capture, symlink resolution and the git-stash part of approval receipts: the model has one fingerprint per file action and none for shell actions.
- Session.Session.CompactContext: the prose of the summary, its fingerprint and the usage of a helper model are parameters or absent.
- Compaction.Compact: the rule-based extraction is in Handoff; model-written extraction and the rendered artifact are not modelled.
- Handoff.ExtractRule: findings, which only render result text, are not modelled; texts arrive stripped.
- MemoryStore.VerbAt: subject patterns are modelled on lower-case English word lists, without aliases and without the Chinese patterns.
- MemoryStore.MemoryStore.Refresh: which records are stale is a given predicate; files are not read.
- Procedural memory records and the migration of old stores: they bypass conflict resolution.
- Retrieval ranking of memories, embeddings and repository maps: scoring only.
- PromptBudget.CompressedHistory: the one-line forms of older entries are given as input lines.
- PromptBudget.Build: every reducible section has a budget, as in the default configuration, and context reduction is on.
- PromptBudget.PhaseShiftConserves: the 5 percent share is taken as an exact twentieth.
- Append-only history messages with stored artifacts: nothing in the repository writes such artifacts.
- NativeHistory.NativeToolTurn: block texts and clipping are not modelled; a block remembers the entry it shows.
- Token calibration files and exact tokenizers: file handling around the measures covered here.
- EpisodicMemory.Evict: a note's value and size are given; the decay formula is floating point.
- Lease.LeaseFile.Acquire: unreadable lease files and unparsable ttl values are not modelled.
- AgentLoop.AgentRun.Run: stall detection, plan pressure, context offloading and retries inside a model call are merged into calls that may raise.
- Checkpoints.Session.CreateCheckpoint: summaries, fingerprints and resume checks of a checkpoint are not modelled.
- Recording.Cassette.Record: unreadable cassette files and the nearest and passthrough miss policies are not modelled.
- RunIndex.Index.Record: numbers stand as their text; a broken last line is skipped by the source and is not part of the log here.
- Retention.ExpiredRunIds: parsing of timestamps is a given function; archiving itself is not modelled.
- AtomicIO.BoundKeptUnlessSpoiled: processes follow one another; two appending to one file at the same time are not modelled.
- AtomicIO.ReadLastLine: decoding and stripping of the returned line are not modelled; a line is its bytes.
- AtomicIO.WriteAtomicIsAtomic: the clean-up of temporary files after an exception is not modelled.
- Bootstrap and Wilson intervals, metrics, judges and reports of the evaluation code: floating point or glue.
