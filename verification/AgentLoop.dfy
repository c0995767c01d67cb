/**
  The control loop of moss/agent/loop.py with the counters of moss/agent/state.py.

  The model, the tools and every other collaborator are oracles: `turns` says what the
  n-th iteration meets, and `faults` whether the n-th call into a collaborator raises,
  before or after taking effect.  Calls without an effect on the fields below are merged.
*/
module AgentLoop {
  import opened History

  datatype Status = Running | Completed | Stopped | Failed

  datatype Event = RunFinished(status: Status) | VerificationRequested | ConvergenceNudge | OtherEvent(name: string)

  datatype Note = VerificationNote | ConvergenceNote | OtherNote

  datatype Fault = NoFault | RaisesBefore | RaisesAfter

  /** One parsed reply: its tool calls, and whether a final answer follows them. */
  datatype Turn = Turn(
    hardExceeded: bool,
    sendable: bool,
    modelRaises: bool,
    softNotice: bool,
    toolCalls: nat,
    final: bool,
    changedUnverified: bool)

  /** The extra call made at the step limit: not tried, failed, or answered. */
  datatype Synthesis = NotTried | NoAnswer | Answer

  function Larger(x: nat, y: nat): nat {
    if x <= y then y else x
  }

  function MaxAttempts(maxSteps: nat): nat {
    Larger(maxSteps * 3, maxSteps + 4)
  }

  function CountFinished(trace: seq<Event>): nat {
    if |trace| == 0 then 0
    else CountFinished(trace[..|trace| - 1]) + if trace[|trace| - 1].RunFinished? then 1 else 0
  }

  function CountOf<T(==)>(xs: seq<T>, x: T): nat {
    if |xs| == 0 then 0 else CountOf(xs[..|xs| - 1], x) + if xs[|xs| - 1] == x then 1 else 0
  }

  function Once(flag: bool): nat {
    if flag then 1 else 0
  }

  /**
    run_finished appears at most once, only in a terminal status, and reports the final
    one; the two notices of the trace appear only once their flag is set, and then once.
  */
  ghost predicate TraceOk(trace: seq<Event>, status: Status, verification: bool, convergence: bool) {
    && CountFinished(trace) <= 1
    && (status == Running ==> CountFinished(trace) == 0)
    && (forall e <- trace :: e.RunFinished? ==> e.status == status && status != Running)
    && CountOf(trace, VerificationRequested) <= Once(verification)
    && CountOf(trace, ConvergenceNudge) <= Once(convergence)
  }

  /** The same for the prompts the model sees. */
  ghost predicate NotesOk(history: seq<Note>, verification: bool, convergence: bool) {
    && CountOf(history, VerificationNote) <= Once(verification)
    && CountOf(history, ConvergenceNote) <= Once(convergence)
  }

  lemma CountAppend<T>(xs: seq<T>, x: T, y: T)
    ensures CountOf(xs + [y], x) == CountOf(xs, x) + if x == y then 1 else 0
  {
    assert (xs + [y])[..|xs|] == xs;
  }

  lemma TraceAppend(trace: seq<Event>, e: Event)
    ensures CountFinished(trace + [e]) == CountFinished(trace) + if e.RunFinished? then 1 else 0
    ensures CountOf(trace + [e], VerificationRequested)
         == CountOf(trace, VerificationRequested) + if e == VerificationRequested then 1 else 0
    ensures CountOf(trace + [e], ConvergenceNudge)
         == CountOf(trace, ConvergenceNudge) + if e == ConvergenceNudge then 1 else 0
  {
    assert (trace + [e])[..|trace|] == trace;
  }

  lemma NoticeAppended(trace: seq<Event>, status: Status, v: bool, c: bool, e: Event)
    requires e == VerificationRequested || e == ConvergenceNudge
    requires TraceOk(trace, status, v && e != VerificationRequested, c && e != ConvergenceNudge)
    requires (e == VerificationRequested ==> v) && (e == ConvergenceNudge ==> c)
    ensures TraceOk(trace, status, v, c) && TraceOk(trace + [e], status, v, c)
  {
    TraceAppend(trace, e);
    hide CountFinished, CountOf;
  }

  lemma OtherAppended(trace: seq<Event>, status: Status, v: bool, c: bool, name: string)
    requires TraceOk(trace, status, v, c)
    ensures TraceOk(trace + [OtherEvent(name)], status, v, c)
    ensures CountFinished(trace + [OtherEvent(name)]) == CountFinished(trace)
  {
    TraceAppend(trace, OtherEvent(name));
    hide CountFinished, CountOf;
  }

  lemma OtherNoted(history: seq<Note>, v: bool, c: bool)
    requires NotesOk(history, v, c)
    ensures NotesOk(history + [OtherNote], v, c)
  {
    CountAppend(history, VerificationNote, OtherNote);
    CountAppend(history, ConvergenceNote, OtherNote);
    hide CountOf;
  }

  lemma NoticeNoted(history: seq<Note>, v: bool, c: bool, note: Note)
    requires note == VerificationNote || note == ConvergenceNote
    requires NotesOk(history, v && note != VerificationNote, c && note != ConvergenceNote)
    requires (note == VerificationNote ==> v) && (note == ConvergenceNote ==> c)
    ensures NotesOk(history, v, c) && NotesOk(history + [note], v, c)
  {
    CountAppend(history, VerificationNote, note);
    CountAppend(history, ConvergenceNote, note);
    hide CountOf;
  }

  /** Setting a flag only widens what is allowed. */
  lemma WiderNotes(history: seq<Note>, flag: bool)
    ensures NotesOk(history, flag, false) ==> NotesOk(history, flag, true)
    ensures NotesOk(history, false, flag) ==> NotesOk(history, true, flag)
  {
  }

  /** A new status before anything was reported. */
  lemma StatusChange(trace: seq<Event>, status: Status, status': Status, v: bool, c: bool)
    requires TraceOk(trace, status, v, c) && CountFinished(trace) == 0
    ensures TraceOk(trace, status', v, c)
  {
    NoneFinished(trace);
  }

  lemma {:induction false} NoneFinished(trace: seq<Event>)
    requires CountFinished(trace) == 0
    ensures forall e <- trace :: !e.RunFinished?
    decreases |trace|
  {
    if |trace| > 0 {
      NoneFinished(trace[..|trace| - 1]);
      assert trace == trace[..|trace| - 1] + [trace[|trace| - 1]];
    }
  }

  /** The status of a run that this turn ends. */
  function EndStatus(turn: Turn): Status {
    if turn.hardExceeded then Stopped else if !turn.sendable || turn.modelRaises then Failed else Completed
  }

  /** The events every ending leaves. */
  function Closing(status: Status): seq<Event> {
    [OtherEvent("checkpoint_created"), RunFinished(status)]
  }

  function ToolEvents(n: nat): seq<Event> {
    if n == 0 then [] else ToolEvents(n - 1) + [OtherEvent("tool_executed")]
  }

  const CONVERGE_MIN_STEPS: nat := 12

  // ---- Faults ----

  /** What the run looked like when the first fault struck: its status, and whether run_finished was written. */
  datatype Strike = Strike(status: Status, written: bool)

  ghost function FaultsBefore(faults: nat -> Fault, n: nat): nat {
    if n == 0 then 0 else FaultsBefore(faults, n - 1) + Once(faults(n - 1) != NoFault)
  }

  /** A call raised exactly when the stretch of time it took met a fault, and then just one. */
  ghost predicate Ticked(faults: nat -> Fault, from: nat, to: nat, raised: bool) {
    from <= to && FaultsBefore(faults, to) == FaultsBefore(faults, from) + Once(raised)
  }

  lemma NoFaultsYet(faults: nat -> Fault)
    ensures FaultsBefore(faults, 0) == 0
  {
  }

  lemma OneTick(faults: nat -> Fault, n: nat)
    ensures Ticked(faults, n, n + 1, faults(n) != NoFault)
  {
  }

  ghost function NextStrike(struck: Option<Strike>, status: Status, trace: seq<Event>): Option<Strike> {
    if struck.None? then Some(Strike(status, CountFinished(trace) == 1)) else struck
  }

  /** The first `n` calls from `from` on meet no fault, and the next one does. */
  ghost predicate FaultAfter(faults: nat -> Fault, from: nat, n: nat) {
    faults(from + n) != NoFault && forall k :: from <= k < from + n ==> faults(k) == NoFault
  }

  /** A reply that ends the run at once: no tools, no notice, nothing left to verify. */
  predicate Plain(turn: Turn) {
    && !turn.hardExceeded && turn.sendable && !turn.modelRaises && !turn.softNotice
    && turn.toolCalls == 0 && turn.final && !turn.changedUnverified
  }

  /** A reply that neither ends the run nor asks for verification. */
  predicate Dull(turn: Turn) {
    !turn.hardExceeded && turn.sendable && !turn.modelRaises && !turn.final
  }

  class AgentRun {
    const maxSteps: nat
    const verifyBeforeFinal: bool
    const turns: nat -> Turn
    const synthesis: Synthesis
    const faults: nat -> Fault

    var created: bool
    var status: Status
    var toolSteps: nat
    var attempts: nat
    var modelTurns: nat
    var toolCalls: nat
    var verificationRequested: bool
    var convergeNoticeSent: bool
    var leaseHeld: bool
    var trace: seq<Event>
    var history: seq<Note>
    var clock: nat
    ghost var iterations: nat
    ghost var struck: Option<Strike>

    constructor (maxSteps: nat, verifyBeforeFinal: bool, turns: nat -> Turn, synthesis: Synthesis, faults: nat -> Fault)
      ensures Sound() && !created && status == Running && trace == []
      ensures this.maxSteps == maxSteps && attempts == modelTurns == toolSteps == iterations == 0
      ensures this.turns == turns && this.synthesis == synthesis && this.faults == faults
      ensures this.verifyBeforeFinal == verifyBeforeFinal && clock == 0 && struck.None?
    {
      this.maxSteps, this.verifyBeforeFinal := maxSteps, verifyBeforeFinal;
      this.turns, this.synthesis, this.faults := turns, synthesis, faults;
      created, status, toolSteps, attempts, modelTurns, toolCalls := false, Running, 0, 0, 0, 0;
      verificationRequested, convergeNoticeSent, leaseHeld := false, false, false;
      trace, history, clock, iterations, struck := [], [], 0, 0, None;
    }

    /** What holds at every point of a run, exceptions included. */
    ghost predicate Sound()
      reads this
    {
      && toolSteps <= maxSteps && toolSteps <= toolCalls
      && modelTurns <= attempts + 1
      && TraceOk(trace, status, verificationRequested, convergeNoticeSent)
      && NotesOk(history, verificationRequested, convergeNoticeSent)
    }

    /** The run was closed: a terminal status, reported by the one run_finished, and the lease given back. */
    ghost predicate Closed()
      reads this
    {
      status != Running && CountFinished(trace) == 1 && !leaseHeld
    }

    lemma NotFinishedYet()
      requires TraceOk(trace, status, verificationRequested, convergeNoticeSent) && status == Running
      ensures CountFinished(trace) == 0
    {
    }

    // ---- Calls that may raise ----

    method Emit(name: string) returns (raised: bool)
      requires TraceOk(trace, status, verificationRequested, convergeNoticeSent)
      modifies `trace, `clock, `struck
      ensures TraceOk(trace, status, verificationRequested, convergeNoticeSent)
      ensures CountFinished(trace) == old(CountFinished(trace))
      ensures trace == old(trace) + [OtherEvent(name)] || (raised && trace == old(trace))
      ensures Ticked(faults, old(clock), clock, raised)
      ensures struck == if raised then NextStrike(old(struck), status, trace) else old(struck)
      ensures clock == old(clock) + 1 && (raised <==> faults(old(clock)) != NoFault)
    {
      OtherAppended(trace, status, verificationRequested, convergeNoticeSent, name);
      hide TraceOk, CountFinished;
      OneTick(faults, clock);
      var fault := faults(clock);
      clock := clock + 1;
      raised := fault != NoFault;
      if fault != RaisesBefore {
        trace := trace + [OtherEvent(name)];
      }
      struck := if raised then NextStrike(struck, status, trace) else struck;
    }

    method EmitFinished() returns (raised: bool)
      requires TraceOk(trace, status, verificationRequested, convergeNoticeSent)
      requires status != Running && CountFinished(trace) == 0
      modifies `trace, `clock, `struck
      ensures TraceOk(trace, status, verificationRequested, convergeNoticeSent)
      ensures !raised ==> CountFinished(trace) == 1
      ensures trace == old(trace) + [RunFinished(status)] || (raised && trace == old(trace))
      ensures Ticked(faults, old(clock), clock, raised)
      ensures struck == if raised then NextStrike(old(struck), status, trace) else old(struck)
      ensures clock == old(clock) + 1 && (raised <==> faults(old(clock)) != NoFault)
    {
      TraceAppend(trace, RunFinished(status));
      OneTick(faults, clock);
      var fault := faults(clock);
      clock := clock + 1;
      raised := fault != NoFault;
      if fault != RaisesBefore {
        trace := trace + [RunFinished(status)];
      }
      struck := if raised then NextStrike(struck, status, trace) else struck;
    }

    method Record() returns (raised: bool)
      requires NotesOk(history, verificationRequested, convergeNoticeSent)
      modifies `history, `clock, `struck
      ensures NotesOk(history, verificationRequested, convergeNoticeSent)
      ensures history == old(history) + [OtherNote] || (raised && history == old(history))
      ensures Ticked(faults, old(clock), clock, raised)
      ensures struck == if raised then NextStrike(old(struck), status, trace) else old(struck)
      ensures clock == old(clock) + 1 && (raised <==> faults(old(clock)) != NoFault)
    {
      OtherNoted(history, verificationRequested, convergeNoticeSent);
      hide NotesOk;
      OneTick(faults, clock);
      var fault := faults(clock);
      clock := clock + 1;
      raised := fault != NoFault;
      if fault != RaisesBefore {
        history := history + [OtherNote];
      }
      struck := if raised then NextStrike(struck, status, trace) else struck;
    }

    /** A notice whose flag has just been set. */
    method EmitNotice(e: Event) returns (raised: bool)
      requires e == VerificationRequested || e == ConvergenceNudge
      requires TraceOk(trace, status, verificationRequested && e != VerificationRequested,
                       convergeNoticeSent && e != ConvergenceNudge)
      requires e == VerificationRequested ==> verificationRequested
      requires e == ConvergenceNudge ==> convergeNoticeSent
      modifies `trace, `clock, `struck
      ensures TraceOk(trace, status, verificationRequested, convergeNoticeSent)
      ensures trace == old(trace) + [e] || (raised && trace == old(trace))
      ensures Ticked(faults, old(clock), clock, raised)
      ensures struck == if raised then NextStrike(old(struck), status, trace) else old(struck)
      ensures clock == old(clock) + 1 && (raised <==> faults(old(clock)) != NoFault)
    {
      NoticeAppended(trace, status, verificationRequested, convergeNoticeSent, e);
      hide TraceOk;
      OneTick(faults, clock);
      var fault := faults(clock);
      clock := clock + 1;
      raised := fault != NoFault;
      if fault != RaisesBefore {
        trace := trace + [e];
      }
      struck := if raised then NextStrike(struck, status, trace) else struck;
    }

    method RecordNotice(note: Note) returns (raised: bool)
      requires note == VerificationNote || note == ConvergenceNote
      requires NotesOk(history, verificationRequested && note != VerificationNote,
                       convergeNoticeSent && note != ConvergenceNote)
      requires note == VerificationNote ==> verificationRequested
      requires note == ConvergenceNote ==> convergeNoticeSent
      modifies `history, `clock, `struck
      ensures NotesOk(history, verificationRequested, convergeNoticeSent)
      ensures history == old(history) + [note] || (raised && history == old(history))
      ensures Ticked(faults, old(clock), clock, raised)
      ensures struck == if raised then NextStrike(old(struck), status, trace) else old(struck)
      ensures clock == old(clock) + 1 && (raised <==> faults(old(clock)) != NoFault)
    {
      NoticeNoted(history, verificationRequested, convergeNoticeSent, note);
      hide NotesOk;
      OneTick(faults, clock);
      var fault := faults(clock);
      clock := clock + 1;
      raised := fault != NoFault;
      if fault != RaisesBefore {
        history := history + [note];
      }
      struck := if raised then NextStrike(struck, status, trace) else struck;
    }

    method Call() returns (raised: bool)
      modifies `clock, `struck
      ensures Ticked(faults, old(clock), clock, raised)
      ensures struck == if raised then NextStrike(old(struck), status, trace) else old(struck)
      ensures clock == old(clock) + 1 && (raised <==> faults(old(clock)) != NoFault)
    {
      OneTick(faults, clock);
      raised := faults(clock) != NoFault;
      clock := clock + 1;
      struck := if raised then NextStrike(struck, status, trace) else struck;
    }

    // ---- Ways to finish ----

    /** Checkpoint, run_finished, report and lease release, shared by all endings. */
    method CloseRun() returns (raised: bool)
      requires Sound() && status != Running && CountFinished(trace) == 0
      modifies `trace, `clock, `leaseHeld, `struck
      ensures Sound()
      ensures !raised ==> Closed() && trace == old(trace) + Closing(status)
      ensures Ticked(faults, old(clock), clock, raised)
      ensures struck == if raised then NextStrike(old(struck), status, trace) else old(struck)
      ensures FaultAfter(faults, old(clock), 0) ==> raised && trace == old(trace)
    {
      hide TraceOk, NotesOk, CountFinished, FaultsBefore, NextStrike;
      raised := Call();
      if raised { return; }
      raised := Emit("checkpoint_created");
      if raised { return; }
      raised := EmitFinished();
      if raised { return; }
      raised := Call();
      if raised { return; }
      leaseHeld := false;
    }

    /** _finish_budget_exceeded, _finish_context_overflow and _finish_model_error. */
    method FinishEarly(cause: string, terminal: Status) returns (raised: bool)
      requires Sound() && status == Running && terminal != Running
      modifies `status, `trace, `history, `clock, `leaseHeld, `struck
      ensures Sound()
      ensures !raised ==> status == terminal && Closed()
      ensures !raised ==> trace == old(trace) + [OtherEvent(cause)] + Closing(terminal) && history == old(history) + [OtherNote]
      ensures Ticked(faults, old(clock), clock, raised)
      ensures struck == if raised then NextStrike(old(struck), status, trace) else old(struck)
    {
      hide TraceOk, NotesOk, CountFinished, FaultsBefore, NextStrike;
      raised := Emit(cause);
      if raised { return; }
      NotFinishedYet();
      StatusChange(trace, status, terminal, verificationRequested, convergeNoticeSent);
      status := terminal;
      raised := Record();
      if raised { return; }
      raised := CloseRun();
    }

    method FinishSuccess() returns (raised: bool)
      requires Sound() && status == Running
      modifies `status, `trace, `history, `clock, `leaseHeld, `struck
      ensures Sound()
      ensures !raised ==> status == Completed && Closed()
      ensures !raised ==> trace == old(trace) + Closing(Completed) && history == old(history) + [OtherNote]
      ensures Ticked(faults, old(clock), clock, raised)
      ensures struck == if raised then NextStrike(old(struck), status, trace) else old(struck)
      ensures FaultAfter(faults, old(clock), 1) ==> raised && status == Completed && trace == old(trace)
    {
      hide TraceOk, NotesOk, CountFinished, FaultsBefore, NextStrike;
      raised := Record();
      if raised { return; }
      NotFinishedYet();
      StatusChange(trace, status, Completed, verificationRequested, convergeNoticeSent);
      status := Completed;
      raised := CloseRun();
    }

    /** _finish_interrupted never raises an Exception of its own; it stops at the first fault. */
    method FinishInterrupted()
      requires Sound()
      modifies `status, `trace, `history, `clock, `leaseHeld, `struck
      ensures Sound()
      ensures old(!created || status != Running) ==> status == old(status) && trace == old(trace)
      ensures status == old(status) || status == Failed
      ensures old(created && status == Running) && FaultsBefore(faults, clock) == old(FaultsBefore(faults, clock)) ==>
                status == Failed && Closed() && trace == old(trace) + [OtherEvent("run_interrupted")] + Closing(Failed)
      ensures old(struck).Some? ==> struck == old(struck)
      ensures old(clock) <= clock && old(FaultsBefore(faults, clock)) <= FaultsBefore(faults, clock)
    {
      hide TraceOk, NotesOk, CountFinished, FaultsBefore;
      if !created || status != Running {
        return;
      }
      var raised := Emit("run_interrupted");
      if raised { return; }
      NotFinishedYet();
      StatusChange(trace, status, Failed, verificationRequested, convergeNoticeSent);
      status := Failed;
      var _ := CloseRun();
    }

    // ---- One batch of tools ----

    method ExecuteToolBatch(requested: nat) returns (raised: bool, used: nat)
      requires Sound() && status == Running
      modifies `toolSteps, `toolCalls, `trace, `history, `clock, `struck
      ensures Sound() && status == Running
      ensures !raised ==> toolSteps == old(toolSteps) + used && toolCalls == old(toolCalls) + used
      ensures !raised ==> trace == old(trace) + if used == 0 then [] else
                [OtherEvent("tools_batch_started")] + ToolEvents(used) + [OtherEvent("tools_batch_finished")]
      ensures !raised ==> used == if requested <= maxSteps - old(toolSteps) then requested else maxSteps - old(toolSteps)
      ensures Ticked(faults, old(clock), clock, raised)
      ensures struck == if raised then NextStrike(old(struck), status, trace) else old(struck)
      ensures requested == 0 ==> !raised && clock == old(clock)
    {
      hide TraceOk, NotesOk, CountFinished, FaultsBefore, NextStrike, ToolEvents;
      var budgetLeft := maxSteps - toolSteps;
      var count := if requested <= budgetLeft then requested else budgetLeft;
      used := 0;
      raised := false;
      if count == 0 {
        return;
      }
      raised := Emit("tools_batch_started");
      if raised { return; }
      raised := RunTools(count);
      if raised { return; }
      raised := RecordTools(count);
      if raised { return; }
      raised := Emit("tools_batch_finished");
      if raised { return; }
      raised := Record();
      used := count;
    }

    method RunTools(count: nat) returns (raised: bool)
      requires Sound() && status == Running
      modifies `toolCalls, `clock, `struck
      ensures Sound()
      ensures toolCalls >= old(toolCalls) && (!raised ==> toolCalls == old(toolCalls) + count)
      ensures Ticked(faults, old(clock), clock, raised)
      ensures struck == if raised then NextStrike(old(struck), status, trace) else old(struck)
    {
      hide TraceOk, NotesOk, CountFinished, FaultsBefore, NextStrike;
      raised := false;
      for k := 0 to count
        invariant Sound() && toolCalls == old(toolCalls) + k
        invariant Ticked(faults, old(clock), clock, false) && struck == old(struck)
      {
        toolCalls := toolCalls + 1;
        raised := Call();
        if raised { return; }
      }
      raised := Call();
    }

    /** The results go on record in order; each one is a step. */
    method RecordTools(count: nat) returns (raised: bool)
      requires Sound() && status == Running && toolSteps + count <= maxSteps && toolSteps + count <= toolCalls
      modifies `toolSteps, `trace, `history, `clock, `struck
      ensures Sound()
      ensures !raised ==> toolSteps == old(toolSteps) + count && trace == old(trace) + ToolEvents(count)
      ensures Ticked(faults, old(clock), clock, raised)
      ensures struck == if raised then NextStrike(old(struck), status, trace) else old(struck)
    {
      hide TraceOk, NotesOk, CountFinished, FaultsBefore, NextStrike;
      raised := false;
      for k := 0 to count
        invariant Sound() && toolSteps == old(toolSteps) + k && trace == old(trace) + ToolEvents(k)
        invariant Ticked(faults, old(clock), clock, false) && struck == old(struck)
      {
        toolSteps := toolSteps + 1;
        raised := Record();
        if raised { return; }
        raised := Emit("tool_executed");
        if raised { return; }
      }
    }

    // ---- Notices ----

    method MaybeNudgeConvergence() returns (raised: bool)
      requires Sound() && status == Running
      modifies `convergeNoticeSent, `trace, `history, `clock, `struck
      ensures Sound() && status == Running
      ensures old(convergeNoticeSent) ==> trace == old(trace) && history == old(history)
      ensures convergeNoticeSent <==>
                old(convergeNoticeSent) || (maxSteps >= 12 && toolSteps >= 1 && 5 * (toolSteps + 1) > 4 * maxSteps)
      ensures !raised && convergeNoticeSent != old(convergeNoticeSent) ==>
                trace == old(trace) + [ConvergenceNudge] && history == old(history) + [ConvergenceNote]
      ensures Ticked(faults, old(clock), clock, raised)
      ensures struck == if raised then NextStrike(old(struck), status, trace) else old(struck)
      ensures maxSteps < CONVERGE_MIN_STEPS ==> !raised && clock == old(clock)
    {
      hide TraceOk, NotesOk, CountFinished, FaultsBefore, NextStrike;
      raised := false;
      var threshold := Larger(1, maxSteps * 4 / 5);
      if convergeNoticeSent || maxSteps < CONVERGE_MIN_STEPS || toolSteps < threshold {
        return;
      }
      convergeNoticeSent := true;
      raised := EmitNotice(ConvergenceNudge);
      if raised {
        WiderNotes(history, verificationRequested);
        return;
      }
      raised := RecordNotice(ConvergenceNote);
    }

    method RequestVerification() returns (raised: bool)
      requires Sound() && status == Running && !verificationRequested
      modifies `verificationRequested, `trace, `history, `clock, `struck
      ensures Sound() && status == Running && verificationRequested
      ensures !raised ==> trace == old(trace) + [VerificationRequested] && history == old(history) + [VerificationNote]
      ensures Ticked(faults, old(clock), clock, raised)
      ensures struck == if raised then NextStrike(old(struck), status, trace) else old(struck)
    {
      hide TraceOk, NotesOk, CountFinished, FaultsBefore, NextStrike;
      verificationRequested := true;
      raised := EmitNotice(VerificationRequested);
      if raised {
        WiderNotes(history, convergeNoticeSent);
        return;
      }
      raised := RecordNotice(VerificationNote);
    }

    // ---- The loop ----

    /** The notice and the heartbeat ahead of every turn. */
    method BeginTurn() returns (raised: bool)
      requires Sound() && status == Running
      modifies `convergeNoticeSent, `trace, `history, `clock, `struck
      ensures Sound() && status == Running
      ensures Ticked(faults, old(clock), clock, raised)
      ensures struck == if raised then NextStrike(old(struck), status, trace) else old(struck)
      ensures maxSteps < CONVERGE_MIN_STEPS && faults(old(clock)) == NoFault ==> !raised && clock == old(clock) + 1
    {
      hide TraceOk, NotesOk, CountFinished, FaultsBefore, NextStrike;
      raised := MaybeNudgeConvergence();
      if raised { return; }
      raised := Call();
    }

    /** The prompt, its admission and the model call; `ended` when one of them ends the run. */
    method AskModel(turn: Turn) returns (raised: bool, ended: bool)
      requires Sound() && status == Running && modelTurns < attempts
      modifies `modelTurns, `status, `trace, `history, `clock, `leaseHeld, `struck
      ensures Sound()
      ensures !raised ==> (ended <==> !turn.sendable || turn.modelRaises)
      ensures !raised && ended ==> Closed() && status == Failed
      ensures !raised && !ended ==> status == Running && modelTurns == old(modelTurns) + 1
      ensures Ticked(faults, old(clock), clock, raised)
      ensures struck == if raised then NextStrike(old(struck), status, trace) else old(struck)
      ensures turn.sendable && !turn.modelRaises && faults(old(clock)) == NoFault && faults(old(clock) + 1) == NoFault ==>
                !raised && clock == old(clock) + 2
    {
      hide TraceOk, NotesOk, CountFinished, FaultsBefore, NextStrike;
      ended := false;
      raised := Call();
      if raised { return; }
      if !turn.sendable {
        ended := true;
        raised := FinishEarly("context_overflow", Failed);
        return;
      }
      raised := Emit("model_requested");
      if raised { return; }
      modelTurns := modelTurns + 1;
      if turn.modelRaises {
        ended := true;
        raised := FinishEarly("model_error", Failed);
      }
    }

    /** One model call and what its reply leads to; `ended` when the run was closed. */
    method OneTurn(turn: Turn) returns (raised: bool, ended: bool, verify: bool)
      requires Sound() && status == Running && toolSteps < maxSteps && modelTurns <= attempts
      modifies this
      ensures Sound() && iterations == old(iterations) && created == old(created)
      ensures attempts == old(attempts) || attempts == old(attempts) + 1
      ensures !raised && !ended ==> status == Running && modelTurns <= attempts && attempts == old(attempts) + 1
      ensures ended && !raised ==> Closed()
      ensures verify && !raised ==> !ended
      ensures !raised && ended ==> status == EndStatus(turn)
      ensures !raised && EndStatus(turn) != Completed ==> ended && toolSteps == old(toolSteps)
      ensures !raised && status == Completed ==> turn.final
      ensures !raised && !ended ==> modelTurns == old(modelTurns) + 1
      ensures !raised && verify ==> turn.final
      ensures Ticked(faults, old(clock), clock, raised)
      ensures struck == if raised then NextStrike(old(struck), status, trace) else old(struck)
      ensures Plain(turn) && maxSteps < CONVERGE_MIN_STEPS && FaultAfter(faults, old(clock), 6) ==>
                raised && status == Completed && CountFinished(trace) == 0
    {
      hide TraceOk, NotesOk, CountFinished, FaultsBefore, NextStrike;
      ended, verify := false, false;
      raised := BeginTurn();
      if raised { return; }
      if turn.hardExceeded {
        ended := true;
        raised := FinishEarly("budget_exceeded", Stopped);
        return;
      }
      attempts := attempts + 1;
      raised, ended := AskModel(turn);
      if raised || ended { return; }
      raised, ended, verify := ActOnReply(turn);
    }

    /** The soft notice, if due, and the parsed reply. */
    method OpenReply(turn: Turn) returns (raised: bool)
      requires Sound() && status == Running
      modifies `trace, `history, `clock, `struck
      ensures Sound() && status == Running
      ensures Ticked(faults, old(clock), clock, raised)
      ensures struck == if raised then NextStrike(old(struck), status, trace) else old(struck)
      ensures !turn.softNotice && faults(old(clock)) == NoFault && faults(old(clock) + 1) == NoFault ==>
                !raised && clock == old(clock) + 2
    {
      hide TraceOk, NotesOk, CountFinished, FaultsBefore, NextStrike;
      raised := Call();
      if raised { return; }
      if turn.softNotice {
        raised := Emit("budget_soft_exceeded");
        if raised { return; }
        raised := Record();
        if raised { return; }
      }
      raised := Emit("model_parsed");
    }

    method ActOnReply(turn: Turn) returns (raised: bool, ended: bool, verify: bool)
      requires Sound() && status == Running && modelTurns <= attempts
      modifies `toolSteps, `toolCalls, `status, `trace, `history, `clock, `leaseHeld, `verificationRequested, `struck
      ensures Sound()
      ensures !raised && !ended ==> status == Running
      ensures ended && !raised ==> Closed() && status == Completed
      ensures verify && !raised ==> !ended
      ensures !raised ==> (verify <==>
                turn.final && verifyBeforeFinal && !old(verificationRequested) && turn.changedUnverified)
      ensures !raised ==> (ended <==> turn.final && !verify)
      ensures !raised ==> toolSteps == if turn.toolCalls <= maxSteps - old(toolSteps) then old(toolSteps) + turn.toolCalls else maxSteps
      ensures Ticked(faults, old(clock), clock, raised)
      ensures struck == if raised then NextStrike(old(struck), status, trace) else old(struck)
      ensures Plain(turn) && FaultAfter(faults, old(clock), 3) ==> raised && status == Completed && CountFinished(trace) == 0
    {
      hide TraceOk, NotesOk, CountFinished, FaultsBefore, NextStrike;
      ended, verify := false, false;
      raised := OpenReply(turn);
      if raised { return; }
      var used;
      raised, used := ExecuteToolBatch(turn.toolCalls);
      if raised { return; }
      if !turn.final {
        raised := Record();
        return;
      }
      if verifyBeforeFinal && !verificationRequested && turn.changedUnverified {
        verify := true;
        raised := RequestVerification();
        return;
      }
      ended := true;
      NotFinishedYet();
      raised := FinishSuccess();
    }

    method SynthesizeFinalAnswer() returns (raised: bool)
      requires Sound() && status == Running && modelTurns <= attempts
      modifies `modelTurns, `trace, `history, `clock, `struck
      ensures Sound() && status == Running
      ensures !raised ==> modelTurns == old(modelTurns) + if synthesis == NotTried then 0 else 1
      ensures Ticked(faults, old(clock), clock, raised)
      ensures struck == if raised then NextStrike(old(struck), status, trace) else old(struck)
    {
      hide TraceOk, NotesOk, CountFinished, FaultsBefore, NextStrike;
      raised := false;
      if synthesis == NotTried {
        return;
      }
      raised := Record();
      if raised { return; }
      raised := Call();
      if raised { return; }
      modelTurns := modelTurns + 1;
      if synthesis == Answer {
        raised := Emit("final_synthesis");
      }
    }

    method RunLoop() returns (raised: bool)
      requires Sound() && status == Running && created && iterations == attempts == modelTurns == toolSteps == 0
      modifies this
      ensures Sound() && created
      ensures (iterations <= 3 * maxSteps || iterations <= maxSteps + 4) && attempts <= iterations
      ensures !raised && (forall n: nat :: n < iterations ==> Dull(turns(n))) ==>
                && status == Stopped && attempts == iterations
                && (toolSteps < maxSteps ==>
                      iterations >= 3 * maxSteps && iterations >= maxSteps + 4 && modelTurns == iterations)
                && (toolSteps == maxSteps ==> modelTurns == iterations + if synthesis == NotTried then 0 else 1)
      ensures !raised ==> Closed()
      ensures !raised && status == Completed ==> exists n :: turns(n).final
      ensures Ticked(faults, old(clock), clock, raised)
      ensures struck == if raised then NextStrike(old(struck), status, trace) else old(struck)
      ensures Plain(turns(0)) && 0 < maxSteps < CONVERGE_MIN_STEPS && FaultAfter(faults, old(clock), 6) ==>
                raised && status == Completed && CountFinished(trace) == 0
    {
      hide TraceOk, NotesOk, CountFinished, FaultsBefore, NextStrike;
      var tries: nat := 0;
      var maxAttempts := MaxAttempts(maxSteps);
      raised := false;
      while toolSteps < maxSteps && tries < maxAttempts
        invariant Sound() && created && status == Running
        invariant modelTurns <= attempts <= iterations <= tries && iterations <= maxAttempts
        invariant Ticked(faults, old(clock), clock, false) && struck == old(struck)
        invariant tries == 0 ==> toolSteps == 0 && clock == old(clock)
        invariant (forall n: nat :: n < iterations ==> Dull(turns(n))) ==> tries == iterations == attempts == modelTurns
        invariant Plain(turns(0)) && 0 < maxSteps < CONVERGE_MIN_STEPS && FaultAfter(faults, old(clock), 6) ==> tries == 0
        decreases maxAttempts - tries
      {
        var turn := turns(tries);
        iterations := iterations + 1;
        var ended, verify;
        raised, ended, verify := OneTurn(turn);
        if raised || ended {
          assert !raised ==> !Dull(turn);
          return;
        }
        tries := tries + if verify then 2 else 1;
      }
      raised := StopAtLimit(!(tries >= maxAttempts && toolSteps < maxSteps));
    }

    /** Out of steps, after one last try for an answer, or out of attempts. */
    method StopAtLimit(steps: bool) returns (raised: bool)
      requires Sound() && status == Running && modelTurns <= attempts
      modifies `modelTurns, `status, `trace, `history, `clock, `leaseHeld, `struck
      ensures Sound()
      ensures !raised ==> Closed() && status == Stopped
      ensures !raised ==> modelTurns == old(modelTurns) + if steps && synthesis != NotTried then 1 else 0
      ensures Ticked(faults, old(clock), clock, raised)
      ensures struck == if raised then NextStrike(old(struck), status, trace) else old(struck)
    {
      hide TraceOk, NotesOk, CountFinished, FaultsBefore, NextStrike;
      if steps {
        raised := SynthesizeFinalAnswer();
        if raised { return; }
      }
      NotFinishedYet();
      StatusChange(trace, status, Stopped, verificationRequested, convergeNoticeSent);
      status := Stopped;
      raised := Record();
      if raised { return; }
      raised := CloseRun();
    }

    /**
      run: an exception out of the loop, from wherever, goes through _finish_interrupted
      and on to the caller.  A run that meets one fault has its run_finished if and only if
      the fault struck while the status was running, or after run_finished was written.
    */
    method Run() returns (raised: bool)
      requires Sound() && !created && status == Running && iterations == attempts == modelTurns == toolSteps == 0
      requires clock == 0 && struck.None?
      modifies this
      ensures Sound()
      ensures (iterations <= 3 * maxSteps || iterations <= maxSteps + 4) && attempts <= iterations
      ensures !raised && (forall n: nat :: n < iterations ==> Dull(turns(n))) ==>
                && status == Stopped && attempts == iterations
                && (toolSteps < maxSteps ==>
                      iterations >= 3 * maxSteps && iterations >= maxSteps + 4 && modelTurns == iterations)
                && (toolSteps == maxSteps ==> modelTurns == iterations + if synthesis == NotTried then 0 else 1)
      ensures raised <==> FaultsBefore(faults, clock) > 0
      ensures raised <==> struck.Some?
      ensures !raised ==> Closed()
      ensures !raised && status == Completed ==> exists n :: turns(n).final
      ensures created && FaultsBefore(faults, clock) == 1 ==>
                (CountFinished(trace) == 1 <==> struck.value.status == Running || struck.value.written)
      ensures created && FaultsBefore(faults, clock) == 1 && struck.value.status == Running ==> status == Failed && Closed()
      ensures created && FaultsBefore(faults, clock) == 1 && struck.value.status != Running ==> status == struck.value.status
      ensures Plain(turns(0)) && 0 < maxSteps < CONVERGE_MIN_STEPS && FaultAfter(faults, 0, 9) ==>
                raised && created && status == Completed && CountFinished(trace) == 0
    {
      NoFaultsYet(faults);
      hide TraceOk, NotesOk, CountFinished, FaultsBefore;
      raised := StartRun();
      if !raised {
        raised := RunLoop();
      }
      if raised {
        FinishInterrupted();
      }
    }

    /** The task state exists from the first call on, the lease after the second. */
    method StartRun() returns (raised: bool)
      requires Sound() && !created && status == Running
      modifies `created, `leaseHeld, `trace, `clock, `struck
      ensures Sound()
      ensures !raised ==> created
      ensures Ticked(faults, old(clock), clock, raised)
      ensures struck == if raised then NextStrike(old(struck), status, trace) else old(struck)
      ensures FaultAfter(faults, old(clock), 9) ==> !raised && FaultAfter(faults, clock, 6)
    {
      hide TraceOk, NotesOk, CountFinished, FaultsBefore, NextStrike;
      raised := Call();
      if raised { return; }
      created := true;
      raised := Call();
      if raised { return; }
      leaseHeld := true;
      raised := Emit("run_started");
    }
  }

  /** The only fault is the n-th call. */
  function OneFault(n: nat): nat -> Fault {
    (k: nat) => if k == n then RaisesBefore else NoFault
  }

  lemma {:induction false} OneFaultCounts(n: nat, k: nat)
    ensures FaultsBefore(OneFault(n), k) == if n < k then 1 else 0
  {
    if k > 0 {
      OneFaultCounts(n, k - 1);
    }
  }

  /**
    A run that answers on its first turn and meets one fault, at the checkpoint right
    after its status became completed: it stays completed and never reports run_finished.
  */
  method StrandedRun() returns (run: AgentRun, raised: bool)
    ensures raised && run.created && run.status == Completed && CountFinished(run.trace) == 0
    ensures run.faults == OneFault(9) && FaultsBefore(run.faults, run.clock) == 1
  {
    hide FaultsBefore, CountFinished;
    var answer := Turn(false, true, false, false, 0, true, false);
    run := new AgentRun(6, true, (_: nat) => answer, NotTried, OneFault(9));
    raised := run.Run();
    OneFaultCounts(9, run.clock);
  }
}
