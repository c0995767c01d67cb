/**
  The run budget: limits in five dimensions, a hard one that ends the run and a soft one
  that is reported once (moss/agent/budget.py, moss/agent/loop.py).
*/
module RunBudget {
  import opened History

  const SOFT_RATIO := 0.8

  datatype Dimension = Steps | InputTokens | OutputTokens | WallClock | Usd

  const DIMENSIONS: seq<Dimension> := [Steps, InputTokens, OutputTokens, WallClock, Usd]

  /** `None` and 0 both mean no limit. */
  datatype Limits = Limits(steps: Option<real>, inputTokens: Option<real>, outputTokens: Option<real>,
                           wallClock: Option<real>, usd: Option<real>)
  {
    function At(d: Dimension): Option<real> {
      var limit := match d
        case Steps => steps
        case InputTokens => inputTokens
        case OutputTokens => outputTokens
        case WallClock => wallClock
        case Usd => usd;
      if limit == Some(0.0) then None else limit
    }
  }

  /** One consume call; `elapsed` is the time since the run began, and `usd` None when the price is unknown. */
  datatype Usage = Usage(steps: nat, inputTokens: nat, outputTokens: nat, elapsed: real, usd: Option<real>)

  datatype Spent = Spent(steps: nat, inputTokens: nat, outputTokens: nat, elapsed: real, usd: Option<real>) {
    function At(d: Dimension): Option<real> {
      match d
      case Steps => Some(steps as real)
      case InputTokens => Some(inputTokens as real)
      case OutputTokens => Some(outputTokens as real)
      case WallClock => Some(elapsed)
      case Usd => usd
    }

    function Add(u: Usage): Spent {
      Spent(steps + u.steps, inputTokens + u.inputTokens, outputTokens + u.outputTokens,
            if u.elapsed == 0.0 then elapsed else u.elapsed,
            if u.usd.None? then usd else Some((if usd.Some? then usd.value else 0.0) + u.usd.value))
    }
  }

  predicate Reaches(spent: Spent, limits: Limits, d: Dimension, ratio: real) {
    limits.At(d).Some? && spent.At(d).Some? && spent.At(d).value >= limits.At(d).value * ratio
  }

  /** The first dimension of the list, from position `from` on, that satisfies the test. */
  function FirstDue(spent: Spent, limits: Limits, reported: set<Dimension>, ratio: real, from: nat): (r: Option<Dimension>)
    requires from <= |DIMENSIONS|
    ensures r.Some? ==> Reaches(spent, limits, r.value, ratio) && r.value !in reported
    decreases |DIMENSIONS| - from
  {
    if from == |DIMENSIONS| then None
    else if DIMENSIONS[from] !in reported && Reaches(spent, limits, DIMENSIONS[from], ratio) then Some(DIMENSIONS[from])
    else FirstDue(spent, limits, reported, ratio, from + 1)
  }

  function Position(d: Dimension): (k: nat)
    ensures k < |DIMENSIONS| && DIMENSIONS[k] == d
  {
    match d
    case Steps => 0
    case InputTokens => 1
    case OutputTokens => 2
    case WallClock => 3
    case Usd => 4
  }

  /** A due dimension makes the search answer, with itself or one listed before it. */
  lemma {:induction false} DueIsFound(spent: Spent, limits: Limits, reported: set<Dimension>, ratio: real, from: nat, d: Dimension)
    requires from <= Position(d) && d !in reported && Reaches(spent, limits, d, ratio)
    ensures var r := FirstDue(spent, limits, reported, ratio, from);
            r.Some? && from <= Position(r.value) <= Position(d)
    decreases Position(d) - from
  {
    hide Reaches;
    if from < Position(d) {
      DueIsFound(spent, limits, reported, ratio, from + 1, d);
    }
  }

  /** A limit that is set is reached. */
  predicate Past(limit: Option<real>, amount: real, ratio: real := 1.0) {
    limit.Some? && limit.value != 0.0 && amount >= limit.value * ratio
  }

  /** The search answers the first of the five dimensions that is past its limit and not excluded. */
  lemma {:induction false} DueMeans(spent: Spent, limits: Limits, reported: set<Dimension>, ratio: real)
    ensures FirstDue(spent, limits, reported, ratio, 0) ==
            if Steps !in reported && Past(limits.steps, spent.steps as real, ratio) then Some(Steps)
            else if InputTokens !in reported && Past(limits.inputTokens, spent.inputTokens as real, ratio) then Some(InputTokens)
            else if OutputTokens !in reported && Past(limits.outputTokens, spent.outputTokens as real, ratio) then Some(OutputTokens)
            else if WallClock !in reported && Past(limits.wallClock, spent.elapsed, ratio) then Some(WallClock)
            else if Usd !in reported && spent.usd.Some? && Past(limits.usd, spent.usd.value, ratio) then Some(Usd)
            else None
  {
    assert FirstDue(spent, limits, reported, ratio, 5) == None;
    assert FirstDue(spent, limits, reported, ratio, 4)
        == if Usd !in reported && Reaches(spent, limits, Usd, ratio) then Some(Usd) else None;
    assert FirstDue(spent, limits, reported, ratio, 3)
        == if WallClock !in reported && Reaches(spent, limits, WallClock, ratio) then Some(WallClock)
           else FirstDue(spent, limits, reported, ratio, 4);
    assert FirstDue(spent, limits, reported, ratio, 2)
        == if OutputTokens !in reported && Reaches(spent, limits, OutputTokens, ratio) then Some(OutputTokens)
           else FirstDue(spent, limits, reported, ratio, 3);
    assert FirstDue(spent, limits, reported, ratio, 1)
        == if InputTokens !in reported && Reaches(spent, limits, InputTokens, ratio) then Some(InputTokens)
           else FirstDue(spent, limits, reported, ratio, 2);
  }

  class Budget {
    const limits: Limits
    var spent: Spent
    var usageEstimated: bool
    var softReported: set<Dimension>

    constructor (limits: Limits)
      ensures this.limits == limits && spent == Spent(0, 0, 0, 0.0, None) && softReported == {} && !usageEstimated
    {
      this.limits := limits;
      spent, usageEstimated, softReported := Spent(0, 0, 0, 0.0, None), false, {};
    }

    method Consume(u: Usage, estimated: bool)
      modifies this`spent, this`usageEstimated
      ensures spent == old(spent).Add(u) && usageEstimated == (old(usageEstimated) || estimated)
      ensures spent.steps == old(spent).steps + u.steps && spent.inputTokens == old(spent).inputTokens + u.inputTokens
      ensures spent.outputTokens == old(spent).outputTokens + u.outputTokens
      ensures u.elapsed != 0.0 ==> spent.elapsed == u.elapsed
      ensures u.elapsed == 0.0 ==> spent.elapsed == old(spent).elapsed
      ensures u.usd.None? ==> spent.usd == old(spent).usd
    {
      spent := spent.(steps := spent.steps + u.steps, inputTokens := spent.inputTokens + u.inputTokens,
                      outputTokens := spent.outputTokens + u.outputTokens);
      if u.elapsed != 0.0 {
        spent := spent.(elapsed := u.elapsed);
      }
      if u.usd.Some? {
        spent := spent.(usd := Some((if spent.usd.Some? then spent.usd.value else 0.0) + u.usd.value));
      }
      if estimated {
        usageEstimated := true;
      }
    }

    method HardExceeded() returns (exceeded: Option<Dimension>)
      ensures exceeded == FirstDue(spent, limits, {}, 1.0, 0)
      ensures exceeded.Some? <==>
                || Past(limits.steps, spent.steps as real) || Past(limits.inputTokens, spent.inputTokens as real)
                || Past(limits.outputTokens, spent.outputTokens as real) || Past(limits.wallClock, spent.elapsed)
                || (spent.usd.Some? && Past(limits.usd, spent.usd.value))
      ensures exceeded.None? ==> forall d: Dimension :: !Reaches(spent, limits, d, 1.0)
    {
      DueMeans(spent, limits, {}, 1.0);
      hide Reaches;
      for k := 0 to |DIMENSIONS|
        invariant FirstDue(spent, limits, {}, 1.0, 0) == FirstDue(spent, limits, {}, 1.0, k)
      {
        if Reaches(spent, limits, DIMENSIONS[k], 1.0) {
          return Some(DIMENSIONS[k]);
        }
      }
      forall d: Dimension
        ensures !Reaches(spent, limits, d, 1.0)
      {
        if Reaches(spent, limits, d, 1.0) {
          DueIsFound(spent, limits, {}, 1.0, 0, d);
        }
      }
      return None;
    }

    method SoftExceeded() returns (due: Option<Dimension>)
      modifies this`softReported
      ensures due == FirstDue(spent, limits, old(softReported), 0.8, 0)
      ensures softReported == old(softReported) + if due.Some? then {due.value} else {}
    {
      hide Reaches;
      for k := 0 to |DIMENSIONS|
        invariant FirstDue(spent, limits, softReported, SOFT_RATIO, 0) == FirstDue(spent, limits, softReported, SOFT_RATIO, k)
        invariant softReported == old(softReported)
      {
        var name := DIMENSIONS[k];
        if name !in softReported && Reaches(spent, limits, name, SOFT_RATIO) {
          softReported := softReported + {name};
          return Some(name);
        }
      }
      return None;
    }
  }

  // ---- Runs ----

  /**
    The loop asks soft_exceeded in two places: while deciding whether to compact, where the
    answer is only used as a yes, and after the model call, where it becomes a notice.
  */
  datatype Op = Use(usage: Usage) | AskForCompaction | AskForNotice

  datatype State = State(spent: Spent, reported: set<Dimension>, asked: seq<Dimension>, notices: seq<Dimension>)

  function Due(s: State, limits: Limits): Option<Dimension> {
    FirstDue(s.spent, limits, s.reported, SOFT_RATIO, 0)
  }

  function Step(s: State, limits: Limits, op: Op): State {
    match op
    case Use(u) => s.(spent := s.spent.Add(u))
    case AskForCompaction =>
      var due := Due(s, limits);
      if due.None? then s else s.(reported := s.reported + {due.value}, asked := s.asked + [due.value])
    case AskForNotice =>
      var due := Due(s, limits);
      if due.None? then s
      else s.(reported := s.reported + {due.value}, asked := s.asked + [due.value], notices := s.notices + [due.value])
  }

  function Run(s: State, limits: Limits, ops: seq<Op>): State {
    if |ops| == 0 then s else Step(Run(s, limits, ops[..|ops| - 1]), limits, ops[|ops| - 1])
  }

  const Start := State(Spent(0, 0, 0, 0.0, None), {}, [], [])

  /** What was answered is what is marked, each dimension once; notices are among the answers. */
  ghost predicate Inv(s: State) {
    && (forall d :: d in s.asked <==> d in s.reported)
    && (forall i, j :: 0 <= i < j < |s.asked| ==> s.asked[i] != s.asked[j])
    && (forall d :: d in s.notices ==> d in s.reported)
    && (forall i, j :: 0 <= i < j < |s.notices| ==> s.notices[i] != s.notices[j])
  }

  lemma {:induction false} StepKeeps(s: State, limits: Limits, op: Op)
    requires Inv(s)
    ensures Inv(Step(s, limits, op)) && s.reported <= Step(s, limits, op).reported
  {
    hide FirstDue, Reaches;
    DueIsNew(s, limits);
  }

  lemma DueIsNew(s: State, limits: Limits)
    ensures Due(s, limits).Some? ==> Due(s, limits).value !in s.reported
  {
  }

  /** Over a whole run each dimension is reported at most once, whoever asks. */
  lemma {:induction false} ReportedOnce(limits: Limits, ops: seq<Op>)
    ensures Inv(Run(Start, limits, ops))
    decreases |ops|
  {
    if |ops| > 0 {
      hide Step, Inv;
      ReportedOnce(limits, ops[..|ops| - 1]);
      StepKeeps(Run(Start, limits, ops[..|ops| - 1]), limits, ops[|ops| - 1]);
    } else {
      assert Inv(Start);
    }
  }

  // ---- What a run has spent ----

  function Total(ops: seq<Op>, part: Usage -> nat): nat {
    if |ops| == 0 then 0
    else Total(ops[..|ops| - 1], part) + if ops[|ops| - 1].Use? then part(ops[|ops| - 1].usage) else 0
  }

  /** The last operation that reads the clock. */
  ghost predicate LastReading(ops: seq<Op>, k: nat)
    requires k < |ops|
  {
    && ops[k].Use? && ops[k].usage.elapsed != 0.0
    && forall j :: k < j < |ops| && ops[j].Use? ==> ops[j].usage.elapsed == 0.0
  }

  /** Tokens and steps add up over a run, each in its own dimension; the clock shows the last reading that was not zero. */
  lemma {:induction false} SpendingAddsUp(limits: Limits, ops: seq<Op>)
    ensures var spent := Run(Start, limits, ops).spent;
            && spent.steps == Total(ops, (u: Usage) => u.steps)
            && spent.inputTokens == Total(ops, (u: Usage) => u.inputTokens)
            && spent.outputTokens == Total(ops, (u: Usage) => u.outputTokens)
            && (forall k :: 0 <= k < |ops| && LastReading(ops, k) ==> spent.elapsed == ops[k].usage.elapsed)
            && ((forall op <- ops :: op.Use? ==> op.usage.elapsed == 0.0) ==> spent.elapsed == 0.0)
    decreases |ops|
  {
    if |ops| > 0 {
      hide FirstDue;
      var front := ops[..|ops| - 1];
      SpendingAddsUp(limits, front);
      assert forall op <- front :: op in ops;
      assert ops[|ops| - 1] in ops;
    }
  }

  // ---- Lost notices ----

  lemma {:induction false} NoLateNotice(s: State, limits: Limits, ops: seq<Op>, d: Dimension)
    requires d in s.reported
    ensures d in Run(s, limits, ops).reported
    ensures d in Run(s, limits, ops).notices <==> d in s.notices
    decreases |ops|
  {
    if |ops| > 0 {
      hide FirstDue, Reaches;
      NoLateNotice(s, limits, ops[..|ops| - 1], d);
      DueIsNew(Run(s, limits, ops[..|ops| - 1]), limits);
    }
  }

  lemma RunMore(s: State, limits: Limits, first: Op, rest: seq<Op>)
    ensures Run(s, limits, [first] + rest) == Run(Step(s, limits, first), limits, rest)
    decreases |rest|
  {
    if |rest| == 0 {
      assert [first] + rest == [first] && [first][..0] == [];
    } else {
      RunMore(s, limits, first, rest[..|rest| - 1]);
      assert ([first] + rest)[..|rest|] == [first] + rest[..|rest| - 1];
    }
  }

  /** Asking for a notice often enough delivers every due and unreported one. */
  lemma {:induction false} AskingDelivers(s: State, limits: Limits, d: Dimension, from: nat) returns (ops: seq<Op>)
    requires d !in s.reported && Reaches(s.spent, limits, d, SOFT_RATIO)
    requires from <= Position(d)
    requires forall e: Dimension :: Position(e) < from ==> e in s.reported || !Reaches(s.spent, limits, e, SOFT_RATIO)
    ensures d in Run(s, limits, ops).notices
    decreases Position(d) - from
  {
    hide Reaches, FirstDue, Run, Position;
    DueIsFound(s.spent, limits, s.reported, SOFT_RATIO, 0, d);
    var due := Due(s, limits).value;
    DueFacts(s, limits);
    var s' := Step(s, limits, AskForNotice);
    if due == d {
      ops := [AskForNotice];
      RunMore(s, limits, AskForNotice, []);
      RunNothing(s', limits);
      assert [AskForNotice] + [] == ops;
    } else {
      EarlierDone(s, limits);
      SamePosition(due, d);
      var rest := AskingDelivers(s', limits, d, Position(due) + 1);
      ops := [AskForNotice] + rest;
      RunMore(s, limits, AskForNotice, rest);
    }
  }

  lemma RunNothing(s: State, limits: Limits)
    ensures Run(s, limits, []) == s
  {
  }

  lemma SamePosition(a: Dimension, b: Dimension)
    ensures Position(a) == Position(b) <==> a == b
  {
  }

  lemma DueFacts(s: State, limits: Limits)
    ensures Due(s, limits).Some? ==> Reaches(s.spent, limits, Due(s, limits).value, SOFT_RATIO) && Due(s, limits).value !in s.reported
  {
  }

  /** Nothing listed before the answer is due. */
  lemma {:induction false} EarlierDone(s: State, limits: Limits)
    requires Due(s, limits).Some?
    ensures forall e: Dimension :: Position(e) < Position(Due(s, limits).value) ==>
              e in s.reported || !Reaches(s.spent, limits, e, SOFT_RATIO)
  {
    hide Reaches;
    forall e: Dimension | Position(e) < Position(Due(s, limits).value) && e !in s.reported
      ensures !Reaches(s.spent, limits, e, SOFT_RATIO)
    {
      if Reaches(s.spent, limits, e, SOFT_RATIO) {
        DueIsFound(s.spent, limits, s.reported, SOFT_RATIO, 0, e);
      }
    }
  }

  /**
    A dimension past its soft threshold can still get its notice exactly when nobody has
    asked about it yet.  The question asked for compaction counts: its answer is marked
    as reported and thrown away.
  */
  lemma {:induction false} NoticeStillPossibleIff(s: State, limits: Limits, d: Dimension)
    requires Inv(s) && Reaches(s.spent, limits, d, SOFT_RATIO) && d !in s.notices
    ensures (exists ops :: d in Run(s, limits, ops).notices) <==> d !in s.reported
  {
    hide Run, Reaches;
    if d in s.reported {
      forall ops
        ensures d !in Run(s, limits, ops).notices
      {
        NoLateNotice(s, limits, ops, d);
      }
    } else {
      var ops := AskingDelivers(s, limits, d, 0);
    }
  }

  /** Crossing a threshold between two model calls loses the notice: the next question is the compaction's. */
  lemma {:induction false} CompactionSwallowsNotice(limits: Limits, u: Usage, ops: seq<Op>, d: Dimension)
    requires FirstDue(Start.spent.Add(u), limits, {}, SOFT_RATIO, 0) == Some(d)
    ensures d !in Run(Start, limits, [Use(u), AskForCompaction] + ops).notices
  {
    hide FirstDue, Run;
    var used := Step(Start, limits, Use(u));
    var asked := Step(used, limits, AskForCompaction);
    assert [Use(u), AskForCompaction] + ops == [Use(u)] + ([AskForCompaction] + ops);
    RunMore(Start, limits, Use(u), [AskForCompaction] + ops);
    RunMore(used, limits, AskForCompaction, ops);
    NoLateNotice(asked, limits, ops, d);
  }

  // ---- The hard limit ----

  /** Usage as the loop reports it: a clock that does not run backwards, and no negative cost. */
  predicate Forward(spent: Spent, u: Usage) {
    (u.elapsed == 0.0 || u.elapsed >= spent.elapsed) && (u.usd.Some? ==> u.usd.value >= 0.0)
  }

  /** Once over a limit, always over it; and a hard limit is never reached before the soft one. */
  lemma {:induction false} HardIsPermanent(spent: Spent, limits: Limits, u: Usage, d: Dimension)
    requires Forward(spent, u) && Reaches(spent, limits, d, 1.0) && limits.At(d).value > 0.0
    ensures Reaches(spent.Add(u), limits, d, 1.0) && Reaches(spent, limits, d, SOFT_RATIO)
  {
  }

  /** The sum of the prices that were known, or `None` when none was. */
  function Known(ops: seq<Op>): Option<real> {
    if |ops| == 0 then None
    else
      var before, op := Known(ops[..|ops| - 1]), ops[|ops| - 1];
      if !op.Use? || op.usage.usd.None? then before
      else Some((if before.Some? then before.value else 0.0) + op.usage.usd.value)
  }

  lemma {:induction false} SpentIsKnown(limits: Limits, ops: seq<Op>)
    ensures Run(Start, limits, ops).spent.usd == Known(ops)
    decreases |ops|
  {
    if |ops| > 0 {
      hide FirstDue;
      SpentIsKnown(limits, ops[..|ops| - 1]);
    }
  }

  /**
    The cost limit stops a run if and only if the known prices alone reach it: calls of
    unknown price count for nothing, and without a single known price no limit is low enough.
  */
  lemma {:induction false} CostLimitIff(limits: Limits, ops: seq<Op>)
    ensures Reaches(Run(Start, limits, ops).spent, limits, Usd, 1.0) <==>
            limits.At(Usd).Some? && Known(ops).Some? && Known(ops).value >= limits.At(Usd).value
  {
    hide Run, Known;
    SpentIsKnown(limits, ops);
  }

  lemma {:induction false} UnknownPriceNeverStops(limits: Limits, ops: seq<Op>)
    requires forall op <- ops :: op.Use? ==> op.usage.usd.None?
    ensures !Reaches(Run(Start, limits, ops).spent, limits, Usd, 1.0)
  {
    hide Run;
    NothingKnown(ops);
    CostLimitIff(limits, ops);
  }

  lemma {:induction false} NothingKnown(ops: seq<Op>)
    requires forall op <- ops :: op.Use? ==> op.usage.usd.None?
    ensures Known(ops).None?
    decreases |ops|
  {
    if |ops| > 0 {
      assert forall op <- ops[..|ops| - 1] :: op in ops;
      NothingKnown(ops[..|ops| - 1]);
      assert ops[|ops| - 1] in ops;
    }
  }
}
