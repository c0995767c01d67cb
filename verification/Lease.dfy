/**
  The run lease: file operations, the liveness decision, and the protocol over all
  interleavings of owners, observers, crashes and reboots (moss/runs/lease.py,
  moss/runs/store.py mark_interrupted_runs).

  Clocks of different machines are taken to agree; heartbeat writes take effect at once.
*/
module Lease {
  import opened History

  /** `boot` is None when /proc has no boot id; otherwise it names one boot of one machine. */
  type BootId = Option<(nat, nat)>

  datatype Lease = Lease(ownerPid: nat, host: string, boot: BootId, heartbeatAt: Option<real>, ttl: nat)

  datatype Verdict = NotTakeable | Stale | Interrupted

  /** What an observing process knows about its own surroundings. */
  datatype Observer = Observer(pid: nat, host: string, boot: BootId)

  function Acquired(me: Observer, now: real, ttl: nat): Lease {
    Lease(me.pid, me.host, me.boot, Some(now), ttl)
  }

  /** heartbeat: refresh an own lease, re-acquire a missing or foreign one. */
  function Beaten(lease: Option<Lease>, me: Observer, now: real, ttl: nat): Lease {
    if lease.None? || lease.value.ownerPid != me.pid then Acquired(me, now, ttl)
    else lease.value.(heartbeatAt := Some(now), ttl := ttl)
  }

  /** is_alive; `probe` tells whether a pid exists on the observer's machine. */
  function IsAlive(lease: Lease, me: Observer, now: real, probe: nat -> bool): bool {
    var recent := lease.heartbeatAt.None? || now - lease.heartbeatAt.value <= lease.ttl as real;
    if lease.ownerPid == me.pid then true
    else if lease.host != "" && me.host != "" && lease.host != me.host then recent
    else if lease.boot.Some? && me.boot.Some? && lease.boot != me.boot then false
    else if !probe(lease.ownerPid) then false
    else recent
  }

  function Classify(lease: Option<Lease>, me: Observer, now: real, probe: nat -> bool): Verdict {
    if lease.None? then Stale
    else if IsAlive(lease.value, me, now, probe) then NotTakeable
    else Interrupted
  }

  class LeaseFile {
    var lease: Option<Lease>

    constructor ()
      ensures lease == None
    {
      lease := None;
    }

    method Acquire(me: Observer, now: real, ttl: nat)
      modifies this
      ensures lease == Some(Acquired(me, now, ttl))
    {
      lease := Some(Lease(me.pid, me.host, me.boot, Some(now), ttl));
    }

    method Heartbeat(me: Observer, now: real, ttl: nat)
      modifies this
      ensures lease == Some(Beaten(old(lease), me, now, ttl))
    {
      if lease.None? || lease.value.ownerPid != me.pid {
        Acquire(me, now, ttl);
        return;
      }
      lease := Some(lease.value.(heartbeatAt := Some(now), ttl := ttl));
    }

    method Release() returns (existed: bool)
      modifies this
      ensures lease == None && existed == old(lease.Some?)
    {
      existed := lease.Some?;
      lease := None;
    }
  }

  // ---- The protocol ----

  datatype Proc = Proc(machine: nat, pid: nat)

  /** Host names as gethostname reports them ("" on failure), and whether boot ids can be read. */
  datatype World = World(hostName: nat -> string, bootReadable: nat -> bool)

  datatype State = State(
    now: real,
    epochs: map<nat, nat>,
    alive: set<Proc>,
    owner: Proc,
    ownerLive: bool,
    held: bool,
    lastBeat: real,
    ttl: nat,
    lease: Option<Lease>,
    inFlight: set<Proc>,
    taken: bool)

  /** A takeover is two steps, as in the source: judge from the lease file, later unlink it. */
  datatype Label =
    | Tick(d: real)
    | Beat
    | LoseBeat
    | OwnerDies
    | Die(p: Proc)
    | Spawn(p: Proc)
    | Reboot(machine: nat)
    | Judge(p: Proc)
    | FinishTakeover(p: Proc)
    | Release

  function Epoch(s: State, m: nat): nat {
    if m in s.epochs then s.epochs[m] else 0
  }

  function ObserverOf(w: World, s: State, p: Proc): Observer {
    Observer(p.pid, w.hostName(p.machine), if w.bootReadable(p.machine) then Some((p.machine, Epoch(s, p.machine))) else None)
  }

  function Probe(s: State, machine: nat): nat -> bool {
    (pid: nat) => Proc(machine, pid) in s.alive
  }

  function VerdictOf(w: World, s: State, p: Proc): Verdict {
    Classify(s.lease, ObserverOf(w, s, p), s.now, Probe(s, p.machine))
  }

  function Step(w: World, s: State, l: Label): State {
    match l
    case Tick(d) => if d >= 0.0 then s.(now := s.now + d) else s
    case Beat =>
      if s.ownerLive && s.held
      then s.(lease := Some(Beaten(s.lease, ObserverOf(w, s, s.owner), s.now, s.ttl)), lastBeat := s.now)
      else s
    case LoseBeat => s
    case OwnerDies => s.(alive := s.alive - {s.owner}, ownerLive := false)
    case Die(p) => if p == s.owner then s else s.(alive := s.alive - {p})
    case Spawn(p) => if p in s.alive then s else s.(alive := s.alive + {p})
    case Reboot(m) =>
      s.(epochs := s.epochs[m := Epoch(s, m) + 1],
         alive := (set p | p in s.alive && p.machine != m),
         ownerLive := s.ownerLive && s.owner.machine != m)
    case Judge(p) => if p in s.alive && VerdictOf(w, s, p) != NotTakeable then s.(inFlight := s.inFlight + {p}) else s
    case FinishTakeover(p) =>
      if p in s.inFlight then s.(lease := None, inFlight := s.inFlight - {p}, taken := true) else s
    case Release => if s.ownerLive && s.held then s.(lease := None, held := false) else s
  }

  function Run(w: World, s: State, labels: seq<Label>): State {
    if |labels| == 0 then s else Step(w, Run(w, s, labels[..|labels| - 1]), labels[|labels| - 1])
  }

  /** The state right after a live owner acquired the lease. */
  ghost predicate JustAcquired(w: World, s: State) {
    && s.ownerLive && s.owner in s.alive && s.held && !s.taken && s.lastBeat == s.now
    && s.lease == Some(Acquired(ObserverOf(w, s, s.owner), s.now, s.ttl))
  }

  /** The owner's last beat is at most ttl old. */
  predicate Fresh(s: State) {
    s.now - s.lastBeat <= s.ttl as real
  }

  /** The lease on disk is the live owner's current one. */
  ghost predicate LeaseIntact(w: World, s: State) {
    && s.owner in s.alive
    && s.lease == Some(Acquired(ObserverOf(w, s, s.owner), s.lastBeat, s.ttl))
  }

  /** Another machine's name cannot be told from the owner's. */
  predicate Confusable(w: World, a: nat, b: nat) {
    a != b && (w.hostName(a) == "" || w.hostName(b) == "" || w.hostName(a) == w.hostName(b))
  }

  /**
    When a live, punctual owner is judged takeable: only by an observer on another
    machine with a missing or equal host name, that can compare boot ids or finds no
    process under the owner's pid.
  */
  lemma {:induction false} LiveOwnerJudgedIff(w: World, s: State, p: Proc)
    requires s.ownerLive && LeaseIntact(w, s) && Fresh(s)
    ensures VerdictOf(w, s, p) != NotTakeable <==>
            && p.pid != s.owner.pid && Confusable(w, s.owner.machine, p.machine)
            && ((w.bootReadable(s.owner.machine) && w.bootReadable(p.machine)) || Proc(p.machine, s.owner.pid) !in s.alive)
  {
  }

  /** No other machine can be taken for machine `m`. */
  ghost predicate Unmistakable(w: World, m: nat) {
    forall other :: !Confusable(w, m, other)
  }

  /** While the owner lives and holds the lease, nobody has taken or is about to take the run. */
  ghost predicate Safe(w: World, s: State) {
    s.ownerLive && s.held ==> LeaseIntact(w, s) && !s.taken && s.inFlight == {}
  }

  lemma {:induction false} StepSafe(w: World, s: State, l: Label)
    requires Unmistakable(w, s.owner.machine) && Safe(w, s)
    requires s.ownerLive && s.held ==> Fresh(s)
    ensures Safe(w, Step(w, s, l))
  {
    if s.ownerLive && s.held {
      match l
      case Judge(p) => LiveOwnerJudgedIff(w, s, p);
      case _ =>
    }
  }

  /** Along the run the owner's beats are never more than ttl apart while it lives and holds the lease. */
  ghost predicate Punctual(w: World, s: State, labels: seq<Label>) {
    forall k :: 0 <= k <= |labels| ==> (var m := Run(w, s, labels[..k]); m.ownerLive && m.held ==> Fresh(m))
  }

  /** What the lease file says of the owner, whenever there is one. */
  ghost predicate NamesOwner(s: State) {
    s.lease.Some? ==>
      s.lease.value.heartbeatAt == Some(s.lastBeat) && s.lease.value.ttl == s.ttl && s.lease.value.ownerPid == s.owner.pid
  }

  /** What every step leaves alone. */
  lemma StepFacts(w: World, s: State, l: Label)
    ensures var s' := Step(w, s, l);
            && s'.owner == s.owner && s'.ttl == s.ttl && (NamesOwner(s) ==> NamesOwner(s'))
            && (!s.ownerLive ==> !s'.ownerLive && s'.lastBeat == s.lastBeat && (s'.lease == s.lease || s'.lease.None?))
            && s'.now >= s.now && (forall m :: Epoch(s', m) >= Epoch(s, m))
            && (l.Tick? && l.d >= 0.0 ==> s'.now == s.now + l.d) && (l == LoseBeat ==> s' == s)
            && ((l == Beat || l == Release) && !(s.ownerLive && s.held) ==> s' == s)
  {
    hide VerdictOf;
  }

  lemma {:induction false} OwnerStays(w: World, s: State, labels: seq<Label>)
    ensures Run(w, s, labels).owner == s.owner && Run(w, s, labels).ttl == s.ttl
    decreases |labels|
  {
    if |labels| > 0 {
      hide Step;
      OwnerStays(w, s, labels[..|labels| - 1]);
      StepFacts(w, Run(w, s, labels[..|labels| - 1]), labels[|labels| - 1]);
    }
  }

  lemma {:induction false} PunctualRunIsSafe(w: World, s: State, labels: seq<Label>)
    requires Unmistakable(w, s.owner.machine) && JustAcquired(w, s) && s.inFlight == {} && Punctual(w, s, labels)
    ensures Safe(w, Run(w, s, labels))
    decreases |labels|
  {
    if |labels| > 0 {
      var front := labels[..|labels| - 1];
      assert forall k :: 0 <= k <= |front| ==> front[..k] == labels[..k];
      PunctualRunIsSafe(w, s, front);
      assert front == labels[..|front|];
      hide Safe;
      OwnerStays(w, s, front);
      StepSafe(w, Run(w, s, front), labels[|labels| - 1]);
    }
  }

  /** A judgement made before the lease was written and carried out after it. */
  lemma {:induction false} TakeoverInFlightBreaksSafety(w: World, s: State, p: Proc)
    requires JustAcquired(w, s) && p in s.inFlight
    ensures Punctual(w, s, [FinishTakeover(p)])
    ensures var after := Run(w, s, [FinishTakeover(p)]);
            after.ownerLive && after.held && after.taken && after.lease.None?
  {
    var labels := [FinishTakeover(p)];
    assert labels[..0] == [] && labels[..1] == labels;
    assert Run(w, s, []) == s;
    assert Run(w, s, labels) == Step(w, s, FinishTakeover(p));
  }

  lemma RunUnfold(w: World, s: State, labels: seq<Label>, l: Label)
    ensures Run(w, s, labels + [l]) == Step(w, Run(w, s, labels), l)
  {
    assert (labels + [l])[..|labels|] == labels;
  }

  /** An observer on a machine mistaken for the owner's, with no process under the owner's pid. */
  function Mistaking(s: State, m: nat): seq<Label> {
    [Die(Proc(m, s.owner.pid)), Spawn(Proc(m, s.owner.pid + 1)), Judge(Proc(m, s.owner.pid + 1))]
  }

  lemma {:induction false} MistakenHostBreaksSafety(w: World, s: State, m: nat)
    requires JustAcquired(w, s) && Confusable(w, s.owner.machine, m)
    ensures Punctual(w, s, Mistaking(s, m)) && !Safe(w, Run(w, s, Mistaking(s, m)))
  {
    hide Run, Punctual, VerdictOf;
    var labels := Mistaking(s, m);
    var p := Proc(m, s.owner.pid + 1);
    var s1 := Step(w, s, labels[0]);
    var s2 := Step(w, s1, labels[1]);
    LiveOwnerJudgedIff(w, s2, p);
    var s3 := Step(w, s2, labels[2]);
    assert p in s3.inFlight;
    ThreeSteps(w, s, labels);
  }

  lemma ThreeSteps(w: World, s: State, labels: seq<Label>)
    requires |labels| == 3
    ensures var s1 := Step(w, s, labels[0]);
            var s2 := Step(w, s1, labels[1]);
            var s3 := Step(w, s2, labels[2]);
            Run(w, s, labels) == s3 &&
            ((forall m <- [s, s1, s2, s3] :: m.ownerLive && m.held ==> Fresh(m)) ==> Punctual(w, s, labels))
  {
    hide Step, Fresh;
    assert labels[..0] == [] && labels[..1] == [] + [labels[0]];
    assert labels[..2] == labels[..1] + [labels[1]] && labels[..3] == labels[..2] + [labels[2]] == labels;
    RunUnfold(w, s, [], labels[0]);
    RunUnfold(w, s, labels[..1], labels[1]);
    RunUnfold(w, s, labels[..2], labels[2]);
    assert Run(w, s, []) == s;
    hide Run;
    var states := [s, Run(w, s, labels[..1]), Run(w, s, labels[..2]), Run(w, s, labels)];
    forall k | 0 <= k <= 3
      ensures Run(w, s, labels[..k]) == states[k] && states[k] in states
    {
      if k == 0 {
      } else if k == 1 {
      } else if k == 2 {
      } else {
      }
    }
  }

  /**
    Main safety result: from acquire on, over all interleavings, a live punctual owner
    keeps its lease and its run if and only if no takeover judged earlier is still in
    flight and no other machine can be taken for the owner's.
  */
  lemma {:induction false} LeaseSafeIff(w: World, s: State)
    requires JustAcquired(w, s)
    ensures (forall labels :: Punctual(w, s, labels) ==> Safe(w, Run(w, s, labels)))
            <==> s.inFlight == {} && forall m :: !Confusable(w, s.owner.machine, m)
  {
    hide Safe, Punctual, JustAcquired, Run, Confusable;
    if p :| p in s.inFlight {
      TakeoverInFlightBreaksSafety(w, s, p);
      TakenIsUnsafe(w, Run(w, s, [FinishTakeover(p)]));
    } else if m :| Confusable(w, s.owner.machine, m) {
      MistakenHostBreaksSafety(w, s, m);
    } else {
      assert Unmistakable(w, s.owner.machine);
      forall labels | Punctual(w, s, labels)
        ensures Safe(w, Run(w, s, labels))
      {
        PunctualRunIsSafe(w, s, labels);
      }
    }
  }

  lemma TakenIsUnsafe(w: World, s: State)
    requires s.ownerLive && s.held && s.taken
    ensures !Safe(w, s)
  {
  }

  /** Such an earlier judgement exists: before acquire there is no lease, which reads as stale. */
  lemma NoLeaseIsTakeable(w: World, s: State, p: Proc)
    requires s.lease.None? && p in s.alive
    ensures VerdictOf(w, s, p) == Stale && p in Step(w, s, Judge(p)).inFlight
  {
  }

  // ---- Recovery ----

  /**
    Once the owner is dead and ttl has passed since its last beat, every observer whose
    pid differs from the recorded one finds the run interrupted, on any machine.
  */
  lemma {:induction false} DeadOwnerIsInterruptedIff(w: World, s: State, p: Proc)
    requires s.lease.Some? && s.lease.value.heartbeatAt.Some?
    requires s.now - s.lease.value.heartbeatAt.value > s.lease.value.ttl as real
    ensures VerdictOf(w, s, p) == Interrupted <==> p.pid != s.lease.value.ownerPid
  {
  }

  lemma {:induction false} FileNamesOwner(w: World, s: State, labels: seq<Label>)
    requires NamesOwner(s)
    ensures NamesOwner(Run(w, s, labels))
    decreases |labels|
  {
    if |labels| > 0 {
      hide Step, NamesOwner;
      FileNamesOwner(w, s, labels[..|labels| - 1]);
      StepFacts(w, Run(w, s, labels[..|labels| - 1]), labels[|labels| - 1]);
    }
  }

  /** A dead owner never beats again. */
  lemma {:induction false} DeadOwnerIsSilent(w: World, s: State, labels: seq<Label>)
    requires !s.ownerLive
    ensures !Run(w, s, labels).ownerLive && Run(w, s, labels).lastBeat == s.lastBeat
    decreases |labels|
  {
    if |labels| > 0 {
      hide Step;
      DeadOwnerIsSilent(w, s, labels[..|labels| - 1]);
      StepFacts(w, Run(w, s, labels[..|labels| - 1]), labels[|labels| - 1]);
    }
  }

  lemma {:induction false} RunOn(w: World, s: State, before: seq<Label>, after: seq<Label>)
    ensures Run(w, s, before + after) == Run(w, Run(w, s, before), after)
    decreases |after|
  {
    hide Step;
    if |after| == 0 {
      assert before + after == before;
    } else {
      RunOn(w, s, before, after[..|after| - 1]);
      assert (before + after)[..|before + after| - 1] == before + after[..|after| - 1];
    }
  }

  /**
    Wherever in a run the owner died: once ttl has passed since its last beat, whatever
    else happened meanwhile, every observer with another pid may take the run, as
    interrupted, or as stale when the lease file is already gone.
  */
  lemma {:induction false} WaitingSuffices(w: World, s: State, before: seq<Label>, after: seq<Label>, p: Proc)
    requires JustAcquired(w, s) && !Run(w, s, before).ownerLive && p.pid != s.owner.pid
    requires Run(w, s, before + after).now - Run(w, s, before).lastBeat > s.ttl as real
    ensures var m := Run(w, s, before + after);
            VerdictOf(w, m, p) == if m.lease.None? then Stale else Interrupted
  {
    hide Run, Step, VerdictOf;
    RunOn(w, s, before, after);
    DeadOwnerIsSilent(w, Run(w, s, before), after);
    FileNamesOwner(w, s, before + after);
    OwnerStays(w, s, before + after);
    var m := Run(w, s, before + after);
    if m.lease.Some? {
      DeadOwnerIsInterruptedIff(w, m, p);
    } else {
      NoLeaseIsStale(w, m, p);
    }
  }

  lemma NoLeaseIsStale(w: World, s: State, p: Proc)
    requires s.lease.None?
    ensures VerdictOf(w, s, p) == Stale
  {
  }

  /**
    A crash of the owner, or of its whole machine, is seen at once from that machine, long
    before the ttl runs out; and whatever happens afterwards, as long as no process there
    is given the owner's pid.
  */
  lemma {:induction false} CrashIsSeenAtOnce(w: World, s: State, crash: Label, after: seq<Label>, p: Proc)
    requires LeaseIntact(w, s) && p.machine == s.owner.machine && p.pid != s.owner.pid
    requires crash == OwnerDies || crash == Reboot(s.owner.machine)
    requires Spawn(s.owner) !in after
    ensures var m := Run(w, Step(w, s, crash), after);
            VerdictOf(w, m, p) == if m.lease.None? then Stale else Interrupted
  {
    var s' := Step(w, s, crash);
    AfterReboot(w, s', after);
    GoneUnlessSpawned(w, s', after, s.owner);
    hide Run;
    var m := Run(w, s', after);
    assert s.owner !in m.alive && Proc(p.machine, s.owner.pid) == s.owner;
    assert m.lease.Some? ==> m.lease == s.lease;
  }

  lemma {:induction false} GoneUnlessSpawned(w: World, s: State, labels: seq<Label>, p: Proc)
    requires p !in s.alive && Spawn(p) !in labels
    ensures p !in Run(w, s, labels).alive
    decreases |labels|
  {
    if |labels| > 0 {
      hide Step;
      GoneUnlessSpawned(w, s, labels[..|labels| - 1], p);
      OnlySpawnsCreate(w, Run(w, s, labels[..|labels| - 1]), labels[|labels| - 1], p);
    }
  }

  lemma OnlySpawnsCreate(w: World, s: State, l: Label, p: Proc)
    ensures p in Step(w, s, l).alive ==> p in s.alive || l == Spawn(p)
  {
    hide VerdictOf, Beaten;
  }

  /** Restarting one machine leaves the processes of the others running, and none of its own. */
  lemma RebootKillsItsOwn(w: World, s: State, machine: nat, p: Proc)
    ensures p in Step(w, s, Reboot(machine)).alive <==> p in s.alive && p.machine != machine
    ensures Step(w, s, Reboot(machine)).ownerLive <==> s.ownerLive && s.owner.machine != machine
  {
  }

  /** A heartbeat of a live owner makes its lease whole and fresh, even one that was taken from it. */
  lemma BeatRenewsLease(w: World, s: State)
    requires s.ownerLive && s.held && s.owner in s.alive
    requires s.lease.None? || s.lease.value.ownerPid != s.owner.pid || LeaseIntact(w, s)
    ensures var m := Step(w, s, Beat);
            LeaseIntact(w, m) && Fresh(m) && m.now == s.now && m.taken == s.taken && m.inFlight == s.inFlight
  {
  }

  /** A released lease stays released: no later heartbeat of the owner brings it back, and every observer reads it as stale. */
  lemma {:induction false} ReleasedStaysReleased(w: World, s: State, after: seq<Label>, p: Proc)
    requires s.ownerLive && s.held
    ensures var m := Run(w, Step(w, s, Release), after);
            m.lease.None? && !m.held && VerdictOf(w, m, p) == Stale
    decreases |after|
  {
    if |after| > 0 {
      hide VerdictOf, Beaten;
      ReleasedStaysReleased(w, s, after[..|after| - 1], p);
    }
    NoLeaseIsStale(w, Run(w, Step(w, s, Release), after), p);
  }

  /** One judgement is one takeover: carrying it out uses it up. */
  lemma TakeoverHappensOnce(w: World, s: State, p: Proc)
    requires p in s.inFlight
    ensures var m := Step(w, s, FinishTakeover(p));
            m.lease.None? && m.taken && m.inFlight == s.inFlight - {p} && Step(w, m, FinishTakeover(p)) == m
  {
  }

  /** What stays true after the owner's machine was restarted. */
  lemma {:induction false} AfterReboot(w: World, s: State, labels: seq<Label>)
    requires !s.ownerLive
    ensures var m := Run(w, s, labels);
            && (m.lease == s.lease || m.lease.None?) && m.owner == s.owner
            && Epoch(m, s.owner.machine) >= Epoch(s, s.owner.machine) && m.now >= s.now
    decreases |labels|
  {
    if |labels| > 0 {
      hide Step, Epoch;
      AfterReboot(w, s, labels[..|labels| - 1]);
      DeadOwnerIsSilent(w, s, labels[..|labels| - 1]);
      StepFacts(w, Run(w, s, labels[..|labels| - 1]), labels[|labels| - 1]);
    }
  }

  /**
    A restart of the owner's machine ends the lease at once, without waiting for the ttl:
    any process there with another pid may take the run, even when the owner's pid has
    been given to somebody else, because the boot id has changed.
  */
  lemma {:induction false} RebootEndsLease(w: World, s: State, after: seq<Label>, p: Proc)
    requires LeaseIntact(w, s) && w.bootReadable(s.owner.machine)
    requires p.machine == s.owner.machine && p.pid != s.owner.pid
    ensures var m := Run(w, Step(w, s, Reboot(s.owner.machine)), after);
            VerdictOf(w, m, p) == if m.lease.None? then Stale else Interrupted
  {
    var s' := Step(w, s, Reboot(s.owner.machine));
    assert Epoch(s', s.owner.machine) == Epoch(s, s.owner.machine) + 1;
    AfterReboot(w, s', after);
    hide Run;
    var m := Run(w, s', after);
    assert m.lease.Some? ==> m.lease.value.boot == Some((s.owner.machine, Epoch(s, s.owner.machine)));
  }

  // ---- The background thread ----

  /** LeaseHeartbeat's interval: a third of the ttl, but at least a second. */
  function Interval(ttl: nat): real {
    if ttl as real / 3.0 < 1.0 then 1.0 else ttl as real / 3.0
  }

  /** Number of the last beat up to the n-th that went through; acquire counts as number 0. */
  function LastOk(ok: seq<bool>, n: nat): (k: nat)
    requires n <= |ok|
    ensures k <= n
  {
    if n == 0 || ok[n - 1] then n else LastOk(ok, n - 1)
  }

  predicate AtMostTwoLost(ok: seq<bool>) {
    forall k :: 0 <= k < |ok| - 2 ==> ok[k] || ok[k + 1] || ok[k + 2]
  }

  /** Largest age the lease reaches before beat n + 1, beats being one interval apart. */
  function WorstAge(ok: seq<bool>, n: nat, ttl: nat): real
    requires n <= |ok|
  {
    (n + 1 - LastOk(ok, n)) as real * Interval(ttl)
  }

  lemma {:induction false} IntervalFits(ttl: nat)
    ensures 3.0 * Interval(ttl) <= ttl as real <==> ttl >= 3
    ensures if ttl < 3 then Interval(ttl) == 1.0 else 3.0 * Interval(ttl) == ttl as real
    ensures 4.0 * Interval(ttl) > ttl as real
  {
  }

  /** Two consecutive lost beats are tolerated throughout every schedule exactly when ttl is at least 3 seconds. */
  lemma {:induction false} TwoLostBeatsToleratedIff(ttl: nat)
    ensures (forall ok: seq<bool>, n :: AtMostTwoLost(ok) && 0 <= n <= |ok| ==> WorstAge(ok, n, ttl) <= ttl as real)
            <==> ttl >= 3
  {
    IntervalFits(ttl);
    if ttl >= 3 {
      forall ok: seq<bool>, n | AtMostTwoLost(ok) && 0 <= n <= |ok|
        ensures WorstAge(ok, n, ttl) <= ttl as real
      {
        LostRun(ok, n);
        AgeBound((n + 1 - LastOk(ok, n)), Interval(ttl));
      }
    } else {
      var ok := [false, false];
      assert LastOk(ok, 0) == 0 && LastOk(ok, 1) == 0 && LastOk(ok, 2) == 0;
      assert AtMostTwoLost(ok) && WorstAge(ok, 2, ttl) == 3.0 * Interval(ttl);
    }
  }

  lemma {:induction false} LostRun(ok: seq<bool>, n: nat)
    requires AtMostTwoLost(ok) && n <= |ok|
    ensures n - LastOk(ok, n) <= 2
  {
    if n >= 3 {
      assert ok[n - 3] || ok[n - 3 + 1] || ok[n - 3 + 2];
      assert ok[n - 1] ==> LastOk(ok, n) == n;
      assert !ok[n - 1] ==> LastOk(ok, n) == LastOk(ok, n - 1);
      assert !ok[n - 1] && !ok[n - 2] ==> LastOk(ok, n - 1) == LastOk(ok, n - 2);
    } else if n == 2 {
      assert LastOk(ok, 0) == 0;
    }
  }

  lemma AgeBound(k: nat, interval: real)
    requires k <= 3 && interval >= 0.0
    ensures k as real * interval <= 3.0 * interval
  {
  }
}
