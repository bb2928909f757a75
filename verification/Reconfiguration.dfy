/** Applying settings while trading cycles are triggered: two asyncio locks, one flag. */
module Reconfiguration {
  import opened Common

  /** An asyncio lock: taking it suspends the caller only if it is locked or others wait. */
  datatype Lock = Lock(locked: bool, waiters: seq<nat>)

  predicate Free(l: Lock) { !l.locked && l.waiters == [] }

  datatype CyclePhase = CycleNew | CycleWaiting | CycleRunning | CycleOver(skipped: bool)

  /** `Settling` logs and stops the scheduler, `Watching` polls for an idle agent; then the settings
      are changed, and the rest follows. `idle` is what the watch reported. */
  datatype ApplyPhase =
    | ApplyNew
    | ApplyWaiting
    | Settling
    | Watching
    | Watched(idle: bool)
    | Changing(idle: bool)
    | Restarting(idle: bool)
    | ApplyOver(rejected: bool)

  /** `busy`: a symbol is being analyzed or sold outside the cycle. */
  datatype System = System(
    cycleLock: Lock,
    applyLock: Lock,
    active: bool,
    busy: bool,
    cycles: seq<CyclePhase>,
    applies: seq<ApplyPhase>)

  /** One atomic step: what a task does from one await to the next. */
  datatype Move =
    | TriggerCycle
    | TriggerApply
    | EnterCycle(c: nat)
    | EndCycle(c: nat)
    | EnterApply(a: nat)
    | Settle(a: nat)
    | Poll(a: nat, expired: bool)
    | BeginChange(a: nat)
    | EndChange(a: nat)
    | EndApply(a: nat)
    | SetBusy(busy: bool)

  const START := System(Lock(false, []), Lock(false, []), false, false, [], [])

  function SetCycle(s: System, c: nat, phase: CyclePhase): System
    requires c < |s.cycles|
  {
    s.(cycles := s.cycles[c := phase])
  }

  function SetApply(s: System, a: nat, phase: ApplyPhase): System
    requires a < |s.applies|
  {
    s.(applies := s.applies[a := phase])
  }

  /** From the first check to the lock there is no await; a lock that is not free would be one. */
  function DoEnterCycle(s: System, c: nat): System
    requires c < |s.cycles|
  {
    if s.active || s.cycleLock.locked then SetCycle(s, c, CycleOver(true))
    else if Free(s.cycleLock) then SetCycle(s.(cycleLock := Lock(true, [])), c, CycleRunning)
    else SetCycle(s.(cycleLock := s.cycleLock.(waiters := s.cycleLock.waiters + [c])), c, CycleWaiting)
  }

  function DoEnterApply(s: System, a: nat): System
    requires a < |s.applies|
  {
    if s.applyLock.locked then SetApply(s, a, ApplyOver(true))
    else if Free(s.applyLock) then SetApply(s.(applyLock := Lock(true, []), active := true), a, Settling)
    else SetApply(s.(applyLock := s.applyLock.(waiters := s.applyLock.waiters + [a])), a, ApplyWaiting)
  }

  predicate AgentIdle(s: System) { !s.cycleLock.locked && !s.busy }

  /** Idleness is looked at before the deadline. */
  function DoPoll(s: System, a: nat, expired: bool): System
    requires a < |s.applies|
  {
    if AgentIdle(s) then SetApply(s, a, Watched(true))
    else if expired then SetApply(s, a, Watched(false))
    else s
  }

  predicate Active(p: ApplyPhase) { p.Settling? || p.Watching? || p.Watched? || p.Changing? || p.Restarting? }

  predicate Enabled(s: System, m: Move) {
    match m
    case TriggerCycle => true
    case TriggerApply => true
    case SetBusy(_) => true
    case EnterCycle(c) => c < |s.cycles| && s.cycles[c].CycleNew?
    case EndCycle(c) => c < |s.cycles| && s.cycles[c].CycleRunning?
    case EnterApply(a) => a < |s.applies| && s.applies[a].ApplyNew?
    case Settle(a) => a < |s.applies| && s.applies[a].Settling?
    case Poll(a, _) => a < |s.applies| && s.applies[a].Watching?
    case BeginChange(a) => a < |s.applies| && s.applies[a].Watched?
    case EndChange(a) => a < |s.applies| && s.applies[a].Changing?
    case EndApply(a) => a < |s.applies| && Active(s.applies[a])
  }

  /** `EndCycle` and `EndApply` stand for the return and for an exception at any await. */
  function Step(s: System, m: Move): System {
    if !Enabled(s, m) then s
    else
      match m
      case TriggerCycle => s.(cycles := s.cycles + [CycleNew])
      case TriggerApply => s.(applies := s.applies + [ApplyNew])
      case SetBusy(busy) => s.(busy := busy)
      case EnterCycle(c) => DoEnterCycle(s, c)
      case EndCycle(c) => SetCycle(s.(cycleLock := s.cycleLock.(locked := false)), c, CycleOver(false))
      case EnterApply(a) => DoEnterApply(s, a)
      case Settle(a) => SetApply(s, a, Watching)
      case Poll(a, expired) => DoPoll(s, a, expired)
      case BeginChange(a) => SetApply(s, a, Changing(s.applies[a].idle))
      case EndChange(a) => SetApply(s, a, Restarting(s.applies[a].idle))
      case EndApply(a) =>
        SetApply(s.(active := false, applyLock := s.applyLock.(locked := false)), a, ApplyOver(false))
  }

  function Run(s: System, schedule: seq<Move>): System
    decreases |schedule|
  {
    if schedule == [] then s else Run(Step(s, schedule[0]), schedule[1..])
  }

  // ----- What every step keeps

  predicate SawIdle(p: ApplyPhase) { (p.Watched? || p.Changing? || p.Restarting?) && p.idle }

  /** The lock is held by exactly one running cycle, or by none and then it is free. */
  ghost predicate OneCycle(s: System) {
    && (forall c, d :: 0 <= c < d < |s.cycles| && s.cycles[c].CycleRunning? ==> !s.cycles[d].CycleRunning?)
    && (s.cycleLock.locked <==> exists c :: 0 <= c < |s.cycles| && s.cycles[c].CycleRunning?)
  }

  ghost predicate ApplyRuns(s: System) { exists a :: 0 <= a < |s.applies| && Active(s.applies[a]) }

  /** At most one apply is active; the lock is held and the flag set exactly while there is one. */
  ghost predicate OneApply(s: System) {
    && (forall a, b :: 0 <= a < b < |s.applies| && Active(s.applies[a]) ==> !Active(s.applies[b]))
    && (s.applyLock.locked <==> ApplyRuns(s)) && (s.active <==> ApplyRuns(s))
  }

  predicate NobodyWaits(s: System) {
    && s.cycleLock.waiters == [] && s.applyLock.waiters == []
    && (forall c :: 0 <= c < |s.cycles| ==> !s.cycles[c].CycleWaiting?)
    && (forall a :: 0 <= a < |s.applies| ==> !s.applies[a].ApplyWaiting?)
  }

  predicate NoCycleRuns(s: System) {
    !s.cycleLock.locked && forall c :: 0 <= c < |s.cycles| ==> !s.cycles[c].CycleRunning?
  }

  /** An apply that saw the agent idle keeps all cycles out. */
  predicate Barrier(s: System) {
    forall a :: 0 <= a < |s.applies| && SawIdle(s.applies[a]) ==> NoCycleRuns(s)
  }

  ghost predicate Sound(s: System) { OneCycle(s) && OneApply(s) && NobodyWaits(s) && Barrier(s) }

  lemma TriggerCycleSound(s: System)
    requires Sound(s)
    ensures Sound(Step(s, TriggerCycle))
  {
    var next := Step(s, TriggerCycle);
    assert forall c :: 0 <= c < |s.cycles| ==> next.cycles[c] == s.cycles[c];
    assert NoCycleRuns(s) ==> NoCycleRuns(next);
  }

  lemma EnterCycleSound(s: System, c: nat)
    requires Sound(s) && c < |s.cycles| && s.cycles[c].CycleNew?
    ensures Sound(DoEnterCycle(s, c))
  {
    var next := DoEnterCycle(s, c);
    assert forall d :: 0 <= d < |s.cycles| && d != c ==> next.cycles[d] == s.cycles[d];
    if next.cycles[c].CycleRunning? {
      assert forall a :: 0 <= a < |s.applies| ==> !Active(s.applies[a]);
    } else {
      assert NoCycleRuns(s) ==> NoCycleRuns(next);
    }
  }

  lemma EndCycleSound(s: System, c: nat)
    requires Sound(s) && c < |s.cycles| && s.cycles[c].CycleRunning?
    ensures Sound(Step(s, EndCycle(c)))
  {
    var next := Step(s, EndCycle(c));
    assert forall d :: 0 <= d < |s.cycles| && d != c ==> next.cycles[d] == s.cycles[d];
  }

  lemma EnterApplySound(s: System, a: nat)
    requires Sound(s) && a < |s.applies| && s.applies[a].ApplyNew?
    ensures Sound(DoEnterApply(s, a))
  {
    var next := DoEnterApply(s, a);
    assert next.cycles == s.cycles && next.cycleLock == s.cycleLock;
    if ApplyRuns(s) {
      var b :| 0 <= b < |s.applies| && Active(s.applies[b]);
      assert next.applies[b] == s.applies[b];
    } else {
      assert Active(next.applies[a]);
    }
  }

  /** The active apply moves on. */
  lemma PhaseSound(s: System, a: nat, phase: ApplyPhase)
    requires Sound(s) && a < |s.applies| && Active(s.applies[a]) && Active(phase)
    requires SawIdle(phase) ==> SawIdle(s.applies[a]) || NoCycleRuns(s)
    ensures Sound(SetApply(s, a, phase))
  {
    var next := SetApply(s, a, phase);
    assert next.cycles == s.cycles && next.cycleLock == s.cycleLock;
    assert Active(next.applies[a]) && ApplyRuns(s);
  }

  lemma EndApplySound(s: System, a: nat)
    requires Sound(s) && a < |s.applies| && Active(s.applies[a])
    ensures Sound(Step(s, EndApply(a)))
  {
    var next := Step(s, EndApply(a));
    assert next.cycles == s.cycles && next.cycleLock == s.cycleLock;
    assert OneApply(next);
  }

  lemma TriggerApplySound(s: System)
    requires Sound(s)
    ensures Sound(Step(s, TriggerApply))
  {
    var next := Step(s, TriggerApply);
    assert next.cycles == s.cycles && next.cycleLock == s.cycleLock;
    if ApplyRuns(s) {
      var b :| 0 <= b < |s.applies| && Active(s.applies[b]);
      assert next.applies[b] == s.applies[b];
    }
  }

  lemma ApplyMoveSound(s: System, m: Move)
    requires Sound(s) && Enabled(s, m) && !m.TriggerCycle? && !m.EnterCycle? && !m.EndCycle?
    ensures Sound(Step(s, m))
  {
    match m {
      case TriggerApply => TriggerApplySound(s);
      case EnterApply(a) => EnterApplySound(s, a);
      case Settle(a) => PhaseSound(s, a, Watching);
      case Poll(a, _) =>
        if AgentIdle(s) { PhaseSound(s, a, Watched(true)); } else { PhaseSound(s, a, Watched(false)); }
      case BeginChange(a) => PhaseSound(s, a, Changing(s.applies[a].idle));
      case EndChange(a) => PhaseSound(s, a, Restarting(s.applies[a].idle));
      case EndApply(a) => EndApplySound(s, a);
      case _ =>
    }
  }

  lemma StepSound(s: System, m: Move)
    requires Sound(s)
    ensures Sound(Step(s, m))
  {
    if Enabled(s, m) {
      match m {
        case TriggerCycle => TriggerCycleSound(s);
        case EnterCycle(c) => EnterCycleSound(s, c);
        case EndCycle(c) => EndCycleSound(s, c);
        case _ => ApplyMoveSound(s, m);
      }
    }
  }

  lemma {:induction false} RunSound(s: System, schedule: seq<Move>)
    requires Sound(s)
    ensures Sound(Run(s, schedule))
    decreases |schedule|
  {
    if schedule == [] {
    } else {
      var m := schedule[0];
      StepSound(s, m);
      RunSound(Step(s, m), schedule[1..]);
    }
  }

  /** For every interleaving: nobody ever waits for a lock, at most one cycle runs and one apply is
      active; and from the moment an apply saw the agent idle until it is over, no cycle runs. */
  lemma ReconfigurationBarrier(schedule: seq<Move>)
    ensures var s := Run(START, schedule);
            && NobodyWaits(s) && OneCycle(s) && OneApply(s)
            && forall a :: 0 <= a < |s.applies| && SawIdle(s.applies[a]) ==> NoCycleRuns(s)
  {
    RunSound(START, schedule);
  }

  // ----- Nobody is kept out for longer

  ghost predicate CycleRuns(s: System) { exists c :: 0 <= c < |s.cycles| && s.cycles[c].CycleRunning? }

  /** In every reachable state a triggered cycle runs unless another one runs or settings are being applied;
      then it is skipped. */
  lemma EntersIff(schedule: seq<Move>, c: nat)
    requires var s := Run(START, schedule); c < |s.cycles| && s.cycles[c].CycleNew?
    ensures var s := Run(START, schedule);
            Step(s, EnterCycle(c)).cycles[c] == if CycleRuns(s) || ApplyRuns(s) then CycleOver(true) else CycleRunning
  {
    RunSound(START, schedule);
  }

  /** And an apply begins unless another one is active; then it is rejected. */
  lemma AppliesIff(schedule: seq<Move>, a: nat)
    requires var s := Run(START, schedule); a < |s.applies| && s.applies[a].ApplyNew?
    ensures var s := Run(START, schedule);
            Step(s, EnterApply(a)).applies[a] == if ApplyRuns(s) then ApplyOver(true) else Settling
  {
    RunSound(START, schedule);
  }

  /** The watch reports that the agent is idle exactly if no cycle runs and nothing else is under way, and
      otherwise goes on until the deadline. */
  lemma WatchReports(schedule: seq<Move>, a: nat, expired: bool)
    requires var s := Run(START, schedule); a < |s.applies| && s.applies[a].Watching?
    ensures var s := Run(START, schedule);
            Step(s, Poll(a, expired)).applies[a]
              == if !CycleRuns(s) && !s.busy then Watched(true) else if expired then Watched(false) else Watching
  {
    RunSound(START, schedule);
  }

  /** What the watch reported. */
  function Report(p: ApplyPhase): Option<bool> {
    if p.Watched? || p.Changing? || p.Restarting? then Some(p.idle) else None
  }

  /** Once there is a report it stays, until the apply is over. */
  lemma ReportStays(s: System, m: Move, a: nat)
    requires a < |s.applies| && Report(s.applies[a]).Some?
    ensures var after := Step(s, m).applies;
            a < |after| && (Report(after[a]) == Report(s.applies[a])
                            || (m == EndApply(a) && after[a] == ApplyOver(false)))
  {
  }

  /** An apply that is not over can go on to its next phase, and one that is active can end. */
  lemma ApplyGoesOn(s: System, a: nat)
    requires a < |s.applies|
    ensures match s.applies[a]
            case Settling => Step(s, Settle(a)).applies[a].Watching?
            case Watching => Step(s, Poll(a, true)).applies[a].Watched?
            case Watched(_) => Step(s, BeginChange(a)).applies[a].Changing?
            case Changing(_) => Step(s, EndChange(a)).applies[a].Restarting?
            case Restarting(_) => Step(s, EndApply(a)).applies[a] == ApplyOver(false)
            case _ => true
    ensures Active(s.applies[a]) ==> Step(s, EndApply(a)).applies[a] == ApplyOver(false)
  {
  }

  /** Cycles, applies and work outside the cycle may begin at any time, and change nothing else by that. */
  lemma AnyTime(s: System, busy: bool)
    ensures Step(s, TriggerCycle) == s.(cycles := s.cycles + [CycleNew])
    ensures Step(s, TriggerApply) == s.(applies := s.applies + [ApplyNew])
    ensures Step(s, SetBusy(busy)) == s.(busy := busy)
  {
  }

  /** A cycle that runs can end, and it is over then without having been skipped. */
  lemma CycleEnds(s: System, c: nat, m: Move)
    requires c < |s.cycles| && s.cycles[c].CycleRunning?
    ensures var after := Step(s, m).cycles;
            c < |after| && after[c] == if m == EndCycle(c) then CycleOver(false) else CycleRunning
  {
  }

  // ----- When settings change under a running cycle

  /** From here on, apply `a` never changes the settings while a cycle runs. */
  ghost predicate ChangesSafely(s: System, a: nat) {
    forall schedule ::
      var r := Run(s, schedule);
      a < |r.applies| && r.applies[a].Changing? ==> NoCycleRuns(r)
  }

  /** The apply is over, or it is active and keeps all cycles out. */
  predicate Guarded(s: System, a: nat) {
    a < |s.applies| && (s.applies[a].ApplyOver? || (Active(s.applies[a]) && NoCycleRuns(s)))
  }

  lemma StepGuarded(s: System, a: nat, m: Move)
    requires Sound(s) && Guarded(s, a)
    ensures Guarded(Step(s, m), a)
  {
    if Active(s.applies[a]) {
      var next := Step(s, m);
      assert s.active;
      assert m.EndCycle? ==> !Enabled(s, m);
      assert NoCycleRuns(next);
    }
  }

  lemma {:induction false} RunGuarded(s: System, a: nat, schedule: seq<Move>)
    requires Sound(s) && Guarded(s, a)
    ensures Guarded(Run(s, schedule), a)
    decreases |schedule|
  {
    if schedule == [] {
    } else {
      StepSound(s, schedule[0]);
      StepGuarded(s, a, schedule[0]);
      RunGuarded(Step(s, schedule[0]), a, schedule[1..]);
    }
  }

  lemma {:induction false} RunLonger(s: System, schedule: seq<Move>, m: Move)
    ensures Run(s, schedule + [m]) == Step(Run(s, schedule), m)
    decreases |schedule|
  {
    if schedule == [] {
      assert [] + [m] == [m] && [m][1..] == [];
    } else {
      RunLonger(Step(s, schedule[0]), schedule[1..], m);
      assert (schedule + [m])[1..] == schedule[1..] + [m];
    }
  }

  /** The deadline of the watch passes while a cycle runs. */
  lemma DeadlinePasses(s: System, a: nat) returns (schedule: seq<Move>)
    requires a < |s.applies| && s.applies[a].Settling? && !NoCycleRuns(s)
    ensures var r := Run(s, schedule);
            |r.applies| == |s.applies| && r.applies[a] == Changing(AgentIdle(s)) && !NoCycleRuns(r)
  {
    RunLonger(s, [], Settle(a));
    schedule := [] + [Settle(a)];
    RunLonger(s, schedule, Poll(a, true));
    schedule := schedule + [Poll(a, true)];
    RunLonger(s, schedule, BeginChange(a));
    schedule := schedule + [BeginChange(a)];
  }

  /** In every reachable state where an apply takes its lock: whatever happens afterwards, it does not
      change the settings under a running cycle, if and only if no cycle runs at that moment. */
  lemma ChangesSafelyIff(before: seq<Move>, a: nat)
    requires var s := Run(START, before); a < |s.applies| && s.applies[a].ApplyNew? && !s.applyLock.locked
    ensures var s := Run(START, before); ChangesSafely(Step(s, EnterApply(a)), a) <==> NoCycleRuns(s)
  {
    var s := Run(START, before);
    RunSound(START, before);
    var entered := Step(s, EnterApply(a));
    StepSound(s, EnterApply(a));
    if NoCycleRuns(s) {
      forall schedule ensures Guarded(Run(entered, schedule), a) {
        RunGuarded(entered, a, schedule);
      }
    } else {
      var schedule := DeadlinePasses(entered, a);
      assert !NoCycleRuns(Run(entered, schedule));
    }
  }

  /** When it does happen, the watch reported that the agent was not idle, and the result says so. */
  lemma OnlyAfterTimeout(schedule: seq<Move>, a: nat)
    ensures var s := Run(START, schedule);
            a < |s.applies| && s.applies[a].Changing? && !NoCycleRuns(s) ==> !s.applies[a].idle
  {
    ReconfigurationBarrier(schedule);
  }

  /** The settings are being changed under a running cycle. */
  predicate ChangesUnderCycle(s: System) {
    !NoCycleRuns(s) && exists a :: 0 <= a < |s.applies| && s.applies[a].Changing?
  }

  /** From the start it takes one cycle that outlasts the deadline. */
  lemma TimeoutBreaksBarrier() returns (schedule: seq<Move>)
    ensures ChangesUnderCycle(Run(START, schedule))
  {
    schedule := ApplyDuringCycle();
    RunLonger(START, schedule, Settle(0));
    schedule := schedule + [Settle(0)];
    RunLonger(START, schedule, Poll(0, true));
    schedule := schedule + [Poll(0, true)];
    RunLonger(START, schedule, BeginChange(0));
    schedule := schedule + [BeginChange(0)];
    var s := Run(START, schedule);
    assert s.cycles[0].CycleRunning? && s.applies[0].Changing?;
  }

  lemma ApplyDuringCycle() returns (schedule: seq<Move>)
    ensures var s := Run(START, schedule); s.cycles == [CycleRunning] && s.cycleLock.locked && s.applies == [Settling]
  {
    RunLonger(START, [], TriggerCycle);
    RunLonger(START, [] + [TriggerCycle], EnterCycle(0));
    RunLonger(START, [] + [TriggerCycle] + [EnterCycle(0)], TriggerApply);
    RunLonger(START, [] + [TriggerCycle] + [EnterCycle(0)] + [TriggerApply], EnterApply(0));
    schedule := [] + [TriggerCycle] + [EnterCycle(0)] + [TriggerApply] + [EnterApply(0)];
  }
}
