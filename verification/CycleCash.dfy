/** One trading cycle: the candidates run as tasks that share the cash ledger and interleave
    wherever a task awaits. */
module CycleCash {
  import opened Common
  import opened OrderReservation
  import opened Symbols

  /** SHADOW only warns when the reservation fails; ENFORCE drops the candidate. */
  datatype Mode = ENFORCE | SHADOW

  /** A BUY signal as it reaches the reservation; a market order has no price. */
  datatype Candidate = Candidate(symbol: string, price: Option<real>, quantity: int)

  function Amount(c: Candidate): real { (if c.price.Some? then c.price.value else 0.0) * c.quantity as real }

  /** `Ready` awaits the broker, `Sent` what follows the broker's answer. `taken`: the broker has the
      order; `reported`: its answer says so and bears an order id. */
  datatype Phase =
    | Fresh
    | Ready(id: Option<nat>)
    | Sent(id: Option<nat>, taken: bool, reported: bool)
    | Finished(id: Option<nat>, taken: bool, reported: bool)

  datatype Task = Task(candidate: Candidate, phase: Phase)

  datatype Cycle = Cycle(rows: seq<Reservation>, tasks: seq<Task>)

  /** One atomic step of task `t`. `Fail` is an exception while the order is executed. The answer to
      an order may get lost: it may be taken without being reported. */
  datatype Move =
    | Secure(t: nat)
    | Place(t: nat, taken: bool, reported: bool)
    | Return(t: nat)
    | Fail(t: nat, taken: bool)

  function Put(c: Cycle, t: nat, phase: Phase): Cycle
    requires t < |c.tasks|
  {
    c.(tasks := c.tasks[t := c.tasks[t].(phase := phase)])
  }

  function DoReserve(mode: Mode, starting: real, c: Cycle, t: nat): Cycle
    requires t < |c.tasks|
  {
    var buy := c.tasks[t].candidate;
    if Fits(starting, c.rows, Amount(buy), buy.quantity) then
      Put(c.(rows := Reserved(starting, c.rows, buy.symbol, Amount(buy), buy.quantity)), t, Ready(Some(|c.rows|)))
    else if mode == ENFORCE then Put(c, t, Finished(None, false, false))
    else Put(c, t, Ready(None))
  }

  /** Only orders with a positive quantity reach the broker. */
  function DoPlace(c: Cycle, t: nat, taken: bool, reported: bool): Cycle
    requires t < |c.tasks| && c.tasks[t].phase.Ready?
  {
    var sent := c.tasks[t].candidate.quantity > 0;
    Put(c, t, Sent(c.tasks[t].phase.id, sent && taken, sent && reported))
  }

  /** An order that is not reported gives its reservation back. */
  function DoReturn(c: Cycle, t: nat): Cycle
    requires t < |c.tasks| && c.tasks[t].phase.Sent?
  {
    var p := c.tasks[t].phase;
    if p.reported then Put(c, t, Finished(p.id, p.taken, true))
    else Put(c.(rows := Released(c.rows, p.id)), t, Finished(None, p.taken, false))
  }

  /** An exception leaves the reservation as it is. */
  function DoFail(c: Cycle, t: nat, taken: bool): Cycle
    requires t < |c.tasks|
  {
    match c.tasks[t].phase
    case Ready(id) => Put(c, t, Finished(id, c.tasks[t].candidate.quantity > 0 && taken, false))
    case Sent(id, wasTaken, reported) => Put(c, t, Finished(id, wasTaken, reported))
    case _ => c
  }

  predicate Enabled(c: Cycle, m: Move) {
    && m.t < |c.tasks|
    && match m
       case Secure(t) => c.tasks[t].phase.Fresh?
       case Place(t, _, _) => c.tasks[t].phase.Ready?
       case Return(t) => c.tasks[t].phase.Sent?
       case Fail(t, _) => c.tasks[t].phase.Ready? || c.tasks[t].phase.Sent?
  }

  function Step(mode: Mode, starting: real, c: Cycle, m: Move): Cycle {
    if !Enabled(c, m) then c
    else
      match m
      case Secure(t) => DoReserve(mode, starting, c, t)
      case Place(t, taken, reported) => DoPlace(c, t, taken, reported)
      case Return(t) => DoReturn(c, t)
      case Fail(t, taken) => DoFail(c, t, taken)
  }

  /** Any order of the moves of all tasks. */
  function Run(mode: Mode, starting: real, c: Cycle, schedule: seq<Move>): Cycle
    decreases |schedule|
  {
    if schedule == [] then c else Run(mode, starting, Step(mode, starting, c, schedule[0]), schedule[1..])
  }

  function Start(candidates: seq<Candidate>): Cycle {
    Cycle([], seq(|candidates|, i requires 0 <= i < |candidates| => Task(candidates[i], Fresh)))
  }

  // ----- Money

  /** The order counts as submitted. */
  predicate Submitted(t: Task) { (t.phase.Sent? || t.phase.Finished?) && t.phase.reported }

  /** The order is at the broker. */
  predicate Taken(t: Task) { (t.phase.Sent? || t.phase.Finished?) && t.phase.taken }

  /** Price times quantity of the BUY orders that count as submitted. */
  function TotalSubmitted(tasks: seq<Task>): real {
    if tasks == [] then 0.0
    else
      var t := tasks[|tasks| - 1];
      TotalSubmitted(tasks[..|tasks| - 1]) + if Submitted(t) then Amount(t.candidate) else 0.0
  }

  /** Price times quantity of the BUY orders at the broker. */
  function TotalTaken(tasks: seq<Task>): real {
    if tasks == [] then 0.0
    else
      var t := tasks[|tasks| - 1];
      TotalTaken(tasks[..|tasks| - 1]) + if Taken(t) then Amount(t.candidate) else 0.0
  }

  /** The part of that without a reservation. */
  function TotalUncovered(tasks: seq<Task>): real {
    if tasks == [] then 0.0
    else
      var t := tasks[|tasks| - 1];
      TotalUncovered(tasks[..|tasks| - 1]) + if Taken(t) && Holding(t).None? then Amount(t.candidate) else 0.0
  }

  /** The reservation that the task holds. */
  function Holding(t: Task): Option<nat> { if t.phase.Fresh? then None else t.phase.id }

  /** Reserved for tasks without a submitted order: still under way, or failed. */
  function TotalIdle(tasks: seq<Task>): real {
    if tasks == [] then 0.0
    else
      var t := tasks[|tasks| - 1];
      TotalIdle(tasks[..|tasks| - 1]) + if Holding(t).Some? && !Submitted(t) then Amount(t.candidate) else 0.0
  }

  /** Every order that the broker takes is reported as submitted, or its task fails. */
  predicate Truthful(schedule: seq<Move>) {
    forall i :: 0 <= i < |schedule| && schedule[i].Place? && schedule[i].taken ==> schedule[i].reported
  }

  /** In no run, whatever the candidates, is more at the broker than the starting cash. `lossy`: answers
      of the broker may get lost. */
  ghost predicate CashSafe(mode: Mode, lossy: bool) {
    forall starting: real, candidates: seq<Candidate>, schedule: seq<Move> ::
      starting >= 0.0 && (lossy || Truthful(schedule)) ==>
        TotalTaken(Run(mode, starting, Start(candidates), schedule).tasks) <= starting
  }

  // ----- What every step keeps in ENFORCE mode

  /** The task holds an active reservation over its own amount; without one it has submitted nothing. */
  predicate Backed(c: Cycle, t: Task) {
    match Holding(t)
    case None => !Submitted(t) && !t.phase.Ready? && !t.phase.Sent? && (Taken(t) ==> Amount(t.candidate) > 0.0)
    case Some(id) => id < |c.rows| && c.rows[id].active && c.rows[id].amount == Amount(t.candidate) > 0.0
  }

  predicate AllBacked(c: Cycle) {
    forall i :: 0 <= i < |c.tasks| ==> Backed(c, c.tasks[i])
  }

  /** No two tasks hold the same reservation. */
  predicate NoSharing(c: Cycle) {
    forall i, j :: 0 <= i < j < |c.tasks| && Holding(c.tasks[i]).Some?
                   ==> Holding(c.tasks[i]) != Holding(c.tasks[j])
  }

  ghost predicate Covered(starting: real, c: Cycle) {
    && AllBacked(c) && NoSharing(c)
    && WithinCash(starting, c.rows)
    && ActiveSum(c.rows) == TotalSubmitted(c.tasks) + TotalIdle(c.tasks)
  }

  /** The sums after one task moves on. */
  lemma {:induction false} TotalsChange(tasks: seq<Task>, t: nat, phase: Phase)
    requires t < |tasks|
    ensures var was, now := tasks[t], tasks[t].(phase := phase);
            var next := tasks[t := now];
            && TotalSubmitted(next) == TotalSubmitted(tasks)
                 + (if Submitted(now) then Amount(was.candidate) else 0.0)
                 - (if Submitted(was) then Amount(was.candidate) else 0.0)
            && TotalIdle(next) == TotalIdle(tasks)
                 + (if Holding(now).Some? && !Submitted(now) then Amount(was.candidate) else 0.0)
                 - (if Holding(was).Some? && !Submitted(was) then Amount(was.candidate) else 0.0)
  {
    var last, now := |tasks| - 1, tasks[t].(phase := phase);
    var next := tasks[t := now];
    if t == last {
      assert next[..last] == tasks[..last];
    } else {
      TotalsChange(tasks[..last], t, phase);
      assert next[..last] == tasks[..last][t := now];
    }
  }

  lemma ReservedCovered(starting: real, c: Cycle, t: nat, r: Reservation)
    requires Covered(starting, c) && t < |c.tasks| && c.tasks[t].phase.Fresh?
    requires r.active && r.amount == Amount(c.tasks[t].candidate) > 0.0 && ActiveSum(c.rows) + r.amount <= starting
    ensures Covered(starting, Put(c.(rows := c.rows + [r]), t, Ready(Some(|c.rows|))))
  {
    ReserveAdds(c.rows, r);
    TotalsChange(c.tasks, t, Ready(Some(|c.rows|)));
    var next := Put(c.(rows := c.rows + [r]), t, Ready(Some(|c.rows|)));
    forall i | 0 <= i < |next.tasks| ensures Backed(next, next.tasks[i]) {
      if i != t { assert Backed(c, c.tasks[i]); }
    }
    assert NoSharing(next) by {
      forall i | 0 <= i < |c.tasks| && i != t ensures Holding(next.tasks[i]) != Some(|c.rows|) {
        assert Backed(c, c.tasks[i]);
      }
    }
  }

  lemma RefusedCovered(starting: real, c: Cycle, t: nat)
    requires Covered(starting, c) && t < |c.tasks| && c.tasks[t].phase.Fresh?
    ensures Covered(starting, Put(c, t, Finished(None, false, false)))
  {
    TotalsChange(c.tasks, t, Finished(None, false, false));
  }

  lemma ReserveCovered(starting: real, c: Cycle, t: nat)
    requires starting >= 0.0 && Covered(starting, c) && t < |c.tasks| && c.tasks[t].phase.Fresh?
    ensures Covered(starting, DoReserve(ENFORCE, starting, c, t))
  {
    var buy := c.tasks[t].candidate;
    if Fits(starting, c.rows, Amount(buy), buy.quantity) {
      ReservedCovered(starting, c, t, Reservation(Normalize(buy.symbol), Amount(buy), buy.quantity, true));
    } else {
      RefusedCovered(starting, c, t);
    }
  }

  lemma PlaceCovered(starting: real, c: Cycle, t: nat, taken: bool, reported: bool)
    requires Covered(starting, c) && t < |c.tasks| && c.tasks[t].phase.Ready?
    ensures Covered(starting, DoPlace(c, t, taken, reported))
  {
    var sent := c.tasks[t].candidate.quantity > 0;
    TotalsChange(c.tasks, t, Sent(c.tasks[t].phase.id, sent && taken, sent && reported));
  }

  lemma ReturnCovered(starting: real, c: Cycle, t: nat)
    requires Covered(starting, c) && t < |c.tasks| && c.tasks[t].phase.Sent?
    ensures Covered(starting, DoReturn(c, t))
  {
    var p := c.tasks[t].phase;
    if p.reported {
      TotalsChange(c.tasks, t, Finished(p.id, p.taken, true));
    } else {
      assert Backed(c, c.tasks[t]);
      TotalsChange(c.tasks, t, Finished(None, p.taken, false));
      ReleaseSubtracts(c.rows, p.id.value);
    }
  }

  lemma FailCovered(starting: real, c: Cycle, t: nat, taken: bool)
    requires Covered(starting, c) && t < |c.tasks| && (c.tasks[t].phase.Ready? || c.tasks[t].phase.Sent?)
    ensures Covered(starting, DoFail(c, t, taken))
  {
    TotalsChange(c.tasks, t, DoFail(c, t, taken).tasks[t].phase);
  }

  lemma StepCovered(starting: real, c: Cycle, m: Move)
    requires starting >= 0.0 && Covered(starting, c)
    ensures Covered(starting, Step(ENFORCE, starting, c, m))
  {
    if Enabled(c, m) {
      match m
      case Secure(t) => ReserveCovered(starting, c, t);
      case Place(t, taken, reported) => PlaceCovered(starting, c, t, taken, reported);
      case Return(t) => ReturnCovered(starting, c, t);
      case Fail(t, taken) => FailCovered(starting, c, t, taken);
    }
  }

  lemma {:induction false} RunCovered(starting: real, c: Cycle, schedule: seq<Move>)
    requires starting >= 0.0 && Covered(starting, c)
    ensures Covered(starting, Run(ENFORCE, starting, c, schedule))
    decreases |schedule|
  {
    if schedule == [] {
    } else {
      StepCovered(starting, c, schedule[0]);
      RunCovered(starting, Step(ENFORCE, starting, c, schedule[0]), schedule[1..]);
    }
  }

  lemma {:induction false} NothingYet(tasks: seq<Task>)
    requires forall i :: 0 <= i < |tasks| ==> tasks[i].phase.Fresh?
    ensures TotalSubmitted(tasks) == TotalIdle(tasks) == 0.0 && TotalTaken(tasks) == 0.0
  {
    if tasks == [] {
    } else {
      NothingYet(tasks[..|tasks| - 1]);
    }
  }

  lemma {:induction false} IdleNonNegative(c: Cycle, n: nat)
    requires AllBacked(c) && n <= |c.tasks|
    ensures TotalIdle(c.tasks[..n]) >= 0.0
  {
    if n == 0 {
    } else {
      IdleNonNegative(c, n - 1);
      assert c.tasks[..n][..n - 1] == c.tasks[..n - 1];
      assert Backed(c, c.tasks[n - 1]);
    }
  }

  /** What is at the broker is reserved, or without a reservation. */
  lemma {:induction false} TakenWithin(c: Cycle, n: nat)
    requires AllBacked(c) && n <= |c.tasks|
    ensures TotalTaken(c.tasks[..n])
              <= TotalSubmitted(c.tasks[..n]) + TotalIdle(c.tasks[..n]) + TotalUncovered(c.tasks[..n])
  {
    if n == 0 {
    } else {
      TakenWithin(c, n - 1);
      assert c.tasks[..n][..n - 1] == c.tasks[..n - 1];
      assert Backed(c, c.tasks[n - 1]);
    }
  }

  /** In ENFORCE mode, for every interleaving: the submitted orders are worth at most the active
      reservations, those at most the starting cash, and the difference is what is reserved for tasks
      that are still under way or failed; at the broker is at most what is reserved and what has
      lost its reservation. */
  lemma EnforcedCycle(starting: real, candidates: seq<Candidate>, schedule: seq<Move>)
    requires starting >= 0.0
    ensures var c := Run(ENFORCE, starting, Start(candidates), schedule);
            && TotalSubmitted(c.tasks) <= ActiveSum(c.rows) <= starting
            && ActiveSum(c.rows) - TotalSubmitted(c.tasks) == TotalIdle(c.tasks)
            && Available(starting, c.rows) == starting - ActiveSum(c.rows)
            && TotalTaken(c.tasks) <= ActiveSum(c.rows) + TotalUncovered(c.tasks)
  {
    NothingYet(Start(candidates).tasks);
    RunCovered(starting, Start(candidates), schedule);
    var c := Run(ENFORCE, starting, Start(candidates), schedule);
    IdleNonNegative(c, |c.tasks|);
    TakenWithin(c, |c.tasks|);
    assert c.tasks[..|c.tasks|] == c.tasks;
  }

  /** A market order has no amount to reserve: in ENFORCE mode none is ever sent to the broker. */
  lemma NoMarketOrders(starting: real, candidates: seq<Candidate>, schedule: seq<Move>, i: nat)
    requires starting >= 0.0
    ensures var c := Run(ENFORCE, starting, Start(candidates), schedule);
            (i < |c.tasks| && (Submitted(c.tasks[i]) || Taken(c.tasks[i])))
              ==> c.tasks[i].candidate.price.Some? && Amount(c.tasks[i].candidate) > 0.0
  {
    NothingYet(Start(candidates).tasks);
    RunCovered(starting, Start(candidates), schedule);
    var c := Run(ENFORCE, starting, Start(candidates), schedule);
    if i < |c.tasks| {
      assert Backed(c, c.tasks[i]);
    }
  }

  /** A fresh candidate gets a reservation if its amount is positive and fits beside the active ones.
      Otherwise it is dropped in ENFORCE mode, and goes on without one in SHADOW mode. */
  lemma {:induction false} SecureOutcome(mode: Mode, starting: real, c: Cycle, t: nat)
    requires t < |c.tasks| && c.tasks[t].phase.Fresh?
    ensures var buy, next := c.tasks[t].candidate, Step(mode, starting, c, Secure(t));
            var amount := Amount(buy);
            var fits := amount > 0.0 && buy.quantity > 0 && ActiveSum(c.rows) + amount <= starting;
            && (forall u :: 0 <= u < |c.tasks| && u != t ==> |next.tasks| == |c.tasks| && next.tasks[u] == c.tasks[u])
            && next.tasks[t].candidate == buy
            && (fits ==> next.tasks[t].phase == Ready(Some(|c.rows|))
                         && next.rows == c.rows + [Reservation(Normalize(buy.symbol), amount, buy.quantity, true)])
            && (!fits ==> next.rows == c.rows
                          && next.tasks[t].phase == if mode == ENFORCE then Finished(None, false, false)
                               else Ready(None))
  {
  }

  /** In ENFORCE mode exactly the candidates that do not fit beside the active reservations are dropped. */
  lemma {:induction false} DroppedIff(starting: real, candidates: seq<Candidate>, schedule: seq<Move>, t: nat)
    requires starting >= 0.0
    requires var c := Run(ENFORCE, starting, Start(candidates), schedule);
             t < |c.tasks| && c.tasks[t].phase.Fresh? && c.tasks[t].candidate.price.Some?
    ensures var c := Run(ENFORCE, starting, Start(candidates), schedule);
            var buy := c.tasks[t].candidate;
            buy.price.value > 0.0 && buy.quantity > 0 ==>
              (Step(ENFORCE, starting, c, Secure(t)).tasks[t].phase == Finished(None, false, false)
               <==> ActiveSum(c.rows) + buy.price.value * buy.quantity as real > starting)
  {
    var c := Run(ENFORCE, starting, Start(candidates), schedule);
    var buy := c.tasks[t].candidate;
    SecureOutcome(ENFORCE, starting, c, t);
    if buy.price.value > 0.0 && buy.quantity > 0 { ProductPositive(buy.price.value, buy.quantity as real); }
  }

  /** The order is sent once it may be, and without a quantity none; its reservation is given back exactly
      if it was not reported; an
      exception changes nothing but that the task is over. */
  lemma {:induction false} SendOutcome(mode: Mode, starting: real, c: Cycle, t: nat, taken: bool, reported: bool)
    requires t < |c.tasks|
    ensures c.tasks[t].phase.Ready? ==>
              var p, next := c.tasks[t].phase, Step(mode, starting, c, Place(t, taken, reported));
              next.rows == c.rows
              && next.tasks[t].phase
                 == if c.tasks[t].candidate.quantity > 0 then Sent(p.id, taken, reported) else Sent(p.id, false, false)
    ensures c.tasks[t].phase.Sent? ==>
              var p, next := c.tasks[t].phase, Step(mode, starting, c, Return(t));
              if p.reported then next.rows == c.rows && next.tasks[t].phase == Finished(p.id, p.taken, true)
              else
                && next.tasks[t].phase == Finished(None, p.taken, false)
                && |next.rows| == |c.rows|
                && forall i :: 0 <= i < |c.rows| ==>
                     next.rows[i] == if p.id == Some(i) then c.rows[i].(active := false) else c.rows[i]
    ensures c.tasks[t].phase.Ready? || c.tasks[t].phase.Sent? ==>
              var p, next := c.tasks[t].phase, Step(mode, starting, c, Fail(t, taken));
              var sized := c.tasks[t].candidate.quantity > 0;
              next.rows == c.rows && next.tasks[t].phase.Finished? && next.tasks[t].phase.id == p.id
              && (p.Ready? ==> next.tasks[t].phase.taken == (taken && sized) && !next.tasks[t].phase.reported)
              && (p.Sent? ==> next.tasks[t].phase.taken == p.taken && next.tasks[t].phase.reported == p.reported)
  {
  }

  // ----- Answers that get lost

  /** Every order at the broker still has its reservation, and keeps it. */
  predicate NothingLost(tasks: seq<Task>) {
    forall i :: 0 <= i < |tasks| && Taken(tasks[i]) ==>
      Holding(tasks[i]).Some? && (tasks[i].phase.Sent? ==> tasks[i].phase.reported)
  }

  lemma StepLosesNothing(starting: real, c: Cycle, m: Move)
    requires Covered(starting, c) && NothingLost(c.tasks) && (m.Place? && m.taken ==> m.reported)
    ensures NothingLost(Step(ENFORCE, starting, c, m).tasks)
  {
    if Enabled(c, m) {
      assert Backed(c, c.tasks[m.t]);
    }
  }

  lemma {:induction false} TruthfulLosesNothing(starting: real, c: Cycle, schedule: seq<Move>)
    requires starting >= 0.0 && Covered(starting, c) && NothingLost(c.tasks) && Truthful(schedule)
    ensures NothingLost(Run(ENFORCE, starting, c, schedule).tasks)
    decreases |schedule|
  {
    if schedule == [] {
    } else {
      StepCovered(starting, c, schedule[0]);
      StepLosesNothing(starting, c, schedule[0]);
      assert Truthful(schedule[1..]);
      TruthfulLosesNothing(starting, Step(ENFORCE, starting, c, schedule[0]), schedule[1..]);
    }
  }

  lemma {:induction false} NothingUncovered(tasks: seq<Task>)
    requires NothingLost(tasks)
    ensures TotalUncovered(tasks) == 0.0
  {
    if tasks == [] {
    } else {
      NothingUncovered(tasks[..|tasks| - 1]);
    }
  }

  /** As long as every order taken is reported, the broker never has more than the starting cash. */
  lemma EnforcedTaken(starting: real, candidates: seq<Candidate>, schedule: seq<Move>)
    requires starting >= 0.0 && Truthful(schedule)
    ensures TotalTaken(Run(ENFORCE, starting, Start(candidates), schedule).tasks) <= starting
  {
    EnforcedCycle(starting, candidates, schedule);
    NothingYet(Start(candidates).tasks);
    TruthfulLosesNothing(starting, Start(candidates), schedule);
    NothingUncovered(Run(ENFORCE, starting, Start(candidates), schedule).tasks);
  }

  lemma RunOn(mode: Mode, starting: real, c: Cycle, m: Move, rest: seq<Move>)
    ensures Run(mode, starting, c, [m] + rest) == Run(mode, starting, Step(mode, starting, c, m), rest)
  {
    assert ([m] + rest)[1..] == rest;
  }

  /** The first of two candidates over all the cash is taken, and its reservation given back. */
  lemma FirstLost(starting: real, buy: Candidate, rest: seq<Move>)
    requires buy == Candidate("005930", Some(starting), 1) && starting > 0.0
    ensures var schedule := [Secure(0)] + ([Place(0, true, false)] + ([Return(0)] + rest));
            Run(ENFORCE, starting, Start([buy, buy]), schedule)
              == Run(ENFORCE, starting, AfterLoss(starting, buy), rest)
  {
    var c0 := Start([buy, buy]);
    assert c0.tasks == [Task(buy, Fresh), Task(buy, Fresh)];
    RunOn(ENFORCE, starting, c0, Secure(0), [Place(0, true, false)] + ([Return(0)] + rest));
    var c1 := Step(ENFORCE, starting, c0, Secure(0));
    assert c1.tasks == [Task(buy, Ready(Some(0))), Task(buy, Fresh)];
    assert c1.rows == [Reservation(Normalize(buy.symbol), starting, 1, true)];
    RunOn(ENFORCE, starting, c1, Place(0, true, false), [Return(0)] + rest);
    var c2 := Step(ENFORCE, starting, c1, Place(0, true, false));
    assert c2.tasks == [Task(buy, Sent(Some(0), true, false)), Task(buy, Fresh)];
    RunOn(ENFORCE, starting, c2, Return(0), rest);
    var c3 := Step(ENFORCE, starting, c2, Return(0));
    assert c3.tasks == AfterLoss(starting, buy).tasks && c3.rows == AfterLoss(starting, buy).rows;
  }

  function AfterLoss(starting: real, buy: Candidate): Cycle {
    Cycle([Reservation(Normalize(buy.symbol), starting, 1, false)],
          [Task(buy, Finished(None, true, false)), Task(buy, Fresh)])
  }

  lemma SecondTaken(starting: real, buy: Candidate)
    requires buy == Candidate("005930", Some(starting), 1) && starting > 0.0
    ensures Run(ENFORCE, starting, AfterLoss(starting, buy), [Secure(1)] + ([Place(1, true, true)] + [])).tasks
         == [Task(buy, Finished(None, true, false)), Task(buy, Sent(Some(1), true, true))]
  {
    var c3 := AfterLoss(starting, buy);
    assert c3.rows[..0] == [] && ActiveSum(c3.rows) == 0.0;
    RunOn(ENFORCE, starting, c3, Secure(1), [Place(1, true, true)] + []);
    var c4 := Step(ENFORCE, starting, c3, Secure(1));
    assert c4.tasks == [Task(buy, Finished(None, true, false)), Task(buy, Ready(Some(1)))];
    RunOn(ENFORCE, starting, c4, Place(1, true, true), []);
  }

  /** An order that is taken but answered without an order id, or not in time, gives its cash back to
      the next candidate: twice the starting cash is at the broker. */
  lemma SpentTwice(starting: real)
    requires starting > 0.0
    ensures var buy := Candidate("005930", Some(starting), 1);
            var schedule := [Secure(0), Place(0, true, false), Return(0), Secure(1), Place(1, true, true)];
            TotalTaken(Run(ENFORCE, starting, Start([buy, buy]), schedule).tasks) == 2.0 * starting
  {
    var buy := Candidate("005930", Some(starting), 1);
    var rest := [Secure(1)] + ([Place(1, true, true)] + []);
    FirstLost(starting, buy, rest);
    SecondTaken(starting, buy);
    assert [Secure(0), Place(0, true, false), Return(0), Secure(1), Place(1, true, true)]
        == [Secure(0)] + ([Place(0, true, false)] + ([Return(0)] + rest));
    TwoTaken(Task(buy, Finished(None, true, false)), Task(buy, Sent(Some(1), true, true)));
  }

  lemma TwoTaken(t: Task, u: Task)
    requires Taken(t) && Taken(u)
    ensures TotalTaken([t, u]) == Amount(t.candidate) + Amount(u.candidate)
  {
    assert [t, u][..1] == [t] && [t][..0] == [];
    assert TotalTaken([t]) == Amount(t.candidate);
  }

  // ----- SHADOW mode does not protect the cash

  lemma ShadowOverspends(starting: real)
    requires starting >= 0.0
    ensures var c := Run(SHADOW, starting, Start([Candidate("005930", Some(starting + 1.0), 1)]),
                         [Secure(0), Place(0, true, true)]);
            TotalSubmitted(c.tasks) == TotalTaken(c.tasks) == starting + 1.0
  {
    var buy := Candidate("005930", Some(starting + 1.0), 1);
    var c0 := Start([buy]);
    var c1 := Step(SHADOW, starting, c0, Secure(0));
    assert c1.tasks == [Task(buy, Ready(None))];
    var c2 := Step(SHADOW, starting, c1, Place(0, true, true));
    assert c2.tasks == [Task(buy, Sent(None, true, true))];
    assert c2.tasks[..0] == [];
    assert Run(SHADOW, starting, c1, [Place(0, true, true)]) == Run(SHADOW, starting, c2, []) == c2;
    assert [Secure(0), Place(0, true, true)][1..] == [Place(0, true, true)];
  }

  lemma {:induction false} TruthfulSafe()
    ensures CashSafe(ENFORCE, false)
  {
    forall starting: real, candidates: seq<Candidate>, schedule: seq<Move> | starting >= 0.0 && Truthful(schedule)
      ensures TotalTaken(Run(ENFORCE, starting, Start(candidates), schedule).tasks) <= starting
    {
      EnforcedTaken(starting, candidates, schedule);
    }
  }

  /** The starting cash bounds what a cycle has at the broker exactly in ENFORCE mode with a broker
      whose answers do not get lost. */
  lemma CashSafeIff(mode: Mode, lossy: bool)
    ensures CashSafe(mode, lossy) <==> mode == ENFORCE && !lossy
  {
    if mode == SHADOW {
      ShadowOverspends(0.0);
      assert Truthful([Secure(0), Place(0, true, true)]);
    } else if lossy {
      SpentTwice(1.0);
    } else {
      TruthfulSafe();
    }
  }
}
