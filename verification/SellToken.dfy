/** The sell token: at most one task sells a symbol at a time. */
module SellToken {
  import opened Symbols

  // ----- The agent's set of symbols being sold

  class TokenSet {
    var selling: set<string>

    constructor ()
      ensures selling == {}
    {
      selling := {};
    }

    /** The set is only touched between two awaits, under the sell lock. */
    method Acquire(symbol: string) returns (taken: bool)
      modifies this
      ensures taken == (Normalize(symbol) !in old(selling))
      ensures selling == old(selling) + {Normalize(symbol)}
    {
      var normalized := Normalize(symbol);
      if normalized in selling { return false; }
      selling := selling + {normalized};
      return true;
    }

    method Release(symbol: string)
      modifies this
      ensures selling == old(selling) - {Normalize(symbol)}
    {
      selling := selling - {Normalize(symbol)};
    }

    method Stop()
      modifies this
      ensures selling == {}
    {
      selling := {};
    }
  }

  // ----- The tasks that sell

  /** `Between` two sells, the symbols still to sell; `Holding` the token of one while its order is
      under way. */
  datatype Task = Between(todo: seq<string>) | Holding(symbol: string, todo: seq<string>)

  datatype System = System(selling: set<string>, tasks: seq<Task>)

  /** One atomic step. A stop-loss or take-profit event, or one holding of a liquidation, spawns a
      task with one symbol; the periodic checks and reviews spawn one with a list. `Leave` runs the
      finally clause: the order has returned or raised, and the task goes on with its list or not. */
  datatype Move =
    | Spawn(todo: seq<string>)
    | Acquire(t: nat)
    | Leave(t: nat, goesOn: bool)
    | Stop

  function Step(s: System, m: Move): System {
    match m
    case Spawn(todo) => s.(tasks := s.tasks + [Between(todo)])
    case Acquire(t) =>
      if t >= |s.tasks| || !s.tasks[t].Between? || s.tasks[t].todo == [] then s
      else
        var symbol, rest := s.tasks[t].todo[0], s.tasks[t].todo[1..];
        if Normalize(symbol) in s.selling then s.(tasks := s.tasks[t := Between(rest)])
        else System(s.selling + {Normalize(symbol)}, s.tasks[t := Holding(symbol, rest)])
    case Leave(t, goesOn) =>
      if t >= |s.tasks| || !s.tasks[t].Holding? then s
      else
        System(s.selling - {Normalize(s.tasks[t].symbol)},
               s.tasks[t := Between(if goesOn then s.tasks[t].todo else [])])
    case Stop => s.(selling := {})
  }

  function Run(s: System, schedule: seq<Move>): System
    decreases |schedule|
  {
    if schedule == [] then s else Run(Step(s, schedule[0]), schedule[1..])
  }

  const START := System({}, [])

  predicate Holds(s: System, t: nat, symbol: string) {
    t < |s.tasks| && s.tasks[t].Holding? && Normalize(s.tasks[t].symbol) == symbol
  }

  /** No symbol is being sold by two tasks. */
  predicate Exclusive(s: System) {
    forall t, u :: 0 <= t < u < |s.tasks| && s.tasks[t].Holding? && s.tasks[u].Holding?
                   ==> Normalize(s.tasks[t].symbol) != Normalize(s.tasks[u].symbol)
  }

  /** The set holds exactly the tokens that tasks hold. */
  ghost predicate Exact(s: System) {
    forall symbol :: symbol in s.selling <==> exists t: nat :: Holds(s, t, symbol)
  }

  ghost predicate Sound(s: System) { Exclusive(s) && Exact(s) }

  predicate NobodyHolds(s: System) { forall t :: 0 <= t < |s.tasks| ==> s.tasks[t].Between? }

  lemma AcquireSound(s: System, t: nat)
    requires Sound(s)
    ensures Sound(Step(s, Acquire(t)))
  {
    var next := Step(s, Acquire(t));
    if t < |s.tasks| && s.tasks[t].Between? && s.tasks[t].todo != [] {
      var token := Normalize(s.tasks[t].todo[0]);
      forall u: nat, symbol | u != t ensures Holds(s, u, symbol) <==> Holds(next, u, symbol) {
      }
      if token !in s.selling {
        assert Holds(next, t, token);
        forall u: nat | u < |s.tasks| && u != t && s.tasks[u].Holding? ensures Normalize(s.tasks[u].symbol) != token {
          assert Holds(s, u, Normalize(s.tasks[u].symbol));
        }
      }
      ExactAgain(s, next, t);
    }
  }

  /** Only task `t` moved, and the set followed it. */
  lemma ExactAgain(s: System, next: System, t: nat)
    requires Exact(s) && |next.tasks| == |s.tasks| && t < |s.tasks|
    requires forall u :: 0 <= u < |s.tasks| && u != t ==> next.tasks[u] == s.tasks[u]
    requires forall symbol :: symbol in next.selling <==>
               Holds(next, t, symbol) || (symbol in s.selling && !Holds(s, t, symbol))
    requires forall u: nat, symbol :: u != t && Holds(s, u, symbol) ==> !Holds(s, t, symbol)
    ensures Exact(next)
  {
    forall symbol ensures symbol in next.selling <==> exists u: nat :: Holds(next, u, symbol) {
      if symbol in next.selling && !Holds(next, t, symbol) {
        var u: nat :| Holds(s, u, symbol);
        assert Holds(next, u, symbol);
      }
      if exists u: nat :: Holds(next, u, symbol) && u != t {
        var u: nat :| Holds(next, u, symbol) && u != t;
        assert Holds(s, u, symbol);
      }
    }
  }

  lemma LeaveSound(s: System, t: nat, goesOn: bool)
    requires Sound(s)
    ensures Sound(Step(s, Leave(t, goesOn)))
  {
    if t < |s.tasks| && s.tasks[t].Holding? {
      ExactAgain(s, Step(s, Leave(t, goesOn)), t);
    }
  }

  lemma SpawnSound(s: System, todo: seq<string>)
    requires Sound(s)
    ensures Sound(Step(s, Spawn(todo)))
  {
    var next := Step(s, Spawn(todo));
    forall t: nat, symbol ensures Holds(s, t, symbol) <==> Holds(next, t, symbol) {
    }
    forall symbol ensures symbol in next.selling <==> exists t: nat :: Holds(next, t, symbol) {
      if symbol in s.selling {
        var t: nat :| Holds(s, t, symbol);
        assert Holds(next, t, symbol);
      }
    }
  }

  /** Stopping the agent clears the set: that is sound exactly when no task holds a token. */
  lemma StopSoundIff(s: System)
    requires Sound(s)
    ensures Sound(Step(s, Stop)) <==> NobodyHolds(s)
  {
    var next := Step(s, Stop);
    if NobodyHolds(s) {
      assert forall t: nat, symbol :: !Holds(next, t, symbol);
    } else {
      var t: nat :| t < |s.tasks| && s.tasks[t].Holding?;
      var symbol := Normalize(s.tasks[t].symbol);
      assert Holds(next, t, symbol) && symbol !in next.selling;
    }
  }

  // ----- All interleavings

  /** Every stop in the schedule comes when no task holds a token. */
  predicate StopsWhenIdle(s: System, schedule: seq<Move>)
    decreases |schedule|
  {
    schedule == []
    || ((schedule[0].Stop? ==> NobodyHolds(s)) && StopsWhenIdle(Step(s, schedule[0]), schedule[1..]))
  }

  lemma {:induction false} RunSound(s: System, schedule: seq<Move>)
    requires Sound(s) && StopsWhenIdle(s, schedule)
    ensures Sound(Run(s, schedule))
    decreases |schedule|
  {
    if schedule == [] {
    } else {
      match schedule[0] {
        case Spawn(todo) => SpawnSound(s, todo);
        case Acquire(t) => AcquireSound(s, t);
        case Leave(t, goesOn) => LeaveSound(s, t, goesOn);
        case Stop => StopSoundIff(s);
      }
      RunSound(Step(s, schedule[0]), schedule[1..]);
    }
  }

  /** After this, no symbol is ever sold by two tasks, whatever happens. */
  ghost predicate StaysExclusive(s: System) {
    forall schedule :: StopsWhenIdle(s, schedule) ==> Exclusive(Run(s, schedule))
  }

  /** A stop is harmless, whatever happens afterwards, exactly when no task holds a token. */
  lemma StopSafeIff(s: System)
    requires Sound(s)
    ensures StaysExclusive(Step(s, Stop)) <==> NobodyHolds(s)
  {
    StopSoundIff(s);
    if NobodyHolds(s) {
      forall schedule | StopsWhenIdle(Step(s, Stop), schedule) ensures Exclusive(Run(Step(s, Stop), schedule)) {
        RunSound(Step(s, Stop), schedule);
      }
    } else {
      var t: nat :| t < |s.tasks| && s.tasks[t].Holding?;
      SoldTwice(Step(s, Stop), t);
    }
  }

  /** Once the set has forgotten a held token, the next task that wants the symbol sells it too. */
  lemma SoldTwice(s: System, t: nat)
    requires t < |s.tasks| && s.tasks[t].Holding? && Normalize(s.tasks[t].symbol) !in s.selling
    ensures !StaysExclusive(s)
  {
    var symbol := s.tasks[t].symbol;
    var spawn, acquire := Spawn([symbol]), Acquire(|s.tasks|);
    var s1 := Step(s, spawn);
    var s2 := Step(s1, acquire);
    assert s2.tasks[|s.tasks|].Holding? && s2.tasks[|s.tasks|].symbol == symbol && s2.tasks[t] == s.tasks[t];
    assert [spawn, acquire][1..] == [acquire] && [acquire][1..] == [];
    assert Run(s1, [acquire]) == Run(s2, []) == s2;
    assert Run(s, [spawn, acquire]) == s2;
    assert StopsWhenIdle(s1, [acquire]) && StopsWhenIdle(s, [spawn, acquire]);
  }

  /** For every interleaving of selling tasks: no symbol is sold twice at a time, the set is exactly
      what is held, and it is empty once every task is through. */
  lemma MutualExclusion(schedule: seq<Move>)
    requires StopsWhenIdle(START, schedule)
    ensures var s := Run(START, schedule); Exclusive(s) && Exact(s) && (NobodyHolds(s) ==> s.selling == {})
  {
    assert forall t: nat, symbol :: !Holds(START, t, symbol);
    RunSound(START, schedule);
    var s := Run(START, schedule);
    if NobodyHolds(s) {
      forall symbol ensures symbol !in s.selling {
        assert forall t: nat :: !Holds(s, t, symbol);
      }
    }
  }

  /** A task gets the token exactly when nobody holds that symbol, and its release takes no token
      from another task. */
  lemma TokenMoves(s: System, t: nat, goesOn: bool, symbol: string)
    requires Sound(s) && t < |s.tasks|
    ensures s.tasks[t].Between? && s.tasks[t].todo != [] ==>
              (Step(s, Acquire(t)).tasks[t].Holding? <==> forall u: nat :: !Holds(s, u, Normalize(s.tasks[t].todo[0])))
    ensures s.tasks[t].Holding? && symbol != Normalize(s.tasks[t].symbol) ==>
              (symbol in Step(s, Leave(t, goesOn)).selling <==> symbol in s.selling)
    ensures s.tasks[t].Holding? ==> Normalize(s.tasks[t].symbol) !in Step(s, Leave(t, goesOn)).selling
  {
  }

  /** A task is somewhere in its list: before entry `k`, or selling it. */
  predicate At(task: Task, list: seq<string>, k: nat) {
    k <= |list| && (task == Between(list[k..]) || (k < |list| && task == Holding(list[k], list[k + 1..])))
  }

  /** Every turn of a task deals with the next symbol of its list, if there is one, and leaving goes on with
      the rest or gives it up; no other task has any part in this. */
  lemma NextTurn(s: System, t: nat, list: seq<string>, k: nat, m: Move)
    requires t < |s.tasks| && At(s.tasks[t], list, k)
    ensures var after := Step(s, m).tasks;
            && t < |after|
            && (m != Acquire(t) && !(m.Leave? && m.t == t) ==> after[t] == s.tasks[t])
            && (m == Acquire(t) && s.tasks[t].Between? && k < |list| ==>
                  after[t] == if Normalize(list[k]) in s.selling then Between(list[k + 1..])
                              else Holding(list[k], list[k + 1..]))
            && (m.Leave? && m.t == t && s.tasks[t].Holding? ==>
                  after[t] == Between(if m.goesOn then list[k + 1..] else []))
  {
    assert forall i :: k <= i < |list| ==> list[k..][i - k] == list[i];
    assert k < |list| ==> list[k..][1..] == list[k + 1..];
  }

  /** Over any run a task works through its list in order, each entry once: it never comes back to one. */
  lemma {:induction false} WorksThrough(s: System, schedule: seq<Move>, t: nat, list: seq<string>, k: nat)
    returns (j: nat)
    requires t < |s.tasks| && At(s.tasks[t], list, k)
    ensures t < |Run(s, schedule).tasks| && k <= j && At(Run(s, schedule).tasks[t], list, j)
    decreases |schedule|
  {
    j := k;
    if schedule != [] {
      var next := Step(s, schedule[0]);
      NextTurn(s, t, list, k, schedule[0]);
      if next.tasks[t] != s.tasks[t] {
        if next.tasks[t].Between? { j := if next.tasks[t].todo == [] then |list| else k + 1; }
        assert At(next.tasks[t], list, j);
      }
      j := WorksThrough(next, schedule[1..], t, list, j);
    }
  }

  /** A stop while one task holds a token lets a second one sell the same shares. */
  lemma StopBreaksExclusion(symbol: string)
    ensures var schedule := [Spawn([symbol]), Spawn([symbol]), Acquire(0), Stop, Acquire(1)];
            !Exclusive(Run(START, schedule))
  {
    var schedule := [Spawn([symbol]), Spawn([symbol]), Acquire(0), Stop, Acquire(1)];
    var two := System({}, [Between([symbol]), Between([symbol])]);
    var late := System({}, [Holding(symbol, []), Between([symbol])]);
    var both := System({Normalize(symbol)}, [Holding(symbol, []), Holding(symbol, [])]);
    assert [symbol][1..] == [];
    assert schedule[1..] == [Spawn([symbol]), Acquire(0), Stop, Acquire(1)];
    assert schedule[1..][1..] == [Acquire(0), Stop, Acquire(1)];
    assert [Acquire(0), Stop, Acquire(1)][1..] == [Stop, Acquire(1)];
    assert [Stop, Acquire(1)][1..] == [Acquire(1)];
    assert Step(Step(START, Spawn([symbol])), Spawn([symbol])) == two;
    var one := Step(two, Acquire(0));
    assert one.tasks == [Holding(symbol, []), Between([symbol])];
    assert Step(one, Stop) == late;
    assert Step(late, Acquire(1)).tasks == both.tasks;
    assert Run(START, schedule) == Run(two, [Acquire(0), Stop, Acquire(1)]);
    assert Run(two, [Acquire(0), Stop, Acquire(1)]) == Run(one, [Stop, Acquire(1)]) == Run(late, [Acquire(1)]);
    assert Run(late, [Acquire(1)]) == Run(Step(late, Acquire(1)), []);
    assert !Exclusive(both) by { assert both.tasks[0].Holding? && both.tasks[1].Holding?; }
  }
}
