/** Rollups over a whole history of recording and maintenance, although raw rows are dropped. */
module RollupHistory {
  import opened Common
  import opened Rollups
  import opened RollupLaws

  datatype Event = Recorded(row: Row) | Maintained(now: int)

  /** The store, all rows ever recorded, and the last run that did not raise. */
  datatype Log = Log(db: Db, history: seq<Row>, last: Option<int>)

  const EMPTY_LOG := Log(Db([], map[]), [], None)

  function Step(cfg: Config, log: Log, e: Event): Log {
    match e
    case Recorded(row) => log.(db := log.db.(rows := log.db.rows + [row]), history := log.history + [row])
    case Maintained(now) =>
      if Raises(cfg, log.db, now) then log else log.(db := Maintain(cfg, log.db, now), last := Some(now))
  }

  function Run(cfg: Config, log: Log, events: seq<Event>): Log
    decreases |events|
  {
    if events == [] then log else Run(cfg, Step(cfg, log, events[0]), events[1..])
  }

  function Time(e: Event): int { if e.Recorded? then e.row.at else e.now }

  /** The window of a run reaches back to the first row, or to where the previous run ended. Runs
      that are at most the lookback apart do. */
  predicate ReachesBack(cfg: Config, log: Log, now: int) {
    match log.last
    case None => forall i :: 0 <= i < |log.history| ==> WindowStart(cfg, now) <= log.history[i].at
    case Some(l) => WindowStart(cfg, now) <= Bucket(l)
  }

  /** The clock does not go back, and no run that succeeds leaves a gap. */
  predicate WellTimed(cfg: Config, log: Log, clock: int, events: seq<Event>)
    decreases |events|
  {
    events == []
    || (var e := events[0];
        && clock <= Time(e)
        && (e.Maintained? && !Raises(cfg, log.db, e.now) ==> ReachesBack(cfg, log, e.now))
        && WellTimed(cfg, Step(cfg, log, e), Time(e), events[1..]))
  }

  /** Runs no further apart than the lookback reach back. */
  lemma CloseRunsReachBack(cfg: Config, log: Log, now: int)
    requires log.last.Some? && log.last.value <= now <= log.last.value + Lookback(cfg)
    ensures ReachesBack(cfg, log, now)
  {
    var l := log.last.value;
    BucketWithin(now, Bucket(l) + Lookback(cfg) + HOUR);
    BucketWithin(l, 0);
  }

  /** The stored rollup of a key is what the whole history says about it. */
  predicate AgreesAt(cfg: Config, log: Log, l: int, k: Key) {
    var group := GroupOf(log.history, k);
    && (k in log.db.rollups <==> l - RollupRetention(cfg) <= k.bucket < Bucket(l) && group != [])
    && (k in log.db.rollups ==> log.db.rollups[k] == Summarize(group))
  }

  ghost predicate Faithful(cfg: Config, log: Log, clock: int) {
    && (forall i :: 0 <= i < |log.history| ==> log.history[i].at <= clock)
    && match log.last
       case None => log.db == Db(log.history, map[])
       case Some(l) =>
         && l <= clock
         && log.db.rows == Since(log.history, l - RawRetention(cfg))
         && forall k :: AgreesAt(cfg, log, l, k)
  }

  lemma RecordAgrees(cfg: Config, log: Log, l: int, row: Row, k: Key)
    requires AgreesAt(cfg, log, l, k) && l <= row.at
    ensures AgreesAt(cfg, Step(cfg, log, Recorded(row)), l, k)
  {
    GroupGrows(log.history, row, k);
    BucketMonotone(l, row.at);
  }

  lemma BucketMonotone(a: int, b: int)
    requires a <= b
    ensures Bucket(a) <= Bucket(b)
  {
    BucketWithin(a, 0);
    BucketWithin(b, Bucket(a));
  }

  lemma RecordFaithful(cfg: Config, log: Log, clock: int, row: Row)
    requires Faithful(cfg, log, clock) && clock <= row.at
    ensures Faithful(cfg, Step(cfg, log, Recorded(row)), row.at)
  {
    if log.last.Some? {
      var l := log.last.value;
      SinceGrows(log.history, row, l - RawRetention(cfg));
      forall k ensures AgreesAt(cfg, Step(cfg, log, Recorded(row)), l, k) {
        RecordAgrees(cfg, log, l, row, k);
      }
    }
  }

  /** Before the first window there is nothing. */
  lemma NothingBefore(rows: seq<Row>, start: int, k: Key)
    requires start % HOUR == 0 && k.bucket < start
    requires forall i :: 0 <= i < |rows| ==> start <= rows[i].at
    ensures GroupOf(rows, k) == []
  {
    forall i | 0 <= i < |rows| ensures KeyOf(rows[i]) != k {
      BucketWithin(rows[i].at, start);
    }
    GroupExists(rows, k);
  }

  /** What a run finds in the raw rows for a bucket of its window is all there ever was. */
  lemma WindowComplete(cfg: Config, log: Log, clock: int, now: int, k: Key)
    requires Faithful(cfg, log, clock) && RawRetention(cfg) > Lookback(cfg)
    requires clock <= now && WindowStart(cfg, now) <= k.bucket
    ensures GroupOf(log.db.rows, k) == GroupOf(log.history, k)
  {
    if log.last.Some? {
      var l := log.last.value;
      BucketMonotone(l, now);
      WindowOutlived(cfg, l);
      GroupOfSince(log.history, l - RawRetention(cfg), k);
    }
  }

  lemma MaintainAgrees(cfg: Config, log: Log, clock: int, now: int, k: Key)
    requires Faithful(cfg, log, clock) && RawRetention(cfg) > Lookback(cfg) && clock <= now
    requires !Raises(cfg, log.db, now) && ReachesBack(cfg, log, now)
    ensures AgreesAt(cfg, Step(cfg, log, Maintained(now)), now, k)
  {
    MaintainAt(cfg, log.db, now, k);
    var start := WindowStart(cfg, now);
    BucketWithin(now, 0);
    if start <= k.bucket {
      WindowComplete(cfg, log, clock, now, k);
      if log.last.Some? {
        BucketMonotone(log.last.value, now);
        assert AgreesAt(cfg, log, log.last.value, k);
      }
    } else if log.last.None? {
      NothingBefore(log.history, start, k);
    } else {
      assert AgreesAt(cfg, log, log.last.value, k);
    }
  }

  lemma MaintainFaithful(cfg: Config, log: Log, clock: int, now: int)
    requires Faithful(cfg, log, clock) && RawRetention(cfg) > Lookback(cfg) && clock <= now
    requires !Raises(cfg, log.db, now) && ReachesBack(cfg, log, now)
    ensures Faithful(cfg, Step(cfg, log, Maintained(now)), now)
  {
    forall k ensures AgreesAt(cfg, Step(cfg, log, Maintained(now)), now, k) {
      MaintainAgrees(cfg, log, clock, now, k);
    }
    if log.last.Some? {
      SinceTwice(log.history, log.last.value - RawRetention(cfg), now - RawRetention(cfg));
    }
  }

  lemma LaterFaithful(cfg: Config, log: Log, clock: int, later: int)
    requires Faithful(cfg, log, clock) && clock <= later
    ensures Faithful(cfg, log, later)
  {
  }

  lemma {:induction false} RunFaithful(cfg: Config, log: Log, clock: int, events: seq<Event>) returns (end: int)
    requires Faithful(cfg, log, clock) && WellTimed(cfg, log, clock, events) && RawRetention(cfg) > Lookback(cfg)
    ensures Faithful(cfg, Run(cfg, log, events), end)
    decreases |events|
  {
    if events == [] { return clock; }
    var e := events[0];
    match e {
      case Recorded(row) => RecordFaithful(cfg, log, clock, row);
      case Maintained(now) =>
        if Raises(cfg, log.db, now) {
          LaterFaithful(cfg, log, clock, now);
        } else {
          MaintainFaithful(cfg, log, clock, now);
        }
    }
    end := RunFaithful(cfg, Step(cfg, log, e), Time(e), events[1..]);
  }

  /** After any well-timed run, with raw rows kept longer than the lookback: the stored rollups are
      exactly the group by of everything ever recorded, for the buckets that were complete at the
      last run and are within the rollup retention. */
  lemma RollupsEqualHistory(cfg: Config, clock: int, events: seq<Event>, k: Key)
    requires WellTimed(cfg, EMPTY_LOG, clock, events) && RawRetention(cfg) > Lookback(cfg)
    ensures var log := Run(cfg, EMPTY_LOG, events);
            if log.last.None? then log.db.rollups == map[] else AgreesAt(cfg, log, log.last.value, k)
  {
    var end := RunFaithful(cfg, EMPTY_LOG, clock, events);
  }
}
