/** The stored rollups against the whole history of what was recorded. */
module RollupLaws {
  import opened Common
  import opened Rollups

  // ----- Selections and groups

  lemma {:induction false} GroupOfWindow(rows: seq<Row>, lo: int, hi: int, k: Key)
    requires lo % HOUR == 0 && hi % HOUR == 0
    ensures GroupOf(Between(rows, lo, hi), k) == if lo <= k.bucket < hi then GroupOf(rows, k) else []
  {
    if rows == [] {
    } else {
      var init, r := rows[..|rows| - 1], rows[|rows| - 1];
      GroupOfWindow(init, lo, hi, k);
      BucketWithin(r.at, lo);
      BucketWithin(r.at, hi);
      if lo <= r.at < hi { GroupGrows(Between(init, lo, hi), r, k); }
    }
  }

  /** A moment is before an hour mark exactly when its bucket is. */
  lemma BucketWithin(t: int, mark: int)
    requires mark % HOUR == 0
    ensures Bucket(t) < mark <==> t < mark
    ensures Bucket(t) % HOUR == 0 && Bucket(t) <= t < Bucket(t) + HOUR
  {
  }

  lemma {:induction false} GroupOfSince(rows: seq<Row>, lo: int, k: Key)
    requires lo <= k.bucket
    ensures GroupOf(Since(rows, lo), k) == GroupOf(rows, k)
  {
    if rows == [] {
    } else {
      var init, r := rows[..|rows| - 1], rows[|rows| - 1];
      GroupOfSince(init, lo, k);
      BucketWithin(r.at, 0);
      if lo <= r.at { GroupGrows(Since(init, lo), r, k); }
    }
  }

  lemma {:induction false} SinceTwice(rows: seq<Row>, a: int, b: int)
    ensures Since(Since(rows, a), b) == Since(rows, Max(a, b))
  {
    if rows == [] {
    } else {
      var init, r := rows[..|rows| - 1], rows[|rows| - 1];
      SinceTwice(init, a, b);
      if a <= r.at { SinceGrows(Since(init, a), r, b); }
    }
  }

  lemma SinceGrows(rows: seq<Row>, r: Row, lo: int)
    ensures Since(rows + [r], lo) == if lo <= r.at then Since(rows, lo) + [r] else Since(rows, lo)
  {
    assert (rows + [r])[..|rows|] == rows;
  }

  lemma BetweenGrows(rows: seq<Row>, r: Row, lo: int, hi: int)
    ensures Between(rows + [r], lo, hi)
         == if lo <= r.at < hi then Between(rows, lo, hi) + [r] else Between(rows, lo, hi)
  {
    assert (rows + [r])[..|rows|] == rows;
  }

  lemma {:induction false} SinceKeeps(rows: seq<Row>, a: int, lo: int, hi: int, r: Row)
    requires r in Between(Since(rows, a), lo, hi)
    ensures r in Between(rows, lo, hi)
  {
    if rows == [] {
    } else {
      var init, last := rows[..|rows| - 1], rows[|rows| - 1];
      if a <= last.at { BetweenGrows(Since(init, a), last, lo, hi); }
      if r in Between(Since(init, a), lo, hi) { SinceKeeps(init, a, lo, hi, r); }
    }
  }

  lemma {:induction false} GroupExists(rows: seq<Row>, k: Key)
    ensures k in Keys(rows) <==> GroupOf(rows, k) != []
  {
    if rows == [] {
    } else {
      var init, r := rows[..|rows| - 1], rows[|rows| - 1];
      assert init + [r] == rows;
      GroupExists(init, k);
      KeysGrow(init, r);
    }
  }

  // ----- One run, key by key

  /** What a run that does not raise stores under a key. */
  lemma MaintainAt(cfg: Config, db: Db, now: int, k: Key)
    requires !Raises(cfg, db, now)
    ensures var next := Maintain(cfg, db, now).rollups;
            var inside := WindowStart(cfg, now) <= k.bucket < Bucket(now);
            && (k in next <==> k.bucket >= now - RollupRetention(cfg)
                               && if inside then GroupOf(db.rows, k) != [] else k in db.rollups)
            && (k in next ==> next[k] == if inside then Summarize(GroupOf(db.rows, k)) else db.rollups[k])
  {
    var lo, hi := WindowStart(cfg, now), Bucket(now);
    BucketWithin(now, 0);
    GroupOfWindow(db.rows, lo, hi, k);
    GroupExists(Between(db.rows, lo, hi), k);
  }

  /** What is inserted was deleted before: the unique constraint on the key is never violated. */
  lemma InsertsAreFresh(cfg: Config, db: Db, now: int, k: Key)
    requires k in RollupsOf(Window(cfg, db.rows, now))
    ensures k !in Outside(cfg, db.rollups, now)
  {
    var lo, hi := WindowStart(cfg, now), Bucket(now);
    BucketWithin(now, 0);
    GroupOfWindow(db.rows, lo, hi, k);
    GroupExists(Between(db.rows, lo, hi), k);
  }

  // ----- Running twice

  /** No run can change anything by being repeated at the same time. */
  ghost predicate Repeatable(cfg: Config) {
    forall db: Db, now: int :: Maintain(cfg, Maintain(cfg, db, now), now) == Maintain(cfg, db, now)
  }

  /** Raw rows outlive the window, or rollups go before the raw rows do. */
  predicate KeepsWindow(cfg: Config) {
    RawRetention(cfg) > Lookback(cfg) || RollupRetention(cfg) <= RawRetention(cfg)
  }

  lemma FewerRowsSort(few: seq<Row>, rows: seq<Row>)
    requires forall r :: r in few ==> r in rows
    ensures Unsortable(few) ==> Unsortable(rows)
  {
    if Unsortable(few) {
      var i, j :| 0 <= i < |few| && 0 <= j < |few| && Incomparable(KeyOf(few[i]), KeyOf(few[j]));
      assert few[i] in few && few[j] in few;
      var a :| 0 <= a < |rows| && rows[a] == few[i];
      var b :| 0 <= b < |rows| && rows[b] == few[j];
      assert Incomparable(KeyOf(rows[a]), KeyOf(rows[b]));
    }
  }

  lemma SecondRunSorts(cfg: Config, db: Db, now: int)
    requires !Raises(cfg, db, now)
    ensures !Raises(cfg, Maintain(cfg, db, now), now)
  {
    var lo, hi, cut := WindowStart(cfg, now), Bucket(now), now - RawRetention(cfg);
    forall r | r in Between(Since(db.rows, cut), lo, hi) ensures r in Between(db.rows, lo, hi) {
      SinceKeeps(db.rows, cut, lo, hi, r);
    }
    FewerRowsSort(Between(Since(db.rows, cut), lo, hi), Between(db.rows, lo, hi));
  }

  /** In hours: days times 24 exceed the lookback, so a whole hour lies between them. */
  lemma WindowOutlived(cfg: Config, now: int)
    requires RawRetention(cfg) > Lookback(cfg)
    ensures now - RawRetention(cfg) <= WindowStart(cfg, now)
  {
    BucketWithin(now, 0);
    assert RawRetention(cfg) == OrDefault(cfg.rawDays, 30) * 24 * HOUR;
  }

  /** A group of the window that is kept at all is still there after the old rows went. */
  lemma GroupOutlives(cfg: Config, db: Db, now: int, k: Key)
    requires KeepsWindow(cfg) && WindowStart(cfg, now) <= k.bucket && now - RollupRetention(cfg) <= k.bucket
    ensures GroupOf(Since(db.rows, now - RawRetention(cfg)), k) == GroupOf(db.rows, k)
  {
    if RawRetention(cfg) > Lookback(cfg) { WindowOutlived(cfg, now); }
    GroupOfSince(db.rows, now - RawRetention(cfg), k);
  }

  lemma RepeatAt(cfg: Config, db: Db, now: int, k: Key)
    requires KeepsWindow(cfg) && !Raises(cfg, db, now) && !Raises(cfg, Maintain(cfg, db, now), now)
    ensures var once := Maintain(cfg, db, now);
            var twice := Maintain(cfg, once, now).rollups;
            (k in twice <==> k in once.rollups) && (k in twice ==> twice[k] == once.rollups[k])
  {
    var once := Maintain(cfg, db, now);
    assert once.rows == Since(db.rows, now - RawRetention(cfg));
    MaintainAt(cfg, db, now, k);
    MaintainAt(cfg, once, now, k);
    if WindowStart(cfg, now) <= k.bucket && k.bucket >= now - RollupRetention(cfg) {
      GroupOutlives(cfg, db, now, k);
    }
  }

  lemma RepeatChangesNothing(cfg: Config, db: Db, now: int)
    requires KeepsWindow(cfg)
    ensures Maintain(cfg, Maintain(cfg, db, now), now) == Maintain(cfg, db, now)
  {
    if !Raises(cfg, db, now) {
      var once := Maintain(cfg, db, now);
      var twice := Maintain(cfg, once, now);
      SecondRunSorts(cfg, db, now);
      SinceTwice(db.rows, now - RawRetention(cfg), now - RawRetention(cfg));
      forall k ensures (k in twice.rollups <==> k in once.rollups)
        && (k in twice.rollups ==> twice.rollups[k] == once.rollups[k])
      {
        RepeatAt(cfg, db, now, k);
      }
      assert twice.rollups == once.rollups;
    }
  }

  /** At time 1, one raw retention back lies in the window, is dropped, and is rolled up. */
  lemma EarlyTime(cfg: Config) returns (at: int)
    requires !KeepsWindow(cfg)
    ensures Bucket(at) == at && Bucket(1) == 0
    ensures WindowStart(cfg, 1) <= at < 0 && 1 - RollupRetention(cfg) <= at < 1 - RawRetention(cfg)
  {
    at := -(OrDefault(cfg.rawDays, 30) * 24 * HOUR);
    MultipleIsBucket(-(OrDefault(cfg.rawDays, 30) * 24));
  }

  lemma MultipleIsBucket(n: int)
    ensures Bucket(n * HOUR) == n * HOUR
  {
  }

  /** A row that the first run counts and drops, and that the second one misses. */
  lemma DroppedTooEarly(cfg: Config) returns (db: Db, now: int)
    requires !KeepsWindow(cfg)
    ensures Maintain(cfg, Maintain(cfg, db, now), now) != Maintain(cfg, db, now)
  {
    var at := EarlyTime(cfg);
    var row := Row(at, "JOB", "poll", None, None, None, false, None, 0, 0, 0, 0);
    now, db := 1, Db([row], map[]);
    CountedAndDropped(cfg, row, now);
    MissedLater(cfg, Maintain(cfg, db, now), now, KeyOf(row));
  }

  lemma CountedAndDropped(cfg: Config, row: Row, now: int)
    requires WindowStart(cfg, now) <= Bucket(row.at) < Bucket(now) && Bucket(row.at) >= now - RollupRetention(cfg)
    requires row.at < now - RawRetention(cfg)
    ensures var once := Maintain(cfg, Db([row], map[]), now); once.rows == [] && KeyOf(row) in once.rollups
  {
    OneWindowSorts(cfg, row, now);
    SinceOne(row, now - RawRetention(cfg));
    Counted(cfg, row, now);
  }

  lemma Counted(cfg: Config, row: Row, now: int)
    requires WindowStart(cfg, now) <= Bucket(row.at) < Bucket(now) && Bucket(row.at) >= now - RollupRetention(cfg)
    requires !Raises(cfg, Db([row], map[]), now)
    ensures KeyOf(row) in Maintain(cfg, Db([row], map[]), now).rollups
  {
    MaintainAt(cfg, Db([row], map[]), now, KeyOf(row));
    OneGroup(row);
  }

  lemma MissedLater(cfg: Config, db: Db, now: int, k: Key)
    requires db.rows == [] && WindowStart(cfg, now) <= k.bucket < Bucket(now)
    ensures k !in Maintain(cfg, db, now).rollups
  {
    assert !Unsortable([]);
    MaintainAt(cfg, db, now, k);
  }

  lemma OneGroup(row: Row)
    ensures GroupOf([row], KeyOf(row)) == [row]
  {
    assert [row][..0] == [];
  }

  lemma SinceOne(row: Row, lo: int)
    ensures Since([row], lo) == if row.at >= lo then [row] else []
  {
    assert [row][..0] == [];
  }

  lemma OneWindowSorts(cfg: Config, row: Row, now: int)
    ensures !Raises(cfg, Db([row], map[]), now)
  {
    BetweenOne(row, WindowStart(cfg, now), Bucket(now));
    OneRowSorts(row);
  }

  lemma BetweenOne(row: Row, lo: int, hi: int)
    ensures Between([row], lo, hi) == if lo <= row.at < hi then [row] else []
  {
    assert [row][..0] == [];
  }

  lemma OneRowSorts(row: Row)
    ensures !Unsortable([row]) && !Unsortable([])
  {
    assert !Incomparable(KeyOf(row), KeyOf(row));
  }

  /** A second run at the same time changes nothing, whatever is stored, exactly when the raw rows
      outlive the window or the rollups do not outlive the raw rows. */
  lemma RepeatableIff(cfg: Config)
    ensures Repeatable(cfg) <==> KeepsWindow(cfg)
  {
    if KeepsWindow(cfg) {
      forall db: Db, now: int ensures Maintain(cfg, Maintain(cfg, db, now), now) == Maintain(cfg, db, now) {
        RepeatChangesNothing(cfg, db, now);
      }
    } else {
      var db, now := DroppedTooEarly(cfg);
    }
  }
}
