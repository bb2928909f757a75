/** Hourly rollups of execution metrics: deleted and rebuilt over a window, then old data dropped. */
module Rollups {
  import opened Common

  // ----- Rows, keys, rollups; times in seconds

  const HOUR := 3600
  const DAY := 86400

  datatype Row = Row(
    at: int,
    metricType: string,
    metricName: string,
    provider: Option<string>,
    model: Option<string>,
    status: Option<string>,
    fallback: bool,
    elapsedMs: Option<int>,
    items: int,
    successes: int,
    errors: int,
    retries: int)

  datatype Key = Key(
    bucket: int,
    metricType: string,
    metricName: string,
    provider: Option<string>,
    model: Option<string>)

  datatype Rollup = Rollup(
    samples: nat,
    success: nat,
    partial: nat,
    error: nat,
    skipped: nat,
    fallbacks: nat,
    items: int,
    successes: int,
    errors: int,
    retries: int,
    elapsed: seq<int>)

  function Bucket(t: int): int { t - t % HOUR }

  function KeyOf(r: Row): Key { Key(Bucket(r.at), r.metricType, r.metricName, r.provider, r.model) }

  // ----- One group

  function StatusOf(r: Row): string {
    Upper(if r.status.Some? && r.status.value != "" then r.status.value else "UNKNOWN")
  }

  const EMPTY := Rollup(0, 0, 0, 0, 0, 0, 0, 0, 0, 0, [])

  function AddRow(a: Rollup, r: Row): Rollup {
    var s := StatusOf(r);
    Rollup(
      a.samples + 1,
      a.success + (if s == "SUCCESS" then 1 else 0),
      a.partial + (if s == "PARTIAL_ERROR" then 1 else 0),
      a.error + (if s == "SUCCESS" || s == "PARTIAL_ERROR" || s == "SKIPPED" then 0 else 1),
      a.skipped + (if s == "SKIPPED" then 1 else 0),
      a.fallbacks + (if r.fallback then 1 else 0),
      a.items + r.items,
      a.successes + r.successes,
      a.errors + r.errors,
      a.retries + r.retries,
      a.elapsed + if r.elapsedMs.Some? then [r.elapsedMs.value] else [])
  }

  function Summarize(rows: seq<Row>): Rollup {
    if rows == [] then EMPTY else AddRow(Summarize(rows[..|rows| - 1]), rows[|rows| - 1])
  }

  /** Every sample has one of the four outcomes. */
  lemma {:induction false} OutcomesAddUp(rows: seq<Row>)
    ensures var r := Summarize(rows);
            r.samples == |rows| == r.success + r.partial + r.error + r.skipped && r.fallbacks <= r.samples
    ensures |Summarize(rows).elapsed| <= |rows|
  {
    if rows == [] {
    } else {
      OutcomesAddUp(rows[..|rows| - 1]);
    }
  }

  function CountIf(rows: seq<Row>, p: Row -> bool): nat {
    if rows == [] then 0 else CountIf(rows[..|rows| - 1], p) + if p(rows[|rows| - 1]) then 1 else 0
  }

  function SumOf(rows: seq<Row>, f: Row -> int): int {
    if rows == [] then 0 else SumOf(rows[..|rows| - 1], f) + f(rows[|rows| - 1])
  }

  /** The times that were measured, in order. */
  function Times(rows: seq<Row>): seq<int> {
    if rows == [] then []
    else
      var r := rows[|rows| - 1];
      if r.elapsedMs.Some? then Times(rows[..|rows| - 1]) + [r.elapsedMs.value] else Times(rows[..|rows| - 1])
  }

  predicate EndedAs(r: Row, s: string) { r.status.Some? && Upper(r.status.value) == s }

  lemma UpperUnknown()
    ensures Upper("UNKNOWN") == "UNKNOWN"
  {
    assert Upper("NKNOWN") == "NKNOWN" by {
      assert Upper("KNOWN") == "KNOWN" by {
        assert Upper("OWN") == "OWN" && Upper("NOWN") == "NOWN";
      }
    }
  }

  /** Every counter of a rollup counts, or adds up, its own rows; what has no status, or another one, is
      an error. */
  lemma {:induction false} SummaryIs(rows: seq<Row>)
    ensures var r := Summarize(rows);
            && r.samples == |rows|
            && r.success == CountIf(rows, (x: Row) => EndedAs(x, "SUCCESS"))
            && r.partial == CountIf(rows, (x: Row) => EndedAs(x, "PARTIAL_ERROR"))
            && r.skipped == CountIf(rows, (x: Row) => EndedAs(x, "SKIPPED"))
            && r.error == CountIf(rows, (x: Row) =>
                 !EndedAs(x, "SUCCESS") && !EndedAs(x, "PARTIAL_ERROR") && !EndedAs(x, "SKIPPED"))
            && r.fallbacks == CountIf(rows, (x: Row) => x.fallback)
            && r.items == SumOf(rows, (x: Row) => x.items) && r.successes == SumOf(rows, (x: Row) => x.successes)
            && r.errors == SumOf(rows, (x: Row) => x.errors) && r.retries == SumOf(rows, (x: Row) => x.retries)
            && r.elapsed == Times(rows)
  {
    if rows == [] {
    } else {
      SummaryIs(rows[..|rows| - 1]);
      UpperUnknown();
    }
  }

  /** A row belongs to the full hour it was recorded in, and to its type, name, provider and model. */
  lemma {:induction false} KeyIs(r: Row)
    ensures var k := KeyOf(r);
            && k.bucket % 3600 == 0 && k.bucket <= r.at < k.bucket + 3600
            && k.metricType == r.metricType && k.metricName == r.metricName
            && k.provider == r.provider && k.model == r.model
  {
  }

  // ----- Selections

  function GroupOf(rows: seq<Row>, k: Key): seq<Row> {
    if rows == [] then []
    else
      var r := rows[|rows| - 1];
      var rest := GroupOf(rows[..|rows| - 1], k);
      if KeyOf(r) == k then rest + [r] else rest
  }

  /** Recorded at `lo` or later, before `hi`. */
  function Between(rows: seq<Row>, lo: int, hi: int): seq<Row> {
    if rows == [] then []
    else
      var r := rows[|rows| - 1];
      var rest := Between(rows[..|rows| - 1], lo, hi);
      if lo <= r.at < hi then rest + [r] else rest
  }

  function Since(rows: seq<Row>, lo: int): seq<Row> {
    if rows == [] then []
    else
      var r := rows[|rows| - 1];
      var rest := Since(rows[..|rows| - 1], lo);
      if lo <= r.at then rest + [r] else rest
  }

  /** The group by of `rows`. */
  function RollupsOf(rows: seq<Row>): map<Key, Rollup> {
    map k | k in Keys(rows) :: Summarize(GroupOf(rows, k))
  }

  function Keys(rows: seq<Row>): set<Key> { set i | 0 <= i < |rows| :: KeyOf(rows[i]) }

  /** Sorting compares the keys component by component, and nothing with a missing component. */
  predicate Incomparable(a: Key, b: Key) {
    && a.bucket == b.bucket && a.metricType == b.metricType && a.metricName == b.metricName
    && (a.provider.None? != b.provider.None? || (a.provider == b.provider && a.model.None? != b.model.None?))
  }

  /** The components of a key, as the tuple that is sorted. */
  datatype Component = Number(n: int) | Text(s: string) | Missing

  function TextOf(o: Option<string>): Component { if o.Some? then Text(o.value) else Missing }

  function Tuple(k: Key): seq<Component> {
    [Number(k.bucket), Text(k.metricType), Text(k.metricName), TextOf(k.provider), TextOf(k.model)]
  }

  /** Tuples are compared at the first difference, which fails if one side is missing there. */
  predicate ComparingFails(a: seq<Component>, b: seq<Component>) {
    a != [] && b != [] && if a[0] == b[0] then ComparingFails(a[1..], b[1..]) else a[0].Missing? || b[0].Missing?
  }

  lemma {:induction false} OneComponent(a: seq<Component>, b: seq<Component>, i: nat)
    requires i < |a| == |b|
    ensures ComparingFails(a[i..], b[i..])
       <==> if a[i] == b[i] then ComparingFails(a[i + 1..], b[i + 1..]) else a[i].Missing? || b[i].Missing?
  {
    assert a[i..][0] == a[i] && a[i..][1..] == a[i + 1..] && b[i..][0] == b[i] && b[i..][1..] == b[i + 1..];
  }

  lemma {:induction false} IncomparableIff(a: Key, b: Key)
    ensures Incomparable(a, b) <==> ComparingFails(Tuple(a), Tuple(b))
  {
    var x, y := Tuple(a), Tuple(b);
    OneComponent(x, y, 0);
    OneComponent(x, y, 1);
    OneComponent(x, y, 2);
    OneComponent(x, y, 3);
    OneComponent(x, y, 4);
    assert x[0..] == x && y[0..] == y && x[5..] == [];
  }

  predicate Unsortable(rows: seq<Row>) {
    exists i, j :: 0 <= i < |rows| && 0 <= j < |rows| && Incomparable(KeyOf(rows[i]), KeyOf(rows[j]))
  }

  // ----- One maintenance run

  /** Settings as configured; zero means unset. */
  datatype Config = Config(lookbackHours: int, rawDays: int, rollupDays: int)

  function OrDefault(x: int, default: int): (r: int)
    ensures r >= 1 && (x >= 1 ==> r == x)
  {
    Max(if x == 0 then default else x, 1)
  }

  function Lookback(cfg: Config): int { OrDefault(cfg.lookbackHours, 72) * HOUR }

  function RawRetention(cfg: Config): int { OrDefault(cfg.rawDays, 30) * DAY }

  function RollupRetention(cfg: Config): int { OrDefault(cfg.rollupDays, 365) * DAY }

  /** Zero means the default of 72 hours, 30 days and 365 days, and less than one means one. */
  lemma {:induction false} SettingsAre(cfg: Config)
    ensures Lookback(cfg)
         == (if cfg.lookbackHours == 0 then 72 else if cfg.lookbackHours < 1 then 1 else cfg.lookbackHours) * 3600
    ensures RawRetention(cfg) == (if cfg.rawDays == 0 then 30 else if cfg.rawDays < 1 then 1 else cfg.rawDays) * 86400
    ensures RollupRetention(cfg)
         == (if cfg.rollupDays == 0 then 365 else if cfg.rollupDays < 1 then 1 else cfg.rollupDays) * 86400
  {
  }

  datatype Db = Db(rows: seq<Row>, rollups: map<Key, Rollup>)

  function WindowStart(cfg: Config, now: int): int { Bucket(now) - Lookback(cfg) }

  function Window(cfg: Config, rows: seq<Row>, now: int): seq<Row> { Between(rows, WindowStart(cfg, now), Bucket(now)) }

  /** The comparison fails while the keys are sorted. */
  predicate Raises(cfg: Config, db: Db, now: int) { Unsortable(Window(cfg, db.rows, now)) }

  function Outside(cfg: Config, rollups: map<Key, Rollup>, now: int): map<Key, Rollup> {
    map k | k in rollups && !(WindowStart(cfg, now) <= k.bucket < Bucket(now)) :: rollups[k]
  }

  function Recent(cfg: Config, rollups: map<Key, Rollup>, now: int): map<Key, Rollup> {
    map k | k in rollups && k.bucket >= now - RollupRetention(cfg) :: rollups[k]
  }

  /** A transaction: an exception leaves everything as it was. */
  function Maintain(cfg: Config, db: Db, now: int): Db {
    if Raises(cfg, db, now) then db
    else
      Db(Since(db.rows, now - RawRetention(cfg)),
         Recent(cfg, Outside(cfg, db.rollups, now) + RollupsOf(Window(cfg, db.rows, now)), now))
  }

  // ----- The run over a store

  class Store {
    const cfg: Config
    var rows: seq<Row>
    var rollups: map<Key, Rollup>

    constructor (cfg: Config)
      ensures this.cfg == cfg && rows == [] && rollups == map[]
    {
      this.cfg, rows, rollups := cfg, [], map[];
    }

    ghost function Value(): Db
      reads this
    {
      Db(rows, rollups)
    }

    method Record(r: Row)
      modifies this`rows
      ensures rows == old(rows) + [r]
    {
      rows := rows + [r];
    }

    method RunMaintenance(now: int) returns (done: bool)
      modifies this
      ensures done == !Raises(cfg, old(Value()), now)
      ensures Value() == Maintain(cfg, old(Value()), now)
    {
      var start, end := WindowStart(cfg, now), Bucket(now);
      var built := BuildRollups(Between(rows, start, end));
      if built.None? { return false; }
      rollups := map k | k in rollups && !(start <= k.bucket < end) :: rollups[k];
      rollups := rollups + built.value;
      rows := Since(rows, now - RawRetention(cfg));
      var cutoff := now - RollupRetention(cfg);
      rollups := map k | k in rollups && k.bucket >= cutoff :: rollups[k];
      return true;
    }
  }

  /** The groups in the order of their first row. */
  ghost predicate Grouped(rows: seq<Row>, keys: seq<Key>, groups: map<Key, seq<Row>>) {
    && Distinct(keys)
    && (forall k :: k in groups <==> k in keys)
    && (forall k :: k in groups <==> k in Keys(rows))
    && (forall k :: k in groups ==> groups[k] == GroupOf(rows, k))
  }

  lemma KeysGrow(rows: seq<Row>, r: Row)
    ensures Keys(rows + [r]) == Keys(rows) + {KeyOf(r)}
  {
    var longer := rows + [r];
    forall k | k in Keys(rows) + {KeyOf(r)} ensures k in Keys(longer) {
      if k in Keys(rows) {
        var i :| 0 <= i < |rows| && KeyOf(rows[i]) == k;
        assert longer[i] == rows[i];
      } else {
        assert longer[|rows|] == r;
      }
    }
  }

  lemma {:induction false} GroupOfNothing(rows: seq<Row>, k: Key)
    requires k !in Keys(rows)
    ensures GroupOf(rows, k) == []
  {
    if rows == [] {
    } else {
      var init, r := rows[..|rows| - 1], rows[|rows| - 1];
      assert init + [r] == rows;
      KeysGrow(init, r);
      GroupOfNothing(init, k);
    }
  }

  lemma GroupGrows(rows: seq<Row>, r: Row, k: Key)
    ensures GroupOf(rows + [r], k) == if KeyOf(r) == k then GroupOf(rows, k) + [r] else GroupOf(rows, k)
  {
    assert (rows + [r])[..|rows|] == rows;
  }

  lemma JoinsGroup(rows: seq<Row>, keys: seq<Key>, groups: map<Key, seq<Row>>, r: Row)
    requires Grouped(rows, keys, groups) && KeyOf(r) in groups
    ensures Grouped(rows + [r], keys, groups[KeyOf(r) := groups[KeyOf(r)] + [r]])
  {
    KeysGrow(rows, r);
    forall k ensures GroupOf(rows + [r], k) == if KeyOf(r) == k then GroupOf(rows, k) + [r] else GroupOf(rows, k) {
      GroupGrows(rows, r, k);
    }
  }

  lemma StartsGroup(rows: seq<Row>, keys: seq<Key>, groups: map<Key, seq<Row>>, r: Row)
    requires Grouped(rows, keys, groups) && KeyOf(r) !in groups
    ensures Grouped(rows + [r], keys + [KeyOf(r)], groups[KeyOf(r) := [r]])
  {
    KeysGrow(rows, r);
    GroupOfNothing(rows, KeyOf(r));
    forall k ensures GroupOf(rows + [r], k) == if KeyOf(r) == k then GroupOf(rows, k) + [r] else GroupOf(rows, k) {
      GroupGrows(rows, r, k);
    }
  }

  method GroupRows(rows: seq<Row>) returns (keys: seq<Key>, groups: map<Key, seq<Row>>)
    ensures Grouped(rows, keys, groups)
  {
    keys, groups := [], map[];
    var i := 0;
    while i < |rows|
      invariant 0 <= i <= |rows| && Grouped(rows[..i], keys, groups)
    {
      var r := rows[i];
      assert rows[..i] + [r] == rows[..i + 1];
      if KeyOf(r) in groups {
        JoinsGroup(rows[..i], keys, groups, r);
        groups := groups[KeyOf(r) := groups[KeyOf(r)] + [r]];
      } else {
        StartsGroup(rows[..i], keys, groups, r);
        keys, groups := keys + [KeyOf(r)], groups[KeyOf(r) := [r]];
      }
      i := i + 1;
    }
    assert rows[..i] == rows;
  }

  lemma {:induction false} SamplesCount(rows: seq<Row>)
    ensures Summarize(rows).samples == |rows|
  {
    if rows == [] {
    } else {
      SamplesCount(rows[..|rows| - 1]);
    }
  }

  /** The samples of all groups are the rows. */
  function SampleTotal(rows: seq<Row>, keys: seq<Key>): nat {
    if keys == [] then 0
    else SampleTotal(rows, keys[..|keys| - 1]) + Summarize(GroupOf(rows, keys[|keys| - 1])).samples
  }

  lemma {:induction false} SamplesGrow(rows: seq<Row>, keys: seq<Key>, r: Row)
    requires Distinct(keys)
    ensures SampleTotal(rows + [r], keys) == SampleTotal(rows, keys) + if KeyOf(r) in keys then 1 else 0
  {
    if keys == [] {
    } else {
      var last := |keys| - 1;
      SamplesGrow(rows, keys[..last], r);
      GroupGrows(rows, r, keys[last]);
      SamplesCount(GroupOf(rows, keys[last]));
      SamplesCount(GroupOf(rows + [r], keys[last]));
    }
  }

  /** Over the distinct keys of the rows, the sample counts add up to the number of rows. */
  lemma {:induction false} SamplesAddUp(rows: seq<Row>, keys: seq<Key>)
    requires Distinct(keys) && forall i :: 0 <= i < |rows| ==> KeyOf(rows[i]) in keys
    ensures SampleTotal(rows, keys) == |rows|
  {
    if rows == [] {
      NoSamples(keys);
    } else {
      var init, r := rows[..|rows| - 1], rows[|rows| - 1];
      assert init + [r] == rows;
      SamplesAddUp(init, keys);
      SamplesGrow(init, keys, r);
    }
  }

  lemma {:induction false} NoSamples(keys: seq<Key>)
    ensures SampleTotal([], keys) == 0
  {
    if keys == [] {
    } else {
      NoSamples(keys[..|keys| - 1]);
    }
  }

  /** Nothing when the keys cannot be sorted, otherwise the group by of the rows. */
  method BuildRollups(rows: seq<Row>) returns (built: Option<map<Key, Rollup>>)
    ensures built == if Unsortable(rows) then None else Some(RollupsOf(rows))
  {
    var keys, groups := GroupRows(rows);
    var sortable := Sortable(rows, keys);
    if !sortable { return None; }
    var rollups: map<Key, Rollup>, i := map[], 0;
    while i < |keys|
      invariant 0 <= i <= |keys|
      invariant forall k :: k in rollups <==> k in keys[..i]
      invariant forall k :: k in rollups ==> rollups[k] == Summarize(GroupOf(rows, k))
    {
      rollups := rollups[keys[i] := Summarize(groups[keys[i]])];
      assert keys[..i + 1] == keys[..i] + [keys[i]];
      i := i + 1;
    }
    assert keys[..i] == keys;
    AllKeysBuilt(rows, keys, rollups);
    return Some(rollups);
  }

  lemma AllKeysBuilt(rows: seq<Row>, keys: seq<Key>, rollups: map<Key, Rollup>)
    requires forall k :: k in keys <==> k in Keys(rows)
    requires forall k :: k in rollups <==> k in keys
    requires forall k :: k in rollups ==> rollups[k] == Summarize(GroupOf(rows, k))
    ensures rollups == RollupsOf(rows)
  {
  }

  method Sortable(ghost rows: seq<Row>, keys: seq<Key>) returns (ok: bool)
    requires forall k :: k in keys <==> k in Keys(rows)
    ensures ok == !Unsortable(rows)
  {
    ok := forall i, j :: 0 <= i < |keys| && 0 <= j < |keys| ==> !Incomparable(keys[i], keys[j]);
    SortableKeys(rows, keys);
  }

  lemma SortableKeys(rows: seq<Row>, keys: seq<Key>)
    requires forall k :: k in keys <==> k in Keys(rows)
    ensures Unsortable(rows) <==> exists i, j :: 0 <= i < |keys| && 0 <= j < |keys| && Incomparable(keys[i], keys[j])
  {
    if Unsortable(rows) {
      var i, j :| 0 <= i < |rows| && 0 <= j < |rows| && Incomparable(KeyOf(rows[i]), KeyOf(rows[j]));
      assert KeyOf(rows[i]) in Keys(rows) && KeyOf(rows[j]) in Keys(rows);
      assert KeyOf(rows[i]) in keys && KeyOf(rows[j]) in keys;
    }
    if exists i, j :: 0 <= i < |keys| && 0 <= j < |keys| && Incomparable(keys[i], keys[j]) {
      var i, j :| 0 <= i < |keys| && 0 <= j < |keys| && Incomparable(keys[i], keys[j]);
      assert keys[i] in Keys(rows) && keys[j] in Keys(rows);
    }
  }
}
