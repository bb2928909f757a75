/** Comparing the broker's pending orders with the unconfirmed records, and the cleanup built on it. */
module Reconciliation {
  import opened Common
  import opened TradeRecords
  import opened TradeLedger

  datatype BrokerOrder = BrokerOrder(orderId: string, orderQty: int, filledQty: int, remainingQty: int, price: real)

  /** Order ids by finding; the stale records by row. */
  datatype Findings = Findings(
    matched: seq<string>,
    brokerOnly: seq<string>,
    dbOnlyStale: seq<nat>,
    quantityMismatch: seq<string>,
    partialFill: seq<string>)

  // ----- The two dictionaries: a later entry with the same id replaces an earlier one

  function BrokerById(orders: seq<BrokerOrder>): (m: map<string, BrokerOrder>)
    ensures "" !in m
  {
    if orders == [] then map[]
    else
      var m := BrokerById(orders[..|orders| - 1]);
      var order := orders[|orders| - 1];
      if order.orderId != "" then m[order.orderId := order] else m
  }

  function OrderIdOf(t: Trade): string { if t.origin.orderId.Some? then t.origin.orderId.value else "" }

  function RecordById(rows: seq<Trade>, ids: seq<nat>): (m: map<string, nat>)
    requires InRange(ids, |rows|)
    ensures "" !in m
    ensures forall s :: s in m ==> m[s] in ids && m[s] < |rows| && OrderIdOf(rows[m[s]]) == s
  {
    if ids == [] then map[]
    else
      var m := RecordById(rows, ids[..|ids| - 1]);
      var id := ids[|ids| - 1];
      if OrderIdOf(rows[id]) != "" then m[OrderIdOf(rows[id]) := id] else m
  }

  predicate Stale(t: Trade, now: int, staleAfter: int) { now - t.origin.createdAt >= staleAfter }

  /** The broker's orders are known by their id, the last one of an id counts. */
  lemma {:induction false} BrokerKnows(orders: seq<BrokerOrder>, s: string)
    ensures s in BrokerById(orders) <==> s != "" && exists i :: 0 <= i < |orders| && orders[i].orderId == s
    ensures s in BrokerById(orders) ==>
              exists i :: 0 <= i < |orders| && orders[i] == BrokerById(orders)[s] && orders[i].orderId == s
                          && forall j :: i < j < |orders| ==> orders[j].orderId != s
  {
    if orders == [] {
    } else {
      var n := |orders| - 1;
      BrokerKnows(orders[..n], s);
      if orders[n].orderId == s != "" {
        assert orders[n] == BrokerById(orders)[s];
      } else if s in BrokerById(orders[..n]) {
        var i :| 0 <= i < n && orders[..n][i] == BrokerById(orders[..n])[s] && orders[..n][i].orderId == s
                 && forall j :: i < j < n ==> orders[..n][j].orderId != s;
        assert orders[i] == BrokerById(orders)[s];
        forall j | i < j < |orders| ensures orders[j].orderId != s { assert j < n ==> orders[..n][j] == orders[j]; }
      } else {
        forall i | 0 <= i < n ensures orders[i].orderId != s || s == "" { assert orders[..n][i] == orders[i]; }
      }
    }
  }

  method IndexOrders(orders: seq<BrokerOrder>) returns (m: map<string, BrokerOrder>)
    ensures m == BrokerById(orders)
  {
    m := map[];
    for i := 0 to |orders|
      invariant m == BrokerById(orders[..i])
    {
      assert orders[..i + 1][..i] == orders[..i];
      if orders[i].orderId != "" {
        m := m[orders[i].orderId := orders[i]];
      }
    }
    assert orders[..|orders|] == orders;
  }

  method IndexRecords(rows: seq<Trade>, ids: seq<nat>) returns (m: map<string, nat>)
    requires InRange(ids, |rows|)
    ensures m == RecordById(rows, ids)
  {
    m := map[];
    for i := 0 to |ids|
      invariant m == RecordById(rows, ids[..i])
    {
      assert ids[..i + 1][..i] == ids[..i];
      if OrderIdOf(rows[ids[i]]) != "" {
        m := m[OrderIdOf(rows[ids[i]]) := ids[i]];
      }
    }
    assert ids[..|ids|] == ids;
  }

  // ----- Ids in order

  /** Text by code points, a beginning before what it begins. */
  predicate Precedes(a: string, b: string) {
    b != "" && (a == "" || a[0] < b[0] || (a[0] == b[0] && Precedes(a[1..], b[1..])))
  }

  lemma {:induction false} OneFirst(a: string, b: string)
    ensures !Precedes(a, a) && (a == b || Precedes(a, b) || Precedes(b, a))
  {
    if a == "" {
    } else {
      OneFirst(a[1..], if b == "" then b else b[1..]);
      assert b != "" && a[0] == b[0] && a[1..] == b[1..] ==> a == [b[0]] + b[1..] == b;
    }
  }

  lemma {:induction false} PrecedesOn(a: string, b: string, c: string)
    requires Precedes(a, b) && Precedes(b, c)
    ensures Precedes(a, c)
  {
    if a == "" || a[0] < b[0] || b[0] < c[0] {
    } else {
      PrecedesOn(a[1..], b[1..], c[1..]);
    }
  }

  predicate Ascending(ids: seq<string>) { forall i, j :: 0 <= i < j < |ids| ==> Precedes(ids[i], ids[j]) }

  /** So no id is listed twice. */
  lemma AscendingOnce(ids: seq<string>)
    requires Ascending(ids)
    ensures Distinct(ids)
  {
    forall i, j | 0 <= i < j < |ids| ensures ids[i] != ids[j] { OneFirst(ids[i], ids[i]); }
  }

  function Place(s: string, ids: seq<string>): seq<string> {
    if ids == [] || Precedes(s, ids[0]) then [s] + ids else [ids[0]] + Place(s, ids[1..])
  }

  lemma {:induction false} PlaceMembers(s: string, ids: seq<string>)
    ensures forall t :: t in Place(s, ids) <==> t == s || t in ids
  {
    if ids == [] || Precedes(s, ids[0]) {
    } else {
      PlaceMembers(s, ids[1..]);
      assert forall t :: t in ids <==> t == ids[0] || t in ids[1..];
    }
  }

  lemma {:induction false} PlaceAscends(s: string, ids: seq<string>)
    requires Ascending(ids) && s !in ids
    ensures Ascending(Place(s, ids))
  {
    if ids == [] {
    } else if Precedes(s, ids[0]) {
      forall j | 0 < j < |ids| ensures Precedes(s, ids[j]) { PrecedesOn(s, ids[0], ids[j]); }
    } else {
      OneFirst(s, ids[0]);
      PlaceAscends(s, ids[1..]);
      var rest := Place(s, ids[1..]);
      forall j | 0 <= j < |rest| ensures Precedes(ids[0], rest[j]) {
        PlaceMembers(s, ids[1..]);
        assert rest[j] in rest;
      }
    }
  }

  method Sorted(keys: set<string>) returns (ids: seq<string>)
    ensures Ascending(ids) && forall s :: s in ids <==> s in keys
  {
    ids := [];
    var todo := keys;
    while todo != {}
      invariant todo <= keys && Ascending(ids) && forall s :: s in ids <==> s in keys - todo
      decreases todo
    {
      var s :| s in todo;
      PlaceMembers(s, ids);
      PlaceAscends(s, ids);
      todo, ids := todo - {s}, Place(s, ids);
    }
  }

  lemma AppendNext(list: seq<string>, ids: seq<string>, k: nat)
    requires k < |ids| && Ascending(ids) && Ascending(list) && forall s :: s in list ==> s in ids[..k]
    ensures Ascending(list + [ids[k]])
  {
    forall i | 0 <= i < |list| ensures Precedes(list[i], ids[k]) {
      assert list[i] in ids[..k];
    }
  }

  // ----- The report

  /** The three findings for an order that both sides know. */
  datatype Finding = Matched | QuantityMismatch | PartialFill

  function Classify(order: BrokerOrder, t: Trade): Finding {
    if order.orderQty != t.quantity then QuantityMismatch
    else if order.filledQty > 0 && order.remainingQty > 0 then PartialFill
    else Matched
  }

  /** What makes a finding: the quantities differ; or they agree and the order is partly filled, or not. */
  predicate Meets(c: Finding, order: BrokerOrder, t: Trade) {
    match c
    case QuantityMismatch => order.orderQty != t.quantity
    case PartialFill => order.orderQty == t.quantity && order.filledQty > 0 && order.remainingQty > 0
    case Matched => order.orderQty == t.quantity && (order.filledQty <= 0 || order.remainingQty <= 0)
  }

  /** `list` names, in order, the orders among `ids` that were classified as `c`. */
  ghost predicate Lists(list: seq<string>, c: Finding, broker: map<string, BrokerOrder>, db: map<string, nat>,
                        rows: seq<Trade>, ids: set<string>)
    requires forall s :: s in db ==> db[s] < |rows|
    requires ids <= broker.Keys * db.Keys
  {
    && Ascending(list)
    && forall s :: s in list <==> s in ids && Meets(c, broker[s], rows[db[s]])
  }

  /** The record is the one filed under its order id, the broker does not know the id, and it is old. */
  ghost predicate DbOnlyStale(id: nat, rows: seq<Trade>, db: map<string, nat>, brokerIds: set<string>, now: int,
                              staleAfter: int)
    requires id < |rows|
  {
    var s := OrderIdOf(rows[id]);
    s in db && db[s] == id && s !in brokerIds && now - rows[id].origin.createdAt >= staleAfter
  }

  method CompareShared(broker: map<string, BrokerOrder>, db: map<string, nat>, rows: seq<Trade>)
    returns (matched: seq<string>, mismatch: seq<string>, partial: seq<string>)
    requires forall s :: s in db ==> db[s] < |rows|
    ensures Lists(matched, Matched, broker, db, rows, broker.Keys * db.Keys)
    ensures Lists(mismatch, QuantityMismatch, broker, db, rows, broker.Keys * db.Keys)
    ensures Lists(partial, PartialFill, broker, db, rows, broker.Keys * db.Keys)
  {
    matched, mismatch, partial := [], [], [];
    var ids := Sorted(broker.Keys * db.Keys);
    ghost var seen := {};
    for k := 0 to |ids|
      invariant seen <= broker.Keys * db.Keys && forall s :: s in seen <==> s in ids[..k]
      invariant Lists(matched, Matched, broker, db, rows, seen)
      invariant Lists(mismatch, QuantityMismatch, broker, db, rows, seen)
      invariant Lists(partial, PartialFill, broker, db, rows, seen)
    {
      var s := ids[k];
      assert s in ids;
      AppendNext(matched, ids, k);
      AppendNext(mismatch, ids, k);
      AppendNext(partial, ids, k);
      assert ids[..k + 1] == ids[..k] + [s];
      seen := seen + {s};
      match Classify(broker[s], rows[db[s]]) {
        case QuantityMismatch => mismatch := mismatch + [s];
        case PartialFill => partial := partial + [s];
        case Matched => matched := matched + [s];
      }
    }
    assert ids[..|ids|] == ids && seen == broker.Keys * db.Keys;
  }

  /** Every order id that both sides know is in exactly one of three lists, once; all five lists come
      in the order of the ids. */
  method BuildReport(orders: seq<BrokerOrder>, rows: seq<Trade>, ids: seq<nat>, now: int, staleAfter: int)
    returns (f: Findings)
    requires InRange(ids, |rows|)
    ensures var broker, db := BrokerById(orders), RecordById(rows, ids);
            && Lists(f.matched, Matched, broker, db, rows, broker.Keys * db.Keys)
            && Lists(f.quantityMismatch, QuantityMismatch, broker, db, rows, broker.Keys * db.Keys)
            && Lists(f.partialFill, PartialFill, broker, db, rows, broker.Keys * db.Keys)
            && Ascending(f.brokerOnly) && (forall s :: s in f.brokerOnly <==> s in broker && s !in db)
            && InRange(f.dbOnlyStale, |rows|) && Ascending(OrderIdsOf(rows, f.dbOnlyStale))
            && (forall id: nat :: id in f.dbOnlyStale
                  <==> id < |rows| && DbOnlyStale(id, rows, db, broker.Keys, now, staleAfter))
  {
    var broker := IndexOrders(orders);
    var db := IndexRecords(rows, ids);
    var matched, mismatch, partial := CompareShared(broker, db, rows);
    var brokerOnly := Sorted(broker.Keys - db.Keys);
    var stale := StaleRecords(rows, db, broker.Keys, now, staleAfter);
    f := Findings(matched, brokerOnly, stale, mismatch, partial);
  }

  function OrderIdsOf(rows: seq<Trade>, list: seq<nat>): seq<string>
    requires InRange(list, |rows|)
  {
    seq(|list|, i requires 0 <= i < |list| => OrderIdOf(rows[list[i]]))
  }

  method StaleRecords(rows: seq<Trade>, db: map<string, nat>, brokerIds: set<string>, now: int, staleAfter: int)
    returns (list: seq<nat>)
    requires forall s :: s in db ==> db[s] < |rows| && OrderIdOf(rows[db[s]]) == s
    ensures InRange(list, |rows|) && Ascending(OrderIdsOf(rows, list))
    ensures forall id: nat :: id in list <==> id < |rows| && DbOnlyStale(id, rows, db, brokerIds, now, staleAfter)
  {
    list := [];
    var ids := Sorted(db.Keys);
    for k := 0 to |ids|
      invariant InRange(list, |rows|) && Ascending(OrderIdsOf(rows, list))
      invariant forall id: nat :: id in list <==>
                  id < |rows| && DbOnlyStale(id, rows, db, brokerIds, now, staleAfter)
                    && OrderIdOf(rows[id]) in ids[..k]
    {
      var s := ids[k];
      assert s in ids;
      assert ids[..k + 1] == ids[..k] + [s];
      if s !in brokerIds && Stale(rows[db[s]], now, staleAfter) {
        ListedBefore(rows, list, ids, k);
        AppendNext(OrderIdsOf(rows, list), ids, k);
        assert OrderIdsOf(rows, list + [db[s]]) == OrderIdsOf(rows, list) + [s];
        list := list + [db[s]];
      }
    }
    assert ids[..|ids|] == ids;
  }

  lemma ListedBefore(rows: seq<Trade>, list: seq<nat>, ids: seq<string>, k: nat)
    requires k <= |ids| && InRange(list, |rows|)
    requires forall id: nat :: id in list ==> id < |rows| && OrderIdOf(rows[id]) in ids[..k]
    ensures forall s :: s in OrderIdsOf(rows, list) ==> s in ids[..k]
  {
    forall s | s in OrderIdsOf(rows, list) ensures s in ids[..k] {
      var i :| 0 <= i < |list| && OrderIdOf(rows[list[i]]) == s;
      assert list[i] in list;
    }
  }

  lemma {:induction false} CountOnce(list: seq<string>)
    requires Distinct(list)
    ensures |set s | s in list| == |list|
  {
    if list == [] {
    } else {
      var n := |list| - 1;
      CountOnce(list[..n]);
      assert list == list[..n] + [list[n]];
      assert (set s | s in list) == (set s | s in list[..n]) + {list[n]};
    }
  }

  lemma {:induction false} CountOfSet(list: seq<string>, ids: set<string>)
    requires Ascending(list) && forall s :: s in list <==> s in ids
    ensures |list| == |ids|
  {
    AscendingOnce(list);
    CountOnce(list);
    assert (set s | s in list) == ids;
  }

  ghost function Classified(c: Finding, broker: map<string, BrokerOrder>, db: map<string, nat>,
                            rows: seq<Trade>): set<string>
    requires forall s :: s in db ==> db[s] < |rows|
  {
    set s | s in broker.Keys * db.Keys && Meets(c, broker[s], rows[db[s]])
  }

  lemma {:induction false} CountOfList(list: seq<string>, c: Finding, broker: map<string, BrokerOrder>,
                                       db: map<string, nat>, rows: seq<Trade>)
    requires forall s :: s in db ==> db[s] < |rows|
    requires Lists(list, c, broker, db, rows, broker.Keys * db.Keys)
    ensures |list| == |Classified(c, broker, db, rows)|
  {
    CountOfSet(list, Classified(c, broker, db, rows));
  }

  lemma {:induction false} AllClassified(broker: map<string, BrokerOrder>, db: map<string, nat>, rows: seq<Trade>)
    requires forall s :: s in db ==> db[s] < |rows|
    ensures |Classified(Matched, broker, db, rows)| + |Classified(QuantityMismatch, broker, db, rows)|
            + |Classified(PartialFill, broker, db, rows)| == |broker.Keys * db.Keys|
  {
    var a, b := Classified(Matched, broker, db, rows), Classified(QuantityMismatch, broker, db, rows);
    var c, all := Classified(PartialFill, broker, db, rows), broker.Keys * db.Keys;
    forall s | s in all ensures s in a + b + c {
      match Classify(broker[s], rows[db[s]]) case Matched => case QuantityMismatch => case PartialFill =>
    }
    assert a + b + c == all;
    ThreeParts(a, b, c, all);
  }

  lemma {:induction false} ThreeParts(a: set<string>, b: set<string>, c: set<string>, all: set<string>)
    requires a !! b && a !! c && b !! c && a + b + c == all
    ensures |a| + |b| + |c| == |all|
  {
  }

  /** The counts of the three lists add up to the ids known to both sides. */
  lemma {:induction false} CountsAddUp(matched: seq<string>, mismatch: seq<string>, partial: seq<string>,
                                       broker: map<string, BrokerOrder>, db: map<string, nat>, rows: seq<Trade>)
    requires forall s :: s in db ==> db[s] < |rows|
    requires Lists(matched, Matched, broker, db, rows, broker.Keys * db.Keys)
    requires Lists(mismatch, QuantityMismatch, broker, db, rows, broker.Keys * db.Keys)
    requires Lists(partial, PartialFill, broker, db, rows, broker.Keys * db.Keys)
    ensures |matched| + |mismatch| + |partial| == |broker.Keys * db.Keys|
  {
    CountOfList(matched, Matched, broker, db, rows);
    CountOfList(mismatch, QuantityMismatch, broker, db, rows);
    CountOfList(partial, PartialFill, broker, db, rows);
    AllClassified(broker, db, rows);
  }

  // ----- The cleanup

  /** What the cleanup turns into CONFIRM_FAILED. */
  ghost predicate Flips(id: nat, rows: seq<Trade>, ids: seq<nat>, orders: seq<BrokerOrder>, now: int, staleAfter: int)
    requires id < |rows| && InRange(ids, |rows|)
  {
    && id in ids
    && DbOnlyStale(id, rows, RecordById(rows, ids), BrokerById(orders).Keys, now, staleAfter)
    && rows[id].origin.side == Buy
    && rows[id].status == PendingConfirm
  }

  ghost function Cleaned(rows: seq<Trade>, ids: seq<nat>, orders: seq<BrokerOrder>, dryRun: bool, now: int,
                         staleAfter: int): seq<Trade>
    requires InRange(ids, |rows|)
  {
    if dryRun then rows
    else seq(|rows|, i requires 0 <= i < |rows| =>
               if Flips(i, rows, ids, orders, now, staleAfter) then rows[i].(status := ConfirmFailed) else rows[i])
  }

  /** The ids that the table files under their own, distinct order ids. */
  predicate UniqueOrderIds(rows: seq<Trade>) {
    forall i, j :: 0 <= i < j < |rows| && rows[i].origin.orderId.Some?
             ==> rows[i].origin.orderId != rows[j].origin.orderId
  }

  lemma {:induction false} FiledUnderItsId(rows: seq<Trade>, ids: seq<nat>, id: nat)
    requires InRange(ids, |rows|) && UniqueOrderIds(rows) && id in ids && OrderIdOf(rows[id]) != ""
    ensures var db := RecordById(rows, ids); OrderIdOf(rows[id]) in db && db[OrderIdOf(rows[id])] == id
  {
    var last := ids[|ids| - 1];
    if last != id {
      FiledUnderItsId(rows, ids[..|ids| - 1], id);
    }
  }

  /** On a table with unique order ids the cleanup flips exactly the stale, broker-absent, still
      pending BUY records that have an order id. */
  lemma CleanupFlipsExactly(rows: seq<Trade>, ids: seq<nat>, orders: seq<BrokerOrder>, now: int, staleAfter: int,
                            id: nat)
    requires InRange(ids, |rows|) && UniqueOrderIds(rows) && id < |rows|
    ensures Flips(id, rows, ids, orders, now, staleAfter) <==>
            && id in ids && OrderIdOf(rows[id]) != ""
            && (forall i :: 0 <= i < |orders| ==> orders[i].orderId != OrderIdOf(rows[id]))
            && now - rows[id].origin.createdAt >= staleAfter
            && rows[id].origin.side == Buy && rows[id].status == PendingConfirm
  {
    BrokerKnows(orders, OrderIdOf(rows[id]));
    if id in ids && OrderIdOf(rows[id]) != "" {
      FiledUnderItsId(rows, ids, id);
    }
  }

  /** Run again on the same input, at the same time, the cleanup updates nothing. */
  lemma CleanupTwice(rows: seq<Trade>, ids: seq<nat>, orders: seq<BrokerOrder>, now: int, staleAfter: int)
    requires InRange(ids, |rows|)
    ensures var once := Cleaned(rows, ids, orders, false, now, staleAfter);
            InRange(ids, |once|) && Cleaned(once, ids, orders, false, now, staleAfter) == once
  {
    var once := Cleaned(rows, ids, orders, false, now, staleAfter);
    SameFiling(rows, once, ids);
    forall i | 0 <= i < |rows| ensures !Flips(i, once, ids, orders, now, staleAfter) {
      assert Flips(i, once, ids, orders, now, staleAfter) ==> Flips(i, rows, ids, orders, now, staleAfter);
    }
  }

  lemma {:induction false} SameFiling(rows: seq<Trade>, rows': seq<Trade>, ids: seq<nat>)
    requires |rows| == |rows'| && InRange(ids, |rows|)
    requires forall i :: 0 <= i < |rows| ==> rows'[i].origin == rows[i].origin
    ensures RecordById(rows, ids) == RecordById(rows', ids)
  {
    if ids == [] {
    } else {
      SameFiling(rows, rows', ids[..|ids| - 1]);
    }
  }
}
