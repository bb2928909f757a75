/** Sell fills on the whole table: what the next query sees, composition, conservation. */
module LedgerLaws {
  import opened Common
  import opened TradeRecords
  import opened SellFill
  import opened SellFillLaws
  import opened TradeLedger

  // ----- The query

  lemma {:induction false} KeepMembers(ids: seq<nat>, rows: seq<Trade>, t: Trade, after: bool, i: nat)
    requires InRange(ids, |rows|) && i < |rows|
    ensures i in Keep(ids, rows, t, after) <==> i in ids && NotAfter(rows[i], t) == !after
  {
    if ids == [] {
    } else {
      KeepMembers(ids[1..], rows, t, after, i);
    }
  }

  lemma {:induction false} KeepDistinct(ids: seq<nat>, rows: seq<Trade>, t: Trade, after: bool)
    requires InRange(ids, |rows|) && Distinct(ids)
    ensures Distinct(Keep(ids, rows, t, after))
  {
    if ids == [] {
    } else {
      KeepDistinct(ids[1..], rows, t, after);
      KeepMembers(ids[1..], rows, t, after, ids[0]);
    }
  }

  lemma {:induction false} DistinctAround(before: seq<nat>, id: nat, after: seq<nat>)
    requires Distinct(before) && Distinct(after) && id !in before && id !in after
    requires forall k, l :: 0 <= k < |before| && 0 <= l < |after| ==> before[k] != after[l]
    ensures Distinct(before + [id] + after)
  {
  }

  lemma {:induction false} OpenIdsOnce(rows: seq<Trade>, n: nat, symbol: string)
    requires n <= |rows|
    ensures Distinct(OpenIds(rows, n, symbol))
  {
    if n == 0 {
    } else {
      OpenIdsOnce(rows, n - 1, symbol);
      var ids := OpenIds(rows, n - 1, symbol);
      KeepDistinct(ids, rows, rows[n - 1], false);
      KeepDistinct(ids, rows, rows[n - 1], true);
      KeepApart(ids, rows, rows[n - 1]);
      KeepMembers(ids, rows, rows[n - 1], false, n - 1);
      KeepMembers(ids, rows, rows[n - 1], true, n - 1);
      DistinctAround(Keep(ids, rows, rows[n - 1], false), n - 1, Keep(ids, rows, rows[n - 1], true));
    }
  }

  /** The query finds exactly the confirmed BUY rows of the symbol that have no exit, each once. */
  lemma {:induction false} OpenIdsMembers(rows: seq<Trade>, n: nat, symbol: string)
    requires n <= |rows|
    ensures Distinct(OpenIds(rows, n, symbol))
    ensures forall i: nat :: i in OpenIds(rows, n, symbol) <==>
              i < n && rows[i].origin.symbol == symbol && rows[i].origin.side == Buy && rows[i].status == Confirmed
              && rows[i].exit.at == None
  {
    OpenIdsOnce(rows, n, symbol);
    if n == 0 {
    } else {
      OpenIdsMembers(rows, n - 1, symbol);
      var ids := OpenIds(rows, n - 1, symbol);
      forall i: nat | i < |rows|
        ensures i in ids <==> i in Keep(ids, rows, rows[n - 1], false) + Keep(ids, rows, rows[n - 1], true)
      {
        KeepMembers(ids, rows, rows[n - 1], false, i);
        KeepMembers(ids, rows, rows[n - 1], true, i);
      }
    }
  }

  lemma KeepApart(ids: seq<nat>, rows: seq<Trade>, t: Trade)
    requires InRange(ids, |rows|)
    ensures forall k, l :: 0 <= k < |Keep(ids, rows, t, false)| && 0 <= l < |Keep(ids, rows, t, true)|
                       ==> Keep(ids, rows, t, false)[k] != Keep(ids, rows, t, true)[l]
  {
    forall k, l | 0 <= k < |Keep(ids, rows, t, false)| && 0 <= l < |Keep(ids, rows, t, true)|
      ensures Keep(ids, rows, t, false)[k] != Keep(ids, rows, t, true)[l]
    {
      KeepMembers(ids, rows, t, false, Keep(ids, rows, t, false)[k]);
      KeepMembers(ids, rows, t, true, Keep(ids, rows, t, false)[k]);
    }
  }

  /** Row `i` comes before row `j` in the query: a missing entry time first, then the earlier one, then
      the smaller id. */
  predicate InOrder(rows: seq<Trade>, i: nat, j: nat)
    requires i < |rows| && j < |rows|
  {
    match (rows[i].entryAt, rows[j].entryAt)
    case (None, None) => i < j
    case (None, Some(_)) => true
    case (Some(_), None) => false
    case (Some(a), Some(b)) => a < b || (a == b && i < j)
  }

  predicate Ordered(ids: seq<nat>, rows: seq<Trade>)
    requires InRange(ids, |rows|)
  {
    forall k, l :: 0 <= k < l < |ids| ==> InOrder(rows, ids[k], ids[l])
  }

  lemma {:induction false} KeepOrdered(ids: seq<nat>, rows: seq<Trade>, t: Trade, after: bool)
    requires InRange(ids, |rows|) && Ordered(ids, rows)
    ensures Ordered(Keep(ids, rows, t, after), rows)
  {
    if ids == [] {
    } else {
      KeepOrdered(ids[1..], rows, t, after);
      var rest := Keep(ids[1..], rows, t, after);
      forall k | 0 <= k < |rest| ensures InOrder(rows, ids[0], rest[k]) {
        KeepMembers(ids[1..], rows, t, after, rest[k]);
        var l :| 0 <= l < |ids[1..]| && ids[1..][l] == rest[k];
        assert InOrder(rows, ids[0], ids[l + 1]);
      }
    }
  }

  /** The query with one more row, in its place. */
  function Inserted(ids: seq<nat>, rows: seq<Trade>, id: nat): (r: seq<nat>)
    requires InRange(ids, |rows|) && id < |rows|
    ensures InRange(r, |rows|)
  {
    Keep(ids, rows, rows[id], false) + [id] + Keep(ids, rows, rows[id], true)
  }

  /** The query `ids` with row `id` looked at next. */
  function Grown(ids: seq<nat>, rows: seq<Trade>, id: nat, symbol: string): (r: seq<nat>)
    requires InRange(ids, |rows|) && id < |rows|
    ensures InRange(r, |rows|)
  {
    if OpenBuy(rows[id], symbol) then Inserted(ids, rows, id) else ids
  }

  lemma {:induction false} OneMoreRow(rows: seq<Trade>, n: nat, symbol: string)
    requires 0 < n <= |rows|
    ensures OpenIds(rows, n, symbol) == Grown(OpenIds(rows, n - 1, symbol), rows, n - 1, symbol)
  {
  }

  /** The query hands the lots out first in, first out. */
  lemma {:induction false} OpenIdsOrdered(rows: seq<Trade>, n: nat, symbol: string)
    requires n <= |rows|
    ensures Ordered(OpenIds(rows, n, symbol), rows)
  {
    if n == 0 {
    } else {
      OpenIdsOrdered(rows, n - 1, symbol);
      OneMoreRow(rows, n, symbol);
      if OpenBuy(rows[n - 1], symbol) {
        InsertOrdered(OpenIds(rows, n - 1, symbol), rows, n - 1);
      }
    }
  }

  lemma InsertOrdered(ids: seq<nat>, rows: seq<Trade>, id: nat)
    requires id < |rows| && InRange(ids, id) && Ordered(ids, rows)
    ensures Ordered(Inserted(ids, rows, id), rows)
  {
    var before, after := Keep(ids, rows, rows[id], false), Keep(ids, rows, rows[id], true);
    KeepOrdered(ids, rows, rows[id], false);
    KeepOrdered(ids, rows, rows[id], true);
    forall k | 0 <= k < |before| ensures InOrder(rows, before[k], id) {
      KeepMembers(ids, rows, rows[id], false, before[k]);
    }
    forall k | 0 <= k < |after| ensures InOrder(rows, id, after[k]) {
      KeepMembers(ids, rows, rows[id], true, after[k]);
    }
    forall k, l | 0 <= k < |before| && 0 <= l < |after| ensures InOrder(rows, before[k], after[l]) {
      assert InOrder(rows, before[k], id) && InOrder(rows, id, after[l]);
    }
  }

  // ----- Writing the lots back

  lemma {:induction false} WriteAt(rows: seq<Trade>, ids: seq<nat>, lots: seq<Trade>, k: nat)
    requires |ids| == |lots| && InRange(ids, |rows|) && Distinct(ids) && k < |ids|
    ensures Write(rows, ids, lots)[ids[k]] == lots[k]
    decreases k
  {
    if k == 0 {
      WriteElsewhere(rows[ids[0] := lots[0]], ids[1..], lots[1..], ids[0]);
    } else {
      WriteAt(rows[ids[0] := lots[0]], ids[1..], lots[1..], k - 1);
    }
  }

  lemma {:induction false} WriteElsewhere(rows: seq<Trade>, ids: seq<nat>, lots: seq<Trade>, i: nat)
    requires |ids| == |lots| && InRange(ids, |rows|) && i < |rows| && i !in ids
    ensures Write(rows, ids, lots)[i] == rows[i]
    decreases |ids|
  {
    if ids == [] {
    } else {
      WriteElsewhere(rows[ids[0] := lots[0]], ids[1..], lots[1..], i);
    }
  }

  /** A sale changes nothing of a lot but its quantity and its exit. */
  predicate SameLot(t: Trade, t': Trade) {
    t'.origin == t.origin && t'.status == t.status && t'.entryPrice == t.entryPrice && t'.entryAt == t.entryAt
  }

  lemma {:induction false} FillKeepsLots(lots: seq<Trade>, qty: int, sale: Sale)
    ensures var o := Fill(lots, qty, sale);
            && (forall k :: 0 <= k < |lots| ==> SameLot(lots[k], o.lots[k]))
            && (forall k :: 0 <= k < |o.clones| ==> !o.clones[k].Open() && o.clones[k].origin.orderId == None)
  {
    if lots == [] || qty <= 0 {
    } else {
      var turn := Turn(lots[0], qty, sale);
      FillKeepsLots(lots[1..], turn.unfilled, sale);
    }
  }

  lemma SellIntoRows(rows: seq<Trade>, sale: Sale, qty: int)
    ensures var rows' := SellInto(rows, sale, qty);
            var ids := OpenIds(rows, |rows|, sale.symbol);
            var o := Fill(At(rows, ids), Max(qty, 0), sale);
            && |rows| <= |rows'|
            && Distinct(ids)
            && (forall k :: 0 <= k < |ids| ==> rows'[ids[k]] == o.lots[k])
            && (forall i: nat :: i < |rows| && i !in ids ==> rows'[i] == rows[i])
            && (forall i: nat :: i < |rows| ==> SameLot(rows[i], rows'[i]))
            && (forall i :: |rows| <= i < |rows'| ==> !rows'[i].Open() && rows'[i].origin.orderId == None)
  {
    var ids := OpenIds(rows, |rows|, sale.symbol);
    var lots := At(rows, ids);
    var o := Fill(lots, Max(qty, 0), sale);
    var rows' := SellInto(rows, sale, qty);
    OpenIdsMembers(rows, |rows|, sale.symbol);
    FillKeepsLots(lots, Max(qty, 0), sale);
    forall k | 0 <= k < |ids| ensures rows'[ids[k]] == o.lots[k] { WriteAt(rows, ids, o.lots, k); }
    forall i: nat | i < |rows| && i !in ids ensures rows'[i] == rows[i] { WriteElsewhere(rows, ids, o.lots, i); }
    forall i: nat | i < |rows| ensures SameLot(rows[i], rows'[i]) {
      if i in ids {
        var k :| 0 <= k < |ids| && ids[k] == i;
        assert SameLot(lots[k], o.lots[k]);
      }
    }
  }

  // ----- What the next query sees

  /** The ids whose row is still open. */
  function Open(ids: seq<nat>, rows: seq<Trade>): (r: seq<nat>)
    requires InRange(ids, |rows|)
    ensures InRange(r, |rows|)
  {
    if ids == [] then [] else (if rows[ids[0]].Open() then [ids[0]] else []) + Open(ids[1..], rows)
  }

  lemma {:induction false} OpenConcat(a: seq<nat>, b: seq<nat>, rows: seq<Trade>)
    requires InRange(a, |rows|) && InRange(b, |rows|) && InRange(a + b, |rows|)
    ensures Open(a + b, rows) == Open(a, rows) + Open(b, rows)
  {
    if a == [] {
      assert a + b == b;
    } else {
      assert (a + b)[1..] == a[1..] + b;
      OpenConcat(a[1..], b, rows);
      var head := if rows[a[0]].Open() then [a[0]] else [];
      assert head + (Open(a[1..], rows) + Open(b, rows)) == (head + Open(a[1..], rows)) + Open(b, rows);
    }
  }

  lemma {:induction false} KeepOpen(ids: seq<nat>, rows: seq<Trade>, t: Trade, after: bool)
    requires InRange(ids, |rows|)
    ensures Keep(Open(ids, rows), rows, t, after) == Open(Keep(ids, rows, t, after), rows)
  {
    if ids == [] {
    } else {
      var id := ids[0];
      KeepOpen(ids[1..], rows, t, after);
      KeepCons(id, Open(ids[1..], rows), rows, t, after);
      OpenCons(id, Keep(ids[1..], rows, t, after), rows);
      assert forall s: seq<nat> :: [] + s == s;
    }
  }

  lemma KeepCons(id: nat, ids: seq<nat>, rows: seq<Trade>, t: Trade, after: bool)
    requires id < |rows| && InRange(ids, |rows|) && InRange([id] + ids, |rows|)
    ensures Keep([id] + ids, rows, t, after)
         == (if NotAfter(rows[id], t) == !after then [id] else []) + Keep(ids, rows, t, after)
  {
    assert ([id] + ids)[1..] == ids;
  }

  lemma OpenCons(id: nat, ids: seq<nat>, rows: seq<Trade>)
    requires id < |rows| && InRange(ids, |rows|) && InRange([id] + ids, |rows|)
    ensures Open([id] + ids, rows) == (if rows[id].Open() then [id] else []) + Open(ids, rows)
  {
    assert ([id] + ids)[1..] == ids;
  }

  /** Two tables agree on what decides the order of the rows they share. */
  predicate SameEntries(rows: seq<Trade>, rows': seq<Trade>) {
    |rows| <= |rows'| && forall i :: 0 <= i < |rows| ==> rows'[i].entryAt == rows[i].entryAt
  }

  lemma {:induction false} KeepSame(ids: seq<nat>, rows: seq<Trade>, rows': seq<Trade>, t: Trade, t': Trade,
                                    after: bool)
    requires InRange(ids, |rows|) && SameEntries(rows, rows') && t.entryAt == t'.entryAt
    ensures InRange(ids, |rows'|) && Keep(ids, rows', t', after) == Keep(ids, rows, t, after)
  {
    if ids == [] {
    } else {
      KeepSame(ids[1..], rows, rows', t, t', after);
      assert rows'[ids[0]].entryAt == rows[ids[0]].entryAt;
    }
  }

  lemma {:induction false} KeepAll(ids: seq<nat>, rows: seq<Trade>, t: Trade)
    requires InRange(ids, |rows|) && Ordered(ids, rows)
    ensures Keep(ids, rows, t, false) + Keep(ids, rows, t, true) == ids
  {
    if ids == [] {
    } else {
      assert forall k :: 0 < k < |ids| ==> InOrder(rows, ids[0], ids[k]);
      KeepAll(ids[1..], rows, t);
      if !NotAfter(rows[ids[0]], t) {
        NoneKept(ids[1..], rows, t);
      }
    }
  }

  lemma {:induction false} NoneKept(ids: seq<nat>, rows: seq<Trade>, t: Trade)
    requires InRange(ids, |rows|) && forall k :: 0 <= k < |ids| ==> !NotAfter(rows[ids[k]], t)
    ensures Keep(ids, rows, t, false) == []
  {
    if ids == [] {
    } else {
      NoneKept(ids[1..], rows, t);
    }
  }

  /** Inserting a row into the query and dropping closed rows can be done in either order. */
  lemma {:induction false} InsertThenDrop(ids: seq<nat>, rows: seq<Trade>, id: nat)
    requires InRange(ids, |rows|) && id < |rows| && Ordered(ids, rows)
    ensures var open := Open(ids, rows);
            Open(Inserted(ids, rows, id), rows) == if rows[id].Open() then Inserted(open, rows, id) else open
  {
    var t := rows[id];
    var before, after := Keep(ids, rows, t, false), Keep(ids, rows, t, true);
    OpenConcat(before + [id], after, rows);
    OpenConcat(before, [id], rows);
    OpenCons(id, [], rows);
    assert [id] + [] == [id];
    KeepOpen(ids, rows, t, false);
    KeepOpen(ids, rows, t, true);
    if !t.Open() {
      KeepAll(ids, rows, t);
      OpenConcat(before, after, rows);
      assert Open(before, rows) + [] == Open(before, rows);
    }
  }

  /** Every row of `rows'` that was open and confirmed in `rows` still is the same lot. */
  predicate LotsKept(rows: seq<Trade>, rows': seq<Trade>) {
    && |rows| <= |rows'|
    && (forall i :: 0 <= i < |rows| ==> SameLot(rows[i], rows'[i]) && (!rows[i].Open() ==> !rows'[i].Open()))
  }

  lemma {:induction false} OrderedSame(ids: seq<nat>, rows: seq<Trade>, rows': seq<Trade>)
    requires InRange(ids, |rows|) && SameEntries(rows, rows') && Ordered(ids, rows)
    ensures InRange(ids, |rows'|) && Ordered(ids, rows')
  {
    forall k, l | 0 <= k < l < |ids| ensures InOrder(rows', ids[k], ids[l]) {
      assert InOrder(rows, ids[k], ids[l]);
    }
  }

  /** Closing some lots leaves the others in the same order. */
  lemma {:induction false} OpenIdsAfter(rows: seq<Trade>, rows': seq<Trade>, n: nat, symbol: string)
    requires n <= |rows| && LotsKept(rows, rows')
    ensures InRange(OpenIds(rows, n, symbol), |rows'|)
    ensures OpenIds(rows', n, symbol) == Open(OpenIds(rows, n, symbol), rows')
  {
    if n == 0 {
    } else {
      OpenIdsAfter(rows, rows', n - 1, symbol);
      OneMoreRow(rows, n, symbol);
      OneMoreRow(rows', n, symbol);
      OpenIdsOrdered(rows, n - 1, symbol);
      QueryGrows(OpenIds(rows, n - 1, symbol), OpenIds(rows', n - 1, symbol), rows, rows', n - 1, symbol);
    }
  }

  lemma {:induction false} QueryGrows(ids: seq<nat>, open: seq<nat>, rows: seq<Trade>, rows': seq<Trade>, id: nat,
                                      symbol: string)
    requires LotsKept(rows, rows') && InRange(ids, |rows|) && Ordered(ids, rows) && id < |rows|
    requires InRange(ids, |rows'|) && open == Open(ids, rows')
    ensures InRange(Grown(ids, rows, id, symbol), |rows'|)
    ensures Grown(open, rows', id, symbol) == Open(Grown(ids, rows, id, symbol), rows')
  {
    assert SameLot(rows[id], rows'[id]);
    LotKeepsPlace(ids, rows, rows', id);
  }

  /** The place of one more lot among the lots that are still open. */
  lemma LotKeepsPlace(ids: seq<nat>, rows: seq<Trade>, rows': seq<Trade>, id: nat)
    requires LotsKept(rows, rows') && InRange(ids, |rows|) && Ordered(ids, rows) && id < |rows|
    ensures InRange(ids, |rows'|)
    ensures InRange(Inserted(ids, rows, id), |rows'|)
    ensures var open := Open(ids, rows');
            Open(Inserted(ids, rows, id), rows') == if rows'[id].Open() then Inserted(open, rows', id) else open
  {
    OrderedSame(ids, rows, rows');
    KeepSame(ids, rows, rows', rows[id], rows'[id], false);
    KeepSame(ids, rows, rows', rows[id], rows'[id], true);
    InsertThenDrop(ids, rows', id);
  }

  lemma {:induction false} ClosedRowsUnseen(rows: seq<Trade>, n: nat, m: nat, symbol: string)
    requires n <= m <= |rows| && forall i :: n <= i < m ==> !rows[i].Open()
    ensures OpenIds(rows, m, symbol) == OpenIds(rows, n, symbol)
    decreases m
  {
    if m == n {
    } else {
      ClosedRowsUnseen(rows, n, m - 1, symbol);
    }
  }

  lemma {:induction false} OpenOfLots(ids: seq<nat>, rows: seq<Trade>, lots: seq<Trade>)
    requires InRange(ids, |rows|) && |ids| == |lots| && forall k :: 0 <= k < |ids| ==> rows[ids[k]] == lots[k]
    ensures At(rows, Open(ids, rows)) == StillOpen(lots)
  {
    if ids == [] {
    } else {
      OpenOfLots(ids[1..], rows, lots[1..]);
      assert At(rows, [ids[0]]) == [lots[0]];
      var rest := Open(ids[1..], rows);
      assert At(rows, [ids[0]] + rest) == [lots[0]] + At(rows, rest);
    }
  }

  lemma SaleKeepsLots(rows: seq<Trade>, sale: Sale, qty: int)
    ensures LotsKept(rows, SellInto(rows, sale, qty))
  {
    SellIntoRows(rows, sale, qty);
    var ids := OpenIds(rows, |rows|, sale.symbol);
    forall i: nat | i < |rows| && !rows[i].Open() ensures !SellInto(rows, sale, qty)[i].Open() {
      OpenIdsMembers(rows, |rows|, sale.symbol);
    }
  }

  /** The query after a sale finds what the matching left open, in the same order. */
  lemma RereadAfterSale(rows: seq<Trade>, sale: Sale, qty: int)
    ensures OpenLots(SellInto(rows, sale, qty), sale.symbol)
         == StillOpen(Fill(OpenLots(rows, sale.symbol), Max(qty, 0), sale).lots)
  {
    var rows' := SellInto(rows, sale, qty);
    var ids := OpenIds(rows, |rows|, sale.symbol);
    SellIntoRows(rows, sale, qty);
    SaleKeepsLots(rows, sale, qty);
    OpenIdsAfter(rows, rows', |rows|, sale.symbol);
    ClosedRowsUnseen(rows', |rows|, |rows'|, sale.symbol);
    OpenOfLots(ids, rows', Fill(At(rows, ids), Max(qty, 0), sale).lots);
  }

  lemma QueriedLotsOpen(rows: seq<Trade>, symbol: string)
    ensures AllOpen(OpenLots(rows, symbol))
  {
    OpenIdsMembers(rows, |rows|, symbol);
    var ids := OpenIds(rows, |rows|, symbol);
    forall k | 0 <= k < |ids| ensures OpenLots(rows, symbol)[k].Open() {
      assert ids[k] in ids;
    }
  }

  /** Rows that keep their entry times, and stay open lots or not, are queried alike. */
  lemma {:induction false} QueriedAlike(rows: seq<Trade>, rows': seq<Trade>, n: nat, symbol: string)
    requires n <= |rows| && SameEntries(rows, rows')
    requires forall i :: 0 <= i < n ==> (OpenBuy(rows[i], symbol) <==> OpenBuy(rows'[i], symbol))
    ensures OpenIds(rows', n, symbol) == OpenIds(rows, n, symbol)
  {
    if n == 0 {
    } else {
      QueriedAlike(rows, rows', n - 1, symbol);
      KeepSame(OpenIds(rows, n - 1, symbol), rows, rows', rows[n - 1], rows'[n - 1], false);
      KeepSame(OpenIds(rows, n - 1, symbol), rows, rows', rows[n - 1], rows'[n - 1], true);
    }
  }

  /** Writing a SELL row does not touch any open lot. */
  lemma SellRowUnseen(rows: seq<Trade>, id: nat, t: Trade, symbol: string)
    requires id < |rows| && rows[id].origin.side == Sell && t.origin == rows[id].origin && t.entryAt == rows[id].entryAt
    ensures OpenLots(rows[id := t], symbol) == OpenLots(rows, symbol)
  {
    QueriedAlike(rows, rows[id := t], |rows|, symbol);
    OpenIdsMembers(rows, |rows|, symbol);
    var ids := OpenIds(rows, |rows|, symbol);
    forall k | 0 <= k < |ids| ensures rows[id := t][ids[k]] == rows[ids[k]] {
      assert ids[k] in ids;
    }
  }

  /** On the table: two sale transactions at one price leave the lots that one for the sum leaves. */
  lemma SalesCompose(rows: seq<Trade>, q1: int, q2: int, s1: Sale, s2: Sale, s: Sale)
    requires q1 >= 0 && q2 >= 0 && s1.price == s2.price == s.price && s1.symbol == s2.symbol == s.symbol
    ensures OpenLots(SellInto(SellInto(rows, s1, q1), s2, q2), s.symbol)
              == OpenLots(SellInto(rows, s, q1 + q2), s.symbol)
  {
    QueriedLotsOpen(rows, s.symbol);
    RereadAfterSale(rows, s1, q1);
    RereadAfterSale(SellInto(rows, s1, q1), s2, q2);
    RereadAfterSale(rows, s, q1 + q2);
    FillsCompose(OpenLots(rows, s.symbol), q1, q2, s1, s2, s);
  }

  /** A sale leaves the lots of every other symbol alone. */
  lemma OtherSymbolsUntouched(rows: seq<Trade>, sale: Sale, qty: int, symbol: string)
    requires symbol != sale.symbol
    ensures OpenLots(SellInto(rows, sale, qty), symbol) == OpenLots(rows, symbol)
  {
    var rows' := SellInto(rows, sale, qty);
    var ids := OpenIds(rows, |rows|, symbol);
    SellIntoRows(rows, sale, qty);
    SaleKeepsLots(rows, sale, qty);
    OpenIdsAfter(rows, rows', |rows|, symbol);
    ClosedRowsUnseen(rows', |rows|, |rows'|, symbol);
    OpenIdsMembers(rows, |rows|, symbol);
    OpenIdsMembers(rows, |rows|, sale.symbol);
    forall k | 0 <= k < |ids| ensures rows'[ids[k]] == OpenLots(rows, symbol)[k] {
      assert ids[k] in ids;
    }
    OpenOfLots(ids, rows', OpenLots(rows, symbol));
    QueriedLotsOpen(rows, symbol);
    StillOpenOfOpen(OpenLots(rows, symbol));
  }

  // ----- Conservation

  /** Quantity bought of a symbol: every confirmed BUY record, open or closed. */
  function Bought(rows: seq<Trade>, symbol: string): int {
    if rows == [] then 0
    else Bought(rows[..|rows| - 1], symbol) + BoughtBy(rows[|rows| - 1], symbol)
  }

  function BoughtBy(t: Trade, symbol: string): int {
    if t.origin.symbol == symbol && t.origin.side == Buy && t.status == Confirmed then t.quantity else 0
  }

  lemma {:induction false} BoughtConcat(a: seq<Trade>, b: seq<Trade>, symbol: string)
    ensures Bought(a + b, symbol) == Bought(a, symbol) + Bought(b, symbol)
  {
    if b == [] {
      assert a + b == a;
    } else {
      BoughtConcat(a, b[..|b| - 1], symbol);
      assert (a + b)[..|a + b| - 1] == a + b[..|b| - 1];
    }
  }

  lemma {:induction false} BoughtUpdate(rows: seq<Trade>, i: nat, t: Trade, symbol: string)
    requires i < |rows|
    ensures Bought(rows[i := t], symbol) == Bought(rows, symbol) - BoughtBy(rows[i], symbol) + BoughtBy(t, symbol)
  {
    assert rows[i := t] == rows[..i] + ([t] + rows[i + 1..]) && rows == rows[..i] + ([rows[i]] + rows[i + 1..]);
    BoughtConcat(rows[..i], [t] + rows[i + 1..], symbol);
    BoughtConcat(rows[..i], [rows[i]] + rows[i + 1..], symbol);
    BoughtConcat([t], rows[i + 1..], symbol);
    BoughtConcat([rows[i]], rows[i + 1..], symbol);
    assert [t][..0] == [] && [rows[i]][..0] == [];
  }

  lemma {:induction false} BoughtWrite(rows: seq<Trade>, ids: seq<nat>, lots: seq<Trade>, symbol: string)
    requires |ids| == |lots| && InRange(ids, |rows|) && Distinct(ids)
    ensures Bought(Write(rows, ids, lots), symbol)
              == Bought(rows, symbol) - Bought(At(rows, ids), symbol) + Bought(lots, symbol)
    decreases |ids|
  {
    if ids == [] {
    } else {
      var rows1 := rows[ids[0] := lots[0]];
      BoughtWrite(rows1, ids[1..], lots[1..], symbol);
      BoughtUpdate(rows, ids[0], lots[0], symbol);
      assert At(rows1, ids[1..]) == At(rows, ids)[1..];
      BoughtHead(At(rows, ids), symbol);
      BoughtHead(lots, symbol);
    }
  }

  lemma BoughtHead(lots: seq<Trade>, symbol: string)
    requires lots != []
    ensures Bought(lots, symbol) == BoughtBy(lots[0], symbol) + Bought(lots[1..], symbol)
  {
    assert lots == [lots[0]] + lots[1..] && [lots[0]][..0] == [];
    BoughtConcat([lots[0]], lots[1..], symbol);
  }

  /** A fill moves quantity between a lot and its clone, and nowhere else. */
  lemma {:induction false} FillKeepsBought(lots: seq<Trade>, qty: int, sale: Sale, symbol: string)
    requires forall k :: 0 <= k < |lots| ==> OpenBuy(lots[k], sale.symbol)
    ensures var o := Fill(lots, qty, sale);
            Bought(o.lots, symbol) + Bought(o.clones, symbol) == Bought(lots, symbol)
  {
    if lots == [] || qty <= 0 {
    } else {
      var turn := Turn(lots[0], qty, sale);
      var rest := Fill(lots[1..], turn.unfilled, sale);
      FillKeepsBought(lots[1..], turn.unfilled, sale, symbol);
      BoughtHead(lots, symbol);
      BoughtConcat(turn.lots, rest.lots, symbol);
      BoughtConcat(turn.clones, rest.clones, symbol);
      assert turn.lots[..0] == [];
      assert turn.clones != [] ==> turn.clones[..0] == [];
    }
  }

  /** However a sale splits and closes lots, the quantity bought of every symbol stays the same. */
  lemma SaleKeepsBought(rows: seq<Trade>, sale: Sale, qty: int, symbol: string)
    ensures Bought(SellInto(rows, sale, qty), symbol) == Bought(rows, symbol)
  {
    var ids := OpenIds(rows, |rows|, sale.symbol);
    var lots := At(rows, ids);
    var o := Fill(lots, Max(qty, 0), sale);
    OpenIdsMembers(rows, |rows|, sale.symbol);
    forall k | 0 <= k < |lots| ensures OpenBuy(lots[k], sale.symbol) { assert ids[k] in ids; }
    FillKeepsBought(lots, Max(qty, 0), sale, symbol);
    BoughtWrite(rows, ids, o.lots, symbol);
    BoughtConcat(Write(rows, ids, o.lots), o.clones, symbol);
  }
}
