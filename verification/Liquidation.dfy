/** Selling before the close: what may be sold besides the pending sells, which holdings are kept
    overnight, and the two rounds of orders. */
module Liquidation {
  import opened Common
  import opened Symbols

  datatype Holding = Holding(symbol: string, name: string, quantity: int)

  datatype PendingOrder = PendingOrder(side: string, symbol: string, remaining: int)

  const SELL_SIDE := "매도"

  // ----- Quantities

  /** The remaining quantity that a pending order sells of a symbol. */
  function SellsOf(o: PendingOrder, symbol: string): nat {
    if o.side == SELL_SIDE && o.symbol == symbol && symbol != "" then Max(o.remaining, 0) else 0
  }

  function PendingOf(orders: seq<PendingOrder>, symbol: string): nat {
    if orders == [] then 0 else PendingOf(orders[..|orders| - 1], symbol) + SellsOf(orders[|orders| - 1], symbol)
  }

  function QuantityOf(hs: seq<Holding>, symbol: string): int {
    if hs == [] then 0
    else
      var h := hs[|hs| - 1];
      QuantityOf(hs[..|hs| - 1], symbol) + if h.symbol == symbol then Max(h.quantity, 0) else 0
  }

  function AvailableOf(h: Holding, orders: seq<PendingOrder>): int { Max(h.quantity - PendingOf(orders, h.symbol), 0) }

  /** The holdings with something left to sell, cut down to it. */
  function Sellable(hs: seq<Holding>, orders: seq<PendingOrder>): seq<Holding> {
    if hs == [] then []
    else
      var rest, h := Sellable(hs[..|hs| - 1], orders), hs[|hs| - 1];
      if AvailableOf(h, orders) > 0 then rest + [h.(quantity := AvailableOf(h, orders))] else rest
  }

  method PendingSells(orders: seq<PendingOrder>) returns (pending: map<string, int>)
    ensures forall s :: s in pending <==> PendingOf(orders, s) > 0
    ensures forall s :: s in pending ==> pending[s] == PendingOf(orders, s)
  {
    pending := map[];
    var i := 0;
    while i < |orders|
      invariant 0 <= i <= |orders|
      invariant forall s :: (s in pending <==> PendingOf(orders[..i], s) > 0)
                            && (s in pending ==> pending[s] == PendingOf(orders[..i], s))
    {
      var o := orders[i];
      assert orders[..i + 1][..i] == orders[..i];
      if o.side == SELL_SIDE && o.symbol != "" && o.remaining > 0 {
        pending := pending[o.symbol := (if o.symbol in pending then pending[o.symbol] else 0) + o.remaining];
      }
      i := i + 1;
    }
    assert orders[..i] == orders;
  }

  method Adjust(hs: seq<Holding>, orders: seq<PendingOrder>) returns (sellable: seq<Holding>)
    ensures sellable == Sellable(hs, orders)
  {
    var pending := PendingSells(orders);
    sellable := [];
    var i := 0;
    while i < |hs|
      invariant 0 <= i <= |hs| && sellable == Sellable(hs[..i], orders)
    {
      var h := hs[i];
      assert hs[..i + 1][..i] == hs[..i];
      if h.quantity > 0 {
        var available := Max(h.quantity - (if h.symbol in pending then pending[h.symbol] else 0), 0);
        if available > 0 {
          sellable := sellable + [h.(quantity := available)];
        }
      }
      i := i + 1;
    }
    assert hs[..i] == hs;
  }

  // ----- What may be sold

  predicate DistinctSymbols(hs: seq<Holding>) {
    forall i, j :: 0 <= i < j < |hs| ==> hs[i].symbol != hs[j].symbol
  }

  lemma QuantityGrows(hs: seq<Holding>, h: Holding, symbol: string)
    ensures QuantityOf(hs + [h], symbol)
         == QuantityOf(hs, symbol) + if h.symbol == symbol then Max(h.quantity, 0) else 0
  {
    assert (hs + [h])[..|hs|] == hs;
  }

  lemma {:induction false} NoneOfSymbol(hs: seq<Holding>, symbol: string)
    requires forall i :: 0 <= i < |hs| ==> hs[i].symbol != symbol
    ensures QuantityOf(hs, symbol) == 0
  {
    if hs == [] {
    } else {
      NoneOfSymbol(hs[..|hs| - 1], symbol);
    }
  }

  lemma {:induction false} SellableMembers(hs: seq<Holding>, orders: seq<PendingOrder>, h: Holding)
    ensures h in Sellable(hs, orders) <==>
              exists i :: 0 <= i < |hs| && AvailableOf(hs[i], orders) > 0
                && h == hs[i].(quantity := AvailableOf(hs[i], orders))
  {
    if hs == [] {
    } else {
      var init, last := hs[..|hs| - 1], hs[|hs| - 1];
      SellableMembers(init, orders, h);
      if h in Sellable(init, orders) {
        var i :| 0 <= i < |init| && AvailableOf(init[i], orders) > 0
          && h == init[i].(quantity := AvailableOf(init[i], orders));
        assert hs[i] == init[i];
      }
    }
  }

  /** A holding is offered exactly when it exceeds the pending sells of its symbol, and then with the
      difference: offered and pending make up the holding. */
  lemma OfferedIff(hs: seq<Holding>, orders: seq<PendingOrder>, i: nat)
    requires i < |hs| && DistinctSymbols(hs)
    ensures (exists q :: hs[i].(quantity := q) in Sellable(hs, orders))
              <==> hs[i].quantity > PendingOf(orders, hs[i].symbol)
    ensures forall q :: hs[i].(quantity := q) in Sellable(hs, orders)
              ==> q + PendingOf(orders, hs[i].symbol) == hs[i].quantity
  {
    var available := AvailableOf(hs[i], orders);
    forall q | hs[i].(quantity := q) in Sellable(hs, orders) ensures q == available > 0 {
      SellableMembers(hs, orders, hs[i].(quantity := q));
    }
    SellableMembers(hs, orders, hs[i].(quantity := available));
  }

  lemma OffersGrow(hs: seq<Holding>, orders: seq<PendingOrder>, symbol: string)
    requires hs != []
    ensures var init, h := hs[..|hs| - 1], hs[|hs| - 1];
            QuantityOf(Sellable(hs, orders), symbol)
              == QuantityOf(Sellable(init, orders), symbol) + if h.symbol == symbol then AvailableOf(h, orders) else 0
  {
    var init, h := hs[..|hs| - 1], hs[|hs| - 1];
    QuantityGrows(Sellable(init, orders), h.(quantity := AvailableOf(h, orders)), symbol);
  }

  /** Never more than what is held and not being sold already, also when a symbol is listed twice. */
  lemma {:induction false} NeverOffersTooMuch(hs: seq<Holding>, orders: seq<PendingOrder>, symbol: string)
    ensures QuantityOf(Sellable(hs, orders), symbol) <= Max(QuantityOf(hs, symbol) - PendingOf(orders, symbol), 0)
  {
    if hs == [] {
    } else {
      var init := hs[..|hs| - 1];
      NeverOffersTooMuch(init, orders, symbol);
      OffersGrow(hs, orders, symbol);
      QuantityNonNegative(init, symbol);
    }
  }

  /** With distinct symbols, all of it. */
  lemma {:induction false} OffersAll(hs: seq<Holding>, orders: seq<PendingOrder>, symbol: string)
    requires DistinctSymbols(hs)
    ensures QuantityOf(Sellable(hs, orders), symbol) == Max(QuantityOf(hs, symbol) - PendingOf(orders, symbol), 0)
  {
    if hs == [] {
    } else {
      var init, h := hs[..|hs| - 1], hs[|hs| - 1];
      OffersAll(init, orders, symbol);
      OffersGrow(hs, orders, symbol);
      if h.symbol == symbol { NoneOfSymbol(init, symbol); }
    }
  }

  lemma {:induction false} QuantityNonNegative(hs: seq<Holding>, symbol: string)
    ensures QuantityOf(hs, symbol) >= 0
  {
    if hs == [] {
    } else {
      QuantityNonNegative(hs[..|hs| - 1], symbol);
    }
  }

  // ----- Symbols as the broker spells them

  /** Pending sells of the same share, whatever its spelling. */
  function PendingOfShare(orders: seq<PendingOrder>, symbol: string): nat {
    if orders == [] then 0
    else
      var o := orders[|orders| - 1];
      PendingOfShare(orders[..|orders| - 1], symbol)
      + if o.side == SELL_SIDE && Normalize(o.symbol) == Normalize(symbol) then Max(o.remaining, 0) else 0
  }

  /** A pending sell of the share is spelled like `symbol`. */
  predicate Alike(o: PendingOrder, symbol: string) {
    o.side == SELL_SIDE && o.remaining > 0 && Normalize(o.symbol) == Normalize(symbol) ==> o.symbol == symbol != ""
  }

  predicate SpelledAlike(orders: seq<PendingOrder>, symbol: string) {
    forall i :: 0 <= i < |orders| ==> Alike(orders[i], symbol)
  }

  lemma {:induction false} PendingSpellings(orders: seq<PendingOrder>, symbol: string)
    ensures PendingOf(orders, symbol) <= PendingOfShare(orders, symbol)
    ensures PendingOf(orders, symbol) == PendingOfShare(orders, symbol) <==> SpelledAlike(orders, symbol)
  {
    if orders == [] {
    } else {
      var init, o := orders[..|orders| - 1], orders[|orders| - 1];
      PendingSpellings(init, symbol);
      assert SpelledAlike(orders, symbol) <==> SpelledAlike(init, symbol) && Alike(o, symbol);
    }
  }

  /** The pending sells are looked up by the plain symbol: what is offered fits beside all pending
      sells of the share exactly when those are spelled like the holding. */
  lemma FitsBesideIff(h: Holding, orders: seq<PendingOrder>)
    requires AvailableOf(h, orders) > 0
    ensures AvailableOf(h, orders) + PendingOfShare(orders, h.symbol) <= h.quantity <==> SpelledAlike(orders, h.symbol)
  {
    PendingSpellings(orders, h.symbol);
  }
}
