/** The cash ledger of one trading cycle. A reservation is known by its position. */
module OrderReservation {
  import opened Common
  import opened Symbols

  datatype Reservation = Reservation(symbol: string, amount: real, quantity: int, active: bool)

  datatype Decision = Decision(
    approved: bool,
    symbol: string,
    requested: real,
    reserved: real,
    available: real,
    id: Option<nat>)

  // ----- The ledger as a value

  function ActiveSum(rows: seq<Reservation>): real {
    if rows == [] then 0.0
    else
      var r := rows[|rows| - 1];
      ActiveSum(rows[..|rows| - 1]) + if r.active then r.amount else 0.0
  }

  function Available(starting: real, rows: seq<Reservation>): real { MaxR(starting - ActiveSum(rows), 0.0) }

  predicate Fits(starting: real, rows: seq<Reservation>, amount: real, quantity: int) {
    amount > 0.0 && quantity > 0 && amount <= Available(starting, rows)
  }

  function Reserved(starting: real, rows: seq<Reservation>, symbol: string, amount: real,
                    quantity: int): seq<Reservation> {
    if Fits(starting, rows, amount, quantity) then rows + [Reservation(Normalize(symbol), amount, quantity, true)]
    else rows
  }

  predicate CanRelease(rows: seq<Reservation>, id: Option<nat>) {
    id.Some? && id.value < |rows| && rows[id.value].active
  }

  function Released(rows: seq<Reservation>, id: Option<nat>): seq<Reservation> {
    if CanRelease(rows, id) then rows[id.value := rows[id.value].(active := false)] else rows
  }

  /** Approved is exactly a positive order whose amount fits beside the active reservations. */
  lemma {:induction false} ReservedIff(starting: real, rows: seq<Reservation>, symbol: string, amount: real,
                                       quantity: int)
    ensures Reserved(starting, rows, symbol, amount, quantity)
         == if amount > 0.0 && quantity > 0 && ActiveSum(rows) + amount <= starting
            then rows + [Reservation(Normalize(symbol), amount, quantity, true)] else rows
  {
  }

  // ----- The ledger as an object

  class Ledger {
    const starting: real
    var rows: seq<Reservation>

    constructor (cash: real)
      ensures starting == MaxR(cash, 0.0) && rows == []
    {
      starting, rows := MaxR(cash, 0.0), [];
    }

    method ReservedCash() returns (sum: real)
      ensures sum == ActiveSum(rows)
    {
      sum := 0.0;
      var i := 0;
      while i < |rows|
        invariant 0 <= i <= |rows| && sum == ActiveSum(rows[..i])
      {
        assert rows[..i + 1][..i] == rows[..i];
        if rows[i].active { sum := sum + rows[i].amount; }
        i := i + 1;
      }
      assert rows[..i] == rows;
    }

    method AvailableCash() returns (cash: real)
      ensures cash == Available(starting, rows)
      ensures cash == if ActiveSum(rows) <= starting then starting - ActiveSum(rows) else 0.0
    {
      var reserved := ReservedCash();
      cash := MaxR(starting - reserved, 0.0);
    }

    /** A negative amount counts as zero, and zero is refused. */
    method Reserve(symbol: string, amount: real, quantity: int) returns (d: Decision)
      modifies this`rows
      ensures rows == Reserved(starting, old(rows), symbol, amount, quantity)
      ensures d.approved <==> amount > 0.0 && quantity > 0 && ActiveSum(old(rows)) + amount <= starting
      ensures d.approved ==> rows == old(rows) + [Reservation(Normalize(symbol), amount, quantity, true)]
      ensures !d.approved ==> rows == old(rows)
      ensures d.symbol == Normalize(symbol) && d.requested == MaxR(amount, 0.0)
      ensures d.available == Available(starting, rows)
      ensures d.id == if d.approved then Some(|old(rows)|) else None
      ensures d.reserved == if d.approved then amount else 0.0
    {
      var normalized, requested := Normalize(symbol), MaxR(amount, 0.0);
      var available := AvailableCash();
      if requested <= 0.0 || quantity <= 0 {
        return Decision(false, normalized, requested, 0.0, available, None);
      }
      if requested > available {
        return Decision(false, normalized, requested, 0.0, available, None);
      }
      var id := |rows|;
      rows := rows + [Reservation(normalized, requested, quantity, true)];
      available := AvailableCash();
      return Decision(true, normalized, requested, requested, available, Some(id));
    }

    method Release(id: Option<nat>) returns (done: bool)
      modifies this`rows
      ensures done <==> id.Some? && id.value < |old(rows)| && old(rows)[id.value].active
      ensures rows == Released(old(rows), id) && |rows| == |old(rows)|
      ensures forall i :: 0 <= i < |rows| ==>
                rows[i] == if id == Some(i) then old(rows)[i].(active := false) else old(rows)[i]
    {
      if id.None? || id.value >= |rows| || !rows[id.value].active { return false; }
      rows := rows[id.value := rows[id.value].(active := false)];
      return true;
    }
  }

  // ----- What every run of the ledger keeps

  datatype Op = Reserve(symbol: string, amount: real, quantity: int) | Release(id: Option<nat>)

  function Step(starting: real, rows: seq<Reservation>, op: Op): seq<Reservation> {
    match op
    case Reserve(symbol, amount, quantity) => Reserved(starting, rows, symbol, amount, quantity)
    case Release(id) => Released(rows, id)
  }

  function Run(starting: real, rows: seq<Reservation>, ops: seq<Op>): seq<Reservation>
    decreases |ops|
  {
    if ops == [] then rows else Run(starting, Step(starting, rows, ops[0]), ops[1..])
  }

  /** How often a run gives the reservation back. */
  function TimesReleased(starting: real, rows: seq<Reservation>, ops: seq<Op>, id: nat): nat
    decreases |ops|
  {
    if ops == [] then 0
    else
      (if ops[0].Release? && ops[0].id == Some(id) && CanRelease(rows, ops[0].id) then 1 else 0)
      + TimesReleased(starting, Step(starting, rows, ops[0]), ops[1..], id)
  }

  /** Positive amounts only, and within the starting cash. */
  predicate WithinCash(starting: real, rows: seq<Reservation>) {
    (forall i :: 0 <= i < |rows| ==> rows[i].amount > 0.0) && ActiveSum(rows) <= starting
  }

  lemma {:induction false} ReleaseSubtracts(rows: seq<Reservation>, i: nat)
    requires i < |rows| && rows[i].active
    ensures ActiveSum(rows[i := rows[i].(active := false)]) == ActiveSum(rows) - rows[i].amount
  {
    var last, off := |rows| - 1, rows[i := rows[i].(active := false)];
    if i == last {
      assert off[..last] == rows[..last];
    } else {
      ReleaseSubtracts(rows[..last], i);
      assert off[..last] == rows[..last][i := rows[i].(active := false)];
    }
  }

  lemma ReserveAdds(rows: seq<Reservation>, r: Reservation)
    ensures ActiveSum(rows + [r]) == ActiveSum(rows) + if r.active then r.amount else 0.0
  {
    assert (rows + [r])[..|rows|] == rows;
  }

  lemma StepWithinCash(starting: real, rows: seq<Reservation>, op: Op)
    requires starting >= 0.0 && WithinCash(starting, rows)
    ensures WithinCash(starting, Step(starting, rows, op))
  {
    match op
    case Reserve(symbol, amount, quantity) => ReserveAdds(rows, Reservation(Normalize(symbol), amount, quantity, true));
    case Release(id) => if CanRelease(rows, id) { ReleaseSubtracts(rows, id.value); }
  }

  /** Over every run: the active reservations fit the starting cash, so that the available cash is
      the plain difference and is never cut off at zero. */
  lemma {:induction false} RunWithinCash(starting: real, rows: seq<Reservation>, ops: seq<Op>)
    requires starting >= 0.0 && WithinCash(starting, rows)
    ensures var r := Run(starting, rows, ops);
            WithinCash(starting, r) && Available(starting, r) == starting - ActiveSum(r)
    decreases |ops|
  {
    if ops == [] {
    } else {
      StepWithinCash(starting, rows, ops[0]);
      RunWithinCash(starting, Step(starting, rows, ops[0]), ops[1..]);
    }
  }

  /** No reservation is given back twice, whatever ids are handed in. */
  lemma {:induction false} ReleasedAtMostOnce(starting: real, rows: seq<Reservation>, ops: seq<Op>, id: nat)
    ensures TimesReleased(starting, rows, ops, id) <= if id < |rows| && !rows[id].active then 0 else 1
    decreases |ops|
  {
    if ops == [] {
    } else {
      ReleasedAtMostOnce(starting, Step(starting, rows, ops[0]), ops[1..], id);
    }
  }
}
