/** Trading days and sessions of the Korean exchanges, in local time. */
module MarketCalendar {

  const MINUTE := 60_000_000
  const DAY := 1440 * MINUTE

  /** A day number, and microseconds since its midnight. Day 0 is a Monday. */
  datatype Instant = Instant(day: int, time: int)

  predicate ValidInstant(i: Instant) { 0 <= i.time < DAY }

  predicate Before(a: Instant, b: Instant) { a.day < b.day || (a.day == b.day && a.time < b.time) }

  function At(hour: int, minute: int): int { (hour * 60 + minute) * MINUTE }

  function Plus(i: Instant, micros: int): Instant {
    Instant(i.day + (i.time + micros) / DAY, (i.time + micros) % DAY)
  }

  /** Adding to a moment moves it by exactly that, over midnight too. */
  lemma PlusMoves(i: Instant, micros: int)
    ensures ValidInstant(Plus(i, micros))
    ensures Plus(i, micros).day * DAY + Plus(i, micros).time == i.day * DAY + i.time + micros
  {
  }

  /** Public holidays, by day number. */
  type Holidays = int -> bool

  predicate Closed(holidays: Holidays, day: int) { day % 7 >= 5 || holidays(day) }

  ghost predicate OpensAfter(holidays: Holidays, day: int) {
    exists later :: later > day && !Closed(holidays, later)
  }

  /** The exchanges open again some time after every day. */
  ghost predicate Reopens(holidays: Holidays) { forall day: int :: OpensAfter(holidays, day) }

  function LastOf(days: seq<int>, day: int): (r: int)
    ensures r >= day && forall i :: 0 <= i < |days| ==> days[i] <= r
  {
    if days == [] then day else
      var rest := LastOf(days[1..], day);
      if days[0] > rest then days[0] else rest
  }

  /** Any finite list of holidays leaves a later working day. */
  lemma FiniteHolidaysReopen(days: seq<int>)
    ensures Reopens((day: int) => day in days)
  {
    var holidays: Holidays := (day: int) => day in days;
    forall day: int ensures OpensAfter(holidays, day) {
      var bound := LastOf(days, day);
      var monday := bound + 7 - bound % 7;
      assert monday % 7 == 0 && monday > bound;
      assert !Closed(holidays, monday);
    }
  }

  // ----- Sessions

  datatype Session = NXT_PRE | KRX_NXT | KRX_CLOSE | NXT_AFTER | CLOSED

  function SessionAt(holidays: Holidays, i: Instant): Session {
    if Closed(holidays, i.day) then CLOSED
    else if At(8, 0) <= i.time < At(8, 50) then NXT_PRE
    else if At(9, 0) <= i.time < At(15, 20) then KRX_NXT
    else if At(15, 20) <= i.time <= At(15, 30) then KRX_CLOSE
    else if At(15, 30) < i.time <= At(20, 0) then NXT_AFTER
    else CLOSED
  }

  predicate OpenBetween(holidays: Holidays, i: Instant, from: int, to: int) {
    !Closed(holidays, i.day) && from <= i.time <= to
  }

  predicate KrxTradingHours(holidays: Holidays, i: Instant) { OpenBetween(holidays, i, At(9, 0), At(15, 30)) }

  predicate NxtPreMarket(holidays: Holidays, i: Instant) { OpenBetween(holidays, i, At(8, 0), At(8, 50)) }

  predicate NxtAfterMarket(holidays: Holidays, i: Instant) { OpenBetween(holidays, i, At(15, 30), At(20, 0)) }

  predicate NxtTradingHours(holidays: Holidays, i: Instant) { OpenBetween(holidays, i, At(8, 0), At(20, 0)) }

  /** Trading day, between the pre-market and the opening: no session, yet inside the NXT hours. */
  predicate MorningGap(holidays: Holidays, i: Instant) {
    !Closed(holidays, i.day) && At(8, 50) <= i.time < At(9, 0)
  }

  predicate AtTheBell(holidays: Holidays, i: Instant) { !Closed(holidays, i.day) && i.time == At(15, 30) }

  /** The hour checks against the session: they agree except at 08:50, in the gap, and at 15:30. */
  lemma HoursAndSessions(holidays: Holidays, i: Instant)
    ensures var s := SessionAt(holidays, i);
            && (KrxTradingHours(holidays, i) <==> s == KRX_NXT || s == KRX_CLOSE)
            && (NxtPreMarket(holidays, i) <==> s == NXT_PRE || (!Closed(holidays, i.day) && i.time == At(8, 50)))
            && (NxtAfterMarket(holidays, i) <==> s == NXT_AFTER || AtTheBell(holidays, i))
            && (NxtTradingHours(holidays, i) <==> s != CLOSED || MorningGap(holidays, i))
  {
  }

  // ----- The clock

  /** The hour and the minute that a clock shows, and whether the minute has just begun. */
  datatype Clock = Clock(hour: int, minute: int, sharp: bool)

  function ClockOf(i: Instant): Clock {
    Clock(i.time / 3_600_000_000, i.time / 60_000_000 % 60, i.time % 60_000_000 == 0)
  }

  lemma AtShows(day: int, hour: int, minute: int)
    requires 0 <= hour < 24 && 0 <= minute < 60
    ensures ValidInstant(Instant(day, At(hour, minute)))
    ensures ClockOf(Instant(day, At(hour, minute))) == Clock(hour, minute, true)
  {
  }

  /** The sessions and the hour checks as a clock on a trading day shows them. */
  lemma SessionsByClock(holidays: Holidays, i: Instant)
    requires ValidInstant(i)
    ensures var (c, s) := (ClockOf(i), SessionAt(holidays, i));
            var trading := i.day % 7 in {0, 1, 2, 3, 4} && !holidays(i.day);
            && (s == NXT_PRE <==> trading && c.hour == 8 && c.minute < 50)
            && (s == KRX_NXT <==> trading && (9 <= c.hour <= 14 || (c.hour == 15 && c.minute < 20)))
            && (s == KRX_CLOSE
                <==> trading && c.hour == 15 && (20 <= c.minute < 30 || c == Clock(15, 30, true)))
            && (s == NXT_AFTER
                <==> trading && c != Clock(15, 30, true)
                     && ((c.hour == 15 && c.minute >= 30) || 16 <= c.hour <= 19 || c == Clock(20, 0, true)))
            && (NxtTradingHours(holidays, i) <==> trading && (8 <= c.hour <= 19 || c == Clock(20, 0, true)))
  {
  }

  // ----- The next opening

  /** The first trading day after `day`. */
  ghost predicate NextTradingDay(holidays: Holidays, day: int, r: int) {
    day < r && !Closed(holidays, r) && forall d :: day < d < r ==> Closed(holidays, d)
  }

  /** The first trading-day moment at time `open` that is after `i`. */
  ghost predicate FirstOpening(holidays: Holidays, i: Instant, open: int, r: Instant) {
    && r.time == open && !Closed(holidays, r.day) && Before(i, r)
    && forall d :: !Closed(holidays, d) && Before(i, Instant(d, open)) ==> r.day <= d
  }

  method FindTradingDay(holidays: Holidays, day: int) returns (next: int)
    requires Reopens(holidays)
    ensures NextTradingDay(holidays, day, next)
  {
    assert OpensAfter(holidays, day);
    ghost var goal :| goal > day && !Closed(holidays, goal);
    next := day + 1;
    while Closed(holidays, next)
      invariant day < next <= goal
      invariant forall d :: day < d < next ==> Closed(holidays, d)
      decreases goal - next
    {
      next := next + 1;
    }
  }

  method NextOpening(holidays: Holidays, i: Instant, open: int) returns (r: Instant)
    requires Reopens(holidays)
    ensures FirstOpening(holidays, i, open, r)
  {
    if i.time < open && !Closed(holidays, i.day) { return Instant(i.day, open); }
    var next := FindTradingDay(holidays, i.day);
    return Instant(next, open);
  }

  method NextMarketOpen(holidays: Holidays, i: Instant) returns (r: Instant)
    requires Reopens(holidays)
    ensures FirstOpening(holidays, i, At(8, 0), r)
  {
    r := NextOpening(holidays, i, At(8, 0));
  }

  method NextKrxOpen(holidays: Holidays, i: Instant) returns (r: Instant)
    requires Reopens(holidays)
    ensures FirstOpening(holidays, i, At(9, 0), r)
  {
    r := NextOpening(holidays, i, At(9, 0));
  }

  // ----- The next session

  /** A session starts: 08:00, 09:00, 15:20 or 15:30 on a trading day. */
  predicate SessionStart(holidays: Holidays, i: Instant) {
    !Closed(holidays, i.day)
      && (i.time == At(8, 0) || i.time == At(9, 0) || i.time == At(15, 20) || i.time == At(15, 30))
  }

  ghost predicate FirstStart(holidays: Holidays, i: Instant, r: Instant) {
    && SessionStart(holidays, r) && Before(i, r)
    && forall s :: SessionStart(holidays, s) && Before(i, s) ==> r == s || Before(r, s)
  }

  /** What the search returns, case by case. */
  ghost predicate NextSession(holidays: Holidays, i: Instant, r: Instant) {
    match SessionAt(holidays, i)
    case NXT_PRE => r == Instant(i.day, At(9, 0))
    case KRX_NXT => r == Instant(i.day, At(15, 20))
    case KRX_CLOSE => r == Instant(i.day, At(15, 30))
    case NXT_AFTER => FirstOpening(holidays, Plus(i, MINUTE), At(8, 0), r)
    case CLOSED => FirstOpening(holidays, i, At(8, 0), r)
  }

  method NextSessionStart(holidays: Holidays, i: Instant) returns (r: Instant)
    requires Reopens(holidays)
    ensures NextSession(holidays, i, r)
  {
    if Closed(holidays, i.day) {
      r := NextMarketOpen(holidays, i);
      return;
    }
    match SessionAt(holidays, i) {
      case NXT_PRE => return Instant(i.day, At(9, 0));
      case KRX_NXT => return Instant(i.day, At(15, 20));
      case KRX_CLOSE => return Instant(i.day, At(15, 30));
      case NXT_AFTER => r := NextMarketOpen(holidays, Plus(i, MINUTE));
      case CLOSED => r := NextMarketOpen(holidays, i);
    }
  }

  lemma AMinuteLater(i: Instant)
    requires ValidInstant(i) && i.time <= At(20, 0)
    ensures Plus(i, MINUTE) == Instant(i.day, i.time + MINUTE)
  {
  }

  /** The result is never before `i`, and is `i` itself only at 15:30 sharp. */
  lemma NotBefore(holidays: Holidays, i: Instant, r: Instant)
    requires ValidInstant(i) && NextSession(holidays, i, r)
    ensures i == r || Before(i, r)
    ensures i == r <==> AtTheBell(holidays, i)
  {
    if SessionAt(holidays, i) == NXT_AFTER { AMinuteLater(i); }
  }

  /** An opening at 08:00 when today's sessions have all started. */
  lemma OpeningIsStart(holidays: Holidays, i: Instant, from: Instant, r: Instant)
    requires FirstOpening(holidays, from, At(8, 0), r) && from.day == i.day && i.time <= from.time
    requires Closed(holidays, i.day) || (from.time < At(8, 0) && from == i) || i.time >= At(15, 30)
    ensures FirstStart(holidays, i, r)
  {
    forall s | SessionStart(holidays, s) && Before(i, s) ensures r == s || Before(r, s) {
      assert Before(from, Instant(s.day, At(8, 0)));
    }
  }

  /** It is the next session start exactly when `i` is neither in the gap before the opening nor at
      15:30 sharp. */
  lemma NextSessionIff(holidays: Holidays, i: Instant, r: Instant)
    requires ValidInstant(i) && NextSession(holidays, i, r)
    ensures FirstStart(holidays, i, r) <==> !MorningGap(holidays, i) && !AtTheBell(holidays, i)
  {
    if MorningGap(holidays, i) {
      var nine := Instant(i.day, At(9, 0));
      assert SessionStart(holidays, nine) && Before(i, nine);
      assert r != nine && !Before(r, nine);
    } else if !AtTheBell(holidays, i) {
      match SessionAt(holidays, i)
      case NXT_AFTER =>
        AMinuteLater(i);
        OpeningIsStart(holidays, i, Plus(i, MINUTE), r);
      case CLOSED => OpeningIsStart(holidays, i, i, r);
      case _ =>
    }
  }
}
