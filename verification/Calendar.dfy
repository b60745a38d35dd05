/** Trading days and market sessions.  A date is its proleptic ordinal, a moment is an IST date with the
    seconds since its midnight. */
module Calendar {
  type Holidays = set<int>

  // 0 is Monday, as in date.weekday().
  function Weekday(day: int): int { (day + 6) % 7 }

  predicate IsTradingDay(day: int, holidays: Holidays) {
    Weekday(day) < 5 && day !in holidays
  }

  // ----- Searching ------------------------------------------------------------------------

  ghost function Latest(holidays: Holidays): (l: int)
    ensures forall h :: h in holidays ==> h <= l
  {
    if !(exists h :: h in holidays) then 0
    else
      var h :| h in holidays;
      assert forall x :: x in holidays ==> x == h || x in holidays - {h};
      var l := Latest(holidays - {h});
      if h > l then h else l
  }

  ghost function Earliest(holidays: Holidays): (e: int)
    ensures forall h :: h in holidays ==> e <= h
  {
    if !(exists h :: h in holidays) then 0
    else
      var h :| h in holidays;
      assert forall x :: x in holidays ==> x == h || x in holidays - {h};
      var e := Earliest(holidays - {h});
      if h < e then h else e
  }

  // Days left to search: past the last holiday only a weekend can be in the way.
  ghost function StepsForward(day: int, holidays: Holidays): nat {
    var l := Latest(holidays);
    if day <= l then l - day + 7 else (7 - Weekday(day)) % 7
  }

  ghost function StepsBack(day: int, holidays: Holidays): nat {
    var e := Earliest(holidays);
    if day >= e then day - e + 7 else Weekday(day)
  }

  lemma FewerSteps(day: int, holidays: Holidays)
    requires !IsTradingDay(day, holidays)
    ensures StepsForward(day + 1, holidays) < StepsForward(day, holidays)
    ensures StepsBack(day - 1, holidays) < StepsBack(day, holidays)
  {
  }

  function SeekForward(day: int, holidays: Holidays): int
    decreases StepsForward(day, holidays)
  {
    if IsTradingDay(day, holidays) then day else SeekForward(day + 1, holidays)
  }

  function SeekBack(day: int, holidays: Holidays): int
    decreases StepsBack(day, holidays)
  {
    if IsTradingDay(day, holidays) then day else SeekBack(day - 1, holidays)
  }

  function NextTradingDay(day: int, holidays: Holidays): int { SeekForward(day + 1, holidays) }

  function PreviousTradingDay(day: int, holidays: Holidays): int { SeekBack(day - 1, holidays) }

  method GetNextTradingDay(day: int, holidays: Holidays) returns (candidate: int)
    ensures candidate == NextTradingDay(day, holidays)
  {
    hide StepsForward, StepsBack, Weekday;
    candidate := day + 1;
    while Weekday(candidate) >= 5 || candidate in holidays
      invariant SeekForward(candidate, holidays) == NextTradingDay(day, holidays)
      decreases StepsForward(candidate, holidays)
    {
      FewerSteps(candidate, holidays);
      candidate := candidate + 1;
    }
  }

  method GetPreviousTradingDay(day: int, holidays: Holidays) returns (candidate: int)
    ensures candidate == PreviousTradingDay(day, holidays)
  {
    hide StepsForward, StepsBack, Weekday;
    candidate := day - 1;
    while Weekday(candidate) >= 5 || candidate in holidays
      invariant SeekBack(candidate, holidays) == PreviousTradingDay(day, holidays)
      decreases StepsBack(candidate, holidays)
    {
      FewerSteps(candidate, holidays);
      candidate := candidate - 1;
    }
  }

  lemma {:induction false} SeekForwardFindsNearest(day: int, holidays: Holidays)
    ensures var r := SeekForward(day, holidays);
      r >= day && IsTradingDay(r, holidays) && forall x :: day <= x < r ==> !IsTradingDay(x, holidays)
    decreases StepsForward(day, holidays)
  {
    if !IsTradingDay(day, holidays) {
      SeekForwardFindsNearest(day + 1, holidays);
    }
  }

  lemma {:induction false} SeekBackFindsNearest(day: int, holidays: Holidays)
    ensures var r := SeekBack(day, holidays);
      r <= day && IsTradingDay(r, holidays) && forall x :: r < x <= day ==> !IsTradingDay(x, holidays)
    decreases StepsBack(day, holidays)
  {
    if !IsTradingDay(day, holidays) {
      SeekBackFindsNearest(day - 1, holidays);
    }
  }

  /** Both searches end, for any finite holiday table, on the nearest trading day on their side, and
      undo each other exactly on trading days. */
  lemma TradingDaySearch(day: int, holidays: Holidays)
    ensures var n, p := NextTradingDay(day, holidays), PreviousTradingDay(day, holidays);
      && p < day < n && IsTradingDay(n, holidays) && IsTradingDay(p, holidays)
      && (forall x :: p < x < n && x != day ==> !IsTradingDay(x, holidays))
      && (PreviousTradingDay(n, holidays) == day <==> IsTradingDay(day, holidays))
      && (NextTradingDay(p, holidays) == day <==> IsTradingDay(day, holidays))
  {
    var n, p := NextTradingDay(day, holidays), PreviousTradingDay(day, holidays);
    SeekForwardFindsNearest(day + 1, holidays);
    SeekBackFindsNearest(day - 1, holidays);
    SeekBackFindsNearest(n - 1, holidays);
    SeekForwardFindsNearest(p + 1, holidays);
    assert IsTradingDay(day, holidays) ==> PreviousTradingDay(n, holidays) >= day && NextTradingDay(p, holidays) <= day;
  }

  // ----- Sessions ----------------------------------------------------------------------------

  datatype Moment = Moment(day: int, time: real)

  datatype Session = PreOpen | ContinuousTrading | PostClose | AfterMarketClose | ClosedHours | Holiday | Weekend

  const PRE_OPEN := 32400.0
  const OPEN := 33300.0
  const CLOSE := 55800.0
  const POST_CLOSE_END := 56400.0
  const AMC_END := 57600.0
  const DAY := 86400.0

  ghost predicate OnClock(m: Moment) { 0.0 <= m.time < DAY }

  function MarketSession(m: Moment, holidays: Holidays): Session {
    if Weekday(m.day) >= 5 then Weekend
    else if m.day in holidays then Holiday
    else if m.time < PRE_OPEN then ClosedHours
    else if m.time < OPEN then PreOpen
    else if m.time < CLOSE then ContinuousTrading
    else if m.time < POST_CLOSE_END then PostClose
    else if m.time < AMC_END then AfterMarketClose
    else ClosedHours
  }

  function NextMarketOpen(m: Moment, holidays: Holidays): Moment {
    if m.time < OPEN && Weekday(m.day) < 5 && m.day !in holidays then Moment(m.day, OPEN)
    else Moment(NextTradingDay(m.day, holidays), OPEN)
  }

  ghost predicate Earlier(a: Moment, b: Moment) {
    a.day < b.day || (a.day == b.day && a.time < b.time)
  }

  // is_market_open: any session from pre-open to post-close.
  predicate IsMarketOpen(m: Moment, holidays: Holidays) {
    MarketSession(m, holidays) in {PreOpen, ContinuousTrading, PostClose}
  }

  // Seconds since midnight.
  function At(hours: int, minutes: int): real { (hours * 3600 + minutes * 60) as real }

  /** The sessions of a day: Saturdays and Sundays are weekend, holidays on other days holiday, and a trading
      day goes through pre-open at 09:00, trading at 09:15, post-close at 15:30 and the after-market session
      from 15:40 to 16:00. The market counts as open from 09:00 to 15:40 of trading days, and at no other time. */
  lemma SessionTimes(m: Moment, holidays: Holidays)
    requires OnClock(m)
    ensures var s := MarketSession(m, holidays);
      && (s == Weekend <==> Weekday(m.day) in {5, 6})
      && (s == Holiday <==> Weekday(m.day) !in {5, 6} && m.day in holidays)
      && (IsTradingDay(m.day, holidays) ==>
            && (s == PreOpen <==> At(9, 0) <= m.time < At(9, 15))
            && (s == ContinuousTrading <==> At(9, 15) <= m.time < At(15, 30))
            && (s == PostClose <==> At(15, 30) <= m.time < At(15, 40))
            && (s == AfterMarketClose <==> At(15, 40) <= m.time < At(16, 0))
            && (s == ClosedHours <==> m.time < At(9, 0) || m.time >= At(16, 0)))
      && (IsMarketOpen(m, holidays) <==> IsTradingDay(m.day, holidays) && At(9, 0) <= m.time < At(15, 40))
  {
  }

  /** Day 1, the first of January of the year 1, was a Monday, and the weekdays go round from there; a trading
      day is a Monday to Friday that is no holiday. */
  lemma WeekdaysGoRound(day: int, holidays: Holidays)
    ensures Weekday(1) == 0 && Weekday(day + 1) == (if Weekday(day) == 6 then 0 else Weekday(day) + 1)
    ensures 0 <= Weekday(day) <= 6
    ensures IsTradingDay(day, holidays) <==> Weekday(day) in {0, 1, 2, 3, 4} && day !in holidays
  {
  }

  /** The next market open is the least 09:15 of a trading day strictly after the moment; trading is on
      from then, and unless it is on already, at no moment before. */
  lemma NextOpenIsLeast(m: Moment, holidays: Holidays)
    requires OnClock(m)
    ensures var o := NextMarketOpen(m, holidays);
      && Earlier(m, o) && o.time == OPEN && IsTradingDay(o.day, holidays)
      && MarketSession(o, holidays) == ContinuousTrading
      && (forall day :: IsTradingDay(day, holidays) && Earlier(m, Moment(day, OPEN)) ==> !Earlier(Moment(day, OPEN), o))
      && (MarketSession(m, holidays) != ContinuousTrading ==>
            forall x :: OnClock(x) && Earlier(m, x) && Earlier(x, o)
              ==> MarketSession(x, holidays) != ContinuousTrading)
  {
    SeekForwardFindsNearest(m.day + 1, holidays);
    var o := NextMarketOpen(m, holidays);
    forall day | IsTradingDay(day, holidays) && Earlier(m, Moment(day, OPEN))
      ensures !Earlier(Moment(day, OPEN), o)
    {
    }
    forall x | OnClock(x) && Earlier(m, x) && Earlier(x, o) && MarketSession(m, holidays) != ContinuousTrading
      ensures MarketSession(x, holidays) != ContinuousTrading
    {
      assert m.day < x.day < o.day ==> !IsTradingDay(x.day, holidays);
    }
  }
}
