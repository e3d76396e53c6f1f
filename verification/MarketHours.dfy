/** The market session classifier: a two-day window of the broker's calendar decides the
    session at any local date and time of day. Dates are day numbers, times of day are
    nanoseconds since local midnight. */
module MarketHours {
  import opened Basics

  type Date = int

  datatype Hours = Hours(open: nat, close: nat, sessionOpen: nat, sessionClose: nat)

  datatype CalendarDay = CalendarDay(date: Date, hours: Hours)

  datatype MarketSession = Regular | Extended | Overnight | Closed

  datatype PostCloseGap = OrdinaryOvernight | MultiDayClosure | Unknown

  datatype SessionAndClose = SessionAndClose(session: MarketSession, opensAt: Option<nat>,
                                             regularClosesAt: Option<nat>, extendedClosesAt: Option<nat>)

  datatype Classified =
    | Classification(value: SessionAndClose)
    | CalendarDateMismatch(queried: Date, returned: Date)
    | CalendarLocalTimeUnresolvable(date: Date, time: nat)

  /** A stretch of local times of day. */
  datatype Window = Window(from: nat, to: nat)

  /** What the date library knows: its last date, and the times of the day in question that a
      clock change skips or repeats, so that they name no single instant. */
  datatype Zone = Zone(lastDate: Date, changed: Option<Window>)

  predicate Resolves(zone: Zone, time: nat) {
    zone.changed.None? || time < zone.changed.value.from || zone.changed.value.to <= time
  }

  /** The times of a trading day that are turned into instants all name one. */
  predicate HoursResolve(zone: Zone, h: Hours) {
    Resolves(zone, h.sessionClose) && Resolves(zone, h.sessionOpen) && Resolves(zone, h.close)
  }

  // ----- the interval specification

  /** The exchange's trading days. */
  type Calendar = map<Date, Hours>

  ghost predicate WellOrdered(cal: Calendar) {
    forall d <- cal ::
      var h := cal[d];
      4 * HOUR <= h.sessionOpen <= h.open <= h.close <= h.sessionClose <= 20 * HOUR
  }

  /** Some trading day D has `instant` in [20:00 of D-1, 04:00 of D). */
  ghost predicate InOvernight(cal: Calendar, instant: int) {
    exists d <- cal :: d * DAY - 4 * HOUR <= instant < d * DAY + 4 * HOUR
  }

  ghost function SessionAt(cal: Calendar, date: Date, time: nat): MarketSession {
    if date in cal && cal[date].open <= time < cal[date].close then Regular
    else if date in cal && cal[date].sessionOpen <= time < cal[date].sessionClose then Extended
    else if InOvernight(cal, date * DAY + time) then Overnight
    else Closed
  }

  /** The broker answered only with true entries, and with all of `from..to`. Extra days and
      any order are allowed. */
  ghost predicate Answers(cal: Calendar, from: Date, to: Date, days: seq<CalendarDay>) {
    && (forall d <- days :: d.date in cal && cal[d.date] == d.hours)
    && (forall date :: from <= date <= to && date in cal ==> CalendarDay(date, cal[date]) in days)
  }

  lemma OvernightLegs(cal: Calendar, date: Date, time: nat)
    requires time < DAY
    ensures InOvernight(cal, date * DAY + time) <==>
              (20 * HOUR <= time && date + 1 in cal) || (time < 4 * HOUR && date in cal)
  {
    if 20 * HOUR <= time && date + 1 in cal {
      assert (date + 1) * DAY - 4 * HOUR <= date * DAY + time < (date + 1) * DAY + 4 * HOUR;
    }
    if time < 4 * HOUR && date in cal {
      assert date * DAY - 4 * HOUR <= date * DAY + time < date * DAY + 4 * HOUR;
    }
  }

  /** The three trading windows never overlap: Overnight is exactly the overnight interval. */
  lemma OvernightIsItsInterval(cal: Calendar, date: Date, time: nat)
    requires WellOrdered(cal) && time < DAY
    ensures SessionAt(cal, date, time) == Overnight <==> InOvernight(cal, date * DAY + time)
  {
    OvernightLegs(cal, date, time);
  }

  /** One trading day's overnight session spans midnight: both legs are open or neither is. */
  lemma OvernightAgreesAcrossMidnight(cal: Calendar, date: Date, evening: nat, morning: nat)
    requires WellOrdered(cal) && 20 * HOUR <= evening < DAY && morning < 4 * HOUR
    ensures SessionAt(cal, date - 1, evening) == Overnight <==> date in cal
    ensures SessionAt(cal, date, morning) == Overnight <==> date in cal
  {
    OvernightIsItsInterval(cal, date - 1, evening);
    OvernightIsItsInterval(cal, date, morning);
    OvernightLegs(cal, date - 1, evening);
    OvernightLegs(cal, date, morning);
  }

  // ----- the classifier

  function Choose(hours: Option<Hours>, tomorrowTrades: bool, time: nat): SessionAndClose {
    if hours.None? then
      SessionAndClose(if 20 * HOUR <= time && tomorrowTrades then Overnight else Closed, None, None, None)
    else
      var h := hours.value;
      var session :=
        if h.open <= time < h.close then Regular
        else if h.sessionOpen <= time < h.sessionClose then Extended
        else if 20 * HOUR <= time && tomorrowTrades then Overnight
        else if time < 4 * HOUR then Overnight
        else Closed;
      SessionAndClose(session,
                      if session == Extended then Some(h.sessionOpen) else None,
                      if session == Regular then Some(h.close) else None,
                      if session == Extended then Some(h.sessionClose) else None)
  }

  const NO_SESSION: SessionAndClose := SessionAndClose(Closed, None, None, None)

  /** Clock changes happen before the first session opens, so they are never in the way. */
  lemma NightlyChangesNeverMatter(cal: Calendar, date: Date, zone: Zone)
    requires WellOrdered(cal) && date in cal
    requires zone.changed.Some? ==> zone.changed.value.to <= 4 * HOUR
    ensures HoursResolve(zone, cal[date])
  {
  }

  /** `days` answers the query for today and tomorrow. */
  method SessionAndCloseAt(today: Date, time: nat, zone: Zone, days: seq<CalendarDay>, ghost cal: Calendar)
    returns (r: Classified)
    requires time < DAY && today <= zone.lastDate
    // without a tomorrow nothing is asked
    ensures today == zone.lastDate ==> r == Classification(NO_SESSION)
    // an earlier date is a broken answer
    ensures r.CalendarDateMismatch? <==> today < zone.lastDate && exists d <- days :: d.date < today
    ensures r.CalendarDateMismatch? ==> r.queried == today && exists d <- days :: d.date == r.returned < today
    // a session time without an instant is an error; anything else is classified
    ensures r.CalendarLocalTimeUnresolvable? ==>
              && r.date == today && !Resolves(zone, r.time)
              && exists d <- days :: d.date == today && !HoursResolve(zone, d.hours)
    ensures !r.CalendarDateMismatch? && today < zone.lastDate && Answers(cal, today, today + 1, days) ==>
              (r.CalendarLocalTimeUnresolvable? <==> today in cal && !HoursResolve(zone, cal[today]))
    ensures r.Classification? && today < zone.lastDate && WellOrdered(cal) && Answers(cal, today, today + 1, days) ==>
              && r.value.session == SessionAt(cal, today, time)
              && r.value.opensAt ==
                   (if r.value.session == Extended then Some(cal[today].sessionOpen) else None)
              && r.value.regularClosesAt ==
                   (if r.value.session == Regular then Some(cal[today].close) else None)
              && r.value.extendedClosesAt ==
                   (if r.value.session == Extended then Some(cal[today].sessionClose) else None)
  {
    if today == zone.lastDate {
      return Classification(NO_SESSION);
    }
    var todayHours: Option<Hours> := None;
    var tomorrowTrades := false;
    for k := 0 to |days|
      invariant forall i :: 0 <= i < k ==> today <= days[i].date
      invariant todayHours.Some? ==> CalendarDay(today, todayHours.value) in days
      invariant todayHours.None? ==> forall i :: 0 <= i < k ==> days[i].date != today
      invariant tomorrowTrades <==> exists i :: 0 <= i < k && days[i].date == today + 1
    {
      var day := days[k];
      if day.date < today {
        return CalendarDateMismatch(today, day.date);
      } else if day.date == today {
        todayHours := Some(day.hours);
      } else if day.date == today + 1 {
        tomorrowTrades := true;
      }
    }
    if Answers(cal, today, today + 1, days) {
      WindowDecides(cal, today, time, days, todayHours, tomorrowTrades);
    }
    if todayHours.Some? {
      var h := todayHours.value;
      if !Resolves(zone, h.sessionClose) { return CalendarLocalTimeUnresolvable(today, h.sessionClose); }
      if !Resolves(zone, h.sessionOpen) { return CalendarLocalTimeUnresolvable(today, h.sessionOpen); }
      if !Resolves(zone, h.close) { return CalendarLocalTimeUnresolvable(today, h.close); }
    }
    r := Classification(Choose(todayHours, tomorrowTrades, time));
  }

  /** Two days of the calendar decide the session at any time of the first. */
  lemma WindowDecides(cal: Calendar, today: Date, time: nat, days: seq<CalendarDay>,
                      hours: Option<Hours>, tomorrowTrades: bool)
    requires time < DAY && Answers(cal, today, today + 1, days)
    requires hours.Some? ==> CalendarDay(today, hours.value) in days
    requires hours.None? ==> forall d <- days :: d.date != today
    requires tomorrowTrades <==> exists i :: 0 <= i < |days| && days[i].date == today + 1
    ensures WellOrdered(cal) ==> Choose(hours, tomorrowTrades, time).session == SessionAt(cal, today, time)
    ensures hours == if today in cal then Some(cal[today]) else None
  {
    OvernightLegs(cal, today, time);
    assert today in cal ==> CalendarDay(today, cal[today]) in days;
    assert today + 1 in cal ==> CalendarDay(today + 1, cal[today + 1]) in days;
  }

  /** Why a classification fails: an earlier date was answered, or a session time names no
      single instant. */
  ghost predicate Fails(today: Date, zone: Zone, days: seq<CalendarDay>, cal: Calendar) {
    (exists d <- days :: d.date < today) || (today in cal && !HoursResolve(zone, cal[today]))
  }

  /** Regular hours are open and nothing else is; `None` is a failed classification. */
  method IsMarketOpenAt(today: Date, time: nat, zone: Zone, days: seq<CalendarDay>, ghost cal: Calendar)
    returns (open: Option<bool>)
    requires time < DAY && today <= zone.lastDate
    ensures today == zone.lastDate ==> open == Some(false)
    ensures today < zone.lastDate && Answers(cal, today, today + 1, days) ==>
              (open.None? <==> Fails(today, zone, days, cal))
    ensures open.Some? && today < zone.lastDate && WellOrdered(cal) && Answers(cal, today, today + 1, days) ==>
              (open.value <==> today in cal && cal[today].open <= time < cal[today].close)
  {
    var r := SessionAndCloseAt(today, time, zone, days, cal);
    open := if r.Classification? then Some(r.value.session == Regular) else None;
  }

  // ----- the post-close gap

  const NEXT_SESSION_LOOKAHEAD_DAYS: nat := 14

  /** The earliest date after `day` among the answered days. */
  function NextDate(days: seq<CalendarDay>, day: Date): (next: Option<Date>)
    ensures next.Some? ==> day < next.value && exists d <- days :: d.date == next.value
    ensures forall d <- days :: day < d.date ==> next.Some? && next.value <= d.date
  {
    if days == [] then None
    else
      var rest := NextDate(days[1..], day);
      assert days == [days[0]] + days[1..];
      if days[0].date <= day then rest
      else if rest.Some? && rest.value <= days[0].date then rest
      else Some(days[0].date)
  }

  /** `lookahead` answers the query for the next fourteen days; `None` is a failed read. */
  function ClassifyPostCloseGap(day: Date, lastDate: Date, lookahead: Option<seq<CalendarDay>>): PostCloseGap {
    if lastDate < day + NEXT_SESSION_LOOKAHEAD_DAYS || lookahead.None? then Unknown
    else
      var next := NextDate(lookahead.value, day);
      if next.None? then Unknown
      else if next.value == day + 1 then OrdinaryOvernight
      else MultiDayClosure
  }

  datatype MarketSessionStatus = MarketSessionStatus(session: SessionAndClose, postCloseGap: PostCloseGap)

  /** The status read: the lookahead is consulted only inside the extended session. */
  method MarketSessionStatusAt(today: Date, time: nat, zone: Zone, days: seq<CalendarDay>,
                               lookahead: Option<seq<CalendarDay>>, ghost cal: Calendar)
    returns (status: Option<MarketSessionStatus>)
    requires time < DAY && today <= zone.lastDate
    ensures today == zone.lastDate ==> status == Some(MarketSessionStatus(NO_SESSION, Unknown))
    ensures today < zone.lastDate && Answers(cal, today, today + 1, days) ==>
              (status.None? <==> Fails(today, zone, days, cal))
    ensures status.Some? && today < zone.lastDate && WellOrdered(cal) && Answers(cal, today, today + 1, days) ==>
              && status.value.session.session == SessionAt(cal, today, time)
              && status.value.session.opensAt ==
                   (if SessionAt(cal, today, time) == Extended then Some(cal[today].sessionOpen) else None)
              && status.value.session.regularClosesAt ==
                   (if SessionAt(cal, today, time) == Regular then Some(cal[today].close) else None)
              && status.value.session.extendedClosesAt ==
                   (if SessionAt(cal, today, time) == Extended then Some(cal[today].sessionClose) else None)
              && (SessionAt(cal, today, time) != Extended || lookahead.None? ==> status.value.postCloseGap == Unknown)
              && (SessionAt(cal, today, time) == Extended && lookahead.Some? &&
                  today + 14 <= zone.lastDate &&
                  Answers(cal, today + 1, today + 14, lookahead.value) ==>
                    GapIsRight(cal, today, status.value.postCloseGap, lookahead.value))
  {
    var r := SessionAndCloseAt(today, time, zone, days, cal);
    if !r.Classification? {
      return None;
    }
    var gap := if r.value.session == Extended then ClassifyPostCloseGap(today, zone.lastDate, lookahead) else Unknown;
    status := Some(MarketSessionStatus(r.value, gap));
    if WellOrdered(cal) && lookahead.Some? && today + NEXT_SESSION_LOOKAHEAD_DAYS <= zone.lastDate &&
       Answers(cal, today + 1, today + NEXT_SESSION_LOOKAHEAD_DAYS, lookahead.value) {
      GapMatchesTheEvening(cal, today, zone.lastDate, lookahead.value);
    }
  }

  /** The evening of `day`, 20:00 to midnight, is all overnight session. */
  ghost predicate EveningIsOvernight(cal: Calendar, day: Date) {
    forall time: nat :: 20 * HOUR <= time < DAY ==> SessionAt(cal, day, time) == Overnight
  }

  ghost predicate EveningIsClosed(cal: Calendar, day: Date) {
    forall time: nat :: 20 * HOUR <= time < DAY ==> SessionAt(cal, day, time) == Closed
  }

  /** The gap names what the classifier will say after 20:00: an ordinary gap exactly when the
      evening is overnight session, otherwise the evening is closed; unknown only when the
      answer names no later day. */
  ghost predicate GapIsRight(cal: Calendar, day: Date, gap: PostCloseGap, lookahead: seq<CalendarDay>) {
    && (gap == OrdinaryOvernight <==> EveningIsOvernight(cal, day))
    && (gap != OrdinaryOvernight <==> EveningIsClosed(cal, day))
    && (gap == Unknown <==> forall d <- lookahead :: d.date <= day)
  }

  lemma GapMatchesTheEvening(cal: Calendar, day: Date, lastDate: Date, lookahead: seq<CalendarDay>)
    requires day + 14 <= lastDate
    requires WellOrdered(cal) && Answers(cal, day + 1, day + 14, lookahead)
    ensures GapIsRight(cal, day, ClassifyPostCloseGap(day, lastDate, Some(lookahead)), lookahead)
  {
    forall time: nat | 20 * HOUR <= time < DAY
      ensures SessionAt(cal, day, time) == if day + 1 in cal then Overnight else Closed
    {
      OvernightLegs(cal, day, time);
    }
    assert SessionAt(cal, day, 20 * HOUR) == if day + 1 in cal then Overnight else Closed;
    assert day + 1 in cal ==> CalendarDay(day + 1, cal[day + 1]) in lookahead;
  }
}
