/** The scheduled-override evaluator: for a one-time or recurring window and
    an instant `now`, the occurrence in force at `now` (active) and the next
    one to begin (upcoming). */
module Overrides {
  import opened Wrappers
  import opened Instants
  import opened Recurrence

  /** One occurrence of an override window, `[startTime, endTime)`. */
  datatype Period = Period(startTime: Instant, endTime: Instant) {

    function Length(): int {
      endTime - startTime
    }

    /** Start inclusive, end exclusive. */
    predicate Contains(t: Instant) {
      startTime <= t < endTime
    }
  }

  /** The evaluator's answer: the period in force, and the next one. */
  datatype Schedule = Schedule(active: Option<Period>, upcoming: Option<Period>)

  datatype Error =
    | InvalidFrequency(freq: string)
      /** The window is longer than one cycle of its frequency, measured from `now`. */
    | OverrideTooLong(duration: int, unit: Unit, interval: int)
      /** More than one occurrence start lies in the active-lookup window. */
    | BugDetected(anchors: seq<Instant>)

  /** `now` advanced by one unit of `u`, keeping its time of day. */
  function CycleEnd(cal: Calendar, u: Unit, now: Instant): Instant {
    Advance(cal, u, now, 1)
  }

  function OneTimeSchedule(now: Instant, start: Instant, end: Instant): Schedule {
    if now < start then Schedule(None, Some(Period(start, end)))
    else if now < end then Schedule(Some(Period(start, end)), None)
    else Schedule(None, None)
  }

  /** The repeating branch: validate the window against the cycle that begins
      at `now`, then look up the occurrence in force and the next start. */
  function RepeatingSchedule(cal: Calendar, now: Instant, start: Instant, end: Instant, u: Unit,
                             until: Option<Instant>): (r: Result<Schedule, Error>)
    ensures r.Success? && r.value.active.Some? ==>
      r.value.active.value.Length() == end - start && r.value.active.value.Contains(now)
    ensures r.Success? && r.value.upcoming.Some? ==>
      r.value.upcoming.value.Length() == end - start && now < r.value.upcoming.value.startTime
  {
    var later := CycleEnd(cal, u, now);
    var interval := later - now;
    var duration := end - start;
    if duration > interval then Failure(OverrideTooLong(duration, u, interval))
    else
      var rule := Rule(u, start, until);
      var starts := Between(cal, rule, now - duration + 1, now);
      if |starts| > 1 then Failure(BugDetected(starts))
      else
        var next := Between(cal, rule, now + 1, later);
        Success(Schedule(ActivePeriod(starts, duration), UpcomingPeriod(next, duration)))
  }

  /** The active period for the anchors found in the active-lookup interval:
      present only when there is exactly one. */
  function ActivePeriod(starts: seq<Instant>, duration: int): Option<Period> {
    if |starts| == 1 then Some(Period(starts[0], starts[0] + duration)) else None
  }

  /** The upcoming period: the first anchor found after `now`, if any. */
  function UpcomingPeriod(next: seq<Instant>, duration: int): Option<Period> {
    if |next| > 0 then Some(Period(next[0], next[0] + duration)) else None
  }

  /** The evaluator. `until` is `None` when the recurrence is unbounded;
      `cal` supplies month and year stepping. Every period it returns has the
      override's length; the active one contains `now` and the upcoming one
      begins strictly after `now`. */
  function Calculate(cal: Calendar, now: Instant, start: Instant, end: Instant, freq: string,
                     until: Option<Instant>): (r: Result<Schedule, Error>)
    ensures r.Failure? && r.error.InvalidFrequency? <==> ParseFrequency(freq).None?
    ensures r.Failure? && r.error.InvalidFrequency? ==> r.error.freq == freq
    ensures r.Success? && r.value.active.Some? ==>
      r.value.active.value.Length() == end - start && r.value.active.value.Contains(now)
    ensures r.Success? && r.value.upcoming.Some? ==>
      r.value.upcoming.value.Length() == end - start && now < r.value.upcoming.value.startTime
  {
    match ParseFrequency(freq)
    case None => Failure(InvalidFrequency(freq))
    case Some(OneTime) => Success(OneTimeSchedule(now, start, end))
    case Some(Repeat(u)) => RepeatingSchedule(cal, now, start, end, u, until)
  }

  /** `a` starts an occurrence whose period contains `now`. */
  ghost predicate InForce(cal: Calendar, rule: Rule, now: Instant, duration: int, a: Instant) {
    IsAnchor(cal, rule, a) && a <= now < a + duration
  }

  /** `b` is the earliest occurrence start in `(now, later]`. */
  ghost predicate NextStart(cal: Calendar, rule: Rule, now: Instant, later: Instant, b: Instant) {
    && IsAnchor(cal, rule, b) && now < b <= later
    && forall c :: IsAnchor(cal, rule, c) && now < c <= later ==> b <= c
  }

  /** Two distinct occurrences are in force at `now`. */
  ghost predicate TwoOccurrencesInForce(cal: Calendar, rule: Rule, now: Instant, duration: int) {
    exists a, b :: a < b && InForce(cal, rule, now, duration, a) && InForce(cal, rule, now, duration, b)
  }

  /** `active` reports exactly the occurrence in force: it is `[a, a + duration)`
      for an `a` iff `a` is in force, and empty iff none is. */
  ghost predicate ReportsInForce(cal: Calendar, rule: Rule, now: Instant, duration: int, active: Option<Period>) {
    && (forall a :: active == Some(Period(a, a + duration)) <==> InForce(cal, rule, now, duration, a))
    && (active.None? <==> forall a :: !InForce(cal, rule, now, duration, a))
  }

  /** `upcoming` reports exactly the earliest anchor in `(now, later]`, and is
      empty iff there is none. */
  ghost predicate ReportsNextStart(cal: Calendar, rule: Rule, now: Instant, later: Instant, duration: int,
                                   upcoming: Option<Period>) {
    && (forall b :: upcoming == Some(Period(b, b + duration)) <==> NextStart(cal, rule, now, later, b))
    && (upcoming.None? <==> forall b :: !(IsAnchor(cal, rule, b) && now < b <= later))
  }

  /** At most one optional period reports the occurrence in force. */
  lemma ReportsInForceUnique(cal: Calendar, rule: Rule, now: Instant, duration: int, x: Option<Period>, y: Option<Period>)
    requires ReportsInForce(cal, rule, now, duration, x) && ReportsInForce(cal, rule, now, duration, y)
    ensures x == y
  {
    if x.Some? {
      var a :| InForce(cal, rule, now, duration, a);
      assert x == Some(Period(a, a + duration));
    }
  }

  /** At most one optional period of length `duration` reports the next start. */
  lemma ReportsNextStartUnique(cal: Calendar, rule: Rule, now: Instant, later: Instant, duration: int,
                               x: Option<Period>, y: Option<Period>)
    requires ReportsNextStart(cal, rule, now, later, duration, x) && ReportsNextStart(cal, rule, now, later, duration, y)
    requires x.Some? ==> x.value.Length() == duration
    ensures x == y
  {
    if x.Some? {
      var b := x.value.startTime;
      assert x == Some(Period(b, b + duration));
      assert NextStart(cal, rule, now, later, b);
    }
  }

  /** Two anchors lie in the active-lookup interval exactly when two
      occurrences are in force. */
  lemma TwoInForce(cal: Calendar, rule: Rule, now: Instant, duration: int)
    requires Sound(cal, rule.unit)
    ensures 1 < |Between(cal, rule, now - duration + 1, now)| <==> TwoOccurrencesInForce(cal, rule, now, duration)
  {
    var lo := now - duration + 1;
    BetweenHasTwo(cal, rule, lo, now);
    if 1 < |Between(cal, rule, lo, now)| {
      var a, b :| a < b && IsAnchor(cal, rule, a) && lo <= a <= now && IsAnchor(cal, rule, b) && lo <= b <= now;
      assert InForce(cal, rule, now, duration, a) && InForce(cal, rule, now, duration, b);
    }
    if TwoOccurrencesInForce(cal, rule, now, duration) {
      var a, b :| a < b && InForce(cal, rule, now, duration, a) && InForce(cal, rule, now, duration, b);
      assert IsAnchor(cal, rule, a) && lo <= a <= now && IsAnchor(cal, rule, b) && lo <= b <= now;
    }
  }

  /** When at most one anchor lies in the active-lookup interval, the active
      period built from it reports the occurrence in force. */
  lemma ActiveLookup(cal: Calendar, rule: Rule, now: Instant, duration: int, active: Option<Period>)
    requires Sound(cal, rule.unit)
    requires |Between(cal, rule, now - duration + 1, now)| <= 1
    requires active == ActivePeriod(Between(cal, rule, now - duration + 1, now), duration)
    ensures ReportsInForce(cal, rule, now, duration, active)
  {
    var lo := now - duration + 1;
    var starts := Between(cal, rule, lo, now);
    BetweenAtMostOne(cal, rule, lo, now);
    forall a
      ensures active == Some(Period(a, a + duration)) <==> InForce(cal, rule, now, duration, a)
      ensures active.None? ==> !InForce(cal, rule, now, duration, a)
    {
      assert InForce(cal, rule, now, duration, a) <==> IsAnchor(cal, rule, a) && lo <= a <= now;
    }
    if active.Some? {
      assert InForce(cal, rule, now, duration, starts[0]);
    }
  }

  /** The upcoming period built from the first anchor in `(now, later]`
      reports the next start. */
  lemma UpcomingLookup(cal: Calendar, rule: Rule, now: Instant, later: Instant, duration: int,
                        upcoming: Option<Period>)
    requires Sound(cal, rule.unit)
    requires upcoming == UpcomingPeriod(Between(cal, rule, now + 1, later), duration)
    ensures ReportsNextStart(cal, rule, now, later, duration, upcoming)
  {
    var next := Between(cal, rule, now + 1, later);
    BetweenFirst(cal, rule, now + 1, later);
    forall b
      ensures upcoming == Some(Period(b, b + duration)) <==> NextStart(cal, rule, now, later, b)
    {
      if NextStart(cal, rule, now, later, b) {
        assert 0 < |next|;
        assert next[0] <= b && b <= next[0];
      }
    }
  }

  /** The next start never moves backwards as `now` advances, whatever the
      two cycle ends. */
  lemma NextStartMonotone(cal: Calendar, rule: Rule, now1: Instant, later1: Instant, now2: Instant, later2: Instant,
                          b1: Instant, b2: Instant)
    requires now1 <= now2
    requires NextStart(cal, rule, now1, later1, b1) && NextStart(cal, rule, now2, later2, b2)
    ensures b1 <= b2
  {
    if b2 <= later1 {
      assert IsAnchor(cal, rule, b2) && now1 < b2 <= later1;
    }
  }

  // ---- One-time windows --------------------------------------------------

  lemma OneTimeNotStarted(cal: Calendar, now: Instant, start: Instant, end: Instant, until: Option<Instant>)
    requires now < start
    ensures Calculate(cal, now, start, end, "", until) == Success(Schedule(None, Some(Period(start, end))))
  {
  }

  /** The start is inclusive. */
  lemma OneTimeInProgress(cal: Calendar, now: Instant, start: Instant, end: Instant, until: Option<Instant>)
    requires start <= now < end
    ensures Calculate(cal, now, start, end, "", until) == Success(Schedule(Some(Period(start, end)), None))
  {
  }

  /** The end is exclusive, and an exhausted window is not an error. */
  lemma OneTimeFinished(cal: Calendar, now: Instant, start: Instant, end: Instant, until: Option<Instant>)
    requires start <= now && end <= now
    ensures Calculate(cal, now, start, end, "", until) == Success(Schedule(None, None))
  {
  }

  /** Before its end, exactly one of active and upcoming is reported. */
  lemma OneTimeExclusive(cal: Calendar, now: Instant, start: Instant, end: Instant, until: Option<Instant>)
    requires start < end
    ensures var r := Calculate(cal, now, start, end, "", until);
      && r.Success?
      && (now < end <==> (r.value.active.Some? != r.value.upcoming.Some?))
      && (end <= now <==> r.value == Schedule(None, None))
  {
  }

  // ---- Validation --------------------------------------------------------

  /** Only the five spellings are accepted; an error carries no periods. */
  lemma InvalidFrequencyRejected(cal: Calendar, now: Instant, start: Instant, end: Instant, freq: string,
                                 until: Option<Instant>)
    ensures freq !in {"", "Daily", "Weekly", "Monthly", "Yearly"} <==>
      Calculate(cal, now, start, end, freq, until) == Failure(InvalidFrequency(freq))
  {
  }

  /** A repeating window longer than the cycle that begins at `now` is refused. */
  lemma OverrideTooLongRejected(cal: Calendar, now: Instant, start: Instant, end: Instant, u: Unit,
                                until: Option<Instant>)
    ensures var interval := CycleEnd(cal, u, now) - now;
      && (end - start > interval <==>
          Calculate(cal, now, start, end, FrequencyName(Repeat(u)), until)
            == Failure(OverrideTooLong(end - start, u, interval)))
  {
    ParseFrequencyName(Repeat(u));
  }

  // ---- Repeating windows -------------------------------------------------
  //
  // The lemmas below are stated on the repeating branch; `CalculateRepeat`
  // carries each of them over to `Calculate` for the four recurring spellings.

  /** A recurring frequency name dispatches to the repeating branch. */
  lemma CalculateRepeat(cal: Calendar, now: Instant, start: Instant, end: Instant, u: Unit,
                        until: Option<Instant>)
    ensures Calculate(cal, now, start, end, FrequencyName(Repeat(u)), until)
      == RepeatingSchedule(cal, now, start, end, u, until)
  {
    ParseFrequencyName(Repeat(u));
  }

  /** The defensive check fires exactly when two occurrences are in force. */
  lemma BugDetectedWhenTwoInForce(cal: Calendar, now: Instant, start: Instant, end: Instant, u: Unit,
                                  until: Option<Instant>)
    requires Sound(cal, u)
    ensures var r := RepeatingSchedule(cal, now, start, end, u, until);
      var rule := Rule(u, start, until);
      var duration := end - start;
      (r.Failure? && r.error.BugDetected?) <==>
        && duration <= CycleEnd(cal, u, now) - now
        && TwoOccurrencesInForce(cal, rule, now, duration)
  {
    TwoInForce(cal, Rule(u, start, until), now, end - start);
  }

  /** A successful active lookup reports exactly the occurrence in force. */
  lemma ActiveIsTheOccurrenceInForce(cal: Calendar, now: Instant, start: Instant, end: Instant, u: Unit,
                                     until: Option<Instant>)
    requires Sound(cal, u)
    ensures var r := RepeatingSchedule(cal, now, start, end, u, until);
      r.Success? ==> ReportsInForce(cal, Rule(u, start, until), now, end - start, r.value.active)
  {
    var r := RepeatingSchedule(cal, now, start, end, u, until);
    if r.Success? {
      ActiveLookup(cal, Rule(u, start, until), now, end - start, r.value.active);
    }
  }

  /** A successful upcoming lookup reports the earliest occurrence start
      strictly after `now` and within one cycle; an occurrence starting at
      `now` itself is active, never upcoming. */
  lemma UpcomingIsTheNextStart(cal: Calendar, now: Instant, start: Instant, end: Instant, u: Unit,
                               until: Option<Instant>)
    requires Sound(cal, u)
    ensures var r := RepeatingSchedule(cal, now, start, end, u, until);
      r.Success? ==> ReportsNextStart(cal, Rule(u, start, until), now, CycleEnd(cal, u, now), end - start, r.value.upcoming)
  {
    var r := RepeatingSchedule(cal, now, start, end, u, until);
    if r.Success? {
      UpcomingLookup(cal, Rule(u, start, until), now, CycleEnd(cal, u, now), end - start, r.value.upcoming);
    }
  }

  /** When any two occurrence starts are at least the override's length
      apart, the defensive check never fires. */
  lemma SpacedNeverBug(cal: Calendar, now: Instant, start: Instant, end: Instant, u: Unit,
                       until: Option<Instant>)
    requires Sound(cal, u)
    requires forall i: nat, j: nat | i < j ::
      Occurrence(cal, Rule(u, start, until), i) + (end - start) <= Occurrence(cal, Rule(u, start, until), j)
    ensures var r := RepeatingSchedule(cal, now, start, end, u, until);
      !(r.Failure? && r.error.BugDetected?)
  {
    var rule := Rule(u, start, until);
    var duration := end - start;
    BugDetectedWhenTwoInForce(cal, now, start, end, u, until);
    forall a, b | a < b && InForce(cal, rule, now, duration, a)
      ensures !InForce(cal, rule, now, duration, b)
    {
      if IsAnchor(cal, rule, b) {
        var i: nat :| Occurrence(cal, rule, i) == a;
        var j: nat :| Occurrence(cal, rule, j) == b;
        OccurrenceMonotone(cal, rule, j, i);
      }
    }
  }

  /** Daily and weekly windows never trip the defensive check. */
  lemma FixedStepNeverBug(cal: Calendar, now: Instant, start: Instant, end: Instant, u: Unit,
                          until: Option<Instant>)
    requires u.IsFixed()
    ensures var r := RepeatingSchedule(cal, now, start, end, u, until);
      !(r.Failure? && r.error.BugDetected?)
  {
    var rule := Rule(u, start, until);
    var step := u.StepTicks();
    assert CycleEnd(cal, u, now) - now == step;
    if end - start <= step {
      forall i: nat, j: nat | i < j
        ensures Occurrence(cal, rule, i) + (end - start) <= Occurrence(cal, rule, j)
      {
        assert (j - i) * step >= step;
        assert Occurrence(cal, rule, j) - Occurrence(cal, rule, i) == (j - i) * step;
      }
      SpacedNeverBug(cal, now, start, end, u, until);
    }
  }

  /** Inside the last occurrence `until` permits, nothing is upcoming. */
  lemma InsideLastOccurrence(cal: Calendar, now: Instant, start: Instant, end: Instant, u: Unit,
                             until: Option<Instant>, k: nat)
    requires Sound(cal, u)
    requires Permits(until, Occurrence(cal, Rule(u, start, until), k))
    requires !Permits(until, Occurrence(cal, Rule(u, start, until), k + 1))
    requires Occurrence(cal, Rule(u, start, until), k) <= now < Occurrence(cal, Rule(u, start, until), k) + (end - start)
    ensures var r := RepeatingSchedule(cal, now, start, end, u, until);
      var a := Occurrence(cal, Rule(u, start, until), k);
      r.Success? ==> r.value.active == Some(Period(a, a + (end - start))) && r.value.upcoming == None
  {
    var rule := Rule(u, start, until);
    var a := Occurrence(cal, rule, k);
    ActiveIsTheOccurrenceInForce(cal, now, start, end, u, until);
    UpcomingIsTheNextStart(cal, now, start, end, u, until);
    var next: nat := k + 1;
    assert InForce(cal, rule, now, end - start, a);
    forall j: nat
      ensures now < Occurrence(cal, rule, j) ==> !Permits(until, Occurrence(cal, rule, j))
    {
      OccurrenceMonotone(cal, rule, j, k);
      OccurrenceMonotone(cal, rule, next, j);
    }
  }

  /** Once every occurrence `until` permits has ended, nothing is active or
      upcoming, and the window is otherwise valid. */
  lemma UntilExhausted(cal: Calendar, now: Instant, start: Instant, end: Instant, u: Unit,
                       until: Option<Instant>)
    requires Sound(cal, u)
    requires start < end
    requires forall k: nat :: Permits(until, Occurrence(cal, Rule(u, start, until), k)) ==>
      Occurrence(cal, Rule(u, start, until), k) + (end - start) <= now
    ensures var r := RepeatingSchedule(cal, now, start, end, u, until);
      end - start <= CycleEnd(cal, u, now) - now <==> r == Success(Schedule(None, None))
  {
    var rule := Rule(u, start, until);
    BugDetectedWhenTwoInForce(cal, now, start, end, u, until);
    ActiveIsTheOccurrenceInForce(cal, now, start, end, u, until);
    UpcomingIsTheNextStart(cal, now, start, end, u, until);
    forall a | IsAnchor(cal, rule, a)
      ensures a + (end - start) <= now
    {
      var j: nat :| Occurrence(cal, rule, j) == a;
    }
  }

  /** A successful upcoming period starts at the next start. */
  lemma UpcomingStartsNext(cal: Calendar, now: Instant, start: Instant, end: Instant, u: Unit,
                           until: Option<Instant>)
    requires Sound(cal, u)
    ensures var r := RepeatingSchedule(cal, now, start, end, u, until);
      r.Success? && r.value.upcoming.Some? ==>
        NextStart(cal, Rule(u, start, until), now, CycleEnd(cal, u, now), r.value.upcoming.value.startTime)
  {
    var r := RepeatingSchedule(cal, now, start, end, u, until);
    if r.Success? && r.value.upcoming.Some? {
      var b := r.value.upcoming.value.startTime;
      UpcomingIsTheNextStart(cal, now, start, end, u, until);
      assert r.value.upcoming == Some(Period(b, b + (end - start)));
    }
  }

  /** As `now` advances, the upcoming start never moves backwards. */
  lemma UpcomingMonotone(cal: Calendar, now1: Instant, now2: Instant, start: Instant, end: Instant, u: Unit,
                         until: Option<Instant>)
    requires Sound(cal, u)
    requires now1 <= now2
    ensures var r1 := RepeatingSchedule(cal, now1, start, end, u, until);
      var r2 := RepeatingSchedule(cal, now2, start, end, u, until);
      r1.Success? && r2.Success? && r1.value.upcoming.Some? && r2.value.upcoming.Some? ==>
        r1.value.upcoming.value.startTime <= r2.value.upcoming.value.startTime
  {
    var r1 := RepeatingSchedule(cal, now1, start, end, u, until);
    var r2 := RepeatingSchedule(cal, now2, start, end, u, until);
    UpcomingStartsNext(cal, now1, start, end, u, until);
    UpcomingStartsNext(cal, now2, start, end, u, until);
    if r1.Success? && r2.Success? && r1.value.upcoming.Some? && r2.value.upcoming.Some? {
      NextStartMonotone(cal, Rule(u, start, until), now1, CycleEnd(cal, u, now1), now2, CycleEnd(cal, u, now2),
                        r1.value.upcoming.value.startTime, r2.value.upcoming.value.startTime);
    }
  }
}
