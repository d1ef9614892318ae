/** Daily and weekly overrides in closed form: with a fixed step, the
    occurrence in force and the next one follow from one floor division. */
module FixedStep {
  import opened Wrappers
  import opened Instants
  import opened Recurrence
  import opened Overrides

  /** The schedule of a window of `duration` recurring every `step` ticks from
      `start`: `k` counts the whole steps since `start`, `a` is the latest
      start at or before `now` and `b` the earliest one after it. */
  function Reference(now: Instant, start: Instant, duration: int, step: int, until: Option<Instant>): Schedule
    requires step > 0
  {
    var a := LatestStart(now, start, step);
    var b := if now < start then start else a + step;
    Schedule(
      if start <= now && now < a + duration && Permits(until, a) then Some(Period(a, a + duration)) else None,
      if b <= now + step && Permits(until, b) then Some(Period(b, b + duration)) else None)
  }

  /** `start` plus the whole steps that fit between it and `now`. */
  function LatestStart(now: Instant, start: Instant, step: int): Instant
    requires step > 0
  {
    start + ((now - start) / step) * step
  }

  lemma MulMono(i: int, j: int, step: int)
    requires i <= j && 0 <= step
    ensures i * step <= j * step
  {
    assert (j - i) * step >= 0;
  }

  /** `j` whole steps fit in `x` exactly when `j` is at most `x / step`. */
  lemma FloorIndex(x: int, step: int, j: int)
    requires step > 0
    ensures j * step <= x <==> j <= x / step
  {
    var k := x / step;
    assert k * step <= x < k * step + step;
    if j <= k {
      MulMono(j, k, step);
    } else {
      MulMono(k + 1, j, step);
    }
  }

  lemma FixedOccurrence(cal: Calendar, rule: Rule, j: nat)
    requires rule.unit.IsFixed()
    ensures Occurrence(cal, rule, j) == rule.dtstart + j * rule.unit.StepTicks()
  {
  }

  /** The anchors in force are exactly the reference's active start. */
  lemma InForceFixed(cal: Calendar, now: Instant, start: Instant, duration: int, u: Unit, until: Option<Instant>, c: Instant)
    requires u.IsFixed() && duration <= u.StepTicks()
    ensures InForce(cal, Rule(u, start, until), now, duration, c) <==>
      c == LatestStart(now, start, u.StepTicks()) && start <= now && now < c + duration && Permits(until, c)
  {
    var rule := Rule(u, start, until);
    var step := u.StepTicks();
    var x := now - start;
    var k := x / step;
    var a := start + k * step;
    FloorIndex(x, step, k + 1);
    if InForce(cal, rule, now, duration, c) {
      var j: nat :| Occurrence(cal, rule, j) == c;
      FixedOccurrence(cal, rule, j);
      FloorIndex(x, step, j);
      MulMono(0, j, step);
      if j < k {
        MulMono(j, k - 1, step);
      }
      assert j == k;
    }
    if c == a && start <= now && now < c + duration && Permits(until, c) {
      FloorIndex(x, step, 0);
      var kn: nat := k;
      FixedOccurrence(cal, rule, kn);
      assert Occurrence(cal, rule, kn) == c;
    }
  }

  /** Every anchor after `now` is at or beyond the reference's next start,
      which is itself an occurrence start after `now`. */
  lemma NextFixed(cal: Calendar, now: Instant, start: Instant, u: Unit, until: Option<Instant>)
    requires u.IsFixed()
    ensures var step := u.StepTicks();
      var k := (now - start) / step;
      var b := if now < start then start else start + k * step + step;
      && now < b
      && (exists j: nat :: Occurrence(cal, Rule(u, start, until), j) == b)
      && forall c :: IsAnchor(cal, Rule(u, start, until), c) && now < c ==> b <= c
  {
    var rule := Rule(u, start, until);
    var step := u.StepTicks();
    var x := now - start;
    var k := x / step;
    var b := if now < start then start else start + k * step + step;
    FloorIndex(x, step, k + 1);
    if now < start {
      FixedOccurrence(cal, rule, 0);
    } else {
      FloorIndex(x, step, 0);
      var kn: nat := k + 1;
      FixedOccurrence(cal, rule, kn);
      assert Occurrence(cal, rule, kn) == b;
    }
    forall c | IsAnchor(cal, rule, c) && now < c
      ensures b <= c
    {
      var j: nat :| Occurrence(cal, rule, j) == c;
      FixedOccurrence(cal, rule, j);
      MulMono(0, j, step);
      FloorIndex(x, step, j);
      if now >= start {
        MulMono(k + 1, j, step);
      }
    }
  }

  /** The reference's upcoming start is the earliest anchor in the next cycle. */
  lemma NextStartFixed(cal: Calendar, now: Instant, later: Instant, start: Instant, duration: int, u: Unit,
                       until: Option<Instant>, upcoming: Option<Period>)
    requires u.IsFixed() && later == now + u.StepTicks()
    requires upcoming == Reference(now, start, duration, u.StepTicks(), until).upcoming
    ensures ReportsNextStart(cal, Rule(u, start, until), now, later, duration, upcoming)
  {
    var rule := Rule(u, start, until);
    var step := u.StepTicks();
    var k := (now - start) / step;
    var b := if now < start then start else start + k * step + step;
    var ref := Reference(now, start, duration, step, until);
    NextFixed(cal, now, start, u, until);
    assert ref.upcoming == if b <= later && Permits(until, b) then Some(Period(b, b + duration)) else None;
    assert b <= later && Permits(until, b) ==> IsAnchor(cal, rule, b);
    forall c
      ensures NextStart(cal, rule, now, later, c) <==> ref.upcoming == Some(Period(c, c + duration))
    {
      if NextStart(cal, rule, now, later, c) {
        assert b <= c;
        assert IsAnchor(cal, rule, b);
      }
    }
  }

  /** The reference's active period is exactly the occurrence in force. */
  lemma ActiveFixed(cal: Calendar, now: Instant, start: Instant, duration: int, u: Unit, until: Option<Instant>,
                    active: Option<Period>)
    requires u.IsFixed() && duration <= u.StepTicks()
    requires active == Reference(now, start, duration, u.StepTicks(), until).active
    ensures ReportsInForce(cal, Rule(u, start, until), now, duration, active)
  {
    var ref := Reference(now, start, duration, u.StepTicks(), until);
    var a := LatestStart(now, start, u.StepTicks());
    assert ref.active ==
      if start <= now && now < a + duration && Permits(until, a) then Some(Period(a, a + duration)) else None;
    forall c
      ensures ref.active == Some(Period(c, c + duration)) <==> InForce(cal, Rule(u, start, until), now, duration, c)
      ensures ref.active.None? ==> !InForce(cal, Rule(u, start, until), now, duration, c)
    {
      InForceFixed(cal, now, start, duration, u, until, c);
    }
    if ref.active.Some? {
      InForceFixed(cal, now, start, duration, u, until, a);
      assert InForce(cal, Rule(u, start, until), now, duration, a);
    }
  }

  lemma ActiveMatches(cal: Calendar, now: Instant, start: Instant, end: Instant, u: Unit, until: Option<Instant>)
    requires u.IsFixed() && end - start <= u.StepTicks()
    ensures var r := RepeatingSchedule(cal, now, start, end, u, until);
      r.Success? ==> r.value.active == Reference(now, start, end - start, u.StepTicks(), until).active
  {
    var r := RepeatingSchedule(cal, now, start, end, u, until);
    if r.Success? {
      var rule := Rule(u, start, until);
      var x := r.value.active;
      var y := Reference(now, start, end - start, u.StepTicks(), until).active;
      ActiveIsTheOccurrenceInForce(cal, now, start, end, u, until);
      ActiveFixed(cal, now, start, end - start, u, until, y);
      ReportsInForceUnique(cal, rule, now, end - start, x, y);
    }
  }

  lemma UpcomingMatches(cal: Calendar, now: Instant, start: Instant, end: Instant, u: Unit, until: Option<Instant>)
    requires u.IsFixed()
    ensures var r := RepeatingSchedule(cal, now, start, end, u, until);
      r.Success? ==> r.value.upcoming == Reference(now, start, end - start, u.StepTicks(), until).upcoming
  {
    var r := RepeatingSchedule(cal, now, start, end, u, until);
    if r.Success? {
      var rule := Rule(u, start, until);
      var later := CycleEnd(cal, u, now);
      var x := r.value.upcoming;
      var y := Reference(now, start, end - start, u.StepTicks(), until).upcoming;
      UpcomingIsTheNextStart(cal, now, start, end, u, until);
      NextStartFixed(cal, now, later, start, end - start, u, until, y);
      ReportsNextStartUnique(cal, rule, now, later, end - start, x, y);
    }
  }

  /** For a daily or weekly recurrence the evaluator agrees with the closed
      form on every input, the refusal of an over-long window included. */
  lemma MatchesReference(cal: Calendar, now: Instant, start: Instant, end: Instant, u: Unit, until: Option<Instant>)
    requires u.IsFixed()
    ensures Calculate(cal, now, start, end, FrequencyName(Repeat(u)), until) ==
      if end - start > u.StepTicks() then Failure(OverrideTooLong(end - start, u, u.StepTicks()))
      else Success(Reference(now, start, end - start, u.StepTicks(), until))
  {
    var step := u.StepTicks();
    var r := RepeatingSchedule(cal, now, start, end, u, until);
    assert CycleEnd(cal, u, now) == now + step;
    CalculateRepeat(cal, now, start, end, u, until);
    if end - start <= step {
      FixedStepNeverBug(cal, now, start, end, u, until);
      assert r.Success?;
      ActiveMatches(cal, now, start, end, u, until);
      UpcomingMatches(cal, now, start, end, u, until);
    }
  }

  /** The step count of an exact multiple. */
  lemma ExactSteps(step: int, k: int, rest: int)
    requires step > 0 && 0 <= rest < step
    ensures (k * step + rest) / step == k
  {
    FloorIndex(k * step + rest, step, k);
    FloorIndex(k * step + rest, step, k + 1);
  }

  /** The closed form at the `k`-th start. */
  lemma ReferenceAtStart(now: Instant, start: Instant, duration: int, step: int, until: Option<Instant>, k: nat)
    requires 0 < duration <= step
    requires now == start + k * step && Permits(until, now)
    ensures Reference(now, start, duration, step, until) ==
      Schedule(Some(Period(now, now + duration)),
        if Permits(until, now + step) then Some(Period(now + step, now + step + duration)) else None)
  {
    ExactSteps(step, k, 0);
    MulMono(0, k, step);
    assert LatestStart(now, start, step) == now;
  }

  /** The closed form at the `k`-th end. */
  lemma ReferenceAtEnd(now: Instant, next: Instant, start: Instant, duration: int, step: int, until: Option<Instant>, k: nat)
    requires 0 < duration < step
    requires now == start + duration + k * step && next == start + k * step + step
    ensures Reference(now, start, duration, step, until) ==
      Schedule(None, if Permits(until, next) then Some(Period(next, next + duration)) else None)
  {
    ExactSteps(step, k, duration);
    MulMono(0, k, step);
    assert LatestStart(now, start, step) == start + k * step;
  }

  /** At the `k`-th start the `k`-th occurrence is active and the next one,
      a full step later, is upcoming. */
  lemma AtOccurrenceStart(cal: Calendar, now: Instant, start: Instant, end: Instant, u: Unit,
                          until: Option<Instant>, k: nat)
    requires u.IsFixed() && end - start <= u.StepTicks()
    requires start < end
    requires now == start + k * u.StepTicks() && Permits(until, now)
    ensures var next := now + u.StepTicks();
      Calculate(cal, now, start, end, FrequencyName(Repeat(u)), until) ==
        Success(Schedule(Some(Period(now, now + (end - start))),
          if Permits(until, next) then Some(Period(next, next + (end - start))) else None))
  {
    ReferenceAtStart(now, start, end - start, u.StepTicks(), until, k);
    MatchesReference(cal, now, start, end, u, until);
  }

  /** At the `k`-th end nothing is active and the next occurrence is upcoming. */
  lemma AtOccurrenceEnd(cal: Calendar, now: Instant, start: Instant, end: Instant, u: Unit,
                        until: Option<Instant>, k: nat)
    requires u.IsFixed() && end - start < u.StepTicks()
    requires start < end
    requires now == end + k * u.StepTicks()
    ensures var next := start + (k + 1) * u.StepTicks();
      Calculate(cal, now, start, end, FrequencyName(Repeat(u)), until) ==
        Success(Schedule(None, if Permits(until, next) then Some(Period(next, next + (end - start))) else None))
  {
    var step := u.StepTicks();
    var next := start + (k + 1) * step;
    assert next == start + k * step + step;
    ReferenceAtEnd(now, next, start, end - start, step, until, k);
    MatchesReference(cal, now, start, end, u, until);
  }
}
