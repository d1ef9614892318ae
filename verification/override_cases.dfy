/** The evaluator's table of expected schedules, one lemma per row, for an
    override from 2021-05-01 to 2021-05-03 in the +09:00 zone. Monthly and
    yearly rows take as hypotheses the calendar dates they depend on. */
module OverrideCases {
  import opened Wrappers
  import opened Instants
  import opened Recurrence
  import opened Overrides
  import opened FixedStep

  /** 2021-02-01T00:00:00+09:00 */
  const Feb01_2021: Instant := 1612105200 * Second

  /** 2021-03-01T00:00:00+09:00 */
  const Mar01_2021: Instant := 1614524400 * Second

  /** 2021-03-02T00:00:00+09:00 */
  const Mar02_2021: Instant := 1614610800 * Second

  /** 2021-03-04T00:00:00+09:00 */
  const Mar04_2021: Instant := 1614783600 * Second

  /** 2021-04-02T00:00:00+09:00 */
  const Apr02_2021: Instant := 1617289200 * Second

  /** 2021-04-30T23:59:59+09:00 */
  const Apr30_2021_235959: Instant := 1619794799 * Second

  /** 2021-05-01T00:00:00+09:00 */
  const May01_2021: Instant := 1619794800 * Second

  /** 2021-05-02T23:59:59+09:00 */
  const May02_2021_235959: Instant := 1619967599 * Second

  /** 2021-05-03T00:00:00+09:00 */
  const May03_2021: Instant := 1619967600 * Second

  /** 2021-05-07T23:59:59+09:00 */
  const May07_2021_235959: Instant := 1620399599 * Second

  /** 2021-05-08T00:00:00+09:00 */
  const May08_2021: Instant := 1620399600 * Second

  /** 2021-05-09T23:59:59+09:00 */
  const May09_2021_235959: Instant := 1620572399 * Second

  /** 2021-05-10T00:00:00+09:00 */
  const May10_2021: Instant := 1620572400 * Second

  /** 2021-05-15T00:00:00+09:00 */
  const May15_2021: Instant := 1621004400 * Second

  /** 2021-05-17T00:00:00+09:00 */
  const May17_2021: Instant := 1621177200 * Second

  /** 2021-06-01T00:00:00+09:00 */
  const Jun01_2021: Instant := 1622473200 * Second

  /** 2021-06-03T00:00:00+09:00 */
  const Jun03_2021: Instant := 1622646000 * Second

  /** 2021-07-01T00:00:00+09:00 */
  const Jul01_2021: Instant := 1625065200 * Second

  /** 2021-07-03T00:00:00+09:00 */
  const Jul03_2021: Instant := 1625238000 * Second

  /** 2022-04-01T00:00:00+09:00 */
  const Apr01_2022: Instant := 1648738800 * Second

  /** 2022-04-29T23:59:59+09:00 */
  const Apr29_2022_235959: Instant := 1651244399 * Second

  /** 2022-04-30T00:00:00+09:00 */
  const Apr30_2022: Instant := 1651244400 * Second

  /** 2022-04-30T23:59:59+09:00 */
  const Apr30_2022_235959: Instant := 1651330799 * Second

  /** 2022-05-01T00:00:00+09:00 */
  const May01_2022: Instant := 1651330800 * Second

  /** 2022-05-01T00:00:01+09:00 */
  const May01_2022_000001: Instant := 1651330801 * Second

  /** 2022-05-01T23:59:59+09:00 */
  const May01_2022_235959: Instant := 1651417199 * Second

  /** 2022-05-02T00:00:00+09:00 */
  const May02_2022: Instant := 1651417200 * Second

  /** 2022-05-02T23:59:59+09:00 */
  const May02_2022_235959: Instant := 1651503599 * Second

  /** 2022-05-03T00:00:00+09:00 */
  const May03_2022: Instant := 1651503600 * Second

  /** 2022-05-30T23:59:59+09:00 */
  const May30_2022_235959: Instant := 1653922799 * Second

  /** 2022-06-01T00:00:00+09:00 */
  const Jun01_2022: Instant := 1654009200 * Second

  /** 2022-06-01T00:00:01+09:00 */
  const Jun01_2022_000001: Instant := 1654009201 * Second

  /** 2022-06-02T23:59:59+09:00 */
  const Jun02_2022_235959: Instant := 1654181999 * Second

  /** 2022-06-03T00:00:00+09:00 */
  const Jun03_2022: Instant := 1654182000 * Second

  /** 2023-04-30T23:59:59+09:00 */
  const Apr30_2023_235959: Instant := 1682866799 * Second

  /** 2023-05-01T00:00:00+09:00 */
  const May01_2023: Instant := 1682866800 * Second

  /** 2023-05-01T00:00:01+09:00 */
  const May01_2023_000001: Instant := 1682866801 * Second

  /** 2023-05-02T23:23:59+09:00 */
  const May02_2023_232359: Instant := 1683037439 * Second

  /** 2023-05-03T00:00:00+09:00 */
  const May03_2023: Instant := 1683039600 * Second

  /** 2024-04-30T23:59:59+09:00 */
  const Apr30_2024_235959: Instant := 1714489199 * Second

  /** 2024-05-01T00:00:00+09:00 */
  const May01_2024: Instant := 1714489200 * Second

  /** 2024-05-01T00:00:01+09:00 */
  const May01_2024_000001: Instant := 1714489201 * Second

  /** 2024-05-02T23:23:59+09:00 */
  const May02_2024_232359: Instant := 1714659839 * Second

  /** 2024-05-03T00:00:00+09:00 */
  const May03_2024: Instant := 1714662000 * Second

  function P(startTime: Instant, endTime: Instant): Option<Period> {
    Some(Period(startTime, endTime))
  }

  /** The override's own window. */
  const Start: Instant := May01_2021
  const End: Instant := May03_2021
  const Duration: int := End - Start

  // ---- One-time ----------------------------------------------------------

  /** One second before the start: upcoming only. */
  lemma OneTimeIncoming(cal: Calendar)
    ensures Calculate(cal, Apr30_2021_235959, Start, End, "", None) == Success(Schedule(None, P(May01_2021, May03_2021)))
  {
  }

  /** At the start: active. */
  lemma OneTimeStarted(cal: Calendar)
    ensures Calculate(cal, May01_2021, Start, End, "", None) == Success(Schedule(P(May01_2021, May03_2021), None))
  {
  }

  /** One second before the end: still active. */
  lemma OneTimeEnding(cal: Calendar)
    ensures Calculate(cal, May02_2021_235959, Start, End, "", None) == Success(Schedule(P(May01_2021, May03_2021), None))
  {
  }

  /** At the end: nothing. */
  lemma OneTimeEnded(cal: Calendar)
    ensures Calculate(cal, May03_2021, Start, End, "", None) == Success(Schedule(None, None))
  {
  }

  // ---- Weekly, until 2022-05-01 ------------------------------------------

  /** One second before the first start. */
  lemma WeeklyIncoming(cal: Calendar)
    ensures Calculate(cal, Apr30_2021_235959, Start, End, "Weekly", Some(May01_2022)) == Success(Schedule(None, P(May01_2021, May03_2021)))
  {
    assert LatestStart(Apr30_2021_235959, Start, Week) == Start - Week;
    MatchesReference(cal, Apr30_2021_235959, Start, End, Weekly, Some(May01_2022));
  }

  /** At the first start the second occurrence is upcoming. */
  lemma WeeklyStarted(cal: Calendar)
    ensures Calculate(cal, May01_2021, Start, End, "Weekly", Some(May01_2022)) == Success(Schedule(P(May01_2021, May03_2021), P(May08_2021, May10_2021)))
  {
    assert LatestStart(May01_2021, Start, Week) == Start;
    MatchesReference(cal, May01_2021, Start, End, Weekly, Some(May01_2022));
  }

  /** One second before the first end. */
  lemma WeeklyEnding(cal: Calendar)
    ensures Calculate(cal, May02_2021_235959, Start, End, "Weekly", Some(May01_2022)) == Success(Schedule(P(May01_2021, May03_2021), P(May08_2021, May10_2021)))
  {
    assert LatestStart(May02_2021_235959, Start, Week) == Start;
    MatchesReference(cal, May02_2021_235959, Start, End, Weekly, Some(May01_2022));
  }

  /** At the first end. */
  lemma WeeklyEnded(cal: Calendar)
    ensures Calculate(cal, May03_2021, Start, End, "Weekly", Some(May01_2022)) == Success(Schedule(None, P(May08_2021, May10_2021)))
  {
    assert LatestStart(May03_2021, Start, Week) == Start;
    MatchesReference(cal, May03_2021, Start, End, Weekly, Some(May01_2022));
  }

  /** One second before the second start. */
  lemma WeeklyRecurrenceIncoming(cal: Calendar)
    ensures Calculate(cal, May07_2021_235959, Start, End, "Weekly", Some(May01_2022)) == Success(Schedule(None, P(May08_2021, May10_2021)))
  {
    assert LatestStart(May07_2021_235959, Start, Week) == Start;
    MatchesReference(cal, May07_2021_235959, Start, End, Weekly, Some(May01_2022));
  }

  /** At the second start. */
  lemma WeeklyRecurrenceStarted(cal: Calendar)
    ensures Calculate(cal, May08_2021, Start, End, "Weekly", Some(May01_2022)) == Success(Schedule(P(May08_2021, May10_2021), P(May15_2021, May17_2021)))
  {
    assert LatestStart(May08_2021, Start, Week) == May08_2021;
    MatchesReference(cal, May08_2021, Start, End, Weekly, Some(May01_2022));
  }

  /** One second before the second end. */
  lemma WeeklyRecurrenceEnding(cal: Calendar)
    ensures Calculate(cal, May09_2021_235959, Start, End, "Weekly", Some(May01_2022)) == Success(Schedule(P(May08_2021, May10_2021), P(May15_2021, May17_2021)))
  {
    assert LatestStart(May09_2021_235959, Start, Week) == May08_2021;
    MatchesReference(cal, May09_2021_235959, Start, End, Weekly, Some(May01_2022));
  }

  /** At the second end. */
  lemma WeeklyRecurrenceEnded(cal: Calendar)
    ensures Calculate(cal, May10_2021, Start, End, "Weekly", Some(May01_2022)) == Success(Schedule(None, P(May15_2021, May17_2021)))
  {
    assert LatestStart(May10_2021, Start, Week) == May08_2021;
    MatchesReference(cal, May10_2021, Start, End, Weekly, Some(May01_2022));
  }

  /** One second before the last start `until` permits. */
  lemma WeeklyLastIncoming(cal: Calendar)
    ensures Calculate(cal, Apr29_2022_235959, Start, End, "Weekly", Some(May01_2022)) == Success(Schedule(None, P(Apr30_2022, May02_2022)))
  {
    assert LatestStart(Apr29_2022_235959, Start, Week) == Apr30_2022 - Week;
    MatchesReference(cal, Apr29_2022_235959, Start, End, Weekly, Some(May01_2022));
  }

  /** At the last start nothing follows it. */
  lemma WeeklyLastStarted(cal: Calendar)
    ensures Calculate(cal, Apr30_2022, Start, End, "Weekly", Some(May01_2022)) == Success(Schedule(P(Apr30_2022, May02_2022), None))
  {
    assert LatestStart(Apr30_2022, Start, Week) == Apr30_2022;
    MatchesReference(cal, Apr30_2022, Start, End, Weekly, Some(May01_2022));
  }

  /** One second before the last end. */
  lemma WeeklyLastEnding(cal: Calendar)
    ensures Calculate(cal, May01_2022_235959, Start, End, "Weekly", Some(May01_2022)) == Success(Schedule(P(Apr30_2022, May02_2022), None))
  {
    assert LatestStart(May01_2022_235959, Start, Week) == Apr30_2022;
    MatchesReference(cal, May01_2022_235959, Start, End, Weekly, Some(May01_2022));
  }

  /** At the last end: nothing, for good. */
  lemma WeeklyLastEnded(cal: Calendar)
    ensures Calculate(cal, May02_2022, Start, End, "Weekly", Some(May01_2022)) == Success(Schedule(None, None))
  {
    assert LatestStart(May02_2022, Start, Week) == Apr30_2022;
    MatchesReference(cal, May02_2022, Start, End, Weekly, Some(May01_2022));
  }

  /** Without `until`, at the second start. */
  lemma WeeklyForeverStarting(cal: Calendar)
    ensures Calculate(cal, May08_2021, Start, End, "Weekly", None) == Success(Schedule(P(May08_2021, May10_2021), P(May15_2021, May17_2021)))
  {
    assert LatestStart(May08_2021, Start, Week) == May08_2021;
    MatchesReference(cal, May08_2021, Start, End, Weekly, None);
  }

  // ---- Monthly, until 2022-05-01 -----------------------------------------

  /** At the first start the June occurrence is upcoming. */
  lemma MonthlyJustStarting(cal: Calendar)
    requires Stepping(cal.addMonths)
    requires cal.addMonths(May01_2021, 1) == Jun01_2021
    ensures Calculate(cal, May01_2021, Start, End, "Monthly", Some(May01_2022)) == Success(Schedule(P(May01_2021, May03_2021), P(Jun01_2021, Jun03_2021)))
  {
    var rule := Rule(Monthly, Start, Some(May01_2022));
    BetweenOne(cal, rule, May01_2021 - Duration + 1, May01_2021, 0);
    BetweenOne(cal, rule, May01_2021 + 1, Jun01_2021, 1);
  }

  /** At the June start. */
  lemma MonthlyJustRecurring(cal: Calendar)
    requires Stepping(cal.addMonths)
    requires cal.addMonths(May01_2021, 1) == Jun01_2021
    requires cal.addMonths(May01_2021, 2) == Jul01_2021
    requires cal.addMonths(Jun01_2021, 1) == Jul01_2021
    ensures Calculate(cal, Jun01_2021, Start, End, "Monthly", Some(May01_2022)) == Success(Schedule(P(Jun01_2021, Jun03_2021), P(Jul01_2021, Jul03_2021)))
  {
    var rule := Rule(Monthly, Start, Some(May01_2022));
    BetweenOne(cal, rule, Jun01_2021 - Duration + 1, Jun01_2021, 1);
    BetweenOne(cal, rule, Jun01_2021 + 1, Jul01_2021, 2);
  }

  /** One second before the last start `until` permits. */
  lemma MonthlyLastIncoming(cal: Calendar)
    requires Stepping(cal.addMonths)
    requires cal.addMonths(May01_2021, 11) == Apr01_2022
    requires cal.addMonths(May01_2021, 12) == May01_2022
    requires cal.addMonths(Apr30_2022_235959, 1) == May30_2022_235959
    ensures Calculate(cal, Apr30_2022_235959, Start, End, "Monthly", Some(May01_2022)) == Success(Schedule(None, P(May01_2022, May03_2022)))
  {
    var rule := Rule(Monthly, Start, Some(May01_2022));
    BetweenNone(cal, rule, Apr30_2022_235959 - Duration + 1, Apr30_2022_235959, 11);
    BetweenOne(cal, rule, Apr30_2022_235959 + 1, May30_2022_235959, 12);
  }

  /** At the last start. */
  lemma MonthlyLastStarting(cal: Calendar)
    requires Stepping(cal.addMonths)
    requires cal.addMonths(May01_2021, 11) == Apr01_2022
    requires cal.addMonths(May01_2021, 12) == May01_2022
    requires cal.addMonths(May01_2022, 1) == Jun01_2022
    ensures Calculate(cal, May01_2022, Start, End, "Monthly", Some(May01_2022)) == Success(Schedule(P(May01_2022, May03_2022), None))
  {
    var rule := Rule(Monthly, Start, Some(May01_2022));
    BetweenOne(cal, rule, May01_2022 - Duration + 1, May01_2022, 12);
    BetweenNone(cal, rule, May01_2022 + 1, Jun01_2022, 12);
  }

  /** One second after the last start. */
  lemma MonthlyLastStarted(cal: Calendar)
    requires Stepping(cal.addMonths)
    requires cal.addMonths(May01_2021, 11) == Apr01_2022
    requires cal.addMonths(May01_2021, 12) == May01_2022
    requires cal.addMonths(May01_2022_000001, 1) == Jun01_2022_000001
    ensures Calculate(cal, May01_2022_000001, Start, End, "Monthly", Some(May01_2022)) == Success(Schedule(P(May01_2022, May03_2022), None))
  {
    var rule := Rule(Monthly, Start, Some(May01_2022));
    BetweenOne(cal, rule, May01_2022_000001 - Duration + 1, May01_2022_000001, 12);
    BetweenNone(cal, rule, May01_2022_000001 + 1, Jun01_2022_000001, 12);
  }

  /** One second before the last end. */
  lemma MonthlyLastEnding(cal: Calendar)
    requires Stepping(cal.addMonths)
    requires cal.addMonths(May01_2021, 11) == Apr01_2022
    requires cal.addMonths(May01_2021, 12) == May01_2022
    requires cal.addMonths(May02_2022_235959, 1) == Jun02_2022_235959
    ensures Calculate(cal, May02_2022_235959, Start, End, "Monthly", Some(May01_2022)) == Success(Schedule(P(May01_2022, May03_2022), None))
  {
    var rule := Rule(Monthly, Start, Some(May01_2022));
    BetweenOne(cal, rule, May02_2022_235959 - Duration + 1, May02_2022_235959, 12);
    BetweenNone(cal, rule, May02_2022_235959 + 1, Jun02_2022_235959, 12);
  }

  /** At the last end: nothing, for good. */
  lemma MonthlyLastEnded(cal: Calendar)
    requires Stepping(cal.addMonths)
    requires cal.addMonths(May01_2021, 12) == May01_2022
    requires cal.addMonths(May03_2022, 1) == Jun03_2022
    ensures Calculate(cal, May03_2022, Start, End, "Monthly", Some(May01_2022)) == Success(Schedule(None, None))
  {
    var rule := Rule(Monthly, Start, Some(May01_2022));
    BetweenNone(cal, rule, May03_2022 - Duration + 1, May03_2022, 12);
    BetweenNone(cal, rule, May03_2022 + 1, Jun03_2022, 12);
  }

  // ---- Yearly --------------------------------------------------------------

  /** At the first start, until 2022-05-01. */
  lemma YearlyJustStarting(cal: Calendar)
    requires Stepping(cal.addYears)
    requires cal.addYears(May01_2021, 1) == May01_2022
    ensures Calculate(cal, May01_2021, Start, End, "Yearly", Some(May01_2022)) == Success(Schedule(P(May01_2021, May03_2021), P(May01_2022, May03_2022)))
  {
    var rule := Rule(Yearly, Start, Some(May01_2022));
    BetweenOne(cal, rule, May01_2021 - Duration + 1, May01_2021, 0);
    BetweenOne(cal, rule, May01_2021 + 1, May01_2022, 1);
  }

  /** At the 2022 start, until 2023-05-01. */
  lemma YearlyJustRecurring(cal: Calendar)
    requires Stepping(cal.addYears)
    requires cal.addYears(May01_2021, 1) == May01_2022
    requires cal.addYears(May01_2021, 2) == May01_2023
    requires cal.addYears(May01_2022, 1) == May01_2023
    ensures Calculate(cal, May01_2022, Start, End, "Yearly", Some(May01_2023)) == Success(Schedule(P(May01_2022, May03_2022), P(May01_2023, May03_2023)))
  {
    var rule := Rule(Yearly, Start, Some(May01_2023));
    BetweenOne(cal, rule, May01_2022 - Duration + 1, May01_2022, 1);
    BetweenOne(cal, rule, May01_2022 + 1, May01_2023, 2);
  }

  /** One second before the last start. */
  lemma YearlyLastIncoming(cal: Calendar)
    requires Stepping(cal.addYears)
    requires cal.addYears(May01_2021, 1) == May01_2022
    requires cal.addYears(May01_2021, 2) == May01_2023
    requires cal.addYears(Apr30_2023_235959, 1) == Apr30_2024_235959
    ensures Calculate(cal, Apr30_2023_235959, Start, End, "Yearly", Some(May01_2023)) == Success(Schedule(None, P(May01_2023, May03_2023)))
  {
    var rule := Rule(Yearly, Start, Some(May01_2023));
    BetweenNone(cal, rule, Apr30_2023_235959 - Duration + 1, Apr30_2023_235959, 1);
    BetweenOne(cal, rule, Apr30_2023_235959 + 1, Apr30_2024_235959, 2);
  }

  /** At the last start. */
  lemma YearlyLastStarting(cal: Calendar)
    requires Stepping(cal.addYears)
    requires cal.addYears(May01_2021, 1) == May01_2022
    requires cal.addYears(May01_2021, 2) == May01_2023
    requires cal.addYears(May01_2023, 1) == May01_2024
    ensures Calculate(cal, May01_2023, Start, End, "Yearly", Some(May01_2023)) == Success(Schedule(P(May01_2023, May03_2023), None))
  {
    var rule := Rule(Yearly, Start, Some(May01_2023));
    BetweenOne(cal, rule, May01_2023 - Duration + 1, May01_2023, 2);
    BetweenNone(cal, rule, May01_2023 + 1, May01_2024, 2);
  }

  /** One second after the last start. */
  lemma YearlyLastStarted(cal: Calendar)
    requires Stepping(cal.addYears)
    requires cal.addYears(May01_2021, 1) == May01_2022
    requires cal.addYears(May01_2021, 2) == May01_2023
    requires cal.addYears(May01_2023_000001, 1) == May01_2024_000001
    ensures Calculate(cal, May01_2023_000001, Start, End, "Yearly", Some(May01_2023)) == Success(Schedule(P(May01_2023, May03_2023), None))
  {
    var rule := Rule(Yearly, Start, Some(May01_2023));
    BetweenOne(cal, rule, May01_2023_000001 - Duration + 1, May01_2023_000001, 2);
    BetweenNone(cal, rule, May01_2023_000001 + 1, May01_2024_000001, 2);
  }

  /** Late on the last day of the last occurrence. */
  lemma YearlyLastEnding(cal: Calendar)
    requires Stepping(cal.addYears)
    requires cal.addYears(May01_2021, 1) == May01_2022
    requires cal.addYears(May01_2021, 2) == May01_2023
    requires cal.addYears(May02_2023_232359, 1) == May02_2024_232359
    ensures Calculate(cal, May02_2023_232359, Start, End, "Yearly", Some(May01_2023)) == Success(Schedule(P(May01_2023, May03_2023), None))
  {
    var rule := Rule(Yearly, Start, Some(May01_2023));
    BetweenOne(cal, rule, May02_2023_232359 - Duration + 1, May02_2023_232359, 2);
    BetweenNone(cal, rule, May02_2023_232359 + 1, May02_2024_232359, 2);
  }

  /** At the last end: nothing, for good. */
  lemma YearlyLastEnded(cal: Calendar)
    requires Stepping(cal.addYears)
    requires cal.addYears(May01_2021, 2) == May01_2023
    requires cal.addYears(May03_2023, 1) == May03_2024
    ensures Calculate(cal, May03_2023, Start, End, "Yearly", Some(May01_2023)) == Success(Schedule(None, None))
  {
    var rule := Rule(Yearly, Start, Some(May01_2023));
    BetweenNone(cal, rule, May03_2023 - Duration + 1, May03_2023, 2);
    BetweenNone(cal, rule, May03_2023 + 1, May03_2024, 2);
  }

  // ---- The defensive check ----------------------------------------------

  /** Validation measures the cycle from `now`, not from the anchor: a
      31-day monthly window anchored on 2021-02-01 passes it on 2021-03-02
      (a 31-day month from there), yet both the February and the March
      occurrence are then in force, so the evaluator reports BugDetected. */
  lemma MonthlyBugReachable(cal: Calendar)
    requires Stepping(cal.addMonths)
    requires cal.addMonths(Feb01_2021, 1) == Mar01_2021
    requires cal.addMonths(Mar02_2021, 1) == Apr02_2021
    ensures var r := Calculate(cal, Mar02_2021, Feb01_2021, Mar04_2021, "Monthly", None);
      && r.Failure? && r.error.BugDetected?
      && Feb01_2021 in r.error.anchors && Mar01_2021 in r.error.anchors
  {
    var rule := Rule(Monthly, Feb01_2021, None);
    var duration := Mar04_2021 - Feb01_2021;
    var lo := Mar02_2021 - duration + 1;
    assert Occurrence(cal, rule, 0) == Feb01_2021 && Occurrence(cal, rule, 1) == Mar01_2021;
    BetweenSpec(cal, rule, lo, Mar02_2021);
    BugDetectedWhenTwoInForce(cal, Mar02_2021, Feb01_2021, Mar04_2021, Monthly, None);
    assert InForce(cal, rule, Mar02_2021, duration, Feb01_2021);
    assert InForce(cal, rule, Mar02_2021, duration, Mar01_2021);
    CalculateRepeat(cal, Mar02_2021, Feb01_2021, Mar04_2021, Monthly, None);
  }
}
