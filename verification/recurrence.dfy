/** Frequencies, calendar stepping and the recurrence enumerator: the model
    of the rrule expansion the override evaluator queries. */
module Recurrence {
  import opened Wrappers
  import opened Instants

  /** The repeating frequencies. */
  datatype Unit = Daily | Weekly | Monthly | Yearly {

    /** Daily and weekly steps have a fixed length in a fixed-offset zone. */
    predicate IsFixed() {
      Daily? || Weekly?
    }

    /** The length of one fixed step, in ticks. */
    function StepTicks(): (d: int)
      requires IsFixed()
      ensures d > 0
    {
      if Daily? then Day else Week
    }
  }

  /** `OneTime` is the empty frequency: a single, non-repeating window. */
  datatype Frequency = OneTime | Repeat(unit: Unit)

  /** The exact, case-sensitive spelling of each frequency. */
  function FrequencyName(f: Frequency): string {
    match f
    case OneTime => ""
    case Repeat(Daily) => "Daily"
    case Repeat(Weekly) => "Weekly"
    case Repeat(Monthly) => "Monthly"
    case Repeat(Yearly) => "Yearly"
  }

  /** Recognises the five accepted spellings; anything else is refused. */
  function ParseFrequency(s: string): (r: Option<Frequency>)
    ensures r.None? <==> s !in {"", "Daily", "Weekly", "Monthly", "Yearly"}
    ensures r.Some? ==> FrequencyName(r.value) == s
  {
    if s == "" then Some(OneTime)
    else if s == "Daily" then Some(Repeat(Daily))
    else if s == "Weekly" then Some(Repeat(Weekly))
    else if s == "Monthly" then Some(Repeat(Monthly))
    else if s == "Yearly" then Some(Repeat(Yearly))
    else None
  }

  /** Every frequency is recognised under its own name. */
  lemma ParseFrequencyName(f: Frequency)
    ensures ParseFrequency(FrequencyName(f)) == Some(f)
  {
    match f
    case OneTime =>
    case Repeat(u) =>
      match u
      case Daily =>
      case Weekly =>
      case Monthly =>
      case Yearly =>
  }

  /** Calendar-field stepping for the frequencies whose length varies:
      `addMonths(t, k)` is `t` with its month field advanced by `k` and its
      day and time of day kept, `addYears` the same for the year field. */
  datatype Calendar = Calendar(addMonths: (Instant, nat) -> Instant, addYears: (Instant, nat) -> Instant)

  /** A stepping function that starts at its argument and strictly increases. */
  ghost predicate Stepping(f: (Instant, nat) -> Instant) {
    && (forall t :: f(t, 0) == t)
    && (forall t, i: nat, j: nat | i < j :: f(t, i) < f(t, j))
  }

  /** What the model assumes of the calendar for unit `u`; nothing for the
      fixed steps. */
  ghost predicate Sound(cal: Calendar, u: Unit) {
    match u
    case Monthly => Stepping(cal.addMonths)
    case Yearly => Stepping(cal.addYears)
    case _ => true
  }

  /** `t` advanced by `k` units of `u`. */
  function Advance(cal: Calendar, u: Unit, t: Instant, k: nat): Instant {
    match u
    case Daily => t + k * Day
    case Weekly => t + k * Week
    case Monthly => cal.addMonths(t, k)
    case Yearly => cal.addYears(t, k)
  }

  /** A recurrence: anchored at `dtstart`, stepping by `unit`, and bounded
      inclusively by `until` when present. */
  datatype Rule = Rule(unit: Unit, dtstart: Instant, until: Option<Instant>)

  /** The `k`-th occurrence start, ignoring `until`. */
  function Occurrence(cal: Calendar, rule: Rule, k: nat): Instant {
    Advance(cal, rule.unit, rule.dtstart, k)
  }

  /** `t` is not past the terminal bound. */
  predicate Permits(until: Option<Instant>, t: Instant) {
    until.None? || t <= until.value
  }

  /** `t` is an occurrence start the rule permits. */
  ghost predicate IsAnchor(cal: Calendar, rule: Rule, t: Instant) {
    Permits(rule.until, t) && exists k: nat :: Occurrence(cal, rule, k) == t
  }

  predicate Ascending(s: seq<Instant>) {
    forall i, j :: 0 <= i < j < |s| ==> s[i] < s[j]
  }

  /** The occurrences from the `k`-th on that lie in `[lo, hi]`, walking
      forward and stopping at the first one past `hi` or past `until`. The
      walk never needs more than `hi - dtstart` steps, since each step
      advances by at least one tick. */
  function Collect(cal: Calendar, rule: Rule, lo: Instant, hi: Instant, k: nat): (r: seq<Instant>)
    ensures forall i :: 0 <= i < |r| ==> lo <= r[i] <= hi && Permits(rule.until, r[i])
    decreases hi - rule.dtstart - k
  {
    if hi - rule.dtstart < k then []
    else
      var a := Occurrence(cal, rule, k);
      if hi < a || !Permits(rule.until, a) then []
      else (if lo <= a then [a] else []) + Collect(cal, rule, lo, hi, k + 1)
  }

  /** rrule's `Between(lo, hi, true)`: the permitted anchors in `[lo, hi]`. */
  function Between(cal: Calendar, rule: Rule, lo: Instant, hi: Instant): seq<Instant> {
    Collect(cal, rule, lo, hi, 0)
  }

  lemma OccurrenceIncreasing(cal: Calendar, rule: Rule, i: nat, j: nat)
    requires Sound(cal, rule.unit)
    requires i < j
    ensures Occurrence(cal, rule, i) < Occurrence(cal, rule, j)
  {
    match rule.unit
    case Daily =>
      assert (j - i) * Day > 0;
    case Weekly =>
      assert (j - i) * Week > 0;
    case Monthly =>
    case Yearly =>
  }

  lemma OccurrenceMonotone(cal: Calendar, rule: Rule, i: nat, j: nat)
    requires Sound(cal, rule.unit)
    ensures i <= j <==> Occurrence(cal, rule, i) <= Occurrence(cal, rule, j)
  {
    if i < j {
      OccurrenceIncreasing(cal, rule, i, j);
    } else if j < i {
      OccurrenceIncreasing(cal, rule, j, i);
    }
  }

  /** The first occurrence is the anchor itself. */
  lemma OccurrenceZero(cal: Calendar, rule: Rule)
    requires Sound(cal, rule.unit)
    ensures Occurrence(cal, rule, 0) == rule.dtstart
  {
  }

  /** Each step advances by at least one tick. */
  lemma {:induction false} OccurrenceLowerBound(cal: Calendar, rule: Rule, k: nat)
    requires Sound(cal, rule.unit)
    ensures rule.dtstart + k <= Occurrence(cal, rule, k)
  {
    if k == 0 {
      OccurrenceZero(cal, rule);
    } else {
      OccurrenceLowerBound(cal, rule, k - 1);
      OccurrenceIncreasing(cal, rule, k - 1, k);
    }
  }

  /** Everything collected from the `k`-th occurrence on is an occurrence
      with an index of at least `k`. */
  lemma {:induction false} CollectAnchors(cal: Calendar, rule: Rule, lo: Instant, hi: Instant, k: nat, x: Instant)
    requires x in Collect(cal, rule, lo, hi, k)
    ensures exists j: nat :: k <= j && Occurrence(cal, rule, j) == x
    decreases hi - rule.dtstart - k
  {
    var a := Occurrence(cal, rule, k);
    var rest := Collect(cal, rule, lo, hi, k + 1);
    assert Collect(cal, rule, lo, hi, k) == (if lo <= a then [a] else []) + rest;
    if x != a {
      assert x in rest;
      CollectAnchors(cal, rule, lo, hi, k + 1, x);
    }
  }

  /** Every element of `s` lies beyond `a`. */
  predicate Above(s: seq<Instant>, a: Instant) {
    forall i :: 0 <= i < |s| ==> a < s[i]
  }

  lemma AscendingCons(a: Instant, s: seq<Instant>)
    requires Ascending(s)
    requires Above(s, a)
    ensures Ascending([a] + s)
  {
    var r := [a] + s;
    forall i, j | 0 <= i < j < |r|
      ensures r[i] < r[j]
    {
      assert r[j] == s[j - 1];
      if 0 < i {
        assert r[i] == s[i - 1];
      }
    }
  }

  /** Everything collected after the `k`-th occurrence lies beyond it. */
  lemma CollectAbove(cal: Calendar, rule: Rule, lo: Instant, hi: Instant, k: nat)
    requires Sound(cal, rule.unit)
    ensures Above(Collect(cal, rule, lo, hi, k + 1), Occurrence(cal, rule, k))
  {
    var rest := Collect(cal, rule, lo, hi, k + 1);
    forall i | 0 <= i < |rest|
      ensures Occurrence(cal, rule, k) < rest[i]
    {
      CollectAnchors(cal, rule, lo, hi, k + 1, rest[i]);
      var j: nat :| k + 1 <= j && Occurrence(cal, rule, j) == rest[i];
      OccurrenceIncreasing(cal, rule, k, j);
    }
  }

  lemma {:induction false} CollectAscending(cal: Calendar, rule: Rule, lo: Instant, hi: Instant, k: nat)
    requires Sound(cal, rule.unit)
    ensures Ascending(Collect(cal, rule, lo, hi, k))
    decreases hi - rule.dtstart - k
  {
    if hi - rule.dtstart >= k {
      var a := Occurrence(cal, rule, k);
      if a <= hi && Permits(rule.until, a) {
        var rest := Collect(cal, rule, lo, hi, k + 1);
        CollectAscending(cal, rule, lo, hi, k + 1);
        CollectAbove(cal, rule, lo, hi, k);
        if lo <= a {
          AscendingCons(a, rest);
        }
      }
    }
  }

  /** Every permitted occurrence in `[lo, hi]` with an index of at least `k`
      is collected. */
  lemma {:induction false} CollectComplete(cal: Calendar, rule: Rule, lo: Instant, hi: Instant, k: nat, j: nat)
    requires Sound(cal, rule.unit)
    requires k <= j
    requires lo <= Occurrence(cal, rule, j) <= hi && Permits(rule.until, Occurrence(cal, rule, j))
    ensures Occurrence(cal, rule, j) in Collect(cal, rule, lo, hi, k)
    decreases hi - rule.dtstart - k
  {
    var x := Occurrence(cal, rule, j);
    OccurrenceLowerBound(cal, rule, j);
    var a := Occurrence(cal, rule, k);
    OccurrenceMonotone(cal, rule, k, j);
    assert !(hi - rule.dtstart < k);
    assert a <= hi && Permits(rule.until, a);
    var rest := Collect(cal, rule, lo, hi, k + 1);
    assert Collect(cal, rule, lo, hi, k) == (if lo <= a then [a] else []) + rest;
    if k < j {
      CollectComplete(cal, rule, lo, hi, k + 1, j);
    }
  }

  /** The enumerator's contract: the result is strictly ascending and holds
      exactly the permitted anchors in `[lo, hi]`. */
  lemma BetweenSpec(cal: Calendar, rule: Rule, lo: Instant, hi: Instant)
    requires Sound(cal, rule.unit)
    ensures Ascending(Between(cal, rule, lo, hi))
    ensures forall x :: x in Between(cal, rule, lo, hi) <==> IsAnchor(cal, rule, x) && lo <= x <= hi
  {
    CollectAscending(cal, rule, lo, hi, 0);
    forall x
      ensures x in Between(cal, rule, lo, hi) <==> IsAnchor(cal, rule, x) && lo <= x <= hi
    {
      if x in Between(cal, rule, lo, hi) {
        CollectAnchors(cal, rule, lo, hi, 0, x);
      }
      if IsAnchor(cal, rule, x) && lo <= x <= hi {
        var j: nat :| Occurrence(cal, rule, j) == x;
        CollectComplete(cal, rule, lo, hi, 0, j);
      }
    }
  }

  /** The first two elements, when present, are members, in order. */
  lemma LeadingMembers(s: seq<Instant>)
    ensures 0 < |s| ==> s[0] in s
    ensures 1 < |s| ==> s[1] in s && (Ascending(s) ==> s[0] < s[1])
  {
  }

  /** An ascending sequence whose only member is `a` is `[a]`. */
  lemma AscendingSingleton(s: seq<Instant>, a: Instant)
    requires Ascending(s) && a in s
    requires forall x :: x in s ==> x == a
    ensures s == [a]
  {
    LeadingMembers(s);
  }

  /** A window holding exactly one permitted occurrence, the `k`-th. */
  lemma BetweenOne(cal: Calendar, rule: Rule, lo: Instant, hi: Instant, k: nat)
    requires Sound(cal, rule.unit)
    requires k == 0 || Occurrence(cal, rule, k - 1) < lo
    requires lo <= Occurrence(cal, rule, k) <= hi && Permits(rule.until, Occurrence(cal, rule, k))
    requires hi < Occurrence(cal, rule, k + 1) || !Permits(rule.until, Occurrence(cal, rule, k + 1))
    ensures Between(cal, rule, lo, hi) == [Occurrence(cal, rule, k)]
  {
    var s := Between(cal, rule, lo, hi);
    var a := Occurrence(cal, rule, k);
    BetweenSpec(cal, rule, lo, hi);
    assert IsAnchor(cal, rule, a);
    var before: nat := if k == 0 then 0 else k - 1;
    forall j: nat | lo <= Occurrence(cal, rule, j) <= hi && Permits(rule.until, Occurrence(cal, rule, j))
      ensures j == k
    {
      OccurrenceMonotone(cal, rule, j, before);
      OccurrenceMonotone(cal, rule, k + 1, j);
    }
    AscendingSingleton(s, a);
  }

  /** A window between two consecutive occurrences holds none. */
  lemma BetweenNone(cal: Calendar, rule: Rule, lo: Instant, hi: Instant, k: nat)
    requires Sound(cal, rule.unit)
    requires Occurrence(cal, rule, k) < lo
    requires hi < Occurrence(cal, rule, k + 1) || !Permits(rule.until, Occurrence(cal, rule, k + 1))
    ensures Between(cal, rule, lo, hi) == []
  {
    var s := Between(cal, rule, lo, hi);
    BetweenSpec(cal, rule, lo, hi);
    forall j: nat
      ensures !(lo <= Occurrence(cal, rule, j) <= hi && Permits(rule.until, Occurrence(cal, rule, j)))
    {
      OccurrenceMonotone(cal, rule, j, k);
      OccurrenceMonotone(cal, rule, k + 1, j);
    }
    LeadingMembers(s);
  }

  /** The window holds more than one anchor exactly when it holds two
      distinct ones. */
  lemma BetweenHasTwo(cal: Calendar, rule: Rule, lo: Instant, hi: Instant)
    requires Sound(cal, rule.unit)
    ensures 1 < |Between(cal, rule, lo, hi)| <==>
      exists a, b :: a < b && IsAnchor(cal, rule, a) && lo <= a <= hi && IsAnchor(cal, rule, b) && lo <= b <= hi
  {
    var s := Between(cal, rule, lo, hi);
    BetweenSpec(cal, rule, lo, hi);
    LeadingMembers(s);
    if exists a, b :: a < b && IsAnchor(cal, rule, a) && lo <= a <= hi && IsAnchor(cal, rule, b) && lo <= b <= hi {
      var a, b :| a < b && IsAnchor(cal, rule, a) && lo <= a <= hi && IsAnchor(cal, rule, b) && lo <= b <= hi;
      TwoMembers(s, a, b);
    }
  }

  /** Two distinct members make a sequence longer than one. */
  lemma TwoMembers(s: seq<Instant>, a: Instant, b: Instant)
    requires a in s && b in s && a != b
    ensures 1 < |s|
  {
    var i :| 0 <= i < |s| && s[i] == a;
    var j :| 0 <= j < |s| && s[j] == b;
    assert i != j;
  }

  /** A window with at most one anchor: its only element, if any, is the
      anchor. */
  lemma BetweenAtMostOne(cal: Calendar, rule: Rule, lo: Instant, hi: Instant)
    requires Sound(cal, rule.unit)
    requires |Between(cal, rule, lo, hi)| <= 1
    ensures forall a :: (|Between(cal, rule, lo, hi)| == 1 && Between(cal, rule, lo, hi)[0] == a) <==>
      IsAnchor(cal, rule, a) && lo <= a <= hi
    ensures |Between(cal, rule, lo, hi)| == 0 <==> forall a :: !(IsAnchor(cal, rule, a) && lo <= a <= hi)
  {
    var s := Between(cal, rule, lo, hi);
    BetweenSpec(cal, rule, lo, hi);
    LeadingMembers(s);
  }

  /** The first element of a non-empty window is its earliest anchor. */
  lemma BetweenFirst(cal: Calendar, rule: Rule, lo: Instant, hi: Instant)
    requires Sound(cal, rule.unit)
    ensures 0 < |Between(cal, rule, lo, hi)| ==>
      var b := Between(cal, rule, lo, hi)[0];
      && IsAnchor(cal, rule, b) && lo <= b <= hi
      && forall c :: IsAnchor(cal, rule, c) && lo <= c <= hi ==> b <= c
    ensures |Between(cal, rule, lo, hi)| == 0 <==> forall a :: !(IsAnchor(cal, rule, a) && lo <= a <= hi)
  {
    var s := Between(cal, rule, lo, hi);
    BetweenSpec(cal, rule, lo, hi);
    LeadingMembers(s);
    if 0 < |s| {
      forall c | IsAnchor(cal, rule, c) && lo <= c <= hi
        ensures s[0] <= c
      {
        assert c in s;
        var i :| 0 <= i < |s| && s[i] == c;
        assert i == 0 || s[0] < s[i];
      }
    }
  }
}
