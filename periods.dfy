/** Period generation: the monthly billing periods of one sub-policy from
    its anchor up to the reference date "today". */
module Periods {
  import opened Calendar

  /** A billing period; both ends inclusive. */
  datatype Period = Period(start: ValidDate, end: ValidDate)

  /** The last day of the unclipped period that starts at start:
      add_one_month_strict(start) minus one day. */
  function MonthEnd(start: ValidDate): (e: ValidDate)
    ensures NotAfter(start, e)
    ensures NextDay(e) == AddOneMonthStrict(start)
  {
    PrevDayNotBefore(start, AddOneMonthStrict(start));
    PrevDay(AddOneMonthStrict(start))
  }

  /** The end of a period in the loop: MonthEnd, clipped to today. */
  function ClippedEnd(start: ValidDate, today: ValidDate): ValidDate {
    var e := MonthEnd(start);
    if Before(today, e) then today else e
  }

  /** The periods the `while start < today` loop emits from start. */
  function Schedule(start: ValidDate, today: ValidDate): seq<Period>
    decreases Rank(today) - Rank(start)
  {
    if Before(start, today) then
      var e := ClippedEnd(start, today);
      RankIncreases(start, NextDay(e));
      [Period(start, e)] + Schedule(NextDay(e), today)
    else []
  }

  /** One turn of the loop: the first period, then the periods from the
      day after its end. */
  lemma ScheduleStep(start: ValidDate, today: ValidDate)
    requires Before(start, today)
    ensures Schedule(start, today)
      == [Period(start, ClippedEnd(start, today))] + Schedule(NextDay(ClippedEnd(start, today)), today)
  {
  }

  /** All periods of a sub-policy with anchor `anchor`: one period when the
      anchor is after today, the one-day period [today, today] when it is
      today, the loop's periods otherwise. */
  function ExpectedPeriods(anchor: ValidDate, today: ValidDate): seq<Period> {
    if Before(today, anchor) then [Period(anchor, MonthEnd(anchor))]
    else if anchor == today then [Period(anchor, anchor)]
    else Schedule(anchor, today)
  }

  /** What every period of the loop satisfies on its own. */
  predicate LoopPeriod(p: Period, today: ValidDate) {
    && Before(p.start, today)
    && NotAfter(p.start, p.end)
    && NotAfter(p.end, today)
    && p.end == ClippedEnd(p.start, today)
  }

  lemma {:induction false} SchedulePeriods(start: ValidDate, today: ValidDate)
    ensures forall p :: p in Schedule(start, today) ==> LoopPeriod(p, today)
    decreases Rank(today) - Rank(start)
  {
    if Before(start, today) {
      var e := ClippedEnd(start, today);
      RankIncreases(start, NextDay(e));
      ScheduleStep(start, today);
      SchedulePeriods(NextDay(e), today);
    }
  }

  lemma {:induction false} ScheduleContiguous(start: ValidDate, today: ValidDate)
    ensures var ps := Schedule(start, today);
      forall i :: 0 <= i < |ps| - 1 ==> ps[i + 1].start == NextDay(ps[i].end)
    decreases Rank(today) - Rank(start)
  {
    if Before(start, today) {
      var e := ClippedEnd(start, today);
      RankIncreases(start, NextDay(e));
      ScheduleStep(start, today);
      ScheduleContiguous(NextDay(e), today);
    }
  }

  lemma {:induction false} ScheduleLastEnd(start: ValidDate, today: ValidDate)
    requires Before(start, today)
    ensures var ps := Schedule(start, today);
      |ps| > 0 && (ps[|ps| - 1].end == today || NextDay(ps[|ps| - 1].end) == today)
    decreases Rank(today) - Rank(start)
  {
    var e := ClippedEnd(start, today);
    RankIncreases(start, NextDay(e));
    ScheduleStep(start, today);
    var rest := Schedule(NextDay(e), today);
    if Before(NextDay(e), today) {
      ScheduleLastEnd(NextDay(e), today);
    } else if e != today {
      NextDayAdjacent(e, today);
    }
  }

  /** The loop's periods: the first starts at the anchor; each starts
      before today, ends no earlier than it starts and no later than today,
      and ends at MonthEnd clipped to today; each next period starts the day
      after the previous one ends; the last one ends today or the day before. */
  lemma ScheduleShape(start: ValidDate, today: ValidDate)
    ensures var ps := Schedule(start, today);
      && (|ps| > 0 <==> Before(start, today))
      && (|ps| > 0 ==> ps[0].start == start)
      && (forall i :: 0 <= i < |ps| ==>
            && Before(ps[i].start, today)
            && NotAfter(ps[i].start, ps[i].end)
            && NotAfter(ps[i].end, today)
            && ps[i].end == ClippedEnd(ps[i].start, today))
      && (forall i :: 0 <= i < |ps| - 1 ==> ps[i + 1].start == NextDay(ps[i].end))
      && (|ps| > 0 ==> ps[|ps| - 1].end == today || NextDay(ps[|ps| - 1].end) == today)
  {
    var ps := Schedule(start, today);
    SchedulePeriods(start, today);
    ScheduleContiguous(start, today);
    if Before(start, today) {
      ScheduleStep(start, today);
      ScheduleLastEnd(start, today);
    }
    forall i | 0 <= i < |ps|
      ensures LoopPeriod(ps[i], today)
    {
      assert ps[i] in ps;
    }
  }

  /** A period that starts on day d of its month is followed, unless it is
      the last, by one that starts on day d or on day 1. */
  lemma {:induction false} ScheduleStartDays(start: ValidDate, today: ValidDate, day: int)
    requires 1 <= day && start.day <= day
    ensures forall p :: p in Schedule(start, today) ==> p.start.day <= day
    decreases Rank(today) - Rank(start)
  {
    if Before(start, today) {
      var e := ClippedEnd(start, today);
      RankIncreases(start, NextDay(e));
      ScheduleStep(start, today);
      if e == today {
        assert Schedule(NextDay(e), today) == [];
      } else {
        assert NextDay(e) == AddOneMonthStrict(start);
        ScheduleStartDays(NextDay(e), today, day);
      }
    }
  }

  /** A suffix of the loop's periods is the loop's periods from the suffix's
      first start. */
  lemma {:induction false} ScheduleSuffix(start: ValidDate, today: ValidDate, k: nat)
    requires k < |Schedule(start, today)|
    ensures Schedule(start, today)[k..] == Schedule(Schedule(start, today)[k].start, today)
    decreases k
  {
    if k > 0 {
      var e := ClippedEnd(start, today);
      ScheduleStep(start, today);
      var rest := Schedule(NextDay(e), today);
      assert Schedule(start, today)[k..] == rest[k - 1..];
      ScheduleSuffix(NextDay(e), today, k - 1);
    }
  }

  /** relativedelta's full-month test of the Status evaluator: the period
      lasts at least until the day before the clamped one-month step, that
      is, the day after its end is no earlier than one clamped month after
      its start. */
  predicate IsFull(p: Period)
    ensures IsFull(p) <==> NotAfter(AddOneMonthClamped(p.start), NextDay(p.end))
  {
    PrevDayNotBefore(p.start, AddOneMonthClamped(p.start));
    NextDayMonotone(PrevDay(AddOneMonthClamped(p.start)), p.end);
    NotAfter(PrevDay(AddOneMonthClamped(p.start)), p.end)
  }

  /** Every period of the loop except the last spans a full month. */
  lemma {:induction false} ScheduleFullButLast(start: ValidDate, today: ValidDate)
    ensures var ps := Schedule(start, today);
      forall i :: 0 <= i < |ps| - 1 ==> IsFull(ps[i])
    decreases Rank(today) - Rank(start)
  {
    if Before(start, today) {
      var e := ClippedEnd(start, today);
      RankIncreases(start, NextDay(e));
      ScheduleStep(start, today);
      ScheduleFullButLast(NextDay(e), today);
      if e != today {
        ClampedNotAfterStrict(start);
        PrevDayNotBefore(start, AddOneMonthClamped(start));
        var c := AddOneMonthClamped(start);
        if c != AddOneMonthStrict(start) {
          NextDayAdjacent(PrevDay(c), e);
        }
        assert IsFull(Period(start, e));
      } else {
        assert Schedule(NextDay(e), today) == [];
      }
    }
  }

  /** Every sequence of periods: non-empty, starting at the anchor, each
      period non-empty and followed by the period starting the day after it;
      all periods end by today unless the anchor is in the future. */
  lemma ExpectedPeriodsShape(anchor: ValidDate, today: ValidDate)
    ensures var ps := ExpectedPeriods(anchor, today);
      && |ps| > 0
      && ps[0].start == anchor
      && (forall i :: 0 <= i < |ps| ==> NotAfter(ps[i].start, ps[i].end))
      && (forall i :: 0 <= i < |ps| - 1 ==> ps[i + 1].start == NextDay(ps[i].end))
      && (!Before(today, anchor) ==> forall i :: 0 <= i < |ps| ==> NotAfter(ps[i].end, today))
  {
    if !Before(today, anchor) && anchor != today {
      ScheduleShape(anchor, today);
    }
  }

  /** The period generation of get_payment_status_for_sub_policy. */
  method GeneratePeriods(anchor: ValidDate, today: ValidDate) returns (periods: seq<Period>)
    ensures periods == ExpectedPeriods(anchor, today)
  {
    if Before(today, anchor) {
      periods := [Period(anchor, MonthEnd(anchor))];
    } else if anchor == today {
      periods := [Period(anchor, anchor)];
    } else {
      periods := RunSchedule(anchor, today);
    }
  }

  /** The `while period_start < today` loop, which advances period_start one
      period at a time. */
  method RunSchedule(anchor: ValidDate, today: ValidDate) returns (periods: seq<Period>)
    ensures periods == Schedule(anchor, today)
  {
    periods := [];
    var start := anchor;
    while Before(start, today)
      invariant periods + Schedule(start, today) == Schedule(anchor, today)
      decreases Rank(today) - Rank(start)
    {
      var end := MonthEnd(start);
      if Before(today, end) {
        end := today;
      }
      assert end == ClippedEnd(start, today);
      var next := NextDay(end);
      ScheduleStep(start, today);
      ghost var rest := Schedule(next, today);
      assert periods + ([Period(start, end)] + rest) == (periods + [Period(start, end)]) + rest;
      periods := periods + [Period(start, end)];
      RankIncreases(start, next);
      start := next;
    }
  }
}
