/** The status evaluator and the whole evaluation of one sub-policy
    (get_payment_status_for_sub_policy). */
module Status {
  import opened Wrappers
  import opened Calendar
  import opened Anchor
  import opened Periods
  import opened Matching

  /** The summary rows of current_status_df. */
  datatype PolicyStatus = PolicyStatus(
    upToDate: bool,
    amountDue: int,
    nextDue: Option<ValidDate>,
    alreadyPaid: bool,
    paymentMethod: string)

  /** What the evaluation of one sub-policy returns: period_status_df and
      current_status_df. */
  datatype Report = Report(rows: seq<PeriodRow>, status: PolicyStatus)

  /** Number of full periods among the rows. */
  function CountFull(rows: seq<PeriodRow>): nat {
    if rows == [] then 0
    else CountFull(rows[..|rows| - 1]) + (if IsFull(rows[|rows| - 1].period) then 1 else 0)
  }

  /** The counting loop of num_full_periods. */
  method CountFullPeriods(rows: seq<PeriodRow>) returns (n: nat)
    ensures n == CountFull(rows)
  {
    n := 0;
    for i := 0 to |rows|
      invariant n == CountFull(rows[..i])
    {
      assert rows[..i + 1][..i] == rows[..i];
      if IsFull(rows[i].period) {
        n := n + 1;
      }
    }
    assert rows[..|rows|] == rows;
  }

  lemma {:induction false} CountFullAtMost(rows: seq<PeriodRow>)
    ensures CountFull(rows) <= |rows|
  {
    if rows != [] {
      CountFullAtMost(rows[..|rows| - 1]);
    }
  }

  /** Rows that are all full except perhaps the last one count at least
      one full period fewer than there are rows. */
  lemma {:induction false} CountFullButLast(rows: seq<PeriodRow>)
    requires forall i :: 0 <= i < |rows| - 1 ==> IsFull(rows[i].period)
    ensures CountFull(rows) >= |rows| - 1
    ensures CountFull(rows) <= |rows|
  {
    CountFullAtMost(rows);
    if rows != [] {
      AllFullCount(rows[..|rows| - 1]);
    }
  }

  lemma {:induction false} AllFullCount(rows: seq<PeriodRow>)
    requires forall i :: 0 <= i < |rows| ==> IsFull(rows[i].period)
    ensures CountFull(rows) == |rows|
  {
    if rows != [] {
      AllFullCount(rows[..|rows| - 1]);
    }
  }

  /** max(0, expected - paid): what is owed, never negative. */
  function AmountDue(expected: int, paid: int): (d: int)
    ensures d >= 0
    ensures d == 0 <==> expected <= paid
    ensures d > 0 ==> paid + d == expected
  {
    if expected - paid > 0 then expected - paid else 0
  }

  /** The next due date after the last retained period start: one strict
      month later for PayAt; for Direct Debit the collection day in the same
      month unless the period already starts on it or that day does not exist
      there; unknown (NaT) for any other method. */
  function NextDue(kind: PaymentKind, last: ValidDate, day: int): (r: Option<ValidDate>)
    ensures r.None? <==> kind == Other
    ensures kind == DirectDebit && last.day != day && 1 <= day <= DaysInMonth(last.year, last.month) ==>
      MonthIndex(r.value) == MonthIndex(last) && r.value.day == day
    ensures kind == PayAt || (kind == DirectDebit && (last.day == day || !(1 <= day <= DaysInMonth(last.year, last.month)))) ==>
      r == Some(AddOneMonthStrict(last))
  {
    match kind
    case PayAt => Some(AddOneMonthStrict(last))
    case DirectDebit =>
      if last.day == day then Some(AddOneMonthStrict(last))
      else (
        match ReplaceDay(last, day)
        case Some(d) => Some(d)
        case None => Some(AddOneMonthStrict(last)))
    case Other => None
  }

  /** For a period start on or before the collection day, the next due date
      is known and strictly later. */
  lemma NextDueAfter(kind: PaymentKind, last: ValidDate, day: int)
    requires kind == PayAt || (kind == DirectDebit && last.day <= day)
    ensures NextDue(kind, last, day).Some? && Before(last, NextDue(kind, last, day).value)
  {
  }

  /** Whether the last retained period's known total covers the premium:
      never when that total is unknown (NaN) or below the premium, and
      whenever it is known and at least the premium. */
  function AlreadyPaid(rows: seq<PeriodRow>, premium: int): (r: bool)
    requires |rows| > 0
    ensures rows[|rows| - 1].paid.None? ==> !r
    ensures (exists x :: rows[|rows| - 1].paid == Some(x) && premium <= x) ==> r
    ensures (exists x :: rows[|rows| - 1].paid == Some(x) && x < premium) ==> !r
  {
    var paid := rows[|rows| - 1].paid;
    paid.Some? && paid.value >= premium
  }

  /** A smaller premium is covered whenever a larger one is. */
  lemma AlreadyPaidMonotone(rows: seq<PeriodRow>, smaller: int, larger: int)
    requires |rows| > 0 && smaller <= larger
    ensures AlreadyPaid(rows, larger) ==> AlreadyPaid(rows, smaller)
  {
  }

  /** The rows kept for an anchor on or before today: the matched periods
      from the first one with a positive total on. */
  function Retained(start: ValidDate, today: ValidDate, txns: seq<Transaction>): (rows: seq<PeriodRow>)
    ensures |rows| > 0
  {
    var ps := ExpectedPeriods(start, today);
    ExpectedPeriodsShape(start, today);
    DropLeadingUnpaidIsSuffix(Matched(ps, txns));
    DropLeadingUnpaid(Matched(ps, txns))
  }

  /** The report when the anchor is after today. */
  function FutureReport(a: Anchor, premium: int): Report {
    var rows := [PeriodRow(Period(a.start, MonthEnd(a.start)), None)];
    Report(rows, PolicyStatus(true, 0, Some(a.start), AlreadyPaid(rows, premium), a.methodName))
  }

  /** The report for the retained rows of an anchor on or before today. */
  function PastReport(a: Anchor, premium: int, rows: seq<PeriodRow>): Report
    requires |rows| > 0
  {
    var due := AmountDue(CountFull(rows) * premium, SumPaid(rows));
    var next := NextDue(a.kind, rows[|rows| - 1].period.start, a.collectionDay);
    Report(rows, PolicyStatus(due == 0, due, next, AlreadyPaid(rows, premium), a.methodName))
  }

  /** The specification of one sub-policy's evaluation. */
  function Evaluate(p: Policy, txns: seq<Transaction>, today: ValidDate): Result<Report, Error> {
    var a :- ResolveAnchor(p, today);
    if Before(today, a.start) then Success(FutureReport(a, p.premium))
    else Success(PastReport(a, p.premium, Retained(a.start, today, txns)))
  }

  /** get_payment_status_for_sub_policy, with its loops. */
  method EvaluateSubPolicy(p: Policy, txns: seq<Transaction>, today: ValidDate) returns (r: Result<Report, Error>)
    ensures r == Evaluate(p, txns, today)
  {
    var anchor := ResolveAnchor(p, today);
    if anchor.Failure? {
      return Failure(anchor.error);
    }
    var a := anchor.value;
    var periods := GeneratePeriods(a.start, today);
    ExpectedPeriodsShape(a.start, today);
    var rows: seq<PeriodRow>;
    var status: PolicyStatus;
    if Before(today, a.start) {
      rows := [PeriodRow(periods[0], None)];
      assert rows == FutureReport(a, p.premium).rows;
      status := PolicyStatus(true, 0, Some(periods[0].start), AlreadyPaid(rows, p.premium), a.methodName);
    } else {
      rows := MatchTransactions(periods, txns);
      DropLeadingUnpaidIsSuffix(rows);
      rows := DropLeadingUnpaid(rows);
      assert rows == Retained(a.start, today, txns);
      var full := CountFullPeriods(rows);
      var due := AmountDue(full * p.premium, SumPaid(rows));
      var next := NextDue(a.kind, rows[|rows| - 1].period.start, a.collectionDay);
      status := PolicyStatus(due == 0, due, next, AlreadyPaid(rows, p.premium), a.methodName);
    }
    r := Success(Report(rows, status));
  }

  /** When the anchor is in the past, the retained rows are the matched
      rows of the loop's periods from some start before today. */
  lemma RetainedIsSchedule(start: ValidDate, today: ValidDate, txns: seq<Transaction>) returns (s: ValidDate)
    requires Before(start, today)
    ensures Before(s, today)
    ensures Retained(start, today, txns) == Matched(Schedule(s, today), txns)
    ensures forall q :: q in Schedule(s, today) ==> q in Schedule(start, today)
  {
    var ps := Schedule(start, today);
    ExpectedPeriodsShape(start, today);
    var matched := Matched(ps, txns);
    DropLeadingUnpaidIsSuffix(matched);
    var k := KeptFrom(matched);
    MatchedSuffix(ps, txns, k);
    ScheduleSuffix(start, today, k);
    SchedulePeriods(start, today);
    assert ps[k] in ps;
    s := ps[k].start;
    SuffixMembers(ps, k);
  }

  lemma SuffixMembers<T>(xs: seq<T>, k: nat)
    requires k <= |xs|
    ensures forall x :: x in xs[k..] ==> x in xs
  {
  }

  lemma RetainedToday(today: ValidDate, txns: seq<Transaction>)
    ensures Retained(today, today, txns) == [PeriodRow(Period(today, today), Some(PaidIn(txns, Period(today, today))))]
  {
    DropLeadingUnpaidIsSuffix(Matched(ExpectedPeriods(today, today), txns));
  }

  /** Future anchor: one period of a strict month, total unknown, up to date
      with nothing due, due on the anchor, not paid ahead. */
  lemma EvaluateFuture(p: Policy, txns: seq<Transaction>, today: ValidDate)
    requires ResolveAnchor(p, today).Success?
    requires Before(today, ResolveAnchor(p, today).value.start)
    ensures var a := ResolveAnchor(p, today).value.start;
      && Evaluate(p, txns, today).Success?
      && Evaluate(p, txns, today).value.rows == [PeriodRow(Period(a, PrevDay(AddOneMonthStrict(a))), None)]
      && Evaluate(p, txns, today).value.status.upToDate
      && Evaluate(p, txns, today).value.status.amountDue == 0
      && Evaluate(p, txns, today).value.status.nextDue == Some(a)
      && !Evaluate(p, txns, today).value.status.alreadyPaid
  {
  }

  /** Anchor equal to today: the single one-day period [today, today] with
      the premium paid on that day. */
  lemma EvaluateAnchorToday(p: Policy, txns: seq<Transaction>, today: ValidDate)
    requires ResolveAnchor(p, today).Success?
    requires ResolveAnchor(p, today).value.start == today
    ensures Evaluate(p, txns, today).Success?
    ensures Evaluate(p, txns, today).value.rows
      == [PeriodRow(Period(today, today), Some(PaidIn(txns, Period(today, today))))]
  {
    RetainedToday(today, txns);
  }

  /** The retained rows for an anchor on or before today. */
  lemma RetainedCoverPayments(start: ValidDate, today: ValidDate, txns: seq<Transaction>)
    requires NotAfter(start, today)
    ensures var rows := Retained(start, today, txns);
      && (forall i :: 0 <= i < |rows| ==>
            rows[i].paid == Some(PaidIn(txns, rows[i].period)) && NotAfter(rows[i].period.end, today))
      && (forall i :: 0 <= i < |rows| - 1 ==> rows[i + 1].period.start == NextDay(rows[i].period.end))
      && (rows[|rows| - 1].period.end == today || NextDay(rows[|rows| - 1].period.end) == today)
      && SumPaid(rows) == PaidIn(txns, Period(rows[0].period.start, rows[|rows| - 1].period.end))
      && CountFull(rows) >= |rows| - 1
  {
    RetainedRows(start, today, txns);
    RetainedSum(start, today, txns);
    RetainedCountFull(start, today, txns);
  }

  /** Each retained row holds its own total; the rows are contiguous and
      the last ends today or the day before. */
  lemma RetainedRows(start: ValidDate, today: ValidDate, txns: seq<Transaction>)
    requires NotAfter(start, today)
    ensures var rows := Retained(start, today, txns);
      && (forall i :: 0 <= i < |rows| ==>
            rows[i].paid == Some(PaidIn(txns, rows[i].period)) && NotAfter(rows[i].period.end, today))
      && (forall i :: 0 <= i < |rows| - 1 ==> rows[i + 1].period.start == NextDay(rows[i].period.end))
      && (rows[|rows| - 1].period.end == today || NextDay(rows[|rows| - 1].period.end) == today)
  {
    if start == today {
      RetainedToday(today, txns);
    } else {
      var s := RetainedIsSchedule(start, today, txns);
      MatchedScheduleRows(s, today, txns);
    }
  }

  /** The matched rows of the loop's periods hold their own totals, are
      contiguous, and the last ends today or the day before. */
  lemma MatchedScheduleRows(s: ValidDate, today: ValidDate, txns: seq<Transaction>)
    requires Before(s, today)
    ensures var rows := Matched(Schedule(s, today), txns);
      && |rows| > 0
      && (forall i :: 0 <= i < |rows| ==>
            rows[i].paid == Some(PaidIn(txns, rows[i].period)) && NotAfter(rows[i].period.end, today))
      && (forall i :: 0 <= i < |rows| - 1 ==> rows[i + 1].period.start == NextDay(rows[i].period.end))
      && (rows[|rows| - 1].period.end == today || NextDay(rows[|rows| - 1].period.end) == today)
  {
    var sched := Schedule(s, today);
    var rows := Matched(sched, txns);
    ScheduleShape(s, today);
    assert forall i :: 0 <= i < |rows| ==> rows[i] == PeriodRow(sched[i], Some(PaidIn(txns, sched[i])));
  }

  /** The retained rows' totals add up to the total over their range. */
  lemma RetainedSum(start: ValidDate, today: ValidDate, txns: seq<Transaction>)
    requires NotAfter(start, today)
    ensures var rows := Retained(start, today, txns);
      SumPaid(rows) == PaidIn(txns, Period(rows[0].period.start, rows[|rows| - 1].period.end))
  {
    var rows := Retained(start, today, txns);
    if start == today {
      RetainedToday(today, txns);
      assert SumPaid(rows[1..]) == 0;
    } else {
      var s := RetainedIsSchedule(start, today, txns);
      var sched := Schedule(s, today);
      ScheduleShape(s, today);
      ScheduleCoversPayments(s, today, txns);
      assert forall i :: 0 <= i < |rows| ==> rows[i].period == sched[i];
    }
  }

  /** All retained rows but possibly one are full months. */
  lemma RetainedCountFull(start: ValidDate, today: ValidDate, txns: seq<Transaction>)
    requires NotAfter(start, today)
    ensures CountFull(Retained(start, today, txns)) >= |Retained(start, today, txns)| - 1
  {
    var rows := Retained(start, today, txns);
    if start == today {
      RetainedToday(today, txns);
      CountFullAtMost(rows);
    } else {
      var s := RetainedIsSchedule(start, today, txns);
      var sched := Schedule(s, today);
      ScheduleFullButLast(s, today);
      assert forall i :: 0 <= i < |rows| ==> rows[i].period == sched[i];
      CountFullButLast(rows);
    }
  }

  /** The retained rows of a past or present anchor: each holds the premium
      paid in its own inclusive date range; each starts the day after the
      previous one ends; the last ends today or the day before; together they
      hold every numeric premium dated from the first start to the last end
      exactly once; all but the last are full months. */
  lemma EvaluateRowsCoverPayments(p: Policy, txns: seq<Transaction>, today: ValidDate)
    requires ResolveAnchor(p, today).Success?
    requires !Before(today, ResolveAnchor(p, today).value.start)
    ensures Evaluate(p, txns, today).Success?
    ensures var rows := Evaluate(p, txns, today).value.rows;
      && |rows| > 0
      && (forall i :: 0 <= i < |rows| ==>
            rows[i].paid == Some(PaidIn(txns, rows[i].period)) && NotAfter(rows[i].period.end, today))
      && (forall i :: 0 <= i < |rows| - 1 ==> rows[i + 1].period.start == NextDay(rows[i].period.end))
      && (rows[|rows| - 1].period.end == today || NextDay(rows[|rows| - 1].period.end) == today)
      && SumPaid(rows) == PaidIn(txns, Period(rows[0].period.start, rows[|rows| - 1].period.end))
      && CountFull(rows) >= |rows| - 1
  {
    var a := ResolveAnchor(p, today).value;
    assert Evaluate(p, txns, today).value.rows == Retained(a.start, today, txns);
    RetainedCoverPayments(a.start, today, txns);
  }

  /** Rows that each start no later than they end, and each start the day
      after the previous one ends, start strictly later one after another. */
  lemma {:induction false} ContiguousStartsIncrease(rows: seq<PeriodRow>)
    requires forall i :: 0 <= i < |rows| ==> NotAfter(rows[i].period.start, rows[i].period.end)
    requires forall i :: 0 <= i < |rows| - 1 ==> rows[i + 1].period.start == NextDay(rows[i].period.end)
    ensures forall a, b :: 0 <= a < b < |rows| ==> Before(rows[a].period.start, rows[b].period.start)
  {
    if |rows| > 1 {
      var n := |rows| - 1;
      var init := rows[..n];
      ContiguousStartsIncrease(init);
      assert Before(rows[n - 1].period.end, rows[n].period.start);
      forall a | 0 <= a < n
        ensures Before(rows[a].period.start, rows[n].period.start)
      {
        if a < n - 1 {
          assert init[a] == rows[a] && init[n - 1] == rows[n - 1];
        }
      }
    }
  }

  /** The periods of a report start strictly later one after another, so no
      two rows share a (start, end) key. */
  lemma EvaluateStartsIncrease(p: Policy, txns: seq<Transaction>, today: ValidDate)
    requires Evaluate(p, txns, today).Success?
    ensures var rows := Evaluate(p, txns, today).value.rows;
      forall a, b :: 0 <= a < b < |rows| ==> Before(rows[a].period.start, rows[b].period.start)
  {
    var a := ResolveAnchor(p, today).value;
    if !Before(today, a.start) {
      var rows := Retained(a.start, today, txns);
      EvaluateRowsCoverPayments(p, txns, today);
      if a.start == today {
        RetainedToday(today, txns);
      } else {
        var s := RetainedIsSchedule(a.start, today, txns);
        var sched := Schedule(s, today);
        SchedulePeriods(s, today);
        forall i | 0 <= i < |rows|
          ensures NotAfter(rows[i].period.start, rows[i].period.end)
        {
          assert rows[i].period == sched[i];
          assert sched[i] in sched;
        }
      }
      ContiguousStartsIncrease(rows);
    }
  }

  /** The amount due is never negative, is zero exactly when the policy is
      up to date, and for a past anchor is the shortfall of the full periods'
      premiums against what the retained periods received. */
  lemma EvaluateStatusFacts(p: Policy, txns: seq<Transaction>, today: ValidDate)
    requires Evaluate(p, txns, today).Success?
    ensures var r := Evaluate(p, txns, today).value;
      && |r.rows| > 0
      && r.status.amountDue >= 0
      && (r.status.upToDate <==> r.status.amountDue == 0)
      && (r.status.alreadyPaid <==>
            r.rows[|r.rows| - 1].paid.Some? && r.rows[|r.rows| - 1].paid.value >= p.premium)
      && Some(r.status.paymentMethod) == p.paymentMethod
      && (!Before(today, ResolveAnchor(p, today).value.start) ==>
            r.status.amountDue == AmountDue(CountFull(r.rows) * p.premium, SumPaid(r.rows)))
  {
  }

  /** For an anchor on or before today, the next due date follows the
      per-method rule from the last retained period's start. */
  lemma EvaluateNextDueRule(p: Policy, txns: seq<Transaction>, today: ValidDate)
    requires ResolveAnchor(p, today).Success?
    requires !Before(today, ResolveAnchor(p, today).value.start)
    ensures Evaluate(p, txns, today).Success?
    ensures var a := ResolveAnchor(p, today).value;
      var rows := Evaluate(p, txns, today).value.rows;
      |rows| > 0 &&
      Evaluate(p, txns, today).value.status.nextDue == NextDue(a.kind, rows[|rows| - 1].period.start, a.collectionDay)
  {
  }

  /** The next due date is always known: the anchor while it is in the
      future, otherwise a date strictly after the last retained period's
      start. */
  lemma EvaluateNextDue(p: Policy, txns: seq<Transaction>, today: ValidDate)
    requires Evaluate(p, txns, today).Success?
    ensures var r := Evaluate(p, txns, today).value;
      && r.status.nextDue.Some?
      && (Before(today, ResolveAnchor(p, today).value.start) ==>
            r.status.nextDue == Some(ResolveAnchor(p, today).value.start))
      && (!Before(today, ResolveAnchor(p, today).value.start) ==>
            Before(r.rows[|r.rows| - 1].period.start, r.status.nextDue.value))
  {
    var a := ResolveAnchor(p, today).value;
    if !Before(today, a.start) {
      var rows := Retained(a.start, today, txns);
      var last := rows[|rows| - 1].period.start;
      if a.kind == DirectDebit {
        if a.start == today {
          RetainedToday(today, txns);
        } else {
          var s := RetainedIsSchedule(a.start, today, txns);
          ScheduleStartDays(a.start, today, a.collectionDay);
          assert rows[|rows| - 1].period in Schedule(s, today);
        }
      }
      NextDueAfter(a.kind, last, a.collectionDay);
    }
  }

  lemma {:induction false} PaidInNotPositive(txns: seq<Transaction>, q: Period)
    requires forall t :: t in txns && t.premium.Some? ==> t.premium.value <= 0
    ensures PaidIn(txns, q) <= 0
  {
    if txns != [] {
      assert txns[0] in txns;
      PaidInNotPositive(txns[1..], q);
    }
  }

  lemma {:induction false} SumPaidAtLeast(rows: seq<PeriodRow>, premium: int)
    requires forall i :: 0 <= i < |rows| ==> rows[i].paid.Some? && rows[i].paid.value >= premium
    ensures SumPaid(rows) >= |rows| * premium
  {
    if rows != [] {
      SumPaidAtLeast(rows[1..], premium);
    }
  }

  lemma {:induction false} SumPaidZero(rows: seq<PeriodRow>)
    requires forall i :: 0 <= i < |rows| ==> rows[i].paid == Some(0)
    ensures SumPaid(rows) == 0
  {
    if rows != [] {
      SumPaidZero(rows[1..]);
    }
  }

  /** Without any positive payment nothing is truncated: the rows start at
      the anchor. With no transactions at all, every full period is owed. */
  lemma EvaluateNoPositivePayment(p: Policy, txns: seq<Transaction>, today: ValidDate)
    requires ResolveAnchor(p, today).Success?
    requires !Before(today, ResolveAnchor(p, today).value.start)
    requires forall t :: t in txns && t.premium.Some? ==> t.premium.value <= 0
    ensures var a := ResolveAnchor(p, today).value.start;
      && Evaluate(p, txns, today).Success?
      && Evaluate(p, txns, today).value.rows == Matched(ExpectedPeriods(a, today), txns)
      && Evaluate(p, txns, today).value.rows[0].period.start == a
      && (txns == [] ==>
            Evaluate(p, txns, today).value.status.amountDue
              == AmountDue(CountFull(Evaluate(p, txns, today).value.rows) * p.premium, 0))
  {
    var a := ResolveAnchor(p, today).value.start;
    var ps := ExpectedPeriods(a, today);
    ExpectedPeriodsShape(a, today);
    var matched := Matched(ps, txns);
    forall i | 0 <= i < |matched|
      ensures !PaidPositive(matched[i])
    {
      PaidInNotPositive(txns, ps[i]);
    }
    assert Retained(a, today, txns) == matched;
    if txns == [] {
      SumPaidZero(matched);
    }
  }

  /** Paying at least the premium in every expected period leaves nothing
      due. */
  lemma EvaluatePaidInFull(p: Policy, txns: seq<Transaction>, today: ValidDate)
    requires ResolveAnchor(p, today).Success?
    requires !Before(today, ResolveAnchor(p, today).value.start)
    requires p.premium >= 0
    requires forall q :: q in ExpectedPeriods(ResolveAnchor(p, today).value.start, today) ==> PaidIn(txns, q) >= p.premium
    ensures Evaluate(p, txns, today).Success?
    ensures Evaluate(p, txns, today).value.status.upToDate
    ensures Evaluate(p, txns, today).value.status.amountDue == 0
  {
    var a := ResolveAnchor(p, today).value.start;
    var ps := ExpectedPeriods(a, today);
    ExpectedPeriodsShape(a, today);
    var matched := Matched(ps, txns);
    DropLeadingUnpaidIsSuffix(matched);
    var k := KeptFrom(matched);
    var rows := Retained(a, today, txns);
    assert rows == matched[k..];
    forall i | 0 <= i < |rows|
      ensures rows[i].paid.Some? && rows[i].paid.value >= p.premium
    {
      assert rows[i] == matched[k + i];
      assert ps[k + i] in ps;
    }
    SumPaidAtLeast(rows, p.premium);
    CountFullAtMost(rows);
    MulMonotone(CountFull(rows), |rows|, p.premium);
  }

  lemma MulMonotone(a: int, b: int, c: int)
    requires a <= b && c >= 0
    ensures a * c <= b * c
  {
  }
}
