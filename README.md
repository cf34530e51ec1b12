# Payment-period reconciliation, modelled in Dafny

This project models the payment-period reconciliation engine of a monthly
insurance-premium tracker (`report_active_policies.py`). The engine does four things:

1. It resolves a policy's billing anchor from its payment method (PayAt or
   Direct Debit), inception date, first collection date and preferred
   collection day.
2. It generates the sequence of monthly billing periods from that anchor up
   to an as-of date ("today"), using the source's own "strict" month step.
   That step lands on the first of the following month when the day does
   not exist in the target month.
3. It matches the policy's transactions into those periods. Periods before
   the first one with a positive total are dropped.
4. It reduces the result to a status: up to date, amount due over the full
   periods, next due date, and whether the next collection is already paid.
   For a group of sub-policies, it outer-joins their period tables on
   (start, end) and combines their statuses field by field.

Modules, one file each:

- `wrappers.dfy` (`Wrappers`): `Option` and `Result`.
- `calendar.dfy` (`Calendar`): valid Gregorian dates, the strict month step
  (`add_one_month_strict`), dateutil's clamping `relativedelta(months=1)`,
  and day arithmetic.
- `anchor.dfy` (`Anchor`): policies, payment-method classification and
  anchor resolution, with its error paths.
- `periods.dfy` (`Periods`): the period generator. It is a specification
  function `Schedule`, and the method `RunSchedule` keeps the source's while
  loop.
- `matching.dfy` (`Matching`): per-period totals and the truncation of
  leading unpaid periods.
- `status.dfy` (`Status`): full-period counting, amount due, next due date,
  "already paid", and the whole evaluation of one sub-policy.
- `group.dfy` (`Group`): evaluation of a group of sub-policies, the outer
  join of their period tables, and `combine_values`.

How inputs are represented:

- "Today" is a parameter everywhere.
- Database rows are values: a `Policy` and a list of `Transaction`s per
  member.
- Amounts are integers.
- A value pandas would hold as NaN or NaT is `None`.

Points where the code's behaviour is easy to misread:

- A member sub-policy that raises makes the whole group raise
  (`Group.GroupFailure`): `get_payment_status_for_main_policy` calls
  `get_payment_status_for_sub_policy` at report_active_policies.py:308 with
  no handler, so no member is skipped.
- An unsupported payment method never reaches the next-due computation:
  the period start stays `None` and evaluation raises first, either at
  `period_start.day` when the preferred day is not in 1..31 or at the
  explicit check (report_active_policies.py:102-110). The "unknown next due
  date" branch (line 252) is therefore unreachable, and
  `Status.EvaluateNextDue` proves that the next due date is always known.
- Every generated period except the last spans a full month by the
  relativedelta test of line 212 (`Periods.ScheduleFullButLast`).

## Model

| member | source | states |
|---|---|---|
| Calendar.DaysInMonth | report_active_policies.py:32 | a month has between 28 and 31 days |
| Calendar.AddOneMonthStrict | report_active_policies.py:23-42 | the result is strictly later; when the day exists in the next month, it is that day of the next month; otherwise it is the 1st of the month after |
| Calendar.AddOneMonthStrictExamples | report_active_policies.py:23-42 | 2024-01-31 steps to 2024-03-01, 2024-01-15 to 2024-02-15, 2023-12-31 to 2024-01-31 and 2023-01-29 to 2023-03-01; the clamping step takes 2024-01-31 to 2024-02-29 |
| Calendar.AddOneMonthClamped | report_active_policies.py:212 | relativedelta(months=1) lands in the next month, on the same day or on that month's last day when the day does not exist |
| Calendar.ClampedNotAfterStrict | report_active_policies.py:212 | the clamped step is never later than the strict step; they agree exactly when the day exists in the next month |
| Calendar.NextDay | report_active_policies.py:133 | adding one day gives a strictly later date |
| Calendar.PrevDay | report_active_policies.py:129 | subtracting one day is undone by adding one day |
| Calendar.ReplaceDay | report_active_policies.py:84 | `Timestamp.replace(day=…)` succeeds exactly when the day exists in the month, and then gives that day of the same month |
| Anchor.Lower | report_active_policies.py:66 | lower-casing keeps the length and lower-cases every character |
| Anchor.LowerIdempotent | report_active_policies.py:66 | lower-casing twice is lower-casing once |
| Anchor.ClassifyIgnoresCase | report_active_policies.py:66-72 | the payment-method comparison ignores case |
| Anchor.DirectDebitStartFacts | report_active_policies.py:82-95 | the Direct Debit start is strictly after inception and at most two months later by month index; for a collection day in 1..31, its day is at most that collection day; when the collection day exists in the inception month and is after the inception day, the start is that day of the inception month |
| Anchor.MethodStart | report_active_policies.py:64-96 | a successful Direct Debit start needs an inception date and a collection day, is exactly the Direct Debit start for them, lies strictly after inception, and has day at most the collection day |
| Anchor.ResolveAnchor | report_active_policies.py:63-110 | it fails exactly for: a missing method, an unsupported method, PayAt with an undefined start, or Direct Debit without inception or collection day. On success it keeps the method name and its class. The collection day is the preferred day when that is in 1..31, else the start's own day. PayAt picks the first collection date when inception is before 2022-01-01 or after today, else inception. A Direct Debit start is exactly the Direct Debit start for the inception and the preferred day: after inception, at most two months later, and on or before the collection day |
| Periods.MonthEnd | report_active_policies.py:116 | a strict month's last day is not before its start, and the next day is the strict step |
| Periods.SchedulePeriods | report_active_policies.py:128-133 | every loop period starts before today, starts no later than it ends, ends no later than today, and ends at the strict month end clipped to today |
| Periods.ScheduleContiguous | report_active_policies.py:128-133 | each loop period starts the day after the previous one ends |
| Periods.ScheduleLastEnd | report_active_policies.py:128-133 | the last loop period ends today or the day before |
| Periods.ScheduleShape | report_active_policies.py:128-133 | the loop emits periods exactly when the anchor is before today; the first starts at the anchor; periods are well formed, contiguous and clipped to today; the last ends today or the day before |
| Periods.ScheduleStartDays | report_active_policies.py:128-133 | when the anchor's day of month is at most a given day, so is every loop period's start day (the strict step never moves to a later day) |
| Periods.ScheduleSuffix | report_active_policies.py:128-133 | the loop from any of its own period starts yields the rest of the periods |
| Periods.ScheduleFullButLast | report_active_policies.py:128-133 | every period but the last spans a full clamped month, so it is counted as full |
| Periods.IsFull | report_active_policies.py:212 | a period is full exactly when the day after its end is no earlier than one clamped month after its start |
| Periods.ExpectedPeriodsShape | report_active_policies.py:113-133 | there is at least one period; the first starts at the anchor; periods are well formed and contiguous; for an anchor not after today, none ends after today |
| Periods.GeneratePeriods | report_active_policies.py:113-133 | the generated periods are those of the three cases: future anchor, anchor today, loop |
| Periods.RunSchedule | report_active_policies.py:128-133 | the while loop emits the schedule from the anchor to today |
| Matching.PaidInAppend | report_active_policies.py:154-158 | a period's total over two transaction lists is the sum of their totals |
| Matching.PaidInSplit | report_active_policies.py:154-158 | splitting a date range at a day splits its total exactly |
| Matching.MatchTransactions | report_active_policies.py:150-164 | each row holds its period and the sum of numeric premiums dated inside it |
| Matching.ScheduleCoversPayments | report_active_policies.py:150-164 | the loop periods' totals add up to the total over the whole range they cover: every payment is counted once |
| Matching.FirstPaid | report_active_policies.py:169-173 | it finds the first row with a positive total, and none exactly when no row is positive |
| Matching.DropLeadingUnpaid | report_active_policies.py:169-180 | with no positive row, nothing is dropped; otherwise the result is the rows from the first positive one on |
| Matching.DropLeadingUnpaidIsSuffix | report_active_policies.py:176-180 | truncation keeps a nonempty suffix of the rows |
| Matching.MatchedSuffix | report_active_policies.py:179-180 | truncating the matched rows is matching the truncated periods |
| Status.CountFullPeriods | report_active_policies.py:209-213 | the loop counts the periods that span a full month |
| Status.CountFullAtMost | report_active_policies.py:209-213 | at most every period is full |
| Status.CountFullButLast | report_active_policies.py:209-213 | if all but the last period are full, the count is all of them or all but one |
| Status.AllFullCount | report_active_policies.py:209-213 | if every period is full, all are counted |
| Status.AmountDue | report_active_policies.py:221-222 | the amount due is never negative; it is zero exactly when the payments cover what is expected; otherwise payments plus amount due equal what is expected |
| Status.NextDue | report_active_policies.py:236-252 | no next due date exactly for an unsupported method. For Direct Debit, when the last start is not on the collection day and that day exists in its month, the due date is that day of the same month. For PayAt, and for Direct Debit otherwise, it is the strict month step from the last start |
| Status.AlreadyPaid | report_active_policies.py:260-266 | already paid exactly when the last period's total is known and at least the premium: never for an unknown (NaN) total or a total below the premium |
| Status.NextDueAfter | report_active_policies.py:236-256 | for PayAt, or for Direct Debit when the last start's day is at most the collection day, the next due date is known and strictly after the last start |
| Status.Retained | report_active_policies.py:148-180 | at least one period row is retained |
| Status.EvaluateSubPolicy | report_active_policies.py:44-271 | it computes the sub-policy evaluation: the rows and the status, or the error |
| Status.RetainedIsSchedule | report_active_policies.py:167-180 | the retained rows of a past anchor are the matched loop periods from a later start |
| Status.RetainedToday | report_active_policies.py:123-126 | an anchor of today yields the single period [today, today] with that day's payments |
| Status.EvaluateFuture | report_active_policies.py:181-233 | a future anchor gives one strict-month period with an unknown total; the status is up to date, nothing is due, the next due date is the anchor, and it is not already paid |
| Status.EvaluateAnchorToday | report_active_policies.py:123-126 | an anchor of today gives the single row [today, today] with the day's total |
| Status.RetainedCoverPayments | report_active_policies.py:128-213 | each retained row holds its own range's total and ends no later than today. Rows are contiguous. The last ends today or the day before. The totals add up to the total over the whole covered range. All but possibly one are full |
| Status.RetainedRows | report_active_policies.py:128-180 | each retained row holds its own range's total and ends no later than today; the rows are contiguous; the last ends today or the day before |
| Status.RetainedSum | report_active_policies.py:150-180 | the retained rows' totals add up to the total over the range they cover |
| Status.RetainedCountFull | report_active_policies.py:209-213 | all retained rows but possibly one are counted as full |
| Status.MatchedScheduleRows | report_active_policies.py:128-164 | the matched loop periods hold their own totals, are contiguous, and the last ends today or the day before |
| Status.EvaluateRowsCoverPayments | report_active_policies.py:128-213 | the same facts, stated for the evaluation of a policy whose anchor is not after today |
| Status.ContiguousStartsIncrease | report_active_policies.py:128-133 | contiguous, well-formed periods start strictly later one after another |
| Status.EvaluateStartsIncrease | report_active_policies.py:113-180 | a report's periods start strictly later one after another, so no two share a (start, end) key |
| Status.EvaluateStatusFacts | report_active_policies.py:204-267 | there is at least one row. The amount due is at least zero, and up to date means nothing is due. "Already paid" means the last row's known total reaches the premium. The payment method is passed through. For a past anchor, the amount due is the shortfall of full periods × premium against the retained totals |
| Status.EvaluateNextDue | report_active_policies.py:232-256 | the next due date is always known: the anchor when it is in the future, otherwise strictly after the last retained period's start |
| Status.EvaluateNextDueRule | report_active_policies.py:236-256 | for an anchor on or before today, the reported next due date is the per-method rule applied to the last retained period's start and the collection day |
| Status.EvaluateNoPositivePayment | report_active_policies.py:169-180 | without a positive payment, no period is dropped and the first starts at the anchor; with no transactions at all, the amount due is full periods × premium, clamped at zero |
| Status.EvaluatePaidInFull | report_active_policies.py:209-222 | when every expected period receives at least a non-negative premium, the policy is up to date and owes nothing |
| Group.AllTrue | report_active_policies.py:344-346 | the combined flag is true exactly when every member's flag is |
| Group.SumAmounts | report_active_policies.py:347-349 | the combined amount is unknown exactly when there are no known values; otherwise it is the sum of the known values, filtered out first |
| Group.CommonValue | report_active_policies.py:350-351 | the combined value is common exactly when all members' values agree pairwise, and it is then every member's value |
| Group.CommonDue | report_active_policies.py:350-351 | the combined due date is common exactly when every member's date is known and all agree pairwise (NaT never equals NaT), and it is then every member's date |
| Group.SumKnownAllKnown | report_active_policies.py:347-349 | when every amount is known, the sum of the known amounts is the members' total |
| Group.SumKnownIsSumOfKnown | report_active_policies.py:327 | counting missing values as 0 gives the sum of the known values, and there are no known values exactly when every value is missing |
| Group.Combine | report_active_policies.py:342-355 | "Up to Date" and "Next Collection Already Paid" are true exactly when every member's are; "Amount due" is the members' total. "Next Payment Due" is common exactly when the first is known and all agree. "Payment Method" is common exactly when all agree |
| Group.OuterJoinStep | report_active_policies.py:322-323 | one outer merge extends the joined columns by the next member's table |
| Group.MergeTables | report_active_policies.py:319-327 | the merge fold and total column produce the merged table of all members |
| Group.MergedRows | report_active_policies.py:319-327 | there is a merged row exactly for every period of any member. Its column i is member i's value for that period, or NaN when member i lacks it. Its total adds the known values |
| Group.MergedColumnOfTable | report_active_policies.py:319-327 | a member table with distinct periods reappears unchanged as its own column of the merged table |
| Group.LookupFinds | report_active_policies.py:323 | in a table with distinct periods, a row's own key finds that row |
| Group.CollectFacts | report_active_policies.py:307-317 | evaluating in order fails exactly when some member fails, with the first failing member's error; otherwise it yields every member's result in order |
| Group.CollectFailureSticks | report_active_policies.py:307-308 | once a member has failed, evaluating further members keeps that failure |
| Group.CollectExtend | report_active_policies.py:307-315 | evaluating one more member keeps an earlier failure, raises that member's failure, or appends its report |
| Group.EvaluateGroup | report_active_policies.py:287-361 | the loop over members, the merge and the combination compute the group evaluation |
| Group.GroupFailure | report_active_policies.py:307-308 | the group fails exactly when some member fails, and then with the error of the first failing member |
| Group.GroupReports | report_active_policies.py:303-315 | a group that evaluates combines exactly its members' own reports, in order |
| Group.GroupStatusFacts | report_active_policies.py:332-359 | an empty group has no combined status and no rows; otherwise it is up to date (or already paid) exactly when every member is |
| Group.GroupAmountDue | report_active_policies.py:347-349 | the combined amount due is the sum of the members' amounts due |
| Group.GroupMergedRows | report_active_policies.py:319-327 | the merged rows are the periods of any member. Column i of each is member i's total for that period. The total adds the known values |
| Group.GroupMemberColumns | report_active_policies.py:310-327 | every member's own period table reappears as its column of the merged table |

## Left out

- Database access: the SQLite queries, the connection, and the
  console diagnostics. A policy row, its transactions and the group's
  members are inputs.
- The clock: the as-of date is a parameter.
- `check_queries`, the report driver, the CSV export and the ETL scripts
  (`add_new_collections.py`, `add_new_sales.py`,
  `create_collections_table.py`, `create_policies_table.py`) are not part
  of this model.
- Floating point: premiums and amounts are integers (for example cents). A
  non-numeric transaction premium is an unknown value that sums as 0. A
  non-numeric policy premium (NaN) is not modelled.
- Anchor.Lower: only ASCII letters are lower-cased; Python's full Unicode
  `str.lower` is not modelled.
- Pandas `Timestamp` versus `datetime.date` values in the "Next Payment
  Due" comparison: both are dates here. Dates before year 1 and the
  Timestamp range limits are not modelled.
- `int(PreferredCollectionDay)`: it is `None` exactly where Python's `int()`
  raises. A day too large for the platform integer (OverflowError) is not
  modelled.
- Group.MergeTables: the merged table is a map keyed by period, so pandas'
  row order after the outer merge is not modelled.
- Group.EvaluateGroup: members with duplicate certificate identifiers are
  evaluated separately, as the merge does. The collapse of their statuses
  in the `current_status_dfs` dictionary is not modelled.
- Matching.Within: transaction dates are calendar days. The time of day of
  `Transaction_Date` is not modelled. The filter at
  report_active_policies.py:154 compares Timestamps against the midnight of
  the period's end, so a transaction later than 00:00 on a period's last day
  falls in no period there, while the model counts it in that period.
- Group.GroupReport: the combined status table at
  report_active_policies.py:337-340 and 355 also keeps each member's own
  "Value for {sub}" column. The model keeps only the combined values; each
  member's own status is available from Group.GroupReports.
- The `isinstance(result, tuple)` guard cannot fail for the sub-policy
  evaluation, so its warning branch is not modelled.
