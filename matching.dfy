/** The transaction matcher: sums the premiums received in each period and
    drops the periods before the first one with a positive total. */
module Matching {
  import opened Wrappers
  import opened Calendar
  import opened Periods

  /** A collection record of the sub-policy. A None date is NaT; a None
      premium is one pd.to_numeric(..., errors='coerce') turns into NaN. */
  datatype Transaction = Transaction(date: Option<ValidDate>, premium: Option<int>)

  /** A period and the premium paid in it; None where nothing can be known
      yet (the anchor is after today). */
  datatype PeriodRow = PeriodRow(period: Period, paid: Option<int>)

  predicate Within(d: ValidDate, p: Period) {
    NotAfter(p.start, d) && NotAfter(d, p.end)
  }

  /** What one transaction adds to the sum of period p: its premium when it
      is dated inside p and numeric, nothing otherwise. */
  function Contribution(t: Transaction, p: Period): int {
    if t.date.Some? && Within(t.date.value, p) && t.premium.Some? then t.premium.value else 0
  }

  /** The premium paid in period p: the sum over the transactions dated
      from p.start to p.end inclusive, skipping non-numeric premiums; 0 when
      there are none. */
  function PaidIn(txns: seq<Transaction>, p: Period): int {
    if txns == [] then 0 else Contribution(txns[0], p) + PaidIn(txns[1..], p)
  }

  /** Every transaction dated in the period is counted once. */
  lemma {:induction false} PaidInAppend(a: seq<Transaction>, b: seq<Transaction>, p: Period)
    ensures PaidIn(a + b, p) == PaidIn(a, p) + PaidIn(b, p)
  {
    if a != [] {
      assert (a + b)[1..] == a[1..] + b;
      PaidInAppend(a[1..], b, p);
    } else {
      assert a + b == b;
    }
  }

  /** Splitting a date range at any day splits the sum: no transaction is
      lost or counted twice. */
  lemma {:induction false} PaidInSplit(txns: seq<Transaction>, s: ValidDate, e1: ValidDate, e2: ValidDate)
    requires NotAfter(s, e1) && Before(e1, e2)
    ensures PaidIn(txns, Period(s, e2)) == PaidIn(txns, Period(s, e1)) + PaidIn(txns, Period(NextDay(e1), e2))
  {
    if txns != [] {
      var t := txns[0];
      if t.date.Some? && !NotAfter(t.date.value, e1) {
        NextDayAdjacent(e1, t.date.value);
      }
      PaidInSplit(txns[1..], s, e1, e2);
    }
  }

  /** The rows the matcher builds for the given periods. */
  function Matched(periods: seq<Period>, txns: seq<Transaction>): seq<PeriodRow> {
    seq(|periods|, i requires 0 <= i < |periods| => PeriodRow(periods[i], Some(PaidIn(txns, periods[i]))))
  }

  /** The `for` loop over period_df that builds period_status. */
  method MatchTransactions(periods: seq<Period>, txns: seq<Transaction>) returns (rows: seq<PeriodRow>)
    ensures rows == Matched(periods, txns)
  {
    rows := [];
    for i := 0 to |periods|
      invariant |rows| == i
      invariant forall j :: 0 <= j < i ==> rows[j] == PeriodRow(periods[j], Some(PaidIn(txns, periods[j])))
    {
      var total := PaidIn(txns, periods[i]);
      rows := rows + [PeriodRow(periods[i], Some(total))];
    }
  }

  /** Sum of the known totals (pandas' sum skips NaN). */
  function SumPaid(rows: seq<PeriodRow>): int {
    if rows == [] then 0 else (if rows[0].paid.Some? then rows[0].paid.value else 0) + SumPaid(rows[1..])
  }

  lemma MatchedCons(p: Period, rest: seq<Period>, txns: seq<Transaction>)
    ensures Matched([p] + rest, txns) == [PeriodRow(p, Some(PaidIn(txns, p)))] + Matched(rest, txns)
  {
  }

  lemma SumPaidCons(row: PeriodRow, rows: seq<PeriodRow>)
    ensures SumPaid([row] + rows) == (if row.paid.Some? then row.paid.value else 0) + SumPaid(rows)
  {
    assert ([row] + rows)[1..] == rows;
  }

  /** Over the loop's periods, the matched totals add up to the sum over the
      whole range from the anchor to the last period's end. */
  lemma {:induction false} ScheduleCoversPayments(start: ValidDate, today: ValidDate, txns: seq<Transaction>)
    requires Before(start, today)
    ensures var ps := Schedule(start, today);
      && |ps| > 0
      && NotAfter(start, ps[|ps| - 1].end)
      && SumPaid(Matched(ps, txns)) == PaidIn(txns, Period(start, ps[|ps| - 1].end))
    decreases Rank(today) - Rank(start)
  {
    var e := ClippedEnd(start, today);
    var next := NextDay(e);
    RankIncreases(start, next);
    ScheduleStep(start, today);
    var rest := Schedule(next, today);
    MatchedCons(Period(start, e), rest, txns);
    SumPaidCons(PeriodRow(Period(start, e), Some(PaidIn(txns, Period(start, e)))), Matched(rest, txns));
    if Before(next, today) {
      ScheduleCoversPayments(next, today, txns);
      var last := rest[|rest| - 1].end;
      PaidInSplit(txns, start, e, last);
    } else {
      assert rest == [];
    }
  }

  predicate PaidPositive(row: PeriodRow) {
    row.paid.Some? && row.paid.value > 0
  }

  /** The index of the first row with a positive total, if any. */
  function FirstPaid(rows: seq<PeriodRow>): (r: Option<nat>)
    ensures r.None? <==> forall i :: 0 <= i < |rows| ==> !PaidPositive(rows[i])
    ensures r.Some? ==>
      && r.value < |rows|
      && PaidPositive(rows[r.value])
      && forall j :: 0 <= j < r.value ==> !PaidPositive(rows[j])
  {
    if rows == [] then None
    else if PaidPositive(rows[0]) then Some(0)
    else match FirstPaid(rows[1..])
      case None => None
      case Some(k) => Some(k + 1)
  }

  /** The truncation rule: keep the rows from the first one with a positive
      total on; keep all of them when none has one. */
  function DropLeadingUnpaid(rows: seq<PeriodRow>): (r: seq<PeriodRow>)
    ensures (forall i :: 0 <= i < |rows| ==> !PaidPositive(rows[i])) ==> r == rows
    ensures (exists i :: 0 <= i < |rows| && PaidPositive(rows[i])) ==>
      exists k :: 0 <= k < |rows| && r == rows[k..] && PaidPositive(rows[k])
        && forall j :: 0 <= j < k ==> !PaidPositive(rows[j])
  {
    match FirstPaid(rows)
    case None => rows
    case Some(k) => rows[k..]
  }

  /** Where the truncation cuts: the first row with a positive total, or 0. */
  function KeptFrom(rows: seq<PeriodRow>): nat {
    match FirstPaid(rows)
    case None => 0
    case Some(k) => k
  }

  lemma DropLeadingUnpaidIsSuffix(rows: seq<PeriodRow>)
    requires |rows| > 0
    ensures KeptFrom(rows) < |rows| && DropLeadingUnpaid(rows) == rows[KeptFrom(rows)..]
  {
  }

  lemma MatchedSuffix(periods: seq<Period>, txns: seq<Transaction>, k: nat)
    requires k <= |periods|
    ensures Matched(periods, txns)[k..] == Matched(periods[k..], txns)
  {
  }
}
