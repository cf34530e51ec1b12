/** The group aggregator (get_payment_status_for_main_policy): evaluates
    every member sub-policy of a group, outer-joins their period tables on
    (start, end) and combines their statuses field by field. */
module Group {
  import opened Wrappers
  import opened Calendar
  import opened Anchor
  import opened Periods
  import opened Matching
  import opened Status

  /** A member sub-policy with its own transactions. */
  datatype Member = Member(policy: Policy, txns: seq<Transaction>)

  /** A field combined across members: their common value, or "Mixed". */
  datatype Agreement<T> = Common(value: T) | Mixed

  /** The "Combined Value" column of the group's status table. */
  datatype GroupStatus = GroupStatus(
    upToDate: bool,
    amountDue: Option<int>,
    nextDue: Agreement<ValidDate>,
    alreadyPaid: bool,
    paymentMethod: Agreement<string>)

  /** One row of the merged table: each member's "Paid for" column (None for
      NaN: no such period, or an unknown total) and their total. */
  datatype MergedRow = MergedRow(paid: seq<Option<int>>, total: int)

  /** The group result: the merged time series and the combined status,
      the latter absent for a group without members. */
  datatype GroupReport = GroupReport(merged: map<Period, MergedRow>, combined: Option<GroupStatus>)

  // ---------------------------------------------------------------------
  // combine_values

  /** all(...) over the members' flags. */
  function AllTrue(flags: seq<bool>): (r: bool)
    ensures r <==> forall i :: 0 <= i < |flags| ==> flags[i]
  {
    if flags == [] then true else flags[0] && AllTrue(flags[1..])
  }

  /** The sum of the known values, missing ones counted as 0. */
  function SumKnown(vals: seq<Option<int>>): int {
    if vals == [] then 0 else (if vals[0].Some? then vals[0].value else 0) + SumKnown(vals[1..])
  }

  /** The known values, in order. */
  function Known(vals: seq<Option<int>>): seq<int> {
    if vals == [] then [] else (if vals[0].Some? then [vals[0].value] else []) + Known(vals[1..])
  }

  function Sum(xs: seq<int>): int {
    if xs == [] then 0 else xs[0] + Sum(xs[1..])
  }

  /** Adding the known values while counting missing ones as 0 sums the
      known values; there are none exactly when every value is missing. */
  lemma {:induction false} SumKnownIsSumOfKnown(vals: seq<Option<int>>)
    ensures SumKnown(vals) == Sum(Known(vals))
    ensures Known(vals) == [] <==> forall i :: 0 <= i < |vals| ==> vals[i].None?
  {
    if vals != [] {
      SumKnownIsSumOfKnown(vals[1..]);
      var head := if vals[0].Some? then [vals[0].value] else [];
      assert Known(vals) == head + Known(vals[1..]);
      if head != [] {
        assert (head + Known(vals[1..]))[0] == vals[0].value;
        assert (head + Known(vals[1..]))[1..] == Known(vals[1..]);
      } else {
        assert head + Known(vals[1..]) == Known(vals[1..]);
      }
      assert (forall i :: 0 <= i < |vals| ==> vals[i].None?) <==>
        vals[0].None? && forall i :: 0 <= i < |vals[1..]| ==> vals[1..][i].None? by {
        if forall i :: 0 <= i < |vals[1..]| ==> vals[1..][i].None? {
          forall i | 1 <= i < |vals| ensures vals[i].None? {
            assert vals[i] == vals[1..][i - 1];
          }
        }
      }
    }
  }

  /** pd.to_numeric(row).sum(min_count=1): unknown when no value is known,
      otherwise the sum of the known values. */
  function SumAmounts(vals: seq<Option<int>>): (r: Option<int>)
    ensures r.None? <==> Known(vals) == []
    ensures r.Some? ==> r.value == Sum(Known(vals))
  {
    SumKnownIsSumOfKnown(vals);
    if forall i :: 0 <= i < |vals| ==> vals[i].None? then None else Some(SumKnown(vals))
  }

  /** The first value when every value equals it, "Mixed" otherwise: the
      values are common exactly when all of them agree pairwise, and then
      the combined value is every member's value. */
  function CommonValue<T(==)>(vals: seq<T>): (r: Agreement<T>)
    requires |vals| > 0
    ensures r.Common? <==> forall i, j :: 0 <= i < |vals| && 0 <= j < |vals| ==> vals[i] == vals[j]
    ensures r.Common? ==> forall i :: 0 <= i < |vals| ==> vals[i] == r.value
  {
    if forall i :: 0 <= i < |vals| ==> vals[i] == vals[0] then Common(vals[0]) else Mixed
  }

  /** CommonValue for due dates, where an unknown date (NaT) never compares
      equal, not even to itself: common exactly when every date is known
      and all agree pairwise. */
  function CommonDue(vals: seq<Option<ValidDate>>): (r: Agreement<ValidDate>)
    requires |vals| > 0
    ensures r.Common? <==>
      (forall i :: 0 <= i < |vals| ==> vals[i].Some?) &&
      (forall i, j :: 0 <= i < |vals| && 0 <= j < |vals| ==> vals[i] == vals[j])
    ensures r.Common? ==> forall i :: 0 <= i < |vals| ==> vals[i] == Some(r.value)
  {
    if vals[0].Some? && forall i :: 0 <= i < |vals| ==> vals[i] == vals[0] then Common(vals[0].value) else Mixed
  }

  /** The sum of the members' amounts due. */
  function TotalDue(statuses: seq<PolicyStatus>): int {
    if statuses == [] then 0 else statuses[0].amountDue + TotalDue(statuses[1..])
  }

  // The columns of the members' status tables.

  function UpToDateFlags(statuses: seq<PolicyStatus>): (r: seq<bool>)
    ensures |r| == |statuses| && forall i :: 0 <= i < |r| ==> r[i] == statuses[i].upToDate
  {
    seq(|statuses|, i requires 0 <= i < |statuses| => statuses[i].upToDate)
  }

  function AlreadyPaidFlags(statuses: seq<PolicyStatus>): (r: seq<bool>)
    ensures |r| == |statuses| && forall i :: 0 <= i < |r| ==> r[i] == statuses[i].alreadyPaid
  {
    seq(|statuses|, i requires 0 <= i < |statuses| => statuses[i].alreadyPaid)
  }

  function Amounts(statuses: seq<PolicyStatus>): (r: seq<Option<int>>)
    ensures |r| == |statuses| && forall i :: 0 <= i < |r| ==> r[i] == Some(statuses[i].amountDue)
  {
    seq(|statuses|, i requires 0 <= i < |statuses| => Some(statuses[i].amountDue))
  }

  function DueDates(statuses: seq<PolicyStatus>): (r: seq<Option<ValidDate>>)
    ensures |r| == |statuses| && forall i :: 0 <= i < |r| ==> r[i] == statuses[i].nextDue
  {
    seq(|statuses|, i requires 0 <= i < |statuses| => statuses[i].nextDue)
  }

  function Methods(statuses: seq<PolicyStatus>): (r: seq<string>)
    ensures |r| == |statuses| && forall i :: 0 <= i < |r| ==> r[i] == statuses[i].paymentMethod
  {
    seq(|statuses|, i requires 0 <= i < |statuses| => statuses[i].paymentMethod)
  }

  lemma {:induction false} SumKnownAllKnown(statuses: seq<PolicyStatus>)
    ensures SumKnown(Amounts(statuses)) == TotalDue(statuses)
  {
    if statuses != [] {
      assert Amounts(statuses)[1..] == Amounts(statuses[1..]);
      SumKnownAllKnown(statuses[1..]);
    }
  }

  /** The combined status: AND of the flags, sum of the amounts, common
      value or "Mixed" for the next due date and the payment method. */
  function Combine(statuses: seq<PolicyStatus>): (g: GroupStatus)
    requires |statuses| > 0
    ensures g.upToDate <==> forall i :: 0 <= i < |statuses| ==> statuses[i].upToDate
    ensures g.alreadyPaid <==> forall i :: 0 <= i < |statuses| ==> statuses[i].alreadyPaid
    ensures g.amountDue == Some(TotalDue(statuses))
    ensures g.nextDue.Common? <==>
      statuses[0].nextDue.Some? && forall i :: 0 <= i < |statuses| ==> statuses[i].nextDue == statuses[0].nextDue
    ensures g.nextDue.Common? ==> Some(g.nextDue.value) == statuses[0].nextDue
    ensures g.paymentMethod.Common? <==>
      forall i :: 0 <= i < |statuses| ==> statuses[i].paymentMethod == statuses[0].paymentMethod
    ensures g.paymentMethod.Common? ==> g.paymentMethod.value == statuses[0].paymentMethod
  {
    SumKnownAllKnown(statuses);
    GroupStatus(AllTrue(UpToDateFlags(statuses)), SumAmounts(Amounts(statuses)), CommonDue(DueDates(statuses)),
      AllTrue(AlreadyPaidFlags(statuses)), CommonValue(Methods(statuses)))
  }

  // ---------------------------------------------------------------------
  // The outer join of the period tables on (start, end)

  /** A member's "Paid for" value in the row keyed by period k. */
  function Lookup(rows: seq<PeriodRow>, k: Period): Option<int> {
    if rows == [] then None
    else if rows[0].period == k then rows[0].paid
    else Lookup(rows[1..], k)
  }

  function KeysOf(rows: seq<PeriodRow>): set<Period> {
    set i | 0 <= i < |rows| :: rows[i].period
  }

  lemma {:induction false} LookupMissing(rows: seq<PeriodRow>, k: Period)
    requires k !in KeysOf(rows)
    ensures Lookup(rows, k) == None
  {
    if rows != [] {
      assert rows[0].period in KeysOf(rows);
      assert KeysOf(rows[1..]) <= KeysOf(rows) by {
        forall q | q in KeysOf(rows[1..]) ensures q in KeysOf(rows) {
          var i :| 0 <= i < |rows[1..]| && rows[1..][i].period == q;
          assert rows[i + 1].period == q;
        }
      }
      LookupMissing(rows[1..], k);
    }
  }

  /** The keys of the merged table: every period of every member. */
  function AllKeys(tables: seq<seq<PeriodRow>>): set<Period> {
    if tables == [] then {} else AllKeys(tables[..|tables| - 1]) + KeysOf(tables[|tables| - 1])
  }

  /** The "Paid for" columns of the merged row keyed by k. */
  function Column(tables: seq<seq<PeriodRow>>, k: Period): (c: seq<Option<int>>)
    ensures |c| == |tables|
  {
    if tables == [] then [] else Column(tables[..|tables| - 1], k) + [Lookup(tables[|tables| - 1], k)]
  }

  function Nones(n: nat): (r: seq<Option<int>>)
    ensures |r| == n && forall i :: 0 <= i < n ==> r[i].None?
  {
    if n == 0 then [] else Nones(n - 1) + [None]
  }

  lemma {:induction false} ColumnOfMissing(tables: seq<seq<PeriodRow>>, k: Period)
    requires k !in AllKeys(tables)
    ensures Column(tables, k) == Nones(|tables|)
  {
    if tables != [] {
      LookupMissing(tables[|tables| - 1], k);
      ColumnOfMissing(tables[..|tables| - 1], k);
    }
  }

  function MergedColumns(tables: seq<seq<PeriodRow>>): map<Period, seq<Option<int>>> {
    map k | k in AllKeys(tables) :: Column(tables, k)
  }

  /** The merged table with its "Total Paid for All Sub-Policies" column. */
  function Merged(tables: seq<seq<PeriodRow>>): map<Period, MergedRow> {
    map k | k in AllKeys(tables) :: MergedRow(Column(tables, k), SumKnown(Column(tables, k)))
  }

  /** One pd.merge(..., how="outer") step: the columns so far, padded with
      NaN for the new member's periods they lack, plus the new member's
      column. */
  function OuterJoin(cols: map<Period, seq<Option<int>>>, width: nat, rows: seq<PeriodRow>): map<Period, seq<Option<int>>> {
    map k | k in cols.Keys + KeysOf(rows) :: (if k in cols then cols[k] else Nones(width)) + [Lookup(rows, k)]
  }

  lemma OuterJoinStep(tables: seq<seq<PeriodRow>>, i: nat)
    requires 0 <= i < |tables|
    ensures OuterJoin(MergedColumns(tables[..i]), i, tables[i]) == MergedColumns(tables[..i + 1])
  {
    var prefix, next := tables[..i], tables[..i + 1];
    assert next[..i] == prefix;
    assert AllKeys(next) == AllKeys(prefix) + KeysOf(tables[i]);
    forall k | k in AllKeys(next) && k !in AllKeys(prefix)
      ensures Column(prefix, k) == Nones(i)
    {
      ColumnOfMissing(prefix, k);
    }
  }

  /** The fold over time_series_dfs and the total column. */
  method MergeTables(tables: seq<seq<PeriodRow>>) returns (merged: map<Period, MergedRow>)
    ensures merged == Merged(tables)
  {
    var cols: map<Period, seq<Option<int>>> := map[];
    if |tables| > 0 {
      cols := map k | k in KeysOf(tables[0]) :: [Lookup(tables[0], k)];
      OuterJoinStep(tables, 0);
      assert MergedColumns(tables[..0]) == map[] by {
        assert AllKeys(tables[..0]) == {};
      }
      ghost var first := OuterJoin(map[], 0, tables[0]);
      assert first.Keys == cols.Keys;
      forall k | k in cols ensures first[k] == cols[k] {
        assert Nones(0) == [];
      }
      for i := 1 to |tables|
        invariant cols == MergedColumns(tables[..i])
      {
        OuterJoinStep(tables, i);
        cols := OuterJoin(cols, i, tables[i]);
      }
      assert tables[..|tables|] == tables;
    }
    merged := map k | k in cols :: MergedRow(cols[k], SumKnown(cols[k]));
  }

  lemma {:induction false} AllKeysMembers(tables: seq<seq<PeriodRow>>, k: Period)
    ensures k in AllKeys(tables) <==> exists i, j :: 0 <= i < |tables| && 0 <= j < |tables[i]| && tables[i][j].period == k
  {
    if tables != [] {
      var prefix := tables[..|tables| - 1];
      AllKeysMembers(prefix, k);
      if k in AllKeys(tables) {
        if k !in AllKeys(prefix) {
          var j :| 0 <= j < |tables[|tables| - 1]| && tables[|tables| - 1][j].period == k;
        }
      } else {
        forall i, j | 0 <= i < |tables| && 0 <= j < |tables[i]|
          ensures tables[i][j].period != k
        {
          if i < |tables| - 1 {
            assert prefix[i] == tables[i];
          } else {
            assert tables[i][j].period in KeysOf(tables[i]);
          }
        }
      }
    }
  }

  lemma {:induction false} ColumnAt(tables: seq<seq<PeriodRow>>, k: Period, i: nat)
    requires i < |tables|
    ensures Column(tables, k)[i] == Lookup(tables[i], k)
  {
    if i < |tables| - 1 {
      ColumnAt(tables[..|tables| - 1], k, i);
    }
  }

  /** The merged table: one row per period of any member; in it, member
      i's column holds member i's total for exactly that period (None when
      member i has no such period or its total is unknown), and the total
      adds the known values, counting missing ones as 0. */
  lemma MergedRows(tables: seq<seq<PeriodRow>>, k: Period)
    ensures k in Merged(tables) <==>
      exists i, j :: 0 <= i < |tables| && 0 <= j < |tables[i]| && tables[i][j].period == k
    ensures k in Merged(tables) ==>
      && |Merged(tables)[k].paid| == |tables|
      && (forall i :: 0 <= i < |tables| ==> Merged(tables)[k].paid[i] == Lookup(tables[i], k))
      && Merged(tables)[k].total == SumKnown(Merged(tables)[k].paid)
  {
    AllKeysMembers(tables, k);
    forall i | 0 <= i < |tables|
      ensures Column(tables, k)[i] == Lookup(tables[i], k)
    {
      ColumnAt(tables, k, i);
    }
  }

  /** A row's own period finds that row's total. */
  lemma {:induction false} LookupFinds(rows: seq<PeriodRow>, j: nat)
    requires j < |rows|
    requires forall a, b :: 0 <= a < b < |rows| ==> rows[a].period != rows[b].period
    ensures Lookup(rows, rows[j].period) == rows[j].paid
  {
    if j > 0 {
      LookupFinds(rows[1..], j - 1);
    }
  }

  // ---------------------------------------------------------------------
  // The group evaluation

  /** Each member's own evaluation, in member order. */
  function Outcomes(members: seq<Member>, today: ValidDate): (r: seq<Result<Report, Error>>)
    ensures |r| == |members|
    ensures forall i :: 0 <= i < |members| ==> r[i] == Evaluate(members[i].policy, members[i].txns, today)
  {
    seq(|members|, i requires 0 <= i < |members| => Evaluate(members[i].policy, members[i].txns, today))
  }

  /** Evaluations run in order: all the values, or the first error. */
  function Collect<T>(outcomes: seq<Result<T, Error>>): Result<seq<T>, Error> {
    if outcomes == [] then Success([])
    else
      var values :- Collect(outcomes[..|outcomes| - 1]);
      var value :- outcomes[|outcomes| - 1];
      Success(values + [value])
  }

  /** Collection fails exactly when some outcome is a failure, with the
      error of the first one; otherwise it holds every value, in order. */
  lemma {:induction false} CollectFacts<T>(outcomes: seq<Result<T, Error>>)
    ensures Collect(outcomes).Failure? <==> exists i :: 0 <= i < |outcomes| && outcomes[i].Failure?
    ensures Collect(outcomes).Failure? ==>
      exists i :: 0 <= i < |outcomes| && outcomes[i] == Failure(Collect(outcomes).error)
        && forall j :: 0 <= j < i ==> outcomes[j].Success?
    ensures Collect(outcomes).Success? ==>
      && |Collect(outcomes).value| == |outcomes|
      && forall i :: 0 <= i < |outcomes| ==> outcomes[i] == Success(Collect(outcomes).value[i])
  {
    if outcomes != [] {
      var n := |outcomes| - 1;
      var prefix := outcomes[..n];
      CollectFacts(prefix);
      assert forall i :: 0 <= i < n ==> prefix[i] == outcomes[i];
      if Collect(prefix).Failure? {
        var i :| 0 <= i < n && prefix[i] == Failure(Collect(prefix).error)
          && forall j :: 0 <= j < i ==> prefix[j].Success?;
        assert outcomes[i].Failure?;
      } else if outcomes[n].Failure? {
        assert forall j :: 0 <= j < n ==> outcomes[j].Success?;
      } else {
        assert Collect(outcomes).value == Collect(prefix).value + [outcomes[n].value];
      }
    }
  }

  /** One more outcome: its failure, or its value appended. */
  lemma CollectExtend<T>(outcomes: seq<Result<T, Error>>, i: nat)
    requires i < |outcomes|
    ensures Collect(outcomes[..i]).Failure? ==> Collect(outcomes[..i + 1]) == Collect(outcomes[..i])
    ensures Collect(outcomes[..i]).Success? && outcomes[i].Failure? ==>
      Collect(outcomes[..i + 1]) == Failure(outcomes[i].error)
    ensures Collect(outcomes[..i]).Success? && outcomes[i].Success? ==>
      Collect(outcomes[..i + 1]) == Success(Collect(outcomes[..i]).value + [outcomes[i].value])
  {
    assert outcomes[..i + 1][..i] == outcomes[..i];
  }

  lemma {:induction false} CollectFailureSticks<T>(outcomes: seq<Result<T, Error>>, i: nat, j: nat)
    requires i <= j <= |outcomes|
    requires Collect(outcomes[..i]).Failure?
    ensures Collect(outcomes[..j]) == Collect(outcomes[..i])
    decreases j
  {
    if j > i {
      CollectFailureSticks(outcomes, i, j - 1);
      assert outcomes[..j][..j - 1] == outcomes[..j - 1];
    }
  }

  function Tables(reports: seq<Report>): (r: seq<seq<PeriodRow>>)
    ensures |r| == |reports| && forall i :: 0 <= i < |r| ==> r[i] == reports[i].rows
  {
    seq(|reports|, i requires 0 <= i < |reports| => reports[i].rows)
  }

  function Statuses(reports: seq<Report>): (r: seq<PolicyStatus>)
    ensures |r| == |reports| && forall i :: 0 <= i < |r| ==> r[i] == reports[i].status
  {
    seq(|reports|, i requires 0 <= i < |reports| => reports[i].status)
  }

  /** The merged table and the combined status of the members' reports. */
  function Aggregate(reports: seq<Report>): GroupReport {
    var combined := if reports == [] then None else Some(Combine(Statuses(reports)));
    GroupReport(Merged(Tables(reports)), combined)
  }

  /** The specification of the group evaluation. */
  function EvaluateGroupSpec(members: seq<Member>, today: ValidDate): Result<GroupReport, Error> {
    var reports :- Collect(Outcomes(members, today));
    Success(Aggregate(reports))
  }

  /** get_payment_status_for_main_policy: evaluates the members in order,
      letting the first failure propagate, then merges and combines. */
  method EvaluateGroup(members: seq<Member>, today: ValidDate) returns (r: Result<GroupReport, Error>)
    ensures r == EvaluateGroupSpec(members, today)
  {
    ghost var outcomes := Outcomes(members, today);
    var reports: seq<Report> := [];
    for i := 0 to |members|
      invariant Collect(outcomes[..i]) == Success(reports)
    {
      var result := EvaluateSubPolicy(members[i].policy, members[i].txns, today);
      CollectExtend(outcomes, i);
      if result.Failure? {
        CollectFailureSticks(outcomes, i + 1, |members|);
        assert outcomes[..|members|] == outcomes;
        return Failure(result.error);
      }
      reports := reports + [result.value];
    }
    assert outcomes[..|members|] == outcomes;
    var merged := MergeTables(Tables(reports));
    var combined: Option<GroupStatus> := None;
    if |reports| > 0 {
      combined := Some(Combine(Statuses(reports)));
    }
    r := Success(GroupReport(merged, combined));
  }

  /** The group fails exactly when some member fails, and then with the
      error of the first failing member. */
  lemma GroupFailure(members: seq<Member>, today: ValidDate)
    ensures EvaluateGroupSpec(members, today).Failure? <==>
      exists i :: 0 <= i < |members| && Evaluate(members[i].policy, members[i].txns, today).Failure?
    ensures EvaluateGroupSpec(members, today).Failure? ==>
      exists i :: 0 <= i < |members|
        && Evaluate(members[i].policy, members[i].txns, today) == Failure(EvaluateGroupSpec(members, today).error)
        && forall j :: 0 <= j < i ==> Evaluate(members[j].policy, members[j].txns, today).Success?
  {
    CollectFacts(Outcomes(members, today));
  }

  /** A member's evaluation succeeds and reports it up to date. */
  predicate MemberUpToDate(m: Member, today: ValidDate) {
    var r := Evaluate(m.policy, m.txns, today);
    r.Success? && r.value.status.upToDate
  }

  /** A member's evaluation succeeds and reports it already paid. */
  predicate MemberAlreadyPaid(m: Member, today: ValidDate) {
    var r := Evaluate(m.policy, m.txns, today);
    r.Success? && r.value.status.alreadyPaid
  }

  /** The reports a group that evaluates combines: each member's own. */
  lemma GroupReports(members: seq<Member>, today: ValidDate) returns (reports: seq<Report>)
    requires EvaluateGroupSpec(members, today).Success?
    ensures EvaluateGroupSpec(members, today).value == Aggregate(reports)
    ensures |reports| == |members|
    ensures forall i :: 0 <= i < |members| ==> Evaluate(members[i].policy, members[i].txns, today) == Success(reports[i])
  {
    CollectFacts(Outcomes(members, today));
    reports := Collect(Outcomes(members, today)).value;
  }

  /** The combined status of a group that evaluates: up to date and already
      paid exactly when every member is, the amount due is the members'
      total, and an empty group has no combined status and no rows. */
  lemma GroupStatusFacts(members: seq<Member>, today: ValidDate)
    requires EvaluateGroupSpec(members, today).Success?
    ensures var g := EvaluateGroupSpec(members, today).value;
      && (members == [] <==> g.combined.None?)
      && (members == [] ==> g.merged == map[])
      && (g.combined.Some? ==>
            && (g.combined.value.upToDate <==>
                  forall i :: 0 <= i < |members| ==> MemberUpToDate(members[i], today))
            && (g.combined.value.alreadyPaid <==>
                  forall i :: 0 <= i < |members| ==> MemberAlreadyPaid(members[i], today)))
  {
    var reports := GroupReports(members, today);
    if members == [] {
      assert AllKeys(Tables(reports)) == {};
    }
  }

  /** The combined amount due is the sum of the members' amounts due. */
  lemma GroupAmountDue(members: seq<Member>, today: ValidDate) returns (reports: seq<Report>)
    requires EvaluateGroupSpec(members, today).Success? && members != []
    ensures |reports| == |members|
    ensures forall i :: 0 <= i < |members| ==> Evaluate(members[i].policy, members[i].txns, today) == Success(reports[i])
    ensures EvaluateGroupSpec(members, today).value.combined == Some(Combine(Statuses(reports)))
    ensures EvaluateGroupSpec(members, today).value.combined.value.amountDue == Some(TotalDue(Statuses(reports)))
  {
    reports := GroupReports(members, today);
  }

  /** The merged rows of a group that evaluates: one per period of any
      member, each holding every member's own total for that period. */
  lemma GroupMergedRows(members: seq<Member>, today: ValidDate, k: Period) returns (reports: seq<Report>)
    requires EvaluateGroupSpec(members, today).Success?
    ensures |reports| == |members|
    ensures forall i :: 0 <= i < |members| ==> Evaluate(members[i].policy, members[i].txns, today) == Success(reports[i])
    ensures var g := EvaluateGroupSpec(members, today).value;
      && (k in g.merged <==>
            exists i, j :: 0 <= i < |reports| && 0 <= j < |reports[i].rows| && reports[i].rows[j].period == k)
      && (k in g.merged ==>
            && |g.merged[k].paid| == |members|
            && (forall i :: 0 <= i < |members| ==> g.merged[k].paid[i] == Lookup(reports[i].rows, k))
            && g.merged[k].total == SumKnown(g.merged[k].paid))
  {
    reports := GroupReports(members, today);
    MergedRows(Tables(reports), k);
  }

  /** A table whose periods are distinct is its own column of the merged
      table: the row keyed by any of its periods holds that period's value. */
  lemma MergedColumnOfTable(tables: seq<seq<PeriodRow>>, i: nat)
    requires i < |tables|
    requires forall a, b :: 0 <= a < b < |tables[i]| ==> tables[i][a].period != tables[i][b].period
    ensures forall j :: 0 <= j < |tables[i]| ==>
      && tables[i][j].period in Merged(tables)
      && |Merged(tables)[tables[i][j].period].paid| == |tables|
      && Merged(tables)[tables[i][j].period].paid[i] == tables[i][j].paid
  {
    forall j | 0 <= j < |tables[i]|
      ensures tables[i][j].period in Merged(tables)
      ensures |Merged(tables)[tables[i][j].period].paid| == |tables|
      ensures Merged(tables)[tables[i][j].period].paid[i] == tables[i][j].paid
    {
      MergedRows(tables, tables[i][j].period);
      LookupFinds(tables[i], j);
    }
  }

  /** Each member's column of the merged table is its own period table: the
      row keyed by any of the member's periods holds that period's total. */
  lemma GroupMemberColumns(members: seq<Member>, today: ValidDate) returns (reports: seq<Report>)
    requires EvaluateGroupSpec(members, today).Success?
    ensures EvaluateGroupSpec(members, today).value == Aggregate(reports)
    ensures |reports| == |members|
    ensures forall i :: 0 <= i < |members| ==> Evaluate(members[i].policy, members[i].txns, today) == Success(reports[i])
    ensures forall i, j :: 0 <= i < |members| && 0 <= j < |reports[i].rows| ==>
      && reports[i].rows[j].period in Aggregate(reports).merged
      && |Aggregate(reports).merged[reports[i].rows[j].period].paid| == |members|
      && Aggregate(reports).merged[reports[i].rows[j].period].paid[i] == reports[i].rows[j].paid
  {
    reports := GroupReports(members, today);
    var tables: seq<seq<PeriodRow>> := Tables(reports);
    forall i | 0 <= i < |members|
      ensures forall j :: 0 <= j < |tables[i]| ==>
        && tables[i][j].period in Merged(tables)
        && |Merged(tables)[tables[i][j].period].paid| == |tables|
        && Merged(tables)[tables[i][j].period].paid[i] == tables[i][j].paid
    {
      EvaluateStartsIncrease(members[i].policy, members[i].txns, today);
      MergedColumnOfTable(tables, i);
    }
  }
}
