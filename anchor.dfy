/** Anchor resolution: the first billing date of a sub-policy and its
    collection day, chosen by payment method (PayAt or Direct Debit). */
module Anchor {
  import opened Wrappers
  import opened Calendar

  /** The payment method after the case-insensitive comparison against
      "payat" and "direct debit". */
  datatype PaymentKind = PayAt | DirectDebit | Other

  /** The policy attributes the engine reads. A None date is pandas' NaT;
      preferredDay is what Python's int(...) yields from the stored
      PreferredCollectionDay, None where int(...) raises. */
  datatype Policy = Policy(
    firstCollection: Option<ValidDate>,
    inception: Option<ValidDate>,
    premium: int,
    paymentMethod: Option<string>,
    preferredDay: Option<int>)

  /** The ways the evaluation of one sub-policy raises. */
  datatype Error =
    | MissingPaymentMethod   // .lower() on a missing Payment_Method
    | InvalidInceptionDate   // Direct Debit without an inception date
    | InvalidCollectionDay   // Direct Debit whose preferred day int(...) rejects
    | NoPeriodStart          // no anchor could be determined

  /** A resolved anchor: the method as stored, its kind, the first period
      start and the collection day used for Direct Debit due dates. */
  datatype Anchor = Anchor(kind: PaymentKind, methodName: string, start: ValidDate, collectionDay: int)

  /** PayAt policies incepted before this date bill from FirstCollectionDate. */
  const PayAtCutoff: ValidDate := Date(2022, 1, 1)

  function LowerChar(c: char): char {
    if 'A' <= c <= 'Z' then (c as int + 32) as char else c
  }

  /** str.lower() on ASCII letters. */
  function Lower(s: string): (r: string)
    ensures |r| == |s|
    ensures forall i :: 0 <= i < |s| ==> r[i] == LowerChar(s[i])
  {
    if s == [] then [] else [LowerChar(s[0])] + Lower(s[1..])
  }

  function Classify(name: string): PaymentKind {
    var lower := Lower(name);
    if lower == "payat" then PayAt
    else if lower == "direct debit" then DirectDebit
    else Other
  }

  lemma {:induction false} LowerIdempotent(s: string)
    ensures Lower(Lower(s)) == Lower(s)
  {
    if s != [] {
      LowerIdempotent(s[1..]);
    }
  }

  /** The method comparison ignores letter case. */
  lemma ClassifyIgnoresCase(name: string)
    ensures Classify(Lower(name)) == Classify(name)
  {
    LowerIdempotent(name);
  }

  /** The PayAt anchor: FirstCollectionDate for inceptions before the cutoff
      or after today, otherwise the inception date. A NaT inception fails both
      comparisons, so the NaT inception itself is chosen. */
  function PayAtStart(p: Policy, today: ValidDate): Option<ValidDate> {
    match p.inception
    case None => None
    case Some(inc) =>
      if Before(inc, PayAtCutoff) || Before(today, inc) then p.firstCollection else p.inception
  }

  /** The Direct Debit anchor: the inception month's collection day, or one
      strict month after inception when that day does not exist; stepped once
      more when it is not after inception. */
  function DirectDebitStart(inception: ValidDate, day: int): ValidDate {
    var candidate :=
      match ReplaceDay(inception, day)
      case Some(c) => c
      case None => AddOneMonthStrict(inception);
    if Before(inception, candidate) then candidate else AddOneMonthStrict(candidate)
  }

  lemma DirectDebitStartFacts(inception: ValidDate, day: int)
    ensures Before(inception, DirectDebitStart(inception, day))
    ensures 1 <= day <= 31 ==> DirectDebitStart(inception, day).day <= day
    ensures MonthIndex(inception) <= MonthIndex(DirectDebitStart(inception, day)) <= MonthIndex(inception) + 2
    ensures inception.day < day <= DaysInMonth(inception.year, inception.month) ==>
      DirectDebitStart(inception, day) == Date(inception.year, inception.month, day)
  {
    MonthIndexParts(inception);
    match ReplaceDay(inception, day)
    case Some(c) =>
      MonthIndexParts(c);
      if !Before(inception, c) {
        MonthIndexOrder(inception, AddOneMonthStrict(c));
      }
    case None =>
  }

  /** The anchor chosen by each method's branch; None where no branch sets
      one, Failure where the Direct Debit branch raises. */
  function MethodStart(p: Policy, kind: PaymentKind, today: ValidDate): (r: Result<Option<ValidDate>, Error>)
    ensures kind == DirectDebit && r.Success? ==>
      && p.inception.Some? && p.preferredDay.Some? && r.value.Some?
      && Before(p.inception.value, r.value.value)
      && (1 <= p.preferredDay.value <= 31 ==> r.value.value.day <= p.preferredDay.value)
      && r.value.value == DirectDebitStart(p.inception.value, p.preferredDay.value)
  {
    match kind
    case PayAt => Success(PayAtStart(p, today))
    case DirectDebit =>
      if p.inception.None? then Failure(InvalidInceptionDate)
      else if p.preferredDay.None? then Failure(InvalidCollectionDay)
      else
        DirectDebitStartFacts(p.inception.value, p.preferredDay.value);
        Success(Some(DirectDebitStart(p.inception.value, p.preferredDay.value)))
    case Other => Success(None)
  }

  function ResolveAnchor(p: Policy, today: ValidDate): (r: Result<Anchor, Error>)
    ensures r.Failure? <==>
      || p.paymentMethod.None?
      || Classify(p.paymentMethod.value) == Other
      || (Classify(p.paymentMethod.value) == PayAt && PayAtStart(p, today).None?)
      || (Classify(p.paymentMethod.value) == DirectDebit && (p.inception.None? || p.preferredDay.None?))
    ensures r.Success? ==>
      && Some(r.value.methodName) == p.paymentMethod
      && r.value.kind == Classify(r.value.methodName)
      && 1 <= r.value.collectionDay <= 31
      && (p.preferredDay.Some? && 1 <= p.preferredDay.value <= 31 ==> r.value.collectionDay == p.preferredDay.value)
      && (p.preferredDay.None? || !(1 <= p.preferredDay.value <= 31) ==> r.value.collectionDay == r.value.start.day)
    ensures r.Success? && r.value.kind == PayAt ==>
      Some(r.value.start) ==
        if Before(p.inception.value, Date(2022, 1, 1)) || Before(today, p.inception.value)
        then p.firstCollection else p.inception
    ensures r.Success? && r.value.kind == DirectDebit ==>
      && r.value.start == DirectDebitStart(p.inception.value, p.preferredDay.value)
      && Before(p.inception.value, r.value.start)
      && MonthIndex(r.value.start) <= MonthIndex(p.inception.value) + 2
      && r.value.start.day <= r.value.collectionDay
  {
    if p.paymentMethod.None? then Failure(MissingPaymentMethod)
    else
      var name := p.paymentMethod.value;
      var kind := Classify(name);
      var start :- MethodStart(p, kind, today);
      if start.None? then Failure(NoPeriodStart)
      else
        var day :=
          if p.preferredDay.Some? && 0 < p.preferredDay.value < 32 then p.preferredDay.value
          else start.value.day;
        Success(Anchor(kind, name, start.value, day))
  }
}
