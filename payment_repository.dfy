/** `PaymentRepository`: the payment queries as functions over the table's records. The
    verified totals test the `isVerified` flag, never the status. */
module PaymentRepository {
  import opened Common
  import opened Time
  import opened Payments

  function AmountOf(p: PaymentRecord): int {
    p.amount
  }

  /** `findByUserId(userId)`. */
  function FindByUserId(ps: seq<PaymentRecord>, userId: nat): (r: seq<PaymentRecord>)
    ensures forall i :: 0 <= i < |r| ==> r[i] in ps && r[i].userId == userId
    ensures forall i :: 0 <= i < |ps| && ps[i].userId == userId ==> ps[i] in r
  {
    Filter(ps, (p: PaymentRecord) => p.userId == userId)
  }

  /** `findByStatus(status)`. */
  function FindByStatus(ps: seq<PaymentRecord>, status: PaymentStatus): (r: seq<PaymentRecord>)
    ensures forall i :: 0 <= i < |r| ==> r[i] in ps && r[i].status == status
    ensures forall i :: 0 <= i < |ps| && ps[i].status == status ==> ps[i] in r
  {
    Filter(ps, (p: PaymentRecord) => p.status == status)
  }

  /** `findByIsVerified(isVerified)`. */
  function FindByIsVerified(ps: seq<PaymentRecord>, isVerified: bool): (r: seq<PaymentRecord>)
    ensures forall i :: 0 <= i < |r| ==> r[i] in ps && r[i].isVerified == isVerified
    ensures forall i :: 0 <= i < |ps| && ps[i].isVerified == isVerified ==> ps[i] in r
  {
    Filter(ps, (p: PaymentRecord) => p.isVerified == isVerified)
  }

  /** `findByUserIdAndIsVerifiedTrue(userId)`. */
  function FindByUserIdAndIsVerifiedTrue(ps: seq<PaymentRecord>, userId: nat): (r: seq<PaymentRecord>)
    ensures forall i :: 0 <= i < |r| ==> r[i] in ps && r[i].userId == userId && r[i].isVerified
    ensures forall i :: 0 <= i < |ps| && ps[i].userId == userId && ps[i].isVerified ==> ps[i] in r
  {
    Filter(ps, (p: PaymentRecord) => p.userId == userId && p.isVerified)
  }

  /** Two distinct payments carry `reference`; the column is not unique. */
  predicate ReferenceShared(ps: seq<PaymentRecord>, reference: string) {
    exists i, j :: 0 <= i < j < |ps| && ps[i].paymentReference == reference && ps[j].paymentReference == reference
  }

  const NonUniqueMessage: string := "query did not return a unique result"

  /** `findByPaymentReference(reference)`: the payment with that reference, none when there
      is none, and `IncorrectResultSizeDataAccessException` when several share it. */
  function FindByPaymentReference(ps: seq<PaymentRecord>, reference: string): (r: Result<Option<PaymentRecord>>)
    ensures r.Err? <==> ReferenceShared(ps, reference)
    ensures r.Err? ==> r.error == IncorrectResultSize(NonUniqueMessage)
    ensures r.Ok? && r.value.Some? ==> r.value.value in ps && r.value.value.paymentReference == reference
    ensures r == Ok(None) <==> forall i :: 0 <= i < |ps| ==> ps[i].paymentReference != reference
    decreases |ps|
  {
    if ps == [] then Ok(None)
    else
      var rest := FindByPaymentReference(ps[1..], reference);
      assert forall i :: 1 <= i < |ps| ==> ps[i] == ps[1..][i - 1];
      if ps[0].paymentReference != reference then
        assert ReferenceShared(ps[1..], reference) ==> ReferenceShared(ps, reference) by {
          if ReferenceShared(ps[1..], reference) {
            var i, j :| 0 <= i < j < |ps[1..]| && ps[1..][i].paymentReference == reference && ps[1..][j].paymentReference == reference;
            assert ps[i + 1] == ps[1..][i] && ps[j + 1] == ps[1..][j];
          }
        }
        assert ReferenceShared(ps, reference) ==> ReferenceShared(ps[1..], reference) by {
          if ReferenceShared(ps, reference) {
            var i, j :| 0 <= i < j < |ps| && ps[i].paymentReference == reference && ps[j].paymentReference == reference;
            assert ps[1..][i - 1] == ps[i] && ps[1..][j - 1] == ps[j];
          }
        }
        rest
      else if rest == Ok(None) then
        assert !ReferenceShared(ps, reference);
        Ok(Some(ps[0]))
      else
        assert ReferenceShared(ps, reference) by {
          if rest.Ok? {
            assert ps[1..][0] == ps[1];
            assert ps[0].paymentReference == reference && rest.value.value in ps[1..];
            var k :| 0 <= k < |ps[1..]| && ps[1..][k] == rest.value.value;
            assert ps[k + 1].paymentReference == reference;
          } else {
            var i, j :| 0 <= i < j < |ps[1..]| && ps[1..][i].paymentReference == reference && ps[1..][j].paymentReference == reference;
            assert ps[i + 1] == ps[1..][i];
          }
        }
        Err(IncorrectResultSize(NonUniqueMessage))
  }

  /** `p.paymentDate BETWEEN start AND end`. */
  predicate InRange(p: PaymentRecord, start: LocalDateTime, end: LocalDateTime) {
    Between(p.paymentDate, start, end)
  }

  /** `findByPaymentDateBetween(start, end)`: both ends are included. */
  function FindByPaymentDateBetween(ps: seq<PaymentRecord>, start: LocalDateTime, end: LocalDateTime): (r: seq<PaymentRecord>)
    ensures forall i :: 0 <= i < |r| ==> r[i] in ps && !IsBefore(r[i].paymentDate, start) && !IsAfter(r[i].paymentDate, end)
    ensures forall i :: 0 <= i < |ps| && !IsBefore(ps[i].paymentDate, start) && !IsAfter(ps[i].paymentDate, end) ==> ps[i] in r
  {
    Filter(ps, DatedIn(start, end))
  }

  /** A payment dated exactly at either end of a range is listed. */
  lemma RangeIncludesBothEnds(ps: seq<PaymentRecord>, start: LocalDateTime, end: LocalDateTime, k: nat)
    requires k < |ps| && (ps[k].paymentDate == start || ps[k].paymentDate == end)
    requires !IsAfter(start, end)
    ensures ps[k] in FindByPaymentDateBetween(ps, start, end)
  {
    OrderTrichotomy(start, end);
  }

  predicate VerifiedInRange(p: PaymentRecord, start: LocalDateTime, end: LocalDateTime) {
    p.isVerified && InRange(p, start, end)
  }

  /** The conditions of the queries, as the predicates the filters apply. */
  function DatedIn(start: LocalDateTime, end: LocalDateTime): PaymentRecord -> bool {
    (p: PaymentRecord) => InRange(p, start, end)
  }

  function VerifiedDatedIn(start: LocalDateTime, end: LocalDateTime): PaymentRecord -> bool {
    (p: PaymentRecord) => VerifiedInRange(p, start, end)
  }

  function IsVerified(): PaymentRecord -> bool {
    (p: PaymentRecord) => p.isVerified
  }

  /** `sumVerifiedPaymentsBetween(start, end)`; NULL when no verified payment is in range. */
  function SumVerifiedPaymentsBetween(ps: seq<PaymentRecord>, start: LocalDateTime, end: LocalDateTime): (r: Option<Cents>)
    ensures r.None? <==> forall i :: 0 <= i < |ps| ==> !VerifiedInRange(ps[i], start, end)
  {
    SqlSum(ps, VerifiedDatedIn(start, end), AmountOf)
  }

  /** `sumVerifiedPaymentsByUserId(userId)`; NULL when the user has no verified payment. */
  function SumVerifiedPaymentsByUserId(ps: seq<PaymentRecord>, userId: nat): (r: Option<Cents>)
    ensures r.None? <==> forall i :: 0 <= i < |ps| ==> !(ps[i].userId == userId && ps[i].isVerified)
  {
    SqlSum(ps, (p: PaymentRecord) => p.userId == userId && p.isVerified, AmountOf)
  }

  /** The user's verified total is the total of the list `findByUserIdAndIsVerifiedTrue`
      returns, once NULL is read as zero. */
  lemma SumByUserIsSumOfFind(ps: seq<PaymentRecord>, userId: nat)
    ensures OrZero(SumVerifiedPaymentsByUserId(ps, userId)) == Sum(Map(FindByUserIdAndIsVerifiedTrue(ps, userId), AmountOf))
  {
    SqlSumOrZero(ps, (p: PaymentRecord) => p.userId == userId && p.isVerified, AmountOf);
  }

  /** The range total is the total of the verified payments among those
      `findByPaymentDateBetween` lists. */
  lemma SumBetweenIsSumOfVerifiedInRange(ps: seq<PaymentRecord>, start: LocalDateTime, end: LocalDateTime)
    ensures OrZero(SumVerifiedPaymentsBetween(ps, start, end))
         == Sum(Map(Filter(FindByPaymentDateBetween(ps, start, end), IsVerified()), AmountOf))
  {
    SqlSumOrZero(ps, VerifiedDatedIn(start, end), AmountOf);
    FilterFilter(ps, DatedIn(start, end), IsVerified(), VerifiedDatedIn(start, end));
  }

  /** The verified totals ignore the status: changing any payment's status, for instance
      rejecting a verified payment, leaves them as they were. */
  lemma {:induction false} TotalsIgnoreStatus(ps: seq<PaymentRecord>, qs: seq<PaymentRecord>, start: LocalDateTime, end: LocalDateTime)
    requires |qs| == |ps|
    requires forall i :: 0 <= i < |ps| ==> qs[i] == ps[i].(status := qs[i].status)
    ensures SumVerifiedPaymentsBetween(qs, start, end) == SumVerifiedPaymentsBetween(ps, start, end)
    decreases |ps|
  {
    if ps != [] {
      TotalsIgnoreStatus(ps[1..], qs[1..], start, end);
    }
  }

  /** `searchPayments(userId, status, isVerified)`: each given filter must hold, and a NULL
      filter admits every payment. */
  predicate SearchMatches(p: PaymentRecord, userId: Option<nat>, status: Option<PaymentStatus>, isVerified: Option<bool>) {
    && (userId.None? || p.userId == userId.value)
    && (status.None? || p.status == status.value)
    && (isVerified.None? || p.isVerified == isVerified.value)
  }

  function SearchPayments(ps: seq<PaymentRecord>, userId: Option<nat>, status: Option<PaymentStatus>, isVerified: Option<bool>)
    : (r: seq<PaymentRecord>)
    ensures forall i :: 0 <= i < |r| ==> r[i] in ps && SearchMatches(r[i], userId, status, isVerified)
    ensures forall i :: 0 <= i < |ps| && SearchMatches(ps[i], userId, status, isVerified) ==> ps[i] in r
  {
    Filter(ps, (p: PaymentRecord) => SearchMatches(p, userId, status, isVerified))
  }

  /** With every filter NULL the search returns the whole table, and with one filter set it
      is the corresponding derived query. */
  lemma SearchWildcards(ps: seq<PaymentRecord>, userId: nat, status: PaymentStatus)
    ensures SearchPayments(ps, None, None, None) == ps
    ensures SearchPayments(ps, Some(userId), None, None) == FindByUserId(ps, userId)
    ensures SearchPayments(ps, None, Some(status), None) == FindByStatus(ps, status)
  {
    FilterAll(ps, (p: PaymentRecord) => SearchMatches(p, None, None, None));
    FilterExtensional(ps, (p: PaymentRecord) => SearchMatches(p, Some(userId), None, None), (p: PaymentRecord) => p.userId == userId);
    FilterExtensional(ps, (p: PaymentRecord) => SearchMatches(p, None, Some(status), None), (p: PaymentRecord) => p.status == status);
  }
}
