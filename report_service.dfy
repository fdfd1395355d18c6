/** `ReportServiceImpl`: the financial summary, the per-user contribution report, the
    expense and payment reports, and the monthly report. Every report only reads the
    tables; the totals come from the repository aggregates, with NULL read as zero. */
module ReportService {
  import opened Common
  import opened Time
  import opened Text
  import opened Users
  import opened UserRepository
  import opened Payments
  import opened PaymentRepository
  import opened Expenses
  import opened ExpenseRepository

  /** The period of a report filter: a missing start is one month before `now`, a missing
      end is `now`. */
  function Period(start: Option<LocalDateTime>, end: Option<LocalDateTime>, now: LocalDateTime): (r: (LocalDateTime, LocalDateTime))
    ensures start.Some? ==> r.0 == start.value
    ensures end.Some? ==> r.1 == end.value
    ensures start.None? ==> r.0 == MinusOneMonth(now) && IsBefore(r.0, now) && r.0.month != now.month
    ensures end.None? ==> r.1 == now
  {
    (if start.Some? then start.value else MinusOneMonth(now), if end.Some? then end.value else now)
  }

  /** With neither date given the period is the month up to and including `now`. */
  lemma DefaultPeriodEndsNow(now: LocalDateTime)
    ensures var (lo, hi) := Period(None, None, now);
            lo == MinusOneMonth(now) && Between(now, lo, hi)
  {
    OrderTrichotomy(MinusOneMonth(now), now);
  }

  /** `!p.isVerified()`, the stream filter of the pending totals. */
  function Unverified(): PaymentRecord -> bool {
    (p: PaymentRecord) => !p.isVerified
  }

  /** The map after `put(key, value)` of each pair in turn (`HashMap.put`: a later pair with
      the same key replaces the earlier value). */
  function PutAll(m: map<Category, Cents>, groups: seq<(Category, Cents)>): map<Category, Cents>
    decreases |groups|
  {
    if groups == [] then m else PutAll(m[groups[0].0 := groups[0].1], groups[1..])
  }

  /** No later pair has the key of pair `i`. */
  predicate LastOf(groups: seq<(Category, Cents)>, i: nat)
    requires i < |groups|
  {
    forall j :: i < j < |groups| ==> groups[j].0 != groups[i].0
  }

  /** The keys of the result are those of the map and of the pairs. */
  lemma {:induction false} PutAllKeys(m: map<Category, Cents>, groups: seq<(Category, Cents)>)
    ensures forall c :: c in PutAll(m, groups) <==> c in m || exists i :: 0 <= i < |groups| && groups[i].0 == c
    decreases |groups|
  {
    if groups != [] {
      var rest := groups[1..];
      var m' := m[groups[0].0 := groups[0].1];
      PutAllKeys(m', rest);
      forall c | c in PutAll(m, groups)
        ensures c in m || exists i :: 0 <= i < |groups| && groups[i].0 == c
      {
        if c !in m' {
          var i :| 0 <= i < |rest| && rest[i].0 == c;
          assert groups[i + 1].0 == c;
        }
      }
      forall c | exists i :: 0 <= i < |groups| && groups[i].0 == c
        ensures c in PutAll(m, groups)
      {
        var i :| 0 <= i < |groups| && groups[i].0 == c;
        if i > 0 {
          assert rest[i - 1].0 == c;
        }
      }
    }
  }

  /** A key that no pair names keeps its value. */
  lemma {:induction false} PutAllKeeps(m: map<Category, Cents>, groups: seq<(Category, Cents)>, c: Category)
    requires c in m && forall i :: 0 <= i < |groups| ==> groups[i].0 != c
    ensures c in PutAll(m, groups) && PutAll(m, groups)[c] == m[c]
    decreases |groups|
  {
    if groups != [] {
      assert groups[0].0 != c;
      assert forall i :: 0 <= i < |groups[1..]| ==> groups[1..][i] == groups[i + 1];
      PutAllKeeps(m[groups[0].0 := groups[0].1], groups[1..], c);
    }
  }

  /** The value of a key is that of its last pair. */
  lemma {:induction false} PutAllLastWins(m: map<Category, Cents>, groups: seq<(Category, Cents)>, i: nat)
    requires i < |groups| && LastOf(groups, i)
    ensures groups[i].0 in PutAll(m, groups) && PutAll(m, groups)[groups[i].0] == groups[i].1
    decreases |groups|
  {
    var rest := groups[1..];
    var m' := m[groups[0].0 := groups[0].1];
    assert forall j :: 0 <= j < |rest| ==> rest[j] == groups[j + 1];
    if i == 0 {
      PutAllKeeps(m', rest, groups[0].0);
    } else {
      PutAllLastWins(m', rest, i - 1);
    }
  }

  /** The `for` loop that turns the category groups into the report's map. */
  method CategoryMap(groups: seq<(Category, Cents)>) returns (m: map<Category, Cents>)
    ensures forall c :: c in m <==> exists i :: 0 <= i < |groups| && groups[i].0 == c
    ensures forall i :: 0 <= i < |groups| && LastOf(groups, i) ==> m[groups[i].0] == groups[i].1
  {
    m := map[];
    for i := 0 to |groups|
      invariant PutAll(m, groups[i..]) == PutAll(map[], groups)
    {
      assert groups[i..][0] == groups[i] && groups[i..][1..] == groups[i + 1..];
      m := m[groups[i].0 := groups[i].1];
    }
    assert groups[|groups|..] == [];
    PutAllKeys(map[], groups);
    forall i | 0 <= i < |groups| && LastOf(groups, i)
      ensures m[groups[i].0] == groups[i].1
    {
      PutAllLastWins(map[], groups, i);
    }
  }

  /** `m` holds one entry per category of an approved expense dated in `[lo, hi]`, and
      that entry is the category's approved total. */
  ghost predicate IsCategoryBreakdown(m: map<Category, Cents>, es: seq<ExpenseRecord>, lo: LocalDateTime, hi: LocalDateTime) {
    && (forall c :: c in m <==> exists k :: 0 <= k < |es| && ApprovedInRange(es[k], lo, hi) && es[k].category == c)
    && (forall c :: c in m ==> m[c] == OrZero(SqlSum(es, ApprovedDatedInCategory(lo, hi, c), ExpenseRepository.AmountOf)))
  }

  /** What `sumExpensesByCategory` promises of one of its groups. */
  lemma GroupFacts(es: seq<ExpenseRecord>, lo: LocalDateTime, hi: LocalDateTime, groups: seq<(Category, Cents)>, i: nat)
    requires groups == SumExpensesByCategory(es, lo, hi) && i < |groups|
    ensures LastOf(groups, i)
    ensures groups[i].1 == OrZero(SqlSum(es, ApprovedDatedInCategory(lo, hi, groups[i].0), ExpenseRepository.AmountOf))
    ensures exists k :: 0 <= k < |es| && ApprovedInRange(es[k], lo, hi) && es[k].category == groups[i].0
  {
  }

  /** The map the loop builds from `sumExpensesByCategory` has one entry per category of
      an approved expense in range, holding that category's total. */
  lemma CategoryMapHoldsTotals(es: seq<ExpenseRecord>, lo: LocalDateTime, hi: LocalDateTime,
                               groups: seq<(Category, Cents)>, m: map<Category, Cents>)
    requires groups == SumExpensesByCategory(es, lo, hi)
    requires forall c :: c in m <==> exists i :: 0 <= i < |groups| && groups[i].0 == c
    requires forall i :: 0 <= i < |groups| && LastOf(groups, i) ==> m[groups[i].0] == groups[i].1
    ensures IsCategoryBreakdown(m, es, lo, hi)
  {
    forall c | c in m
      ensures m[c] == OrZero(SqlSum(es, ApprovedDatedInCategory(lo, hi, c), ExpenseRepository.AmountOf))
      ensures exists k :: 0 <= k < |es| && ApprovedInRange(es[k], lo, hi) && es[k].category == c
    {
      var i :| 0 <= i < |groups| && groups[i].0 == c;
      GroupFacts(es, lo, hi, groups, i);
    }
    forall k | 0 <= k < |es| && ApprovedInRange(es[k], lo, hi)
      ensures es[k].category in m
    {
      var i :| 0 <= i < |groups| && groups[i].0 == es[k].category;
    }
  }

  /** The body of `FinancialSummaryResponse`. */
  datatype FinancialSummary = FinancialSummary(
    totalIncome: Cents,
    totalExpenses: Cents,
    netBalance: Cents,
    pendingPayments: Cents,
    verifiedPayments: Cents,
    approvedExpenses: Cents,
    totalPaymentCount: nat,
    expensesByCategory: map<Category, Cents>,
    reportGeneratedAt: LocalDateTime,
    periodStart: LocalDateTime,
    periodEnd: LocalDateTime)

  /** `s` is the financial summary of the period from `lo` to `hi`, both ends included,
      generated at `now`. */
  ghost predicate IsSummaryOf(s: FinancialSummary, ps: seq<PaymentRecord>, es: seq<ExpenseRecord>, lo: LocalDateTime, hi: LocalDateTime, now: LocalDateTime) {
    var inRange := FindByPaymentDateBetween(ps, lo, hi);
    && s.periodStart == lo && s.periodEnd == hi && s.reportGeneratedAt == now
    && s.totalIncome == Sum(Map(Filter(inRange, IsVerified()), PaymentRepository.AmountOf))
    && s.totalExpenses == Sum(Map(Filter(es, ApprovedDatedIn(lo, hi)), ExpenseRepository.AmountOf))
    && s.netBalance == s.totalIncome - s.totalExpenses
    && s.verifiedPayments == s.totalIncome && s.approvedExpenses == s.totalExpenses
    && s.totalIncome + s.pendingPayments == Sum(Map(inRange, PaymentRepository.AmountOf))
    && s.totalPaymentCount == |inRange|
    && IsCategoryBreakdown(s.expensesByCategory, es, lo, hi)
  }

  /** `generateFinancialSummary(request)`: over the payments and expenses dated in the
      period, the income is the total of the verified payments, the expenses the total of
      the approved expenses, the pending amount the total of the unverified payments, and
      the category map holds one total per category of approved expense. */
  method GenerateFinancialSummary(ps: seq<PaymentRecord>, es: seq<ExpenseRecord>, start: Option<LocalDateTime>,
                                  end: Option<LocalDateTime>, now: LocalDateTime) returns (s: FinancialSummary)
    ensures var (lo, hi) := Period(start, end, now);
            IsSummaryOf(s, ps, es, lo, hi, now)
  {
    var (lo, hi) := Period(start, end, now);
    var totalIncome := OrZero(SumVerifiedPaymentsBetween(ps, lo, hi));
    var totalExpenses := OrZero(SumApprovedExpensesBetween(es, lo, hi));
    var allPayments := FindByPaymentDateBetween(ps, lo, hi);
    var pending := Sum(Map(Filter(allPayments, Unverified()), PaymentRepository.AmountOf));
    var groups := SumExpensesByCategory(es, lo, hi);
    var categoryMap := CategoryMap(groups);
    s := FinancialSummary(totalIncome, totalExpenses, totalIncome - totalExpenses, pending, totalIncome, totalExpenses,
                          |allPayments|, categoryMap, now, lo, hi);
    SumBetweenIsSumOfVerifiedInRange(ps, lo, hi);
    SqlSumOrZero(es, ApprovedDatedIn(lo, hi), ExpenseRepository.AmountOf);
    SumPartition(allPayments, IsVerified(), Unverified(), PaymentRepository.AmountOf);
    CategoryMapHoldsTotals(es, lo, hi, groups, categoryMap);
  }

  /** The body of the expense report. */
  datatype ExpenseReport = ExpenseReport(
    totalExpenses: Cents,
    expensesByCategory: map<Category, Cents>,
    periodStart: LocalDateTime,
    periodEnd: LocalDateTime,
    reportGeneratedAt: LocalDateTime)

  /** `generateExpenseReport(request)`: the approved total of the period, and its split by
      category, whose parts add up to it. */
  method GenerateExpenseReport(es: seq<ExpenseRecord>, start: Option<LocalDateTime>, end: Option<LocalDateTime>, now: LocalDateTime)
    returns (r: ExpenseReport)
    ensures var (lo, hi) := Period(start, end, now);
            && r.periodStart == lo && r.periodEnd == hi && r.reportGeneratedAt == now
            && r.totalExpenses == Sum(Map(Filter(es, ApprovedDatedIn(lo, hi)), ExpenseRepository.AmountOf))
            && r.totalExpenses == Sum(Map(SumExpensesByCategory(es, lo, hi), GroupAmount))
            && IsCategoryBreakdown(r.expensesByCategory, es, lo, hi)
  {
    var (lo, hi) := Period(start, end, now);
    var totalExpenses := OrZero(SumApprovedExpensesBetween(es, lo, hi));
    var groups := SumExpensesByCategory(es, lo, hi);
    var categoryMap := CategoryMap(groups);
    r := ExpenseReport(totalExpenses, categoryMap, lo, hi, now);
    SqlSumOrZero(es, ApprovedDatedIn(lo, hi), ExpenseRepository.AmountOf);
    CategoryTotalsAddUp(es, lo, hi);
    CategoryMapHoldsTotals(es, lo, hi, groups, categoryMap);
  }

  /** The body of the payment report. */
  datatype PaymentReport = PaymentReport(
    totalPayments: Cents,
    verifiedPayments: Cents,
    pendingPayments: Cents,
    totalCount: nat,
    verifiedCount: nat,
    pendingCount: nat,
    periodStart: LocalDateTime,
    periodEnd: LocalDateTime,
    reportGeneratedAt: LocalDateTime)

  /** `generatePaymentReport(request)`: over the payments dated in the period, the total
      splits into the verified and the pending amounts, and the count likewise; the
      verified amount is the income of the financial summary for the same period. */
  function GeneratePaymentReport(ps: seq<PaymentRecord>, start: Option<LocalDateTime>, end: Option<LocalDateTime>, now: LocalDateTime)
    : (r: PaymentReport)
    ensures var (lo, hi) := Period(start, end, now);
            var inRange := FindByPaymentDateBetween(ps, lo, hi);
            && r.periodStart == lo && r.periodEnd == hi && r.reportGeneratedAt == now
            && r.totalPayments == Sum(Map(inRange, PaymentRepository.AmountOf))
            && r.totalPayments == r.verifiedPayments + r.pendingPayments
            && r.verifiedPayments == OrZero(SumVerifiedPaymentsBetween(ps, lo, hi))
            && r.totalCount == |inRange|
            && r.verifiedCount == |Filter(inRange, IsVerified())|
            && r.totalCount == r.verifiedCount + r.pendingCount
  {
    var (lo, hi) := Period(start, end, now);
    var payments := FindByPaymentDateBetween(ps, lo, hi);
    SumPartition(payments, IsVerified(), Unverified(), PaymentRepository.AmountOf);
    CountPartition(payments, IsVerified(), Unverified());
    SumBetweenIsSumOfVerifiedInRange(ps, lo, hi);
    PaymentReport(Sum(Map(payments, PaymentRepository.AmountOf)),
                  Sum(Map(Filter(payments, IsVerified()), PaymentRepository.AmountOf)),
                  Sum(Map(Filter(payments, Unverified()), PaymentRepository.AmountOf)),
                  |payments|, |Filter(payments, IsVerified())|, |Filter(payments, Unverified())|, lo, hi, now)
  }

  /** The latest of a list of dates (`max(LocalDateTime::compareTo)`), NULL for none. */
  function LatestDate(ds: seq<LocalDateTime>): (r: Option<LocalDateTime>)
    ensures r.None? <==> ds == []
    ensures r.Some? ==> r.value in ds && forall i :: 0 <= i < |ds| ==> !IsAfter(ds[i], r.value)
    decreases |ds|
  {
    if ds == [] then None
    else
      var rest := LatestDate(ds[1..]);
      assert forall i :: 1 <= i < |ds| ==> ds[i] == ds[1..][i - 1];
      if rest.None? then Some(ds[0])
      else if !IsBefore(ds[0], rest.value) then
        assert forall i :: 1 <= i < |ds| ==> !IsAfter(ds[i], ds[0]) by {
          forall i | 1 <= i < |ds| ensures !IsAfter(ds[i], ds[0]) {
            OrderTrichotomy(ds[i], rest.value);
            OrderTrichotomy(ds[0], rest.value);
            if IsBefore(ds[0], ds[i]) && IsBefore(ds[i], rest.value) {
              OrderTransitive(ds[0], ds[i], rest.value);
            }
          }
        }
        Some(ds[0])
      else
        OrderTrichotomy(ds[0], rest.value);
        rest
  }

  /** The earliest of a list of dates (`min(LocalDateTime::compareTo)`), NULL for none. */
  function EarliestDate(ds: seq<LocalDateTime>): (r: Option<LocalDateTime>)
    ensures r.None? <==> ds == []
    ensures r.Some? ==> r.value in ds && forall i :: 0 <= i < |ds| ==> !IsBefore(ds[i], r.value)
    decreases |ds|
  {
    if ds == [] then None
    else
      var rest := EarliestDate(ds[1..]);
      assert forall i :: 1 <= i < |ds| ==> ds[i] == ds[1..][i - 1];
      if rest.None? then Some(ds[0])
      else if !IsAfter(ds[0], rest.value) then
        assert forall i :: 1 <= i < |ds| ==> !IsBefore(ds[i], ds[0]) by {
          forall i | 1 <= i < |ds| ensures !IsBefore(ds[i], ds[0]) {
            OrderTrichotomy(ds[i], rest.value);
            OrderTrichotomy(ds[0], rest.value);
            if IsBefore(rest.value, ds[i]) && IsBefore(ds[i], ds[0]) {
              OrderTransitive(rest.value, ds[i], ds[0]);
            }
          }
        }
        Some(ds[0])
      else
        OrderTrichotomy(ds[0], rest.value);
        rest
  }

  function PaymentDateOf(p: PaymentRecord): LocalDateTime {
    p.paymentDate
  }

  /** A possibly NULL string as string concatenation prints it. */
  function Printed(s: Option<string>): string {
    if s.Some? then s.value else "null"
  }

  /** The body of `UserContributionResponse`. */
  datatype Contribution = Contribution(
    userId: nat,
    userEmail: string,
    userFullName: string,
    totalContributions: Cents,
    verifiedContributions: Cents,
    pendingContributions: Cents,
    paymentCount: nat,
    lastPaymentDate: Option<LocalDateTime>,
    firstPaymentDate: Option<LocalDateTime>)

  /** `generateUserContributionReport(userId)`: refused for an unknown user; otherwise the
      aggregate and the stream total agree, only verified payments are counted, nothing is
      pending, the first and last dates are the earliest and latest verified payment dates of
      the user, and the name is the two name fields as string concatenation prints them. */
  function GenerateUserContributionReport(users: seq<User>, ps: seq<PaymentRecord>, userId: nat): (r: Result<Contribution>)
    ensures r.Err? <==> FindById(users, userId).None?
    ensures r.Err? ==> r.error == ResourceNotFound("User not found")
    ensures r.Ok? ==>
              var c := r.value;
              var verified := FindByUserIdAndIsVerifiedTrue(ps, userId);
              && c.userId == userId
              && c.totalContributions == c.verifiedContributions
              && c.verifiedContributions == Sum(Map(verified, PaymentRepository.AmountOf))
              && c.pendingContributions == 0
              && c.paymentCount == |verified|
              && (c.firstPaymentDate.None? <==> c.paymentCount == 0)
              && (c.lastPaymentDate.None? <==> c.paymentCount == 0)
              && (c.firstPaymentDate.Some? ==> !IsAfter(c.firstPaymentDate.value, c.lastPaymentDate.value))
              && (forall i :: 0 <= i < |verified| ==>
                    Between(verified[i].paymentDate, c.firstPaymentDate.value, c.lastPaymentDate.value))
              && c.firstPaymentDate == EarliestDate(Map(verified, PaymentDateOf))
              && c.lastPaymentDate == LatestDate(Map(verified, PaymentDateOf))
              && var u := FindById(users, userId).value;
                 c.userEmail == u.email && c.userFullName == Printed(u.firstname) + " " + Printed(u.lastname)
  {
    match FindById(users, userId)
    case None => Err(ResourceNotFound("User not found"))
    case Some(user) =>
      var verified := FindByUserIdAndIsVerifiedTrue(ps, userId);
      var dates := Map(verified, PaymentDateOf);
      SumByUserIsSumOfFind(ps, userId);
      DatesWithinExtremes(dates);
      Ok(Contribution(user.base.id, user.email, Printed(user.firstname) + " " + Printed(user.lastname),
                      OrZero(SumVerifiedPaymentsByUserId(ps, userId)), Sum(Map(verified, PaymentRepository.AmountOf)), 0,
                      |verified|, LatestDate(dates), EarliestDate(dates)))
  }

  /** Every date lies between the earliest and the latest, which are in order. */
  lemma DatesWithinExtremes(ds: seq<LocalDateTime>)
    ensures ds != [] ==>
              var first := EarliestDate(ds).value;
              var last := LatestDate(ds).value;
              && !IsAfter(first, last)
              && forall i :: 0 <= i < |ds| ==> Between(ds[i], first, last)
  {
    if ds != [] {
      var first := EarliestDate(ds).value;
      var k :| 0 <= k < |ds| && ds[k] == first;
      assert !IsAfter(ds[k], LatestDate(ds).value);
    }
  }

  /** The range of `ChronoField.YEAR`. */
  const MinYear: int := -999_999_999
  const MaxYear: int := 999_999_999

  /** `Integer.toString`. */
  function IntToString(i: int): string {
    if i < 0 then "-" + NatToString(-i) else NatToString(i)
  }

  /** Payments dated within one calendar month. */
  function PaidIn(year: int, month: int): PaymentRecord -> bool {
    (p: PaymentRecord) => p.paymentDate.year == year && p.paymentDate.month == month
  }

  /** `generateMonthlyReport(year, month)`: `YearMonth.of` refuses a year or a month out of
      range; otherwise the financial summary of the whole month, which counts exactly the
      payments dated in that month. The period ends at the month's last instant (see
      `MonthEnd`). */
  method GenerateMonthlyReport(ps: seq<PaymentRecord>, es: seq<ExpenseRecord>, year: int, month: int, now: LocalDateTime)
    returns (r: Result<FinancialSummary>)
    ensures r.Err? <==> !(MinYear <= year <= MaxYear && 1 <= month <= 12)
    ensures !(MinYear <= year <= MaxYear) ==>
              r == Err(DateTimeError("Invalid value for Year (valid values -999999999 - 999999999): " + IntToString(year)))
    ensures MinYear <= year <= MaxYear && !(1 <= month <= 12) ==>
              r == Err(DateTimeError("Invalid value for MonthOfYear (valid values 1 - 12): " + IntToString(month)))
    ensures r.Ok? ==> 1 <= month <= 12 && IsSummaryOf(r.value, ps, es, MonthStart(year, month), MonthEnd(year, month), now)
    ensures r.Ok? ==> r.value.totalPaymentCount == |Filter(ps, PaidIn(year, month))|
  {
    if !(MinYear <= year <= MaxYear) {
      return Err(DateTimeError("Invalid value for Year (valid values -999999999 - 999999999): " + IntToString(year)));
    }
    if !(1 <= month <= 12) {
      return Err(DateTimeError("Invalid value for MonthOfYear (valid values 1 - 12): " + IntToString(month)));
    }
    var lo := MonthStart(year, month);
    var hi := MonthEnd(year, month);
    var summary := GenerateFinancialSummary(ps, es, Some(lo), Some(hi), now);
    forall p: PaymentRecord ensures DatedIn(lo, hi)(p) == PaidIn(year, month)(p) {
      MonthRangeCoversMonth(year, month, p.paymentDate);
    }
    FilterExtensional(ps, DatedIn(lo, hi), PaidIn(year, month));
    return Ok(summary);
  }
}
