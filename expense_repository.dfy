/** `ExpenseRepository`: the expense queries as functions over the table's records. The
    totals count approved expenses only, and no query looks at soft deletion. */
module ExpenseRepository {
  import opened Common
  import opened Time
  import opened Text
  import opened Expenses

  function AmountOf(e: ExpenseRecord): int {
    e.amount
  }

  function CategoryOf(e: ExpenseRecord): Category {
    e.category
  }

  /** `findByCategory(category)`. */
  function FindByCategory(es: seq<ExpenseRecord>, category: Category): (r: seq<ExpenseRecord>)
    ensures forall i :: 0 <= i < |r| ==> r[i] in es && r[i].category == category
    ensures forall i :: 0 <= i < |es| && es[i].category == category ==> es[i] in r
  {
    Filter(es, InCategory(category))
  }

  /** `findByIsApproved(isApproved)`. */
  function FindByIsApproved(es: seq<ExpenseRecord>, isApproved: bool): (r: seq<ExpenseRecord>)
    ensures forall i :: 0 <= i < |r| ==> r[i] in es && r[i].isApproved == isApproved
    ensures forall i :: 0 <= i < |es| && es[i].isApproved == isApproved ==> es[i] in r
  {
    Filter(es, (e: ExpenseRecord) => e.isApproved == isApproved)
  }

  /** `findByExpenseDateBetween(start, end)`: both ends included, approved or not. */
  function FindByExpenseDateBetween(es: seq<ExpenseRecord>, start: LocalDateTime, end: LocalDateTime): (r: seq<ExpenseRecord>)
    ensures forall i :: 0 <= i < |r| ==> r[i] in es && Between(r[i].expenseDate, start, end)
    ensures forall i :: 0 <= i < |es| && Between(es[i].expenseDate, start, end) ==> es[i] in r
  {
    Filter(es, (e: ExpenseRecord) => Between(e.expenseDate, start, end))
  }

  /** The rows the approved totals add up. */
  predicate ApprovedInRange(e: ExpenseRecord, start: LocalDateTime, end: LocalDateTime) {
    e.isApproved && Between(e.expenseDate, start, end)
  }

  /** The conditions of the queries, as the predicates the filters apply. */
  function ApprovedDatedIn(start: LocalDateTime, end: LocalDateTime): ExpenseRecord -> bool {
    (e: ExpenseRecord) => ApprovedInRange(e, start, end)
  }

  function InCategory(category: Category): ExpenseRecord -> bool {
    (e: ExpenseRecord) => e.category == category
  }

  function ApprovedDatedInCategory(start: LocalDateTime, end: LocalDateTime, category: Category): ExpenseRecord -> bool {
    (e: ExpenseRecord) => ApprovedInRange(e, start, end) && e.category == category
  }

  /** `sumApprovedExpensesBetween(start, end)`; NULL when no approved expense is in range. */
  function SumApprovedExpensesBetween(es: seq<ExpenseRecord>, start: LocalDateTime, end: LocalDateTime): (r: Option<Cents>)
    ensures r.None? <==> forall i :: 0 <= i < |es| ==> !ApprovedInRange(es[i], start, end)
  {
    SqlSum(es, ApprovedDatedIn(start, end), AmountOf)
  }

  /** Read as zero, the approved total is the total of the approved expenses among those
      `findByExpenseDateBetween` lists. */
  lemma ApprovedTotalIsSumOfApprovedInRange(es: seq<ExpenseRecord>, start: LocalDateTime, end: LocalDateTime)
    ensures OrZero(SumApprovedExpensesBetween(es, start, end))
         == Sum(Map(FindByIsApproved(FindByExpenseDateBetween(es, start, end), true), AmountOf))
  {
    SqlSumOrZero(es, ApprovedDatedIn(start, end), AmountOf);
    FilterFilter(es, (e: ExpenseRecord) => Between(e.expenseDate, start, end), (e: ExpenseRecord) => e.isApproved == true,
                 ApprovedDatedIn(start, end));
  }

  /** Some approved expense in range has category `c`. */
  predicate HasApprovedIn(es: seq<ExpenseRecord>, start: LocalDateTime, end: LocalDateTime, c: Category) {
    exists k :: 0 <= k < |es| && ApprovedInRange(es[k], start, end) && es[k].category == c
  }

  /** The categories that have at least one approved expense in range, each once. */
  function GroupKeys(es: seq<ExpenseRecord>, start: LocalDateTime, end: LocalDateTime): (keys: seq<Category>)
    ensures NoDuplicates(keys)
    ensures forall i :: 0 <= i < |keys| ==> HasApprovedIn(es, start, end, keys[i])
    ensures forall k :: 0 <= k < |es| && ApprovedInRange(es[k], start, end) ==> es[k].category in keys
  {
    var qualifying := Filter(es, ApprovedDatedIn(start, end));
    KeysComeFromQualifying(es, start, end);
    QualifyingAreKeys(es, start, end);
    Distinct(Map(qualifying, CategoryOf))
  }

  lemma KeysComeFromQualifying(es: seq<ExpenseRecord>, start: LocalDateTime, end: LocalDateTime)
    ensures var keys := Distinct(Map(Filter(es, ApprovedDatedIn(start, end)), CategoryOf));
            forall i :: 0 <= i < |keys| ==> HasApprovedIn(es, start, end, keys[i])
  {
    var qualifying := Filter(es, ApprovedDatedIn(start, end));
    var cats := Map(qualifying, CategoryOf);
    var keys := Distinct(cats);
    forall i | 0 <= i < |keys|
      ensures HasApprovedIn(es, start, end, keys[i])
    {
      var m :| 0 <= m < |cats| && cats[m] == keys[i];
      assert qualifying[m] in es;
      var k :| 0 <= k < |es| && es[k] == qualifying[m];
      assert ApprovedDatedIn(start, end)(qualifying[m]);
    }
  }

  lemma QualifyingAreKeys(es: seq<ExpenseRecord>, start: LocalDateTime, end: LocalDateTime)
    ensures var keys := Distinct(Map(Filter(es, ApprovedDatedIn(start, end)), CategoryOf));
            forall k :: 0 <= k < |es| && ApprovedInRange(es[k], start, end) ==> es[k].category in keys
  {
    var qualifying := Filter(es, ApprovedDatedIn(start, end));
    var cats := Map(qualifying, CategoryOf);
    forall k | 0 <= k < |es| && ApprovedInRange(es[k], start, end)
      ensures es[k].category in Distinct(cats)
    {
      assert ApprovedDatedIn(start, end)(es[k]);
      var m :| 0 <= m < |qualifying| && qualifying[m] == es[k];
      assert cats[m] == es[k].category;
    }
  }

  /** The approved total of one category in range; never NULL for a category that forms a group. */
  function GroupTotal(es: seq<ExpenseRecord>, start: LocalDateTime, end: LocalDateTime, category: Category): Cents {
    OrZero(SqlSum(es, ApprovedDatedInCategory(start, end, category), AmountOf))
  }

  function GroupsOf(es: seq<ExpenseRecord>, start: LocalDateTime, end: LocalDateTime, keys: seq<Category>): (r: seq<(Category, Cents)>)
    ensures |r| == |keys|
    ensures forall i :: 0 <= i < |keys| ==> r[i] == (keys[i], GroupTotal(es, start, end, keys[i]))
    decreases |keys|
  {
    if keys == [] then [] else [(keys[0], GroupTotal(es, start, end, keys[0]))] + GroupsOf(es, start, end, keys[1..])
  }

  /** `sumExpensesByCategory(start, end)`: one (category, total) pair per category that has
      an approved expense in range, each category once, with that category's total. */
  function SumExpensesByCategory(es: seq<ExpenseRecord>, start: LocalDateTime, end: LocalDateTime): (r: seq<(Category, Cents)>)
    ensures forall i, j :: 0 <= i < j < |r| ==> r[i].0 != r[j].0
    ensures forall i :: 0 <= i < |r| ==> exists k :: 0 <= k < |es| && ApprovedInRange(es[k], start, end) && es[k].category == r[i].0
    ensures forall k :: 0 <= k < |es| && ApprovedInRange(es[k], start, end) ==> exists i :: 0 <= i < |r| && r[i].0 == es[k].category
    ensures forall i :: 0 <= i < |r| ==> r[i].1 == OrZero(SqlSum(es, ApprovedDatedInCategory(start, end, r[i].0), AmountOf))
  {
    var keys := GroupKeys(es, start, end);
    var r := GroupsOf(es, start, end, keys);
    GroupsKeepKeys(es, start, end, keys, r);
    r
  }

  /** The pairs carry the group keys in order, so what holds of the keys holds of them. */
  lemma GroupsKeepKeys(es: seq<ExpenseRecord>, start: LocalDateTime, end: LocalDateTime, keys: seq<Category>, r: seq<(Category, Cents)>)
    requires NoDuplicates(keys)
    requires forall i :: 0 <= i < |keys| ==> HasApprovedIn(es, start, end, keys[i])
    requires forall k :: 0 <= k < |es| && ApprovedInRange(es[k], start, end) ==> es[k].category in keys
    requires |r| == |keys| && forall i :: 0 <= i < |r| ==> r[i].0 == keys[i]
    ensures forall i, j :: 0 <= i < j < |r| ==> r[i].0 != r[j].0
    ensures forall i :: 0 <= i < |r| ==> HasApprovedIn(es, start, end, r[i].0)
    ensures forall k :: 0 <= k < |es| && ApprovedInRange(es[k], start, end) ==> exists i :: 0 <= i < |r| && r[i].0 == es[k].category
  {
    forall i, j | 0 <= i < j < |r|
      ensures r[i].0 != r[j].0
    {
      assert keys[i] != keys[j];
    }
    forall k | 0 <= k < |es| && ApprovedInRange(es[k], start, end)
      ensures exists i :: 0 <= i < |r| && r[i].0 == es[k].category
    {
      var i :| 0 <= i < |keys| && keys[i] == es[k].category;
      assert r[i].0 == es[k].category;
    }
  }

  function GroupAmount(g: (Category, Cents)): int {
    g.1
  }

  /** The sum of the group totals over some categories. */
  function TotalOver(es: seq<ExpenseRecord>, start: LocalDateTime, end: LocalDateTime, keys: seq<Category>): int
    decreases |keys|
  {
    if keys == [] then 0 else GroupTotal(es, start, end, keys[0]) + TotalOver(es, start, end, keys[1..])
  }

  lemma {:induction false} GroupsAddUp(es: seq<ExpenseRecord>, start: LocalDateTime, end: LocalDateTime, keys: seq<Category>)
    ensures Sum(Map(GroupsOf(es, start, end, keys), GroupAmount)) == TotalOver(es, start, end, keys)
    decreases |keys|
  {
    if keys != [] {
      GroupsAddUp(es, start, end, keys[1..]);
      var head := [(keys[0], GroupTotal(es, start, end, keys[0]))];
      assert GroupsOf(es, start, end, keys) == head + GroupsOf(es, start, end, keys[1..]);
      MapAppend(head, GroupsOf(es, start, end, keys[1..]), GroupAmount);
      SumAppend(Map(head, GroupAmount), Map(GroupsOf(es, start, end, keys[1..]), GroupAmount));
    }
  }

  /** Over distinct categories, the first row counts towards the total exactly when it
      qualifies and its category is among them. */
  lemma {:induction false} TotalOverCons(es: seq<ExpenseRecord>, start: LocalDateTime, end: LocalDateTime, keys: seq<Category>)
    requires es != [] && NoDuplicates(keys)
    ensures TotalOver(es, start, end, keys)
         == (if ApprovedInRange(es[0], start, end) && es[0].category in keys then es[0].amount else 0)
            + TotalOver(es[1..], start, end, keys)
    decreases |keys|
  {
    if keys != [] {
      assert NoDuplicates(keys[1..]) by {
        forall i, j | 0 <= i < j < |keys[1..]| ensures keys[1..][i] != keys[1..][j] {
          assert keys[1..][i] == keys[i + 1] && keys[1..][j] == keys[j + 1];
        }
      }
      TotalOverCons(es, start, end, keys[1..]);
      SqlSumCons(es, ApprovedDatedInCategory(start, end, keys[0]), AmountOf);
    }
  }

  /** Over distinct categories that include every qualifying category, the group totals add
      up to the approved total. */
  lemma {:induction false} TotalOverCovers(es: seq<ExpenseRecord>, start: LocalDateTime, end: LocalDateTime, keys: seq<Category>)
    requires NoDuplicates(keys)
    requires forall k :: 0 <= k < |es| && ApprovedInRange(es[k], start, end) ==> es[k].category in keys
    ensures TotalOver(es, start, end, keys) == OrZero(SumApprovedExpensesBetween(es, start, end))
    decreases |es|
  {
    if es == [] {
      TotalOverEmpty(start, end, keys);
    } else {
      assert forall k :: 0 <= k < |es[1..]| ==> es[1..][k] == es[k + 1];
      TotalOverCovers(es[1..], start, end, keys);
      TotalOverCons(es, start, end, keys);
      SqlSumCons(es, ApprovedDatedIn(start, end), AmountOf);
    }
  }

  lemma {:induction false} TotalOverEmpty(start: LocalDateTime, end: LocalDateTime, keys: seq<Category>)
    ensures TotalOver([], start, end, keys) == 0
    decreases |keys|
  {
    if keys != [] {
      TotalOverEmpty(start, end, keys[1..]);
    }
  }

  /** The per-category totals add up to the approved total of the same range, once NULL is
      read as zero. */
  lemma CategoryTotalsAddUp(es: seq<ExpenseRecord>, start: LocalDateTime, end: LocalDateTime)
    ensures Sum(Map(SumExpensesByCategory(es, start, end), GroupAmount)) == OrZero(SumApprovedExpensesBetween(es, start, end))
  {
    var keys := GroupKeys(es, start, end);
    GroupsAddUp(es, start, end, keys);
    TotalOverCovers(es, start, end, keys);
  }

  /** `searchExpenses(category, isApproved, search)`: a NULL category or approval filter admits
      every expense; the term must occur, ignoring case, in the title or in the description.
      A NULL term matches nothing, as `LIKE NULL` is never true. */
  predicate SearchMatches(e: ExpenseRecord, category: Option<Category>, isApproved: Option<bool>, search: Option<string>) {
    && (category.None? || e.category == category.value)
    && (isApproved.None? || e.isApproved == isApproved.value)
    && search.Some?
    && (LikeIgnoreCase(e.title, search.value) || LikeNullable(e.description, search.value))
  }

  function SearchExpenses(es: seq<ExpenseRecord>, category: Option<Category>, isApproved: Option<bool>, search: Option<string>)
    : (r: seq<ExpenseRecord>)
    ensures forall i :: 0 <= i < |r| ==> r[i] in es && SearchMatches(r[i], category, isApproved, search)
    ensures forall i :: 0 <= i < |es| && SearchMatches(es[i], category, isApproved, search) ==> es[i] in r
  {
    Filter(es, (e: ExpenseRecord) => SearchMatches(e, category, isApproved, search))
  }

  /** With both filters NULL and an empty term the search lists the whole table; with only
      the category set it is `findByCategory`. */
  lemma SearchWildcards(es: seq<ExpenseRecord>, category: Category)
    ensures SearchExpenses(es, None, None, Some("")) == es
    ensures SearchExpenses(es, Some(category), None, Some("")) == FindByCategory(es, category)
  {
    forall e: ExpenseRecord ensures LikeIgnoreCase(e.title, "") {
      EmptyTermMatchesAll(e.title);
    }
    FilterAll(es, (e: ExpenseRecord) => SearchMatches(e, None, None, Some("")));
    FilterExtensional(es, (e: ExpenseRecord) => SearchMatches(e, Some(category), None, Some("")), InCategory(category));
  }
}
