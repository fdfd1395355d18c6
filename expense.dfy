/** The `Expense` entity: an outgoing amount that is approved at most once. */
module Expenses {
  import opened Common
  import opened Time
  import opened Text
  import opened BaseEntities

  /** The name of an `ExpenseCategory` constant; categories are only compared. */
  type Category = string

  /** What persisting an expense checks (`validateExpense`): `None` when it may be stored.
      The description is not checked. */
  function Validation(amount: Option<Cents>, title: Option<string>): (r: Option<Exception>)
    ensures r.None? <==> amount.Some? && amount.value > 0 && title.Some? && !IsBlank(title.value)
    ensures r.Some? ==> r.value.IllegalArgument?
  {
    if amount.None? || amount.value <= 0 then Some(IllegalArgument("Expense amount must be greater than zero"))
    else if title.None? || IsBlank(title.value) then Some(IllegalArgument("Expense title is required"))
    else None
  }

  /** The eight fields that creation and `updateExpense` take from the request. */
  datatype Details = Details(
    title: string,
    description: Option<string>,
    amount: Cents,
    category: Category,
    expenseDate: LocalDateTime,
    vendor: Option<string>,
    receiptNumber: Option<string>,
    receiptUrl: Option<string>)

  /** The approval fields, as one value; the approver object is held by its id. */
  datatype Approval = Approval(
    isApproved: bool,
    approvalDate: Option<LocalDateTime>,
    approvedBy: Option<string>,
    approvalRemarks: Option<string>,
    approvedByUserId: Option<nat>)

  /** A new expense: not approved, with no approval metadata. */
  const Unapproved: Approval := Approval(false, None, None, None, None)

  /** `approve(approver, remarks)` at time `now`, for an approver with the given id and email. */
  function ApproveStep(a: Approval, approverId: nat, approverEmail: string, remarks: Option<string>, now: LocalDateTime): Result<Approval> {
    if a.isApproved then Err(IllegalState("Expense is already approved"))
    else Ok(Approval(true, Some(now), Some(approverEmail), remarks, Some(approverId)))
  }

  /** Approval succeeds exactly on an unapproved expense, and a second approval always
      fails, whoever attempts it: approval is one-shot. */
  lemma ApprovalIsOneShot(a: Approval, id1: nat, email1: string, remarks1: Option<string>, t1: LocalDateTime,
                          id2: nat, email2: string, remarks2: Option<string>, t2: LocalDateTime)
    ensures ApproveStep(a, id1, email1, remarks1, t1).Ok? <==> !a.isApproved
    ensures var s := ApproveStep(a, id1, email1, remarks1, t1);
            s.Ok? ==> s.value.isApproved && ApproveStep(s.value, id2, email2, remarks2, t2) == Err(IllegalState("Expense is already approved"))
  {
  }

  /** The expense as the repository queries see it. */
  datatype ExpenseRecord = ExpenseRecord(
    id: nat,
    title: string,
    description: Option<string>,
    amount: Cents,
    category: Category,
    expenseDate: LocalDateTime,
    isApproved: bool,
    isDeleted: bool)

  class Expense {
    const base: BaseEntity
    var title: string
    var description: Option<string>
    var amount: Cents
    var category: Category
    var expenseDate: LocalDateTime
    var vendor: Option<string>
    var receiptNumber: Option<string>
    var receiptUrl: Option<string>
    var isApproved: bool
    var approvalDate: Option<LocalDateTime>
    var approvedBy: Option<string>
    var approvalRemarks: Option<string>
    var approvedByUserId: Option<nat>

    function ExpenseDetails(): Details
      reads this
    {
      Details(title, description, amount, category, expenseDate, vendor, receiptNumber, receiptUrl)
    }

    function ApprovalState(): Approval
      reads this
    {
      Approval(isApproved, approvalDate, approvedBy, approvalRemarks, approvedByUserId)
    }

    function Record(): ExpenseRecord
      reads this, base
    {
      ExpenseRecord(base.id, title, description, amount, category, expenseDate, isApproved, base.isDeleted)
    }

    /** The builder call of `createExpense`: the request's fields, not approved. */
    constructor (id: nat, d: Details)
      ensures fresh(base) && base.id == id && base.State() == NeverDeleted
      ensures ExpenseDetails() == d && ApprovalState() == Unapproved
    {
      base := new BaseEntity(id);
      title := d.title;
      description := d.description;
      amount := d.amount;
      category := d.category;
      expenseDate := d.expenseDate;
      vendor := d.vendor;
      receiptNumber := d.receiptNumber;
      receiptUrl := d.receiptUrl;
      isApproved := false;
      approvalDate := None;
      approvedBy := None;
      approvalRemarks := None;
      approvedByUserId := None;
    }

    /** `approve(approver, remarks)`: refused once approved, with nothing changed. */
    method Approve(approverId: nat, approverEmail: string, remarks: Option<string>, now: LocalDateTime) returns (r: Result<Unit>)
      modifies this
      ensures var s := ApproveStep(old(ApprovalState()), approverId, approverEmail, remarks, now);
              (r.Ok? <==> s.Ok?) && (r.Err? ==> r.error == s.error)
              && ApprovalState() == (if s.Ok? then s.value else old(ApprovalState()))
      ensures ExpenseDetails() == old(ExpenseDetails())
    {
      if isApproved {
        return Err(IllegalState("Expense is already approved"));
      }
      isApproved := true;
      approvalDate := Some(now);
      approvedBy := Some(approverEmail);
      approvedByUserId := Some(approverId);
      approvalRemarks := remarks;
      return Ok(Unit);
    }

    /** The eight setters `updateExpense` calls; the approval fields are not touched. */
    method Overwrite(d: Details)
      modifies this
      ensures ExpenseDetails() == d && ApprovalState() == old(ApprovalState())
    {
      title := d.title;
      description := d.description;
      amount := d.amount;
      category := d.category;
      expenseDate := d.expenseDate;
      vendor := d.vendor;
      receiptNumber := d.receiptNumber;
      receiptUrl := d.receiptUrl;
    }
  }
}
