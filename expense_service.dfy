/** `ExpenseServiceImpl`: recording, editing, deleting and approving expenses. Each
    successful change is saved and appends one audit entry; a refused call changes nothing.
    Lookups by id do not skip soft-deleted expenses. */
module ExpenseService {
  import opened Common
  import opened Time
  import opened Text
  import opened BaseEntities
  import opened Users
  import opened UserRepository
  import opened Expenses
  import opened AuditService

  /** `expenseRepository.findById(id)`: deleted expenses included. */
  function FindExpenseById(expenses: seq<Expense>, id: nat): (r: Option<Expense>)
    ensures r.Some? ==> r.value in expenses && r.value.base.id == id
    ensures r.None? ==> forall i :: 0 <= i < |expenses| ==> expenses[i].base.id != id
    decreases |expenses|
  {
    if expenses == [] then None
    else if expenses[0].base.id == id then Some(expenses[0])
    else
      var rest := FindExpenseById(expenses[1..], id);
      assert forall i :: 1 <= i < |expenses| ==> expenses[i] == expenses[1..][i - 1];
      rest
  }

  function NotFoundMessage(id: nat): string {
    "Expense not found with ID: " + NatToString(id)
  }

  /** `getCurrentUserId(email)`: the id of the user with that email, or 1 when there is none. */
  function CurrentUserId(users: seq<User>, email: string): (r: nat)
    ensures FindByEmail(users, email).Some? ==> r == FindByEmail(users, email).value.base.id
    ensures FindByEmail(users, email).None? ==> r == 1
  {
    match FindByEmail(users, email)
    case Some(u) => u.base.id
    case None => 1
  }

  /** An actor who is a user is credited by their own id; under unique emails that id is
      the actor's, and an unknown actor is credited to user 1, whoever that is. */
  lemma CurrentUserIdIsTheActor(users: seq<User>, k: nat)
    requires UniqueEmails(users) && k < |users|
    ensures CurrentUserId(users, users[k].email) == users[k].base.id
  {
    FindByEmailIsTheUser(users, k);
  }

  /** What `validateExpense` checks of the fields a request supplies. */
  function DetailsError(d: Details): Option<Exception> {
    Validation(Some(d.amount), Some(d.title))
  }

  class ExpenseService {
    /** The `expenses` table. */
    var expenses: seq<Expense>
    /** The next generated primary key. */
    var nextId: nat
    /** The audit service every change writes to. */
    const audit: AuditService

    /** Ids are distinct and below `nextId`. */
    predicate Valid()
      reads this
    {
      && (forall i, j :: 0 <= i < j < |expenses| ==> expenses[i].base.id != expenses[j].base.id && expenses[i] != expenses[j])
      && (forall i :: 0 <= i < |expenses| ==> expenses[i].base.id < nextId)
    }

    constructor (audit: AuditService)
      ensures expenses == [] && nextId == 1 && this.audit == audit && Valid()
    {
      expenses := [];
      nextId := 1;
      this.audit := audit;
    }

    /** `createExpense(request, createdBy)`: the request's fields, not approved, validated on
        save; one EXPENSE_CREATED entry is credited to the creator, or to user 1. */
    method CreateExpense(users: seq<User>, d: Details, createdBy: string, now: LocalDateTime) returns (r: Result<Expense>)
      requires Valid()
      modifies this, audit
      ensures Valid()
      ensures r.Err? <==> DetailsError(d).Some?
      ensures r.Err? ==> r.error == DetailsError(d).value
                         && expenses == old(expenses) && nextId == old(nextId) && audit.trail == old(audit.trail)
      ensures r.Ok? ==>
                && expenses == old(expenses) + [r.value] && fresh(r.value)
                && r.value.base.id == old(nextId) && r.value.base.State() == NeverDeleted
                && r.value.ExpenseDetails() == d && r.value.ApprovalState() == Unapproved
                && audit.trail == Logged(old(audit.trail), users, CurrentUserId(users, createdBy), "EXPENSE_CREATED", "EXPENSES",
                                         "Expense created: " + d.title, None, None, now)
    {
      var invalid := DetailsError(d);
      if invalid.Some? {
        return Err(invalid.value);
      }
      var expense := new Expense(nextId, d);
      Store(expense);
      audit.LogAction(users, CurrentUserId(users, createdBy), "EXPENSE_CREATED", "EXPENSES", "Expense created: " + d.title, now);
      return Ok(expense);
    }

    /** Inserts a new, valid expense under the next id. */
    method Store(expense: Expense)
      requires Valid() && expense !in expenses && expense.base.id == nextId
      requires DetailsError(expense.ExpenseDetails()).None?
      modifies this
      ensures Valid() && expenses == old(expenses) + [expense] && nextId == old(nextId) + 1
    {
      expenses := expenses + [expense];
      nextId := nextId + 1;
    }

    /** `updateExpense(id, request, updatedBy)`: refused for an unknown or an approved
        expense; otherwise exactly the eight request fields are replaced, the approval is
        kept, and one EXPENSE_UPDATED entry is written. A change that fails validation is
        rolled back. */
    method UpdateExpense(users: seq<User>, id: nat, d: Details, updatedBy: string, now: LocalDateTime) returns (r: Result<Unit>)
      requires Valid()
      modifies expenses, audit
      ensures Valid() && expenses == old(expenses)
      ensures FindExpenseById(expenses, id).None? ==> r == Err(ResourceNotFound(NotFoundMessage(id)))
      ensures var found := FindExpenseById(expenses, id);
              found.Some? ==>
                var e := found.value;
                && (r.Ok? <==> !old(e.isApproved) && DetailsError(d).None?)
                && (old(e.isApproved) ==> r == Err(IllegalState("Cannot update approved expense")))
                && (!old(e.isApproved) && DetailsError(d).Some? ==> r == Err(DetailsError(d).value))
                && (r.Ok? ==> e.ExpenseDetails() == d && e.ApprovalState() == old(e.ApprovalState()))
                && (r.Ok? ==> audit.trail == Logged(old(audit.trail), users, CurrentUserId(users, updatedBy), "EXPENSE_UPDATED",
                                                    "EXPENSES", "Expense updated: " + d.title, None, None, now))
      ensures r.Err? ==> audit.trail == old(audit.trail)
                         && forall i :: 0 <= i < |expenses| ==> expenses[i].ExpenseDetails() == old(expenses[i].ExpenseDetails())
      ensures forall i :: 0 <= i < |expenses| ==> expenses[i].ApprovalState() == old(expenses[i].ApprovalState())
      ensures forall i :: 0 <= i < |expenses| && expenses[i].base.id != id ==> expenses[i].ExpenseDetails() == old(expenses[i].ExpenseDetails())
    {
      var found := FindExpenseById(expenses, id);
      if found.None? {
        return Err(ResourceNotFound(NotFoundMessage(id)));
      }
      var expense := found.value;
      if expense.isApproved {
        return Err(IllegalState("Cannot update approved expense"));
      }
      var invalid := DetailsError(d);
      if invalid.Some? {
        return Err(invalid.value);
      }
      expense.Overwrite(d);
      audit.LogAction(users, CurrentUserId(users, updatedBy), "EXPENSE_UPDATED", "EXPENSES", "Expense updated: " + d.title, now);
      return Ok(Unit);
    }

    /** `deleteExpense(id, deletedBy)`: refused for an unknown or an approved expense;
        otherwise soft-deleted by the caller, with one EXPENSE_DELETED entry. */
    method DeleteExpense(users: seq<User>, id: nat, deletedBy: string, now: LocalDateTime) returns (r: Result<Unit>)
      requires Valid()
      modifies set i | 0 <= i < |expenses| :: expenses[i].base, audit
      ensures Valid() && expenses == old(expenses)
      ensures FindExpenseById(expenses, id).None? ==> r == Err(ResourceNotFound(NotFoundMessage(id)))
      ensures var found := FindExpenseById(expenses, id);
              found.Some? ==>
                var e := found.value;
                && (r.Ok? <==> !e.isApproved && DetailsError(e.ExpenseDetails()).None?)
                && (e.isApproved ==> r == Err(IllegalState("Cannot delete approved expense")))
                && (!e.isApproved && DetailsError(e.ExpenseDetails()).Some? ==> r == Err(DetailsError(e.ExpenseDetails()).value))
                && (r.Ok? ==> e.base.State() == SoftDeleted(Some(deletedBy), now))
                && (r.Ok? ==> audit.trail == Logged(old(audit.trail), users, CurrentUserId(users, deletedBy), "EXPENSE_DELETED",
                                                    "EXPENSES", "Expense deleted: " + e.title, None, None, now))
      ensures r.Err? ==> audit.trail == old(audit.trail)
                         && forall i :: 0 <= i < |expenses| ==> expenses[i].base.State() == old(expenses[i].base.State())
      ensures forall i :: 0 <= i < |expenses| && expenses[i].base.id != id ==> expenses[i].base.State() == old(expenses[i].base.State())
    {
      var found := FindExpenseById(expenses, id);
      if found.None? {
        return Err(ResourceNotFound(NotFoundMessage(id)));
      }
      var expense := found.value;
      if expense.isApproved {
        return Err(IllegalState("Cannot delete approved expense"));
      }
      var invalid := DetailsError(expense.ExpenseDetails());
      if invalid.Some? {
        return Err(invalid.value);
      }
      expense.base.SoftDelete(Some(deletedBy), now);
      audit.LogAction(users, CurrentUserId(users, deletedBy), "EXPENSE_DELETED", "EXPENSES", "Expense deleted: " + expense.title, now);
      return Ok(Unit);
    }

    /** `approveExpense(id, request, approvedBy)`: refused for an unknown expense, then for an
        approver email that names no user, then by the entity's one-shot guard; otherwise
        the expense is approved and one EXPENSE_APPROVED entry is credited to the approver. */
    method ApproveExpense(users: seq<User>, id: nat, remarks: Option<string>, approvedBy: string, now: LocalDateTime)
      returns (r: Result<Unit>)
      requires Valid()
      modifies expenses, audit
      ensures Valid() && expenses == old(expenses)
      ensures FindExpenseById(expenses, id).None? ==> r == Err(ResourceNotFound(NotFoundMessage(id)))
      ensures FindExpenseById(expenses, id).Some? && FindByEmail(users, approvedBy).None? ==>
                r == Err(ResourceNotFound("Approver not found"))
      ensures var found := FindExpenseById(expenses, id);
              var approver := FindByEmail(users, approvedBy);
              found.Some? && approver.Some? ==>
                var e := found.value;
                var s := ApproveStep(old(e.ApprovalState()), approver.value.base.id, approvedBy, remarks, now);
                && (r.Ok? <==> s.Ok? && DetailsError(e.ExpenseDetails()).None?)
                && (s.Err? ==> r == Err(s.error))
                && (s.Ok? && DetailsError(e.ExpenseDetails()).Some? ==> r == Err(DetailsError(e.ExpenseDetails()).value))
                && (r.Ok? ==> e.ApprovalState() == s.value)
                && (r.Ok? ==> audit.trail == Logged(old(audit.trail), users, approver.value.base.id, "EXPENSE_APPROVED", "EXPENSES",
                                                    "Expense approved: " + e.title + " by " + approvedBy, None, None, now))
      ensures r.Err? ==> audit.trail == old(audit.trail)
                         && forall i :: 0 <= i < |expenses| ==> expenses[i].ApprovalState() == old(expenses[i].ApprovalState())
      ensures forall i :: 0 <= i < |expenses| ==> expenses[i].ExpenseDetails() == old(expenses[i].ExpenseDetails())
      ensures forall i :: 0 <= i < |expenses| && expenses[i].base.id != id ==> expenses[i].ApprovalState() == old(expenses[i].ApprovalState())
    {
      var found := FindExpenseById(expenses, id);
      if found.None? {
        return Err(ResourceNotFound(NotFoundMessage(id)));
      }
      var expense := found.value;
      var approver := FindByEmail(users, approvedBy);
      if approver.None? {
        return Err(ResourceNotFound("Approver not found"));
      }
      r := ApproveStored(users, expense, approver.value.base.id, approvedBy, remarks, now);
    }

    /** The approval of a stored expense by a resolved approver: the entity's guard, then the
        validation `save` runs, then the audit entry credited to the approver. */
    method ApproveStored(users: seq<User>, expense: Expense, approverId: nat, approvedBy: string, remarks: Option<string>,
                         now: LocalDateTime) returns (r: Result<Unit>)
      requires expense in expenses
      modifies expense, audit
      ensures var s := ApproveStep(old(expense.ApprovalState()), approverId, approvedBy, remarks, now);
              && (r.Ok? <==> s.Ok? && DetailsError(expense.ExpenseDetails()).None?)
              && (s.Err? ==> r == Err(s.error))
              && (s.Ok? && DetailsError(expense.ExpenseDetails()).Some? ==> r == Err(DetailsError(expense.ExpenseDetails()).value))
              && expense.ApprovalState() == (if r.Ok? then s.value else old(expense.ApprovalState()))
      ensures expense.ExpenseDetails() == old(expense.ExpenseDetails())
      ensures audit.trail == if r.Err? then old(audit.trail)
                             else Logged(old(audit.trail), users, approverId, "EXPENSE_APPROVED", "EXPENSES",
                                         "Expense approved: " + expense.title + " by " + approvedBy, None, None, now)
    {
      if expense.isApproved {
        return Err(IllegalState("Expense is already approved"));
      }
      var invalid := DetailsError(expense.ExpenseDetails());
      if invalid.Some? {
        return Err(invalid.value);
      }
      var approved := expense.Approve(approverId, approvedBy, remarks, now);
      audit.LogAction(users, approverId, "EXPENSE_APPROVED", "EXPENSES", "Expense approved: " + expense.title + " by " + approvedBy, now);
      return Ok(Unit);
    }
  }
}
