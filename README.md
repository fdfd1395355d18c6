# Common Wealth Builders: a verified model of the domain core

Common Wealth Builders is a Spring application for a savings group:
- members record payments, which a treasurer verifies, rejects or cancels;
- expenses are recorded and approved once;
- notices are published, pinned and read;
- users hold roles through a table of assignment rows;
- every change of note is written to an audit trail;
- reports add up what the tables hold.

This project models that domain layer in Dafny. The modelling choices:
- **Entities become classes.** Entities whose fields the application updates in place (`BaseEntity`, `Role`, `UserRole`, `User`, `Payment`, `Expense`, `Notice`) are classes with those fields. Each state-changing method is specified by a pure step function on a snapshot value: `Revoked`, `Reactivated`, `Assign`, `Revoke`, `VerifyStep`, `RejectStep`, `CancelStep`, `ApproveStep`, `PublishStep`, `UnpublishStep`, `AfterFailedAttempt`. Lemmas about those functions carry the properties that span several calls.
- **Inheritance becomes composition.** Each entity holds its `BaseEntity` (id and soft-delete fields) as a constant field `base`.
- **Repositories become pure functions.** Each query is a filter, sum, count or sort over a sequence of record values. SQL `SUM` over no rows is `None`, and the services read it as zero (`OrZero`).
- **Services become classes.** The services for payments, expenses, roles, users and the audit trail hold their table as a sequence of entity objects plus the next generated id. Each operation loads a record, checks a guard, changes it, saves it and logs, as the source does. The audit trail is an append-only sequence in `AuditService`.
- **Reports** are functions and methods over the record sequences. The per-category `for` loop is a method with its invariant.
- **Small helpers.** The actor lookups of `AuthUtils` and the exception-to-response mapping of `GlobalExceptionHandler` are modelled as well.

Conventions:
- Money is `BigDecimal` with scale 2, modelled as integer cents.
- `LocalDateTime` is a date and a nanosecond time of day with the Gregorian calendar (`Time`).
- Every `LocalDateTime.now()` is a `now` parameter.
- A thrown exception is an `Err` of `Common.Exception`.
- The Spring Security context is an `Authentication` value passed in. For the services, it is the actor's name or email.

## Model

| member | source | states |
|---|---|---|
| BaseEntities.SoftDeleted | src/main/java/com/common_wealth_builders/entity/base/BaseEntity.java:66-70 | a soft-deleted state is deleted and differs from the never-deleted state |
| BaseEntities.BaseEntity.constructor | src/main/java/com/common_wealth_builders/entity/base/BaseEntity.java:57-58 | a new entity starts not deleted |
| BaseEntities.BaseEntity.IsActive | src/main/java/com/common_wealth_builders/entity/base/BaseEntity.java:78-80 | active exactly when not deleted |
| BaseEntities.BaseEntity.SoftDelete | src/main/java/com/common_wealth_builders/entity/base/BaseEntity.java:66-70 | sets deleted, stamping date and actor whatever the prior state (a repeat re-stamps); the entity is no longer active |
| BaseEntities.BaseEntity.Restore | src/main/java/com/common_wealth_builders/entity/base/BaseEntity.java:72-76 | returns the three deletion fields to the never-deleted values |
| Roles.TypeName | src/main/java/com/common_wealth_builders/entity/Role.java:80-85 | the enum constant's name, at least four characters |
| Roles.TypeNameInjective | src/main/java/com/common_wealth_builders/entity/User.java:242-249 | equal names mean equal role types, so comparing names compares types |
| Roles.Validation | src/main/java/com/common_wealth_builders/entity/Role.java:66-78 | a role may be stored iff it has a type and a display name that is not blank after trim; otherwise IllegalArgument |
| Roles.GeneratedCode | src/main/java/com/common_wealth_builders/entity/Role.java:80-85 | an existing code is kept; a missing one becomes `ROLE_` followed by the type name |
| Roles.GeneratedCodeIdempotent | src/main/java/com/common_wealth_builders/entity/Role.java:80-85 | generating the code twice equals generating it once |
| Roles.Role.constructor | src/main/java/com/common_wealth_builders/entity/Role.java:44-48 | the builder stores the given fields, no code, not deleted |
| Roles.Role.OnCreate | src/main/java/com/common_wealth_builders/entity/Role.java:54-58 | fails exactly when validation fails, leaving the code; otherwise fills in the generated code |
| Roles.Role.OnUpdate | src/main/java/com/common_wealth_builders/entity/Role.java:61-64 | fails exactly when validation fails |
| Roles.Role.Update | src/main/java/com/common_wealth_builders/service/impl/RoleServiceImpl.java:160-169 | overwrites display name and description; changes the active flag only when one is supplied |
| Roles.Role.Activate | src/main/java/com/common_wealth_builders/entity/Role.java:87-90 | sets the flag unconditionally, system roles included; nothing else changes |
| Roles.Role.Deactivate | src/main/java/com/common_wealth_builders/entity/Role.java:92-99 | fails iff the role is a system role, with nothing changed; otherwise clears the flag only |
| Roles.Role.SoftDelete | src/main/java/com/common_wealth_builders/entity/Role.java:102-109 | fails iff the role is a system role, with no deletion field changed; otherwise the base soft delete |
| Ledger.Assigned | src/main/java/com/common_wealth_builders/entity/User.java:215-223 | the new row is active, unrevoked, for the given user and role |
| Ledger.Revoked | src/main/java/com/common_wealth_builders/entity/UserRole.java:79-85 | inactive, revocation stamped, assignment stamps and references kept |
| Ledger.Reactivated | src/main/java/com/common_wealth_builders/entity/UserRole.java:87-95 | active, revocation cleared, assignment re-stamped, references kept |
| Ledger.RevokeThenReactivate | src/main/java/com/common_wealth_builders/entity/UserRole.java:79-95 | revoke then reactivate gives an active row with no revocation metadata and the same user and role |
| Ledger.FirstActive | src/main/java/com/common_wealth_builders/entity/User.java:230-236 | finds a row iff an active row for the role exists, and what it finds is one |
| Ledger.FirstActiveIsTheActiveRow | src/main/java/com/common_wealth_builders/entity/User.java:230-236 | under the invariant, the lookup finds the one active row of the role |
| Ledger.Assign | src/main/java/com/common_wealth_builders/entity/User.java:204-225 | refuses with "Role already assigned to user" iff an active row exists; otherwise appends exactly one row, never reusing an inactive one |
| Ledger.Revoke | src/main/java/com/common_wealth_builders/entity/User.java:227-240 | revokes the first active row of the role and nothing else; with none it returns the rows unchanged |
| Ledger.AssignKeepsInvariant | src/main/java/com/common_wealth_builders/entity/User.java:204-225 | assignment keeps at most one active row per role and leaves the role active |
| Ledger.RevokeKeepsInvariant | src/main/java/com/common_wealth_builders/entity/User.java:227-240 | revocation keeps the invariant and leaves no active row for the role |
| Ledger.RevokeAbsentIsNoOp | src/main/java/com/common_wealth_builders/entity/User.java:238 | revoking an absent assignment changes nothing |
| Ledger.ReassignAfterRevokeBreaksUniquePairs | src/main/java/com/common_wealth_builders/entity/UserRole.java:30-32 | assign, revoke and reassign of one role leaves two rows for the same (user, role), violating `uk_user_role` |
| Ledger.FirstRowFor | src/main/java/com/common_wealth_builders/entity/UserRole.java:30-32 | finds the row of a (user, role) pair, active or not, or reports that there is none |
| Ledger.AssignReusingRow | src/main/java/com/common_wealth_builders/entity/UserRole.java:87-95 | corrected assignment: same refusal; an existing inactive row is reactivated instead of a new row being added |
| Ledger.AssignReusingRowKeepsConstraints | src/main/java/com/common_wealth_builders/entity/UserRole.java:30-32 | the corrected assignment keeps `uk_user_role` and the one-active-row invariant, and leaves the role active |
| Ledger.ReassignAfterRevokeKeepsUniquePairs | src/main/java/com/common_wealth_builders/entity/UserRole.java:30-32 | revoke then corrected reassign keeps `uk_user_role` and makes the role active again |
| Ledger.AssignGrantsRoleName | src/main/java/com/common_wealth_builders/entity/User.java:242-249 | after a successful assignment `hasRole` holds for the role's name |
| Ledger.ActiveRoleNames | src/main/java/com/common_wealth_builders/service/impl/UserServiceImpl.java:201-204 | every active row with a role type contributes its type name |
| Ledger.ActiveRoleNamesAgreeWithHasRole | src/main/java/com/common_wealth_builders/entity/User.java:242-249 | a name is listed exactly when `hasRole` holds for it |
| UserRoles.UserRole.constructor | src/main/java/com/common_wealth_builders/entity/UserRole.java:62-63 | a new row is active, with no stamps |
| UserRoles.UserRole.OnCreate | src/main/java/com/common_wealth_builders/entity/UserRole.java:69-77 | sets the assignment date to now only when none was set |
| UserRoles.UserRole.Revoke | src/main/java/com/common_wealth_builders/entity/UserRole.java:79-85 | the row becomes `Revoked` of its old value |
| UserRoles.UserRole.Reactivate | src/main/java/com/common_wealth_builders/entity/UserRole.java:87-95 | the row becomes `Reactivated` of its old value |
| UserRoles.RowsOf | src/main/java/com/common_wealth_builders/entity/User.java:77 | one row value per row object, in order |
| UserRoles.ActiveRolesOf | src/main/java/com/common_wealth_builders/entity/User.java:251-259 | the role of every active row is listed, whatever the role's own flag |
| UserRoles.ActiveRoleComesFromActiveRow | src/main/java/com/common_wealth_builders/entity/User.java:251-259 | every listed role is the role of some active row |
| UserRoles.AuthoritiesAreCodesOfActiveRoles | src/main/java/com/common_wealth_builders/entity/User.java:135-148 | the authorities are the codes of the active rows' roles that are themselves active |
| Users.AfterFailedAttempt | src/main/java/com/common_wealth_builders/entity/User.java:179-188 | the `Integer` counter goes up by one, wrapping from the greatest value to the least; when the new count is five or more the account is locked until one hour after now, below five the lock fields are kept |
| Users.WrappedCounterKeepsLockFields | src/main/java/com/common_wealth_builders/entity/User.java:180-186 | a failure at the greatest `Integer` count wraps the counter to the least value and leaves the lock fields as they were |
| Users.FewFailuresKeepOpen | src/main/java/com/common_wealth_builders/entity/User.java:179-188 | fewer than five failures on an open account only count |
| Users.FifthFailureLocks | src/main/java/com/common_wealth_builders/entity/User.java:179-188 | the fifth failure on a fresh account locks it until an hour after that failure |
| Users.AfterFailedAttemptsSplit | src/main/java/com/common_wealth_builders/entity/User.java:179-188 | a run of failures is the composition of its parts |
| Users.LockOutlivesItsExpiry | src/main/java/com/common_wealth_builders/entity/User.java:161-167 | once locked by the counter the account stays locked at any later time, until the counter is reset |
| Users.User.constructor | src/main/java/com/common_wealth_builders/entity/User.java:76-103 | the builder defaults: enabled, unlocked, no failures, no rows |
| Users.User.AssignRole | src/main/java/com/common_wealth_builders/entity/User.java:204-225 | the rows become `Ledger.Assign` of the old rows; on refusal nothing changes; on success one row object is appended; the account fields are kept |
| Users.User.NewAssignedRow | src/main/java/com/common_wealth_builders/entity/User.java:215-221 | a new row object for this user and role, active, stamped with `assignedBy` and the time, never revoked |
| Users.User.AssignRoleReusingRow | src/main/java/com/common_wealth_builders/entity/User.java:204-225 | the rows become `Ledger.AssignReusingRow` of the old rows (the corrected assignment) |
| Users.User.RevokeRole | src/main/java/com/common_wealth_builders/entity/User.java:227-240 | the rows become `Ledger.Revoke` of the old rows |
| Users.User.IncrementFailedLoginAttempts | src/main/java/com/common_wealth_builders/entity/User.java:179-188 | the lockout fields become `AfterFailedAttempt`, wrap included, and the counter stays an `Integer`; rows, enabled flag and login fields are kept |
| Users.User.ResetFailedLoginAttempts | src/main/java/com/common_wealth_builders/entity/User.java:190-195 | counter zero, unlocked, no lock end; nothing else changes |
| Users.User.UpdateLastLogin | src/main/java/com/common_wealth_builders/entity/User.java:197-202 | records the login time and address and resets the counter |
| Users.User.SetEnabled | src/main/java/com/common_wealth_builders/service/impl/UserServiceImpl.java:116 | sets the flag; rows, lockout and login fields are kept |
| Payments.Validation | src/main/java/com/common_wealth_builders/entity/Payment.java:95-107 | a payment may be stored iff the amount is positive and the reference is not blank after trim |
| Payments.VerifiedIffSomeVerify | src/main/java/com/common_wealth_builders/entity/Payment.java:109-149 | after any sequence of calls, the payment is verified iff it was already verified or some call was a verify |
| Payments.VerifiedIsPermanent | src/main/java/com/common_wealth_builders/entity/Payment.java:109-149 | nothing ever clears `isVerified` |
| Payments.RejectedYetVerifiedIsReachable | src/main/java/com/common_wealth_builders/entity/Payment.java:126-135 | verify then reject leaves a payment that is REJECTED and still verified |
| Payments.GuardsIgnoreStatus | src/main/java/com/common_wealth_builders/entity/Payment.java:112 | verify and cancel succeed iff the flag is clear, whatever the status (REJECTED and CANCELLED included) |
| Payments.CancelKeepsVerifier | src/main/java/com/common_wealth_builders/entity/Payment.java:137-149 | cancel sets CANCELLED and the remarks, records no canceller and keeps verifier and date |
| Payments.Payment.constructor | src/main/java/com/common_wealth_builders/service/impl/PaymentServiceImpl.java:45-56 | a new payment is PENDING and unverified |
| Payments.Payment.Verify | src/main/java/com/common_wealth_builders/entity/Payment.java:109-124 | refused when already verified with nothing changed; otherwise VERIFIED, flag set, stamps written |
| Payments.Payment.Reject | src/main/java/com/common_wealth_builders/entity/Payment.java:126-135 | no guard: REJECTED, stamps overwritten, flag kept |
| Payments.Payment.Cancel | src/main/java/com/common_wealth_builders/entity/Payment.java:137-149 | refused for a verified payment with nothing changed; otherwise CANCELLED with the remarks |
| Payments.Payment.OnUpdate | src/main/java/com/common_wealth_builders/entity/Payment.java:90-93 | fails exactly when validation fails |
| Expenses.Validation | src/main/java/com/common_wealth_builders/entity/Expense.java:94-106 | an expense may be stored iff the amount is positive and the title is not blank; the description is not checked |
| Expenses.ApprovalIsOneShot | src/main/java/com/common_wealth_builders/entity/Expense.java:108-123 | approval succeeds iff unapproved, stamps approver, date and remarks, and any second approval fails |
| Expenses.Expense.constructor | src/main/java/com/common_wealth_builders/entity/Expense.java:65-66 | a new expense holds the request's fields and is unapproved |
| Expenses.Expense.Approve | src/main/java/com/common_wealth_builders/entity/Expense.java:108-123 | the approval fields become `ApproveStep` of the old ones (nothing changes on refusal); the details are kept |
| Expenses.Expense.Overwrite | src/main/java/com/common_wealth_builders/service/impl/ExpenseServiceImpl.java:133-140 | the eight request fields are replaced; the approval fields are untouched |
| Notices.Validation | src/main/java/com/common_wealth_builders/entity/Notice.java:85-97 | a notice may be stored iff title and content are both not blank |
| Common.IncrementInt32 | src/main/java/com/common_wealth_builders/entity/Notice.java:132-135 | one more, wrapping from the greatest `Integer` to the least; used for the view count and the failed-login counter |
| Notices.RepublishAfterUnpublish | src/main/java/com/common_wealth_builders/entity/Notice.java:99-120 | publish succeeds iff unpublished; a second publish fails; publish after unpublish always succeeds |
| Notices.Notice.constructor | src/main/java/com/common_wealth_builders/entity/Notice.java:51-70 | a new notice is a draft, unpinned, with no views |
| Notices.Notice.Publish | src/main/java/com/common_wealth_builders/entity/Notice.java:99-111 | the publication fields become `PublishStep` of the old ones; other fields kept |
| Notices.Notice.Unpublish | src/main/java/com/common_wealth_builders/entity/Notice.java:113-120 | no guard: draft again, publish date cleared; every other field kept |
| Notices.Notice.Pin | src/main/java/com/common_wealth_builders/entity/Notice.java:122-125 | pinned afterwards whatever before; nothing else changes |
| Notices.Notice.Unpin | src/main/java/com/common_wealth_builders/entity/Notice.java:127-130 | unpinned afterwards whatever before; nothing else changes |
| Notices.Notice.IncrementViewCount | src/main/java/com/common_wealth_builders/entity/Notice.java:132-135 | the count becomes `IncrementInt32` of the old one; nothing else changes |
| Time.DaysInMonth | src/main/java/com/common_wealth_builders/service/impl/ReportServiceImpl.java:236 | 28 to 31 days, 29 exactly for February of a leap year |
| Time.OrderTrichotomy | src/main/java/com/common_wealth_builders/service/impl/ReportServiceImpl.java:110-118 | the date order is strict and total, as `compareTo` is |
| Time.OrderTransitive | src/main/java/com/common_wealth_builders/service/impl/ReportServiceImpl.java:110-118 | the date order is transitive |
| Time.PlusOneHour | src/main/java/com/common_wealth_builders/entity/User.java:185 | one hour later, wrapping the time of day |
| Time.PlusOneHourRoundTrip | src/main/java/com/common_wealth_builders/entity/User.java:185 | subtracting an hour undoes adding one, across midnight, month and year ends |
| Time.NextDayRoundTrip | src/main/java/com/common_wealth_builders/entity/User.java:185 | the day before the day after is the same date |
| Time.MinusOneMonth | src/main/java/com/common_wealth_builders/service/impl/ReportServiceImpl.java:45 | earlier; the previous month (December of the year before for January); the same day clamped to that month's length; the same time of day |
| Time.MonthStart | src/main/java/com/common_wealth_builders/service/impl/ReportServiceImpl.java:235 | no instant of the month is before it |
| Time.MonthEndAsWritten | src/main/java/com/common_wealth_builders/service/impl/ReportServiceImpl.java:236 | the last day of the month at 23:59:59 |
| Time.MonthEnd | src/main/java/com/common_wealth_builders/service/impl/ReportServiceImpl.java:236 | no instant of the month is after it |
| Time.MonthRangeAsWrittenMissesLastSecond | src/main/java/com/common_wealth_builders/service/impl/ReportServiceImpl.java:234-236 | an instant of the month after 23:59:59.000 on its last day falls outside the range as written |
| Time.MonthRangeCoversMonth | src/main/java/com/common_wealth_builders/service/impl/ReportServiceImpl.java:234-236 | with the corrected end, an instant is in the range iff it is in the month |
| UserRoleRepository.FindByUserIdAndIsActiveTrue | src/main/java/com/common_wealth_builders/repository/UserRoleRepository.java:17 | exactly the user's active rows |
| UserRoleRepository.FindByRoleIdAndIsActiveTrue | src/main/java/com/common_wealth_builders/repository/UserRoleRepository.java:19 | exactly the role's active rows |
| UserRoleRepository.FindByUserId | src/main/java/com/common_wealth_builders/repository/UserRoleRepository.java:21 | exactly the user's rows, active or not |
| UserRoleRepository.FindActiveByUserIdAndRoleId | src/main/java/com/common_wealth_builders/repository/UserRoleRepository.java:23-24 | a row only if it matches both ids and is active; none iff no such row |
| UserRoleRepository.CountActiveUsersByRoleId | src/main/java/com/common_wealth_builders/repository/UserRoleRepository.java:26-27 | zero iff the role has no active row |
| UserRoleRepository.CountIsSizeOfFind | src/main/java/com/common_wealth_builders/repository/UserRoleRepository.java:19-27 | the count equals the size of `findByRoleIdAndIsActiveTrue` |
| UserRoleRepository.ActiveRowIsUnique | src/main/java/com/common_wealth_builders/repository/UserRoleRepository.java:23-24 | with one active row per pair, the lookup returns that row |
| UserRoleRepository.UserRowsKeepTableInvariant | src/main/java/com/common_wealth_builders/repository/UserRoleRepository.java:21 | a user's rows from a table with one active row per pair hold one active row per role |
| PaymentRepository.FindByUserId | src/main/java/com/common_wealth_builders/repository/PaymentRepository.java:20 | exactly the user's payments |
| PaymentRepository.FindByStatus | src/main/java/com/common_wealth_builders/repository/PaymentRepository.java:22 | exactly the payments with that status |
| PaymentRepository.FindByIsVerified | src/main/java/com/common_wealth_builders/repository/PaymentRepository.java:24 | exactly the payments with that flag |
| PaymentRepository.FindByUserIdAndIsVerifiedTrue | src/main/java/com/common_wealth_builders/repository/PaymentRepository.java:26 | exactly the user's verified payments |
| PaymentRepository.FindByPaymentReference | src/main/java/com/common_wealth_builders/repository/PaymentRepository.java:28 | `IncorrectResultSizeDataAccessException` iff two payments share the reference (the column is not unique and `createPayment` does not check it); otherwise the one payment with that reference, none iff there is none |
| PaymentRepository.FindByPaymentDateBetween | src/main/java/com/common_wealth_builders/repository/PaymentRepository.java:30-35 | exactly the payments dated within the range, both ends included |
| PaymentRepository.RangeIncludesBothEnds | src/main/java/com/common_wealth_builders/repository/PaymentRepository.java:30-35 | a payment dated at either end of the range is listed |
| PaymentRepository.SumVerifiedPaymentsBetween | src/main/java/com/common_wealth_builders/repository/PaymentRepository.java:37-42 | NULL iff no verified payment is dated in the range |
| PaymentRepository.SumBetweenIsSumOfVerifiedInRange | src/main/java/com/common_wealth_builders/repository/PaymentRepository.java:37-42 | read as zero, the range total is the sum of the verified payments among those dated in the range |
| PaymentRepository.SumVerifiedPaymentsByUserId | src/main/java/com/common_wealth_builders/repository/PaymentRepository.java:44-46 | NULL iff the user has no verified payment |
| PaymentRepository.SumByUserIsSumOfFind | src/main/java/com/common_wealth_builders/repository/PaymentRepository.java:26-46 | read as zero, the user total is the sum over `findByUserIdAndIsVerifiedTrue` |
| PaymentRepository.TotalsIgnoreStatus | src/main/java/com/common_wealth_builders/repository/PaymentRepository.java:37-42 | changing statuses (e.g. to REJECTED) changes no verified total |
| PaymentRepository.SearchPayments | src/main/java/com/common_wealth_builders/repository/PaymentRepository.java:48-56 | exactly the payments meeting every non-null filter |
| PaymentRepository.SearchWildcards | src/main/java/com/common_wealth_builders/repository/PaymentRepository.java:48-56 | all filters NULL give the table; one filter gives the matching `findBy` |
| ExpenseRepository.FindByCategory | src/main/java/com/common_wealth_builders/repository/ExpenseRepository.java:19 | exactly the expenses of the category, deleted ones included |
| ExpenseRepository.FindByIsApproved | src/main/java/com/common_wealth_builders/repository/ExpenseRepository.java:21 | exactly the expenses with that flag |
| ExpenseRepository.FindByExpenseDateBetween | src/main/java/com/common_wealth_builders/repository/ExpenseRepository.java:23-28 | exactly the expenses dated in the range, both ends included |
| ExpenseRepository.SumApprovedExpensesBetween | src/main/java/com/common_wealth_builders/repository/ExpenseRepository.java:30-35 | NULL iff no approved expense is dated in the range |
| ExpenseRepository.ApprovedTotalIsSumOfApprovedInRange | src/main/java/com/common_wealth_builders/repository/ExpenseRepository.java:30-35 | read as zero, the total is the sum of the approved expenses among those in the range |
| ExpenseRepository.GroupKeys | src/main/java/com/common_wealth_builders/repository/ExpenseRepository.java:37-43 | each category of an approved in-range expense, once, and no other |
| ExpenseRepository.SumExpensesByCategory | src/main/java/com/common_wealth_builders/repository/ExpenseRepository.java:37-43 | one row per category with an approved in-range expense, each holding that category's approved total |
| ExpenseRepository.GroupsAddUp | src/main/java/com/common_wealth_builders/repository/ExpenseRepository.java:37-43 | the group amounts add up to the sum of the per-category totals |
| ExpenseRepository.TotalOverCovers | src/main/java/com/common_wealth_builders/repository/ExpenseRepository.java:30-43 | per-category totals over distinct categories covering every approved in-range expense add up to the approved total |
| ExpenseRepository.CategoryTotalsAddUp | src/main/java/com/common_wealth_builders/repository/ExpenseRepository.java:30-43 | the per-category sums add up to `sumApprovedExpensesBetween` read as zero |
| ExpenseRepository.SearchExpenses | src/main/java/com/common_wealth_builders/repository/ExpenseRepository.java:45-54 | exactly the expenses meeting the non-null filters and the case-insensitive text match |
| ExpenseRepository.SearchWildcards | src/main/java/com/common_wealth_builders/repository/ExpenseRepository.java:45-54 | null filters and "" list every expense; a category alone equals `findByCategory` |
| AuditTrails.FindByUserId | src/main/java/com/common_wealth_builders/repository/AuditTrailRepository.java:13 | exactly the entries of the user |
| AuditTrails.FindByModule | src/main/java/com/common_wealth_builders/repository/AuditTrailRepository.java:14 | exactly the entries of the module |
| AuditTrails.FindByAction | src/main/java/com/common_wealth_builders/repository/AuditTrailRepository.java:15 | exactly the entries of the action |
| AuditTrails.SearchAuditTrails | src/main/java/com/common_wealth_builders/repository/AuditTrailRepository.java:17-25 | exactly the entries meeting every non-null equality filter |
| AuditTrails.SearchWildcards | src/main/java/com/common_wealth_builders/repository/AuditTrailRepository.java:17-25 | all NULL gives the whole trail; one filter gives the matching `findBy` |
| NoticeRepository.NewerOrSameIsTotalPreorder | src/main/java/com/common_wealth_builders/repository/NoticeRepository.java:27 | `publishDate DESC` over nullable dates is total and transitive |
| NoticeRepository.PublicOrderIsTotalPreorder | src/main/java/com/common_wealth_builders/repository/NoticeRepository.java:27 | pinned-first-then-newest is total and transitive |
| NoticeRepository.FindPublicNotices | src/main/java/com/common_wealth_builders/repository/NoticeRepository.java:24-28 | a permutation of the public notices, pinned first and then newest first |
| NoticeRepository.PublicNoticesAreExactlyUnexpired | src/main/java/com/common_wealth_builders/repository/NoticeRepository.java:24-26 | listed iff published, not deleted, and with no expiry or an expiry after now |
| NoticeRepository.ActiveAndPublicDisagreeOnlyAtExpiry | src/main/java/com/common_wealth_builders/entity/Notice.java:137-147 | the entity's `isActive` and the public query agree except at the exact expiry instant, where only the entity counts the notice |
| NoticeRepository.FindPinnedNotices | src/main/java/com/common_wealth_builders/repository/NoticeRepository.java:30-33 | a permutation of the pinned, published, undeleted notices, newest first |
| NoticeRepository.ExpiredPinnedNoticeIsStillListed | src/main/java/com/common_wealth_builders/repository/NoticeRepository.java:30-33 | an expired pinned notice is in the pinned list but not in the public list |
| NoticeRepository.SearchNotices | src/main/java/com/common_wealth_builders/repository/NoticeRepository.java:35-44 | exactly the notices meeting the non-null filters and the text match |
| NoticeRepository.SearchWildcards | src/main/java/com/common_wealth_builders/repository/NoticeRepository.java:35-44 | null filters and "" list every notice, drafts included |
| RoleRepository.FindByName | src/main/java/com/common_wealth_builders/repository/RoleRepository.java:18 | a role of that type, none iff there is none |
| RoleRepository.ExistsIffFound | src/main/java/com/common_wealth_builders/repository/RoleRepository.java:18-20 | `existsByName` holds iff `findByName` finds a role |
| RoleRepository.FindByIsActiveTrue | src/main/java/com/common_wealth_builders/repository/RoleRepository.java:22 | exactly the flagged roles, deleted ones included |
| RoleRepository.FindByIsDeletedFalse | src/main/java/com/common_wealth_builders/repository/RoleRepository.java:24 | exactly the roles not deleted |
| RoleRepository.FindAllActiveRoles | src/main/java/com/common_wealth_builders/repository/RoleRepository.java:26-27 | exactly the roles both active and not deleted |
| RoleRepository.ActiveRolesAreUndeletedActiveFlags | src/main/java/com/common_wealth_builders/repository/RoleRepository.java:22-27 | `findAllActiveRoles` is `findByIsActiveTrue` restricted to undeleted roles |
| RoleRepository.FindSystemRoles | src/main/java/com/common_wealth_builders/repository/RoleRepository.java:29-30 | exactly the system roles, deleted ones included |
| RoleRepository.SearchRoles | src/main/java/com/common_wealth_builders/repository/RoleRepository.java:32-35 | exactly the roles whose display name or description contains the term, ignoring case |
| RoleRepository.EmptySearchNeedsSomeText | src/main/java/com/common_wealth_builders/repository/RoleRepository.java:32-35 | the empty term lists exactly the roles with a display name or a description |
| UserRepository.FindById | src/main/java/com/common_wealth_builders/service/impl/UserServiceImpl.java:113-114 | a user with that id, none iff there is none |
| UserRepository.FindByEmail | src/main/java/com/common_wealth_builders/repository/UserRepository.java:15 | a user with that email, none iff there is none |
| UserRepository.FindByUserName | src/main/java/com/common_wealth_builders/repository/UserRepository.java:16 | a user with that user name, none iff there is none |
| UserRepository.ExistsIffFound | src/main/java/com/common_wealth_builders/repository/UserRepository.java:15-18 | each existence check holds iff the matching lookup finds a user |
| UserRepository.FindByEmailIsTheUser | src/main/java/com/common_wealth_builders/repository/UserRepository.java:15 | under unique emails the lookup finds the one user with that email |
| UserRepository.SearchUsers | src/main/java/com/common_wealth_builders/repository/UserRepository.java:20-25 | exactly the users with the term in first name, last name, email or user name, ignoring case |
| UserRepository.SearchFindsByOwnEmail | src/main/java/com/common_wealth_builders/repository/UserRepository.java:20-25 | the empty term lists every user, and a user's email finds that user |
| AuditService.Logged | src/main/java/com/common_wealth_builders/service/impl/AuditServiceImpl.java:40-69 | appends exactly one entry with the given fields, stamped with the user's email, iff the user exists; otherwise the trail is unchanged; old entries are never modified |
| AuditService.LoggedKeepsForeignKey | src/main/java/com/common_wealth_builders/service/impl/AuditServiceImpl.java:45-61 | every entry refers to an existing user, before and after logging |
| AuditService.LoggedEntryIsFound | src/main/java/com/common_wealth_builders/service/impl/AuditServiceImpl.java:102-162 | a logged entry is found by the user's and the module's queries |
| AuditService.AuditService.LogAction | src/main/java/com/common_wealth_builders/service/impl/AuditServiceImpl.java:34-36 | the four-argument form is the six-argument one with no IP address or user agent |
| AuditService.AuditService.LogActionFrom | src/main/java/com/common_wealth_builders/service/impl/AuditServiceImpl.java:40-69 | the trail becomes `Logged` of the old trail; no failure reaches the caller |
| AuditService.AuditService.GetAuditTrailsByUserId | src/main/java/com/common_wealth_builders/service/impl/AuditServiceImpl.java:102-132 | not-found iff the user is unknown; otherwise the user's entries |
| AuditService.AuditService.GetAuditTrailsByModule | src/main/java/com/common_wealth_builders/service/impl/AuditServiceImpl.java:135-162 | the module's entries, with no check of the module |
| AuditService.AuditService.Search | src/main/java/com/common_wealth_builders/service/impl/AuditServiceImpl.java:165-193 | the repository search with the filters passed straight through |
| RoleService.CurrentUserEmail | src/main/java/com/common_wealth_builders/service/impl/RoleServiceImpl.java:460-467 | the authentication's name, or "SYSTEM" without one |
| RoleService.FindRoleById | src/main/java/com/common_wealth_builders/service/impl/RoleServiceImpl.java:154-155 | a role with that id, none iff there is none |
| RoleService.RoleService.constructor | src/main/java/com/common_wealth_builders/service/impl/RoleServiceImpl.java:114-147 | an empty table that keeps the service invariant |
| RoleService.RoleService.CreateRole | src/main/java/com/common_wealth_builders/service/impl/RoleServiceImpl.java:114-147 | RoleAlreadyExists iff the type exists, else the validation error if any; otherwise one new non-system role, active unless the request says otherwise, with the generated code |
| RoleService.RoleService.UpdateRole | src/main/java/com/common_wealth_builders/service/impl/RoleServiceImpl.java:151-188 | not-found, then refused for a system role, then the validation error with nothing changed; otherwise `Role.Update` of the role; other roles unchanged |
| RoleService.RoleService.DeleteRole | src/main/java/com/common_wealth_builders/service/impl/RoleServiceImpl.java:192-230 | not-found, system role, then "in use" when active assignments exist; otherwise soft-deleted by the current actor; other roles unchanged |
| RoleService.RoleService.ActivateRole | src/main/java/com/common_wealth_builders/service/impl/RoleServiceImpl.java:234-258 | not-found iff unknown; otherwise the flag is set, system roles included |
| RoleService.RoleService.DeactivateRole | src/main/java/com/common_wealth_builders/service/impl/RoleServiceImpl.java:262-286 | not-found, then the entity's system-role refusal; otherwise the flag is cleared |
| RoleService.RoleService.AssignRoleToUser | src/main/java/com/common_wealth_builders/service/impl/RoleServiceImpl.java:320-347 | user not found, then role not found; otherwise the user's rows become `Ledger.Assign` stamped by the actor; a refusal changes no user's rows, and other users' rows never change; every user's account fields (enabled, lockout, last login) are kept; no audit entry |
| RoleService.RoleService.RevokeRoleFromUser | src/main/java/com/common_wealth_builders/service/impl/RoleServiceImpl.java:351-378 | user not found, then role not found; otherwise success with the rows `Ledger.Revoke`, even when nothing was active; a refusal changes no user's rows, and other users' rows never change |
| RoleService.RoleService.GetUserRoles | src/main/java/com/common_wealth_builders/service/impl/RoleServiceImpl.java:381-400 | not-found iff unknown; otherwise exactly the user's active rows |
| PaymentService.FindPaymentById | src/main/java/com/common_wealth_builders/service/impl/PaymentServiceImpl.java:193-194 | a payment with that id, none iff there is none |
| PaymentService.ParseStatus | src/main/java/com/common_wealth_builders/service/impl/PaymentServiceImpl.java:280 | a parsed status spells the text, ignoring case |
| PaymentService.ParseStatusRoundTrip | src/main/java/com/common_wealth_builders/service/impl/PaymentServiceImpl.java:280 | parsing a status name in any case gives that status back |
| PaymentService.Records | src/main/java/com/common_wealth_builders/service/impl/PaymentServiceImpl.java:277-306 | one record per stored payment, in order |
| PaymentService.PaymentService.constructor | src/main/java/com/common_wealth_builders/service/impl/PaymentServiceImpl.java:39-76 | an empty table that keeps the service invariant |
| PaymentService.PaymentService.CreatePayment | src/main/java/com/common_wealth_builders/service/impl/PaymentServiceImpl.java:39-76 | not-found for an unknown owner, then the validation error; otherwise one new PENDING, unverified payment and one PAYMENT_CREATED entry for the owner; nothing changes on failure |
| PaymentService.PaymentService.VerifyPayment | src/main/java/com/common_wealth_builders/service/impl/PaymentServiceImpl.java:190-218 | not-found; PaymentAlreadyVerified before any change; otherwise `VerifyStep` and one PAYMENT_VERIFIED entry for the owner, not the verifier; other payments unchanged |
| PaymentService.PaymentService.VerifyStored | src/main/java/com/common_wealth_builders/service/impl/PaymentServiceImpl.java:196-208 | succeeds iff unverified; the state and trail change only on success |
| PaymentService.PaymentService.RejectPayment | src/main/java/com/common_wealth_builders/service/impl/PaymentServiceImpl.java:222-246 | fails iff the id is unknown; any stored payment is rejected and one PAYMENT_REJECTED entry is written |
| PaymentService.PaymentService.RejectStored | src/main/java/com/common_wealth_builders/service/impl/PaymentServiceImpl.java:228-236 | `RejectStep` of the old state and one entry for the owner |
| PaymentService.PaymentService.CancelPayment | src/main/java/com/common_wealth_builders/service/impl/PaymentServiceImpl.java:250-274 | not-found; no ownership check; refused only for a verified payment; otherwise `CancelStep` and one PAYMENT_CANCELLED entry |
| PaymentService.PaymentService.CancelStored | src/main/java/com/common_wealth_builders/service/impl/PaymentServiceImpl.java:256-264 | succeeds iff unverified; the state and trail change only on success |
| PaymentService.PaymentService.SearchPayments | src/main/java/com/common_wealth_builders/service/impl/PaymentServiceImpl.java:277-306 | an error iff the status text names no status; otherwise the repository search over the table |
| ExpenseService.FindExpenseById | src/main/java/com/common_wealth_builders/service/impl/ExpenseServiceImpl.java:126-127 | an expense with that id, deleted ones included; none iff there is none |
| ExpenseService.CurrentUserId | src/main/java/com/common_wealth_builders/service/impl/ExpenseServiceImpl.java:308-317 | the id of the user with that email, or 1 when there is none |
| ExpenseService.CurrentUserIdIsTheActor | src/main/java/com/common_wealth_builders/service/impl/ExpenseServiceImpl.java:308-317 | under unique emails a user is credited with their own id |
| ExpenseService.ExpenseService.constructor | src/main/java/com/common_wealth_builders/service/impl/ExpenseServiceImpl.java:38-72 | an empty table that keeps the service invariant |
| ExpenseService.ExpenseService.CreateExpense | src/main/java/com/common_wealth_builders/service/impl/ExpenseServiceImpl.java:38-72 | fails iff validation fails; otherwise one new unapproved expense and one EXPENSE_CREATED entry |
| ExpenseService.ExpenseService.UpdateExpense | src/main/java/com/common_wealth_builders/service/impl/ExpenseServiceImpl.java:123-159 | not-found, refused once approved; otherwise exactly the eight fields replaced, approval untouched, one EXPENSE_UPDATED entry; soft-deleted expenses included |
| ExpenseService.ExpenseService.DeleteExpense | src/main/java/com/common_wealth_builders/service/impl/ExpenseServiceImpl.java:163-190 | not-found, refused once approved; otherwise soft-deleted by the actor with one EXPENSE_DELETED entry |
| ExpenseService.ExpenseService.ApproveExpense | src/main/java/com/common_wealth_builders/service/impl/ExpenseServiceImpl.java:194-221 | not-found for the expense, then for the approver's email; otherwise `ApproveStep` and an entry credited to the approver |
| ExpenseService.ExpenseService.ApproveStored | src/main/java/com/common_wealth_builders/service/impl/ExpenseServiceImpl.java:200-211 | the approval fields become `ApproveStep`; the trail changes only on success |
| UserService.ResponseRoles | src/main/java/com/common_wealth_builders/service/impl/UserServiceImpl.java:181-208 | a name is listed iff `hasRole` holds for it, i.e. only names of roles on active rows |
| UserService.UserService.EnableUser | src/main/java/com/common_wealth_builders/service/impl/UserServiceImpl.java:110-134 | not-found iff unknown; otherwise enabled whatever before with its rows, lockout and login fields kept, one USER_ENABLED entry for the user; every other user object keeps its rows and account fields, even one that shares the id |
| UserService.UserService.DisableUser | src/main/java/com/common_wealth_builders/service/impl/UserServiceImpl.java:138-162 | not-found iff unknown; otherwise disabled whatever before with its rows, lockout and login fields kept, one USER_DISABLED entry for the user; every other user object keeps its rows and account fields, even one that shares the id |
| UserService.UserService.SetEnabled | src/main/java/com/common_wealth_builders/service/impl/UserServiceImpl.java:110-162 | the shared lookup, flag, save and log of both operations: not-found iff unknown, else only the target's flag changes and one entry is logged; every other user object keeps its rows and account fields, even one that shares the id |
| ReportService.Period | src/main/java/com/common_wealth_builders/service/impl/ReportServiceImpl.java:44-47 | given dates are kept; a missing start is `MinusOneMonth(now)`, earlier than now and in another month; a missing end is now |
| ReportService.DefaultPeriodEndsNow | src/main/java/com/common_wealth_builders/service/impl/ReportServiceImpl.java:44-47 | with no dates, the period runs from one month before now up to now |
| ReportService.PutAllKeys | src/main/java/com/common_wealth_builders/service/impl/ReportServiceImpl.java:64-67 | after the puts, the keys are the map's and the pairs' |
| ReportService.PutAllKeeps | src/main/java/com/common_wealth_builders/service/impl/ReportServiceImpl.java:64-67 | a key no pair names keeps its value |
| ReportService.PutAllLastWins | src/main/java/com/common_wealth_builders/service/impl/ReportServiceImpl.java:64-67 | a key's value is that of its last pair |
| ReportService.CategoryMap | src/main/java/com/common_wealth_builders/service/impl/ReportServiceImpl.java:64-67 | the loop's map has exactly the pairs' keys, each with its last pair's value |
| ReportService.CategoryMapHoldsTotals | src/main/java/com/common_wealth_builders/service/impl/ReportServiceImpl.java:62-67 | the map built from `sumExpensesByCategory` has exactly the categories of approved in-range expenses, each with its approved total |
| ReportService.GenerateFinancialSummary | src/main/java/com/common_wealth_builders/service/impl/ReportServiceImpl.java:40-92 | `IsSummaryOf` the period: NULL sums read as zero; net balance is income minus expenses; pending is the unverified in-range total; the count covers every in-range payment; the breakdown is per category |
| ReportService.GenerateExpenseReport | src/main/java/com/common_wealth_builders/service/impl/ReportServiceImpl.java:145-178 | the approved total of the period and its per-category breakdown, which adds up to it |
| ReportService.GeneratePaymentReport | src/main/java/com/common_wealth_builders/service/impl/ReportServiceImpl.java:182-227 | over the payments in the period: the total is their sum, the verified amount the verified aggregate, the pending amount the rest; the count is their number, the verified count the number of verified ones, the pending count the rest |
| ReportService.LatestDate | src/main/java/com/common_wealth_builders/service/impl/ReportServiceImpl.java:110-113 | NULL iff no dates; otherwise a date of the list that none is after |
| ReportService.EarliestDate | src/main/java/com/common_wealth_builders/service/impl/ReportServiceImpl.java:115-118 | NULL iff no dates; otherwise a date of the list that none is before |
| ReportService.GenerateUserContributionReport | src/main/java/com/common_wealth_builders/service/impl/ReportServiceImpl.java:96-141 | not-found iff unknown; total and count over verified payments only; pending always zero; first and last dates are the `EarliestDate` and `LatestDate` of the verified dates, and bound them all; email and "first last" name of the user, a NULL part printed as `null` |
| ReportService.DatesWithinExtremes | src/main/java/com/common_wealth_builders/service/impl/ReportServiceImpl.java:110-118 | every date lies between the min and the max, which are in order |
| ReportService.GenerateMonthlyReport | src/main/java/com/common_wealth_builders/service/impl/ReportServiceImpl.java:231-253 | refused iff the year or month is out of range; otherwise `IsSummaryOf` the month from its first to its last instant (corrected end), every figure of `generateFinancialSummary` included, counting exactly the month's payments |
| AuthUtils.GetPrincipal | src/main/java/com/common_wealth_builders/utils/AuthUtils.java:27-33 | none without an authenticated authentication, else its principal |
| AuthUtils.LoggedInUsername | src/main/java/com/common_wealth_builders/utils/AuthUtils.java:38-49 | "SYSTEM" without a principal; a user principal's email; another principal's text |
| AuthUtils.LoggedInUsernameFindsTheUser | src/main/java/com/common_wealth_builders/utils/AuthUtils.java:38-49 | under unique emails the recorded name finds the logged-in user again |
| AuthUtils.NamePart | src/main/java/com/common_wealth_builders/utils/AuthUtils.java:59-62 | a null or blank part is dropped, any other is trimmed |
| AuthUtils.Join | src/main/java/com/common_wealth_builders/utils/AuthUtils.java:63 | one part is itself; two parts are joined by the separator |
| AuthUtils.FullName | src/main/java/com/common_wealth_builders/utils/AuthUtils.java:58-64 | empty iff both parts are null or blank; "first last" when both are present; never starts or ends with a trimmed character |
| AuthUtils.UntrimmedEndsAreTrimmed | src/main/java/com/common_wealth_builders/utils/AuthUtils.java:58-64 | a string whose ends `trim` keeps is its own trim |
| AuthUtils.LoggedInNames | src/main/java/com/common_wealth_builders/utils/AuthUtils.java:54-73 | "SYSTEM" with no principal or an empty name, otherwise the trimmed joined name; another principal's text |
| AuthUtils.AnyActiveOfType | src/main/java/com/common_wealth_builders/utils/AuthUtils.java:81-84 | true iff an active row's role type equals the argument |
| AuthUtils.HasRole | src/main/java/com/common_wealth_builders/utils/AuthUtils.java:78-85 | false for a null user; otherwise iff an active row's role type is the argument, agreeing with `User.hasRole`; a null type matches the active rows of roles without a type |
| AuthUtils.HasRoleAgreesWithName | src/main/java/com/common_wealth_builders/utils/AuthUtils.java:78-85 | comparing types and comparing type names agree |
| AuthUtils.AssignThenHasRole | src/main/java/com/common_wealth_builders/utils/AuthUtils.java:78-85 | after a successful assignment `hasRole` holds for the role |
| AuthUtils.FirstMissing | src/main/java/com/common_wealth_builders/utils/AuthUtils.java:93-96 | none iff every role type is in the table; otherwise a type that is not |
| AuthUtils.GrantsFor | src/main/java/com/common_wealth_builders/utils/AuthUtils.java:93-106 | one active row per role type, with the found role, stamped with the assigner |
| AuthUtils.CreateUserRoles | src/main/java/com/common_wealth_builders/utils/AuthUtils.java:90-107 | no rows for a null or empty input; fails iff some role type is missing from the table; otherwise one active row per type |
| AuthUtils.CreatedRowsKeepInvariant | src/main/java/com/common_wealth_builders/utils/AuthUtils.java:90-107 | distinct role types give at most one active row per role, and every type is granted |
| ExceptionHandler.Code | src/main/java/com/common_wealth_builders/exception/GlobalExceptionHandler.java:20-189 | between 400 and 500, 500 exactly for the internal error |
| ExceptionHandler.StatusOf | src/main/java/com/common_wealth_builders/exception/GlobalExceptionHandler.java:20-189 | 400 iff validation; 404 iff not found; 409 iff one of the three conflicts; 401 iff one of the three credential errors; 403 iff access denied or insufficient permission; 500 iff any other exception |
| ExceptionHandler.MessageOf | src/main/java/com/common_wealth_builders/exception/GlobalExceptionHandler.java:20-189 | fixed messages for validation, bad credentials, access denied and the catch-all; otherwise the exception's message |
| ExceptionHandler.ValidationMessages | src/main/java/com/common_wealth_builders/exception/GlobalExceptionHandler.java:24-28 | one message per field error, in order |
| ExceptionHandler.Handle | src/main/java/com/common_wealth_builders/exception/GlobalExceptionHandler.java:20-189 | always a failure whose body repeats the status; status and message as mapped; field messages as data only for a validation failure |

## Left out

- Controllers, Swagger annotations and `@PreAuthorize`: HTTP routing is outside the domain core.
- The PDF, email and WhatsApp services: layout, SMTP and a network client. `formatCurrency` goes through floating point.
- `AuthServiceImpl` and `DataInitializer`: password hashing, JWT and bootstrap. Both call methods the entities and services do not declare.
- Security, OpenAPI and auditing configuration: framework setup. `AuditorAware` fills `createdBy`/`updatedBy` outside the core, so those stamps are not modelled, except where the audit service sets them itself.
- `@Version` optimistic locking, concurrency, and `@Transactional` rollback. A service operation checks every guard before it changes anything, so a refused call leaves all state as it was, which is what the rollback achieves.
- Pagination and sorting through `Pageable`/`PageResponse`: the queries return whole sequences. `findPublicNotices`/`findPinnedNotices` keep their `ORDER BY`.
- SQL `LIKE` wildcards inside a search term (`%`, `_`) are taken literally. Only ASCII letters are lower-cased, and Unicode case folding is not modelled.
- Enum constants of expense categories and notice types are strings, since the core only compares them. Role types and payment statuses are datatypes.
- The error text of `PaymentStatus.valueOf` for an unknown name is not modelled; only the kind of exception is. Likewise the message of `ExpenseCategory.valueOf` in `searchExpenses`.
- `searchExpenses` at the service level, and the read-only `get*` listings of the services that only map repository results to DTOs: the repository queries they call are modelled.
- The `Notice` service layer is not part of this model; the entity and its repository are.
- `User.validateUser`: its email and phone patterns are not modelled.
- `User.userRoles` is a `Set` of row objects in the source and a sequence here; `User.Valid` states that no row object appears twice. The order of rows is therefore the model's, not the set's.
- `AuthUtils.CreateUserRoles` takes the role types as a sequence. A Java `Set`'s iteration order is unspecified, so which missing role is named in the error depends on that order; the model states only that some missing role exists.
- `AuthUtils.HasRole`: a `User` whose `userRoles` is null cannot be represented (the builder default is an empty set), so only the null-user branch is modelled.
- `AuthUtils.LoggedInNames`: the catch branch that answers "SYSTEM" on any exception cannot be reached in the model, since a principal's `toString` is given as text and name handling cannot throw.
- The assignment and revocation services stamp the actor through `getCurrentUserEmail`; the security context is passed as `authName`.
- `RoleService`: every audit call is commented out in the source, so no role operation writes to the trail; the model's role service has no audit service.
- `RoleService.RoleService.AssignRoleToUser`: the source calls `request.getRoleId()`, which `AssignRoleRequest` (it has only `roleIds`) does not declare. The model takes a single role id, the evident intent. The interface's `CreateRoleRequest` is modelled with the fields `RoleRequest` supplies.
- `RoleService.RoleService.DeleteRole`: the assignment table is passed in as a parameter rather than held by the service.
- `UserService.ResponseRoles`: an active row whose role has no type would make the source throw a `NullPointerException` in `name()`; the model lists only rows with a type.
- Users' lockout methods are never called by the login flow; they are modelled as entity behaviour only.
- `ReportService.GenerateMonthlyReport` uses the corrected month end (see Findings). `LocalDateTime` accepts only years in the `ChronoField.YEAR` range; other years are refused as `DateTimeError`.
- Every `LocalDateTime.now()` in one operation is one `now` parameter, so several clock reads within one call coincide.
- `Time.PlusOneHour` and `Time.MinusOneMonth` do not bound the year: past `LocalDateTime.MAX`/`MIN` the source throws `DateTimeException`, while the model goes on counting years. Their argument is always the clock.
- `NoticeRepository.NewerOrSame`: the query leaves the place of a NULL `publishDate` under `DESC` to the database (last in MySQL and H2, first in PostgreSQL and Oracle); the model puts it last. It matters only for a notice flagged published without `publish()`.
- `ExceptionHandler.UnhandledLooksAlike` holds by the definitions alone and states no more than `StatusOf` and `MessageOf`.
- The `log.error`/`log.info` calls of every class are not modelled.

## Findings

| source | as written | input that shows it | evidently intended | confidence | as-written member | corrected member |
|---|---|---|---|---|---|---|
| src/main/java/com/common_wealth_builders/entity/User.java:215-223 | `assignRole` always appends a new row, although `user_roles` has the unique constraint `uk_user_role` on (user_id, role_id) (UserRole.java:30-32) and `reactivate` is never called | assign role R to user U, revoke it, assign R again: two rows for (U, R), which the database refuses | bring the revoked row back with `reactivate` instead of adding a second one | not executed | Ledger.ReassignAfterRevokeBreaksUniquePairs | Ledger.AssignReusingRowKeepsConstraints |
| src/main/java/com/common_wealth_builders/service/impl/ReportServiceImpl.java:234-236 | the monthly range ends at 23:59:59 on the last day of the month, with a zero fraction of a second | a payment dated 23:59:59.5 on the last day of the month is left out of that month's report | the range ends at the last instant of the month (`LocalTime.MAX`) | not executed | Time.MonthRangeAsWrittenMissesLastSecond | Time.MonthRangeCoversMonth |
