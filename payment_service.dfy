/** `PaymentServiceImpl`: recording a payment and moving it through verification, rejection
    and cancellation. Each successful transition saves the payment and appends one audit
    entry attributed to the payment's owner; a refused call changes nothing. */
module PaymentService {
  import opened Common
  import opened Time
  import opened Text
  import opened Users
  import opened UserRepository
  import opened Payments
  import opened PaymentRepository
  import opened AuditService

  /** `paymentRepository.findById(id)`. */
  function FindPaymentById(payments: seq<Payment>, id: nat): (r: Option<Payment>)
    ensures r.Some? ==> r.value in payments && r.value.base.id == id
    ensures r.None? ==> forall i :: 0 <= i < |payments| ==> payments[i].base.id != id
    decreases |payments|
  {
    if payments == [] then None
    else if payments[0].base.id == id then Some(payments[0])
    else
      var rest := FindPaymentById(payments[1..], id);
      assert forall i :: 1 <= i < |payments| ==> payments[i] == payments[1..][i - 1];
      rest
  }

  function NotFoundMessage(id: nat): string {
    "Payment not found with ID: " + NatToString(id)
  }

  /** The name of a status, as `PaymentStatus.name()` spells it. */
  function StatusName(s: PaymentStatus): string {
    match s
    case PENDING => "PENDING"
    case VERIFIED => "VERIFIED"
    case REJECTED => "REJECTED"
    case CANCELLED => "CANCELLED"
  }

  /** `PaymentStatus.valueOf(status.toUpperCase())`: the status whose name the text spells in
      any mix of upper and lower case, or `None` where `valueOf` throws. */
  function ParseStatus(text: string): (r: Option<PaymentStatus>)
    ensures r.Some? ==> Lower(StatusName(r.value)) == Lower(text)
  {
    var t := Lower(text);
    if t == Lower("PENDING") then Some(PENDING)
    else if t == Lower("VERIFIED") then Some(VERIFIED)
    else if t == Lower("REJECTED") then Some(REJECTED)
    else if t == Lower("CANCELLED") then Some(CANCELLED)
    else None
  }

  /** Parsing undoes naming, whatever the case the name is written in. */
  lemma ParseStatusRoundTrip(s: PaymentStatus, text: string)
    requires Lower(text) == Lower(StatusName(s))
    ensures ParseStatus(text) == Some(s)
  {
    assert Lower("PENDING") != Lower("VERIFIED") && Lower("PENDING") != Lower("REJECTED") && Lower("PENDING") != Lower("CANCELLED");
    assert Lower("VERIFIED") != Lower("REJECTED") && Lower("VERIFIED") != Lower("CANCELLED");
    assert |Lower("REJECTED")| != |Lower("CANCELLED")|;
    assert Lower("PENDING")[0] == 'p' && Lower("VERIFIED")[0] == 'v' && Lower("REJECTED")[0] == 'r';
  }

  /** The records the repository queries read, one per stored payment. */
  function Records(payments: seq<Payment>): (r: seq<PaymentRecord>)
    reads set i | 0 <= i < |payments| :: payments[i]
    ensures |r| == |payments|
    ensures forall i :: 0 <= i < |payments| ==> r[i] == payments[i].Record()
  {
    seq(|payments|, i reads set i | 0 <= i < |payments| :: payments[i] requires 0 <= i < |payments| => payments[i].Record())
  }

  class PaymentService {
    /** The `payments` table. */
    var payments: seq<Payment>
    /** The next generated primary key. */
    var nextId: nat
    /** The audit service every transition writes to. */
    const audit: AuditService

    /** Ids are distinct and below `nextId`, and every stored payment passed validation,
        so saving it again never fails. */
    predicate Valid()
      reads this
    {
      && (forall i, j :: 0 <= i < j < |payments| ==> payments[i].base.id != payments[j].base.id && payments[i] != payments[j])
      && (forall i :: 0 <= i < |payments| ==> payments[i].base.id < nextId)
      && (forall i :: 0 <= i < |payments| ==> Validation(Some(payments[i].amount), Some(payments[i].paymentReference)).None?)
    }

    constructor (audit: AuditService)
      ensures payments == [] && nextId == 1 && this.audit == audit && Valid()
    {
      payments := [];
      nextId := 1;
      this.audit := audit;
    }

    /** `createPayment(request, userEmail)`: refused for an unknown owner; otherwise a
        PENDING, unverified payment of the owner is validated and stored, and one
        PAYMENT_CREATED entry is attributed to the owner. A failed validation stores and
        logs nothing. */
    method CreatePayment(users: seq<User>, userEmail: string, amount: Cents, paymentDate: LocalDateTime,
                         paymentReference: string, bankName: Option<string>, accountNumber: Option<string>,
                         description: Option<string>, proofOfPaymentUrl: Option<string>, now: LocalDateTime)
      returns (r: Result<Payment>)
      requires Valid()
      modifies this, audit
      ensures Valid()
      ensures r.Err? <==> FindByEmail(users, userEmail).None? || Validation(Some(amount), Some(paymentReference)).Some?
      ensures FindByEmail(users, userEmail).None? ==> r == Err(ResourceNotFound("User not found"))
      ensures FindByEmail(users, userEmail).Some? && Validation(Some(amount), Some(paymentReference)).Some? ==>
                r == Err(Validation(Some(amount), Some(paymentReference)).value)
      ensures r.Err? ==> payments == old(payments) && nextId == old(nextId) && audit.trail == old(audit.trail)
      ensures r.Ok? ==>
                var owner := FindByEmail(users, userEmail).value;
                && payments == old(payments) + [r.value] && fresh(r.value)
                && r.value.Record() == PaymentRecord(old(nextId), owner.base.id, amount, paymentDate, paymentReference, PENDING, false)
                && r.value.ReviewState() == Submitted
                && audit.trail == Logged(old(audit.trail), users, owner.base.id, "PAYMENT_CREATED", "PAYMENTS",
                                         "Payment created with reference: " + paymentReference, None, None, now)
                && |audit.trail| == |old(audit.trail)| + 1
    {
      var owner := FindByEmail(users, userEmail);
      if owner.None? {
        return Err(ResourceNotFound("User not found"));
      }
      var user := owner.value;
      var invalid := Validation(Some(amount), Some(paymentReference));
      if invalid.Some? {
        return Err(invalid.value);
      }
      var payment := new Payment(nextId, user.base.id, amount, paymentDate, paymentReference, bankName, accountNumber,
                                 description, proofOfPaymentUrl);
      Store(payment);
      assert FindById(users, user.base.id).Some?;
      audit.LogAction(users, user.base.id, "PAYMENT_CREATED", "PAYMENTS", "Payment created with reference: " + paymentReference, now);
      return Ok(payment);
    }

    /** Inserts a new, valid payment under the next id. */
    method Store(payment: Payment)
      requires Valid() && payment !in payments && payment.base.id == nextId
      requires Validation(Some(payment.amount), Some(payment.paymentReference)).None?
      modifies this
      ensures Valid() && payments == old(payments) + [payment] && nextId == old(nextId) + 1
    {
      var before := payments;
      payments := payments + [payment];
      nextId := nextId + 1;
      forall i, j | 0 <= i < j < |payments|
        ensures payments[i].base.id != payments[j].base.id && payments[i] != payments[j]
      {
        assert payments[i] == before[i];
        if j < |before| {
          assert payments[j] == before[j];
        }
      }
      forall i | 0 <= i < |payments|
        ensures payments[i].base.id < nextId
        ensures Validation(Some(payments[i].amount), Some(payments[i].paymentReference)).None?
      {
        if i < |before| {
          assert payments[i] == before[i];
        }
      }
    }

    /** `verifyPayment(id, request, verifiedBy)`: refused for an unknown payment, and for a
        verified one before anything changes; otherwise the payment is verified and one
        PAYMENT_VERIFIED entry is attributed to its owner, not to the verifier. */
    method VerifyPayment(users: seq<User>, id: nat, remarks: Option<string>, verifiedBy: string, now: LocalDateTime)
      returns (r: Result<Unit>)
      requires Valid()
      modifies payments, audit
      ensures Valid() && payments == old(payments)
      ensures FindPaymentById(payments, id).None? ==> r == Err(ResourceNotFound(NotFoundMessage(id)))
      ensures var found := FindPaymentById(payments, id);
              found.Some? ==>
                var p := found.value;
                && (r.Ok? <==> !old(p.isVerified))
                && (old(p.isVerified) ==> r == Err(PaymentAlreadyVerified("Payment is already verified")))
                && (r.Err? ==> p.ReviewState() == old(p.ReviewState()))
                && (r.Ok? ==> p.ReviewState() == VerifyStep(old(p.ReviewState()), Some(verifiedBy), remarks, now).value)
                && (r.Ok? ==> audit.trail == Logged(old(audit.trail), users, p.userId, "PAYMENT_VERIFIED", "PAYMENTS",
                                                    "Payment verified: " + p.paymentReference + " by " + verifiedBy, None, None, now))
      ensures r.Err? ==> audit.trail == old(audit.trail)
      ensures forall i :: 0 <= i < |payments| && payments[i].base.id != id ==> payments[i].ReviewState() == old(payments[i].ReviewState())
    {
      var found := FindPaymentById(payments, id);
      if found.None? {
        return Err(ResourceNotFound(NotFoundMessage(id)));
      }
      var payment := found.value;
      r := VerifyStored(users, payment, remarks, verifiedBy, now);
      forall i | 0 <= i < |payments| && payments[i].base.id != id
        ensures payments[i].ReviewState() == old(payments[i].ReviewState())
      {
        assert payments[i] != payment;
      }
    }

    /** The verification of a stored payment: the service's own guard, the entity's
        transition, the save (whose validation a stored payment passes) and the log entry. */
    method VerifyStored(users: seq<User>, payment: Payment, remarks: Option<string>, verifiedBy: string, now: LocalDateTime)
      returns (r: Result<Unit>)
      requires Valid() && payment in payments
      modifies payment, audit
      ensures r.Ok? <==> !old(payment.isVerified)
      ensures r.Err? ==> r == Err(PaymentAlreadyVerified("Payment is already verified"))
      ensures payment.ReviewState() == if r.Ok? then VerifyStep(old(payment.ReviewState()), Some(verifiedBy), remarks, now).value
                                       else old(payment.ReviewState())
      ensures audit.trail == if r.Err? then old(audit.trail)
                             else Logged(old(audit.trail), users, payment.userId, "PAYMENT_VERIFIED", "PAYMENTS",
                                         "Payment verified: " + payment.paymentReference + " by " + verifiedBy, None, None, now)
    {
      if payment.isVerified {
        return Err(PaymentAlreadyVerified("Payment is already verified"));
      }
      var verified := payment.Verify(Some(verifiedBy), remarks, now);
      var saved := payment.OnUpdate();
      assert saved.Ok?;
      audit.LogAction(users, payment.userId, "PAYMENT_VERIFIED", "PAYMENTS",
                      "Payment verified: " + payment.paymentReference + " by " + verifiedBy, now);
      return Ok(Unit);
    }

    /** `rejectPayment(id, request, rejectedBy)`: no state guard, so any stored payment is
        rejected, a verified one included; one PAYMENT_REJECTED entry is attributed to the
        owner. */
    method RejectPayment(users: seq<User>, id: nat, remarks: Option<string>, rejectedBy: string, now: LocalDateTime)
      returns (r: Result<Unit>)
      requires Valid()
      modifies payments, audit
      ensures Valid() && payments == old(payments)
      ensures r.Err? <==> FindPaymentById(payments, id).None?
      ensures r.Err? ==> r == Err(ResourceNotFound(NotFoundMessage(id))) && audit.trail == old(audit.trail)
      ensures r.Ok? ==>
                var p := FindPaymentById(payments, id).value;
                && p.ReviewState() == RejectStep(old(p.ReviewState()), Some(rejectedBy), remarks, now)
                && audit.trail == Logged(old(audit.trail), users, p.userId, "PAYMENT_REJECTED", "PAYMENTS",
                                         "Payment rejected: " + p.paymentReference + " by " + rejectedBy, None, None, now)
      ensures forall i :: 0 <= i < |payments| && payments[i].base.id != id ==> payments[i].ReviewState() == old(payments[i].ReviewState())
    {
      var found := FindPaymentById(payments, id);
      if found.None? {
        return Err(ResourceNotFound(NotFoundMessage(id)));
      }
      var payment := found.value;
      RejectStored(users, payment, remarks, rejectedBy, now);
      forall i | 0 <= i < |payments| && payments[i].base.id != id
        ensures payments[i].ReviewState() == old(payments[i].ReviewState())
      {
        assert payments[i] != payment;
      }
      return Ok(Unit);
    }

    /** The rejection of a stored payment: the entity's transition, the save and the log
        entry. */
    method RejectStored(users: seq<User>, payment: Payment, remarks: Option<string>, rejectedBy: string, now: LocalDateTime)
      requires Valid() && payment in payments
      modifies payment, audit
      ensures payment.ReviewState() == RejectStep(old(payment.ReviewState()), Some(rejectedBy), remarks, now)
      ensures audit.trail == Logged(old(audit.trail), users, payment.userId, "PAYMENT_REJECTED", "PAYMENTS",
                                    "Payment rejected: " + payment.paymentReference + " by " + rejectedBy, None, None, now)
    {
      payment.Reject(Some(rejectedBy), remarks, now);
      var saved := payment.OnUpdate();
      assert saved.Ok?;
      audit.LogAction(users, payment.userId, "PAYMENT_REJECTED", "PAYMENTS",
                      "Payment rejected: " + payment.paymentReference + " by " + rejectedBy, now);
    }

    /** `cancelPayment(id, remarks, userEmail)`: no check that the caller owns the payment;
        refused only by the entity's guard on a verified payment. One PAYMENT_CANCELLED
        entry is attributed to the owner. */
    method CancelPayment(users: seq<User>, id: nat, remarks: Option<string>, userEmail: string, now: LocalDateTime)
      returns (r: Result<Unit>)
      requires Valid()
      modifies payments, audit
      ensures Valid() && payments == old(payments)
      ensures FindPaymentById(payments, id).None? ==> r == Err(ResourceNotFound(NotFoundMessage(id)))
      ensures var found := FindPaymentById(payments, id);
              found.Some? ==>
                var p := found.value;
                && (r.Ok? <==> !old(p.isVerified))
                && (old(p.isVerified) ==> r == Err(IllegalState("Cannot cancel a verified payment")))
                && (r.Err? ==> p.ReviewState() == old(p.ReviewState()))
                && (r.Ok? ==> p.ReviewState() == CancelStep(old(p.ReviewState()), remarks).value)
                && (r.Ok? ==> audit.trail == Logged(old(audit.trail), users, p.userId, "PAYMENT_CANCELLED", "PAYMENTS",
                                                    "Payment cancelled: " + p.paymentReference, None, None, now))
      ensures r.Err? ==> audit.trail == old(audit.trail)
      ensures forall i :: 0 <= i < |payments| && payments[i].base.id != id ==> payments[i].ReviewState() == old(payments[i].ReviewState())
    {
      var found := FindPaymentById(payments, id);
      if found.None? {
        return Err(ResourceNotFound(NotFoundMessage(id)));
      }
      var payment := found.value;
      r := CancelStored(users, payment, remarks, userEmail, now);
      forall i | 0 <= i < |payments| && payments[i].base.id != id
        ensures payments[i].ReviewState() == old(payments[i].ReviewState())
      {
        assert payments[i] != payment;
      }
    }

    /** The cancellation of a stored payment: the entity's guard and transition, the save and
        the log entry. */
    method CancelStored(users: seq<User>, payment: Payment, remarks: Option<string>, userEmail: string, now: LocalDateTime)
      returns (r: Result<Unit>)
      requires Valid() && payment in payments
      modifies payment, audit
      ensures r.Ok? <==> !old(payment.isVerified)
      ensures r.Err? ==> r == Err(IllegalState("Cannot cancel a verified payment"))
      ensures payment.ReviewState() == if r.Ok? then CancelStep(old(payment.ReviewState()), remarks).value
                                       else old(payment.ReviewState())
      ensures audit.trail == if r.Err? then old(audit.trail)
                             else Logged(old(audit.trail), users, payment.userId, "PAYMENT_CANCELLED", "PAYMENTS",
                                         "Payment cancelled: " + payment.paymentReference, None, None, now)
    {
      var cancelled := payment.Cancel(Some(userEmail), remarks);
      if cancelled.Err? {
        return Err(cancelled.error);
      }
      var saved := payment.OnUpdate();
      assert saved.Ok?;
      audit.LogAction(users, payment.userId, "PAYMENT_CANCELLED", "PAYMENTS", "Payment cancelled: " + payment.paymentReference, now);
      return Ok(Unit);
    }

    /** `searchPayments(userId, status, isVerified)`: the status arrives as text and must name
        a status in some case, or `valueOf` throws; NULL filters admit every payment. */
    method SearchPayments(userId: Option<nat>, status: Option<string>, isVerified: Option<bool>)
      returns (r: Result<seq<PaymentRecord>>)
      ensures r.Err? <==> status.Some? && ParseStatus(status.value).None?
      ensures r.Err? ==> r.error.IllegalArgument?
      ensures r.Ok? ==> r.value == PaymentRepository.SearchPayments(Records(payments), userId,
                                     if status.Some? then ParseStatus(status.value) else None, isVerified)
    {
      var parsed: Option<PaymentStatus> := None;
      if status.Some? {
        parsed := ParseStatus(status.value);
        if parsed.None? {
          return Err(IllegalArgument("No enum constant PaymentStatus." + status.value));
        }
      }
      return Ok(PaymentRepository.SearchPayments(Records(payments), userId, parsed, isVerified));
    }
  }
}
