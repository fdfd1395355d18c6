/** The `Payment` entity: a member's contribution awaiting review. Its review state is a
    status and a separate `isVerified` flag, and the guards consult only the flag. */
module Payments {
  import opened Common
  import opened Time
  import opened Text
  import opened BaseEntities

  datatype PaymentStatus = PENDING | VERIFIED | REJECTED | CANCELLED

  /** What persisting a payment checks (`validatePayment`): `None` when it may be stored. */
  function Validation(amount: Option<Cents>, paymentReference: Option<string>): (r: Option<Exception>)
    ensures r.None? <==> amount.Some? && amount.value > 0 && paymentReference.Some? && !IsBlank(paymentReference.value)
    ensures r.Some? ==> r.value.IllegalArgument?
  {
    if amount.None? || amount.value <= 0 then Some(IllegalArgument("Payment amount must be greater than zero"))
    else if paymentReference.None? || IsBlank(paymentReference.value) then Some(IllegalArgument("Payment reference is required"))
    else None
  }

  /** The review fields of a payment, as one value. */
  datatype Review = Review(
    status: PaymentStatus,
    isVerified: bool,
    verificationDate: Option<LocalDateTime>,
    verifiedBy: Option<string>,
    verificationRemarks: Option<string>)

  /** The review state `createPayment` builds. */
  const Submitted: Review := Review(PENDING, false, None, None, None)

  /** `verify(verifiedBy, remarks)` at time `now`. */
  function VerifyStep(v: Review, verifiedBy: Option<string>, remarks: Option<string>, now: LocalDateTime): Result<Review> {
    if v.isVerified then Err(IllegalState("Payment is already verified"))
    else Ok(Review(VERIFIED, true, Some(now), verifiedBy, remarks))
  }

  /** `reject(rejectedBy, remarks)` at time `now`: no guard, and `isVerified` is kept. */
  function RejectStep(v: Review, rejectedBy: Option<string>, remarks: Option<string>, now: LocalDateTime): Review {
    v.(status := REJECTED, verificationDate := Some(now), verifiedBy := rejectedBy, verificationRemarks := remarks)
  }

  /** `cancel(cancelledBy, remarks)`: the canceller is not recorded anywhere. */
  function CancelStep(v: Review, remarks: Option<string>): Result<Review> {
    if v.isVerified then Err(IllegalState("Cannot cancel a verified payment"))
    else Ok(v.(status := CANCELLED, verificationRemarks := remarks))
  }

  /** A call of one of the three transitions. */
  datatype Action =
    | Verify(verifiedBy: Option<string>, remarks: Option<string>, at: LocalDateTime)
    | Reject(rejectedBy: Option<string>, remarks: Option<string>, at: LocalDateTime)
    | Cancel(cancelledBy: Option<string>, remarks: Option<string>)

  /** One transition; a call that throws leaves the payment as it was. */
  function Step(v: Review, a: Action): Review {
    match a
    case Verify(actor, remarks, at) => var r := VerifyStep(v, actor, remarks, at); if r.Ok? then r.value else v
    case Reject(actor, remarks, at) => RejectStep(v, actor, remarks, at)
    case Cancel(_, remarks) => var r := CancelStep(v, remarks); if r.Ok? then r.value else v
  }

  /** Any sequence of transitions, in order. */
  function Run(v: Review, actions: seq<Action>): Review
    decreases |actions|
  {
    if actions == [] then v else Run(Step(v, actions[0]), actions[1..])
  }

  /** After any sequence of calls the payment is verified exactly when it was verified
      before or one of the calls was a `verify`: no call ever clears the flag. */
  lemma {:induction false} VerifiedIffSomeVerify(v: Review, actions: seq<Action>)
    ensures Run(v, actions).isVerified <==> v.isVerified || exists i :: 0 <= i < |actions| && actions[i].Verify?
    decreases |actions|
  {
    if actions != [] {
      VerifiedIffSomeVerify(Step(v, actions[0]), actions[1..]);
      assert forall i :: 0 < i < |actions| ==> actions[i] == actions[1..][i - 1];
      if exists i :: 0 <= i < |actions[1..]| && actions[1..][i].Verify? {
        var i :| 0 <= i < |actions[1..]| && actions[1..][i].Verify?;
        assert actions[i + 1].Verify?;
      }
    }
  }

  /** Once verified, a payment stays verified whatever is called afterwards. */
  lemma VerifiedIsPermanent(v: Review, actions: seq<Action>)
    requires v.isVerified
    ensures Run(v, actions).isVerified
  {
    VerifiedIffSomeVerify(v, actions);
  }

  /** A submitted payment that is verified and then rejected is REJECTED with the
      verified flag still set, and the verified totals keep counting it. */
  lemma RejectedYetVerifiedIsReachable(verifier: Option<string>, rejecter: Option<string>, remarks: Option<string>,
                                       t1: LocalDateTime, t2: LocalDateTime)
    ensures var v := Run(Submitted, [Verify(verifier, remarks, t1), Reject(rejecter, remarks, t2)]);
            v.status == REJECTED && v.isVerified
  {
    var s := [Verify(verifier, remarks, t1), Reject(rejecter, remarks, t2)];
    var verified := Step(Submitted, s[0]);
    assert verified.isVerified;
    assert s[1..] == [Reject(rejecter, remarks, t2)];
    assert Run(Submitted, s) == Run(verified, s[1..]);
    assert Run(verified, s[1..]) == Run(Step(verified, s[1]), []);
  }

  /** The guard of `verify` and of `cancel` reads only the flag: an unverified payment
      can be verified, or cancelled, whatever its status, REJECTED and CANCELLED included. */
  lemma GuardsIgnoreStatus(v: Review, actor: Option<string>, remarks: Option<string>, now: LocalDateTime)
    ensures VerifyStep(v, actor, remarks, now).Ok? <==> !v.isVerified
    ensures CancelStep(v, remarks).Ok? <==> !v.isVerified
    ensures !v.isVerified ==> VerifyStep(v, actor, remarks, now).value.status == VERIFIED
  {
  }

  /** `cancel` records no canceller: the verifier and verification date stay as they were. */
  lemma CancelKeepsVerifier(v: Review, remarks: Option<string>)
    requires !v.isVerified
    ensures var c := CancelStep(v, remarks).value;
            c.verifiedBy == v.verifiedBy && c.verificationDate == v.verificationDate && c.status == CANCELLED
  {
  }

  /** The payment as the repository queries see it. */
  datatype PaymentRecord = PaymentRecord(
    id: nat,
    userId: nat,
    amount: Cents,
    paymentDate: LocalDateTime,
    paymentReference: string,
    status: PaymentStatus,
    isVerified: bool)

  class Payment {
    const base: BaseEntity
    /** The owning user's id; the owner of a payment never changes. */
    const userId: nat
    const amount: Cents
    const paymentDate: LocalDateTime
    const paymentReference: string
    const bankName: Option<string>
    const accountNumber: Option<string>
    const description: Option<string>
    const proofOfPaymentUrl: Option<string>
    var status: PaymentStatus
    var isVerified: bool
    var verificationDate: Option<LocalDateTime>
    var verifiedBy: Option<string>
    var verificationRemarks: Option<string>

    function ReviewState(): Review
      reads this
    {
      Review(status, isVerified, verificationDate, verifiedBy, verificationRemarks)
    }

    function Record(): PaymentRecord
      reads this
    {
      PaymentRecord(base.id, userId, amount, paymentDate, paymentReference, status, isVerified)
    }

    /** The builder call of `createPayment`: PENDING and not verified. */
    constructor (id: nat, userId: nat, amount: Cents, paymentDate: LocalDateTime, paymentReference: string,
                 bankName: Option<string>, accountNumber: Option<string>, description: Option<string>,
                 proofOfPaymentUrl: Option<string>)
      ensures fresh(base) && base.State() == NeverDeleted
      ensures Record() == PaymentRecord(id, userId, amount, paymentDate, paymentReference, PENDING, false)
      ensures ReviewState() == Submitted
    {
      base := new BaseEntity(id);
      this.userId := userId;
      this.amount := amount;
      this.paymentDate := paymentDate;
      this.paymentReference := paymentReference;
      this.bankName := bankName;
      this.accountNumber := accountNumber;
      this.description := description;
      this.proofOfPaymentUrl := proofOfPaymentUrl;
      status := PENDING;
      isVerified := false;
      verificationDate := None;
      verifiedBy := None;
      verificationRemarks := None;
    }

    /** `verify(verifiedBy, remarks)`: refused once verified, with nothing changed. */
    method Verify(verifiedBy: Option<string>, remarks: Option<string>, now: LocalDateTime) returns (r: Result<Unit>)
      modifies this
      ensures var s := VerifyStep(old(ReviewState()), verifiedBy, remarks, now);
              (r.Ok? <==> s.Ok?) && (r.Err? ==> r.error == s.error)
              && ReviewState() == (if s.Ok? then s.value else old(ReviewState()))
    {
      if isVerified {
        return Err(IllegalState("Payment is already verified"));
      }
      isVerified := true;
      status := VERIFIED;
      verificationDate := Some(now);
      this.verifiedBy := verifiedBy;
      verificationRemarks := remarks;
      return Ok(Unit);
    }

    /** `reject(rejectedBy, remarks)`. */
    method Reject(rejectedBy: Option<string>, remarks: Option<string>, now: LocalDateTime)
      modifies this
      ensures ReviewState() == RejectStep(old(ReviewState()), rejectedBy, remarks, now)
    {
      status := REJECTED;
      verificationDate := Some(now);
      verifiedBy := rejectedBy;
      verificationRemarks := remarks;
    }

    /** `cancel(cancelledBy, remarks)`: refused for a verified payment, with nothing changed. */
    method Cancel(cancelledBy: Option<string>, remarks: Option<string>) returns (r: Result<Unit>)
      modifies this
      ensures var s := CancelStep(old(ReviewState()), remarks);
              (r.Ok? <==> s.Ok?) && (r.Err? ==> r.error == s.error)
              && ReviewState() == (if s.Ok? then s.value else old(ReviewState()))
    {
      if isVerified {
        return Err(IllegalState("Cannot cancel a verified payment"));
      }
      status := CANCELLED;
      verificationRemarks := remarks;
      return Ok(Unit);
    }

    /** `@PreUpdate onUpdate`: validation of the stored amount and reference. */
    method OnUpdate() returns (r: Result<Unit>)
      ensures r.Err? <==> Validation(Some(amount), Some(paymentReference)).Some?
      ensures r.Err? ==> r.error == Validation(Some(amount), Some(paymentReference)).value
    {
      var v := Validation(Some(amount), Some(paymentReference));
      if v.Some? {
        return Err(v.value);
      }
      return Ok(Unit);
    }
  }
}
