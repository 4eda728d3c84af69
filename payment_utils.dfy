/**
 * The payment form's helpers: the empty payment a new form starts from, the copy of a
 * stored payment that the edit form starts from, and the validation the upsert route
 * applies before it touches any balance.
 */
module PaymentUtils {
  import opened Wrappers
  import opened Models

  /** The reasons `validatePaymentUpsert` throws, in the order it checks them. */
  datatype PaymentError = FromRequired | ToRequired | SamePerson | AmountNotPositive | DateRequired

  function Message(e: PaymentError): string {
    match e
    case FromRequired => "From person is required"
    case ToRequired => "To person is required"
    case SamePerson => "From person and to person must be different"
    case AmountNotPositive => "Amount must be greater than 0"
    case DateRequired => "Date is required"
  }

  /** The position of a check in the order the validator performs them. */
  function Rank(e: PaymentError): nat {
    match e
    case FromRequired => 0
    case ToRequired => 1
    case SamePerson => 2
    case AmountNotPositive => 3
    case DateRequired => 4
  }

  /** The rule whose violation raises `e`, stated on its own. */
  predicate Obeys(p: PaymentUpsert, e: PaymentError) {
    match e
    case FromRequired => Truthy(p.fromPersonId)
    case ToRequired => Truthy(p.toPersonId)
    case SamePerson => p.fromPersonId != p.toPersonId
    case AmountNotPositive => p.amount > 0.0
    case DateRequired => p.date.Some?
  }

  /**
   * `validatePaymentUpsert`: passes exactly when every rule holds, and otherwise
   * reports the first rule, in checking order, that is broken.
   */
  function ValidatePaymentUpsert(p: PaymentUpsert): (r: Outcome<PaymentError>)
    ensures r.Pass? <==> forall e :: Obeys(p, e)
    ensures r.Fail? ==> !Obeys(p, r.error) && forall e :: Rank(e) < Rank(r.error) ==> Obeys(p, e)
  {
    if !Truthy(p.fromPersonId) then assert !Obeys(p, FromRequired); Fail(FromRequired)
    else if !Truthy(p.toPersonId) then assert !Obeys(p, ToRequired); Fail(ToRequired)
    else if p.fromPersonId == p.toPersonId then assert !Obeys(p, SamePerson); Fail(SamePerson)
    else if p.amount <= 0.0 then assert !Obeys(p, AmountNotPositive); Fail(AmountNotPositive)
    else if p.date.None? then assert !Obeys(p, DateRequired); Fail(DateRequired)
    else Pass
  }

  /** `constructNewPaymentCreate`: a blank payment, which the route refuses until a payer is chosen. */
  function ConstructNewPaymentCreate(): (r: PaymentUpsert)
    ensures r.id.None? && r.date.None? && r.amount == 0.0
    ensures r.fromPersonId.None? && r.toPersonId.None? && r.notes == ""
    ensures ValidatePaymentUpsert(r) == Fail(FromRequired)
  {
    PaymentUpsert(None, None, None, 0.0, None, "")
  }

  /**
   * `constructPaymentCreateFromPayment`: the same payment with its date re-created;
   * `new Date(null)` is the epoch, so the copy always has a date.
   */
  function ConstructPaymentCreateFromPayment(p: PaymentUpsert): (r: PaymentUpsert)
    ensures r.date.Some?
    ensures p.date.Some? ==> r == p
    ensures r.(date := p.date) == p
  {
    p.(date := Some(p.date.GetOr(Epoch)))
  }

  /**
   * The copy is judged like the original, except that a missing date is no longer
   * an error; copying twice changes nothing more.
   */
  lemma CopyValidation(p: PaymentUpsert)
    ensures ValidatePaymentUpsert(ConstructPaymentCreateFromPayment(p))
         == if ValidatePaymentUpsert(p) == Fail(DateRequired) then Pass else ValidatePaymentUpsert(p)
    ensures ConstructPaymentCreateFromPayment(ConstructPaymentCreateFromPayment(p))
         == ConstructPaymentCreateFromPayment(p)
  {
  }

  /** A payment that passes validation names two distinct persons and a positive amount. */
  lemma ValidPaymentIsTransfer(p: PaymentUpsert)
    requires ValidatePaymentUpsert(p).Pass?
    ensures p.fromPersonId.Some? && p.toPersonId.Some?
    ensures p.fromPersonId.value != p.toPersonId.value && p.amount > 0.0
  {
    assert Obeys(p, FromRequired) && Obeys(p, ToRequired) && Obeys(p, SamePerson);
    assert Obeys(p, AmountNotPositive);
  }
}
