/** `/api/payments`: list payments, and record one. */
module PaymentsApi {
  import opened Wrappers
  import opened Domain
  import opened Seqs
  import opened JsValues

  /** The fields `POST` reads from the request body. */
  datatype PaymentBody = PaymentBody(studentId: JsValue, amount: JsValue, notes: JsValue, bookingId: JsValue)

  /** The `bookingId` field of a create: omitted (the fallback), `null`, or `Number(bookingId)`. */
  datatype BookingLink = Omitted | NoBooking | LinkedTo(bookingId: Option<real>)

  /** A payment as handed to the database. */
  datatype PaymentDraft = PaymentDraft(studentId: Option<real>, amount: real, notes: JsValue, booking: BookingLink)

  datatype PostResponse =
    | MissingFields400               // `{ error: "Missing required fields" }`
    | Created201(payment: PaymentDraft)
    | ServerError500                 // the amount is not a decimal, or both creates failed

  /** The first create's record: with `bookingId` when it is truthy, else `null`. */
  function LinkedDraft(body: PaymentBody, parse: string -> Option<real>, amount: real): (d: PaymentDraft)
    ensures !d.booking.Omitted?
  {
    PaymentDraft(ToNumber(body.studentId, parse), amount, OrNull(body.notes),
                 if Truthy(body.bookingId) then LinkedTo(ToNumber(body.bookingId, parse)) else NoBooking)
  }

  /** The fallback record: the same payment without the `bookingId` field. */
  function UnlinkedDraft(body: PaymentBody, parse: string -> Option<real>, amount: real): (d: PaymentDraft)
    ensures d == LinkedDraft(body, parse, amount).(booking := Omitted)
  {
    PaymentDraft(ToNumber(body.studentId, parse), amount, OrNull(body.notes), Omitted)
  }

  /**
   * `POST /api/payments`. `decimal` is `new Decimal(String(amount))`
   * (`None` when it throws); `create` says whether the database accepts a
   * record.
   */
  function Post(body: PaymentBody, parse: string -> Option<real>, decimal: JsValue -> Option<real>,
                create: PaymentDraft -> bool): (r: PostResponse)
    ensures r.MissingFields400? <==> !Truthy(body.studentId) || !Truthy(body.amount)
    ensures r.Created201? ==> create(r.payment) && Some(r.payment.amount) == decimal(body.amount)
    ensures r.Created201? ==> r.payment.studentId == ToNumber(body.studentId, parse) && r.payment.notes == OrNull(body.notes)
    ensures r.Created201? && !r.payment.booking.Omitted? ==>
              r.payment.booking == (if Truthy(body.bookingId) then LinkedTo(ToNumber(body.bookingId, parse)) else NoBooking)
    ensures r.Created201? && r.payment.booking.Omitted? ==> !create(r.payment.(booking := LinkedDraft(body, parse, r.payment.amount).booking))
    ensures r.ServerError500? <==>
              Truthy(body.studentId) && Truthy(body.amount) &&
              (decimal(body.amount).None? ||
               (!create(LinkedDraft(body, parse, decimal(body.amount).value)) &&
                !create(UnlinkedDraft(body, parse, decimal(body.amount).value))))
  {
    if !Truthy(body.studentId) || !Truthy(body.amount) then MissingFields400
    else match decimal(body.amount)
      case None => ServerError500
      case Some(amount) =>
        var linked := LinkedDraft(body, parse, amount);
        if create(linked) then Created201(linked)
        else
          var unlinked := UnlinkedDraft(body, parse, amount);
          if create(unlinked) then Created201(unlinked) else ServerError500
  }

  /** A zero amount is refused while the text "0" passes the presence check. */
  lemma ZeroAmountRejected(parse: string -> Option<real>, decimal: JsValue -> Option<real>, create: PaymentDraft -> bool)
    ensures Post(PaymentBody(Num(1.0), Num(0.0), Undefined, Undefined), parse, decimal, create).MissingFields400?
    ensures !Post(PaymentBody(Num(1.0), Str("0"), Undefined, Undefined), parse, decimal, create).MissingFields400?
  {
  }

  /** When the database accepts any record, the payment is stored with its booking link. */
  lemma LinkKeptWhenAccepted(body: PaymentBody, parse: string -> Option<real>, decimal: JsValue -> Option<real>,
                             create: PaymentDraft -> bool)
    requires Truthy(body.studentId) && Truthy(body.amount) && decimal(body.amount).Some?
    requires forall d :: create(d)
    ensures Post(body, parse, decimal, create) == Created201(LinkedDraft(body, parse, decimal(body.amount).value))
  {
  }

  /** `GET /api/payments`: every stored payment, newest first. */
  function List(stored: seq<Payment>): (r: seq<Payment>)
    ensures multiset(r) == multiset(stored)
    ensures forall i, j :: 0 <= i < j < |r| ==> r[i].date >= r[j].date
  {
    var r := SortBy(stored, NegatedDateOf);
    assert forall i, j :: 0 <= i < j < |r| ==> NegatedDateOf(r[i]) <= NegatedDateOf(r[j]);
    r
  }
}
