/** Razorpay order creation and verification. The provider is outside the
    model: order creation yields the order request the controller sends, and
    verification takes the order as the provider reports it. */
module Payments {
  import opened Types

  /** The options passed to `orders.create`: the amount in minor units (paise),
      the configured currency and the appointment id as the receipt. */
  datatype Order = Order(amount: int, currency: string, receipt: AppointmentId)

  /** An order as `orders.fetch` reports it. */
  datatype OrderInfo = OrderInfo(status: string, receipt: AppointmentId)

  const PaidStatus: string := "paid"

  /** Rupees to paise. */
  const MinorUnits: int := 100

  /** The guard and order of paymentRazorpay. A missing id is refused with the
      "cancelled or not found" reply; an id the store does not know makes the
      handler read a field of null, which its catch block reports. */
  function CreateOrder(appts: map<AppointmentId, Appointment>, appointmentId: Option<AppointmentId>,
                       currency: string): (r: Result<Order>)
    ensures r.Ok? <==> appointmentId.Some? && appointmentId.value in appts && !appts[appointmentId.value].cancelled
    ensures r.Ok? ==> Some(r.value.receipt) == appointmentId && r.value.currency == currency
                      && r.value.amount == appts[r.value.receipt].amount * MinorUnits
    ensures appointmentId.None? ==> r == Err(CancelledOrNotFound)
    ensures appointmentId.Some? && appointmentId.value !in appts ==> r == Err(Exception)
    ensures appointmentId.Some? && appointmentId.value in appts && appts[appointmentId.value].cancelled
            ==> r == Err(CancelledOrNotFound)
  {
    match appointmentId
    case None => Err(CancelledOrNotFound)
    case Some(id) =>
      if id !in appts then Err(Exception)
      else if appts[id].cancelled then Err(CancelledOrNotFound)
      else Ok(Order(appts[id].amount * MinorUnits, currency, id))
  }

  /** The two halves of a payment joined: an appointment that is not
      cancelled gets an order whose receipt is its own id, a 'paid' report of
      that order passes verification, and marking the receipt paid settles
      that appointment and no other. */
  lemma PaidOrderSettlesAppointment(appts: map<AppointmentId, Appointment>, id: AppointmentId, currency: string)
    requires id in appts && !appts[id].cancelled
    ensures var o := CreateOrder(appts, Some(id), currency);
      && o.Ok? && o.value.receipt == id && o.value.amount == appts[id].amount * MinorUnits
      && Verification(Some(OrderInfo(PaidStatus, o.value.receipt))).Pass?
      && var settled := MarkPaid(appts, o.value.receipt);
         && settled.Keys == appts.Keys
         && settled[id] == appts[id].(payment := true)
         && (forall k :: k in appts && k != id ==> settled[k] == appts[k])
  {
    var o := CreateOrder(appts, Some(id), currency);
    assert o.value.receipt == id;
  }

  /** The status test of verifyRazorPay; a failed fetch is reported by the
      handler's catch block. */
  function Verification(fetched: Option<OrderInfo>): (r: Outcome)
    ensures r.Pass? <==> fetched.Some? && fetched.value.status == PaidStatus
    ensures fetched.None? ==> r == Fail(Exception)
    ensures fetched.Some? && fetched.value.status != PaidStatus ==> r == Fail(PaymentFailed)
  {
    match fetched
    case None => Fail(Exception)
    case Some(info) => if info.status == PaidStatus then Pass else Fail(PaymentFailed)
  }

  /** The update `{payment: true}` on the appointment named by the receipt; a
      receipt that names no appointment updates nothing. */
  function MarkPaid(appts: map<AppointmentId, Appointment>, receipt: AppointmentId): (r: map<AppointmentId, Appointment>)
    ensures r.Keys == appts.Keys
    ensures receipt in appts ==> r[receipt].payment
    ensures forall k :: k in appts ==> r[k] == appts[k].(payment := r[k].payment)
    ensures forall k :: k in appts && k != receipt ==> r[k] == appts[k]
  {
    if receipt in appts then appts[receipt := appts[receipt].(payment := true)] else appts
  }

  /** Verifying the same paid order twice leaves the records as the first
      verification did. */
  lemma MarkPaidIdempotent(appts: map<AppointmentId, Appointment>, receipt: AppointmentId)
    ensures MarkPaid(MarkPaid(appts, receipt), receipt) == MarkPaid(appts, receipt)
  {
  }

  /** Verification on an already paid appointment changes nothing. */
  lemma MarkPaidWhenPaid(appts: map<AppointmentId, Appointment>, receipt: AppointmentId)
    requires receipt in appts && appts[receipt].payment
    ensures MarkPaid(appts, receipt) == appts
  {
    assert appts[receipt].(payment := true) == appts[receipt];
  }
}
