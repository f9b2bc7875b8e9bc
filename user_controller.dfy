/** The patient-side handlers of the user controller over one in-memory clinic:
    the doctor directory and the appointment records are maps the handlers
    update in place, as the source's read-modify-write of store records does. */
module UserController {
  import opened Types
  import Ledger
  import Invariants
  import Payments

  class Clinic {
    var doctors: map<DoctorId, Doctor>
    var appointments: map<AppointmentId, Appointment>
    /** The next id the record store hands out. */
    var nextId: AppointmentId
    /** The receipts of every order that verification saw in the 'paid' state. */
    ghost var verifiedPaid: set<AppointmentId>

    /** Ids are fresh, and an appointment is marked paid only after the provider
        reported its order paid. */
    ghost predicate Valid()
      reads this
    {
      && (forall k :: k in appointments ==> k < nextId)
      && (forall k :: k in appointments && appointments[k].payment ==> k in verifiedPaid)
    }

    /** The ledger agrees with the records: no time twice on a date, every
        active appointment on its slot, no slot held by two active ones. */
    ghost predicate Consistent()
      reads this
    {
      && Ledger.NoDoubleBooking(doctors)
      && Invariants.ActiveSlotsHeld(doctors, appointments)
      && Invariants.OneActivePerSlot(appointments)
    }

    /** A clinic with the given doctors and no appointments yet. */
    constructor (directory: map<DoctorId, Doctor>)
      ensures Valid()
      ensures doctors == directory && appointments == map[] && nextId == 0 && verifiedPaid == {}
      ensures Ledger.NoDoubleBooking(directory) ==> Consistent()
    {
      doctors := directory;
      appointments := map[];
      nextId := 0;
      verifiedPaid := {};
    }

    /** bookAppointment: refuse an unavailable doctor, refuse a time already in
        the date's list, otherwise push the time (creating the list) and record
        an appointment carrying the doctor's current fee. The source replies
        only `{success: true, message: 'Appointment Booked'}`; the new id is
        returned here so that the scenarios can refer to the appointment, and
        is not part of the reply. */
    method BookAppointment(userId: UserId, docId: DoctorId, slotDate: Date, slotTime: Time)
      returns (r: Result<AppointmentId>)
      requires Valid()
      modifies this
      ensures Valid()
      ensures docId !in old(doctors) ==> r == Err(Exception) && unchanged(this)
      ensures docId in old(doctors) && !old(doctors[docId].available)
              ==> r == Err(DoctorNotAvailable) && unchanged(this)
      ensures (docId in old(doctors) && old(doctors[docId].available)
               && Ledger.Booked(old(doctors[docId].slotsBooked), slotDate, slotTime))
              ==> r == Err(SlotNotAvailable) && unchanged(this)
      ensures r.Ok? <==> (docId in old(doctors) && old(doctors[docId].available)
                          && !Ledger.Booked(old(doctors[docId].slotsBooked), slotDate, slotTime))
      ensures r.Ok? ==>
                && r.value == old(nextId) && r.value !in old(appointments)
                && appointments == old(appointments)[r.value :=
                     Appointment(userId, docId, slotDate, slotTime, old(doctors[docId].fees), false, false)]
                && doctors == Ledger.ReserveIn(old(doctors), docId, slotDate, slotTime)
                && nextId == old(nextId) + 1 && verifiedPaid == old(verifiedPaid)
      ensures Invariants.Evolves(old(appointments), appointments)
      ensures old(Ledger.NoDoubleBooking(doctors)) ==> Ledger.NoDoubleBooking(doctors)
      ensures old(Consistent()) ==> Consistent()
    {
      if docId !in doctors {
        return Err(Exception);
      }
      var docData := doctors[docId];
      if !docData.available {
        return Err(DoctorNotAvailable);
      }
      var slotsBooked := docData.slotsBooked;
      if slotDate in slotsBooked {
        if slotTime in slotsBooked[slotDate] {
          return Err(SlotNotAvailable);
        }
        slotsBooked := slotsBooked[slotDate := slotsBooked[slotDate] + [slotTime]];
      } else {
        slotsBooked := slotsBooked[slotDate := [] + [slotTime]];
      }
      var id := nextId;
      var booking := Appointment(userId, docId, slotDate, slotTime, docData.fees, false, false);
      if Consistent() {
        Invariants.BookPreservesConsistency(doctors, appointments, id, booking);
      }
      if Ledger.NoDoubleBooking(doctors) {
        Ledger.ReservePreservesNoDoubleBooking(doctors, docId, slotDate, slotTime);
      }
      appointments := appointments[id := booking];
      nextId := nextId + 1;
      doctors := doctors[docId := docData.(slotsBooked := slotsBooked)];
      r := Ok(id);
    }

    /** cancelAppointment: refuse anyone but the owner, set `cancelled`, then
        filter the time out of the doctor's list for that date. The flag is
        written before the doctor and the date entry are read, so when either
        is missing the handler fails with the flag already set. The flag is
        never checked, so a second cancellation filters the time out again. */
    method CancelAppointment(userId: UserId, appointmentId: AppointmentId) returns (r: Outcome)
      requires Valid()
      modifies this
      ensures Valid()
      ensures appointmentId !in old(appointments) ==> r == Fail(Exception) && unchanged(this)
      ensures appointmentId in old(appointments) && old(appointments[appointmentId].userId) != userId
              ==> r == Fail(UnauthorizedAction) && unchanged(this)
      ensures appointmentId in old(appointments) && old(appointments[appointmentId].userId) == userId ==>
                var a := old(appointments[appointmentId]);
                && appointments == old(appointments)[appointmentId := a.(cancelled := true)]
                && nextId == old(nextId) && verifiedPaid == old(verifiedPaid)
                && if Ledger.CanRelease(old(doctors), a.docId, a.slotDate)
                   then r == Pass && doctors == Ledger.ReleaseIn(old(doctors), a.docId, a.slotDate, a.slotTime)
                   else r == Fail(Exception) && doctors == old(doctors)
      ensures Invariants.Evolves(old(appointments), appointments)
      ensures old(Ledger.NoDoubleBooking(doctors)) ==> Ledger.NoDoubleBooking(doctors)
      ensures (old(Consistent()) && appointmentId in old(appointments)
               && !old(appointments[appointmentId].cancelled)) ==> r.Pass? || r == Fail(UnauthorizedAction)
      ensures (old(Consistent()) && appointmentId in old(appointments)
               && !old(appointments[appointmentId].cancelled)) ==> Consistent()
    {
      if appointmentId !in appointments {
        return Fail(Exception);
      }
      var appointmentData := appointments[appointmentId];
      if appointmentData.userId != userId {
        return Fail(UnauthorizedAction);
      }
      if Consistent() && !appointmentData.cancelled {
        Invariants.CancelPreservesConsistency(doctors, appointments, appointmentId);
      }
      appointments := appointments[appointmentId := appointmentData.(cancelled := true)];
      var docId, slotDate, slotTime := appointmentData.docId, appointmentData.slotDate, appointmentData.slotTime;
      if docId !in doctors {
        return Fail(Exception);
      }
      var doctorData := doctors[docId];
      var slotsBooked := doctorData.slotsBooked;
      if slotDate !in slotsBooked {
        return Fail(Exception);
      }
      if Ledger.NoDoubleBooking(doctors) {
        Ledger.ReleasePreservesNoDoubleBooking(doctors, docId, slotDate, slotTime);
      }
      slotsBooked := slotsBooked[slotDate := Ledger.Without(slotsBooked[slotDate], slotTime)];
      doctors := doctors[docId := doctorData.(slotsBooked := slotsBooked)];
      r := Pass;
    }

    /** verifyRazorPay: given the order as the provider reports it, set
        `payment` on the appointment named by its receipt when the status is
        'paid', and change nothing otherwise. A receipt that names no
        appointment still reports success. */
    method VerifyRazorPay(fetched: Option<Payments.OrderInfo>) returns (r: Outcome)
      requires Valid()
      modifies this
      ensures Valid()
      ensures r.Pass? <==> fetched.Some? && fetched.value.status == Payments.PaidStatus
      ensures fetched.None? ==> r == Fail(Exception)
      ensures r.Pass? ==>
                && appointments == Payments.MarkPaid(old(appointments), fetched.value.receipt)
                && verifiedPaid == old(verifiedPaid) + {fetched.value.receipt}
                && doctors == old(doctors) && nextId == old(nextId)
      ensures r.Fail? ==> unchanged(this)
      ensures fetched.Some? && r.Fail? ==> r == Fail(PaymentFailed)
      ensures Invariants.Evolves(old(appointments), appointments)
      ensures old(Consistent()) ==> Consistent()
    {
      r := Payments.Verification(fetched);
      if r.Pass? {
        var receipt := fetched.value.receipt;
        verifiedPaid := verifiedPaid + {receipt};
        appointments := Payments.MarkPaid(appointments, receipt);
      }
    }
  }

  // ---------------------------------------------------------------------------
  // Verified scenarios: the handlers called on a concrete clinic

  /** Doctor D (available, fee 500) with no bookings on 2024-06-01. */
  function Directory(): map<DoctorId, Doctor>
  {
    map["D" := Doctor(true, 500, map[])]
  }

  /** A books 10:00, B is refused the same slot, A cancels (the list becomes
      empty), and B then books it. */
  method RebookScenario() returns (first: Result<AppointmentId>, refused: Result<AppointmentId>,
                                   cancel: Outcome, second: Result<AppointmentId>)
    ensures first.Ok? && refused == Err(SlotNotAvailable) && cancel == Pass && second.Ok?
  {
    var c := new Clinic(Directory());
    first := c.BookAppointment("A", "D", "2024-06-01", "10:00");
    assert c.doctors["D"].slotsBooked["2024-06-01"] == ["10:00"];
    refused := c.BookAppointment("B", "D", "2024-06-01", "10:00");
    cancel := c.CancelAppointment("A", first.value);
    assert c.doctors["D"].slotsBooked["2024-06-01"] == [];
    second := c.BookAppointment("B", "D", "2024-06-01", "10:00");
    assert c.doctors["D"].slotsBooked["2024-06-01"] == ["10:00"];
    assert c.Consistent();
  }

  /** Someone other than the owner cannot cancel: the reply is refused and the
      slot stays taken. */
  method ForeignCancelScenario() returns (cancel: Outcome)
    ensures cancel == Fail(UnauthorizedAction)
  {
    var c := new Clinic(Directory());
    var booked := c.BookAppointment("A", "D", "2024-06-01", "10:00");
    cancel := c.CancelAppointment("B", booked.value);
    assert !c.appointments[booked.value].cancelled;
    assert Ledger.Booked(c.doctors["D"].slotsBooked, "2024-06-01", "10:00");
  }

  /** A cancels twice with B's booking of the same slot in between: the second
      cancellation frees B's slot, and C can then book it too, so two active
      appointments share one slot. */
  method DoubleCancelScenario() returns (b: AppointmentId, d: AppointmentId, again: Outcome)
    ensures again == Pass && b != d
  {
    var c := new Clinic(Directory());
    var first := c.BookAppointment("A", "D", "2024-06-01", "10:00");
    var cancel := c.CancelAppointment("A", first.value);
    var second := c.BookAppointment("B", "D", "2024-06-01", "10:00");
    b := second.value;
    assert c.Consistent();
    again := c.CancelAppointment("A", first.value);
    assert !c.appointments[b].cancelled;
    assert !Invariants.Holds(c.doctors, c.appointments[b]);
    var third := c.BookAppointment("C", "D", "2024-06-01", "10:00");
    d := third.value;
    assert !c.appointments[b].cancelled && !c.appointments[d].cancelled;
    assert Invariants.SameSlot(c.appointments[b], c.appointments[d]);
    assert !Invariants.OneActivePerSlot(c.appointments);
  }

  /** An appointment with fee 500 gets an order of 50000 paise; the provider
      first reports it 'created' (verification fails, still unpaid), then
      'paid' (verification succeeds, paid); verifying again changes nothing. */
  method PaymentScenario(currency: string) returns (order: Result<Payments.Order>, early: Outcome,
                                                    late: Outcome, repeat: Outcome)
    ensures order.Ok? && order.value.amount == 50000
    ensures early == Fail(PaymentFailed) && late == Pass && repeat == Pass
  {
    var c := new Clinic(Directory());
    var booked := c.BookAppointment("A", "D", "2024-06-01", "10:00");
    var id := booked.value;
    order := Payments.CreateOrder(c.appointments, Some(id), currency);
    early := c.VerifyRazorPay(Some(Payments.OrderInfo("created", id)));
    assert !c.appointments[id].payment;
    late := c.VerifyRazorPay(Some(Payments.OrderInfo("paid", id)));
    assert c.appointments[id].payment;
    ghost var settled := c.appointments;
    repeat := c.VerifyRazorPay(Some(Payments.OrderInfo("paid", id)));
    Payments.MarkPaidWhenPaid(settled, id);
    assert c.appointments == settled;
    var cancel := c.CancelAppointment("A", id);
    var refused := Payments.CreateOrder(c.appointments, Some(id), currency);
    assert refused == Err(CancelledOrNotFound);
  }
}
