/** Consistency between the appointment records and the doctors' slot
    ledgers, and the lemmas that say which controller steps keep it. */
module Invariants {
  import opened Types
  import Ledger

  /** The appointment's slot is taken in its doctor's ledger. */
  predicate Holds(doctors: map<DoctorId, Doctor>, a: Appointment)
  {
    a.docId in doctors && Ledger.Booked(doctors[a.docId].slotsBooked, a.slotDate, a.slotTime)
  }

  /** Every appointment that is not cancelled holds its slot. */
  predicate ActiveSlotsHeld(doctors: map<DoctorId, Doctor>, appts: map<AppointmentId, Appointment>)
  {
    forall k :: k in appts && !appts[k].cancelled ==> Holds(doctors, appts[k])
  }

  predicate SameSlot(a: Appointment, b: Appointment)
  {
    a.docId == b.docId && a.slotDate == b.slotDate && a.slotTime == b.slotTime
  }

  /** No two appointments that are not cancelled share a slot. */
  predicate OneActivePerSlot(appts: map<AppointmentId, Appointment>)
  {
    forall k1, k2 ::
      (k1 in appts && k2 in appts && !appts[k1].cancelled && !appts[k2].cancelled
       && SameSlot(appts[k1], appts[k2])) ==> k1 == k2
  }

  /** `b` is a later version of record `a`: the booking data and the fee
      snapshot never change, and `cancelled` and `payment` only go from false
      to true. */
  predicate Successor(a: Appointment, b: Appointment)
  {
    && a.userId == b.userId && SameSlot(a, b) && a.amount == b.amount
    && (a.cancelled ==> b.cancelled) && (a.payment ==> b.payment)
  }

  /** No record is lost and every record only moves forward. */
  predicate Evolves(before: map<AppointmentId, Appointment>, after: map<AppointmentId, Appointment>)
  {
    forall k :: k in before ==> k in after && Successor(before[k], after[k])
  }

  /** A booking that passed both guards keeps every active appointment on its
      slot and no slot shared by two of them. */
  lemma BookPreservesConsistency(doctors: map<DoctorId, Doctor>, appts: map<AppointmentId, Appointment>,
                                 k: AppointmentId, a: Appointment)
    requires ActiveSlotsHeld(doctors, appts) && OneActivePerSlot(appts)
    requires k !in appts && !a.cancelled
    requires a.docId in doctors && !Ledger.Booked(doctors[a.docId].slotsBooked, a.slotDate, a.slotTime)
    ensures var doctors' := Ledger.ReserveIn(doctors, a.docId, a.slotDate, a.slotTime);
      ActiveSlotsHeld(doctors', appts[k := a]) && OneActivePerSlot(appts[k := a])
  {
    var doctors' := Ledger.ReserveIn(doctors, a.docId, a.slotDate, a.slotTime);
    var appts' := appts[k := a];
    Ledger.PushAppendsOne(doctors[a.docId].slotsBooked, a.slotDate, a.slotTime);
    forall j | j in appts' && !appts'[j].cancelled ensures Holds(doctors', appts'[j]) {
      if j != k {
        var b := appts[j];
        Ledger.ReserveKeepsBooked(doctors, a.docId, a.slotDate, a.slotTime, b.docId, b.slotDate, b.slotTime);
      }
    }
    // No active appointment is on the new slot, since its slot was free.
    forall j | j in appts && !appts[j].cancelled ensures !SameSlot(appts[j], a) {
      assert Holds(doctors, appts[j]);
    }
  }

  /** The owner's cancellation of an appointment that is still active finds
      its slot, and flagging it and releasing the slot keeps every other
      active appointment on its slot and no slot shared. */
  lemma CancelPreservesConsistency(doctors: map<DoctorId, Doctor>, appts: map<AppointmentId, Appointment>,
                                   k: AppointmentId)
    requires ActiveSlotsHeld(doctors, appts) && OneActivePerSlot(appts)
    requires k in appts && !appts[k].cancelled
    ensures Ledger.CanRelease(doctors, appts[k].docId, appts[k].slotDate)
    ensures var a := appts[k];
      var doctors' := Ledger.ReleaseIn(doctors, a.docId, a.slotDate, a.slotTime);
      var appts' := appts[k := a.(cancelled := true)];
      ActiveSlotsHeld(doctors', appts') && OneActivePerSlot(appts')
  {
    var a := appts[k];
    assert Holds(doctors, a);
    var doctors' := Ledger.ReleaseIn(doctors, a.docId, a.slotDate, a.slotTime);
    var appts' := appts[k := a.(cancelled := true)];
    var slots := doctors[a.docId].slotsBooked;
    Ledger.ReleaseFrees(slots, a.slotDate, a.slotTime);
    forall j | j in appts' && !appts'[j].cancelled ensures Holds(doctors', appts'[j]) {
      var b := appts[j];
      assert j != k && Holds(doctors, b);
      assert !SameSlot(a, b);
    }
  }

  /** The faithful gap: cancelling an appointment that is ALREADY cancelled
      still filters its time out of the ledger. If a later patient has booked
      that slot meanwhile, that patient's active appointment loses it. */
  lemma StaleCancelBreaksHeld(doctors: map<DoctorId, Doctor>, appts: map<AppointmentId, Appointment>,
                              stale: AppointmentId, live: AppointmentId)
    requires ActiveSlotsHeld(doctors, appts)
    requires stale in appts && live in appts
    requires appts[stale].cancelled && !appts[live].cancelled && SameSlot(appts[stale], appts[live])
    ensures Ledger.CanRelease(doctors, appts[stale].docId, appts[stale].slotDate)
    ensures var a := appts[stale];
      var doctors' := Ledger.ReleaseIn(doctors, a.docId, a.slotDate, a.slotTime);
      var appts' := appts[stale := a.(cancelled := true)];
      live in appts' && !appts'[live].cancelled && !Holds(doctors', appts'[live])
      && !ActiveSlotsHeld(doctors', appts')
  {
    assert Holds(doctors, appts[live]);
  }
}
