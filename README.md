# Clinic appointment ledger

A Dafny model of the patient-side appointment handlers of a clinic booking
backend (`backend/controllers/userController.js`): booking a doctor's time
slot, cancelling it, creating a Razorpay payment order for it and verifying
the payment, plus the input guards of patient registration.

The clinic is one object, `UserController.Clinic`, holding the doctor
directory (`doctors`: availability, fee and `slotsBooked`, a map from date to
the list of booked time labels) and the appointment records (`appointments`:
patient, doctor, date, time, fee snapshot, `cancelled`, `payment`). The
document store becomes these two maps, and the handlers update them in place.
Appointment ids come from a counter (`nextId`). Two things are inputs rather
than calls: the payment provider's view of an order (`Payments.OrderInfo`)
and the email validator.

Files, one module each:

- `types.dfy`: `Types`, the ids, records and the error replies with their message texts.
- `ledger.dfy`: `Ledger`, the slot map. It holds the booking push (`Push`, `ReserveIn`),
  the cancellation filter (`Without`, `Release`, `ReleaseIn`) and their lemmas.
- `invariants.dfy`: `Invariants`, which relates the records to the ledger.
- `payments.dfy`: `Payments`, order creation, the status test and the `payment` update.
- `registration.dfy`: `Registration`, the guards of `registerUser`.
- `user_controller.dfy`: `UserController`, the `Clinic` class and verified scenarios
  that call the handlers on a concrete clinic.

Every handler error that the controller's `catch` turns into a reply is
`Error.Exception`. In the source these are thrown errors:

- `docData.available` on a doctor the store did not find (line 162);
- `appointmentData.userId` on a missing appointment (line 239);
- `doctorData.slots_booked` on a missing doctor during cancellation (line 251);
- `.filter` on a date with no entry (line 253);
- `appointmentData.cancelled` on an appointment id the store does not know (line 281);
- a failed provider fetch (line 316).

Behaviour of the code that the model keeps:

- Booking has no rollback. The slot map is written at line 199, after the
  record is saved at line 196; store failures are not modelled.
- Cancellation finishes in three ways. A missing doctor or date entry throws
  at lines 249-253, after `cancelled` was written at line 243. So the reply
  is an error and the flag stays set.
- Cancellation never checks `cancelled`. Cancelling a second time filters the
  time out again, and that can free a slot another patient has booked since.
  `Invariants.StaleCancelBreaksHeld` proves this in general, and
  the verified scenario `UserController.DoubleCancelScenario` follows it to
  two active appointments on one slot. So the invariant "every active
  appointment holds its slot" is proved preserved by a cancellation only when
  the appointment was still active.
- Order creation with no appointment id is refused with "Appointment
  cancelled or not found". An id that names no appointment throws instead:
  a field is read from null.
- Verification does not check `cancelled`. A cancelled appointment can still be
  marked paid. A 'paid' order whose receipt names no appointment still gets
  "Payment Successful".
- Booking is a check-then-write over the doctor record, not an atomic
  conditional update. The model is sequential (see Left out).

## Model

| member | source | states |
|---|---|---|
| `UserController.Clinic.BookAppointment` | backend/controllers/userController.js:154-208 | A missing doctor gives a thrown-error reply, an unavailable doctor "Doctor not available", a time already in the date's list "Slot not available"; each of these changes nothing. Success exactly when the doctor exists, is available and the slot is free: the date's list gets the time pushed (created if absent), every other doctor and date is untouched, and one new appointment with a fresh id holds the requester, doctor, date, time and the doctor's fee at booking. Records only move forward; no duplicate times per date and the record/ledger consistency are preserved |
| `UserController.Clinic.CancelAppointment` | backend/controllers/userController.js:230-265 | A missing appointment gives a thrown-error reply and a non-owner "Unauthorized Action", both without change. For the owner `cancelled` is set; then, if the doctor and the date entry exist, the time is filtered out of that list only, otherwise the reply is an error with the flag left set. Preserves no-duplicates, and preserves consistency (and always succeeds) when the appointment was not already cancelled |
| `UserController.Clinic.VerifyRazorPay` | backend/controllers/userController.js:311-331 | Succeeds exactly when the reported status is 'paid', and then sets `payment` on the appointment the receipt names and records the receipt as observed paid; a failed fetch or any other status changes nothing. Every paid appointment had its order observed paid; consistency preserved |
| `Ledger.Booked` | backend/controllers/userController.js:169-170 | The booking guard; no contract of its own. Its meaning for the handler is stated by the `r.Ok?` and "Slot not available" clauses of `UserController.Clinic.BookAppointment`, and `Ledger.PushAppendsOne`, `Ledger.ReleaseFrees` and `Ledger.ReleaseUndoesPush` say how the edits change it |
| `Ledger.Push` | backend/controllers/userController.js:169-179 | The push of a booking; no contract of its own. Specified by `Ledger.PushAppendsOne`, `Ledger.AppendKeepsDistinct` and `Ledger.ReleaseUndoesPush` |
| `Ledger.ReserveIn` | backend/controllers/userController.js:199 | The doctor directory after the slot write of a booking; no contract of its own. Specified by `Ledger.ReservePreservesNoDoubleBooking`, `Ledger.ReserveKeepsBooked` and `Invariants.BookPreservesConsistency`, and tied to the handler by the `r.Ok?` clause of `UserController.Clinic.BookAppointment` |
| `Ledger.Release` | backend/controllers/userController.js:253 | The filter of a cancellation on one date; no contract of its own. Specified by `Ledger.ReleaseFrees`, `Ledger.ReleaseUndoesPush` and, through `Ledger.Without`, by `Ledger.WithoutMultiset` and `Ledger.WithoutConcat` |
| `Ledger.ReleaseIn` | backend/controllers/userController.js:253-255 | The doctor directory after the slot write of a cancellation; no contract of its own. Specified by `Ledger.ReleasePreservesNoDoubleBooking`, `Invariants.CancelPreservesConsistency` and `Invariants.StaleCancelBreaksHeld`, and tied to the handler by the owner clause of `UserController.Clinic.CancelAppointment` |
| `Types.Message` | backend/controllers/userController.js:17-322 | The reply texts of lines 17, 21, 24, 163, 171, 240, 282 and 322, one per refusal; no contract of its own. Which refusal each handler gives is stated by the contracts of `Registration.ValidateRegistration`, `UserController.Clinic.BookAppointment`, `UserController.Clinic.CancelAppointment`, `Payments.CreateOrder` and `Payments.Verification` |
| `Ledger.Without` | backend/controllers/userController.js:253 | The filtered list holds exactly the labels of the original other than the released time, and is no longer |
| `Ledger.PushAppendsOne` | backend/controllers/userController.js:169-179 | A booking push adds the date's key if absent, books the slot, creates the entry as `[time]` when absent, otherwise keeps the old list as a prefix with one more element and one more occurrence of the time, and leaves other dates alone |
| `Ledger.AppendKeepsDistinct` | backend/controllers/userController.js:170-173 | Pushing a time the list does not include keeps it free of repeats |
| `Ledger.ReservePreservesNoDoubleBooking` | backend/controllers/userController.js:169-179 | A booking that passed the "Slot not available" guard keeps every doctor's every date list free of repeats |
| `Ledger.ReserveKeepsBooked` | backend/controllers/userController.js:172-179 | A booking never frees a slot that was booked, for any doctor or date |
| `Ledger.WithoutConcat` | backend/controllers/userController.js:253 | Filtering distributes over concatenation, so the remaining labels keep their order |
| `Ledger.WithoutAbsent` | backend/controllers/userController.js:253 | Filtering a time that is not in the list returns the list unchanged |
| `Ledger.WithoutMultiset` | backend/controllers/userController.js:253 | Filtering removes every occurrence of the time and keeps every other label with its multiplicity |
| `Ledger.WithoutKeepsDistinct` | backend/controllers/userController.js:253 | Filtering keeps a list free of repeats |
| `Ledger.WithoutIdempotent` | backend/controllers/userController.js:253 | Releasing a time twice leaves the list as releasing it once |
| `Ledger.ReleaseFrees` | backend/controllers/userController.js:251-255 | A release keeps the keys, frees the slot, keeps every other label of that date and every other date |
| `Ledger.ReleasePreservesNoDoubleBooking` | backend/controllers/userController.js:249-255 | A release keeps every doctor's every date list free of repeats |
| `Ledger.ReleaseUndoesPush` | backend/controllers/userController.js:169-179 | For a free slot: book then release gives back the date's list as before the booking (an empty list when there was no entry), and the slot passes the booking guard again |
| `Invariants.BookPreservesConsistency` | backend/controllers/userController.js:166-199 | After a booking that passed the guards, every active appointment still holds its slot and no two active appointments share one |
| `Invariants.CancelPreservesConsistency` | backend/controllers/userController.js:243-255 | Cancelling an appointment that is still active finds its doctor and date entry, and afterwards every active appointment still holds its slot and no slot is shared |
| `Invariants.StaleCancelBreaksHeld` | backend/controllers/userController.js:236-255 | Cancelling an already cancelled appointment whose slot a later active appointment holds leaves that active appointment without its slot |
| `Payments.CreateOrder` | backend/controllers/userController.js:277-291 | No id gives "Appointment cancelled or not found", an unknown id a thrown-error reply, a cancelled appointment "Appointment cancelled or not found"; otherwise (and only then) an order of the appointment's amount times 100 in the configured currency, with the appointment id as receipt |
| `Payments.PaidOrderSettlesAppointment` | backend/controllers/userController.js:281-320 | For an appointment that is not cancelled: its order is created with the appointment id as receipt and 100 times its fee, a 'paid' report of that order passes verification, and marking the receipt paid sets `payment` on that appointment, changes no other field of it and no other appointment |
| `Payments.Verification` | backend/controllers/userController.js:316-323 | Success exactly when the fetched status is 'paid'; a failed fetch is a thrown-error reply, any other status "Payment failed" |
| `Payments.MarkPaid` | backend/controllers/userController.js:319 | Same ids; the receipt's appointment, if any, is paid; no field but `payment` changes and no other appointment changes |
| `Payments.MarkPaidIdempotent` | backend/controllers/userController.js:318-320 | Verifying the same paid order twice leaves the records as one verification does |
| `Payments.MarkPaidWhenPaid` | backend/controllers/userController.js:318-320 | Verifying an order whose appointment is already paid changes nothing |
| `Registration.ValidateRegistration` | backend/controllers/userController.js:14-25 | Accepted exactly when name, email and password are present and non-empty, the email passes the validator and the password has at least 8 characters, yielding those fields; otherwise "Missing Details", then "enter a valid email", then "enter a strong password", in that order of checks |
| `Registration.ShortPasswordRefused` | backend/controllers/userController.js:23-25 | Any password shorter than 8 characters is refused, whatever the other fields |
| `UserController.RebookScenario` | backend/controllers/userController.js:154-265 | On doctor D: A books 10:00 (list `["10:00"]`), B is refused that slot, A cancels (list `[]`), B then books it |
| `UserController.ForeignCancelScenario` | backend/controllers/userController.js:239-241 | A patient cannot cancel another's appointment; the booking and its slot stay |
| `UserController.DoubleCancelScenario` | backend/controllers/userController.js:236-255 | A's second cancellation succeeds after B re-booked the slot, frees B's slot, and C's booking of it then gives two active appointments on one slot |
| `UserController.PaymentScenario` | backend/controllers/userController.js:273-331 | A fee of 500 gives an order of 50000; status 'created' fails and leaves it unpaid, 'paid' succeeds and marks it paid, a repeat succeeds without change; after cancellation no order is created |

## Left out

- `loginUser`, `getProfile` and `updateProfile` are left out. They are bcrypt, jwt, Cloudinary and JSON parsing calls with no ledger logic.
- The rest of `registerUser` is left out: password hashing, saving the user and signing the token. They are library and store calls.
- The email validator is a parameter. JavaScript's `password.length` counts UTF-16 code units, and the model counts characters. Non-string request fields are not modelled.
- `listAppointment` is left out. It is a plain query.
- The `userData`/`docData` snapshots and the `Date.now()` timestamp stored on an appointment are left out. They take part in no check.
- Store calls (`findById`, `save`, `findByIdAndUpdate`) become reads and writes of the maps, and their own failures are not modelled. A failed save at line 196 happens before anything is written, so it leaks nothing. But a failed doctor write at line 199, after the appointment was saved, would leave an active appointment without its slot, breaking `Invariants.ActiveSlotsHeld`; the model does not capture that. Nor does it capture a failed slot write at line 255 after the flag was set at line 243.
- Razorpay `orders.create` and `orders.fetch` are network calls. Order creation yields the order request. Verification takes the fetched order, or `None` for a failed fetch, as input. The currency is a parameter.
- Concurrency is left out: every handler runs to completion before the next one starts. So the model does not show two interleaved bookings both passing the slot check.
- Fees and amounts are JavaScript numbers; the model uses unbounded integers, so fractional fees and floating-point rounding of `amount * 100` are not modelled.
- Mongo ObjectIds, and the cast error a malformed id raises, are not modelled. Ids are counter values, and an unknown id behaves like a missing record.
- UserController.Clinic.BookAppointment: slot dates are plain map keys, but in the source `slots_booked` is a plain JavaScript object. So a `slotDate` such as "constructor", "toString" or "__proto__" finds an inherited property, which is truthy at line 169. Line 170 then throws because the property has no `includes`, the reply is a failure and nothing changes; the model treats such a date as an absent key and books `[slotTime]`. The same names make line 253 throw during a cancellation, after the flag was set, where the model finds no entry (or a real one). Which names `Object.prototype` supplies depends on the JavaScript runtime, so the model does not list them.
- Changes to the doctor directory are not part of this model: adding doctors and switching availability happen in other controllers.
- The authentication middleware, `backend/server.js` and `frontend/src/components/Navbar.jsx` are wiring and UI with no ledger logic.
