/** Values shared by the whole model: identifiers, the doctor and appointment
    records, and the controller's error replies. */
module Types {

  /** The authenticated patient id (`req.user.id`) and the id stored on an
      appointment are one canonical type, so the ownership test is plain `!=`. */
  type UserId = string
  type DoctorId = string
  /** Slot dates and time labels are opaque strings used as map keys. */
  type Date = string
  type Time = string
  /** Appointment ids are handed out by the record store; the model draws them
      from a counter. */
  type AppointmentId = nat

  datatype Option<T> = None | Some(value: T)

  /** A controller reply: `{success: true, ...}` carrying a value, or
      `{success: false, message}`. The value may be one the model returns for
      its own use (the id of a new appointment) rather than part of the reply. */
  datatype Result<T> = Ok(value: T) | Err(error: Error)

  /** A controller reply that carries no value. */
  datatype Outcome = Pass | Fail(error: Error)

  /** The failure replies of the user controller. `Exception` stands for any
      error thrown inside a handler and turned into a reply by its `catch`
      block (a field read on a record the store did not find, `filter` on a
      missing date entry, a failed provider call). */
  datatype Error =
    | MissingDetails
    | InvalidEmail
    | WeakPassword
    | DoctorNotAvailable
    | SlotNotAvailable
    | UnauthorizedAction
    | CancelledOrNotFound
    | PaymentFailed
    | Exception

  /** The message text sent back with each failure; an `Exception` reply
      carries the thrown error's own message, which the model does not know. */
  function Message(e: Error): string
    requires !e.Exception?
  {
    match e
    case MissingDetails => "Missing Details"
    case InvalidEmail => "enter a valid email"
    case WeakPassword => "enter a strong password"
    case DoctorNotAvailable => "Doctor not available"
    case SlotNotAvailable => "Slot not available"
    case UnauthorizedAction => "Unauthorized Action"
    case CancelledOrNotFound => "Appointment cancelled or not found"
    case PaymentFailed => "Payment failed"
  }

  /** The part of a doctor record the booking flow reads and writes:
      `slotsBooked` maps a date to the list of time labels taken on it. */
  datatype Doctor = Doctor(available: bool, fees: int, slotsBooked: map<Date, seq<Time>>)

  /** An appointment record; `amount` is the doctor's fee when it was booked. */
  datatype Appointment = Appointment(
    userId: UserId,
    docId: DoctorId,
    slotDate: Date,
    slotTime: Time,
    amount: int,
    cancelled: bool,
    payment: bool)
}
