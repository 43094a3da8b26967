/** The records the prototype keeps in memory: users of three roles, a
    doctor's consultation slots, a patient's bookings, and the hospital view
    derived from admin records. Times are integer minutes: a slot's `date`
    is a day number and its start and end are minutes within that day, so a
    point in time is `date * 1440 + minute`. Money is a `real`. */
module Records {

  datatype Option<T> = None | Some(value: T)

  datatype Result<T, E> = Ok(value: T) | Err(error: E)

  datatype Role = Admin | Doctor | Patient

  const MinutesPerDay: int := 1440

  /** A time of day as the form's time input yields it, 00:00 to 23:59. */
  type Minute = m: int | 0 <= m < MinutesPerDay

  /** A consultation slot. `fee` is `None` when the fee field was left
      empty. */
  datatype Slot = Slot(id: string, date: int, start: Minute, end: Minute, fee: Option<real>, hospital: string)

  /** A patient's booking of a slot; read by the dashboards, never created
      by the core. */
  datatype Booking = Booking(slotId: string, doctorId: int, hospital: string, date: int, time: Minute, amount: real)

  /** One registered user. As in the registration form, every record carries
      every field; only those of its role are meaningful. */
  datatype User = User(
    id: int, name: string, gender: string, dob: string, uniqueId: string, role: Role,
    qualifications: string, specializations: seq<string>, experience: string,
    hospital: string, location: string, departments: seq<string>,
    slots: seq<Slot>, bookings: seq<Booking>)

  /** A hospital as derived from one admin record, with the doctors
      registered under its name. */
  datatype Hospital = Hospital(name: string, location: string, departments: seq<string>, doctors: seq<User>)

  /** The point in time of minute `m` on day `date`. */
  function Stamp(date: int, m: Minute): int
  {
    date * MinutesPerDay + m
  }

  function SlotStart(s: Slot): int
  {
    Stamp(s.date, s.start)
  }

  function SlotEnd(s: Slot): int
  {
    Stamp(s.date, s.end)
  }

  /** The interval `[start, end)` intersects the slot's interval. */
  predicate OverlapsInterval(s: Slot, start: int, end: int)
  {
    start < SlotEnd(s) && end > SlotStart(s)
  }

  predicate SlotsOverlap(a: Slot, b: Slot)
  {
    OverlapsInterval(b, SlotStart(a), SlotEnd(a))
  }

  /** Overlap does not depend on which slot is the new one. */
  lemma OverlapSymmetric(a: Slot, b: Slot)
    ensures SlotsOverlap(a, b) <==> SlotsOverlap(b, a)
  {
  }

  /** On one day, two slots overlap exactly when each starts before the
      other ends, compared in minutes of that day. */
  lemma SameDayOverlap(a: Slot, b: Slot)
    requires a.date == b.date
    ensures SlotsOverlap(a, b) <==> a.start < b.end && b.start < a.end
  {
  }

  /** Slots on different days never overlap, whatever their times. */
  lemma DifferentDaysNeverOverlap(a: Slot, b: Slot)
    requires a.date != b.date
    ensures !SlotsOverlap(a, b)
  {
    if a.date < b.date {
      assert (b.date - a.date) * MinutesPerDay >= MinutesPerDay;
      assert SlotEnd(a) < SlotStart(b);
    } else {
      assert (a.date - b.date) * MinutesPerDay >= MinutesPerDay;
      assert SlotEnd(b) < SlotStart(a);
    }
  }
}
