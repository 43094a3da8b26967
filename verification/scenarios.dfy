/** Worked cases of the registration and dashboard rules, each stated on
    concrete records. */
module Scenarios {
  import opened Records
  import opened Text
  import opened Ledgers
  import Seqs
  import Roster
  import Registration
  import Dashboard

  /** A hospital listing "Cardiology" and "Neurology" accepts the
      specialization "cardiology": case is ignored and one match is
      enough. */
  lemma CaseInsensitiveDepartment()
    ensures Registration.DepartmentsMatch(["Cardiology", "Neurology"], ["cardiology"])
  {
    assert SameIgnoringCase(["Cardiology", "Neurology"][0], ["cardiology"][0]) by {
      assert Lower("Cardiology") == "cardiology";
      assert Lower("cardiology") == "cardiology";
    }
  }

  /** Two trimmed, comma-free names separated by a comma and a space
      normalise to the two names. */
  lemma TwoFieldList(x: string, y: string)
    requires ',' !in x && IsTrimmed(x) && ',' !in y && IsTrimmed(y)
    ensures Registration.NormalizeList(x + ", " + y) == [x, y]
  {
    var lefts, rights := ["", " "], ["", ""];
    assert AllSpace(" ") by { assert IsSpace(" "[0]); }
    var padded := Registration.Padded([x, y], lefts, rights);
    assert padded[0] == "" + x + "" == x;
    assert padded[1] == " " + y + "" == " " + y;
    assert Join(padded, ',') == x + ", " + y by {
      assert |padded[1..]| == 1 && padded[1..][0] == " " + y;
      assert Join(padded, ',') == x + [','] + (" " + y);
    }
    Registration.NormalizeJoin([x, y], lefts, rights);
  }

  /** The field "Cardiology, Neurology", with a space after the comma,
      normalises to the two department names. */
  lemma CommaSpaceList()
    ensures Registration.NormalizeList("Cardiology, Neurology") == ["Cardiology", "Neurology"]
  {
    assert "Cardiology, Neurology" == "Cardiology" + ", " + "Neurology";
    TwoFieldList("Cardiology", "Neurology");
  }

  /** A hospital listing only "Neurology" rejects "cardiology". */
  lemma DepartmentMismatch()
    ensures !Registration.DepartmentsMatch(["Neurology"], ["cardiology"])
  {
    assert Lower("Neurology")[0] == 'n';
    assert Lower("cardiology")[0] == 'c';
  }

  /** On one day, 09:30-10:30 meets an existing 09:00-10:00 slot, while
      10:00-11:00 does not: intervals are half-open. */
  lemma HalfOpenSlots(s: Slot)
    requires s.start == 540 && s.end == 600
    ensures OverlapsInterval(s, Stamp(s.date, 570), Stamp(s.date, 630))
    ensures !OverlapsInterval(s, Stamp(s.date, 600), Stamp(s.date, 660))
  {
  }

  /** A patient holding two bookings of 100 each with doctor `doctor` at
      hospital "H". */
  function TwoBookingsPatient(doctor: User): User
  {
    User(doctor.id + 1, "Pat", "", "", "p", Patient, "", [""], "", "", "", [""], [],
         [Booking("s1", doctor.id, "H", 0, 540, 100.0), Booking("s2", doctor.id, "H", 1, 540, 100.0)])
  }

  /** A lone patient all of whose bookings are with doctor `id` gives that
      doctor exactly those bookings as consultations. */
  lemma LonePatientConsulted(p: User, id: int)
    requires p.role == Patient
    requires forall i :: 0 <= i < |p.bookings| ==> p.bookings[i].doctorId == id
    ensures Dashboard.Consultations([p], id) == p.bookings
  {
    assert Dashboard.PatientBookings([p]) == p.bookings by {
      assert [p][1..] == [];
      assert p.bookings + [] == p.bookings;
    }
    Seqs.FilterKeepsAll(p.bookings, Dashboard.ForDoctor(id));
  }

  lemma TwoAmounts(x: Booking, y: Booking, h: string)
    requires x.hospital == h && y.hospital == h
    ensures Dashboard.SumAmounts([x, y]) == x.amount + y.amount
    ensures Dashboard.AmountsAt([x, y], h) == x.amount + y.amount
  {
    assert [x, y][1..] == [y];
    assert [y][1..] == [];
    assert Dashboard.SumAmounts([y]) == y.amount;
    assert Dashboard.AmountsAt([y], h) == y.amount;
  }

  /** Two bookings of 100 at "H" earn the doctor 120, all of it at "H". */
  lemma DoctorEarnsSixtyPercent(doctor: User)
    ensures Dashboard.DoctorSummary([TwoBookingsPatient(doctor)], doctor).earnings == 120.0
    ensures Get(Dashboard.DoctorSummary([TwoBookingsPatient(doctor)], doctor).byHospital, "H") == 120.0
  {
    var bs := TwoBookingsPatient(doctor).bookings;
    LonePatientConsulted(TwoBookingsPatient(doctor), doctor.id);
    TwoAmounts(bs[0], bs[1], "H");
    assert bs == [bs[0], bs[1]];
  }

  /** One patient booked the slot, so it counts once. */
  lemma OneBookingCounted(a: User, d: User, p: User, slotId: string)
    requires a.role == Admin && d.role == Doctor && p.role == Patient
    requires |p.bookings| == 1 && p.bookings[0].slotId == slotId
    ensures Dashboard.PatientCount([a, d, p], slotId) == 1
  {
    assert [a, d, p][1..] == [d, p];
    assert [d, p][1..] == [p];
    assert [p][1..] == [];
    assert Dashboard.BookedSlot(p, slotId) by {
      assert p.bookings[0] in p.bookings;
    }
    assert Dashboard.PatientCount([p], slotId) == 1;
    assert Dashboard.PatientCount([d, p], slotId) == 1;
  }

  lemma OnlyDoctor(a: User, d: User, p: User)
    requires a.role == Admin && d.role == Doctor && p.role == Patient
    requires d.hospital == a.hospital
    ensures Roster.DoctorsAt([a, d, p], a.hospital) == [d]
  {
    var q := Roster.DoctorAt(a.hospital);
    assert !q(a) && q(d) && !q(p);
    Seqs.FilterThree(a, d, p, q);
  }

  /** A doctor listing "Cardiology" and "Neurology" whose one slot of fee
      100 was booked once: the hospital takes 100, and each department is
      credited the full 100, so the department buckets add up to 200. */
  lemma DepartmentsDoubleCount(a: User, d: User, p: User)
    requires a.role == Admin && d.role == Doctor && p.role == Patient
    requires d.hospital == a.hospital
    requires d.specializations == ["Cardiology", "Neurology"]
    requires |d.slots| == 1 && d.slots[0].fee == Some(100.0)
    requires |p.bookings| == 1 && p.bookings[0].slotId == d.slots[0].id
    ensures Dashboard.AdminSummary([a, d, p], a).revenue == 100.0
    ensures Dashboard.AdminSummary([a, d, p], a).consultations == 1
    ensures Get(Dashboard.AdminSummary([a, d, p], a).byDepartment, "Cardiology") == 100.0
    ensures Get(Dashboard.AdminSummary([a, d, p], a).byDepartment, "Neurology") == 100.0
    ensures Total(Dashboard.AdminSummary([a, d, p], a).byDepartment) == 200.0
  {
    var users := [a, d, p];
    OnlyDoctor(a, d, p);
    OneBookingCounted(a, d, p, d.slots[0].id);
    assert d.slots[1..] == [];
    assert Dashboard.SlotsRevenue(users, d.slots) == 100.0;
    assert Dashboard.SlotsConsultations(users, d.slots) == 1;
    assert [d][1..] == [];
    assert multiset(d.specializations)["Cardiology"] == 1;
    assert multiset(d.specializations)["Neurology"] == 1;
    assert Times(2, 100.0) == 200.0;
  }
}
