/** A concrete roster on which the slot check as written accepts an
    overlapping slot, while the check over every record rejects it. */
module SlotExample {
  import opened Records
  import opened Text
  import Seqs
  import Roster
  import Registration
  import opened SlotFinding

  /** A doctor record of unique id "D" at hospital "H" in department "C",
      holding one slot on day 0. */
  function DoctorRecord(id: int, slot: Slot): User
  {
    User(id, "Dr", "", "", "D", Doctor, "", ["C"], "", "H", "", [""], [slot], [])
  }

  /** An admin of hospital "H" with department "C", then doctor "D" twice:
      09:00-10:00 and, registered again, 11:00-12:00. */
  function TwoSlotRoster(): seq<User>
  {
    [ User(1, "Ann", "", "", "a", Admin, "", [""], "", "H", "L", ["C"], [], []),
      DoctorRecord(2, Slot("s2", 0, 540, 600, None, "H")),
      DoctorRecord(3, Slot("s3", 0, 660, 720, None, "H")) ]
  }

  /** Doctor "D" registers again for 11:30-12:30 on day 0. */
  function ThirdSlotForm(): Registration.RegistrationForm
  {
    Registration.RegistrationForm("Dr", "", "", "D", Doctor, "", "C", "", "H", "", "", None, 0, 690, 750)
  }

  lemma ThreeAdmins(a: User, d: User, e: User)
    requires a.role == Admin && d.role == Doctor && e.role == Doctor
    ensures Roster.Admins([a, d, e]) == [a]
  {
    Seqs.FilterThree(a, d, e, Roster.IsAdmin);
  }

  lemma ThreeDoctors(a: User, d: User, e: User)
    requires a.role == Admin && d.role == Doctor && e.role == Doctor
    requires d.hospital == a.hospital && e.hospital == a.hospital
    ensures Roster.DoctorsAt([a, d, e], a.hospital) == [d, e]
  {
    var p := Roster.DoctorAt(a.hospital);
    assert !p(a) && p(d) && p(e);
    Seqs.FilterThree(a, d, e, p);
  }

  /** An admin followed by two doctors of the admin's hospital gives one
      hospital holding both doctors. */
  lemma ThreeView(a: User, d: User, e: User)
    requires a.role == Admin && d.role == Doctor && e.role == Doctor
    requires d.hospital == a.hospital && e.hospital == a.hospital
    ensures Roster.HospitalView([a, d, e]) == [Hospital(a.hospital, a.location, a.departments, [d, e])]
  {
    ThreeAdmins(a, d, e);
    ThreeDoctors(a, d, e);
    assert Roster.HospitalOf([a, d, e], a) == Hospital(a.hospital, a.location, a.departments, [d, e]);
  }

  lemma ThreeAllDoctors(a: User, d: User, e: User)
    requires a.role == Admin && d.role == Doctor && e.role == Doctor
    requires d.hospital == a.hospital && e.hospital == a.hospital
    ensures Registration.AllDoctors(Roster.HospitalView([a, d, e])) == [d, e]
  {
    ThreeView(a, d, e);
    var h := Hospital(a.hospital, a.location, a.departments, [d, e]);
    assert [h][1..] == [];
    assert Seqs.Flatten([[d, e]]) == [d, e] + Seqs.Flatten([]);
  }

  /** Before the third registration the roster is consistent: both
      records of "D" sit under "H", and their slots are an hour apart. */
  lemma TwoSlotRosterConsistent()
    ensures Consistent(TwoSlotRoster())
  {
    var users := TwoSlotRoster();
    assert users[0].role == Admin && users[0].hospital == "H";
    forall i, j, a, b |
      && 0 <= i < |users| && 0 <= j < |users| && i != j
      && users[i].role == Doctor && users[j].role == Doctor
      && users[i].uniqueId == users[j].uniqueId
      && 0 <= a < |users[i].slots| && 0 <= b < |users[j].slots|
      ensures !SlotsOverlap(users[i].slots[a], users[j].slots[b])
    {
      assert a == 0 && b == 0;
      assert (i == 1 && j == 2) || (i == 2 && j == 1);
    }
  }

  /** The doctor registration the first-record check lets through. */
  lemma FirstRecordClear(a: User, d: User, e: User, form: Registration.RegistrationForm, id: int, slotId: string)
    requires a.role == Admin && d.role == Doctor && e.role == Doctor && form.role == Doctor
    requires d.hospital == a.hospital && e.hospital == a.hospital && form.hospital == a.hospital
    requires d.uniqueId == form.uniqueId
    requires Registration.DepartmentsMatch(a.departments, Registration.NormalizeList(form.specializations))
    requires !Registration.AnyOverlap(d.slots, Registration.NewStart(form), Registration.NewEnd(form))
    ensures Registration.HandleSubmit(form, Roster.HospitalView([a, d, e]), id, slotId)
         == Ok(Registration.BaseUser(form, id).(slots := [Registration.NewSlot(form, slotId)]))
  {
    var view := Roster.HospitalView([a, d, e]);
    ThreeView(a, d, e);
    ThreeAllDoctors(a, d, e);
    assert Registration.FindHospital(view, form.hospital) == 0;
    assert Registration.FindDoctor(view, form.uniqueId) == 0;
  }

  /** The same registration meets a slot of a later record. */
  lemma LaterRecordClashes(a: User, d: User, e: User, form: Registration.RegistrationForm)
    requires a.role == Admin && d.role == Doctor && e.role == Doctor
    requires d.hospital == a.hospital && e.hospital == a.hospital
    requires e.uniqueId == form.uniqueId
    requires |e.slots| > 0 && OverlapsInterval(e.slots[0], Registration.NewStart(form), Registration.NewEnd(form))
    ensures ClashesWithAnyRecord(Registration.AllDoctors(Roster.HospitalView([a, d, e])),
              form.uniqueId, Registration.NewStart(form), Registration.NewEnd(form))
  {
    ThreeAllDoctors(a, d, e);
    assert e.slots[0] in e.slots;
    assert [d, e][1] == e;
  }

  /** The shape of the discrepancy: an admin, then two records of one
      doctor under the admin's hospital. A registration of that doctor whose
      slot clears the first record's slots but meets the second record's is
      accepted as written, and the roster it produces holds two meeting
      slots of one doctor. */
  lemma {:induction false} FirstRecordOnly(a: User, d: User, e: User, form: Registration.RegistrationForm, id: int, slotId: string)
    requires a.role == Admin && d.role == Doctor && e.role == Doctor && form.role == Doctor
    requires d.hospital == a.hospital && e.hospital == a.hospital && form.hospital == a.hospital
    requires d.uniqueId == form.uniqueId && e.uniqueId == form.uniqueId
    requires Registration.DepartmentsMatch(a.departments, Registration.NormalizeList(form.specializations))
    requires !Registration.AnyOverlap(d.slots, Registration.NewStart(form), Registration.NewEnd(form))
    requires |e.slots| > 0 && OverlapsInterval(e.slots[0], Registration.NewStart(form), Registration.NewEnd(form))
    ensures Registration.Submit([a, d, e], form, id, slotId)
         == [a, d, e] + [Registration.BaseUser(form, id).(slots := [Registration.NewSlot(form, slotId)])]
    ensures !SlotsDisjoint(Registration.Submit([a, d, e], form, id, slotId))
  {
    FirstRecordClear(a, d, e, form, id, slotId);
    var u := Registration.BaseUser(form, id).(slots := [Registration.NewSlot(form, slotId)]);
    AcceptedAppends([a, d, e], form, id, slotId, u);
    var users' := [a, d, e] + [u];
    assert users'[3] == u && users'[2] == e;
    assert u.role == Doctor && u.uniqueId == e.uniqueId;
    assert SlotStart(u.slots[0]) == Registration.NewStart(form) && SlotEnd(u.slots[0]) == Registration.NewEnd(form);
    MeetingRecords(users', 3, 2);
  }

  /** An accepted submission appends the record it built. */
  lemma AcceptedAppends(users: seq<User>, form: Registration.RegistrationForm, id: int, slotId: string, u: User)
    requires Registration.HandleSubmit(form, Roster.HospitalView(users), id, slotId) == Ok(u)
    ensures Registration.Submit(users, form, id, slotId) == users + [u]
  {
  }

  /** Two records of one doctor whose first slots meet break the
      invariant. */
  lemma MeetingRecords(users: seq<User>, i: int, j: int)
    requires 0 <= i < |users| && 0 <= j < |users| && i != j
    requires users[i].role == Doctor && users[j].role == Doctor && users[i].uniqueId == users[j].uniqueId
    requires |users[i].slots| > 0 && |users[j].slots| > 0
    requires SlotsOverlap(users[i].slots[0], users[j].slots[0])
    ensures !SlotsDisjoint(users)
  {
  }

  /** The check over every record rejects that registration. */
  lemma AllRecordsReject(a: User, d: User, e: User, form: Registration.RegistrationForm, id: int, slotId: string)
    requires a.role == Admin && d.role == Doctor && e.role == Doctor && form.role == Doctor
    requires d.hospital == a.hospital && e.hospital == a.hospital && form.hospital == a.hospital
    requires d.uniqueId == form.uniqueId && e.uniqueId == form.uniqueId
    requires Registration.DepartmentsMatch(a.departments, Registration.NormalizeList(form.specializations))
    requires !Registration.AnyOverlap(d.slots, Registration.NewStart(form), Registration.NewEnd(form))
    requires |e.slots| > 0 && OverlapsInterval(e.slots[0], Registration.NewStart(form), Registration.NewEnd(form))
    ensures SubmitChecked([a, d, e], form, id, slotId) == [a, d, e]
  {
    FirstRecordClear(a, d, e, form, id, slotId);
    LaterRecordClashes(a, d, e, form);
  }

  /** The concrete roster and form have the shape of the discrepancy. */
  lemma TwoSlotRosterShape()
    ensures var users, form := TwoSlotRoster(), ThirdSlotForm();
      && users == [users[0], users[1], users[2]]
      && users[0].role == Admin && users[1].role == Doctor && users[2].role == Doctor && form.role == Doctor
      && users[1].hospital == users[0].hospital && users[2].hospital == users[0].hospital
      && form.hospital == users[0].hospital
      && users[1].uniqueId == form.uniqueId && users[2].uniqueId == form.uniqueId
      && |users[2].slots| > 0 && OverlapsInterval(users[2].slots[0], Registration.NewStart(form), Registration.NewEnd(form))
  {
  }

  /** The specializations field "C" normalises to the one field "C". */
  lemma SingleFieldList()
    ensures Registration.NormalizeList("C") == ["C"]
  {
    SplitNoSeparator("C", ',');
    TrimOfTrimmed("C");
  }

  /** "C" matches the department "C", and 11:30-12:30 clears 09:00-10:00. */
  lemma ThirdSlotFormChecks()
    ensures Registration.DepartmentsMatch(TwoSlotRoster()[0].departments, Registration.NormalizeList(ThirdSlotForm().specializations))
    ensures !Registration.AnyOverlap(TwoSlotRoster()[1].slots, Registration.NewStart(ThirdSlotForm()), Registration.NewEnd(ThirdSlotForm()))
  {
    SingleFieldList();
    assert SameIgnoringCase(["C"][0], ["C"][0]);
    assert TwoSlotRoster()[1].slots == [Slot("s2", 0, 540, 600, None, "H")];
  }

  /** The concrete case: doctor "D" holds 09:00-10:00 on the first record
      and 11:00-12:00 on the second, and registers again for 11:30-12:30.
      The registration is accepted as written, leaving the roster with
      overlapping slots of "D", and is rejected by the corrected check. */
  lemma AsWrittenAcceptsOverlap()
    ensures Consistent(TwoSlotRoster())
    ensures |Registration.Submit(TwoSlotRoster(), ThirdSlotForm(), 4, "s4")| == 4
    ensures !Consistent(Registration.Submit(TwoSlotRoster(), ThirdSlotForm(), 4, "s4"))
    ensures SubmitChecked(TwoSlotRoster(), ThirdSlotForm(), 4, "s4") == TwoSlotRoster()
  {
    var users := TwoSlotRoster();
    var form := ThirdSlotForm();
    TwoSlotRosterConsistent();
    TwoSlotRosterShape();
    ThirdSlotFormChecks();
    FirstRecordOnly(users[0], users[1], users[2], form, 4, "s4");
    AllRecordsReject(users[0], users[1], users[2], form, 4, "s4");
  }
}
