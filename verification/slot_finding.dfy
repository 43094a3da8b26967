/** The slot check looks only at the FIRST doctor record carrying the new
    registration's unique id. A doctor gains a slot by registering again,
    and each registration adds a new record, so a doctor's second slot lives
    on a second record that later registrations never consult. This module
    shows an accepted registration whose slot overlaps that second slot,
    and states the check against every record of the doctor, which keeps
    all of a doctor's slots pairwise disjoint. */
module SlotFinding {
  import opened Records
  import Roster
  import Registration

  // ----- the invariant the slot check is meant to keep -----

  /** Every doctor record is filed under a hospital some admin record names,
      so it appears in the hospital view. */
  ghost predicate DoctorsListed(users: seq<User>)
  {
    forall i :: 0 <= i < |users| && users[i].role == Doctor ==>
      exists j :: 0 <= j < |users| && users[j].role == Admin && users[j].hospital == users[i].hospital
  }

  /** No two records of one doctor (same unique id) hold overlapping
      slots. */
  ghost predicate SlotsDisjoint(users: seq<User>)
  {
    forall i, j, a, b ::
      && 0 <= i < |users| && 0 <= j < |users| && i != j
      && users[i].role == Doctor && users[j].role == Doctor
      && users[i].uniqueId == users[j].uniqueId
      && 0 <= a < |users[i].slots| && 0 <= b < |users[j].slots|
      ==> !SlotsOverlap(users[i].slots[a], users[j].slots[b])
  }

  ghost predicate Consistent(users: seq<User>)
  {
    DoctorsListed(users) && SlotsDisjoint(users)
  }

  // ----- the corrected check -----

  /** Some record with unique id `uid`, not only the first, has a slot
      meeting `[start, end)`. */
  ghost predicate ClashesWithAnyRecord(doctors: seq<User>, uid: string, start: int, end: int)
  {
    exists k :: 0 <= k < |doctors| && doctors[k].uniqueId == uid
      && exists s :: s in doctors[k].slots && OverlapsInterval(s, start, end)
  }

  /** The overlap test run over every record with unique id `uid`. */
  function AnyRecordClashes(doctors: seq<User>, uid: string, start: int, end: int): (b: bool)
    ensures b <==> ClashesWithAnyRecord(doctors, uid, start, end)
  {
    if |doctors| == 0 then false
    else
      var rest := AnyRecordClashes(doctors[1..], uid, start, end);
      assert forall k :: 1 <= k < |doctors| ==> doctors[k] == doctors[1..][k - 1];
      (doctors[0].uniqueId == uid && Registration.AnyOverlap(doctors[0].slots, start, end)) || rest
  }

  /** A clash with the first record is a clash with some record. */
  lemma FirstRecordClashIsAClash(hospitals: seq<Hospital>, uid: string, start: int, end: int)
    requires Registration.ClashesWithFirstRecord(hospitals, uid, start, end)
    ensures ClashesWithAnyRecord(Registration.AllDoctors(hospitals), uid, start, end)
  {
    var doctors := Registration.AllDoctors(hospitals);
    var k :| Registration.IsFirstRecord(doctors, uid, k)
      && exists s :: s in doctors[k].slots && OverlapsInterval(s, start, end);
  }

  /** `handleSubmit` with the slot checked against every record of the
      doctor rather than the first one only: it rejects whatever the form
      as written rejects, for the same reason, and accepts a doctor only
      when no record of theirs holds a meeting slot. */
  function HandleSubmitAllRecords(form: Registration.RegistrationForm, hospitals: seq<Hospital>, id: int, slotId: string)
    : (r: Result<User, Registration.RegistrationError>)
    ensures r.Ok? ==> r == Registration.HandleSubmit(form, hospitals, id, slotId)
    ensures r == Err(Registration.InvalidHospitalOrDepartment) <==>
      form.role == Doctor && !Registration.HospitalAccepts(hospitals, form.hospital, Registration.NormalizeList(form.specializations))
    ensures r == Err(Registration.SlotOverlap) <==>
      && form.role == Doctor
      && Registration.HospitalAccepts(hospitals, form.hospital, Registration.NormalizeList(form.specializations))
      && ClashesWithAnyRecord(Registration.AllDoctors(hospitals), form.uniqueId, Registration.NewStart(form), Registration.NewEnd(form))
  {
    var start := Registration.NewStart(form);
    var end := Registration.NewEnd(form);
    var r := Registration.HandleSubmit(form, hospitals, id, slotId);
    if r == Err(Registration.SlotOverlap) then
      FirstRecordClashIsAClash(hospitals, form.uniqueId, start, end);
      r
    else if r.Ok? && form.role == Doctor && AnyRecordClashes(Registration.AllDoctors(hospitals), form.uniqueId, start, end) then
      Err(Registration.SlotOverlap)
    else r
  }

  /** Submitting the form with the corrected check. */
  function SubmitChecked(users: seq<User>, form: Registration.RegistrationForm, id: int, slotId: string): (r: seq<User>)
    ensures HandleSubmitAllRecords(form, Roster.HospitalView(users), id, slotId).Err? ==> r == users
    ensures HandleSubmitAllRecords(form, Roster.HospitalView(users), id, slotId).Ok? ==>
      r == users + [HandleSubmitAllRecords(form, Roster.HospitalView(users), id, slotId).value]
  {
    match HandleSubmitAllRecords(form, Roster.HospitalView(users), id, slotId)
    case Ok(u) => Roster.Register(users, u)
    case Err(_) => users
  }

  /** A listed doctor record is among the hospital view's doctors. */
  lemma ListedDoctorInView(users: seq<User>, i: int)
    requires DoctorsListed(users)
    requires 0 <= i < |users| && users[i].role == Doctor
    ensures users[i] in Registration.AllDoctors(Roster.HospitalView(users))
  {
    var view := Roster.HospitalView(users);
    var j :| 0 <= j < |users| && users[j].role == Admin && users[j].hospital == users[i].hospital;
    Roster.HospitalViewNames(users, users[i].hospital);
    var k :| 0 <= k < |view| && view[k].name == users[i].hospital;
    assert users[i] in users;
    assert users[i] in view[k].doctors;
  }

  /** The empty roster is consistent. */
  lemma EmptyConsistent()
    ensures Consistent([])
  {
  }

  /** Appending a record keeps every doctor listed when the new record,
      if a doctor, names a hospital some admin record carries. */
  lemma AppendKeepsListed(users: seq<User>, u: User)
    requires DoctorsListed(users)
    requires u.role == Doctor ==>
      exists j :: 0 <= j < |users| && users[j].role == Admin && users[j].hospital == u.hospital
    ensures DoctorsListed(users + [u])
  {
    var users' := users + [u];
    forall i | 0 <= i < |users'| && users'[i].role == Doctor
      ensures exists j :: 0 <= j < |users'| && users'[j].role == Admin && users'[j].hospital == users'[i].hospital
    {
      var j :| 0 <= j < |users| && users[j].role == Admin && users[j].hospital == users'[i].hospital;
      assert users'[j] == users[j];
    }
  }

  /** Appending a record keeps the slots disjoint when the new record's
      slots, if a doctor's, meet no slot of an earlier record of that
      doctor. */
  lemma AppendKeepsDisjoint(users: seq<User>, u: User)
    requires SlotsDisjoint(users)
    requires u.role == Doctor ==>
      forall j, a, b ::
        (0 <= j < |users| && users[j].role == Doctor && users[j].uniqueId == u.uniqueId
         && 0 <= a < |u.slots| && 0 <= b < |users[j].slots|)
        ==> !SlotsOverlap(u.slots[a], users[j].slots[b])
    ensures SlotsDisjoint(users + [u])
  {
    var users' := users + [u];
    forall i, j, a, b |
      && 0 <= i < |users'| && 0 <= j < |users'| && i != j
      && users'[i].role == Doctor && users'[j].role == Doctor
      && users'[i].uniqueId == users'[j].uniqueId
      && 0 <= a < |users'[i].slots| && 0 <= b < |users'[j].slots|
      ensures !SlotsOverlap(users'[i].slots[a], users'[j].slots[b])
    {
      if i < |users| && j < |users| {
        assert users'[i] == users[i] && users'[j] == users[j];
      } else if j < |users| {
        assert users'[i] == u && users'[j] == users[j];
      } else {
        assert users'[j] == u && users'[i] == users[i];
        OverlapSymmetric(users'[i].slots[a], users'[j].slots[b]);
      }
    }
  }

  /** An accepted doctor names a hospital some admin record carries. */
  lemma AcceptedDoctorListed(users: seq<User>, form: Registration.RegistrationForm, id: int, slotId: string)
    requires HandleSubmitAllRecords(form, Roster.HospitalView(users), id, slotId).Ok?
    requires form.role == Doctor
    ensures exists j :: 0 <= j < |users| && users[j].role == Admin && users[j].hospital == form.hospital
  {
    var view := Roster.HospitalView(users);
    assert Registration.HospitalAccepts(view, form.hospital, Registration.NormalizeList(form.specializations));
    var k :| Registration.IsFirstNamed(view, form.hospital, k);
    Roster.HospitalViewNames(users, form.hospital);
  }

  /** With every record of the doctor consulted, a consistent roster stays
      consistent whatever is submitted: no accepted slot overlaps a slot of
      an earlier record of the same doctor. */
  lemma {:induction false} SubmitCheckedKeepsConsistent(users: seq<User>, form: Registration.RegistrationForm, id: int, slotId: string)
    requires Consistent(users)
    ensures Consistent(SubmitChecked(users, form, id, slotId))
  {
    var r := HandleSubmitAllRecords(form, Roster.HospitalView(users), id, slotId);
    if r.Ok? {
      var u := r.value;
      assert Registration.CopiesForm(u, form, id);
      if u.role == Doctor {
        AcceptedDoctorListed(users, form, id, slotId);
        AcceptedSlotClear(users, form, id, slotId);
      }
      AppendKeepsListed(users, u);
      AppendKeepsDisjoint(users, u);
    }
  }

  /** No slot of an accepted doctor meets a slot of an earlier record of
      that doctor. */
  lemma AcceptedSlotClear(users: seq<User>, form: Registration.RegistrationForm, id: int, slotId: string)
    requires DoctorsListed(users)
    requires HandleSubmitAllRecords(form, Roster.HospitalView(users), id, slotId).Ok?
    requires form.role == Doctor
    ensures var u := HandleSubmitAllRecords(form, Roster.HospitalView(users), id, slotId).value;
      forall j, a, b ::
        (0 <= j < |users| && users[j].role == Doctor && users[j].uniqueId == u.uniqueId
         && 0 <= a < |u.slots| && 0 <= b < |users[j].slots|)
        ==> !SlotsOverlap(u.slots[a], users[j].slots[b])
  {
    var u := HandleSubmitAllRecords(form, Roster.HospitalView(users), id, slotId).value;
    forall j, a, b | 0 <= j < |users| && users[j].role == Doctor && users[j].uniqueId == u.uniqueId
      && 0 <= a < |u.slots| && 0 <= b < |users[j].slots|
      ensures !SlotsOverlap(u.slots[a], users[j].slots[b])
    {
      NewSlotClear(users, form, id, slotId, j, b);
      assert a == 0;
      OverlapSymmetric(u.slots[0], users[j].slots[b]);
    }
  }

  /** The slot of an accepted doctor registration overlaps no slot of an
      earlier record of that doctor. */
  lemma NewSlotClear(users: seq<User>, form: Registration.RegistrationForm, id: int, slotId: string, j: int, b: int)
    requires DoctorsListed(users)
    requires HandleSubmitAllRecords(form, Roster.HospitalView(users), id, slotId).Ok?
    requires form.role == Doctor
    requires 0 <= j < |users| && users[j].role == Doctor && users[j].uniqueId == form.uniqueId
    requires 0 <= b < |users[j].slots|
    ensures var u := HandleSubmitAllRecords(form, Roster.HospitalView(users), id, slotId).value;
      |u.slots| == 1 && !SlotsOverlap(users[j].slots[b], u.slots[0])
  {
    var view := Roster.HospitalView(users);
    var doctors := Registration.AllDoctors(view);
    var start, end := Registration.NewStart(form), Registration.NewEnd(form);
    AcceptedDoctorClear(form, view, id, slotId);
    ListedDoctorInView(users, j);
    var k :| 0 <= k < |doctors| && doctors[k] == users[j];
    assert users[j].slots[b] in doctors[k].slots;
    assert !OverlapsInterval(users[j].slots[b], start, end);
  }

  /** An accepted doctor clashes with no record and gets exactly the form's
      slot. */
  lemma AcceptedDoctorClear(form: Registration.RegistrationForm, hospitals: seq<Hospital>, id: int, slotId: string)
    requires HandleSubmitAllRecords(form, hospitals, id, slotId).Ok?
    requires form.role == Doctor
    ensures !ClashesWithAnyRecord(Registration.AllDoctors(hospitals), form.uniqueId, Registration.NewStart(form), Registration.NewEnd(form))
    ensures HandleSubmitAllRecords(form, hospitals, id, slotId).value.slots == [Registration.NewSlot(form, slotId)]
  {
  }
}
