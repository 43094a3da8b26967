/** Submitting the registration form (`RegisterUser.handleSubmit` together
    with the `onRegister` callback). Every role gets its comma-separated
    lists normalised; a doctor is further checked against the hospital view:
    the hospital must exist, one of its departments must match one of the
    doctor's specializations ignoring case, and the new slot must not
    overlap a slot of the first doctor record with the same unique id. */
module Registration {
  import opened Records
  import opened Text
  import Seqs
  import Roster

  /** The form's fields once the presentation layer has parsed the slot's
      date and times and the fee (`None` for an empty fee field). */
  datatype RegistrationForm = RegistrationForm(
    name: string, gender: string, dob: string, uniqueId: string, role: Role,
    qualifications: string, specializations: string, experience: string,
    hospital: string, location: string, departments: string,
    consultationFee: Option<real>, slotDate: int, startTime: Minute, endTime: Minute)

  /** The two rejections the form reports: an unknown hospital or a
      department mismatch (one message covers both), and a slot overlap. */
  datatype RegistrationError = InvalidHospitalOrDepartment | SlotOverlap

  /** `raw.split(',').map(s => s.trim())`: one element per comma-delimited
      field, each the trim of its field. */
  function NormalizeList(raw: string): (r: seq<string>)
    ensures |r| == Occurrences(raw, ',') + 1
    ensures forall i :: 0 <= i < |r| ==> ',' !in r[i] && IsTrimmed(r[i])
    ensures |r| == |Split(raw, ',')|
    ensures forall i :: 0 <= i < |r| ==> r[i] == Trim(Split(raw, ',')[i])
  {
    var fields := Split(raw, ',');
    seq(|fields|, i requires 0 <= i < |fields| => Trim(fields[i]))
  }

  /** Normalising a comma-joined list of already trimmed, comma-free items
      gives back exactly those items, whatever white space precedes and
      follows each of them. */
  lemma NormalizeJoin(parts: seq<string>, lefts: seq<string>, rights: seq<string>)
    requires |parts| > 0 && |lefts| == |parts| && |rights| == |parts|
    requires forall i :: 0 <= i < |parts| ==> ',' !in parts[i] && IsTrimmed(parts[i])
    requires forall i :: 0 <= i < |lefts| ==> ',' !in lefts[i] && AllSpace(lefts[i])
    requires forall i :: 0 <= i < |rights| ==> ',' !in rights[i] && AllSpace(rights[i])
    ensures NormalizeList(Join(Padded(parts, lefts, rights), ',')) == parts
  {
    var padded := Padded(parts, lefts, rights);
    assert forall i :: 0 <= i < |padded| ==> ',' !in padded[i] by {
      forall i | 0 <= i < |padded| ensures ',' !in padded[i] {
        assert padded[i] == lefts[i] + parts[i] + rights[i];
      }
    }
    SplitJoin(padded, ',');
    var r := NormalizeList(Join(padded, ','));
    forall i | 0 <= i < |parts| ensures r[i] == parts[i] {
      TrimPadded(lefts[i], parts[i], rights[i]);
    }
  }

  /** Each item with its own white space before and after it. */
  function Padded(parts: seq<string>, lefts: seq<string>, rights: seq<string>): (r: seq<string>)
    requires |lefts| == |parts| && |rights| == |parts|
    ensures |r| == |parts|
    ensures forall i :: 0 <= i < |r| ==> r[i] == lefts[i] + parts[i] + rights[i]
  {
    seq(|parts|, i requires 0 <= i < |parts| => lefts[i] + parts[i] + rights[i])
  }

  /** Does hospital `h` carry the name `name`? */
  function Named(name: string): Hospital -> bool
  {
    (h: Hospital) => h.name == name
  }

  /** Is `u` a record with unique id `uid`? */
  function HasUniqueId(uid: string): User -> bool
  {
    (u: User) => u.uniqueId == uid
  }

  /** `hospitals.find(h => h.name === name)`, as an index; `|hospitals|`
      when no hospital has that exact name. */
  function FindHospital(hospitals: seq<Hospital>, name: string): (k: nat)
    ensures k <= |hospitals|
    ensures k < |hospitals| ==> hospitals[k].name == name
    ensures forall j :: 0 <= j < k ==> hospitals[j].name != name
  {
    Seqs.FirstIndex(hospitals, Named(name))
  }

  function LowerAll(xs: seq<string>): (r: seq<string>)
    ensures |r| == |xs|
    ensures forall i :: 0 <= i < |xs| ==> r[i] == Lower(xs[i])
  {
    seq(|xs|, i requires 0 <= i < |xs| => Lower(xs[i]))
  }

  /** `departments.some(d => lowered.includes(d.toLowerCase()))`. */
  function SomeDepartmentListed(departments: seq<string>, lowered: seq<string>): (b: bool)
    ensures b <==> exists i :: 0 <= i < |departments| && Lower(departments[i]) in lowered
  {
    if |departments| == 0 then false
    else Lower(departments[0]) in lowered || SomeDepartmentListed(departments[1..], lowered)
  }

  /** Some department equals some specialization, ignoring case; any single
      pair is enough. */
  function DepartmentsMatch(departments: seq<string>, specializations: seq<string>): (b: bool)
    ensures b <==> exists i, j :: 0 <= i < |departments| && 0 <= j < |specializations|
                      && SameIgnoringCase(departments[i], specializations[j])
  {
    var lowered := LowerAll(specializations);
    assert forall i :: 0 <= i < |departments| ==>
      (Lower(departments[i]) in lowered <==> exists j :: 0 <= j < |specializations| && SameIgnoringCase(departments[i], specializations[j]));
    SomeDepartmentListed(departments, lowered)
  }

  /** `slots.some(...)` with the overlap test `newStart < slotEnd && newEnd > slotStart`. */
  function AnyOverlap(slots: seq<Slot>, start: int, end: int): (b: bool)
    ensures b <==> exists i :: 0 <= i < |slots| && OverlapsInterval(slots[i], start, end)
  {
    if |slots| == 0 then false
    else OverlapsInterval(slots[0], start, end) || AnyOverlap(slots[1..], start, end)
  }

  /** `hospitals.flatMap(h => h.doctors)`. */
  function AllDoctors(hospitals: seq<Hospital>): (r: seq<User>)
    ensures forall u :: u in r <==> exists i :: 0 <= i < |hospitals| && u in hospitals[i].doctors
  {
    var lists := seq(|hospitals|, i requires 0 <= i < |hospitals| => hospitals[i].doctors);
    assert forall i :: 0 <= i < |hospitals| ==> lists[i] == hospitals[i].doctors;
    Seqs.Flatten(lists)
  }

  /** `flatMap` keeps order: the doctors of `a` come before those of `b`. */
  lemma AllDoctorsAppend(a: seq<Hospital>, b: seq<Hospital>)
    ensures AllDoctors(a + b) == AllDoctors(a) + AllDoctors(b)
  {
    var la := seq(|a|, i requires 0 <= i < |a| => a[i].doctors);
    var lb := seq(|b|, i requires 0 <= i < |b| => b[i].doctors);
    var lab := seq(|a + b|, i requires 0 <= i < |a + b| => (a + b)[i].doctors);
    assert lab == la + lb;
    Seqs.FlattenAppend(la, lb);
  }

  /** No hospitals list no doctors, and a hospital appended at the end
      lists its doctors, in their order, after all earlier ones: with these
      two equations `AllDoctors` is fixed element by element. */
  lemma AllDoctorsSnoc(hospitals: seq<Hospital>, h: Hospital)
    ensures AllDoctors([]) == []
    ensures AllDoctors(hospitals + [h]) == AllDoctors(hospitals) + h.doctors
  {
    AllDoctorsAppend(hospitals, [h]);
    var l := seq(1, i requires 0 <= i < 1 => [h][i].doctors);
    assert l == [h.doctors];
    assert Seqs.Flatten(l) == h.doctors + Seqs.Flatten(l[1..]);
  }

  /** Index, within `AllDoctors(hospitals)`, of the first record with unique
      id `uid` (the number of those records when there is none). */
  function FindDoctor(hospitals: seq<Hospital>, uid: string): (k: nat)
    ensures k <= |AllDoctors(hospitals)|
    ensures k < |AllDoctors(hospitals)| ==> AllDoctors(hospitals)[k].uniqueId == uid
    ensures forall j :: 0 <= j < k ==> AllDoctors(hospitals)[j].uniqueId != uid
  {
    Seqs.FirstIndex(AllDoctors(hospitals), HasUniqueId(uid))
  }

  function NewStart(form: RegistrationForm): int
  {
    Stamp(form.slotDate, form.startTime)
  }

  function NewEnd(form: RegistrationForm): int
  {
    Stamp(form.slotDate, form.endTime)
  }

  /** The slot a successful doctor registration creates; `slotId` stands
      for the clock-derived id. */
  function NewSlot(form: RegistrationForm, slotId: string): (r: Slot)
    ensures SlotStart(r) == NewStart(form) && SlotEnd(r) == NewEnd(form)
    ensures r.id == slotId && r.fee == form.consultationFee && r.hospital == form.hospital
  {
    Slot(slotId, form.slotDate, form.startTime, form.endTime, form.consultationFee, form.hospital)
  }

  /** The record every role starts from: the form's fields, the two lists
      normalised, no slots and no bookings; `id` stands for the clock-derived
      id. */
  function BaseUser(form: RegistrationForm, id: int): (r: User)
    ensures CopiesForm(r, form, id)
    ensures r.slots == [] && r.bookings == []
  {
    User(id, form.name, form.gender, form.dob, form.uniqueId, form.role,
         form.qualifications, NormalizeList(form.specializations), form.experience,
         form.hospital, form.location, NormalizeList(form.departments), [], [])
  }

  // ----- independent statement of the checks -----

  ghost predicate IsFirstNamed(hospitals: seq<Hospital>, name: string, k: int)
  {
    && 0 <= k < |hospitals|
    && hospitals[k].name == name
    && forall j :: 0 <= j < k ==> hospitals[j].name != name
  }

  /** The first hospital of that exact name exists and shares a department
      with the specializations, ignoring case. */
  ghost predicate HospitalAccepts(hospitals: seq<Hospital>, name: string, specializations: seq<string>)
  {
    exists k :: IsFirstNamed(hospitals, name, k)
      && exists i, j :: 0 <= i < |hospitals[k].departments| && 0 <= j < |specializations|
           && Lower(hospitals[k].departments[i]) == Lower(specializations[j])
  }

  ghost predicate IsFirstRecord(doctors: seq<User>, uid: string, k: int)
  {
    && 0 <= k < |doctors|
    && doctors[k].uniqueId == uid
    && forall j :: 0 <= j < k ==> doctors[j].uniqueId != uid
  }

  /** The first doctor record with unique id `uid` has a slot meeting the
      interval `[start, end)`. */
  ghost predicate ClashesWithFirstRecord(hospitals: seq<Hospital>, uid: string, start: int, end: int)
  {
    var doctors := AllDoctors(hospitals);
    exists k :: IsFirstRecord(doctors, uid, k)
      && exists s :: s in doctors[k].slots && OverlapsInterval(s, start, end)
  }

  /** `u` holds the form's fields with both lists normalised. */
  ghost predicate CopiesForm(u: User, form: RegistrationForm, id: int)
  {
    && u.id == id && u.name == form.name && u.gender == form.gender && u.dob == form.dob
    && u.uniqueId == form.uniqueId && u.role == form.role
    && u.qualifications == form.qualifications && u.experience == form.experience
    && u.hospital == form.hospital && u.location == form.location
    && u.specializations == NormalizeList(form.specializations)
    && u.departments == NormalizeList(form.departments)
  }

  /** The hospital half of the doctor check: `find` by exact name, then
      `some` department among the lower-cased specializations. */
  function HospitalCheck(hospitals: seq<Hospital>, name: string, specializations: seq<string>): (b: bool)
    ensures b <==> HospitalAccepts(hospitals, name, specializations)
  {
    var k := FindHospital(hospitals, name);
    assert k < |hospitals| ==> IsFirstNamed(hospitals, name, k);
    k < |hospitals| && DepartmentsMatch(hospitals[k].departments, specializations)
  }

  /** The slot half of the doctor check: `find` the first record with the
      unique id among the hospitals' doctors, then `some` overlapping slot. */
  function OverlapCheck(hospitals: seq<Hospital>, uid: string, start: int, end: int): (b: bool)
    ensures b <==> ClashesWithFirstRecord(hospitals, uid, start, end)
  {
    var doctors := AllDoctors(hospitals);
    var d := FindDoctor(hospitals, uid);
    assert d < |doctors| ==> IsFirstRecord(doctors, uid, d);
    d < |doctors| && AnyOverlap(doctors[d].slots, start, end)
  }

  /** `handleSubmit` up to the `onRegister` call: the record to register,
      or the reason the form rejects the submission. */
  function HandleSubmit(form: RegistrationForm, hospitals: seq<Hospital>, id: int, slotId: string)
    : (r: Result<User, RegistrationError>)
    ensures r.Ok? ==> CopiesForm(r.value, form, id) && r.value.bookings == []
    ensures form.role != Doctor ==> r.Ok? && r.value.slots == []
    ensures r == Err(InvalidHospitalOrDepartment) <==>
      form.role == Doctor && !HospitalAccepts(hospitals, form.hospital, NormalizeList(form.specializations))
    ensures r == Err(SlotOverlap) <==>
      && form.role == Doctor
      && HospitalAccepts(hospitals, form.hospital, NormalizeList(form.specializations))
      && ClashesWithFirstRecord(hospitals, form.uniqueId, NewStart(form), NewEnd(form))
    ensures r.Ok? && form.role == Doctor ==>
      && |r.value.slots| == 1
      && r.value.slots[0].id == slotId
      && r.value.slots[0].date == form.slotDate
      && r.value.slots[0].start == form.startTime
      && r.value.slots[0].end == form.endTime
      && r.value.slots[0].fee == form.consultationFee
      && r.value.slots[0].hospital == form.hospital
  {
    var user := BaseUser(form, id);
    if form.role != Doctor then Ok(user)
    else if !HospitalCheck(hospitals, form.hospital, NormalizeList(form.specializations)) then
      Err(InvalidHospitalOrDepartment)
    else if OverlapCheck(hospitals, form.uniqueId, NewStart(form), NewEnd(form)) then
      Err(SlotOverlap)
    else
      Ok(user.(slots := [NewSlot(form, slotId)]))
  }

  /** Submitting the form against the current roster: the hospital view is
      derived from the roster, and the roster gains the new record only when
      the submission is accepted. */
  function Submit(users: seq<User>, form: RegistrationForm, id: int, slotId: string): (r: seq<User>)
    ensures HandleSubmit(form, Roster.HospitalView(users), id, slotId).Err? ==> r == users
    ensures HandleSubmit(form, Roster.HospitalView(users), id, slotId).Ok? ==>
      r == users + [HandleSubmit(form, Roster.HospitalView(users), id, slotId).value]
  {
    match HandleSubmit(form, Roster.HospitalView(users), id, slotId)
    case Ok(u) => Roster.Register(users, u)
    case Err(_) => users
  }

  /** A doctor naming a hospital that no admin record carries is rejected,
      and the roster is left unchanged. */
  lemma UnknownHospitalRejected(users: seq<User>, form: RegistrationForm, id: int, slotId: string)
    requires form.role == Doctor
    requires forall j :: 0 <= j < |users| && users[j].role == Admin ==> users[j].hospital != form.hospital
    ensures HandleSubmit(form, Roster.HospitalView(users), id, slotId) == Err(InvalidHospitalOrDepartment)
    ensures Submit(users, form, id, slotId) == users
  {
    Roster.HospitalViewNames(users, form.hospital);
  }

  /** A doctor whose unique id appears on no earlier doctor record (a
      patient or admin record may carry it) is never rejected for overlap:
      once the hospital and department check passes, the registration
      succeeds. */
  lemma NewDoctorNeverOverlaps(users: seq<User>, form: RegistrationForm, id: int, slotId: string)
    requires form.role == Doctor
    requires forall j :: 0 <= j < |users| && users[j].role == Doctor ==> users[j].uniqueId != form.uniqueId
    ensures HandleSubmit(form, Roster.HospitalView(users), id, slotId) != Err(SlotOverlap)
  {
    var view := Roster.HospitalView(users);
    var doctors := AllDoctors(view);
    forall k | 0 <= k < |doctors|
      ensures doctors[k].uniqueId != form.uniqueId
    {
      assert doctors[k] in doctors;
      var i :| 0 <= i < |view| && doctors[k] in view[i].doctors;
      var j :| 0 <= j < |users| && users[j] == doctors[k];
    }
  }

  /** A successful submission adds exactly one record at the end of the
      roster; a rejected one adds none. */
  lemma SubmitGrowsByAtMostOne(users: seq<User>, form: RegistrationForm, id: int, slotId: string)
    ensures var r := Submit(users, form, id, slotId);
      (|r| == |users| || |r| == |users| + 1) && r[..|users|] == users
  {
  }
}
