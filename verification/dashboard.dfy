/** `DashboardSelector`: look the user up by id and build the view of the
    user's role. An admin sees consultations and revenue over every slot of
    every doctor of the admin's hospital, broken down by doctor name and by
    department; a doctor sees every patient booking made with them and 60%
    of its amount, broken down by hospital; a patient sees their own
    bookings. */
module Dashboard {
  import opened Records
  import opened Ledgers
  import Seqs
  import Roster

  // ----- admin view -----

  /** Is `u` a patient with some booking of slot `slotId`? */
  predicate BookedSlot(u: User, slotId: string)
  {
    u.role == Patient && exists b :: b in u.bookings && b.slotId == slotId
  }

  function BookedBy(slotId: string): User -> bool
  {
    (u: User) => BookedSlot(u, slotId)
  }

  /** The consultation count of a slot: how many patient records hold at
      least one booking of it (see `PatientCountIsFilterLength`). */
  function PatientCount(users: seq<User>, slotId: string): (n: nat)
    ensures n <= |users|
  {
    if |users| == 0 then 0
    else (if BookedSlot(users[0], slotId) then 1 else 0) + PatientCount(users[1..], slotId)
  }

  /** The count is the length of `users.filter(u => u.role === 'patient' &&
      u.bookings.some(b => b.slotId === slot.id))`. */
  lemma {:induction false} PatientCountIsFilterLength(users: seq<User>, slotId: string)
    ensures PatientCount(users, slotId) == |Seqs.Filter(users, BookedBy(slotId))|
  {
    if |users| > 0 {
      PatientCountIsFilterLength(users[1..], slotId);
    }
  }

  /** `parseFloat(slot.fee || 0)`: an empty fee counts as 0. */
  function Fee(s: Slot): (r: real)
    ensures s.fee.None? ==> r == 0.0
    ensures forall f :: s.fee == Some(f) ==> r == f
  {
    match s.fee
    case None => 0.0
    case Some(f) => f
  }

  /** `count * fee` for one slot. */
  function SlotRevenue(users: seq<User>, s: Slot): real
  {
    Times(PatientCount(users, s.id), Fee(s))
  }

  // Reference sums, each over a list in order.

  function SlotsConsultations(users: seq<User>, slots: seq<Slot>): nat
  {
    if |slots| == 0 then 0 else PatientCount(users, slots[0].id) + SlotsConsultations(users, slots[1..])
  }

  function SlotsRevenue(users: seq<User>, slots: seq<Slot>): real
  {
    if |slots| == 0 then 0.0 else SlotRevenue(users, slots[0]) + SlotsRevenue(users, slots[1..])
  }

  function DoctorRevenue(users: seq<User>, doc: User): real
  {
    SlotsRevenue(users, doc.slots)
  }

  function DoctorsConsultations(users: seq<User>, docs: seq<User>): nat
  {
    if |docs| == 0 then 0 else SlotsConsultations(users, docs[0].slots) + DoctorsConsultations(users, docs[1..])
  }

  function DoctorsRevenue(users: seq<User>, docs: seq<User>): real
  {
    if |docs| == 0 then 0.0 else DoctorRevenue(users, docs[0]) + DoctorsRevenue(users, docs[1..])
  }

  /** Revenue of the doctors called `name` (doctors sharing a name share a
      bucket). */
  function NamedRevenue(users: seq<User>, docs: seq<User>, name: string): real
  {
    if |docs| == 0 then 0.0
    else (if docs[0].name == name then DoctorRevenue(users, docs[0]) else 0.0) + NamedRevenue(users, docs[1..], name)
  }

  /** Revenue attributed to department `dept`: each doctor's full revenue,
      once per time `dept` is listed among the doctor's specializations. */
  function DepartmentRevenue(users: seq<User>, docs: seq<User>, dept: string): real
  {
    if |docs| == 0 then 0.0
    else Times(multiset(docs[0].specializations)[dept], DoctorRevenue(users, docs[0])) + DepartmentRevenue(users, docs[1..], dept)
  }

  /** All department attributions together: each doctor's revenue once per
      specialization. */
  function AttributedRevenue(users: seq<User>, docs: seq<User>): real
  {
    if |docs| == 0 then 0.0
    else Times(|docs[0].specializations|, DoctorRevenue(users, docs[0])) + AttributedRevenue(users, docs[1..])
  }

  datatype AdminReport = AdminReport(
    hospital: string, consultations: nat, revenue: real, byDoctor: Ledger, byDepartment: Ledger)

  /** The loop body for one slot of doctor `doc`. */
  function AddSlot(rep: AdminReport, users: seq<User>, doc: User, s: Slot): (r: AdminReport)
    ensures r.hospital == rep.hospital
    ensures r.consultations == rep.consultations + PatientCount(users, s.id)
    ensures r.revenue == rep.revenue + SlotRevenue(users, s)
    ensures Get(r.byDoctor, doc.name) == Get(rep.byDoctor, doc.name) + SlotRevenue(users, s)
    ensures Total(r.byDoctor) == Total(rep.byDoctor) + SlotRevenue(users, s)
    ensures forall k {:trigger Get(r.byDepartment, k)} ::
      Get(r.byDepartment, k) == Get(rep.byDepartment, k) + Times(multiset(doc.specializations)[k], SlotRevenue(users, s))
    ensures Total(r.byDepartment) == Total(rep.byDepartment) + Times(|doc.specializations|, SlotRevenue(users, s))
  {
    var count := PatientCount(users, s.id);
    var revenue := Times(count, Fee(s));
    rep.(consultations := rep.consultations + count,
         revenue := rep.revenue + revenue,
         byDoctor := Add(rep.byDoctor, doc.name, revenue),
         byDepartment := AddEach(rep.byDepartment, doc.specializations, revenue))
  }

  /** The slots' revenues, each counted `n` times: what `n` department
      buckets receive from these slots together. */
  function SlotsAttributed(users: seq<User>, slots: seq<Slot>, n: nat): real
  {
    if |slots| == 0 then 0.0 else Times(n, SlotRevenue(users, slots[0])) + SlotsAttributed(users, slots[1..], n)
  }

  /** Counting every slot `n` times is counting their sum `n` times. */
  lemma {:induction false} SlotsAttributedScales(users: seq<User>, slots: seq<Slot>, n: nat)
    ensures SlotsAttributed(users, slots, n) == Times(n, SlotsRevenue(users, slots))
  {
    if |slots| == 0 {
      TimesZero(n);
    } else {
      SlotsAttributedScales(users, slots[1..], n);
      TimesAdd(n, SlotRevenue(users, slots[0]), SlotsRevenue(users, slots[1..]));
    }
  }

  /** `doc.slots.forEach(...)`: the report grows by the doctor's slot
      totals, in the doctor's bucket and, once per listing, in each of the
      doctor's departments. */
  function AddSlots(rep: AdminReport, users: seq<User>, doc: User, slots: seq<Slot>): (r: AdminReport)
    ensures r.hospital == rep.hospital
    ensures r.consultations == rep.consultations + SlotsConsultations(users, slots)
    ensures r.revenue == rep.revenue + SlotsRevenue(users, slots)
    ensures forall k {:trigger Get(r.byDoctor, k)} ::
      Get(r.byDoctor, k) == Get(rep.byDoctor, k) + (if k == doc.name then SlotsRevenue(users, slots) else 0.0)
    ensures forall k {:trigger Get(r.byDepartment, k)} ::
      Get(r.byDepartment, k) == Get(rep.byDepartment, k) + SlotsAttributed(users, slots, multiset(doc.specializations)[k])
    ensures Total(r.byDoctor) == Total(rep.byDoctor) + SlotsRevenue(users, slots)
    ensures Total(r.byDepartment) == Total(rep.byDepartment) + SlotsAttributed(users, slots, |doc.specializations|)
    ensures KeysUnique(rep.byDoctor) ==> KeysUnique(r.byDoctor)
    ensures KeysUnique(rep.byDepartment) ==> KeysUnique(r.byDepartment)
    decreases |slots|
  {
    if |slots| == 0 then rep
    else AddSlots(AddSlot(rep, users, doc, slots[0]), users, doc, slots[1..])
  }

  /** `doctors.forEach(...)`. */
  function AddDoctors(rep: AdminReport, users: seq<User>, docs: seq<User>): (r: AdminReport)
    ensures r.hospital == rep.hospital
    ensures r.consultations == rep.consultations + DoctorsConsultations(users, docs)
    ensures r.revenue == rep.revenue + DoctorsRevenue(users, docs)
    ensures forall k {:trigger Get(r.byDoctor, k)} :: Get(r.byDoctor, k) == Get(rep.byDoctor, k) + NamedRevenue(users, docs, k)
    ensures forall k {:trigger Get(r.byDepartment, k)} :: Get(r.byDepartment, k) == Get(rep.byDepartment, k) + DepartmentRevenue(users, docs, k)
    ensures Total(r.byDoctor) == Total(rep.byDoctor) + DoctorsRevenue(users, docs)
    ensures Total(r.byDepartment) == Total(rep.byDepartment) + AttributedRevenue(users, docs)
    ensures KeysUnique(rep.byDoctor) ==> KeysUnique(r.byDoctor)
    ensures KeysUnique(rep.byDepartment) ==> KeysUnique(r.byDepartment)
    decreases |docs|
  {
    if |docs| == 0 then rep
    else
      var doc := docs[0];
      SlotsAttributedScales(users, doc.slots, |doc.specializations|);
      forall k
        ensures SlotsAttributed(users, doc.slots, multiset(doc.specializations)[k])
             == Times(multiset(doc.specializations)[k], DoctorRevenue(users, doc))
      {
        SlotsAttributedScales(users, doc.slots, multiset(doc.specializations)[k]);
      }
      AddDoctors(AddSlots(rep, users, doc, doc.slots), users, docs[1..])
  }

  /** The admin dashboard of `admin`: every slot of every doctor registered
      under the admin's hospital name. The doctor buckets add up to the
      total revenue; the department buckets add up to each doctor's revenue
      counted once per specialization. */
  function AdminSummary(users: seq<User>, admin: User): (r: AdminReport)
    ensures var docs := Roster.DoctorsAt(users, admin.hospital);
      && r.hospital == admin.hospital
      && r.consultations == DoctorsConsultations(users, docs)
      && r.revenue == DoctorsRevenue(users, docs)
      && Total(r.byDoctor) == r.revenue
      && (forall k :: Get(r.byDoctor, k) == NamedRevenue(users, docs, k))
      && (forall k :: Get(r.byDepartment, k) == DepartmentRevenue(users, docs, k))
      && Total(r.byDepartment) == AttributedRevenue(users, docs)
      && KeysUnique(r.byDoctor) && KeysUnique(r.byDepartment)
  {
    AddDoctors(AdminReport(admin.hospital, 0, 0.0, [], []), users, Roster.DoctorsAt(users, admin.hospital))
  }

  /** One slot opens the doctor's bucket and a bucket for each of the
      doctor's specializations, even when its revenue is 0. */
  lemma {:induction false} AddSlotsKeys(rep: AdminReport, users: seq<User>, doc: User, slots: seq<Slot>)
    ensures var r := AddSlots(rep, users, doc, slots);
      && Keys(r.byDoctor) == Keys(rep.byDoctor) + (if |slots| > 0 then {doc.name} else {})
      && Keys(r.byDepartment) == Keys(rep.byDepartment) + (if |slots| > 0 then set k | k in doc.specializations else {})
    decreases |slots|
  {
    if |slots| > 0 {
      AddSlotsKeys(AddSlot(rep, users, doc, slots[0]), users, doc, slots[1..]);
    }
  }

  /** The doctor loop opens a bucket for the name and for each
      specialization of every doctor with at least one slot, and no other. */
  lemma {:induction false} AddDoctorsKeys(rep: AdminReport, users: seq<User>, docs: seq<User>)
    ensures var r := AddDoctors(rep, users, docs);
      && (forall k :: k in Keys(r.byDoctor) <==>
            k in Keys(rep.byDoctor) || exists d :: d in docs && |d.slots| > 0 && d.name == k)
      && (forall k :: k in Keys(r.byDepartment) <==>
            k in Keys(rep.byDepartment) || exists d :: d in docs && |d.slots| > 0 && k in d.specializations)
    decreases |docs|
  {
    if |docs| > 0 {
      var doc := docs[0];
      var mid := AddSlots(rep, users, doc, doc.slots);
      AddSlotsKeys(rep, users, doc, doc.slots);
      AddDoctorsKeys(mid, users, docs[1..]);
      assert docs == [doc] + docs[1..];
      assert forall d :: d in docs <==> d == doc || d in docs[1..];
    }
  }

  /** `Object.entries(revenueByDoctor)` and `Object.entries(revenueByDepartment)`
      list exactly the names and the specializations of the hospital's
      doctors that have a slot, whether or not anyone booked it. */
  lemma AdminSummaryKeys(users: seq<User>, admin: User)
    ensures var docs, r := Roster.DoctorsAt(users, admin.hospital), AdminSummary(users, admin);
      && (forall k :: k in Keys(r.byDoctor) <==> exists d :: d in docs && |d.slots| > 0 && d.name == k)
      && (forall k :: k in Keys(r.byDepartment) <==> exists d :: d in docs && |d.slots| > 0 && k in d.specializations)
  {
    var docs := Roster.DoctorsAt(users, admin.hospital);
    var start := AdminReport(admin.hospital, 0, 0.0, [], []);
    assert Keys(start.byDoctor) == {} && Keys(start.byDepartment) == {};
    assert AdminSummary(users, admin) == AddDoctors(start, users, docs);
    AddDoctorsKeys(start, users, docs);
  }

  /** A slot with no fee adds no revenue, though its patients still count
      as consultations. */
  lemma {:induction false} MissingFeeAddsNoRevenue(rep: AdminReport, users: seq<User>, doc: User, s: Slot)
    requires s.fee.None?
    ensures AddSlot(rep, users, doc, s).revenue == rep.revenue
    ensures AddSlot(rep, users, doc, s).consultations == rep.consultations + PatientCount(users, s.id)
    ensures Total(AddSlot(rep, users, doc, s).byDoctor) == Total(rep.byDoctor)
  {
    TimesZero(PatientCount(users, s.id));
  }

  predicate NonNegativeFees(doc: User)
  {
    forall i :: 0 <= i < |doc.slots| ==> Fee(doc.slots[i]) >= 0.0
  }

  lemma {:induction false} SlotsRevenueNonNegative(users: seq<User>, slots: seq<Slot>)
    requires forall i :: 0 <= i < |slots| ==> Fee(slots[i]) >= 0.0
    ensures SlotsRevenue(users, slots) >= 0.0
  {
    if |slots| > 0 {
      TimesNonNegative(PatientCount(users, slots[0].id), Fee(slots[0]));
      SlotsRevenueNonNegative(users, slots[1..]);
    }
  }

  /** With non-negative fees and at least one specialization per doctor,
      the department buckets add up to at least the total revenue: a
      doctor's revenue is counted in full for each of their departments,
      not divided among them. */
  lemma {:induction false} DepartmentsCoverRevenue(users: seq<User>, docs: seq<User>)
    requires forall i :: 0 <= i < |docs| ==> |docs[i].specializations| >= 1 && NonNegativeFees(docs[i])
    ensures AttributedRevenue(users, docs) >= DoctorsRevenue(users, docs)
  {
    if |docs| > 0 {
      SlotsRevenueNonNegative(users, docs[0].slots);
      TimesAtLeastOnce(|docs[0].specializations|, DoctorRevenue(users, docs[0]));
      DepartmentsCoverRevenue(users, docs[1..]);
    }
  }

  /** Number of bookings of slot `slotId` in a list. */
  function SlotBookings(bookings: seq<Booking>, slotId: string): nat
  {
    if |bookings| == 0 then 0
    else (if bookings[0].slotId == slotId then 1 else 0) + SlotBookings(bookings[1..], slotId)
  }

  /** Number of bookings of slot `slotId` held by the patients. */
  function PatientSlotBookings(users: seq<User>, slotId: string): nat
  {
    if |users| == 0 then 0
    else (if users[0].role == Patient then SlotBookings(users[0].bookings, slotId) else 0)
         + PatientSlotBookings(users[1..], slotId)
  }

  lemma {:induction false} SlotBookingsPositive(bookings: seq<Booking>, slotId: string)
    requires exists b :: b in bookings && b.slotId == slotId
    ensures SlotBookings(bookings, slotId) >= 1
  {
    if bookings[0].slotId != slotId {
      var b :| b in bookings && b.slotId == slotId;
      assert b in bookings[1..];
      SlotBookingsPositive(bookings[1..], slotId);
    }
  }

  /** A slot's consultation count counts patients, not bookings: it never
      exceeds the number of bookings of that slot. */
  lemma {:induction false} PatientCountAtMostBookings(users: seq<User>, slotId: string)
    ensures PatientCount(users, slotId) <= PatientSlotBookings(users, slotId)
  {
    if |users| > 0 {
      if BookedSlot(users[0], slotId) {
        SlotBookingsPositive(users[0].bookings, slotId);
      }
      PatientCountAtMostBookings(users[1..], slotId);
    }
  }

  // ----- doctor view -----

  /** `users.filter(u => u.role === 'patient').flatMap(p => p.bookings)`:
      the patients' bookings, patient by patient in roster order. */
  function PatientBookings(users: seq<User>): (r: seq<Booking>)
    ensures forall b :: b in r <==> exists j :: 0 <= j < |users| && users[j].role == Patient && b in users[j].bookings
  {
    if |users| == 0 then []
    else
      var rest := PatientBookings(users[1..]);
      assert forall j :: 1 <= j < |users| ==> users[j] == users[1..][j - 1];
      (if users[0].role == Patient then users[0].bookings else []) + rest
  }

  function ForDoctor(doctorId: int): Booking -> bool
  {
    (b: Booking) => b.doctorId == doctorId
  }

  /** The doctor's consultations: every booking any patient made with
      doctor `doctorId`, patient by patient in roster order. */
  function Consultations(users: seq<User>, doctorId: int): (r: seq<Booking>)
    ensures forall b :: b in r <==>
      b.doctorId == doctorId && exists j :: 0 <= j < |users| && users[j].role == Patient && b in users[j].bookings
  {
    Seqs.Filter(PatientBookings(users), ForDoctor(doctorId))
  }

  /** How many times booking `b` is held, over all patient records. */
  ghost function Holdings(users: seq<User>, b: Booking): nat
  {
    if |users| == 0 then 0
    else (if users[0].role == Patient then multiset(users[0].bookings)[b] else 0) + Holdings(users[1..], b)
  }

  /** The flattened list keeps every patient's booking as often as it is
      held: nothing is merged or dropped. */
  lemma {:induction false} PatientBookingsCount(users: seq<User>, b: Booking)
    ensures multiset(PatientBookings(users))[b] == Holdings(users, b)
  {
    if |users| > 0 {
      PatientBookingsCount(users[1..], b);
      var own := if users[0].role == Patient then users[0].bookings else [];
      assert PatientBookings(users) == own + PatientBookings(users[1..]);
      assert multiset(own + PatientBookings(users[1..])) == multiset(own) + multiset(PatientBookings(users[1..]));
    }
  }

  /** The consultations hold each booking with the doctor as often as
      patients hold it, and no other booking: their number is the "Total
      Consultations" shown. */
  lemma ConsultationsCount(users: seq<User>, doctorId: int, b: Booking)
    ensures multiset(Consultations(users, doctorId))[b] == if b.doctorId == doctorId then Holdings(users, b) else 0
  {
    PatientBookingsCount(users, b);
  }

  /** A later patient's bookings follow the earlier patients' bookings. */
  lemma {:induction false} PatientBookingsAppend(users: seq<User>, p: User)
    requires p.role == Patient
    ensures PatientBookings(users + [p]) == PatientBookings(users) + p.bookings
  {
    if |users| == 0 {
      assert users + [p] == [p];
      assert [p][1..] == [];
    } else {
      assert (users + [p])[1..] == users[1..] + [p];
      PatientBookingsAppend(users[1..], p);
    }
  }

  /** A later patient's consultations follow the earlier ones. */
  lemma ConsultationsAppend(users: seq<User>, p: User, doctorId: int)
    requires p.role == Patient
    ensures Consultations(users + [p], doctorId) == Consultations(users, doctorId) + Seqs.Filter(p.bookings, ForDoctor(doctorId))
  {
    PatientBookingsAppend(users, p);
    Seqs.FilterAppend(PatientBookings(users), p.bookings, ForDoctor(doctorId));
  }

  /** The doctor's share of a booking's amount: 60%. */
  const DoctorShare: real := 0.6

  function SumAmounts(bookings: seq<Booking>): real
  {
    if |bookings| == 0 then 0.0 else bookings[0].amount + SumAmounts(bookings[1..])
  }

  /** Sum of the amounts of the bookings at hospital `h`. */
  function AmountsAt(bookings: seq<Booking>, h: string): real
  {
    if |bookings| == 0 then 0.0
    else (if bookings[0].hospital == h then bookings[0].amount else 0.0) + AmountsAt(bookings[1..], h)
  }

  datatype DoctorReport = DoctorReport(name: string, consultations: seq<Booking>, earnings: real, byHospital: Ledger)

  /** `consultations.forEach(b => ...)`: each booking adds 60% of its amount
      to the earnings and to its hospital's bucket. */
  function AddBookings(rep: DoctorReport, bookings: seq<Booking>): (r: DoctorReport)
    ensures r.name == rep.name && r.consultations == rep.consultations
    ensures r.earnings == rep.earnings + DoctorShare * SumAmounts(bookings)
    ensures forall h {:trigger Get(r.byHospital, h)} :: Get(r.byHospital, h) == Get(rep.byHospital, h) + DoctorShare * AmountsAt(bookings, h)
    ensures Total(r.byHospital) == Total(rep.byHospital) + DoctorShare * SumAmounts(bookings)
    ensures KeysUnique(rep.byHospital) ==> KeysUnique(r.byHospital)
    decreases |bookings|
  {
    if |bookings| == 0 then rep
    else
      var b := bookings[0];
      var share := b.amount * DoctorShare;
      AddBookings(rep.(earnings := rep.earnings + share, byHospital := Add(rep.byHospital, b.hospital, share)), bookings[1..])
  }

  /** The doctor dashboard of `doctor`: its consultations, 60% of their
      amounts as earnings, and the same earnings broken down by hospital. */
  function DoctorSummary(users: seq<User>, doctor: User): (r: DoctorReport)
    ensures r.name == doctor.name
    ensures r.consultations == Consultations(users, doctor.id)
    ensures r.earnings == DoctorShare * SumAmounts(r.consultations)
    ensures Total(r.byHospital) == r.earnings
    ensures forall h :: Get(r.byHospital, h) == DoctorShare * AmountsAt(r.consultations, h)
    ensures KeysUnique(r.byHospital)
  {
    var cs := Consultations(users, doctor.id);
    AddBookings(DoctorReport(doctor.name, cs, 0.0, []), cs)
  }

  /** Each booking opens the bucket of its hospital. */
  lemma {:induction false} AddBookingsKeys(rep: DoctorReport, bookings: seq<Booking>)
    ensures forall h :: h in Keys(AddBookings(rep, bookings).byHospital) <==>
      h in Keys(rep.byHospital) || exists b :: b in bookings && b.hospital == h
    decreases |bookings|
  {
    if |bookings| > 0 {
      var b := bookings[0];
      var share := b.amount * DoctorShare;
      var next := rep.(earnings := rep.earnings + share, byHospital := Add(rep.byHospital, b.hospital, share));
      assert AddBookings(rep, bookings) == AddBookings(next, bookings[1..]);
      assert Keys(next.byHospital) == Keys(rep.byHospital) + {b.hospital};
      AddBookingsKeys(next, bookings[1..]);
      assert forall x :: x in bookings <==> x == b || x in bookings[1..];
    }
  }

  /** `Object.entries(earningsByHospital)` lists exactly the hospitals of
      the doctor's consultations. */
  lemma DoctorSummaryKeys(users: seq<User>, doctor: User)
    ensures var r := DoctorSummary(users, doctor);
      forall h :: h in Keys(r.byHospital) <==> exists b :: b in r.consultations && b.hospital == h
  {
    var cs := Consultations(users, doctor.id);
    AddBookingsKeys(DoctorReport(doctor.name, cs, 0.0, []), cs);
  }

  // ----- selection -----

  datatype View =
    | NoUser
    | AdminView(admin: AdminReport)
    | DoctorView(doctor: DoctorReport)
    | PatientView(name: string, bookings: seq<Booking>)

  function HasId(id: int): User -> bool
  {
    (u: User) => u.id == id
  }

  ghost predicate IsFirstWithId(users: seq<User>, id: int, k: int)
  {
    && 0 <= k < |users|
    && users[k].id == id
    && forall j :: 0 <= j < k ==> users[j].id != id
  }

  /** `DashboardSelector`: no user carries the id, or the first one that
      does is shown according to its role; a patient sees their bookings
      exactly as stored. */
  function SelectDashboard(users: seq<User>, id: int): (r: View)
    ensures r.NoUser? <==> forall j :: 0 <= j < |users| ==> users[j].id != id
    ensures forall k :: IsFirstWithId(users, id, k) ==>
      && (users[k].role == Admin ==> r == AdminView(AdminSummary(users, users[k])))
      && (users[k].role == Doctor ==> r == DoctorView(DoctorSummary(users, users[k])))
      && (users[k].role == Patient ==> r == PatientView(users[k].name, users[k].bookings))
  {
    var k := Seqs.FirstIndex(users, HasId(id));
    if k == |users| then NoUser
    else
      var u := users[k];
      assert forall k' :: IsFirstWithId(users, id, k') ==> k' == k;
      match u.role
      case Admin => AdminView(AdminSummary(users, u))
      case Doctor => DoctorView(DoctorSummary(users, u))
      case Patient => PatientView(u.name, u.bookings)
  }
}
