# Hospital appointment prototype: registration and dashboards, in Dafny

The prototype is a single React page (`App.js`). It keeps an in-memory roster
of users (admins, doctors and patients) and has three pieces of logic:

- **Registration** (`RegisterUser.handleSubmit`):
  - splits and trims the comma-separated departments and specializations of
    every new user;
  - for a doctor, it also checks the chosen hospital and department, checks
    the new consultation slot against existing slots, and creates that slot.
- **The roster** (`App.handleRegister`):
  - appends each accepted user;
  - derives from the roster the hospital list the form checks against: one
    hospital per admin record, with the doctors filed under its name.
- **Dashboards** (`DashboardSelector`): looks a user up by id and shows one
  view per role:
  - admins: consultations and revenue of their hospital, by doctor and by
    department;
  - doctors: 60% of their patients' booking amounts, by hospital;
  - patients: their own bookings.

The model is made of immutable records and pure functions:

- `Records` holds users, slots, bookings and hospitals.
- Time is an integer number of minutes: day × 1440 + minute of the day.
  Money is a `real`.
- `Seqs` gives the `find`, `filter` and `flatMap` the components chain.
- `Text` gives `split`, `trim` and `toLowerCase`.
- `Ledgers` gives the plain objects that accumulate per-key sums.
- `Roster`, `Registration` and `Dashboard` follow the three pieces of the page.
- `SlotFinding` and `SlotExample` hold the discrepancy reported under Findings.
- `Scenarios` works through concrete cases.

Parameters stand in for the clock and the text input:
- the user id and slot id that `Date.now()` would give;
- the already-parsed slot date, times and fee;
- the numeric id typed into the dashboard box.

## Model

| member | source | states |
|---|---|---|
| `Registration.NormalizeList` | App.js:19-20 | one element per comma-delimited field (commas + 1 of them), element i being the trim of field i, so free of commas and trimmed |
| `Registration.NormalizeJoin` | App.js:19-20 | normalising a comma-joined list of trimmed items, each with its own white space before and after it (as in `"Cardiology, Neurology"`), gives back exactly the items |
| `Text.Split` | App.js:19-20 | `split(',')` yields separator-free fields, one more than the separators, which join back to the input |
| `Text.SplitJoin` | App.js:19-20 | `split` undoes `join` for a non-empty list of separator-free parts |
| `Text.Trim` | App.js:19-20 | `trim` returns a string that neither starts nor ends with white space, no longer than its input |
| `Text.TrimIsInfix` | App.js:19-20 | what `trim` keeps is the infix of the input that starts where the leading white space ends, with only white space before and after it |
| `Text.TrimPadded` | App.js:19-20 | trimming white-space padding off a trimmed core returns the core |
| `Text.TrimIdempotent` | App.js:19-20 | trimming twice is trimming once |
| `Text.Lower` | App.js:33-35 | `toLowerCase` maps A-Z to a-z position by position and keeps every other character |
| `Registration.BaseUser` | App.js:22-29 | every role's record copies the form's fields, with the id, the two normalised lists, no slots and no bookings |
| `Registration.NewSlot` | App.js:42-61 | the created slot spans exactly the interval the overlap check tested, and carries the slot id, the form's fee and the form's hospital |
| `Registration.FindHospital` | App.js:32 | `find` by exact name: the first hospital of that name, or none |
| `Registration.SomeDepartmentListed` | App.js:33-35 | `departments.some(...)`: true iff some department, lower-cased, is among the lower-cased specializations |
| `Registration.DepartmentsMatch` | App.js:33-35 | the department check passes iff some department equals some specialization ignoring case |
| `Registration.HospitalCheck` | App.js:32-36 | the hospital check passes iff the first hospital of that exact name exists and shares a department with the specializations |
| `Registration.AllDoctors` | App.js:41 | `flatMap` over the hospitals: a record is listed iff some hospital lists it |
| `Registration.AllDoctorsAppend` | App.js:41 | `flatMap` keeps order: the records of earlier hospitals come before those of later ones |
| `Registration.AllDoctorsSnoc` | App.js:41 | no hospitals give no records, and a hospital appended at the end adds exactly its own doctors, in order, after all earlier records; with `AllDoctorsAppend` this fixes the list `find` scans element by element |
| `Registration.FindDoctor` | App.js:41 | `find` by unique id: the first listed doctor record carrying it |
| `Registration.AnyOverlap` | App.js:45-49 | `slots.some(...)` with `newStart < slotEnd && newEnd > slotStart`: true iff some slot meets the new interval |
| `Registration.OverlapCheck` | App.js:41-51 | the slot check fails iff the first doctor record with the unique id has a slot meeting the new interval |
| `Registration.HandleSubmit` | App.js:17-66 | non-doctors are always accepted without slots; a doctor is rejected for hospital/department iff the hospital check fails, and for overlap iff that check passes and the first record clashes; an accepted doctor gets exactly one slot copied from the form; every accepted record copies the form with normalised lists and empty bookings |
| `Registration.Submit` | App.js:17-66 | a rejected submission leaves the roster as it was; an accepted one appends the built record |
| `Registration.UnknownHospitalRejected` | App.js:32-38 | a doctor naming a hospital no admin record carries is rejected and the roster is unchanged |
| `Registration.NewDoctorNeverOverlaps` | App.js:41-51 | a doctor whose unique id is on no earlier doctor record is never rejected for overlap, whatever patient or admin records carry it |
| `Registration.SubmitGrowsByAtMostOne` | App.js:64 | a submission adds at most one record, at the end, and keeps the earlier records |
| `Records.OverlapSymmetric` | App.js:45-49 | whether two slots overlap does not depend on which one is new |
| `Records.SameDayOverlap` | App.js:42-49 | on one day, two slots overlap iff each starts before the other ends |
| `Records.DifferentDaysNeverOverlap` | App.js:42-49 | slots on different days never overlap, whatever their times |
| `Roster.Register` | App.js:123-125 | `handleRegister` puts the new user last and keeps every earlier user in place |
| `Roster.Admins` | App.js:130 | the admin records, each as often as in the roster |
| `Roster.DoctorsAt` | App.js:134 | the doctor records filed under one hospital name, each as often as in the roster |
| `Roster.HospitalOf` | App.js:130-135 | one admin's hospital: the admin's name, location and departments, and a record is among its doctors iff it is a doctor filed under that name |
| `Roster.HospitalView` | App.js:129-135 | one hospital per admin, in roster order, with the admin's name, location and departments and exactly the doctors filed under that name |
| `Roster.HospitalViewNames` | App.js:129-135 | a hospital name is in the view iff some admin record carries it |
| `Roster.RegisterUpdatesView` | App.js:123-135 | registering a user only appends it to the hospitals of its name, if a doctor, and appends a new hospital, if an admin |
| `Roster.RegisterPatientKeepsView` | App.js:123-135 | registering a patient leaves the hospital view unchanged |
| `Ledgers.Add` | App.js:170 | `m[k] = (m[k] \|\| 0) + x` raises `k` by `x`, keeps every other key, raises the total by `x` and keeps keys unique |
| `Ledgers.AddEach` | App.js:172-174 | crediting a list of keys raises each key by `x` once per listing and the total by `x` per listed key |
| `Ledgers.TimesIsProduct` | App.js:169 | the repeated sum used for `count * fee` is the product |
| `Dashboard.PatientCountIsFilterLength` | App.js:165-167 | a slot's count is the length of the filter of patients holding a booking of it |
| `Dashboard.PatientCountAtMostBookings` | App.js:165-167 | the count counts patients, not bookings: it never exceeds the number of bookings of the slot |
| `Dashboard.Fee` | App.js:166 | `parseFloat(slot.fee \|\| 0)`: an empty fee is 0 and a given fee is itself |
| `Dashboard.AddSlot` | App.js:165-174 | one slot adds its patient count to the consultations, count × fee to the revenue, to the doctor's bucket and to the doctor-bucket total, and to each department once per listing |
| `Dashboard.AddSlots` | App.js:164-175 | one doctor's slot loop adds the slots' counts and revenues to the totals, to the doctor's bucket, and to each department once per listing |
| `Dashboard.AddDoctors` | App.js:163-176 | the doctor loop adds each doctor's totals, bucket by doctor name and by department |
| `Dashboard.AdminSummary` | App.js:155-176 | the admin totals are the sums over the doctors filed under the admin's hospital; the doctor buckets add up to the total revenue; each department bucket holds each doctor's revenue once per listing |
| `Dashboard.AddSlotsKeys` | App.js:164-174 | a doctor's slot loop opens the doctor's bucket and one bucket per specialization as soon as the doctor has a slot, even at revenue 0, and no other bucket |
| `Dashboard.AddDoctorsKeys` | App.js:163-176 | the doctor loop opens buckets for exactly the names and the specializations of the doctors with at least one slot |
| `Dashboard.AdminSummaryKeys` | App.js:163-192 | `Object.entries` of the two buckets lists exactly the names, and exactly the specializations, of the hospital's doctors with a slot, booked or not |
| `Dashboard.MissingFeeAddsNoRevenue` | App.js:166-170 | a slot without a fee adds its patients to the consultations and nothing to the revenue |
| `Dashboard.DepartmentsCoverRevenue` | App.js:172-174 | with non-negative fees and one specialization or more per doctor, the department buckets add up to at least the total revenue |
| `Dashboard.PatientBookings` | App.js:200 | the bookings of the patient records: a booking is listed iff some patient holds it |
| `Dashboard.Consultations` | App.js:200 | a booking is a consultation of the doctor iff a patient holds it and it names the doctor's id |
| `Dashboard.PatientBookingsCount` | App.js:200 | the flattened list holds each booking exactly as often as the patient records hold it |
| `Dashboard.ConsultationsCount` | App.js:200-212 | the consultations hold each booking with the doctor exactly as often as patients hold it, and no other booking, so their number is the "Total Consultations" shown |
| `Dashboard.ConsultationsAppend` | App.js:200 | a later patient's consultations follow the earlier patients' consultations |
| `Dashboard.AddBookings` | App.js:204-207 | each booking adds 60% of its amount to the earnings and to its hospital's bucket |
| `Dashboard.DoctorSummary` | App.js:199-207 | the doctor's earnings are 60% of the consultations' amounts; the hospital buckets add up to them and each holds 60% of that hospital's amounts |
| `Dashboard.AddBookingsKeys` | App.js:204-207 | each consultation opens the bucket of its hospital, and no other bucket is opened |
| `Dashboard.DoctorSummaryKeys` | App.js:200-219 | `Object.entries(earningsByHospital)` lists exactly the hospitals of the doctor's consultations |
| `Dashboard.SelectDashboard` | App.js:151-237 | "no user" iff no record has the id; otherwise the first such record is shown by role, and a patient sees their bookings as stored |
| `SlotFinding.AnyRecordClashes` | App.js:41-51 | the corrected slot check: true iff some record of the unique id has a meeting slot |
| `SlotFinding.SubmitChecked` | App.js:41-64 | the corrected submission: a rejection leaves the roster as it was, an acceptance appends the built record |
| `SlotFinding.HandleSubmitAllRecords` | App.js:17-66 | the corrected submission rejects what the original rejects, and also rejects any slot meeting a slot of any record of the doctor |
| `SlotFinding.SubmitCheckedKeepsConsistent` | App.js:41-66 | with the corrected check, no two records of one doctor ever hold meeting slots |
| `SlotExample.FirstRecordOnly` | App.js:41-51 | for any roster `[a, d, e]` of an admin and two records `d`, `e` of one doctor under the admin's hospital, and a form for that doctor that passes the hospital and department check: as written, a slot that clears `d`'s slots but meets `e`'s first slot is accepted, and the roster then holds two meeting slots of that doctor |
| `SlotExample.AsWrittenAcceptsOverlap` | App.js:41-66 | on a concrete consistent roster, the original accepts an overlapping slot and the corrected check rejects it |
| `Scenarios.TwoFieldList` | App.js:19-20 | two trimmed names joined by a comma and a space normalise back to the two names |
| `Scenarios.CommaSpaceList` | App.js:19-20 | `"Cardiology, Neurology"` normalises to `["Cardiology", "Neurology"]` |
| `Scenarios.CaseInsensitiveDepartment` | App.js:33-35 | "cardiology" matches a hospital listing "Cardiology" and "Neurology" |
| `Scenarios.HalfOpenSlots` | App.js:45-49 | 09:30-10:30 meets 09:00-10:00; 10:00-11:00 does not |
| `Scenarios.DoctorEarnsSixtyPercent` | App.js:199-207 | two bookings of 100 at "H" earn the doctor 120, all at "H" |
| `Scenarios.DepartmentsDoubleCount` | App.js:163-176 | one booked slot of fee 100 for a doctor with two specializations gives revenue 100 and department buckets totalling 200 |

## Left out

- Rendering, `useState`, `alert` messages and styling. A rejection is an error value; the two alerts are `InvalidHospitalOrDepartment` and `SlotOverlap`.
- Error kinds: the form reports an unknown hospital and a department mismatch with one message, so the model has one error for both, not two.
- Clock-derived ids (`Date.now()` for the user id and for `<time>-slot`). These ids are parameters.
- Date and time parsing with `new Date(...)`:
  - slot times are already-parsed day numbers and minutes of the day;
  - local time, daylight-saving shifts and invalid dates (whose comparisons are all false) are not modelled.
- `parseFloat` of the fee and `parseInt` of the dashboard input:
  - the fee is `None` for an empty field (counted as 0) or a number;
  - the dashboard takes the parsed integer id;
  - NaN and non-numeric input are not modelled.
- Floating-point rounding and `toFixed(2)`: money is exact `real`.
- `Text.Lower`: maps only A-Z. `toLowerCase` also folds non-ASCII letters, and that folding is not modelled.
- `Ledgers.Add`: keys stay in first-insertion order. JavaScript lists integer-like object keys first, in numeric order, and that listing order is not modelled.
- `Ledgers.Add`: a ledger starts with no keys, but the buckets are plain `{}` objects that inherit `Object.prototype`. A doctor, department or hospital named after an inherited property (`"constructor"`, `"toString"`, ...) reads that property in `m[k] || 0` and ends up with a string bucket, and `"__proto__"` gets no entry at all. For such names the buckets no longer add up to the totals, and those names are not modelled: `AdminSummary` and `DoctorSummary` promise their sums only for the plain map.
- The form fields that the spread copies onto every user record but no logic reads (`consultation_fee`, `slot_date`, `start_time`, `end_time`): `User` keeps only the fields the logic reads or the form normalises.
- Roles outside the select's three values, and the `return null` for them: `Role` has exactly three values.
- Booking creation: nothing in the page creates bookings; they are only read.

## Findings

| source | as written | input that shows it | evidently intended | confidence | as-written member | corrected member |
|---|---|---|---|---|---|---|
| App.js:41-51 | the new slot is checked only against the slots of the first doctor record with the same unique id, but each new registration of a doctor adds a new record with its own slot | an admin of "H" with department "C"; doctor "D" registered twice under "H", holding 09:00-10:00 and then 11:00-12:00 on one day; "D" registers again for 11:30-12:30 that day and is accepted | reject a slot that meets any existing slot of the doctor, keeping every doctor's slots pairwise disjoint | medium, not executed | `SlotExample.AsWrittenAcceptsOverlap` | `SlotFinding.SubmitCheckedKeepsConsistent` |
