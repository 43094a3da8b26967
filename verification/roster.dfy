/** The roster of registered users (`App`'s `users` state) and the hospital
    view derived from it for the registration form: one hospital per admin
    record, carrying the doctors registered under that hospital's name. */
module Roster {
  import opened Records
  import Seqs

  predicate IsAdmin(u: User)
  {
    u.role == Admin
  }

  /** Is `u` a doctor registered under hospital `name`? */
  function DoctorAt(name: string): User -> bool
  {
    (u: User) => u.role == Doctor && u.hospital == name
  }

  /** `handleRegister`: the new user joins the end of the roster and every
      earlier record stays as it was. */
  function Register(users: seq<User>, u: User): (r: seq<User>)
    ensures |r| == |users| + 1
    ensures r[..|users|] == users
    ensures r[|users|] == u
  {
    users + [u]
  }

  /** The admin records, in roster order. */
  function Admins(users: seq<User>): (r: seq<User>)
    ensures forall u :: u in r <==> u in users && u.role == Admin
    ensures forall u :: multiset(r)[u] == if u.role == Admin then multiset(users)[u] else 0
  {
    Seqs.Filter(users, IsAdmin)
  }

  /** The doctors of hospital `name`, in roster order. */
  function DoctorsAt(users: seq<User>, name: string): (r: seq<User>)
    ensures forall u :: u in r <==> u in users && u.role == Doctor && u.hospital == name
    ensures forall u :: multiset(r)[u] == if u.role == Doctor && u.hospital == name then multiset(users)[u] else 0
  {
    Seqs.Filter(users, DoctorAt(name))
  }

  /** The hospital an admin record stands for: the admin's name, location
      and departments, with the doctors registered under that name. */
  function HospitalOf(users: seq<User>, admin: User): (r: Hospital)
    ensures r.name == admin.hospital && r.location == admin.location && r.departments == admin.departments
    ensures forall u :: u in r.doctors <==> u in users && u.role == Doctor && u.hospital == admin.hospital
  {
    Hospital(admin.hospital, admin.location, admin.departments, DoctorsAt(users, admin.hospital))
  }

  /** The `hospitals` property handed to the registration form: one entry
      per admin, in roster order, each with the admin's hospital name,
      location and departments and exactly the doctors registered under that
      name. */
  function HospitalView(users: seq<User>): (r: seq<Hospital>)
    ensures |r| == |Admins(users)|
    ensures forall i :: 0 <= i < |r| ==>
      && r[i].name == Admins(users)[i].hospital
      && r[i].location == Admins(users)[i].location
      && r[i].departments == Admins(users)[i].departments
    ensures forall i, u :: 0 <= i < |r| ==>
      (u in r[i].doctors <==> u in users && u.role == Doctor && u.hospital == r[i].name)
  {
    var admins := Admins(users);
    seq(|admins|, i requires 0 <= i < |admins| => HospitalOf(users, admins[i]))
  }

  /** A hospital name appears in the view exactly when some admin record
      carries it. */
  lemma HospitalViewNames(users: seq<User>, name: string)
    ensures (exists i :: 0 <= i < |HospitalView(users)| && HospitalView(users)[i].name == name)
        <==> (exists j :: 0 <= j < |users| && users[j].role == Admin && users[j].hospital == name)
  {
    var view := HospitalView(users);
    var admins := Admins(users);
    if j :| 0 <= j < |users| && users[j].role == Admin && users[j].hospital == name {
      assert users[j] in admins;
      var i :| 0 <= i < |admins| && admins[i] == users[j];
      assert view[i].name == name;
    }
    if i :| 0 <= i < |view| && view[i].name == name {
      assert admins[i] in admins;
      var j :| 0 <= j < |users| && users[j] == admins[i];
      assert users[j].hospital == name;
    }
  }

  /** Registering a user changes the hospital view only by (a) appending
      the doctor to every hospital of the doctor's name and (b) appending a
      new hospital when the user is an admin. */
  lemma {:induction false} RegisterUpdatesView(users: seq<User>, u: User)
    ensures |HospitalView(Register(users, u))| == |HospitalView(users)| + (if u.role == Admin then 1 else 0)
    ensures forall i :: 0 <= i < |HospitalView(users)| ==>
      var h := HospitalView(users)[i];
      HospitalView(Register(users, u))[i] == h.(doctors := h.doctors + (if DoctorAt(h.name)(u) then [u] else []))
    ensures u.role == Admin ==>
      HospitalView(Register(users, u))[|HospitalView(users)|] == HospitalOf(Register(users, u), u)
  {
    var users' := Register(users, u);
    var admins := Admins(users);
    var view := HospitalView(users);
    var view' := HospitalView(users');
    Seqs.FilterAppend(users, [u], IsAdmin);
    Seqs.FilterSingle(u, IsAdmin);
    assert Admins(users') == admins + (if u.role == Admin then [u] else []);
    forall i | 0 <= i < |view|
      ensures view'[i] == view[i].(doctors := view[i].doctors + (if DoctorAt(view[i].name)(u) then [u] else []))
    {
      var a := admins[i];
      assert view[i] == HospitalOf(users, a);
      assert Admins(users')[i] == a;
      assert view'[i] == HospitalOf(users', a);
      Seqs.FilterAppend(users, [u], DoctorAt(a.hospital));
      Seqs.FilterSingle(u, DoctorAt(a.hospital));
    }
  }

  /** Registering a patient leaves the hospital view as it was. */
  lemma RegisterPatientKeepsView(users: seq<User>, u: User)
    requires u.role == Patient
    ensures HospitalView(Register(users, u)) == HospitalView(users)
  {
    RegisterUpdatesView(users, u);
    NoDoctorAdded(HospitalView(users), HospitalView(Register(users, u)), u);
  }

  /** A view whose every entry gained `u` only if `u` is a doctor of that
      hospital is unchanged when `u` is a patient. */
  lemma NoDoctorAdded(view: seq<Hospital>, view': seq<Hospital>, u: User)
    requires u.role == Patient && |view'| == |view|
    requires forall i :: 0 <= i < |view| ==>
      view'[i] == view[i].(doctors := view[i].doctors + (if DoctorAt(view[i].name)(u) then [u] else []))
    ensures view' == view
  {
    forall i | 0 <= i < |view|
      ensures view'[i] == view[i]
    {
      assert view[i].doctors + [] == view[i].doctors;
    }
  }
}
