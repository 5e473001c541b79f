/** The doctor profile service: the caller's partial profile update, lookup by id and
    the search by specialization. */
module DoctorService {
  import opened Common
  import opened Store

  /** The fields of the doctor update request the service reads. */
  datatype DoctorUpdate = DoctorUpdate(
    firstName: Option<string>,
    lastName: Option<string>,
    specialization: Option<string>)

  /** The profile the update leaves behind: each name is replaced only by a value with
      text, the specialization only by a present value. */
  function MergeDoctor(d: Doctor, u: DoctorUpdate): Doctor {
    d.(firstName := if HasText(u.firstName) then u.firstName else d.firstName,
       lastName := if HasText(u.lastName) then u.lastName else d.lastName,
       specialization := if u.specialization.Some? then u.specialization else d.specialization)
  }

  /** A field changes only to the supplied value, and only when that value has text (the
      names) or is present (the specialization); the id, the user link and the licence
      number never change. */
  lemma MergeDoctorFields(d: Doctor, u: DoctorUpdate)
    ensures var m := MergeDoctor(d, u);
      && m.id == d.id && m.userId == d.userId && m.licenseNumber == d.licenseNumber
      && (HasText(u.firstName) ==> m.firstName == u.firstName)
      && (!HasText(u.firstName) ==> m.firstName == d.firstName)
      && (HasText(u.lastName) ==> m.lastName == u.lastName)
      && (!HasText(u.lastName) ==> m.lastName == d.lastName)
      && (u.specialization.Some? ==> m.specialization == u.specialization)
      && (u.specialization.None? ==> m.specialization == d.specialization)
  {
  }

  /** Applying the same update twice gives the profile that applying it once gives. */
  lemma MergeDoctorIdempotent(d: Doctor, u: DoctorUpdate)
    ensures MergeDoctor(MergeDoctor(d, u), u) == MergeDoctor(d, u)
  {
  }

  /** An update whose names are blank or missing and whose specialization is missing
      leaves the profile as it was. */
  lemma EmptyDoctorUpdateKeepsProfile(d: Doctor, u: DoctorUpdate)
    requires !HasText(u.firstName) && !HasText(u.lastName) && u.specialization.None?
    ensures MergeDoctor(d, u) == d
  {
  }

  /** The setters of updateDoctorProfile, applied one after another to the loaded
      profile. */
  method ApplyDoctorUpdate(d: Doctor, u: DoctorUpdate) returns (doctor: Doctor)
    ensures doctor == MergeDoctor(d, u)
  {
    doctor := d;
    if HasText(u.firstName) {
      doctor := doctor.(firstName := u.firstName);
    }
    if HasText(u.lastName) {
      doctor := doctor.(lastName := u.lastName);
    }
    if u.specialization.Some? {
      doctor := doctor.(specialization := u.specialization);
    }
  }

  /** updateDoctorProfile. NotFound when the caller is unknown or has no doctor profile;
      otherwise the caller's (first) doctor profile is replaced by its merge with the
      request and no other profile changes. */
  method UpdateDoctorProfile(db: Database, auth: Option<string>, u: DoctorUpdate) returns (r: Result<()>)
    requires db.Valid()
    modifies db`doctors
    ensures db.Valid()
    ensures r.Err? ==> r.error == NotFound && db.doctors == old(db.doctors)
    ensures r.Ok? <==> CurrentUser(db.users, auth).Ok? && DoctorOfUser(old(db.doctors), CurrentUser(db.users, auth).value.id).Some?
    ensures r.Ok? ==>
      var k := DoctorOfUser(old(db.doctors), CurrentUser(db.users, auth).value.id).value;
      db.doctors == old(db.doctors)[k := MergeDoctor(old(db.doctors)[k], u)]
  {
    var user :- CurrentUser(db.users, auth);
    var k := DoctorOfUser(db.doctors, user.id);
    if k.None? {
      return Err(NotFound);
    }
    var doctor := ApplyDoctorUpdate(db.doctors[k.value], u);
    db.doctors := db.doctors[k.value := doctor];
    r := Ok(());
  }

  /** getDoctorById: the doctor with that id, NotFound when there is none. No caller
      identity is needed. */
  method GetDoctorById(db: Database, doctorId: nat) returns (r: Result<Doctor>)
    requires db.Valid()
    ensures r.Err? ==> r.error == NotFound
    ensures r.Ok? <==> exists i :: 0 <= i < |db.doctors| && db.doctors[i].id == doctorId
    ensures r.Ok? ==> r.value in db.doctors && r.value.id == doctorId
  {
    var k := DoctorWithId(db.doctors, doctorId);
    if k.None? {
      return Err(NotFound);
    }
    r := Ok(db.doctors[k.value]);
  }

  /** DoctorRepo.findBySpecialization: the doctors with that specialization, in table order. */
  function FindBySpecialization(doctors: seq<Doctor>, specialization: string): (r: seq<Doctor>)
    ensures forall d :: multiset(r)[d] == if d.specialization == Some(specialization) then multiset(doctors)[d] else 0
  {
    if |doctors| == 0 then []
    else
      assert doctors == [doctors[0]] + doctors[1..];
      (if doctors[0].specialization == Some(specialization) then [doctors[0]] else [])
      + FindBySpecialization(doctors[1..], specialization)
  }

  /** Exactly the doctors with the specialization: every one is a table row with it,
      and every table row with it is there. */
  lemma {:induction false} FindBySpecializationMembers(doctors: seq<Doctor>, specialization: string)
    ensures forall d :: d in FindBySpecialization(doctors, specialization) <==> d in doctors && d.specialization == Some(specialization)
  {
    var r := FindBySpecialization(doctors, specialization);
    forall d ensures d in r <==> d in doctors && d.specialization == Some(specialization) {
      assert d in r <==> multiset(r)[d] > 0;
      assert d in doctors <==> multiset(doctors)[d] > 0;
    }
  }

  const NoDoctorsPrefix: string := "No doctors found for specialization: "
  const DoctorsFoundPrefix: string := "Doctors retrieved successfully for specialization: "

  /** searchDoctorsBySpecialization: the matching doctors, and a message naming the
      specialization whose prefix says only whether the list is empty. */
  method SearchDoctorsBySpecialization(db: Database, specialization: string)
    returns (found: seq<Doctor>, message: string)
    ensures found == FindBySpecialization(db.doctors, specialization)
    ensures message == (if |found| == 0 then NoDoctorsPrefix else DoctorsFoundPrefix) + specialization
  {
    found := FindBySpecialization(db.doctors, specialization);
    message := (if |found| == 0 then NoDoctorsPrefix else DoctorsFoundPrefix) + specialization;
  }
}
