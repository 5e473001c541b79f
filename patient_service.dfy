/** The patient profile service: the caller's partial profile update and lookup by id. */
module PatientService {
  import opened Common
  import opened Store

  /** The fields of the patient update request the service reads. */
  datatype PatientUpdate = PatientUpdate(
    firstName: Option<string>,
    lastName: Option<string>,
    phone: Option<string>,
    dateOfBirth: Option<int>,
    knownAllergies: Option<string>,
    bloodGroup: Option<string>,
    genotype: Option<string>)

  /** The profile the update leaves behind: the text fields are replaced only by a value
      with text, date of birth, blood group and genotype only by a present value. */
  function MergePatient(p: Patient, u: PatientUpdate): Patient {
    p.(firstName := if HasText(u.firstName) then u.firstName else p.firstName,
       lastName := if HasText(u.lastName) then u.lastName else p.lastName,
       phone := if HasText(u.phone) then u.phone else p.phone,
       dateOfBirth := if u.dateOfBirth.Some? then u.dateOfBirth else p.dateOfBirth,
       knownAllergies := if HasText(u.knownAllergies) then u.knownAllergies else p.knownAllergies,
       bloodGroup := if u.bloodGroup.Some? then u.bloodGroup else p.bloodGroup,
       genotype := if u.genotype.Some? then u.genotype else p.genotype)
  }

  /** A text field changes only to a supplied value with text, the other fields only to
      a present supplied value; the id and the user link never change. */
  lemma MergePatientFields(p: Patient, u: PatientUpdate)
    ensures var m := MergePatient(p, u);
      && m.id == p.id && m.userId == p.userId
      && (HasText(u.firstName) ==> m.firstName == u.firstName) && (!HasText(u.firstName) ==> m.firstName == p.firstName)
      && (HasText(u.lastName) ==> m.lastName == u.lastName) && (!HasText(u.lastName) ==> m.lastName == p.lastName)
      && (HasText(u.phone) ==> m.phone == u.phone) && (!HasText(u.phone) ==> m.phone == p.phone)
      && (HasText(u.knownAllergies) ==> m.knownAllergies == u.knownAllergies)
      && (!HasText(u.knownAllergies) ==> m.knownAllergies == p.knownAllergies)
      && (u.dateOfBirth.Some? ==> m.dateOfBirth == u.dateOfBirth) && (u.dateOfBirth.None? ==> m.dateOfBirth == p.dateOfBirth)
      && (u.bloodGroup.Some? ==> m.bloodGroup == u.bloodGroup) && (u.bloodGroup.None? ==> m.bloodGroup == p.bloodGroup)
      && (u.genotype.Some? ==> m.genotype == u.genotype) && (u.genotype.None? ==> m.genotype == p.genotype)
  {
  }

  /** Applying the same update twice gives the profile that applying it once gives. */
  lemma MergePatientIdempotent(p: Patient, u: PatientUpdate)
    ensures MergePatient(MergePatient(p, u), u) == MergePatient(p, u)
  {
  }

  /** A later update's present or texted fields win over an earlier one's: two updates
      in a row act like one whose each field is the later value when it counts, else
      the earlier. */
  lemma MergePatientTwice(p: Patient, u1: PatientUpdate, u2: PatientUpdate)
    ensures var later := (o1: Option<string>, o2: Option<string>) => if HasText(o2) then o2 else o1;
      MergePatient(MergePatient(p, u1), u2) == MergePatient(p, PatientUpdate(
        later(u1.firstName, u2.firstName),
        later(u1.lastName, u2.lastName),
        later(u1.phone, u2.phone),
        if u2.dateOfBirth.Some? then u2.dateOfBirth else u1.dateOfBirth,
        later(u1.knownAllergies, u2.knownAllergies),
        if u2.bloodGroup.Some? then u2.bloodGroup else u1.bloodGroup,
        if u2.genotype.Some? then u2.genotype else u1.genotype))
  {
  }

  /** The setters of updatePatientProfile, applied one after another to the loaded
      profile. */
  method ApplyPatientUpdate(p: Patient, u: PatientUpdate) returns (patient: Patient)
    ensures patient == MergePatient(p, u)
  {
    patient := p;
    if HasText(u.firstName) {
      patient := patient.(firstName := u.firstName);
    }
    if HasText(u.lastName) {
      patient := patient.(lastName := u.lastName);
    }
    if HasText(u.phone) {
      patient := patient.(phone := u.phone);
    }
    if u.dateOfBirth.Some? {
      patient := patient.(dateOfBirth := u.dateOfBirth);
    }
    if HasText(u.knownAllergies) {
      patient := patient.(knownAllergies := u.knownAllergies);
    }
    if u.bloodGroup.Some? {
      patient := patient.(bloodGroup := u.bloodGroup);
    }
    if u.genotype.Some? {
      patient := patient.(genotype := u.genotype);
    }
  }

  /** updatePatientProfile. NotFound when the caller is unknown or has no patient
      profile; otherwise the caller's (first) patient profile is replaced by its merge
      with the request and no other profile changes. */
  method UpdatePatientProfile(db: Database, auth: Option<string>, u: PatientUpdate) returns (r: Result<()>)
    requires db.Valid()
    modifies db`patients
    ensures db.Valid()
    ensures r.Err? ==> r.error == NotFound && db.patients == old(db.patients)
    ensures r.Ok? <==> CurrentUser(db.users, auth).Ok? && PatientOfUser(old(db.patients), CurrentUser(db.users, auth).value.id).Some?
    ensures r.Ok? ==>
      var k := PatientOfUser(old(db.patients), CurrentUser(db.users, auth).value.id).value;
      db.patients == old(db.patients)[k := MergePatient(old(db.patients)[k], u)]
  {
    var user :- CurrentUser(db.users, auth);
    var k := PatientOfUser(db.patients, user.id);
    if k.None? {
      return Err(NotFound);
    }
    var patient := ApplyPatientUpdate(db.patients[k.value], u);
    db.patients := db.patients[k.value := patient];
    r := Ok(());
  }

  /** getPatientById: the patient with that id, NotFound when there is none. No caller
      identity is needed. */
  method GetPatientById(db: Database, patientId: nat) returns (r: Result<Patient>)
    requires db.Valid()
    ensures r.Err? ==> r.error == NotFound
    ensures r.Ok? <==> exists i :: 0 <= i < |db.patients| && db.patients[i].id == patientId
    ensures r.Ok? ==> r.value in db.patients && r.value.id == patientId
  {
    var k := PatientWithId(db.patients, patientId);
    if k.None? {
      return Err(NotFound);
    }
    r := Ok(db.patients[k.value]);
  }
}
