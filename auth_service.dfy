/** Account rules: registration (role resolution and profile creation), the checks of
    login, and the password-reset code life cycle. Password hashing is the pair of
    functions `encode` and `matches` supplied by the caller. */
module AuthService {
  import opened Common
  import opened Store

  /** The fields of the registration request the service reads. */
  datatype RegistrationRequest = RegistrationRequest(
    name: string,
    specialization: Option<string>,
    licenseNumber: Option<string>,
    email: string,
    roles: Option<seq<string>>,
    password: string)

  predicate EmailTaken(users: seq<User>, email: string) {
    exists i :: 0 <= i < |users| && users[i].email == email
  }

  /** The requested role names, upper-cased; exactly ["PATIENT"] when the list is
      missing or empty. */
  function RequestedRoleNames(roles: Option<seq<string>>): (r: seq<string>)
    ensures roles.None? || roles.value == [] ==> r == [PatientRole]
    ensures roles.Some? && roles.value != [] ==>
      |r| == |roles.value| && forall i :: 0 <= i < |r| ==> r[i] == ToUpper(roles.value[i])
    ensures |r| > 0 && forall n :: n in r ==> ToUpper(n) == n
  {
    if roles.Some? && roles.value != [] then
      var names := seq(|roles.value|, i requires 0 <= i < |roles.value| => ToUpper(roles.value[i]));
      assert forall n :: n in names ==> ToUpper(n) == n by {
        forall n | n in names ensures ToUpper(n) == n {
          var i :| 0 <= i < |names| && names[i] == n;
          ToUpperIdempotent(roles.value[i]);
        }
      }
      names
    else [PatientRole]
  }

  /** A doctor registration needs a licence number that is non-null and not blank. */
  predicate MissingLicence(names: seq<string>, licenseNumber: Option<string>) {
    DoctorRole in names && !HasText(licenseNumber)
  }

  /** The names found in the role table, in request order; the others are dropped. */
  function ResolveRoles(names: seq<string>, roleTable: set<string>): (r: seq<string>)
    ensures forall n :: multiset(r)[n] == if n in roleTable then multiset(names)[n] else 0
    ensures forall n :: n in r <==> n in names && n in roleTable
    ensures r == [] <==> forall n :: n in names ==> n !in roleTable
    ensures |r| <= |names|
  {
    if |names| == 0 then []
    else
      var head := if names[0] in roleTable then [names[0]] else [];
      var rest := ResolveRoles(names[1..], roleTable);
      assert names == [names[0]] + names[1..];
      assert multiset(head + rest) == multiset(head) + multiset(rest);
      head + rest
  }

  /** One unfolding of ResolveRoles on a list with a known head. */
  lemma ResolveRolesCons(name: string, rest: seq<string>, roleTable: set<string>)
    ensures ResolveRoles([name] + rest, roleTable) == (if name in roleTable then [name] else []) + ResolveRoles(rest, roleTable)
  {
    assert ([name] + rest)[0] == name && ([name] + rest)[1..] == rest;
  }

  /** Concatenation is associative; stated over any element type so that the proof
      does not compare the strings element by element. */
  lemma ConcatAssociative<T>(x: seq<T>, y: seq<T>, z: seq<T>)
    ensures x + (y + z) == (x + y) + z
  {
  }

  /** Resolution keeps request order: resolving two lists one after the other is
      resolving their concatenation. */
  lemma {:induction false} ResolveRolesInOrder(names: seq<string>, more: seq<string>, roleTable: set<string>)
    ensures ResolveRoles(names + more, roleTable) == ResolveRoles(names, roleTable) + ResolveRoles(more, roleTable)
  {
    if |names| == 0 {
      assert names + more == more;
    } else {
      var name, tail := names[0], names[1..];
      var head := if name in roleTable then [name] else [];
      assert names == [name] + tail;
      ConcatAssociative([name], tail, more);
      ResolveRolesCons(name, tail, roleTable);
      ResolveRolesCons(name, tail + more, roleTable);
      ResolveRolesInOrder(tail, more, roleTable);
      var a, b := ResolveRoles(tail, roleTable), ResolveRoles(more, roleTable);
      ConcatAssociative(head, a, b);
    }
  }

  /** A single name resolves to itself when it is in the role table, to nothing
      otherwise; with ResolveRolesInOrder this fixes the resolved list entirely. */
  lemma ResolveOneRole(name: string, roleTable: set<string>)
    ensures ResolveRoles([name], roleTable) == if name in roleTable then [name] else []
  {
    assert [name][1..] == [];
  }

  function BlankPatient(id: nat, userId: nat): Patient {
    Patient(id, userId, None, None, None, None, None, None, None)
  }

  /** The PATIENT case of the profile switch: a blank profile of the user, numbered
      next in the table. */
  function WithPatientProfile(patients: seq<Patient>, role: string, userId: nat): seq<Patient> {
    if role == PatientRole then patients + [BlankPatient(|patients| + 1, userId)] else patients
  }

  /** The DOCTOR case of the profile switch: a profile of the user carrying the
      request's specialization and licence, numbered next in the table. */
  function WithDoctorProfile(doctors: seq<Doctor>, role: string, userId: nat,
                             specialization: Option<string>, licenseNumber: Option<string>): seq<Doctor> {
    if role == DoctorRole then doctors + [Doctor(|doctors| + 1, userId, None, None, specialization, licenseNumber)] else doctors
  }

  /** The patient table once the profile loop has handled the first `n` roles. */
  function PatientsAfter(patients: seq<Patient>, roles: seq<string>, n: nat, userId: nat): seq<Patient>
    requires n <= |roles|
  {
    if n == 0 then patients
    else WithPatientProfile(PatientsAfter(patients, roles, n - 1, userId), roles[n - 1], userId)
  }

  /** The doctor table once the profile loop has handled the first `n` roles. */
  function DoctorsAfter(doctors: seq<Doctor>, roles: seq<string>, n: nat, userId: nat,
                        specialization: Option<string>, licenseNumber: Option<string>): seq<Doctor>
    requires n <= |roles|
  {
    if n == 0 then doctors
    else WithDoctorProfile(DoctorsAfter(doctors, roles, n - 1, userId, specialization, licenseNumber), roles[n - 1], userId,
                           specialization, licenseNumber)
  }

  /** After the first `n` roles the existing patient rows are kept and one blank
      profile of the user per PATIENT among them follows, each numbered by position. */
  lemma {:induction false} PatientsAfterShape(patients: seq<Patient>, roles: seq<string>, n: nat, userId: nat)
    requires n <= |roles|
    ensures var ps := PatientsAfter(patients, roles, n, userId);
      && |ps| == |patients| + multiset(roles[..n])[PatientRole]
      && ps[..|patients|] == patients
      && forall j :: |patients| <= j < |ps| ==> ps[j] == BlankPatient(j + 1, userId)
  {
    if n > 0 {
      assert roles[..n] == roles[..n - 1] + [roles[n - 1]];
      PatientsAfterShape(patients, roles, n - 1, userId);
      var before := PatientsAfter(patients, roles, n - 1, userId);
      assert (before + [BlankPatient(|before| + 1, userId)])[..|patients|] == before[..|patients|];
    }
  }

  /** After the first `n` roles the existing doctor rows are kept and one profile of
      the user per DOCTOR among them follows, each numbered by position. */
  lemma {:induction false} DoctorsAfterShape(doctors: seq<Doctor>, roles: seq<string>, n: nat, userId: nat,
                                             specialization: Option<string>, licenseNumber: Option<string>)
    requires n <= |roles|
    ensures var ds := DoctorsAfter(doctors, roles, n, userId, specialization, licenseNumber);
      && |ds| == |doctors| + multiset(roles[..n])[DoctorRole]
      && ds[..|doctors|] == doctors
      && forall j :: |doctors| <= j < |ds| ==> ds[j] == Doctor(j + 1, userId, None, None, specialization, licenseNumber)
  {
    if n > 0 {
      assert roles[..n] == roles[..n - 1] + [roles[n - 1]];
      DoctorsAfterShape(doctors, roles, n - 1, userId, specialization, licenseNumber);
      var before := DoctorsAfter(doctors, roles, n - 1, userId, specialization, licenseNumber);
      assert (before + [Doctor(|before| + 1, userId, None, None, specialization, licenseNumber)])[..|doctors|] == before[..|doctors|];
    }
  }

  /** Registration keeps every existing patient profile and appends one blank profile
      of the new user per PATIENT entry, each numbered by its position. */
  lemma NewPatientsShape(patients: seq<Patient>, roles: seq<string>, userId: nat)
    ensures var ps := PatientsAfter(patients, roles, |roles|, userId);
      && |ps| == |patients| + multiset(roles)[PatientRole]
      && ps[..|patients|] == patients
      && forall j :: |patients| <= j < |ps| ==> ps[j] == BlankPatient(j + 1, userId)
  {
    PatientsAfterShape(patients, roles, |roles|, userId);
    assert roles[..|roles|] == roles;
  }

  /** Registration keeps every existing doctor profile and appends one profile of the
      new user per DOCTOR entry, carrying the request's specialization and licence,
      each numbered by its position. */
  lemma NewDoctorsShape(doctors: seq<Doctor>, roles: seq<string>, userId: nat,
                        specialization: Option<string>, licenseNumber: Option<string>)
    ensures var ds := DoctorsAfter(doctors, roles, |roles|, userId, specialization, licenseNumber);
      && |ds| == |doctors| + multiset(roles)[DoctorRole]
      && ds[..|doctors|] == doctors
      && forall j :: |doctors| <= j < |ds| ==> ds[j] == Doctor(j + 1, userId, None, None, specialization, licenseNumber)
  {
    DoctorsAfterShape(doctors, roles, |roles|, userId, specialization, licenseNumber);
    assert roles[..|roles|] == roles;
  }

  /** ADMIN and every role other than PATIENT and DOCTOR create no profile. */
  lemma ProfilesOnlyForPatientAndDoctor(patients: seq<Patient>, doctors: seq<Doctor>, roles: seq<string>, userId: nat,
                                        specialization: Option<string>, licenseNumber: Option<string>)
    requires PatientRole !in roles && DoctorRole !in roles
    ensures PatientsAfter(patients, roles, |roles|, userId) == patients
    ensures DoctorsAfter(doctors, roles, |roles|, userId, specialization, licenseNumber) == doctors
  {
    NewPatientsShape(patients, roles, userId);
    NewDoctorsShape(doctors, roles, userId, specialization, licenseNumber);
    var ps := PatientsAfter(patients, roles, |roles|, userId);
    var ds := DoctorsAfter(doctors, roles, |roles|, userId, specialization, licenseNumber);
    assert ps == ps[..|patients|];
    assert ds == ds[..|doctors|];
  }

  /** The created profiles continue the id numbering of both profile tables. */
  lemma AppendKeepsNumbered(patients: seq<Patient>, doctors: seq<Doctor>, roles: seq<string>, userId: nat,
                            specialization: Option<string>, licenseNumber: Option<string>)
    requires Numbered(patients, (p: Patient) => p.id) && Numbered(doctors, (d: Doctor) => d.id)
    ensures Numbered(PatientsAfter(patients, roles, |roles|, userId), (p: Patient) => p.id)
    ensures Numbered(DoctorsAfter(doctors, roles, |roles|, userId, specialization, licenseNumber), (d: Doctor) => d.id)
  {
    NewPatientsShape(patients, roles, userId);
    NewDoctorsShape(doctors, roles, userId, specialization, licenseNumber);
    var ps := PatientsAfter(patients, roles, |roles|, userId);
    var ds := DoctorsAfter(doctors, roles, |roles|, userId, specialization, licenseNumber);
    forall j | 0 <= j < |patients| ensures ps[j] == patients[j] {
      assert ps[..|patients|][j] == ps[j];
    }
    forall j | 0 <= j < |doctors| ensures ds[j] == doctors[j] {
      assert ds[..|doctors|][j] == ds[j];
    }
  }

  /** The switch in the profile loop: PATIENT saves a blank patient profile, DOCTOR a
      doctor profile, ADMIN and any other role nothing. */
  method CreateProfileFor(db: Database, role: string, userId: nat, specialization: Option<string>, licenseNumber: Option<string>)
    modifies db`patients, db`doctors
    ensures db.patients == WithPatientProfile(old(db.patients), role, userId)
    ensures db.doctors == WithDoctorProfile(old(db.doctors), role, userId, specialization, licenseNumber)
  {
    assert |PatientRole| != |DoctorRole|;
    if role == PatientRole {
      db.patients := db.patients + [BlankPatient(|db.patients| + 1, userId)];
    } else if role == DoctorRole {
      db.doctors := db.doctors + [Doctor(|db.doctors| + 1, userId, None, None, specialization, licenseNumber)];
    }
  }

  /** The profile-creation loop of register: a patient profile for each PATIENT entry, a
      doctor profile for each DOCTOR entry, nothing for ADMIN or any other role. */
  method CreateProfiles(db: Database, roles: seq<string>, userId: nat, specialization: Option<string>, licenseNumber: Option<string>)
    modifies db`patients, db`doctors
    ensures db.patients == PatientsAfter(old(db.patients), roles, |roles|, userId)
    ensures db.doctors == DoctorsAfter(old(db.doctors), roles, |roles|, userId, specialization, licenseNumber)
  {
    ghost var patients0, doctors0 := db.patients, db.doctors;
    var i := 0;
    while i < |roles|
      invariant 0 <= i <= |roles|
      invariant db.patients == PatientsAfter(patients0, roles, i, userId)
      invariant db.doctors == DoctorsAfter(doctors0, roles, i, userId, specialization, licenseNumber)
    {
      CreateProfileFor(db, roles[i], userId, specialization, licenseNumber);
      i := i + 1;
    }
  }

  /** The saving half of register: the new user, numbered next, with a fresh e-mail,
      is appended together with its profiles. */
  method SaveAccount(db: Database, user: User, specialization: Option<string>, licenseNumber: Option<string>)
    requires db.Valid()
    requires user.id == |db.users| + 1 && !EmailTaken(db.users, user.email)
    modifies db`users, db`patients, db`doctors
    ensures db.Valid()
    ensures db.users == old(db.users) + [user]
    ensures db.patients == PatientsAfter(old(db.patients), user.roles, |user.roles|, user.id)
    ensures db.doctors == DoctorsAfter(old(db.doctors), user.roles, |user.roles|, user.id, specialization, licenseNumber)
  {
    AppendKeepsNumbered(db.patients, db.doctors, user.roles, user.id, specialization, licenseNumber);
    db.users := db.users + [user];
    CreateProfiles(db, user.roles, user.id, specialization, licenseNumber);
  }

  /** The checks of register, in the source's order: BadRequest for a taken e-mail,
      then BadRequest when DOCTOR is requested without a licence, then NotFound when no
      requested role exists; otherwise the roles the user is saved with. */
  function RegistrationRoles(users: seq<User>, roleTable: set<string>, req: RegistrationRequest): Result<seq<string>> {
    var names := RequestedRoleNames(req.roles);
    if EmailTaken(users, req.email) then Err(BadRequest)
    else if MissingLicence(names, req.licenseNumber) then Err(BadRequest)
    else
      var roles := ResolveRoles(names, roleTable);
      if roles == [] then Err(NotFound) else Ok(roles)
  }

  /** Registration is refused exactly for a taken e-mail, a DOCTOR request without a
      licence, or a request none of whose roles exists, with the first that applies
      deciding the error; an accepted registration has at least one role, each one
      requested and in the role table. */
  lemma RegistrationRolesCases(users: seq<User>, roleTable: set<string>, req: RegistrationRequest)
    ensures var names := RequestedRoleNames(req.roles);
      var d := RegistrationRoles(users, roleTable, req);
      && (EmailTaken(users, req.email) ==> d == Err(BadRequest))
      && (!EmailTaken(users, req.email) && MissingLicence(names, req.licenseNumber) ==> d == Err(BadRequest))
      && ((!EmailTaken(users, req.email) && !MissingLicence(names, req.licenseNumber)
           && forall n :: n in names ==> n !in roleTable) ==> d == Err(NotFound))
      && (d.Ok? <==> (!EmailTaken(users, req.email) && !MissingLicence(names, req.licenseNumber)
                      && exists n :: n in names && n in roleTable))
      && (d.Ok? ==> d.value != [] && forall n :: n in d.value ==> n in names && n in roleTable)
  {
  }

  /** The checks of register as the source performs them, one early exit after another,
      before anything is saved. `RegistrationRoles` is the specification of the same
      decision as one expression, and this rendering is proved equal to it. */
  method CheckRegistration(db: Database, req: RegistrationRequest) returns (d: Result<seq<string>>)
    ensures d == RegistrationRoles(db.users, db.roleNames, req)
  {
    var existing := FindIndex(db.users, (u: User) => u.email == req.email);
    if existing.Some? {
      assert db.users[existing.value].email == req.email;
      return Err(BadRequest);
    }
    var names := RequestedRoleNames(req.roles);
    var isDoctor := DoctorRole in names;
    if isDoctor && !HasText(req.licenseNumber) {
      return Err(BadRequest);
    }
    var roles := ResolveRoles(names, db.roleNames);
    if roles == [] {
      return Err(NotFound);
    }
    d := Ok(roles);
  }

  /** register. A refused registration saves nothing. An accepted one saves the user
      with the resolved roles and the encoded password, and creates a profile per
      PATIENT and per DOCTOR entry; the result is the e-mail. */
  method Register(db: Database, req: RegistrationRequest, encode: string -> string) returns (r: Result<string>)
    requires db.Valid()
    modifies db`users, db`patients, db`doctors
    ensures db.Valid()
    ensures var d := RegistrationRoles(old(db.users), db.roleNames, req);
      && (d.Err? ==> r == Err(d.error) && db.users == old(db.users) && db.patients == old(db.patients) && db.doctors == old(db.doctors))
      && (d.Ok? ==>
            var userId := |old(db.users)| + 1;
            && r == Ok(req.email)
            && db.users == old(db.users) + [User(userId, req.name, req.email, encode(req.password), d.value)]
            && db.patients == PatientsAfter(old(db.patients), d.value, |d.value|, userId)
            && db.doctors == DoctorsAfter(old(db.doctors), d.value, |d.value|, userId, req.specialization, req.licenseNumber))
  {
    var roles :- CheckRegistration(db, req);
    var user := User(|db.users| + 1, req.name, req.email, encode(req.password), roles);
    SaveAccount(db, user, req.specialization, req.licenseNumber);
    r := Ok(user.email);
  }

  /** login, without the token: NotFound for an unknown e-mail, BadRequest when the
      password does not match; otherwise the user's role names, in order. */
  method Login(db: Database, email: string, password: string, matches: (string, string) -> bool)
    returns (r: Result<seq<string>>)
    requires db.Valid()
    ensures !EmailTaken(db.users, email) ==> r == Err(NotFound)
    ensures forall i :: 0 <= i < |db.users| && db.users[i].email == email ==>
      r == if matches(password, db.users[i].password) then Ok(db.users[i].roles) else Err(BadRequest)
  {
    var k := FindIndex(db.users, (u: User) => u.email == email);
    if k.None? {
      return Err(NotFound);
    }
    var user := db.users[k.value];
    if !matches(password, user.password) {
      return Err(BadRequest);
    }
    r := Ok(user.roles);
  }

  /** calculateExpiryDate: five hours after `now`. */
  function ExpiryDate(now: int): (t: int)
    ensures t > now && t - now == 300
  {
    now + ResetCodeLifetimeMinutes
  }

  /** PasswordResetRepo.deleteByUserId. */
  function WithoutUserCodes(codes: map<string, ResetCode>, userId: nat): (m: map<string, ResetCode>)
    ensures forall c :: c in m <==> c in codes && codes[c].userId != userId
    ensures forall c :: c in m ==> m[c] == codes[c]
  {
    map c | c in codes && codes[c].userId != userId :: codes[c]
  }

  /** forgetPassword. NotFound for an unknown e-mail. Otherwise every reset code of the
      user is deleted and exactly one is stored, `code`, unused and expiring five hours
      after `now`; other users' codes are kept. `code` comes from the unique-code
      generator, so it is not in the table yet. */
  method ForgetPassword(db: Database, email: string, code: string, now: int) returns (r: Result<()>)
    requires db.Valid()
    requires code !in db.resetCodes
    modifies db`resetCodes
    ensures db.Valid()
    ensures !EmailTaken(db.users, email) ==> r == Err(NotFound) && db.resetCodes == old(db.resetCodes)
    ensures forall i :: 0 <= i < |db.users| && db.users[i].email == email ==>
      && r == Ok(())
      && db.resetCodes == WithoutUserCodes(old(db.resetCodes), db.users[i].id)[code := ResetCode(db.users[i].id, ExpiryDate(now), false)]
      && forall c :: c in db.resetCodes && db.resetCodes[c].userId == db.users[i].id <==> c == code
  {
    var k := FindIndex(db.users, (u: User) => u.email == email);
    if k.None? {
      return Err(NotFound);
    }
    var user := db.users[k.value];
    db.resetCodes := WithoutUserCodes(db.resetCodes, user.id);
    db.resetCodes := db.resetCodes[code := ResetCode(user.id, ExpiryDate(now), false)];
    r := Ok(());
  }

  /** updatePasswordViaResetCode. An unknown code is BadRequest and changes nothing. An
      expired code (expiry strictly before `now`) is deleted and refused, the password
      kept. A valid code sets the owner's new encoded password and is deleted. The
      `used` flag is never read: a code is single-use because it is deleted, and
      whatever the outcome, `code` is no longer in the table afterwards. */
  method UpdatePasswordViaResetCode(db: Database, code: string, newPassword: string, now: int, encode: string -> string)
    returns (r: Result<()>)
    requires db.Valid()
    modifies db`users, db`resetCodes
    ensures db.Valid()
    ensures code !in db.resetCodes
    ensures code !in old(db.resetCodes) ==>
      r == Err(BadRequest) && db.users == old(db.users) && db.resetCodes == old(db.resetCodes)
    ensures code in old(db.resetCodes) ==>
      var rc := old(db.resetCodes)[code];
      && db.resetCodes == old(db.resetCodes) - {code}
      && if rc.expiryDate < now then r == Err(BadRequest) && db.users == old(db.users)
         else
           && r == Ok(())
           && 1 <= rc.userId <= |old(db.users)|
           && db.users == old(db.users)[rc.userId - 1 := old(db.users)[rc.userId - 1].(password := encode(newPassword))]
  {
    if code !in db.resetCodes {
      return Err(BadRequest);
    }
    var resetCode := db.resetCodes[code];
    if resetCode.expiryDate < now {
      db.resetCodes := db.resetCodes - {code};
      return Err(BadRequest);
    }
    FindNumbered(db.users, (u: User) => u.id, resetCode.userId);
    var k := FindIndex(db.users, (u: User) => u.id == resetCode.userId);
    var user := db.users[k.value];
    db.users := db.users[k.value := user.(password := encode(newPassword))];
    db.resetCodes := db.resetCodes - {code};
    r := Ok(());
  }
}
