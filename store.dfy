/** The persisted entities and the tables that hold them. The Spring Data
    repositories become fields of one `Database` object; an entity updated in place
    through its setters becomes a record replaced at its index in a table. */
module Store {
  import opened Common

  /** Times are whole minutes on one absolute clock. */
  const SlotMinutes: int := 60
  const LeadMinutes: int := 60
  const BufferMinutes: int := 60
  const ResetCodeLifetimeMinutes: int := 5 * 60

  const PatientRole: string := "PATIENT"
  const DoctorRole: string := "DOCTOR"
  const AdminRole: string := "ADMIN"

  datatype Status = Scheduled | Cancelled | Completed

  /** A user account; `password` holds the encoded password and `roles` the names of
      the account's roles in the order they were assigned. */
  datatype User = User(id: nat, name: string, email: string, password: string, roles: seq<string>)

  /** Specialization, blood group and genotype are enums in the source; here they
      are their constant names. */
  datatype Doctor = Doctor(
    id: nat,
    userId: nat,
    firstName: Option<string>,
    lastName: Option<string>,
    specialization: Option<string>,
    licenseNumber: Option<string>)

  /** `dateOfBirth` is a day number. */
  datatype Patient = Patient(
    id: nat,
    userId: nat,
    firstName: Option<string>,
    lastName: Option<string>,
    dateOfBirth: Option<int>,
    phone: Option<string>,
    knownAllergies: Option<string>,
    bloodGroup: Option<string>,
    genotype: Option<string>)

  /** The doctor and patient are referenced by profile id together with the id of the
      user account each profile belongs to; that link is never changed. */
  datatype Appointment = Appointment(
    id: nat,
    startTime: int,
    endTime: int,
    meetingLink: string,
    initialSymptoms: Option<string>,
    purposeOfConsultation: Option<string>,
    status: Status,
    doctorId: nat,
    doctorUserId: nat,
    patientId: nat,
    patientUserId: nat)

  datatype Consultation = Consultation(
    id: nat,
    consultationDate: int,
    subjectiveNotes: Option<string>,
    objectiveFindings: Option<string>,
    assessment: Option<string>,
    plan: Option<string>,
    appointmentId: nat)

  /** A password-reset code row, stored under its code. */
  datatype ResetCode = ResetCode(userId: nat, expiryDate: int, used: bool)

  /** The index of the first element satisfying `p`: the repository lookups
      (findById, findByEmail, findByUser, findByAppointmentId). */
  function FindIndex<T>(s: seq<T>, p: T -> bool): (r: Option<nat>)
    ensures r.Some? ==> r.value < |s| && p(s[r.value])
    ensures r.Some? ==> forall j :: 0 <= j < r.value ==> !p(s[j])
    ensures r.None? <==> forall j :: 0 <= j < |s| ==> !p(s[j])
  {
    if |s| == 0 then None
    else if p(s[0]) then Some(0)
    else match FindIndex(s[1..], p)
      case None => None
      case Some(k) => Some(k + 1)
  }

  /** Whether `s[i].id == i + 1` throughout: ids are handed out 1, 2, 3, ... on insert
      and the core never deletes these rows. */
  ghost predicate Numbered<T>(s: seq<T>, id: T -> nat) {
    forall i :: 0 <= i < |s| ==> id(s[i]) == i + 1
  }

  /** With ids numbered by position, the row with id `k` is found at index `k - 1`. */
  lemma {:induction false} FindNumbered<T>(s: seq<T>, id: T -> nat, k: nat)
    requires Numbered(s, id)
    ensures FindIndex(s, x => id(x) == k) == if 1 <= k <= |s| then Some(k - 1) else None
  {
    var p := x => id(x) == k;
    if 1 <= k <= |s| {
      assert p(s[k - 1]);
    } else {
      forall j | 0 <= j < |s| ensures !p(s[j]) {
        assert id(s[j]) == j + 1;
      }
    }
  }

  /** Half-open intervals [a.startTime, a.endTime) and [b.startTime, b.endTime) share a minute. */
  predicate Overlaps(a: Appointment, b: Appointment) {
    a.startTime < b.endTime && b.startTime < a.endTime
  }

  /** The schedule left behind by the booking rule: of two SCHEDULED appointments of
      one doctor, the later-booked one (higher index) either ends no later than the
      earlier one starts, or starts at least `BufferMinutes` after it ends. */
  ghost predicate BufferedSchedule(rows: seq<Appointment>) {
    forall i, j :: 0 <= i < j < |rows| && rows[i].status == Scheduled && rows[j].status == Scheduled
      && rows[i].doctorId == rows[j].doctorId
      ==> rows[j].endTime <= rows[i].startTime || rows[i].endTime + BufferMinutes <= rows[j].startTime
  }

  /** No two SCHEDULED appointments of one doctor overlap. */
  ghost predicate NonOverlapping(rows: seq<Appointment>) {
    forall i, j :: 0 <= i < |rows| && 0 <= j < |rows| && i != j
      && rows[i].status == Scheduled && rows[j].status == Scheduled
      && rows[i].doctorId == rows[j].doctorId
      ==> !Overlaps(rows[i], rows[j])
  }

  lemma BufferedIsNonOverlapping(rows: seq<Appointment>)
    requires BufferedSchedule(rows)
    ensures NonOverlapping(rows)
  {
    forall i, j | 0 <= i < |rows| && 0 <= j < |rows| && i != j
      && rows[i].status == Scheduled && rows[j].status == Scheduled
      && rows[i].doctorId == rows[j].doctorId
      ensures !Overlaps(rows[i], rows[j])
    {
      if i < j {
        assert rows[j].endTime <= rows[i].startTime || rows[i].endTime + BufferMinutes <= rows[j].startTime;
      } else {
        assert rows[i].endTime <= rows[j].startTime || rows[j].endTime + BufferMinutes <= rows[i].startTime;
      }
    }
  }

  /** Retiring one appointment (giving it a status other than SCHEDULED, whatever else
      changes in it) keeps the schedule buffered. */
  lemma RetirePreservesSchedule(rows: seq<Appointment>, k: nat, a: Appointment)
    requires BufferedSchedule(rows) && k < |rows| && a.status != Scheduled
    ensures BufferedSchedule(rows[k := a])
  {
  }

  /** Whether no appointment went back to SCHEDULED: rows are only appended, and a row
      that is SCHEDULED now was SCHEDULED before. */
  ghost predicate NeverRescheduled(before: seq<Appointment>, after: seq<Appointment>) {
    && |before| <= |after|
    && forall i :: 0 <= i < |before| && after[i].status == Scheduled ==> before[i].status == Scheduled
  }

  /** Every SCHEDULED appointment still spans exactly one slot. */
  ghost predicate SlotsIntact(rows: seq<Appointment>) {
    forall i :: 0 <= i < |rows| && rows[i].status == Scheduled ==> rows[i].endTime == rows[i].startTime + SlotMinutes
  }

  /** The e-mail column is unique. */
  ghost predicate UniqueEmails(users: seq<User>) {
    forall i, j :: 0 <= i < j < |users| ==> users[i].email != users[j].email
  }

  /** The appointment table: numbered, every SCHEDULED row one slot long, buffered. */
  ghost predicate ScheduleValid(rows: seq<Appointment>) {
    && Numbered(rows, (a: Appointment) => a.id)
    && SlotsIntact(rows)
    && BufferedSchedule(rows)
  }

  /** The consultation table: numbered, and its appointment column a unique, non-null
      foreign key into a table of `appointmentCount` rows. */
  ghost predicate ConsultationsValid(cs: seq<Consultation>, appointmentCount: nat) {
    && Numbered(cs, (c: Consultation) => c.id)
    && (forall i :: 0 <= i < |cs| ==> 1 <= cs[i].appointmentId <= appointmentCount)
    && (forall i, j :: 0 <= i < j < |cs| ==> cs[i].appointmentId != cs[j].appointmentId)
  }

  /** Every reset code belongs to one of `userCount` users. */
  ghost predicate ResetCodesValid(codes: map<string, ResetCode>, userCount: nat) {
    forall c :: c in codes ==> 1 <= codes[c].userId <= userCount
  }

  /** The state of all repositories together. */
  class Database {
    var users: seq<User>
    /** The role table, by role name; read-only for the core. */
    var roleNames: set<string>
    var doctors: seq<Doctor>
    var patients: seq<Patient>
    var appointments: seq<Appointment>
    var consultations: seq<Consultation>
    var resetCodes: map<string, ResetCode>

    ghost predicate Valid()
      reads this
    {
      && Numbered(users, (u: User) => u.id)
      && Numbered(doctors, (d: Doctor) => d.id)
      && Numbered(patients, (p: Patient) => p.id)
      && UniqueEmails(users)
      && ScheduleValid(appointments)
      && ConsultationsValid(consultations, |appointments|)
      && ResetCodesValid(resetCodes, |users|)
    }

    constructor (roleNames: set<string>)
      ensures Valid()
      ensures this.roleNames == roleNames
      ensures users == [] && doctors == [] && patients == [] && appointments == [] && consultations == []
      ensures resetCodes == map[]
    {
      this.roleNames := roleNames;
      users, doctors, patients, appointments, consultations := [], [], [], [], [];
      resetCodes := map[];
    }
  }

  /** UserService.getCurrentUser: the authenticated e-mail (None when nobody is
      authenticated) resolved to its user row; both failures are NotFound. */
  function CurrentUser(users: seq<User>, auth: Option<string>): (r: Result<User>)
    ensures r.Ok? <==> auth.Some? && exists i :: 0 <= i < |users| && users[i].email == auth.value
    ensures r.Err? ==> r.error == NotFound
    ensures r.Ok? ==> r.value in users && r.value.email == auth.value
  {
    if auth.None? then Err(NotFound)
    else match FindIndex(users, (u: User) => u.email == auth.value)
      case None => Err(NotFound)
      case Some(i) => Ok(users[i])
  }

  /** DoctorRepo.findByUser / PatientRepo.findByUser: the profile of the user. The
      source's single-result query fails when a user has several profiles; the model
      takes the first of them instead. */
  function DoctorOfUser(doctors: seq<Doctor>, userId: nat): (r: Option<nat>)
    ensures r.Some? ==> r.value < |doctors| && doctors[r.value].userId == userId
    ensures r.Some? ==> forall j :: 0 <= j < r.value ==> doctors[j].userId != userId
    ensures r.None? <==> forall j :: 0 <= j < |doctors| ==> doctors[j].userId != userId
  {
    FindIndex(doctors, (d: Doctor) => d.userId == userId)
  }

  function PatientOfUser(patients: seq<Patient>, userId: nat): (r: Option<nat>)
    ensures r.Some? ==> r.value < |patients| && patients[r.value].userId == userId
    ensures r.Some? ==> forall j :: 0 <= j < r.value ==> patients[j].userId != userId
    ensures r.None? <==> forall j :: 0 <= j < |patients| ==> patients[j].userId != userId
  {
    FindIndex(patients, (p: Patient) => p.userId == userId)
  }

  /** JpaRepository.findById on the three profile/appointment tables. */
  function DoctorWithId(doctors: seq<Doctor>, id: nat): (r: Option<nat>)
    ensures r.Some? ==> r.value < |doctors| && doctors[r.value].id == id
    ensures r.None? <==> forall j :: 0 <= j < |doctors| ==> doctors[j].id != id
  {
    FindIndex(doctors, (d: Doctor) => d.id == id)
  }

  function PatientWithId(patients: seq<Patient>, id: nat): (r: Option<nat>)
    ensures r.Some? ==> r.value < |patients| && patients[r.value].id == id
    ensures r.None? <==> forall j :: 0 <= j < |patients| ==> patients[j].id != id
  {
    FindIndex(patients, (p: Patient) => p.id == id)
  }

  function AppointmentWithId(rows: seq<Appointment>, id: nat): (r: Option<nat>)
    ensures r.Some? ==> r.value < |rows| && rows[r.value].id == id
    ensures r.None? <==> forall j :: 0 <= j < |rows| ==> rows[j].id != id
  {
    FindIndex(rows, (a: Appointment) => a.id == id)
  }
}
