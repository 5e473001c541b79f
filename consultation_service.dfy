/** Consultation notes: creating them (which also completes the appointment), looking
    them up by appointment, and a patient's history, latest first. */
module ConsultationService {
  import opened Common
  import opened Store

  /** The fields of the consultation request the service reads. */
  datatype ConsultationRequest = ConsultationRequest(
    appointmentId: nat,
    subjectiveNotes: Option<string>,
    objectiveFindings: Option<string>,
    assessment: Option<string>,
    plan: Option<string>)

  /** ConsultationRepo.findByAppointmentId. */
  function ConsultationOf(consultations: seq<Consultation>, appointmentId: nat): (r: Option<nat>)
    ensures r.Some? ==> r.value < |consultations| && consultations[r.value].appointmentId == appointmentId
    ensures r.None? <==> forall j :: 0 <= j < |consultations| ==> consultations[j].appointmentId != appointmentId
  {
    FindIndex(consultations, (c: Consultation) => c.appointmentId == appointmentId)
  }

  /** The appointment save of createConsultation: row `k` becomes COMPLETED, its end
      time kept, and the table invariant still holds. */
  method MarkCompleted(db: Database, k: nat)
    requires db.Valid() && k < |db.appointments|
    modifies db`appointments
    ensures db.Valid()
    ensures db.appointments == old(db.appointments)[k := old(db.appointments)[k].(status := Completed)]
    ensures NeverRescheduled(old(db.appointments), db.appointments)
  {
    var appointment := db.appointments[k].(status := Completed);
    RetirePreservesSchedule(db.appointments, k, appointment);
    db.appointments := db.appointments[k := appointment];
  }

  /** ConsultationRepo.save of a new consultation: numbered next, for an existing
      appointment that has no consultation yet, so the table invariant is kept. */
  method SaveConsultation(db: Database, c: Consultation)
    requires db.Valid()
    requires c.id == |db.consultations| + 1
    requires 1 <= c.appointmentId <= |db.appointments|
    requires ConsultationOf(db.consultations, c.appointmentId).None?
    modifies db`consultations
    ensures db.Valid()
    ensures db.consultations == old(db.consultations) + [c]
  {
    db.consultations := db.consultations + [c];
  }

  /** The lookups and the ownership check of createConsultation as the source performs
      them, one early exit after another. `ConsultationTarget` is the specification of
      the same decision as one expression, and this rendering is proved equal to it. */
  method CheckConsultationTarget(db: Database, auth: Option<string>, appointmentId: nat) returns (t: Result<nat>)
    requires db.Valid()
    ensures t == ConsultationTarget(db.users, db.appointments, auth, appointmentId)
    ensures t.Ok? ==> appointmentId == t.value + 1
  {
    var user :- CurrentUser(db.users, auth);
    var k := AppointmentWithId(db.appointments, appointmentId);
    if k.None? {
      return Err(NotFound);
    }
    var appointment := db.appointments[k.value];
    if appointment.doctorUserId != user.id {
      return Err(BadRequest);
    }
    t := Ok(k.value);
  }

  /** The checks of createConsultation before anything is saved: NotFound for an
      unknown caller or appointment, BadRequest unless the caller is the appointment's
      doctor; otherwise the appointment's index. */
  function ConsultationTarget(users: seq<User>, rows: seq<Appointment>, auth: Option<string>, appointmentId: nat): Result<nat> {
    match CurrentUser(users, auth)
    case Err(e) => Err(e)
    case Ok(user) =>
      match AppointmentWithId(rows, appointmentId)
      case None => Err(NotFound)
      case Some(k) => if rows[k].doctorUserId != user.id then Err(BadRequest) else Ok(k)
  }

  /** Only the appointment's own doctor may write its notes: the target is found exactly
      when the caller and the appointment exist and the caller is its doctor, and it is
      then that appointment. */
  lemma ConsultationTargetCases(users: seq<User>, rows: seq<Appointment>, auth: Option<string>, appointmentId: nat)
    ensures var t := ConsultationTarget(users, rows, auth, appointmentId);
      && (t == Err(NotFound) <==> CurrentUser(users, auth).Err? || AppointmentWithId(rows, appointmentId).None?)
      && (t == Err(BadRequest) <==>
            && CurrentUser(users, auth).Ok? && AppointmentWithId(rows, appointmentId).Some?
            && rows[AppointmentWithId(rows, appointmentId).value].doctorUserId != CurrentUser(users, auth).value.id)
      && (t.Ok? ==>
            && t.value < |rows| && rows[t.value].id == appointmentId
            && CurrentUser(users, auth).Ok? && rows[t.value].doctorUserId == CurrentUser(users, auth).value.id)
  {
  }

  /** createConsultation. A refused caller changes nothing. For the appointment's doctor
      the appointment is first saved as COMPLETED (its end time untouched) and only then
      is a second consultation for the same appointment refused with BadRequest, so a
      refused duplicate still leaves the appointment COMPLETED. */
  method CreateConsultation(db: Database, auth: Option<string>, req: ConsultationRequest, now: int)
    returns (r: Result<Consultation>)
    requires db.Valid()
    modifies db`appointments, db`consultations
    ensures db.Valid()
    ensures var t := ConsultationTarget(db.users, old(db.appointments), auth, req.appointmentId);
      && (t.Err? ==> r == Err(t.error) && db.appointments == old(db.appointments) && db.consultations == old(db.consultations))
      && (t.Ok? ==> db.appointments == old(db.appointments)[t.value := old(db.appointments)[t.value].(status := Completed)])
      && (t.Ok? && ConsultationOf(old(db.consultations), req.appointmentId).Some? ==>
            r == Err(BadRequest) && db.consultations == old(db.consultations))
      && (t.Ok? && ConsultationOf(old(db.consultations), req.appointmentId).None? ==>
            && r == Ok(Consultation(|old(db.consultations)| + 1, now, req.subjectiveNotes,
                 req.objectiveFindings, req.assessment, req.plan, req.appointmentId))
            && db.consultations == old(db.consultations) + [r.value])
    ensures NeverRescheduled(old(db.appointments), db.appointments)
  {
    var k :- CheckConsultationTarget(db, auth, req.appointmentId);
    MarkCompleted(db, k);

    if ConsultationOf(db.consultations, req.appointmentId).Some? {
      return Err(BadRequest);
    }
    var consultation := Consultation(|db.consultations| + 1, now, req.subjectiveNotes,
      req.objectiveFindings, req.assessment, req.plan, req.appointmentId);
    SaveConsultation(db, consultation);
    r := Ok(consultation);
  }

  /** getConsultationByAppointmentId: the appointment's consultation, NotFound when there
      is none. Any authenticated user may read it: there is no ownership check. */
  method GetConsultationByAppointmentId(db: Database, auth: Option<string>, appointmentId: nat)
    returns (r: Result<Consultation>)
    requires db.Valid()
    ensures r.Err? ==> r.error == NotFound
    ensures r.Ok? <==>
      (CurrentUser(db.users, auth).Ok? && exists i :: 0 <= i < |db.consultations| && db.consultations[i].appointmentId == appointmentId)
    ensures r.Ok? ==> r.value in db.consultations && r.value.appointmentId == appointmentId
  {
    var user :- CurrentUser(db.users, auth);
    var i := ConsultationOf(db.consultations, appointmentId);
    if i.None? {
      return Err(NotFound);
    }
    r := Ok(db.consultations[i.value]);
  }

  /** Whether the consultation's appointment is one of patient `patientId`'s. */
  predicate OfPatient(c: Consultation, rows: seq<Appointment>, patientId: nat) {
    match AppointmentWithId(rows, c.appointmentId)
    case None => false
    case Some(k) => rows[k].patientId == patientId
  }

  /** The consultations of the patient's appointments, each as often as in the table,
      in table order. */
  function ConsultationsOfPatient(cs: seq<Consultation>, rows: seq<Appointment>, patientId: nat): (r: seq<Consultation>)
    ensures forall c :: multiset(r)[c] == if OfPatient(c, rows, patientId) then multiset(cs)[c] else 0
    ensures forall c :: c in r <==> c in cs && OfPatient(c, rows, patientId)
  {
    if |cs| == 0 then []
    else
      assert cs == [cs[0]] + cs[1..];
      (if OfPatient(cs[0], rows, patientId) then [cs[0]] else []) + ConsultationsOfPatient(cs[1..], rows, patientId)
  }

  ghost predicate DatesDescending(cs: seq<Consultation>) {
    forall i, j :: 0 <= i < j < |cs| ==> cs[i].consultationDate >= cs[j].consultationDate
  }

  /** Places `c` before the first consultation of `s` that is not later than it. */
  function InsertByDate(c: Consultation, s: seq<Consultation>): (r: seq<Consultation>)
    requires DatesDescending(s)
    ensures DatesDescending(r)
    ensures multiset(r) == multiset(s) + multiset{c}
    ensures |r| == |s| + 1
    ensures r[0] == c || (|s| > 0 && r[0] == s[0])
  {
    if |s| == 0 then [c]
    else if c.consultationDate >= s[0].consultationDate then [c] + s
    else
      assert s == [s[0]] + s[1..];
      [s[0]] + InsertByDate(c, s[1..])
  }

  /** Orders consultations latest first (ties in no particular order). */
  function SortByDateDesc(s: seq<Consultation>): (r: seq<Consultation>)
    ensures DatesDescending(r)
    ensures multiset(r) == multiset(s)
  {
    if |s| == 0 then []
    else
      assert s == [s[0]] + s[1..];
      InsertByDate(s[0], SortByDateDesc(s[1..]))
  }

  /** findByAppointmentPatientIdOrderByConsultationDateDesc: exactly the consultations of
      the patient's appointments, latest first. */
  function FindByAppointmentPatientIdOrderByConsultationDateDesc(cs: seq<Consultation>, rows: seq<Appointment>, patientId: nat)
    : (r: seq<Consultation>)
    ensures DatesDescending(r)
    ensures forall c :: multiset(r)[c] == if OfPatient(c, rows, patientId) then multiset(cs)[c] else 0
    ensures forall c :: c in r <==> c in cs && OfPatient(c, rows, patientId)
  {
    var r := SortByDateDesc(ConsultationsOfPatient(cs, rows, patientId));
    assert forall c :: c in r <==> c in multiset(r);
    r
  }

  /** getConsultationHistoryForPatient. With no id the caller's own patient profile is
      used (BadRequest if they have none); an unknown id is NotFound. The history is
      every consultation of that patient, latest first, and may be empty. */
  method GetConsultationHistoryForPatient(db: Database, auth: Option<string>, patientId: Option<nat>)
    returns (r: Result<seq<Consultation>>)
    requires db.Valid()
    ensures CurrentUser(db.users, auth).Err? ==> r == Err(NotFound)
    ensures CurrentUser(db.users, auth).Ok? && patientId.None? ==>
      var own := PatientOfUser(db.patients, CurrentUser(db.users, auth).value.id);
      && (own.None? ==> r == Err(BadRequest))
      && (own.Some? ==> r == Ok(FindByAppointmentPatientIdOrderByConsultationDateDesc(
            db.consultations, db.appointments, db.patients[own.value].id)))
    ensures CurrentUser(db.users, auth).Ok? && patientId.Some? ==>
      if PatientWithId(db.patients, patientId.value).None? then r == Err(NotFound)
      else r == Ok(FindByAppointmentPatientIdOrderByConsultationDateDesc(db.consultations, db.appointments, patientId.value))
  {
    var user :- CurrentUser(db.users, auth);
    var id: nat;
    if patientId.None? {
      var own := PatientOfUser(db.patients, user.id);
      if own.None? {
        return Err(BadRequest);
      }
      id := db.patients[own.value].id;
    } else {
      id := patientId.value;
    }
    if PatientWithId(db.patients, id).None? {
      return Err(NotFound);
    }
    var history := FindByAppointmentPatientIdOrderByConsultationDateDesc(db.consultations, db.appointments, id);
    r := Ok(history);
  }
}
