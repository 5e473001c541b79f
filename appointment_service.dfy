/** The appointment scheduler: booking with the lead-time and buffer rules, listing
    by role, and the cancel and complete transitions with their ownership checks. */
module AppointmentService {
  import opened Common
  import opened Store
  import opened AppointmentRepo

  /** The fields of the booking request the service reads. */
  datatype BookingRequest = BookingRequest(
    doctorId: nat,
    startTime: int,
    purposeOfConsultation: Option<string>,
    initialSymptoms: Option<string>)

  /** The patient (with their profile), or the doctor, on the appointment. */
  predicate IsParty(a: Appointment, userId: nat) {
    a.patientUserId == userId || a.doctorUserId == userId
  }

  /** Whether booking is refused for a missing party: no current user, no patient
      profile for them, or no doctor with the requested id. */
  predicate PartyMissing(users: seq<User>, doctors: seq<Doctor>, patients: seq<Patient>, auth: Option<string>, doctorId: nat) {
    || CurrentUser(users, auth).Err?
    || PatientOfUser(patients, CurrentUser(users, auth).value.id).None?
    || DoctorWithId(doctors, doctorId).None?
  }

  /** The decision bookAppointment takes and, when it succeeds, the row it inserts:
      the slot is one hour, it must start an hour or more after `now`, and the doctor
      must have no SCHEDULED appointment meeting [start - 60 min, start + 60 min). */
  function Book(
    users: seq<User>, doctors: seq<Doctor>, patients: seq<Patient>, rows: seq<Appointment>,
    auth: Option<string>, req: BookingRequest, now: int, meetingLink: string): Result<Appointment>
  {
    match CurrentUser(users, auth)
    case Err(e) => Err(e)
    case Ok(user) =>
      match PatientOfUser(patients, user.id)
      case None => Err(NotFound)
      case Some(pi) =>
        match DoctorWithId(doctors, req.doctorId)
        case None => Err(NotFound)
        case Some(di) =>
          var endTime := req.startTime + SlotMinutes;
          if req.startTime < now + LeadMinutes then Err(BadRequest)
          else if FindConflictingAppointments(rows, doctors[di].id, req.startTime - BufferMinutes, endTime) != [] then
            Err(BadRequest)
          else
            Ok(Appointment(|rows| + 1, req.startTime, endTime, meetingLink,
              req.initialSymptoms, req.purposeOfConsultation, Scheduled,
              doctors[di].id, doctors[di].userId, patients[pi].id, patients[pi].userId))
  }

  /** A missing caller, patient profile or doctor is NotFound, checked before anything else. */
  lemma BookNotFound(
    users: seq<User>, doctors: seq<Doctor>, patients: seq<Patient>, rows: seq<Appointment>,
    auth: Option<string>, req: BookingRequest, now: int, meetingLink: string)
    ensures Book(users, doctors, patients, rows, auth, req, now, meetingLink) == Err(NotFound)
        <==> PartyMissing(users, doctors, patients, auth, req.doctorId)
  {
  }

  /** Once both parties exist, booking is refused iff the start is strictly earlier than
      an hour from now, or the doctor has a SCHEDULED appointment [s, e) with
      s < start + 60 and e > start - 60. Starting exactly an hour from now is allowed. */
  lemma BookRefusedIff(
    users: seq<User>, doctors: seq<Doctor>, patients: seq<Patient>, rows: seq<Appointment>,
    auth: Option<string>, req: BookingRequest, now: int, meetingLink: string)
    requires !PartyMissing(users, doctors, patients, auth, req.doctorId)
    ensures Book(users, doctors, patients, rows, auth, req, now, meetingLink) == Err(BadRequest)
        <==> || req.startTime < now + 60
             || exists a :: a in rows && a.doctorId == req.doctorId && a.status == Scheduled
                  && a.startTime < req.startTime + 60 && a.endTime > req.startTime - 60
    ensures Book(users, doctors, patients, rows, auth, req, now, meetingLink).Err?
        ==> Book(users, doctors, patients, rows, auth, req, now, meetingLink).error == BadRequest
  {
    var di := DoctorWithId(doctors, req.doctorId).value;
    var conflicts := FindConflictingAppointments(rows, doctors[di].id, req.startTime - BufferMinutes, req.startTime + SlotMinutes);
    if conflicts != [] {
      assert conflicts[0] in conflicts;
    }
  }

  /** A successful booking is a SCHEDULED one-hour slot of the caller's patient profile
      with the chosen doctor, under the next free id. */
  lemma BookCreatesSlot(
    users: seq<User>, doctors: seq<Doctor>, patients: seq<Patient>, rows: seq<Appointment>,
    auth: Option<string>, req: BookingRequest, now: int, meetingLink: string)
    requires Book(users, doctors, patients, rows, auth, req, now, meetingLink).Ok?
    ensures var a := Book(users, doctors, patients, rows, auth, req, now, meetingLink).value;
      var user := CurrentUser(users, auth).value;
      && a.id == |rows| + 1
      && a.startTime == req.startTime && a.endTime == req.startTime + 60
      && a.status == Scheduled && a.meetingLink == meetingLink
      && a.purposeOfConsultation == req.purposeOfConsultation && a.initialSymptoms == req.initialSymptoms
      && a.doctorId == req.doctorId && a.patientUserId == user.id
      && (exists d :: d in doctors && d.id == req.doctorId && d.userId == a.doctorUserId)
      && (exists p :: p in patients && p.userId == user.id && p.id == a.patientId)
  {
    var user := CurrentUser(users, auth).value;
    var pi := PatientOfUser(patients, user.id).value;
    var di := DoctorWithId(doctors, req.doctorId).value;
    assert doctors[di] in doctors && patients[pi] in patients;
  }

  /** An accepted booking keeps the doctor's schedule buffered: the new slot either ends
      by the time each earlier SCHEDULED slot starts, or starts an hour after it ends. */
  lemma {:induction false} BookKeepsScheduleBuffered(rows: seq<Appointment>, a: Appointment)
    requires BufferedSchedule(rows)
    requires a.status == Scheduled
    requires FindConflictingAppointments(rows, a.doctorId, a.startTime - BufferMinutes, a.endTime) == []
    ensures BufferedSchedule(rows + [a])
  {
    var all := rows + [a];
    forall i, j | 0 <= i < j < |all| && all[i].status == Scheduled && all[j].status == Scheduled
      && all[i].doctorId == all[j].doctorId
      ensures all[j].endTime <= all[i].startTime || all[i].endTime + BufferMinutes <= all[j].startTime
    {
      if j == |rows| {
        assert all[i] in rows;
        assert !Conflicts(all[i], a.doctorId, a.startTime - BufferMinutes, a.endTime);
      } else {
        assert all[i] == rows[i] && all[j] == rows[j];
      }
    }
  }

  /** Whether a symmetric one-hour gap separates every two SCHEDULED slots of a doctor. */
  ghost predicate SymmetricGap(rows: seq<Appointment>) {
    forall i, j :: 0 <= i < |rows| && 0 <= j < |rows| && i != j
      && rows[i].status == Scheduled && rows[j].status == Scheduled
      && rows[i].doctorId == rows[j].doctorId
      ==> rows[i].endTime + BufferMinutes <= rows[j].startTime || rows[j].endTime + BufferMinutes <= rows[i].startTime
  }

  /** The buffer is checked only before the new slot: with a 10:00-11:00 slot booked, a
      9:00-10:00 slot that ends exactly when it begins is accepted, and the two then
      have no gap at all. */
  lemma BufferOnlyBeforeNewSlot()
    ensures var users := [User(1, "Pat", "pat@x", "h", [PatientRole]), User(2, "Doc", "doc@x", "h", [DoctorRole])];
      var doctors := [Doctor(1, 2, None, None, None, Some("L1"))];
      var patients := [Patient(1, 1, None, None, None, None, None, None, None)];
      var existing := Appointment(1, 600, 660, "m1", None, None, Scheduled, 1, 2, 1, 1);
      var r := Book(users, doctors, patients, [existing], Some("pat@x"), BookingRequest(1, 540, None, None), 0, "m2");
      && r.Ok? && r.value.endTime == existing.startTime
      && BufferedSchedule([existing, r.value])
      && !SymmetricGap([existing, r.value])
  {
    var users := [User(1, "Pat", "pat@x", "h", [PatientRole]), User(2, "Doc", "doc@x", "h", [DoctorRole])];
    var doctors := [Doctor(1, 2, None, None, None, Some("L1"))];
    var patients := [Patient(1, 1, None, None, None, None, None, None, None)];
    assert CurrentUser(users, Some("pat@x")) == Ok(users[0]);
    assert PatientOfUser(patients, 1) == Some(0);
    assert DoctorWithId(doctors, 1) == Some(0);
    var existing := Appointment(1, 600, 660, "m1", None, None, Scheduled, 1, 2, 1, 1);
    assert FindConflictingAppointments([existing], 1, 540 - BufferMinutes, 540 + SlotMinutes) == [];
    var r := Book(users, doctors, patients, [existing], Some("pat@x"), BookingRequest(1, 540, None, None), 0, "m2");
    assert r == Ok(Appointment(2, 540, 600, "m2", None, None, Scheduled, 1, 2, 1, 1));
    var rows := [existing, r.value];
    assert rows[0].endTime + BufferMinutes > rows[1].startTime && rows[1].endTime + BufferMinutes > rows[0].startTime;
  }

  /** Doctor D holds 10:00-11:00. A request for 11:00-12:00 is refused (its check window
      [10:00, 12:00) meets the slot); one for 12:00-13:00 is accepted. */
  lemma BackToBackScenario()
    ensures var existing := Appointment(1, 600, 660, "m1", None, None, Scheduled, 1, 2, 1, 1);
      && FindConflictingAppointments([existing], 1, 660 - BufferMinutes, 660 + SlotMinutes) == [existing]
      && FindConflictingAppointments([existing], 1, 720 - BufferMinutes, 720 + SlotMinutes) == []
  {
  }

  /** The checks and the row construction of bookAppointment as the source performs
      them, one early exit after another; nothing is saved. `Book` is the specification
      of the same decision as one expression, and this rendering is proved equal to it. */
  method CheckBooking(db: Database, auth: Option<string>, req: BookingRequest, now: int, meetingLink: string)
    returns (r: Result<Appointment>)
    ensures r == Book(db.users, db.doctors, db.patients, db.appointments, auth, req, now, meetingLink)
  {
    var user :- CurrentUser(db.users, auth);
    var pi := PatientOfUser(db.patients, user.id);
    if pi.None? {
      return Err(NotFound);
    }
    var di := DoctorWithId(db.doctors, req.doctorId);
    if di.None? {
      return Err(NotFound);
    }
    var patient, doctor := db.patients[pi.value], db.doctors[di.value];

    var startTime := req.startTime;
    var endTime := startTime + SlotMinutes;
    if startTime < now + LeadMinutes {
      return Err(BadRequest);
    }
    var checkStart := startTime - BufferMinutes;
    var conflicts := FindConflictingAppointments(db.appointments, doctor.id, checkStart, endTime);
    if conflicts != [] {
      return Err(BadRequest);
    }
    r := Ok(Appointment(|db.appointments| + 1, startTime, endTime, meetingLink,
      req.initialSymptoms, req.purposeOfConsultation, Scheduled,
      doctor.id, doctor.userId, patient.id, patient.userId));
  }

  /** Appending a SCHEDULED one-slot row under the next id whose buffered window holds
      no conflict keeps the appointment table valid. */
  lemma AppendSlotKeepsScheduleValid(rows: seq<Appointment>, a: Appointment)
    requires ScheduleValid(rows)
    requires a.id == |rows| + 1 && a.status == Scheduled && a.endTime == a.startTime + SlotMinutes
    requires FindConflictingAppointments(rows, a.doctorId, a.startTime - BufferMinutes, a.endTime) == []
    ensures ScheduleValid(rows + [a])
  {
    BookKeepsScheduleBuffered(rows, a);
  }

  /** An accepted booking is a SCHEDULED one-slot row under the next id whose
      buffered window holds no conflict, so appending it keeps the table valid. */
  lemma BookKeepsScheduleValid(
    users: seq<User>, doctors: seq<Doctor>, patients: seq<Patient>, rows: seq<Appointment>,
    auth: Option<string>, req: BookingRequest, now: int, meetingLink: string)
    requires ScheduleValid(rows)
    requires Book(users, doctors, patients, rows, auth, req, now, meetingLink).Ok?
    ensures ScheduleValid(rows + [Book(users, doctors, patients, rows, auth, req, now, meetingLink).value])
  {
    var user := CurrentUser(users, auth).value;
    var di := DoctorWithId(doctors, req.doctorId).value;
    var a := Book(users, doctors, patients, rows, auth, req, now, meetingLink).value;
    assert a.doctorId == doctors[di].id;
    AppendSlotKeepsScheduleValid(rows, a);
  }

  /** bookAppointment: decides as `Book` and, on success, inserts the new row and
      nothing else. */
  method BookAppointment(db: Database, auth: Option<string>, req: BookingRequest, now: int, meetingLink: string)
    returns (r: Result<Appointment>)
    requires db.Valid()
    modifies db`appointments
    ensures db.Valid()
    ensures r == Book(db.users, db.doctors, db.patients, old(db.appointments), auth, req, now, meetingLink)
    ensures db.appointments == if r.Ok? then old(db.appointments) + [r.value] else old(db.appointments)
    ensures NeverRescheduled(old(db.appointments), db.appointments)
  {
    var appointment :- CheckBooking(db, auth, req, now, meetingLink);
    BookKeepsScheduleValid(db.users, db.doctors, db.patients, db.appointments, auth, req, now, meetingLink);
    db.appointments := db.appointments + [appointment];
    r := Ok(appointment);
  }

  /** getMyAppointments: a caller holding the DOCTOR role sees the appointments of their
      doctor profile, anyone else those of their patient profile; every status, newest
      id first. The profile for the chosen branch must exist. */
  method GetMyAppointments(db: Database, auth: Option<string>) returns (r: Result<seq<Appointment>>)
    requires db.Valid()
    ensures r.Err? ==> r.error == NotFound
    ensures CurrentUser(db.users, auth).Err? ==> r.Err?
    ensures CurrentUser(db.users, auth).Ok? ==>
      var user := CurrentUser(db.users, auth).value;
      var isDoctor := DoctorRole in user.roles;
      && (r.Err? <==> if isDoctor then DoctorOfUser(db.doctors, user.id).None? else PatientOfUser(db.patients, user.id).None?)
      && (r.Ok? ==> forall a :: a in r.value <==>
            (a in db.appointments && if isDoctor then a.doctorUserId == user.id else a.patientUserId == user.id))
    ensures r.Ok? ==> IdsDescending(r.value)
  {
    var user :- CurrentUser(db.users, auth);
    NumberedIsAscending(db.appointments);
    var isDoctor := DoctorRole in user.roles;
    if isDoctor {
      if DoctorOfUser(db.doctors, user.id).None? {
        return Err(NotFound);
      }
      r := Ok(FindByDoctorUserIdOrderByIdDesc(db.appointments, user.id));
    } else {
      if PatientOfUser(db.patients, user.id).None? {
        return Err(NotFound);
      }
      r := Ok(FindByPatientUserIdOrderByIdDesc(db.appointments, user.id));
    }
  }

  /** The users sendAppointmentCancellation e-mails: the doctor then the patient, or
      nobody when the cancelling user is not a party (its defensive re-check). */
  function CancellationRecipients(a: Appointment, cancellingUserId: nat): (r: seq<nat>)
    ensures r == [] <==> !IsParty(a, cancellingUserId)
    ensures r != [] ==> r == [a.doctorUserId, a.patientUserId]
  {
    if IsParty(a, cancellingUserId) then [a.doctorUserId, a.patientUserId] else []
  }

  /** cancelAppointment: NotFound for a missing caller or id, BadRequest unless the caller
      is the appointment's patient or doctor; otherwise only the status changes, to
      CANCELLED, whatever it was. `notified` lists who is e-mailed about it. */
  method CancelAppointment(db: Database, auth: Option<string>, id: nat) returns (r: Result<Appointment>, notified: seq<nat>)
    requires db.Valid()
    modifies db`appointments
    ensures db.Valid()
    ensures CurrentUser(db.users, auth).Err? || AppointmentWithId(old(db.appointments), id).None? ==> r == Err(NotFound)
    ensures CurrentUser(db.users, auth).Ok? && AppointmentWithId(old(db.appointments), id).Some? ==>
      var user := CurrentUser(db.users, auth).value;
      var k := AppointmentWithId(old(db.appointments), id).value;
      var a := old(db.appointments)[k];
      && (r.Ok? <==> IsParty(a, user.id))
      && (r.Err? ==> r.error == BadRequest)
      && (r.Ok? ==> r.value == a.(status := Cancelled) && db.appointments == old(db.appointments)[k := r.value])
      && notified == if r.Ok? then [a.doctorUserId, a.patientUserId] else []
    ensures r.Err? ==> db.appointments == old(db.appointments) && notified == []
    ensures NeverRescheduled(old(db.appointments), db.appointments)
  {
    notified := [];
    var user :- CurrentUser(db.users, auth);
    var k := AppointmentWithId(db.appointments, id);
    if k.None? {
      return Err(NotFound), [];
    }
    var appointment := db.appointments[k.value];
    if !IsParty(appointment, user.id) {
      return Err(BadRequest), [];
    }
    appointment := appointment.(status := Cancelled);
    RetirePreservesSchedule(db.appointments, k.value, appointment);
    db.appointments := db.appointments[k.value := appointment];
    r := Ok(appointment);
    notified := CancellationRecipients(appointment, user.id);
  }

  /** completeAppointment: NotFound for a missing caller or id, BadRequest unless the
      caller is the appointment's doctor; otherwise the status becomes COMPLETED and the
      end time `now`, whatever the status was, and nothing else changes. */
  method CompleteAppointment(db: Database, auth: Option<string>, id: nat, now: int) returns (r: Result<Appointment>)
    requires db.Valid()
    modifies db`appointments
    ensures db.Valid()
    ensures CurrentUser(db.users, auth).Err? || AppointmentWithId(old(db.appointments), id).None? ==> r == Err(NotFound)
    ensures CurrentUser(db.users, auth).Ok? && AppointmentWithId(old(db.appointments), id).Some? ==>
      var user := CurrentUser(db.users, auth).value;
      var k := AppointmentWithId(old(db.appointments), id).value;
      var a := old(db.appointments)[k];
      && (r.Ok? <==> a.doctorUserId == user.id)
      && (r.Err? ==> r.error == BadRequest)
      && (r.Ok? ==> r.value == a.(status := Completed, endTime := now) && db.appointments == old(db.appointments)[k := r.value])
    ensures r.Err? ==> db.appointments == old(db.appointments)
    ensures NeverRescheduled(old(db.appointments), db.appointments)
  {
    var user :- CurrentUser(db.users, auth);
    var k := AppointmentWithId(db.appointments, id);
    if k.None? {
      return Err(NotFound);
    }
    var appointment := db.appointments[k.value];
    if appointment.doctorUserId != user.id {
      return Err(BadRequest);
    }
    appointment := appointment.(status := Completed, endTime := now);
    RetirePreservesSchedule(db.appointments, k.value, appointment);
    db.appointments := db.appointments[k.value := appointment];
    r := Ok(appointment);
  }
}
