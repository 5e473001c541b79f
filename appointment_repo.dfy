/** The three queries of the appointment repository, as filters over the table in
    insertion (id) order. */
module AppointmentRepo {
  import opened Store

  /** The JPQL condition of findConflictingAppointments for one row: the same doctor,
      still SCHEDULED, and [a.startTime, a.endTime) overlaps [newStart, newEnd). */
  predicate Conflicts(a: Appointment, doctorId: nat, newStart: int, newEnd: int) {
    && a.doctorId == doctorId
    && a.status == Scheduled
    && a.startTime < newEnd
    && a.endTime > newStart
  }

  /** findConflictingAppointments. The query has no ORDER BY; the model keeps table order. */
  function FindConflictingAppointments(rows: seq<Appointment>, doctorId: nat, newStart: int, newEnd: int): (r: seq<Appointment>)
    ensures forall a :: a in r <==> a in rows && Conflicts(a, doctorId, newStart, newEnd)
    ensures |r| <= |rows|
  {
    if |rows| == 0 then []
    else
      (if Conflicts(rows[0], doctorId, newStart, newEnd) then [rows[0]] else [])
      + FindConflictingAppointments(rows[1..], doctorId, newStart, newEnd)
  }

  /** Only the queried doctor's SCHEDULED appointments are ever reported: a CANCELLED or
      COMPLETED one, or another doctor's, never conflicts. */
  lemma ConflictsAreScheduledOfDoctor(rows: seq<Appointment>, doctorId: nat, newStart: int, newEnd: int)
    ensures var r := FindConflictingAppointments(rows, doctorId, newStart, newEnd);
      forall a :: a in r ==> a.doctorId == doctorId && a.status == Scheduled
  {
  }

  /** Touching intervals do not conflict: a row ending exactly at `newStart` or starting
      exactly at `newEnd` is not reported. */
  lemma TouchingSlotsDoNotConflict(rows: seq<Appointment>, doctorId: nat, newStart: int, newEnd: int, a: Appointment)
    requires a.endTime == newStart || a.startTime == newEnd
    ensures a !in FindConflictingAppointments(rows, doctorId, newStart, newEnd)
  {
  }

  ghost predicate IdsAscending(rows: seq<Appointment>) {
    forall i, j :: 0 <= i < j < |rows| ==> rows[i].id < rows[j].id
  }

  ghost predicate IdsDescending(rows: seq<Appointment>) {
    forall i, j :: 0 <= i < j < |rows| ==> rows[i].id > rows[j].id
  }

  lemma NumberedIsAscending(rows: seq<Appointment>)
    requires Numbered(rows, (a: Appointment) => a.id)
    ensures IdsAscending(rows)
  {
  }

  /** The rows satisfying `p`, last-inserted first. */
  function SelectNewestFirst(rows: seq<Appointment>, p: Appointment -> bool): (r: seq<Appointment>)
    ensures forall a :: a in r <==> a in rows && p(a)
    ensures |r| <= |rows|
  {
    if |rows| == 0 then []
    else
      var last := rows[|rows| - 1];
      (if p(last) then [last] else []) + SelectNewestFirst(rows[..|rows| - 1], p)
  }

  /** In a table whose ids grow with insertion, newest-first is strictly descending id. */
  lemma {:induction false} SelectNewestFirstDescending(rows: seq<Appointment>, p: Appointment -> bool)
    requires IdsAscending(rows)
    ensures IdsDescending(SelectNewestFirst(rows, p))
  {
    if |rows| > 0 {
      var init, last := rows[..|rows| - 1], rows[|rows| - 1];
      SelectNewestFirstDescending(init, p);
      var rest := SelectNewestFirst(init, p);
      forall x | x in rest ensures x.id < last.id {
        var i :| 0 <= i < |init| && init[i] == x;
      }
    }
  }

  /** findByDoctor_User_IdOrderByIdDesc: every appointment whose doctor belongs to user
      `userId`, whatever its status, by descending id. */
  function FindByDoctorUserIdOrderByIdDesc(rows: seq<Appointment>, userId: nat): (r: seq<Appointment>)
    ensures forall a :: a in r <==> a in rows && a.doctorUserId == userId
    ensures IdsAscending(rows) ==> IdsDescending(r)
  {
    var p := (a: Appointment) => a.doctorUserId == userId;
    assert IdsAscending(rows) ==> IdsDescending(SelectNewestFirst(rows, p)) by {
      if IdsAscending(rows) { SelectNewestFirstDescending(rows, p); }
    }
    SelectNewestFirst(rows, p)
  }

  /** findByPatient_User_IdOrderByIdDesc: every appointment whose patient belongs to user
      `userId`, whatever its status, by descending id. */
  function FindByPatientUserIdOrderByIdDesc(rows: seq<Appointment>, userId: nat): (r: seq<Appointment>)
    ensures forall a :: a in r <==> a in rows && a.patientUserId == userId
    ensures IdsAscending(rows) ==> IdsDescending(r)
  {
    var p := (a: Appointment) => a.patientUserId == userId;
    assert IdsAscending(rows) ==> IdsDescending(SelectNewestFirst(rows, p)) by {
      if IdsAscending(rows) { SelectNewestFirstDescending(rows, p); }
    }
    SelectNewestFirst(rows, p)
  }
}
