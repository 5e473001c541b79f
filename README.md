# DAT Health scheduling core, in Dafny

This project models the service layer of the DAT Health doctor-appointment backend
(a Spring Boot application). The model covers six pieces:

- **Appointment scheduling** (`AppointmentServiceImpl`, `AppointmentRepo`). A patient books a
  one-hour slot with a doctor. The slot must start at least an hour ahead. The doctor must
  have no SCHEDULED appointment overlapping the hour before the slot or the slot itself.
  Appointments are listed by the caller's role, newest first. A party cancels an
  appointment, or the assigned doctor completes it.
- **Consultation notes** (`ConsultationServiceImpl`). Creating notes also completes the
  appointment. Notes can be looked up by appointment, and a patient's history is listed
  latest first.
- **Accounts** (`AuthServiceImpl`). Registration resolves the requested roles and creates
  one profile per PATIENT or DOCTOR role. The model also covers login checks and the
  password-reset code life cycle.
- **Profiles** (`DoctorServiceImpl`, `PatientServiceImpl`). A profile update only touches
  the fields that are supplied. The model also covers lookup by id and search by
  specialization.

The Spring Data repositories are fields of one `Store.Database` object:

- users, the role table, doctors, patients, appointments, consultations, and reset codes
  keyed by code.
- Tables are sequences. Row `i` has id `i + 1`, as the IDENTITY columns hand them out.
- An entity the source changes through setters and then saves becomes a record replaced
  at its index.

Time is whole minutes on one clock. `now` is a parameter of every operation that reads the
clock.

The caller is the authenticated e-mail, as an `Option`: `None` means nobody is
authenticated. `Store.CurrentUser` resolves it. The source's `NotFoundException` and
`BadRequestException` are the two `Common.Error` values. The global handler answers them
with HTTP 404 and 400.

Several values come from outside the model and are parameters instead:

- The meeting link and the generated reset code.
- The password encoder, as the functions `encode` and `matches`.

`Store.Database.Valid()` is the invariant every state-changing operation keeps:

- ids are numbered by position;
- e-mails are unique;
- every SCHEDULED appointment spans one slot;
- the schedule is buffered (`Store.BufferedSchedule`);
- each consultation references one existing appointment, and no two consultations reference the same one;
- each reset code belongs to an existing user.

The buffered-schedule rule works like this. Take two SCHEDULED appointments of one doctor.
The later-booked one either ends by the time the earlier one starts, or starts at least an
hour after it ends. This implies that no two SCHEDULED slots of a doctor overlap
(`Store.BufferedIsNonOverlapping`).

Notes on the code's behaviour:

- Only two error kinds exist, NotFound and BadRequest. A caller without the needed
  profile gets NotFound, except in the consultation history, where it gets BadRequest. A
  rule violation or an ownership failure gets BadRequest.
- Cancel and complete do not check the current status. A CANCELLED or COMPLETED
  appointment can be cancelled or completed again. This cannot bring a row back to
  SCHEDULED (`Store.NeverRescheduled`).
- The one-hour buffer is checked only before the new slot, not after it.
  `AppointmentService.BufferOnlyBeforeNewSlot` shows a slot accepted back-to-back
  before an existing one. The code comment at
  `appointment/service/AppointmentServiceImpl.java:71` says this is the intended rule.

## Model

| member | source | states |
|---|---|---|
| Common.HttpStatus | src/main/java/com/example/dat/exceptions/GlobalExceptionHandler.java:23-40 | NotFound is answered with 404 and BadRequest with 400, and no other error gets either code |
| Common.HasText | src/main/java/com/example/dat/doctor/service/DoctorServiceImpl.java:57-62 | StringUtils.hasText; its cases (missing, empty, all whitespace) are stated by `HasTextCases` |
| Common.HasTextCases | src/main/java/com/example/dat/doctor/service/DoctorServiceImpl.java:57-62 | a missing value and an empty string have no text; a string has no text exactly when all its characters are whitespace |
| Common.UpperChar | src/main/java/com/example/dat/users/service/AuthServiceImpl.java:73 | a lower-case ASCII letter maps to its upper-case letter; any other character is kept; the result is never a lower-case letter |
| Common.ToUpper | src/main/java/com/example/dat/users/service/AuthServiceImpl.java:73 | the ASCII upper-casing keeps the length and maps each character on its own; this is narrower than Java's `toUpperCase` (see Left out) |
| Common.ToUpperIdempotent | src/main/java/com/example/dat/users/service/AuthServiceImpl.java:73 | upper-casing an upper-cased name changes nothing |
| Store.FindIndex | src/main/java/com/example/dat/doctor/repo/DoctorRepo.java:13 | a repository lookup finds the first matching row, and finds none exactly when no row matches |
| Store.FindNumbered | src/main/java/com/example/dat/appointment/service/AppointmentServiceImpl.java:174-175 | in a table numbered by position, findById(k) is the row at index k-1, and is absent when k is outside 1..size |
| Store.BufferedIsNonOverlapping | src/main/java/com/example/dat/appointment/service/AppointmentServiceImpl.java:72-86 | in a buffered schedule, no two SCHEDULED appointments of one doctor share a minute |
| Store.RetirePreservesSchedule | src/main/java/com/example/dat/appointment/service/AppointmentServiceImpl.java:186-188 | giving one appointment a non-SCHEDULED status keeps the schedule buffered, whatever else changes in that row |
| Store.CurrentUser | src/main/java/com/example/dat/users/service/UserServiceImpl.java:46-57 | the caller resolves to a user exactly when someone is authenticated and that e-mail has an account; the user has that e-mail; both failures are NotFound |
| Store.DoctorOfUser | src/main/java/com/example/dat/doctor/repo/DoctorRepo.java:13 | the index of the first doctor profile of the user, none exactly when the user has no doctor profile |
| Store.PatientOfUser | src/main/java/com/example/dat/patient/repo/PatientRepo.java:11 | the index of the first patient profile of the user, none exactly when the user has no patient profile |
| Store.DoctorWithId | src/main/java/com/example/dat/doctor/service/DoctorServiceImpl.java:96-97 | findById on the doctor table: an index whose row has the id, none exactly when no row has it |
| Store.PatientWithId | src/main/java/com/example/dat/patient/service/PatientServiceImpl.java:94-95 | findById on the patient table: an index whose row has the id, none exactly when no row has it |
| Store.AppointmentWithId | src/main/java/com/example/dat/appointment/service/AppointmentServiceImpl.java:174-175 | findById on the appointment table: an index whose row has the id, none exactly when no row has it |
| AppointmentRepo.Conflicts | src/main/java/com/example/dat/appointment/repo/AppointmentRepo.java:21-26 | the WHERE clause for one row: same doctor, SCHEDULED, and the half-open intervals meet; its consequences are stated by `ConflictsAreScheduledOfDoctor` and `TouchingSlotsDoNotConflict` |
| AppointmentRepo.FindConflictingAppointments | src/main/java/com/example/dat/appointment/repo/AppointmentRepo.java:21-32 | the result holds exactly the doctor's SCHEDULED rows whose half-open interval meets [newStart, newEnd) |
| AppointmentRepo.ConflictsAreScheduledOfDoctor | src/main/java/com/example/dat/appointment/repo/AppointmentRepo.java:22-23 | a reported conflict is always the queried doctor's and SCHEDULED; CANCELLED and COMPLETED rows never conflict |
| AppointmentRepo.TouchingSlotsDoNotConflict | src/main/java/com/example/dat/appointment/repo/AppointmentRepo.java:26 | an interval that only touches the window at an end point is not reported |
| AppointmentRepo.NumberedIsAscending | src/main/java/com/example/dat/appointment/repo/AppointmentRepo.java:16-19 | in a table numbered by position, ids strictly increase with insertion |
| AppointmentRepo.SelectNewestFirstDescending | src/main/java/com/example/dat/appointment/repo/AppointmentRepo.java:16-19 | when ids increase with insertion, a newest-first selection is strictly descending by id |
| AppointmentRepo.FindByDoctorUserIdOrderByIdDesc | src/main/java/com/example/dat/appointment/repo/AppointmentRepo.java:16 | exactly the appointments whose doctor belongs to the user, of any status, in strictly descending id order |
| AppointmentRepo.FindByPatientUserIdOrderByIdDesc | src/main/java/com/example/dat/appointment/repo/AppointmentRepo.java:19 | exactly the appointments whose patient belongs to the user, of any status, in strictly descending id order |
| AppointmentService.Book | src/main/java/com/example/dat/appointment/service/AppointmentServiceImpl.java:50-111 | the decision of bookAppointment and the row it inserts; its outcomes are stated by `BookNotFound`, `BookRefusedIff` and `BookCreatesSlot` |
| AppointmentService.BookNotFound | src/main/java/com/example/dat/appointment/service/AppointmentServiceImpl.java:50-58 | booking fails with NotFound exactly when the caller is unknown, has no patient profile, or the doctor id is unknown |
| AppointmentService.BookRefusedIff | src/main/java/com/example/dat/appointment/service/AppointmentServiceImpl.java:63-86 | with both parties present, booking is BadRequest exactly when the start is before now + 60, or the doctor has a SCHEDULED [s, e) with s < start + 60 and e > start - 60; starting exactly at now + 60 passes |
| AppointmentService.BookCreatesSlot | src/main/java/com/example/dat/appointment/service/AppointmentServiceImpl.java:102-113 | an accepted booking is a SCHEDULED slot [start, start + 60) under the next id, with the request's text fields, the chosen doctor and the caller's patient profile |
| AppointmentService.BookKeepsScheduleBuffered | src/main/java/com/example/dat/appointment/service/AppointmentServiceImpl.java:72-86 | adding a SCHEDULED slot that has no conflict in [start - 60, end) keeps the schedule buffered |
| AppointmentService.BufferOnlyBeforeNewSlot | src/main/java/com/example/dat/appointment/service/AppointmentServiceImpl.java:71-82 | with 10:00-11:00 booked, a 9:00-10:00 slot for the same doctor is accepted; the schedule stays buffered, but there is no gap on both sides |
| AppointmentService.BackToBackScenario | src/main/java/com/example/dat/appointment/service/AppointmentServiceImpl.java:72-86 | with 10:00-11:00 booked, the check for 11:00-12:00 reports it, and the check for 12:00-13:00 reports nothing |
| AppointmentService.AppendSlotKeepsScheduleValid | src/main/java/com/example/dat/appointment/service/AppointmentServiceImpl.java:72-113 | appending a SCHEDULED one-slot row under the next id with no conflict in its buffered window keeps the appointment table valid |
| AppointmentService.CheckBooking | src/main/java/com/example/dat/appointment/service/AppointmentServiceImpl.java:50-111 | the lookups, the advance-notice check and the conflict check run in the source order and decide exactly as `Book`; nothing is saved |
| AppointmentService.BookKeepsScheduleValid | src/main/java/com/example/dat/appointment/service/AppointmentServiceImpl.java:72-113 | saving the row of an accepted booking keeps the appointment table valid: numbered, one slot per SCHEDULED row, and buffered |
| AppointmentService.BookAppointment | src/main/java/com/example/dat/appointment/service/AppointmentServiceImpl.java:48-123 | decides as `Book`, whose outcomes the three lemmas above characterise; on success it appends exactly the new row and changes no existing one; the database invariant holds afterwards |
| AppointmentService.GetMyAppointments | src/main/java/com/example/dat/appointment/service/AppointmentServiceImpl.java:127-167 | a DOCTOR-role caller gets exactly their doctor-side appointments and needs a doctor profile; any other caller gets exactly their patient-side appointments and needs a patient profile; the list is in strictly descending id order; every failure is NotFound |
| AppointmentService.IsParty | src/main/java/com/example/dat/appointment/service/AppointmentServiceImpl.java:179-180 | the ownership test of cancel: the caller is the patient or the doctor on the appointment; its use is stated by `CancelAppointment` and `CancellationRecipients` |
| AppointmentService.CancellationRecipients | src/main/java/com/example/dat/appointment/service/AppointmentServiceImpl.java:230-282 | the doctor and then the patient are e-mailed, and nobody is e-mailed exactly when the cancelling user is not a party |
| AppointmentService.CancelAppointment | src/main/java/com/example/dat/appointment/service/AppointmentServiceImpl.java:170-198 | NotFound for an unknown caller or id; succeeds exactly when the caller is the patient or doctor on it, else BadRequest with no change; success changes only that row's status, to CANCELLED, with no prior-status check, and notifies both parties; no row becomes SCHEDULED again |
| AppointmentService.CompleteAppointment | src/main/java/com/example/dat/appointment/service/AppointmentServiceImpl.java:201-228 | NotFound for an unknown caller or id; succeeds exactly when the caller is the assigned doctor, else BadRequest with no change; success sets status COMPLETED and end time `now`, changes nothing else, and has no prior-status check |
| ConsultationService.ConsultationOf | src/main/java/com/example/dat/consultation/repo/ConsultationRepo.java:12 | findByAppointmentId: the index of a consultation of the appointment, none exactly when no consultation references it |
| ConsultationService.ConsultationTarget | src/main/java/com/example/dat/consultation/service/ConsultationServiceImpl.java:40-49 | the lookups and the ownership check of createConsultation; their outcomes are stated by `ConsultationTargetCases` |
| ConsultationService.ConsultationTargetCases | src/main/java/com/example/dat/consultation/service/ConsultationServiceImpl.java:40-49 | NotFound exactly when the caller or the appointment is unknown; BadRequest exactly when both exist and the caller is not the appointment's doctor; otherwise the target is that appointment, and the caller is its doctor |
| ConsultationService.CheckConsultationTarget | src/main/java/com/example/dat/consultation/service/ConsultationServiceImpl.java:40-49 | the lookups and the ownership check, in the source order, decide exactly as `ConsultationTarget`; the index found is the appointment id minus one |
| ConsultationService.MarkCompleted | src/main/java/com/example/dat/consultation/service/ConsultationServiceImpl.java:51-52 | only the appointment's status changes, to COMPLETED, with its end time kept; the database invariant holds and no row becomes SCHEDULED again |
| ConsultationService.SaveConsultation | src/main/java/com/example/dat/consultation/service/ConsultationServiceImpl.java:59-68 | a consultation under the next id, for an existing appointment that has none yet, is appended and keeps the database invariant |
| ConsultationService.CreateConsultation | src/main/java/com/example/dat/consultation/service/ConsultationServiceImpl.java:38-75 | NotFound for an unknown caller or appointment, and BadRequest for a caller who is not the appointment's doctor, both with no change. An authorised call marks the appointment COMPLETED and leaves its end time as it was. A duplicate is then refused with BadRequest, but the appointment stays COMPLETED. Otherwise the four note fields are stored with date `now` under the next id |
| ConsultationService.GetConsultationByAppointmentId | src/main/java/com/example/dat/consultation/service/ConsultationServiceImpl.java:78-92 | succeeds exactly when the caller is known and some consultation references the appointment, with no ownership check; the result is that consultation; a failure is NotFound |
| ConsultationService.ConsultationsOfPatient | src/main/java/com/example/dat/consultation/repo/ConsultationRepo.java:14 | each consultation whose appointment belongs to the patient, as often as in the table, and no other |
| ConsultationService.InsertByDate | src/main/java/com/example/dat/consultation/repo/ConsultationRepo.java:14 | inserting into a latest-first list keeps it latest first and adds exactly the one consultation |
| ConsultationService.SortByDateDesc | src/main/java/com/example/dat/consultation/repo/ConsultationRepo.java:14 | the result is latest first and a permutation of the input |
| ConsultationService.FindByAppointmentPatientIdOrderByConsultationDateDesc | src/main/java/com/example/dat/consultation/repo/ConsultationRepo.java:14 | exactly the patient's consultations, each as often as in the table, ordered by consultation date, latest first |
| ConsultationService.GetConsultationHistoryForPatient | src/main/java/com/example/dat/consultation/service/ConsultationServiceImpl.java:95-132 | with no id, the caller's own patient profile is used, and BadRequest is returned without one; an unknown id is NotFound; otherwise the result is the patient's latest-first history, possibly empty |
| AuthService.RequestedRoleNames | src/main/java/com/example/dat/users/service/AuthServiceImpl.java:72-74 | a missing or empty list gives exactly ["PATIENT"]; otherwise each requested name is upper-cased, in order; every resulting name is already upper case |
| AuthService.ResolveRoles | src/main/java/com/example/dat/users/service/AuthServiceImpl.java:84-92 | keeps each requested name present in the role table as often as it was requested, and drops every other name; the result is empty exactly when no name is present |
| AuthService.ResolveRolesInOrder | src/main/java/com/example/dat/users/service/AuthServiceImpl.java:84-92 | resolution keeps request order: resolving a concatenation of requested lists is resolving each part in turn |
| AuthService.ResolveOneRole | src/main/java/com/example/dat/users/service/AuthServiceImpl.java:85-87 | a single requested name resolves to itself when the role table has it and to nothing otherwise; with the order lemma this fixes the resolved list |
| AuthService.MissingLicence | src/main/java/com/example/dat/users/service/AuthServiceImpl.java:77-81 | a DOCTOR request with a missing or blank licence number; its effect on registration is stated by `RegistrationRolesCases` |
| AuthService.RegistrationRoles | src/main/java/com/example/dat/users/service/AuthServiceImpl.java:67-92 | the decision of register and the roles it saves; its outcomes are stated by `RegistrationRolesCases` |
| AuthService.RegistrationRolesCases | src/main/java/com/example/dat/users/service/AuthServiceImpl.java:67-92 | a taken e-mail is BadRequest; otherwise DOCTOR without a licence is BadRequest; otherwise no requested role in the table is NotFound. The registration is accepted exactly when none of these holds, and then its roles are non-empty, all requested and all in the table |
| AuthService.CheckRegistration | src/main/java/com/example/dat/users/service/AuthServiceImpl.java:67-92 | the three checks, in the source order, decide exactly as `RegistrationRoles` |
| AuthService.PatientsAfterShape | src/main/java/com/example/dat/users/service/AuthServiceImpl.java:109-116 | after the first n roles, the existing patient rows are kept, one blank profile of the user is added per PATIENT among those roles, and each added row's id is its position |
| AuthService.NewPatientsShape | src/main/java/com/example/dat/users/service/AuthServiceImpl.java:109-116 | registration keeps every existing patient profile and adds one blank profile of the new user per PATIENT entry; each added row's id is its position |
| AuthService.DoctorsAfterShape | src/main/java/com/example/dat/users/service/AuthServiceImpl.java:109-121 | after the first n roles, the existing doctor rows are kept, one profile of the user with the request's specialization and licence is added per DOCTOR among those roles, and each added row's id is its position |
| AuthService.NewDoctorsShape | src/main/java/com/example/dat/users/service/AuthServiceImpl.java:109-121 | registration keeps every existing doctor profile and adds one profile of the new user per DOCTOR entry, with the request's specialization and licence; each added row's id is its position |
| AuthService.ProfilesOnlyForPatientAndDoctor | src/main/java/com/example/dat/users/service/AuthServiceImpl.java:123-130 | a role list without PATIENT and DOCTOR creates no profile |
| AuthService.AppendKeepsNumbered | src/main/java/com/example/dat/users/service/AuthServiceImpl.java:262-283 | the created profiles continue the id numbering of both profile tables |
| AuthService.CreateProfileFor | src/main/java/com/example/dat/users/service/AuthServiceImpl.java:112-130 | PATIENT appends a blank patient profile under the next id, DOCTOR a doctor profile under the next id; ADMIN and any other role change nothing, and no case touches the other table |
| AuthService.CreateProfiles | src/main/java/com/example/dat/users/service/AuthServiceImpl.java:109-131 | the loop appends exactly the patient and doctor profiles its roles call for, in role order |
| AuthService.SaveAccount | src/main/java/com/example/dat/users/service/AuthServiceImpl.java:94-131 | saving a new user under the next id with an unused e-mail, together with its profiles, keeps the database invariant |
| AuthService.Register | src/main/java/com/example/dat/users/service/AuthServiceImpl.java:65-144 | a refusal, decided as `RegistrationRoles` (whose cases are stated above), returns its error and saves nothing. Success saves the user under the next id with the resolved roles and the encoded password, creates exactly the profiles the shape lemmas describe, keeps the database invariant and returns the e-mail |
| AuthService.Login | src/main/java/com/example/dat/users/service/AuthServiceImpl.java:147-172 | an unknown e-mail is NotFound; a password that does not match is BadRequest; otherwise the result is the user's role names |
| AuthService.ExpiryDate | src/main/java/com/example/dat/users/service/AuthServiceImpl.java:301-303 | a reset code expires five hours (300 minutes) after `now` |
| AuthService.WithoutUserCodes | src/main/java/com/example/dat/users/repo/PasswordResetRepo.java:11 | removes exactly the user's codes and keeps every other code unchanged |
| AuthService.ForgetPassword | src/main/java/com/example/dat/users/service/AuthServiceImpl.java:175-210 | an unknown e-mail is NotFound with no change; otherwise the user's old codes are replaced by one unused code expiring in five hours, so `code` is the user's only code, and other users' codes are kept |
| AuthService.UpdatePasswordViaResetCode | src/main/java/com/example/dat/users/service/AuthServiceImpl.java:213-258 | an unknown code is BadRequest with no change. An expired code (expiry before `now`) is deleted and refused, and the password is kept. A valid code sets only its owner's password to the new encoded one and is deleted. Either way the code is gone afterwards |
| DoctorService.MergeDoctor | src/main/java/com/example/dat/doctor/service/DoctorServiceImpl.java:57-64 | the profile the update leaves behind; field by field as stated by `MergeDoctorFields` |
| DoctorService.MergeDoctorFields | src/main/java/com/example/dat/doctor/service/DoctorServiceImpl.java:56-66 | a name is overwritten exactly when the supplied one has text, and the specialization exactly when one is supplied; id, user link and licence never change |
| DoctorService.MergeDoctorIdempotent | src/main/java/com/example/dat/doctor/service/DoctorServiceImpl.java:56-66 | applying the same update twice gives the profile that applying it once gives |
| DoctorService.EmptyDoctorUpdateKeepsProfile | src/main/java/com/example/dat/doctor/service/DoctorServiceImpl.java:56-64 | an update with blank names and no specialization changes nothing |
| DoctorService.ApplyDoctorUpdate | src/main/java/com/example/dat/doctor/service/DoctorServiceImpl.java:56-66 | the conditional setters, applied in order, give exactly the merged profile |
| DoctorService.UpdateDoctorProfile | src/main/java/com/example/dat/doctor/service/DoctorServiceImpl.java:49-74 | NotFound, with no change, exactly when the caller is unknown or has no doctor profile; otherwise only the caller's profile changes, to its merge with the request |
| DoctorService.GetDoctorById | src/main/java/com/example/dat/doctor/service/DoctorServiceImpl.java:94-104 | succeeds exactly when a doctor has the id, and returns that doctor; otherwise NotFound |
| DoctorService.FindBySpecialization | src/main/java/com/example/dat/doctor/repo/DoctorRepo.java:15 | every doctor with that specialization, as often as in the table, and no other |
| DoctorService.FindBySpecializationMembers | src/main/java/com/example/dat/doctor/repo/DoctorRepo.java:15 | a doctor is in the result exactly when it is in the table with that specialization |
| DoctorService.SearchDoctorsBySpecialization | src/main/java/com/example/dat/doctor/service/DoctorServiceImpl.java:107-126 | the matching doctors, and a message that names the specialization; its prefix depends only on whether the list is empty |
| PatientService.MergePatient | src/main/java/com/example/dat/patient/service/PatientServiceImpl.java:59-79 | the profile the update leaves behind; field by field as stated by `MergePatientFields` |
| PatientService.MergePatientFields | src/main/java/com/example/dat/patient/service/PatientServiceImpl.java:58-81 | first and last name, phone and allergies are overwritten exactly when the supplied value has text; date of birth, blood group and genotype exactly when supplied; id and user link never change |
| PatientService.MergePatientIdempotent | src/main/java/com/example/dat/patient/service/PatientServiceImpl.java:58-81 | applying the same update twice gives the profile that applying it once gives |
| PatientService.MergePatientTwice | src/main/java/com/example/dat/patient/service/PatientServiceImpl.java:58-81 | two updates in a row equal one update where each field takes the later value if it counts, else the earlier one |
| PatientService.ApplyPatientUpdate | src/main/java/com/example/dat/patient/service/PatientServiceImpl.java:58-81 | the seven conditional setters, applied in order, give exactly the merged profile |
| PatientService.UpdatePatientProfile | src/main/java/com/example/dat/patient/service/PatientServiceImpl.java:49-89 | NotFound, with no change, exactly when the caller is unknown or has no patient profile; otherwise only the caller's profile changes, to its merge with the request |
| PatientService.GetPatientById | src/main/java/com/example/dat/patient/service/PatientServiceImpl.java:92-104 | succeeds exactly when a patient has the id, and returns that patient; otherwise NotFound |

## Left out

- Notification e-mails are left out: their templates, subjects and delivery. Cancellation keeps only the list of recipients.
- The JWT token that login returns is left out.
- The welcome e-mail, the reset e-mail and log lines are left out.
- The meeting-link generator (a random UUID) and the unique reset-code generator are parameters.
- ForgetPassword: the unique-code generator is trusted, so the model requires `code` to be absent from the table.
- Password hashing is left out. It is the pair of parameters `encode` and `matches`.
- The clock (`LocalDateTime.now()`) is the parameter `now`. Times are whole minutes, and calendar formatting is left out.
- ModelMapper DTO conversion and the response wrappers are left out. Services return the entities, and the search also returns its message.
- Controllers and their `@PreAuthorize` role checks are left out.
- The model has no concurrency. Two bookings racing past the conflict check at the same time are not modelled. Each operation is one atomic step.
- Specialization, blood group and genotype are Java enums. The model keeps them as their constant names (strings), so enum membership is not checked.
- Common.UpperChar: upper-cases ASCII letters only, as a one-to-one character map with no locale. Java's `String.toUpperCase` also maps other letters: the dotless "ı" becomes "I", so the requested role "patıent" registers a patient in the source, while the model answers NotFound. The role table's names are ASCII, but the requested names are user input.
- Common.ToUpper: keeps the length and ignores the locale, unlike Java's `toUpperCase`. Java can lengthen a string ("ß" becomes "SS"). Its result also depends on the default locale: under a Turkish locale "patient" becomes "PATİENT", which matches no role.
- The `used` flag of a reset code is stored as false and never read. A code is single-use only because it is deleted.
- Store.DoctorOfUser, Store.PatientOfUser: `findByUser` is a single-result query. Registering with a repeated role (["PATIENT", "PATIENT"]) creates two profiles of one user. The source then fails in bookAppointment, getMyAppointments, the profile updates and the consultation history with a non-unique-result error, answered with 500. The model takes the user's first profile and succeeds.
- Errors other than NotFoundException and BadRequestException are left out: database failures, a non-unique query result, a null dereference. The catch-all handler at `exceptions/GlobalExceptionHandler.java:13-20` answers them with 500, and the model has no such outcome.
- These operations of the core files are outside the modelled core: getDoctorProfile, getAllDoctors, getAllSpecializationEnums, getPatientProfile, getAllBloodGroupEnums and getAllGenotypeEnums.
