# Hospital management system: access decisions and page state, in Dafny

This project models the hospital management system in two parts.

- **Backend.** The FastAPI backend's role-gated, owner-scoped record access: token resolution, the role gate, registration and login, and every endpoint of the appointment, prescription, patient, doctor, lab, pharmacy, hospital and system-administrator routers.
  - Each endpoint is a pure function of the caller, the tables it touches (`map<int, Row>`, keyed by primary key) and its arguments.
  - It returns a `Result` holding either the reply or the HTTP status it raises. A write also returns the table afterwards (`Keys.Stored`).
  - Partial updates (`exclude_unset`) are `Patch` values: `Unset` for a field the client left out, `Set(v)` for one it sent, an explicit null included.
- **Frontend.** The pure state updates inside the React pages:
  - the mock session of the authentication provider;
  - the item-count carts;
  - list status changes and their filters;
  - the editable medication list;
  - zero-padded identifier generation;
  - the sign-up wizard;
  - the password-change dialog.

Each operation is paired with a second fact about it, proved for all inputs. For the endpoints that fact is one of:
- a listing that agrees with an ownership rule;
- an update that is idempotent or changes nothing when empty;
- a create whose row can be read back;
- a placeholder that stores nothing.

For the pages it is one of:
- a remove that undoes an add;
- a toggle that undoes itself;
- a click sequence that keeps an invariant;
- a generated identifier that stays fresh.

Where the code and the written design disagree, the model follows the code:
- **Role names.** The backend's roles are exactly `admin`, `hospital_admin`, `system_admin`, `doctor`, `patient`, `lab_worker` and `pharmacist`. There is no `lab_technician`.
- **Hospital scope.** A hospital admin is never restricted to their own hospital (`Hospitals.NotScopedToOwnHospital`).
- **Inventory.** An inventory update overwrites the stock. It is not a batch merge.
- **Login token.** The token has no `exp` claim, and its `sub` is the username, not the email.
- **Username column.** The `User` ORM model has no `username` column, although registration, login and token resolution all filter on it. As written those three always fail (see Findings). Two repairs are possible:
  - give the table a `username` column, as the endpoints, the schemas and the login claims assume;
  - authenticate by email, which the migration script (backend/init_db.py:36-40), the name of the decoded subject (backend/app/core/security.py:35) and the client's login call (lib/api.ts:59-62) point to.

  The rest of the model takes the first reading and gives `Users.User` a `username` column. Under the second, `Users.FirstByUsername` would look up the email instead, and the proofs would carry over unchanged.
- **Client role names.** The client's role names differ from the server's (`hospitalAdmin`/`lab` against `hospital_admin`/`lab_worker`). The two are kept apart: `AuthProvider` uses the client strings and `Roles` the server strings.

The uncaught Python exceptions that turn into a 500 are modelled as `Http.InternalError`. They arise in these places:
- a NOT NULL column set to null;
- a required response field that is null, such as a prescription's medication text, which the update route lets a client set to null;
- the `AttributeError` raised by a filter on the missing `User.username` (Findings);
- the duplicated keyword argument in the department create (Findings);
- the `UserRead` response model, whose `created_at` is declared a string but filled from a timestamp column (Findings).

## Model

| member | source | states |
|---|---|---|
| Users.FirstByUsername | backend/app/core/dependencies.py:33 | `.first()` on a username filter: absent exactly when no row has that username, otherwise the least key among the matching rows |
| Keys.NextId | backend/app/db/models/appointment.py:10 | an integer primary key's next row id: new, above every stored key, 1 for an empty table, and one past the largest key |
| Dependencies.Subject | backend/app/core/dependencies.py:27-30 | a subject exists exactly when the token decodes and its `sub` claim is a string, and it is that string |
| Dependencies.GetCurrentUser | backend/app/core/dependencies.py:18-36 | every failure is 401; an unset or empty secret, a decode error, or a missing or non-string `sub` each fail; success holds exactly when a stored user has the subject's username, and the result is the first such stored row |
| Dependencies.RequireRoles | backend/app/core/dependencies.py:38-43 | passes the user through unchanged exactly when the stored role is one of the listed strings, else 403 |
| Dependencies.Authorize | backend/app/core/dependencies.py:18-43 | a route's dependency chain: 401 when authentication fails, otherwise the role gate applied to the authenticated user |
| Dependencies.GateIgnoresTokenRoleClaim | backend/app/core/dependencies.py:33-40 | two tokens naming the same subject get the same decision whatever `role` claim they carry: the gate reads the stored role |
| Dependencies.GetCurrentUserAsWritten | backend/app/core/dependencies.py:18-36 | as written no token authenticates: 401 when a token check fails, otherwise 500 at the username lookup |
| Dependencies.GetCurrentUserAsWrittenFails | backend/app/core/dependencies.py:33 | a well-formed token for a stored user: the corrected lookup returns the user, the code as written a 500 |
| Security.TokenClaims | backend/app/core/security.py:19-24 | the encoded claims are the caller's claims plus `exp`; `exp` is now + delta, or now + 15 minutes when the delta is absent or zero |
| Security.CreateAccessToken | backend/app/core/security.py:18-28 | fails exactly when no secret is configured; otherwise the token encodes the claims of `TokenClaims` with the configured secret and algorithm |
| Security.PyStr | backend/app/core/security.py:38 | Python's `str` of a claim value: a string is itself, an integer its decimal digits, a boolean `True` or `False`, a null `None` |
| Security.VerifyToken | backend/app/core/security.py:30-40 | None on a missing secret, a decode error, or an absent or null `sub`; otherwise `str(sub)` |
| Security.CreatedTokenVerifies | backend/app/core/security.py:18-40 | a token from `create_access_token` verifies to `str` of its subject, for any expiry, given a library that decodes what it encoded |
| Auth.Register | backend/app/api/v1/endpoints/auth.py:12-28 | 400 exactly when the username or the email is taken; otherwise a fresh id holding an active user with the requested role and the hash of the password; a missing full name fails at the NOT NULL column. This is the intended reply; the reply as written is `Auth.RegisterReplyAsWritten` |
| Auth.LoginClaims | backend/app/api/v1/endpoints/auth.py:35 | the login claims are exactly `sub` = username and `role` = stored role, with no `exp` |
| Auth.Login | backend/app/api/v1/endpoints/auth.py:30-37 | a token exactly when a secret is configured and the username exists with a matching password; one 401 for both an unknown username and a wrong password; with no secret a 500; on success the token encodes exactly the login claims and the type is "bearer" |
| Auth.RegisteredUserCanLogIn | backend/app/api/v1/endpoints/auth.py:12-37 | a user who has just registered logs in with the same password |
| Auth.LoginTokenAuthenticates | backend/app/api/v1/endpoints/auth.py:30-37 | the login token authenticates its holder as the user who logged in |
| Auth.RegisterAsWritten | backend/app/api/v1/endpoints/auth.py:12-16 | as written every registration is a 500, raised before the duplicate check |
| Auth.LoginAsWritten | backend/app/api/v1/endpoints/auth.py:30-34 | as written every login is a 500, raised before the credential check |
| Auth.RegisterAsWrittenFails | backend/app/api/v1/endpoints/auth.py:14 | a first registration: the corrected endpoint stores the user, the code as written a 500 |
| Auth.LoginAsWrittenFails | backend/app/api/v1/endpoints/auth.py:32 | that user logging in with the right password: the corrected endpoint issues a token, the code as written a 500 |
| Auth.RegisterReplyAsWritten | backend/app/api/v1/endpoints/auth.py:12-28 | as written registration never answers with the user: 400 exactly when the username or email is taken, otherwise the row is committed and the reply is a 500 |
| Auth.RetryAfterReplyFailureRejected | backend/app/api/v1/endpoints/auth.py:12-28 | a first registration gets a 500, and retrying the same request then gets a 400, because the first attempt was stored |
| Appointments.ListAppointments | backend/app/api/v1/endpoints/appointments.py:11-18 | a patient gets exactly the rows with their `patient_id`, a doctor exactly those with their `doctor_id`, an admin or hospital admin the whole table; other roles 403 |
| Appointments.CreateAppointment | backend/app/api/v1/endpoints/appointments.py:20-27 | patients only; a fresh row whose owners come from the body, with status "scheduled" when left out or null |
| Appointments.CreatedListedIffOwnPatient | backend/app/api/v1/endpoints/appointments.py:11-27 | a created appointment is in the creating patient's listing, as stored, exactly when its `patient_id` is the caller's own id |
| Appointments.UpdateAppointment | backend/app/api/v1/endpoints/appointments.py:29-43 | 404 before ownership; a patient or doctor touching another's appointment gets 403, a hospital admin never does; only the sent fields change, the owners never; nulling the NOT NULL time is a 500 |
| Appointments.Owns | backend/app/api/v1/endpoints/appointments.py:35-38 | a patient owns a row exactly when its `patient_id` is theirs, a doctor exactly when its `doctor_id` is theirs, and every other caller owns every row |
| Appointments.Patched | backend/app/api/v1/endpoints/appointments.py:39-40 | fields left out keep their value and sent ones replace it; the owners never change |
| Appointments.DeleteAppointment | backend/app/api/v1/endpoints/appointments.py:45-54 | removes exactly the one row; a patient only their own; doctors fail the gate |
| Appointments.UpdatableIffListed | backend/app/api/v1/endpoints/appointments.py:11-43 | for a patient or doctor, the rows they may update are exactly the rows their listing shows |
| Appointments.EmptyUpdateChangesNothing | backend/app/api/v1/endpoints/appointments.py:39-40 | an update that sets no field leaves the table as it was |
| Appointments.UpdateIdempotent | backend/app/api/v1/endpoints/appointments.py:29-43 | repeating an update changes nothing further |
| Appointments.DeletedRowNotFound | backend/app/api/v1/endpoints/appointments.py:29-54 | after a delete, any later update of that id is a 404 |
| Prescriptions.ListPrescriptions | backend/app/api/v1/endpoints/prescriptions.py:11-17 | 403 exactly for a role outside the four allowed; 500 exactly when a selected row has no medication text (`PrescriptionRead.medications` is a required string); otherwise the rows with the caller's own `patient_id` (patient), own `doctor_id` (doctor) or all rows, as stored |
| Prescriptions.CreatePrescription | backend/app/api/v1/endpoints/prescriptions.py:19-25 | doctors only; a fresh row stamped with the clock, carrying the body's fields |
| Prescriptions.CreatedOwnedIffOwnDoctor | backend/app/api/v1/endpoints/prescriptions.py:11-38 | update of a created prescription is refused with 403 exactly when its `doctor_id` is not the caller; the create leaves the listing answering as before (500 or not), and when it answers, the new row is in it exactly when its `doctor_id` is the caller |
| Prescriptions.UpdatePrescription | backend/app/api/v1/endpoints/prescriptions.py:27-38 | 404 first; a doctor may touch only their own, a hospital admin any, patients fail the gate; owners and issue date never change; a row left without medication text cannot be returned (500) |
| Prescriptions.GetPatientPrescriptions | backend/app/api/v1/endpoints/prescriptions.py:45-49 | 403 exactly for a role outside the four allowed or a patient asking for another id; otherwise 500 exactly when one of that patient's rows has no medication text, and else exactly that patient's prescriptions, as stored |
| Prescriptions.OwnPrescriptionsAgreeWithListing | backend/app/api/v1/endpoints/prescriptions.py:11-49 | a patient asking by their own id gets what the general listing gives them |
| Prescriptions.DoctorMayUpdateIffListed | backend/app/api/v1/endpoints/prescriptions.py:11-38 | for a doctor, update is refused with 403 exactly on the rows the listing selects for them; when the listing answers, exactly on the rows it does not return |
| Prescriptions.UpdatePrescriptionCommitted | backend/app/api/v1/endpoints/prescriptions.py:27-38 | the table a PUT leaves behind: the updated table on success, unchanged on 403 or 404, and on the 500 the row already committed with its medication text cleared and the notes patched, every other row untouched |
| Prescriptions.NulledRowBreaksListings | backend/app/api/v1/endpoints/prescriptions.py:11-49 | a hospital admin's PUT with `"medications": null` answers 500 and commits the null, after which every listing that selects the row answers 500 too |
| Patients.ListPatients | backend/app/api/v1/endpoints/patients.py:10-12 | the whole table to admin, doctor and hospital admin; patients 403 |
| Patients.GetPatient | backend/app/api/v1/endpoints/patients.py:14-22 | 404 before permission; a patient reads only the row whose `user_id` is theirs |
| Patients.Patched | backend/app/api/v1/endpoints/patients.py:31-32 | fields left out keep their value, sent ones (null included) replace it; `user_id` never changes |
| Patients.UpdatePatient | backend/app/api/v1/endpoints/patients.py:24-35 | the ownership rule of `get_patient`, then the partial update; doctors fail the gate |
| Patients.AddMedicalHistory | backend/app/api/v1/endpoints/patients.py:37-46 | doctors and hospital admins, else 403; 404 on an unknown id, and no other failure, so a permitted caller on an existing id succeeds; only `medical_history` changes, and only for a truthy value; otherwise the row is returned as stored |
| Patients.PatientReadIffUpdate | backend/app/api/v1/endpoints/patients.py:14-35 | for a patient, reading and updating a record succeed or fail alike, with the same status |
| Patients.HistoryIsNarrowUpdate | backend/app/api/v1/endpoints/patients.py:24-46 | for a hospital admin, adding a non-empty history stores what an update of that one field stores |
| Patients.HistoryIdempotent | backend/app/api/v1/endpoints/patients.py:37-46 | adding the same history twice leaves the table as after the first |
| Patients.EmptyUpdateChangesNothing | backend/app/api/v1/endpoints/patients.py:31-32 | an update setting no field leaves the table as it was |
| Doctors.ListDoctors | backend/app/api/v1/endpoints/doctors.py:10-12 | the whole table to admin, hospital admin and patient; a doctor gets 403 |
| Doctors.GetDoctor | backend/app/api/v1/endpoints/doctors.py:14-21 | 404 first; a doctor reads only the row whose `user_id` is theirs |
| Doctors.Patched | backend/app/api/v1/endpoints/doctors.py:30-31 | only sent fields change; `user_id` never |
| Doctors.UpdateDoctor | backend/app/api/v1/endpoints/doctors.py:23-34 | the ownership rule of `get_doctor`, then the partial update; patients fail the gate |
| Doctors.GetDoctorSchedule | backend/app/api/v1/endpoints/doctors.py:36-39 | echoes the path id with an empty schedule |
| Doctors.UpdateDoctorSchedule | backend/app/api/v1/endpoints/doctors.py:41-44 | echoes the path id with an empty schedule behind the doctor/hospital-admin gate |
| Doctors.ScheduleSkipsProfileChecks | backend/app/api/v1/endpoints/doctors.py:14-39 | a doctor reads a schedule for another doctor's id, or an unknown id, though reading that profile fails |
| Doctors.ScheduleUpdateNotStored | backend/app/api/v1/endpoints/doctors.py:36-44 | after a schedule update the schedule read gives the same empty reply: nothing is stored |
| Doctors.DoctorReadIffUpdate | backend/app/api/v1/endpoints/doctors.py:14-34 | for a doctor, reading and updating a profile succeed or fail alike |
| Doctors.UpdateIdempotent | backend/app/api/v1/endpoints/doctors.py:23-34 | repeating an update gives the same result |
| Lab.ListLabTests | backend/app/api/v1/endpoints/lab.py:12-14 | the whole catalogue to admin, lab worker, doctor, hospital admin and patient |
| Lab.CreateLabOrder | backend/app/api/v1/endpoints/lab.py:17-23 | a fresh order stamped with the clock; status "pending" when left out or null |
| Lab.GetLabOrder | backend/app/api/v1/endpoints/lab.py:25-30 | 403 only outside the gate, 404 only on an unknown id, and no other failure: any permitted caller reads any existing order, with no ownership filter |
| Lab.UpdateLabResult | backend/app/api/v1/endpoints/lab.py:33-42 | lab workers and doctors only; 404 on an unknown id; no other failure; the result text changes only when sent and the report time never |
| Lab.CreatedOrderReadable | backend/app/api/v1/endpoints/lab.py:17-30 | whoever creates an order reads back exactly the stored row |
| Lab.PatientReadsAnyOrder | backend/app/api/v1/endpoints/lab.py:25-30 | a patient reads an order placed for someone else |
| Lab.CreateKeepsOtherOrders | backend/app/api/v1/endpoints/lab.py:17-30 | creating an order leaves every existing order readable and unchanged |
| Lab.ResultUpdateIdempotent | backend/app/api/v1/endpoints/lab.py:33-42 | re-sending a result update gives the same result |
| Pharmacy.ListMedicines | backend/app/api/v1/endpoints/pharmacy.py:12-14 | the whole table to admin, pharmacist, doctor, hospital admin and patient |
| Pharmacy.CreatePharmacyOrder | backend/app/api/v1/endpoints/pharmacy.py:17-23 | patients only; a fresh order stamped with the clock; status "pending" when left out or null |
| Pharmacy.GetPharmacyOrder | backend/app/api/v1/endpoints/pharmacy.py:25-30 | 403 only outside the gate, 404 only on an unknown id, and no other failure: any permitted caller reads any existing order |
| Pharmacy.ListInventory | backend/app/api/v1/endpoints/pharmacy.py:33-35 | the whole table to admin, pharmacist and hospital admin |
| Pharmacy.UpdateInventory | backend/app/api/v1/endpoints/pharmacy.py:37-45 | pharmacist or hospital admin; 404 on an unknown id; no other failure; the stock becomes the given value and the medicine id stays |
| Pharmacy.GetOrderStatus | backend/app/api/v1/endpoints/pharmacy.py:47-52 | the stored status of any existing order; the only failures are 403 outside the gate and 404 on an unknown id |
| Pharmacy.InventoryLastWriteWins | backend/app/api/v1/endpoints/pharmacy.py:37-45 | two stock writes leave what the second alone would: an overwrite, not an increment |
| Pharmacy.NewOrderIsPending | backend/app/api/v1/endpoints/pharmacy.py:17-52 | a new order whose status is left out or null reports "pending" to its creator |
| Pharmacy.StatusAgreesWithOrder | backend/app/api/v1/endpoints/pharmacy.py:25-52 | the status route answers exactly when the order route does, with that order's status |
| Hospitals.ListDepartments | backend/app/api/v1/endpoints/hospitals.py:10-12 | exactly the departments whose `hospital_id` is the path id |
| Hospitals.CreateDepartmentAsWritten | backend/app/api/v1/endpoints/hospitals.py:14-20 | as written the route never succeeds: 403 outside the gate, 500 inside it |
| Hospitals.CreateDepartment | backend/app/api/v1/endpoints/hospitals.py:14-20 | as intended: a fresh department with the body's name that belongs to the path's hospital |
| Hospitals.ListStaff | backend/app/api/v1/endpoints/hospitals.py:22-24 | exactly the staff whose `hospital_id` is the path id |
| Hospitals.HospitalReports | backend/app/api/v1/endpoints/hospitals.py:26-29 | echoes the path id with no reports |
| Hospitals.HospitalAnalytics | backend/app/api/v1/endpoints/hospitals.py:31-34 | echoes the path id with empty analytics |
| Hospitals.CreateDepartmentAsWrittenFails | backend/app/api/v1/endpoints/hospitals.py:16 | a hospital admin creating "Cardiology" in hospital 1 gets a 500 |
| Hospitals.CreatedDepartmentListed | backend/app/api/v1/endpoints/hospitals.py:10-20 | with the intended behaviour, a created department is listed for its hospital and for no other |
| Hospitals.NotScopedToOwnHospital | backend/app/api/v1/endpoints/hospitals.py:10-34 | whether a route admits a caller does not depend on the hospital id |
| SystemAdmin.Dashboard | backend/app/api/v1/endpoints/system_admin.py:12-15 | "system_admin" only; a constant placeholder |
| SystemAdmin.ListHospitals | backend/app/api/v1/endpoints/system_admin.py:17-19 | "system_admin" only; the whole table unfiltered |
| SystemAdmin.ListUsers | backend/app/api/v1/endpoints/system_admin.py:21-23 | "system_admin" only; every user. This is the intended reply; the reply as written is `SystemAdmin.ListUsersAsWritten` |
| SystemAdmin.CrossHospitalReports | backend/app/api/v1/endpoints/system_admin.py:25-28 | "system_admin" only; an empty list |
| SystemAdmin.CrossHospitalAnalytics | backend/app/api/v1/endpoints/system_admin.py:30-33 | "system_admin" only; an empty object |
| SystemAdmin.AdminRejected | backend/app/api/v1/endpoints/system_admin.py:12-33 | a caller with role "admin" is refused by every route |
| SystemAdmin.InactiveUsersListed | backend/app/api/v1/endpoints/system_admin.py:21-23 | deactivated users are listed too |
| SystemAdmin.ListUsersAsWritten | backend/app/api/v1/endpoints/system_admin.py:21-23 | as written: 403 exactly outside the gate, 500 exactly when the user table is non-empty, so the only success is the empty list |
| SystemAdmin.ListUsersAsWrittenFails | backend/app/api/v1/endpoints/system_admin.py:21-23 | any authorised system admin calling the route gets a 500 where the corrected route lists every user, since the caller's own row is listed |
| AuthProvider.Lookup | components/providers/auth-provider.tsx:68 | indexing a redirect table: a path exactly for the roles it lists, `undefined` otherwise |
| AuthProvider.Restore | components/providers/auth-provider.tsx:32-39 | a stored user becomes the current user; loading ends |
| AuthProvider.Login | components/providers/auth-provider.tsx:41-73 | the user carries the given email and role with the fixed id and name; hospital "1" exactly for hospitalAdmin, doctor, lab and pharmacist; stored; redirected by the login table |
| AuthProvider.Register | components/providers/auth-provider.tsx:75-105 | the user carries the form's email, name and role; hospital "1" exactly for "admin"; stored; redirected by the registration table |
| AuthProvider.Logout | components/providers/auth-provider.tsx:107-111 | clears the user and the stored entry and goes to "/" |
| AuthProvider.LoginRedirectsTotal | components/providers/auth-provider.tsx:58-67 | the login table is defined on exactly the six client roles and each path is a dashboard |
| AuthProvider.LoginRedirectsDistinct | components/providers/auth-provider.tsx:58-67 | two different roles of the login table are sent to different paths |
| AuthProvider.RegisterRedirectsCoverage | components/providers/auth-provider.tsx:91-99 | the registration table covers patient, doctor, admin, lab and pharmacist only, agreeing with the login table where both are defined |
| AuthProvider.LoginSurvivesReload | components/providers/auth-provider.tsx:32-56 | after login, a reload restores the same user |
| AuthProvider.LogoutSurvivesReload | components/providers/auth-provider.tsx:32-39 | after logout, a reload restores nobody |
| AuthProvider.AdminAndDoctorDiffer | components/providers/auth-provider.tsx:50-99 | login and registration disagree on which of "admin" and "doctor" receive a hospital, and "admin" has no login redirect |
| Cart.Add | app/patient/pharmacy/page.tsx:117-122 | one more of the id, an absent id counting as zero; other entries unchanged; counts stay at least one |
| Cart.Remove | app/patient/pharmacy/page.tsx:124-134 | one fewer while more than one remains, otherwise the key goes; other entries unchanged |
| Cart.TotalPeel | app/patient/pharmacy/page.tsx:136-138 | the item total does not depend on summation order |
| Cart.Total | app/patient/pharmacy/page.tsx:136-138 | `getTotalItems`: zero for the empty cart, and at least the number of entries for a valid cart |
| Cart.TotalAfterAdd | app/patient/lab-tests/page.tsx:145-166 | an add raises the total by exactly one |
| Cart.TotalAfterRemove | app/patient/lab-tests/page.tsx:152-166 | a remove of a present id lowers the total by exactly one; of an absent id changes nothing |
| Cart.RemoveAfterAdd | app/patient/lab-tests/page.tsx:145-162 | removing right after adding the same id restores the cart |
| Cart.SummaryShownIffNonEmpty | app/patient/lab-tests/page.tsx:164-201 | the summary shows exactly when the cart has an entry |
| Cart.SummaryShown | app/patient/lab-tests/page.tsx:201 | the summary is hidden for an empty cart |
| CartPages.PharmacyControl | app/patient/pharmacy/page.tsx:213-240 | out of stock offers no add; an item in the cart shows the stepper; the add button is disabled exactly for prescription medicines |
| CartPages.LabTestControl | app/patient/lab-tests/page.tsx:260-276 | the stepper for an item in the cart, else an enabled add button |
| CartPages.Apply | app/patient/pharmacy/page.tsx:217-227 | minus removes one, add and plus add one |
| CartPages.RunAdmissible | app/patient/pharmacy/page.tsx:117-240 | whatever the patient clicks, the cart holds only known, in-stock medicines needing no prescription |
| CartPages.LabTestAlwaysAddable | app/patient/lab-tests/page.tsx:145-276 | every test can be put in the cart with one click |
| LabWorklist.HandleStatusChange | app/lab/tests/page.tsx:139-140 | rows with the id get the new status; every other row and field is unchanged; length and order are kept |
| LabWorklist.OfferedTransition | app/lab/tests/page.tsx:266-275 | only pending to in-progress and in-progress to completed are offered |
| Filters.IncludesIffOccurs | app/lab/tests/page.tsx:130-133 | the search's `includes` holds exactly when the term occurs at some position of the field |
| Filters.EmptyTermMatches | app/lab/tests/page.tsx:130-133 | an empty search term, lower-cased to the empty string, matches every row that has a searched field |
| LabWorklist.FilteredTests | app/lab/tests/page.tsx:129-137 | a subsequence holding exactly the rows passing the search (patient name, test type or id includes the term, both lower-cased) and both drop-downs ("all" disables one), each as often as in the list: duplicates are kept, in order |
| LabWorklist.UnknownIdUnchanged | app/lab/tests/page.tsx:139-140 | an id no row carries leaves the list unchanged |
| LabWorklist.TransitionsEnd | app/lab/tests/page.tsx:266-275 | completed and overdue rows offer nothing; the buttons move forward at most twice |
| LabWorklist.ButtonClick | app/lab/tests/page.tsx:139-140 | clicking an offered button moves exactly that row to the next status |
| LabWorklist.AllFiltersOff | app/lab/tests/page.tsx:129-137 | both drop-downs on "all" with an empty search term show the whole list, for any lower-casing that keeps the empty string empty |
| AppointmentRequests.SetStatus | app/doctor/appointments/page.tsx:117-128 | matching appointments take the status; everything else is unchanged |
| AppointmentRequests.ActionsOffered | app/doctor/appointments/page.tsx:238 | the decision buttons are offered exactly on a pending card, so never on a confirmed or rejected one |
| AppointmentRequests.Approve | app/doctor/appointments/page.tsx:117-118 | the matching appointment becomes "confirmed"; everything else is unchanged |
| AppointmentRequests.Reject | app/doctor/appointments/page.tsx:127-128 | the matching appointment becomes "rejected"; everything else is unchanged |
| AppointmentRequests.FilteredAppointments | app/doctor/appointments/page.tsx:138-144 | a subsequence holding exactly the cards passing the search (patient name or reason includes the term, both lower-cased) and the status drop-down, each as often as in the list: duplicates are kept, in order |
| AppointmentRequests.DecisionIsFinal | app/doctor/appointments/page.tsx:238-253 | after approve or reject the card no longer offers either |
| AppointmentRequests.ApproveIdempotent | app/doctor/appointments/page.tsx:117-118 | approving twice is approving once |
| AppointmentRequests.ApprovedMovesBetweenViews | app/doctor/appointments/page.tsx:117-144 | an approved card leaves the "pending" view and appears in the "confirmed" view |
| TestCatalog.CreateTest | app/lab/catalog/page.tsx:163-194 | the new test, active, with id "T" + the padded next number and the form's fields, goes to the end; the form is emptied and the dialog closes |
| TestCatalog.ToggleTestStatus | app/lab/catalog/page.tsx:196-197 | flips `active` on the matching tests only |
| TestCatalog.FilteredTests | app/lab/catalog/page.tsx:154-161 | a subsequence holding exactly the tests passing the search (name, category or description includes the term, both lower-cased) and the category drop-down, each as often as in the list: duplicates are kept, in order |
| TestCatalog.ToggleTwice | app/lab/catalog/page.tsx:196-197 | toggling twice restores the catalogue |
| TestCatalog.CreateKeepsNumbering | app/lab/catalog/page.tsx:58-194 | starting from the numbered mock list, a create keeps test i numbered "T" + the padded i |
| TestCatalog.ToggleKeepsNumbering | app/lab/catalog/page.tsx:196-197 | a toggle keeps the numbering |
| TestCatalog.NextIdFresh | app/lab/catalog/page.tsx:163-165 | in a numbered catalogue the id the next create hands out is new |
| PrescriptionForm.SetField | app/doctor/prescriptions/page.tsx:163 | exactly the named column changes |
| PrescriptionForm.AddMedication | app/doctor/prescriptions/page.tsx:154-159 | one blank row at the end; existing rows and other fields unchanged |
| PrescriptionForm.UpdateMedication | app/doctor/prescriptions/page.tsx:161-166 | only the named field of the indexed row changes; length and other rows are kept |
| PrescriptionForm.RemoveMedication | app/doctor/prescriptions/page.tsx:168-173 | exactly the indexed row goes, the rest keep their order |
| PrescriptionForm.RemoveOffered | app/doctor/prescriptions/page.tsx:284 | the Remove button appears exactly when the form has more than one medication row, so removing any one row leaves a row |
| PrescriptionForm.RemoveAfterAdd | app/doctor/prescriptions/page.tsx:154-173 | removing the row just added restores the form |
| PrescriptionForm.UpdateWithSameValue | app/doctor/prescriptions/page.tsx:161-166 | writing a field back to its value changes nothing |
| PrescriptionForm.CreatePrescription | app/doctor/prescriptions/page.tsx:126-152 | prepends an "Active" prescription with id "RX" + the padded next number, keeping exactly the named medications, duplicates included, in order; the form resets to one blank row |
| PrescriptionForm.RowsNeverEmpty | app/doctor/prescriptions/page.tsx:154-173 | since Remove is offered only beyond one row, no sequence of row edits empties the list |
| PrescriptionForm.CreatedIdFresh | app/doctor/prescriptions/page.tsx:72-152 | while identifiers' numbers stay within the count, a created id is new, and this is preserved |
| DepartmentsPage.AddDepartment | app/hospital-admin/departments/page.tsx:142-175 | without a name or head nothing changes; otherwise an active department with id length+1, no staff and no patients goes to the end and the form resets |
| DepartmentsPage.ActiveCount | app/hospital-admin/departments/page.tsx:324 | the card shows the number of departments whose status is "active" |
| DepartmentsPage.TotalStaff | app/hospital-admin/departments/page.tsx:336-338 | the left fold `reduce((sum, d) => sum + d.staff, 0)`: zero for no departments, and each department adds its staff in list order |
| DepartmentsPage.TotalPatients | app/hospital-admin/departments/page.tsx:348-350 | the left fold of the patient counts, starting at zero |
| DepartmentsPage.FilteredDepartments | app/hospital-admin/departments/page.tsx:134-140 | a subsequence holding exactly the departments passing the search (name or head includes the term, both lower-cased) and the status drop-down, each as often as in the list: duplicates are kept, in order |
| DepartmentsPage.AddUpdatesCards | app/hospital-admin/departments/page.tsx:142-350 | an add raises the active count by one and keeps the staff and patient totals |
| DepartmentsPage.AddedIdFresh | app/hospital-admin/departments/page.tsx:26-175 | while ids stay within 1..count, an added id is new, and this is preserved |
| DoctorsPage.CreateDoctor | app/hospital-admin/doctors/page.tsx:158-190 | prepends an "Active" doctor with no patients, id "DOC" + the padded next number and the form's fields; the form resets |
| DoctorsPage.FilteredDoctors | app/hospital-admin/doctors/page.tsx:149-156 | a subsequence holding exactly the doctors passing the search (name, specialization or department includes the term, both lower-cased) and the department drop-down, each as often as in the list: duplicates are kept, in order |
| DoctorsPage.EmptyFormAccepted | app/hospital-admin/doctors/page.tsx:158-190 | the empty form still adds a doctor: no validation |
| DoctorsPage.AllDepartments | app/hospital-admin/doctors/page.tsx:149-156 | "all" with an empty search term lists every doctor, for any lower-casing that keeps the empty string empty |
| DoctorsPage.CreatedIdFresh | app/hospital-admin/doctors/page.tsx:78-190 | while identifiers' numbers stay within the count, a created id is new, and this is preserved |
| RegisterWizard.NextStep | app/auth/register/page.tsx:86-88 | forward only from step 1 |
| RegisterWizard.PrevStep | app/auth/register/page.tsx:90-92 | back only from beyond step 1 |
| RegisterWizard.CanProceed | app/auth/register/page.tsx:94-99 | on step 1 it passes exactly when name, email, phone and role are filled in, on any other step exactly when both password fields are filled in |
| RegisterWizard.CanProceedReadsOwnStep | app/auth/register/page.tsx:94-99 | each step's check reads only its own fields: step 1 ignores the passwords, the last step ignores name, email, phone and role |
| RegisterWizard.ContinueEnabled | app/auth/register/page.tsx:363-367 | never enabled from step 2 on; on step 1 enabled exactly when its four fields are filled in |
| RegisterWizard.SubmitEnabled | app/auth/register/page.tsx:372-375 | enabled exactly on step 2 or later, while not loading, with both passwords filled in; never together with Continue |
| RegisterWizard.Navigate | app/auth/register/page.tsx:86-99 | clicks on enabled buttons never change the form, and with no click the wizard is on step 1 |
| RegisterWizard.StepsStayInRange | app/auth/register/page.tsx:86-99 | whatever is clicked the step is 1 or 2, and step 2 is reached only with the step-1 fields filled in |
| RegisterWizard.HandleSubmit | app/auth/register/page.tsx:38-63 | a mismatch stops before registration; otherwise the provider's session holds the form's email, name and role |
| RegisterWizard.RequirementsNotEnforced | app/auth/register/page.tsx:340-347 | the advertised password rules are not checked: a one-letter password registers |
| PatientSettings.HandlePasswordChange | app/patient/settings/page.tsx:87-134 | mismatch first, then length below 6, neither calling the server; success clears the three fields and closes the dialog; a failure keeps them; the in-progress flag drops after every call |
| PatientSettings.HandleSettingChange | app/patient/settings/page.tsx:136-140 | only the named preference changes |
| PatientSettings.ValidationOrder | app/patient/settings/page.tsx:88-104 | a mismatched and too short entry reports the mismatch and sends nothing |
| PatientSettings.FailureKeepsEntries | app/patient/settings/page.tsx:106-133 | after a failed call, retrying sends the same passwords |
| PatientSettings.SettingChangesCommute | app/patient/settings/page.tsx:136-140 | changes to different preferences commute; a second change to one overrides the first |
| Decimal.Pad3 | app/lab/catalog/page.tsx:165 | `String(n).padStart(3, "0")` denotes `n` and is exactly three digits wide, or as wide as `n`'s own digits when they are more |
| Decimal.PrefixedPad3Injective | app/hospital-admin/doctors/page.tsx:160 | distinct numbers give distinct prefixed identifiers |
| Decimal.NumberOfPadded | app/doctor/prescriptions/page.tsx:128 | the number read back from a generated identifier is the one it was made from |

## Left out

- JWT and bcrypt are not modelled: `Security.Jwt` and `Security.Hasher` are uninterpreted function values. Expiry checking belongs to the library's decode.
- Sessions, commit and refresh, dependency wiring and router mounting are not modelled. Storage is one map per table. A create gets the next SQLite row id (`Keys.NextId`).
- Which routers are mounted is not modelled: every endpoint file is modelled as pure functions.
- The ORM models and schemas are used only for field names, nullability and defaults.
- The `created_at` column is not modelled. Its only effect is the `UserRead` reply failure recorded under Findings.
- Auth.Register: promises the intended reply, the stored user. As written that reply fails validation after the commit, so the client gets a 500 (`Auth.RegisterReplyAsWritten`, Findings).
- SystemAdmin.ListUsers: promises the intended list of every user. As written the route answers 500 whenever a user exists, which includes the calling system admin (`SystemAdmin.ListUsersAsWritten`, Findings).
- SystemAdmin.InactiveUsersListed: holds of the intended list; as written no list is returned (Findings).
- The unauthenticated placeholder endpoints are not modelled: the prescription pdf link (backend/app/api/v1/endpoints/prescriptions.py:40-43), the lab report pdf link (backend/app/api/v1/endpoints/lab.py:44-47) and the available slots (backend/app/api/v1/endpoints/appointments.py:56-59). They take no caller and touch no table.
- Request-body validation (a 422 for a missing or ill-typed field) is not modelled: request bodies are well-typed datatypes.
- String column lengths are not enforced, as SQLite ignores them.
- Money is not modelled: `getTotalPrice`, the checkout totals, and the `parseFloat`/`Number` parsing of prices and fees. Parsing is a function parameter (`parsePrice`, `parseFee`).
- Clock reads are parameters: `now` in seconds on the backend, `today` as the ISO date on the pages.
- The search boxes' `toLowerCase` is a parameter (`lower`): Unicode case mapping is not modelled. The substring test and the searched fields are modelled.
- Toasts, `router.push` beyond the target path (`Session.navigatedTo`), and the JSON encoding of the stored user are not modelled.
- AuthProvider.Login: what the router does with an `undefined` path is not modelled; the session records that no path was given.
- AuthProvider.Lookup: indexing a JavaScript object also finds the names inherited from `Object.prototype` (`constructor`, `toString`, `hasOwnProperty` and the others). The model treats them as absent. The login page takes the role from the URL (app/auth/login/page.tsx:26-31), so `?role=constructor` would push a function, not `undefined`.
- AuthProvider.Login: inherits the `AuthProvider.Lookup` gap: for a role named like an `Object.prototype` member the model records no path, while the page passes that member to the router.
- PatientSettings.HandlePasswordChange: the length check counts Dafny characters, where JavaScript counts UTF-16 code units, so the two differ only for characters outside the Basic Multilingual Plane.
- PrescriptionForm.UpdateMedication: the field name is one of the four columns; the page can pass any string, but its inputs pass only these four.
- The client HTTP helpers (lib/api.ts) have no server counterpart for hospital approval, lab report generation, rescheduling or medicine toggling, so none is modelled.
- Dashboards, profile, chat, layout and loading pages are presentation only and are not modelled.

## Findings

| source | as written | input that shows it | evidently intended | confidence | as-written member | corrected member |
|---|---|---|---|---|---|---|
| backend/app/api/v1/endpoints/hospitals.py:16 | the body's fields are spread into the `Department` constructor and `hospital_id` is passed again by keyword; `DepartmentCreate` already carries `hospital_id`, so the keyword is given twice and Python raises `TypeError`: every create that passes the gate is a 500 | a hospital admin posting `{"name": "Cardiology", "hospital_id": 1}` to `/hospitals/1/departments` | a new department named as in the body, belonging to the path's hospital | high, not executed | Hospitals.CreateDepartmentAsWritten, Hospitals.CreateDepartmentAsWrittenFails | Hospitals.CreateDepartment, Hospitals.CreatedDepartmentListed |
| backend/app/api/v1/endpoints/auth.py:14 | the duplicate check filters on `User.username`, but the `User` model (backend/app/db/models/user.py:6-18) has no such attribute, so `AttributeError` is raised: every registration is a 500 | registering `alice` into an empty table | the user is stored when the username and email are free | high, not executed | Auth.RegisterAsWritten, Auth.RegisterAsWrittenFails | Auth.Register, Auth.RegisteredUserCanLogIn |
| backend/app/api/v1/endpoints/auth.py:32 | the login lookup filters on the same missing `User.username`: every login is a 500 | `alice` logging in with their password | a bearer token for the stored user | high, not executed | Auth.LoginAsWritten, Auth.LoginAsWrittenFails | Auth.Login, Auth.LoginTokenAuthenticates |
| backend/app/core/dependencies.py:33 | the current-user lookup filters on the missing `User.username`: every request with a valid token is a 500, so no protected route can succeed | a valid token whose `sub` is `alice`, a stored user | the stored user named by the token | high, not executed | Dependencies.GetCurrentUserAsWritten, Dependencies.GetCurrentUserAsWrittenFails | Dependencies.GetCurrentUser, Auth.LoginTokenAuthenticates |
| backend/app/db/schemas/user.py:20 | `UserRead` declares `created_at` a string, but the `users.created_at` column (backend/app/db/models/user.py:18) is a timezone-aware timestamp filled by the server, so response validation fails: a registration is committed and then answered with a 500, and `/system-admin/users` answers 500 whenever a user exists | any successful registration; any system admin calling `/system-admin/users` | `created_at: datetime`, as the lab test schema declares it (backend/app/db/schemas/lab_test.py:22) | high, not executed | Auth.RegisterReplyAsWritten, Auth.RetryAfterReplyFailureRejected, SystemAdmin.ListUsersAsWritten, SystemAdmin.ListUsersAsWrittenFails | Auth.Register, Auth.RegisteredUserCanLogIn, SystemAdmin.ListUsers, SystemAdmin.InactiveUsersListed |
