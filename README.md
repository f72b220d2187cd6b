# Student records: a Dafny model

This project models a student, course and grade management web application. Its server is an Express/Mongoose service. Its browser client is a React application.

On the server side it models:

- the record schemas and their save hooks: defaults, bounds, unique indexes, the `STU<year><4 digits>` student number and password re-hashing;
- the grade, student and course create/update/delete handlers;
- the student login, token verification and password change;
- the identity-provider webhook and the role update;
- the role middleware;
- the mail builders and the bulk-mail handlers;
- the email-repair migration script.

On the client side it models:

- the route guards and the role-filtered menu;
- the dashboard statistics and charts;
- the search, filter and pagination pipelines of the list pages;
- the recipient selection of the two mail pages;
- the student's own dashboard and grade page;
- the role sheet of the user list.

The model follows the program's own structure:

- There is one module per source file.
- `Database.Db` is a class holding the four collections as maps, with a `Valid()` invariant. The invariant covers the unique indexes, the grade bound and the one-grade-per-pair index.
- Each route handler is a method on that store. It returns a `Reply` (a status and a body or error message) and states its whole new state.
- Each page of the client is a class with the page's state fields. Its handlers are methods whose contracts tie the new state to specification functions, such as `FilteredGrades`, `SearchStudents`, `Toggle` and `SelectAllStep`. The properties the page promises are then proved about those functions.
- Pure code (guards, mail builders, statistics, labels) is written as functions, with lemmas.
- Three library modules are shared: `Seqs` for the list operations, `Text` for the string operations and `Pagination`.

Everything outside the program is a parameter:

- the password hash;
- the token signer and decoder;
- the webhook signature check;
- the mail transport's answer;
- the clock and the year;
- the random bytes;
- date formatting;
- the replies the client receives.

## Behaviour modelled as written

Several places do not do what they evidently aim at. Each is modelled as the code reads, and a lemma exhibits it:

- **Grade notification never goes out.** The grade handlers call `sendGradeNotification`, but the mail service exports `sendGradeNotificationEmail`. The call always throws inside its own `try`, so no grade mail is ever sent. The 201 or 200 reply is unaffected (`GradeRoutes.NotificationAlwaysFails`).
- **Webhook `user.created` always ends in 500.** The Student it builds has no email and no password, and the schema requires both. The User is saved, but it is left unlinked (`UserRoutes.CreatedStudent`, `UserRoutes.Webhook`).
  - The handler's own comments say it keeps Clerk users and MongoDB in step (backend/routes/users.js:5) and that it creates a student profile for each new user (backend/routes/users.js:49). As written it creates no usable profile, and the model follows the code.
- **Role whitelist differs from the schema.** `updateUserRole` accepts 'etudiant1' to 'etudiant3' and 'administrateur', while the schema admits 'etudiant', 'scolarite', 'administrateur' and 'visiteur' (`UserRoutes.AssignableRolesDifferFromSchema`).
- **Duplicate number reported as a duplicate email.** Student numbers come from the current number of students, so they repeat after a deletion. The resulting duplicate-key error is reported as 400 'email already used' (`StudentRoutes.ClashIsNumberClash`).
- **Bulk mail counts no success.** `sendToStudents` counts the results whose `success` is truthy. The transport resolves with its send information, which has no such field, so the count stays 0 (`EmailRoutes.NoSuccessFieldCountsZero`).
- **Send page fails after a delivered send.** The staff mail page reads `data.results` from a reply that carries `details`. After a delivered send it resets the form, then fails on the missing field (`FrontSendEmail.SendNotice`).
- **Role form used without a user.** `UserRoleForm` does not guard its `user` prop: submitting it with none shows the success toast, then the failure toast, and the sheet stays open (`FrontUserRoleForm.RoleSheet.Submit`). The user list never reaches this path, since it selects the user before opening the sheet (`FrontUsersIndex.EditAndSubmit`).
- **Undecodable token on password change.** `change-password` answers 500 rather than 401 for a token that does not decode (`AuthRoutes.ChangePassword`).

## Model

| member | source | states |
|---|---|---|
| Model.NewUser | backend/model.js:5-16 | a new User keeps its clerkId and email, has no linked student, and takes role 'visiteur' (one of the four enum values) when none is given |
| Model.NewStudent | backend/model.js:19-28 | a new Student is active, has no number yet and no last login; it passes the schema exactly when the four required strings are non-empty |
| Model.NewCourse | backend/model.js:59-64 | credits default to 3 and the description to ""; the course passes the schema exactly when name and code are non-empty |
| Model.NumberSuffix | backend/model.js:53 | the suffix is all digits and reads back as count + 1; below 1000 it is exactly four characters starting with '0', from 1000 on the plain decimal |
| Model.DecimalLength | backend/model.js:53 | numbers below 1000 have at most three digits, larger ones at least four, so padding to four applies exactly below 1000 |
| Model.StudentNumber | backend/model.js:49-56 | the number is "STU", then the year in decimal, then an all-digit suffix that reads back as count + 1 and is exactly four characters long below 1000 and the plain decimal from 1000 |
| Model.StudentNumberInjective | backend/model.js:53 | within one year, two counts that give the same number are equal |
| Model.StudentNumberReusedAfterDelete | backend/model.js:52-53 | the number depends on the current count only: with one student left in 2024 the next one is STU20240002 again, which another student may already hold |
| Model.HashPasswordHook | backend/model.js:31-41 | a modified password is replaced by its hash; an unmodified document is unchanged; no other field ever changes |
| Model.ComparePassword | backend/model.js:44-46 | with an injective hash and a password stored as the hash of p, a candidate checks exactly when it is p |
| Model.StudentNumberHook | backend/model.js:49-56 | a student with a number keeps it; one without gets StudentNumber(year, count); afterwards the number is non-empty and no other field changed |
| Model.SetPasswordThenCompare | backend/model.js:31-46 | after setting password p and saving, comparePassword(p) holds |
| Model.StudentDocument.Create | backend/model.js:19-28 | a new document holds the given record, has no stored id, and marks the password modified when one is given |
| Model.StudentDocument.Load | backend/model.js:19-28 | a loaded document holds the stored record under its id, with nothing modified |
| Model.StudentDocument.SetPassword | backend/model.js:32 | assigning the password changes only that field and marks it modified |
| Model.StudentDocument.SetEmail | backend/model.js:22 | assigning the email changes only that field; the modified flag is kept |
| Model.StudentDocument.SetLastLogin | backend/model.js:26 | assigning lastLogin changes only that field; the modified flag is kept |
| Model.StudentDocument.RunHashPasswordHook | backend/model.js:31-41 | the record becomes HashPasswordHook of the old record and flag |
| Model.StudentDocument.RunStudentNumberHook | backend/model.js:49-56 | the record becomes StudentNumberHook of the old record |
| Model.StudentDocument.MarkSaved | backend/model.js:31-56 | after a save the record is kept, stored under its id, with nothing pending |
| Database.Db.constructor | backend/model.js:76-79 | the four collections start empty and every index and validator invariant holds |
| Database.Db.FindStudentByEmail | backend/routes/students.js:111-115 | the id found has the email and is not the excluded one; none is found exactly when no other student has that email |
| Database.Db.FindStudentByNumber | backend/model.js:24 | the id found has the number and is not the excluded one; none is found exactly when no other student has that number |
| Database.SameKeysNoClash | backend/model.js:22-24 | re-saving a stored student with its own email and number never clashes with the unique indexes |
| Database.Db.FindCourseByCode | backend/routes/courses.js:78-82 | the id found has the code and is not the excluded one; none is found exactly when no other course has that code |
| Database.Db.FindGrade | backend/routes/grades.js:68 | the grade found is for that student and course; none is found exactly when no grade exists for the pair |
| Database.Db.FindUserByClerkId | backend/routes/users.js:66 | the user found has that clerkId; none is found exactly when no user has it |
| Database.Db.InsertGrade | backend/model.js:67-74 | an out-of-range grade fails validation; an in-range grade for a taken (student, course) pair fails on the unique index; otherwise it is stored under a fresh id; nothing else changes and the invariants hold |
| Database.Db.UpdateGrade | backend/routes/grades.js:129-133 | the update validators refuse an out-of-range value; an unknown id is missing; otherwise only that grade's value and date change |
| Database.Db.DeleteGrade | backend/routes/grades.js:167 | the grade is removed; the result says whether it existed; nothing else changes |
| Database.Db.InsertCourse | backend/model.js:59-64 | a course without name or code fails validation, a taken code fails on the unique index, otherwise it is stored under a fresh id |
| Database.Db.UpdateCourse | backend/routes/courses.js:91-95 | an emptied required field fails validation first; then an unknown id is missing; then a code held by another course fails on the index; otherwise exactly the given fields change |
| Database.Db.DeleteCourse | backend/routes/courses.js:111 | the course is removed, its grades stay; the result says whether it existed |
| Database.Db.SaveStudent | backend/model.js:19-56 | an invalid record is refused before the hooks run; otherwise the password hook then the number hook run, a vanished record is not found, and the save succeeds exactly when no other student has the email or the number |
| Database.Db.ResaveStudent | backend/model.js:19-56 | re-saving a stored student runs both hooks and succeeds exactly when no other student has its email or number |
| Database.Db.UpdateStudentFields | backend/routes/students.js:122-126 | an emptied required field fails validation; an unknown id is missing; an email held by another student fails on the index; otherwise exactly the given fields change |
| Database.Db.DeleteStudent | backend/routes/students.js:149 | the student is removed, its grades stay; the result says whether it existed |
| Database.Db.InsertUser | backend/model.js:5-16 | a user without clerkId or email, or with a role outside the enum, fails validation; a taken clerkId fails on the index; otherwise it is stored under a fresh id |
| Database.Db.ReplaceUser | backend/routes/users.js:67-75 | the user stored under the id is replaced and nothing else changes |
| Database.Db.DeleteUser | backend/routes/users.js:87 | the user is removed and nothing else changes |
| Database.KeysOf | backend/migrate-students-email.js:10 | the ids of a collection, each exactly once |
| Database.EntriesOf | backend/routes/courses.js:6 | the records of a collection with their ids, each exactly once |
| Database.PatchedCourse | backend/routes/courses.js:71-75 | each given field replaces the stored one and each absent field keeps it; an empty patch leaves the course unchanged |
| Database.Patched | backend/routes/students.js:122-126 | each given name or email replaces the stored one, the password, number and active flag are kept; an empty patch leaves the student unchanged |
| GradeRoutes.NotificationAlwaysFails | backend/routes/grades.js:91-102 | the handlers call `sendGradeNotification`, which the service does not export (it exports `sendGradeNotificationEmail`), so the notification never goes out |
| GradeRoutes.Create | backend/routes/grades.js:43-114 | 400 for a missing field, then 400 out of [0, 20], then 404 for an unknown student, then for an unknown course, then 400 when the pair is already graded; otherwise exactly one grade is added with status 201; no existing grade ever changes and no notification is sent |
| GradeRoutes.CreateTwice | backend/routes/grades.js:67-73 | after a successful create, a second create for the same pair is refused with 400 and the first grade's value stays |
| GradeRoutes.Update | backend/routes/grades.js:117-162 | 400 without a grade, 400 out of range, 404 for an unknown id; otherwise only that grade's value and date change, the reply is the updated grade with the same student and course, and a grade whose student is gone ends in 500 |
| GradeRoutes.Delete | backend/routes/grades.js:165-179 | 404 for an unknown id, otherwise that grade alone is removed with the success message |
| GradeRoutes.ListGrades | backend/routes/grades.js:189-192 | exactly the stored grades that pass the filter, newest first, each id listed once |
| GradeRoutes.GetAll | backend/routes/grades.js:9-22 | every stored grade, each id listed once, newest first, with status 200 |
| GradeRoutes.GetMyGrades | backend/routes/grades.js:182-200 | 403 unless the request's user is linked to an existing student; otherwise exactly that student's grades, each id once, newest first |
| Middleware.RequireRole | backend/middleware/auth.js:4-46 | 401 without a session, 500 when the lookup throws, 404 for an unknown user, 403 for a role outside the allow-list, in that order; the request passes exactly when the stored user holds an allowed role |
| Middleware.HasAllowedRole | backend/middleware/auth.js:28 | an empty allow-list admits nobody, and an admitted session belongs to a stored user |
| Middleware.AllowListMonotone | backend/middleware/auth.js:28 | adding roles to the allow-list never turns away a request it admitted |
| Middleware.GetCurrentUser | backend/middleware/auth.js:49-64 | the user is set exactly when there is a session, the lookup does not throw, and a user with that clerkId exists; errors only leave it unset |
| CourseRoutes.CourseFromBody | backend/routes/courses.js:51-56 | the new course keeps name and code, takes the description or "", and takes credits 3 when they are absent or 0 |
| CourseRoutes.CreateDefaultsAgreeWithSchema | backend/routes/courses.js:54-55 | without description and credits, the handler's defaults equal the schema's (credits 3, description "") |
| CourseRoutes.Create | backend/routes/courses.js:31-64 | 400 without name or code, then 400 for a taken code; otherwise the course is stored under a fresh id with status 201; nothing else changes |
| CourseRoutes.UpdateData | backend/routes/courses.js:71-75 | name and code enter the update only when non-empty, so the update never empties a required field |
| CourseRoutes.Update | backend/routes/courses.js:67-106 | 400 when a given code belongs to another course, then 404 for an unknown id; otherwise exactly the update's fields change and the updated course is returned |
| CourseRoutes.OwnCodeNotTaken | backend/routes/courses.js:79-82 | a course's own code never counts as taken, so an update may resend it |
| CourseRoutes.Delete | backend/routes/courses.js:109-122 | 404 for an unknown id, otherwise that course alone is removed and its grades stay |
| CourseRoutes.ByNameTotal | backend/routes/courses.js:6 | any two courses are ordered one way or the other by name |
| CourseRoutes.GetAll | backend/routes/courses.js:4-12 | every stored course once, in name order, with status 200 |
| StudentRoutes.View | backend/routes/students.js:86-88 | the view carries every field of the record but the password: names, email, number, active flag, last login, user link and creation date |
| StudentRoutes.ViewForgetsOnlyPassword | backend/routes/students.js:86-88 | two records give the same view exactly when they differ at most in their password |
| StudentRoutes.TempPassword | backend/routes/students.js:59 | the temporary password is 16 hex digits |
| StudentRoutes.NewRecord | backend/routes/students.js:61-68 | the new record keeps the names and email, checks against the temporary password, gets the number for the current count, and is active with no last login and no user link |
| StudentRoutes.ClashIsNumberClash | backend/routes/students.js:53-56 | once the email is known free, a new record clashes exactly when its number is taken |
| StudentRoutes.Create | backend/routes/students.js:44-103 | 400 for a missing field, then 400 for a taken email, then the same 400 message when the generated number is already held; otherwise the record is stored under a fresh id, the reply (201) carries it without the password plus the temporary password, and the welcome mail is built from them |
| StudentRoutes.SaveNew | backend/routes/students.js:68 | the hooks run on the new record; the save fails on the index exactly when its email or number clashes, and otherwise stores it under a fresh id |
| StudentRoutes.Update | backend/routes/students.js:106-144 | 400 when a given email belongs to another student, then 500 when a field would be emptied (the validators throw), then 404 for an unknown id; otherwise exactly the given fields change and the view is returned |
| StudentRoutes.OwnEmailNotTaken | backend/routes/students.js:112-115 | a student's own email never counts as taken, so an update may resend it |
| StudentRoutes.Delete | backend/routes/students.js:147-162 | 404 for an unknown id, otherwise that student alone is removed and their grades stay |
| StudentRoutes.GetMyProfile | backend/routes/students.js:169-183 | the signed-in student without the password, or 404 |
| StudentRoutes.UpdateMyProfile | backend/routes/students.js:186-206 | 500 when a name would be emptied, 404 for an unknown student; otherwise only the names change and the email stays |
| AuthRoutes.LoginClaims | backend/routes/auth.js:44-52 | the token claims carry the student's id and email, the role 'etudiant' and a seven-day expiry |
| AuthRoutes.Summary | backend/routes/auth.js:59-67 | the student part of the login reply holds the id, names, email, number, creation date and last login, and no password |
| AuthRoutes.Login | backend/routes/auth.js:7-74 | 400 without email or password; the same 401 message for an unknown email and for a wrong password; 401 'Compte désactivé' for an inactive account before the password is checked; on success lastLogin is set and saved and the reply carries the signed token and the summary; conversely an active stored student whose password checks is let in (a 500 only when the re-save fails), and always when its record passes the schema and has a number |
| AuthRoutes.BearerToken | backend/routes/auth.js:79 | no header gives no token; a header without "Bearer " is taken as it is; otherwise the first "Bearer " is removed, wherever it occurs |
| AuthRoutes.Verify | backend/routes/auth.js:77-98 | 401 'Token manquant' without a token; success exactly when the token decodes to an existing active student, whose view is returned; every other case is 401 'Token invalide' |
| AuthRoutes.ChangePassword | backend/routes/auth.js:101-141 | 401 without a token, 500 for a token that does not decode, 404 for an unknown student, 400 for a missing password, 401 for a wrong current password, in that order; on success the new password is hashed and stored, so it then checks; conversely a decodable token of a stored student with both passwords given and the right current one succeeds (a 500 only when the re-save fails), and always when the record's names, email and number are non-empty |
| AuthRoutes.ChangeThenLogin | backend/routes/auth.js:7-141 | after a successful password change, logging in with the same email and the new password succeeds for an active student (a 500 only when the re-save fails), and always when its record can be re-saved |
| UserRoutes.CreatedUser | backend/routes/users.js:39-45 | the user saved for `user.created` has the Clerk id, the first email address, the names and the role 'etudiant', and no student link |
| UserRoutes.CreatedStudent | backend/routes/users.js:50-54 | the student built for `user.created` has no email and no password, so it never passes the schema |
| UserRoutes.Webhook | backend/routes/users.js:6-95 | 500 without a secret and 400 for a failed signature, with no writes; unknown event types write nothing and answer 200; `user.created` always ends in 500 because its student fails validation, but a valid user with a new Clerk id is stored under a fresh id first, and otherwise no user is written; `user.updated` changes the email and names of the matching user only; `user.deleted` removes the linked student, if any, then the user |
| UserRoutes.AssignableRolesDifferFromSchema | backend/routes/users.js:119 | the whitelist accepts 'etudiant1' to 'etudiant3', which the schema rejects, and refuses 'scolarite' and 'etudiant', which the schema admits; 'administrateur' is the only role both accept |
| UserRoutes.UpdateUserRole | backend/routes/users.js:115-143 | 400 for a role outside the whitelist, then 404 for an unknown user; otherwise only that user's role and update time change and the updated user is returned |
| UserRoutes.GetCurrentUserProfile | backend/routes/users.js:98-112 | 404 without a request user; otherwise the stored user with its linked student, resolved only when that student exists, and then exactly that stored student |
| EmailService.GradeColour | backend/services/emailService.js:29 | the grade is shown green exactly when it is at least 10 and red exactly when it is below |
| EmailService.GradeNotificationMail | backend/services/emailService.js:14-62 | the grade mail goes from the configured sender to the student, its subject names the course, and its body carries the grade's colour (green exactly from 10), the student's name, the course, the grade written over 20 and the date |
| EmailService.AdminToStudentMail | backend/services/emailService.js:65-105 | the staff mail goes to the student with the subject unchanged; its message has every line break replaced by `<br>` and keeps no line break |
| EmailService.StudentToAdminMail | backend/services/emailService.js:108-153 | the student's mail goes to the administration address with the student as reply-to, the subject prefixed with '[Étudiant] ', and the message with its line breaks as `<br>` |
| EmailService.WelcomeMail | backend/services/emailService.js:156-229 | the welcome mail goes to the student and carries the email address, the student number and the temporary password |
| EmailService.PasswordResetMail | backend/services/emailService.js:232-280 | the reset mail goes to the student and carries the name and the new temporary password, not the number |
| EmailService.MessageKeepsText | backend/services/emailService.js:91 | both directions rewrite the message the same way, and a message with no line break is sent as written |
| EmailRoutes.StudentAddress | backend/routes/emails.js:31 | a student has an address exactly when it is linked to a stored user whose email is not empty, and the address is that email |
| EmailRoutes.FullName | backend/routes/emails.js:38 | the shown name is the first name, one space, then the last name |
| EmailRoutes.DetailFor | backend/routes/emails.js:30-46 | a student without an address gets `no_email` and no mail; otherwise the detail is a success exactly when the transport resolves with a success, and an error exactly when it rejects |
| EmailRoutes.Details | backend/routes/emails.js:30-48 | one detail per found student, in the order found |
| EmailRoutes.ReportOf | backend/routes/emails.js:49-56 | the reply counts the successes among the details, never more than the number of students found, and says so in its message |
| EmailRoutes.CountMessage | backend/routes/emails.js:52 | the message begins with the success count written in decimal and ends with the number of students, each read back to the same number |
| EmailRoutes.SendToStudents | backend/routes/emails.js:5-61 | 400 for no selected student, then 400 for a missing subject or message, then 404 when none of the ids is stored; otherwise 200 with the report over exactly the stored students among the ids, each listed once |
| EmailRoutes.SuccessNeedsAddress | backend/routes/emails.js:31-34 | there are never more successes than found students with an address |
| EmailRoutes.NoSuccessFieldCountsZero | backend/routes/emails.js:49 | when the transport never resolves with a success field, as a mail transport that answers with its send information does, the reply counts no success whatever was delivered |
| EmailRoutes.SendToAdmin | backend/routes/emails.js:64-97 | 400 with no mail for a missing subject or message; otherwise one mail to the administration with the student as reply-to, then 200 when the transport resolves and 500 when it rejects |
| EmailRoutes.ListingOf | backend/routes/emails.js:107-113 | a row keeps the id and the names, shows the full name, and shows the linked user's email or "Pas d'email" |
| EmailRoutes.ByLastThenFirstTotal | backend/routes/emails.js:105 | that order compares every pair of students, so sorting by it is defined |
| EmailRoutes.Listings | backend/routes/emails.js:107 | one row per stored entry, in the same order |
| EmailRoutes.ListingsOrdered | backend/routes/emails.js:105-113 | rows built from entries in name order are in name order |
| EmailRoutes.ListingsCover | backend/routes/emails.js:102-113 | rows built from exactly the stored entries name every stored student and nothing else |
| EmailRoutes.GetStudentsList | backend/routes/emails.js:100-120 | 200 with one row per stored student, each stored student listed, nothing else listed, in last-name-then-first-name order |
| MigrateEmails.TempEmail | backend/migrate-students-email.js:33 | the temporary address ends with '@temp-student.com', has the length of both names, a dot and that domain, and is in lower case |
| MigrateEmails.Repair | backend/migrate-students-email.js:17-38 | a student with an email is not repaired; a linked one takes its user's email when that user exists and has one, and is otherwise left alone; an unlinked one gets the temporary address; a repair never sets an empty email |
| MigrateEmails.Migrated | backend/migrate-students-email.js:24-35 | a repaired student has the repaired email and keeps every other field but the number the save may assign; an unrepaired one is unchanged |
| MigrateEmails.MigratedHasEmail | backend/migrate-students-email.js:17-38 | a student with an email is untouched, and a student is left without an email exactly when it had none and could not be repaired |
| MigrateEmails.ExitCode | backend/migrate-students-email.js:45-48 | the script exits with 0 exactly when it finished |
| MigrateEmails.CountStep | backend/migrate-students-email.js:26 | counting one more student adds one exactly when it is repaired |
| MigrateEmails.ProgressStep | backend/migrate-students-email.js:15-42 | a turn of the loop migrates the next student, which was still untouched, and keeps every other student as it was |
| MigrateEmails.ProgressStudents | backend/migrate-students-email.js:15-42 | during the loop every student is either untouched or migrated, and after the last turn all are migrated |
| MigrateEmails.MigrateOne | backend/migrate-students-email.js:17-41 | a student that needs no repair is not saved; otherwise the save succeeds exactly when the repaired record passes the schema and, after the number hook, breaks no unique index; a saved one becomes its migrated record; a failed save leaves the store as it was; users, courses and grades never change |
| MigrateEmails.MigrateStudents | backend/migrate-students-email.js:5-50 | every stored student is visited once; a finished run has migrated every student and counts exactly the repaired ones; a run aborts only at a still untouched student that needs a repair whose save fails validation or a unique index, so a snapshot needing no repair always finishes; an aborted run leaves each student untouched or migrated; only students change |
| Seqs.Filter | frontend/src/pages/Grades.jsx:66 | `filter` keeps only elements satisfying the predicate, all drawn from the list, never more of them |
| Seqs.FilterIsSubsequence | frontend/src/pages/Grades.jsx:66 | a filtered list keeps the list's order |
| Seqs.FilterMembership | frontend/src/pages/Grades.jsx:66 | an element is kept exactly when it is in the list and satisfies the predicate |
| Seqs.FilterMembershipAll | frontend/src/pages/Grades.jsx:66 | for every element at once: kept exactly when in the list and satisfying the predicate |
| Seqs.FilterMultiset | backend/routes/grades.js:189-192 | a filtered list takes each element no more often than the list has it |
| Seqs.DistinctFilter | backend/routes/grades.js:189-192 | filtering a list without repeats gives a list without repeats |
| Seqs.DistinctMultiset | backend/routes/grades.js:189-192 | a list has no repeats exactly when every element occurs at most once in its multiset |
| Seqs.DistinctPermutation | backend/routes/grades.js:14 | a reordering of a list without repeats, or of part of it, has no repeats |
| Seqs.FilterFilter | frontend/src/pages/Grades.jsx:65-76 | two filters in a row are one filter by both predicates |
| Seqs.FilterAppend | frontend/src/pages/Grades.jsx:66 | filtering distributes over concatenation |
| Seqs.FilterAll | frontend/src/pages/Grades.jsx:46 | a predicate true of every element keeps the whole list |
| Seqs.Count | frontend/src/pages/Dashboard.jsx:64 | `filter(...).length` never exceeds the length |
| Seqs.CountMonotone | frontend/src/pages/Dashboard.jsx:64-67 | a weaker predicate is counted at least as often |
| Seqs.CountComplement | frontend/src/pages/Dashboard.jsx:75-95 | the elements satisfying a predicate and those that do not add up to the length |
| Seqs.Map | frontend/src/pages/MyGrades.jsx:37 | `map` gives one image per element, in order |
| Seqs.ClampIndex | frontend/src/pages/Dashboard.jsx:118 | a `slice` index is kept when in range and counts from the end when negative, and never passes the length |
| Seqs.Slice | frontend/src/pages/Dashboard.jsx:118 | `slice` is the window between its two resolved indexes, empty when they cross |
| Seqs.SliceHead | frontend/src/pages/StudentDashboard.jsx:128 | `slice(0, k)` keeps the first k elements, or all |
| Seqs.SliceTail | frontend/src/pages/Dashboard.jsx:118 | `slice(-k)` keeps the last k elements, or all |
| Seqs.SortBy | frontend/src/pages/Dashboard.jsx:117 | sorting by a total comparator gives a permutation in comparator order |
| Seqs.Insert | frontend/src/pages/Dashboard.jsx:117 | one insertion adds exactly one element |
| Seqs.InsertMultiset | frontend/src/pages/Dashboard.jsx:117 | an insertion adds the element and keeps the others |
| Seqs.InsertSorted | frontend/src/pages/Dashboard.jsx:117 | inserting into a sorted list keeps it sorted |
| Seqs.AscendingTotal | frontend/src/pages/Dashboard.jsx:117 | a comparison of numeric keys orders every pair |
| Seqs.DescendingTotal | frontend/src/pages/StudentDashboard.jsx:127 | a reversed comparison of numeric keys orders every pair |
| Seqs.SortedAscendingPairwise | frontend/src/pages/Dashboard.jsx:117 | in an ascending list every key is at most every later key |
| Seqs.SortedDescendingPairwise | frontend/src/pages/StudentDashboard.jsx:127 | in a descending list every key is at least every later key |
| Seqs.Reverse | frontend/src/pages/StudentDashboard.jsx:129 | `reverse` puts the i-th element from the end at position i |
| Seqs.ReverseMultiset | frontend/src/pages/StudentDashboard.jsx:129 | reversing keeps the elements |
| Pagination.TotalPages | frontend/src/pages/Grades.jsx:180 | `Math.ceil(n / per)`: the fewest pages holding every item; none exactly for no items |
| Pagination.Page | frontend/src/pages/Grades.jsx:177-179 | a page holds at most `per` items: its consecutive window when it starts within the list, nothing otherwise |
| Pagination.PageNonEmpty | frontend/src/pages/Grades.jsx:177-180 | every page up to the page count has items, and only the last may be short |
| Pagination.PagesPrefix | frontend/src/pages/Grades.jsx:177-180 | the first k pages hold exactly the first k pages' worth of items, in order |
| Pagination.PagesCover | frontend/src/pages/Grades.jsx:177-180 | reading every page in turn shows each item once, in list order |
| Text.Lower | frontend/src/pages/Grades.jsx:50 | `toLowerCase` maps each character and keeps the length |
| Text.LowerIdempotent | frontend/src/pages/Grades.jsx:50-55 | lowering twice is lowering once, so a lowered query meets lowered fields alike |
| Text.Upper | frontend/src/pages/users/index.jsx:42 | `toUpperCase` maps each character and keeps the length |
| Text.ContainsAt | frontend/src/pages/Grades.jsx:57-60 | `includes` holds exactly when the pattern occurs at some position |
| Text.ContainsEmpty | frontend/src/pages/Grades.jsx:57 | every string includes the empty string |
| Text.IndexOf | backend/routes/auth.js:79 | the first position where the pattern occurs, or -1 exactly when it does not occur |
| Text.ReplaceFirst | backend/routes/auth.js:79 | `replace` with a string pattern replaces only its first occurrence, and nothing when it does not occur |
| Text.Decimal | backend/model.js:53 | `String(n)` gives digits without a leading zero |
| Text.ParseDecimalOfDecimal | backend/model.js:53 | the digits of a number denote that number back |
| Text.Repeat | backend/model.js:53 | exactly k copies of the pad character |
| Text.ParseDecimalLeadingZeros | backend/model.js:53 | leading zeros do not change the number denoted |
| Text.ParseAllZeros | backend/model.js:53 | a string of zeros denotes 0 |
| Text.PadStart | backend/model.js:53 | `padStart` leaves a long enough string alone and otherwise pads on the left to the width |
| Text.Hex | backend/routes/students.js:59 | `toString('hex')` gives two lower-case hex digits per byte |
| Text.Split | frontend/src/components/users/user-role-form.jsx:78 | `split` gives at least one segment, none holding the separator |
| Text.JoinSplit | frontend/src/components/users/user-role-form.jsx:78-80 | joining the segments with the separator gives the string back |
| Text.SplitLength | frontend/src/components/users/user-role-form.jsx:78 | there is one more segment than separators |
| Text.SplitFree | frontend/src/components/users/user-role-form.jsx:78 | a string without the separator is its only segment |
| Text.SplitAfter | frontend/src/components/users/user-role-form.jsx:78 | a separator-free head is the first segment, followed by the rest's segments |
| Text.SplitJoin | frontend/src/components/users/user-role-form.jsx:78-80 | splitting a join of separator-free segments gives the segments back |
| Text.JoinAvoids | frontend/src/components/users/user-role-form.jsx:80 | a join of parts and a separator free of a character is free of it |
| Text.NewlinesToBr | backend/services/emailService.js:91 | the rewritten message has no line break |
| Text.NewlinesToBrConcat | backend/services/emailService.js:91 | the rewrite distributes over concatenation |
| Text.NewlinesToBrJoinSplit | backend/services/emailService.js:91 | the rewrite is the message cut at its line breaks and joined with `<br>` |
| Text.NewlinesToBrIdentity | backend/services/emailService.js:91 | a message without line breaks is unchanged |
| Text.NewlinesToBrLength | backend/services/emailService.js:91 | each line break adds three characters and nothing else changes the length |
| Text.LexLeTotal | backend/routes/emails.js:105 | any two names are ordered one way or the other |
| Text.LexLeAntisymmetric | backend/routes/emails.js:105 | a name sorts with itself, and names sorting both ways are equal |
| Text.Prefix | frontend/src/pages/MyGrades.jsx:38 | `substring(0, n)` keeps the first n characters, or all |
| Text.Capitalize | frontend/src/components/users/user-role-form.jsx:79 | only the first character is upper-cased, and the length is kept |
| FrontRoles.GetUserRole | frontend/src/lib/roles.js:19-21 | a role is reported exactly when there is a user with a non-empty role, and a reported role passes `hasRole` |
| FrontRoles.HasRole | frontend/src/lib/roles.js:8-11 | no user has no role |
| FrontRoles.HasAnyRole | frontend/src/lib/roles.js:13-17 | a user passes exactly when it has one of the listed roles, and nobody passes an empty list |
| FrontRoles.HasRoleUnique | frontend/src/lib/roles.js:8-11 | a user has at most one role |
| FrontRoles.HasAnyRoleSingleton | frontend/src/lib/roles.js:8-17 | asking for any of a one-role list is asking for that role |
| FrontRoles.HasAnyRoleMonotone | frontend/src/lib/roles.js:13-17 | a longer role list admits every user a shorter one admits |
| FrontRoles.HasRoleAgreesWithGetUserRole | frontend/src/lib/roles.js:8-21 | for a non-empty role, `hasRole` passes exactly when `getUserRole` reports that role |
| FrontAuth.RequireAuth | frontend/src/lib/auth.js:10-18 | a redirect to /login exactly when there is no user; otherwise the user |
| FrontAuth.RedirectIfAuthenticated | frontend/src/lib/auth.js:26-34 | a redirect to /dashboard exactly when there is a user |
| FrontAuth.RequireRole | frontend/src/lib/auth.js:43-57 | /login without a user, /unauthorized for another role; the user passes exactly when it has the role |
| FrontAuth.RequireAnyRole | frontend/src/lib/auth.js:66-80 | /login without a user, /unauthorized for an unlisted role; the user passes exactly when its role is listed |
| FrontAuth.SignInBeforeRole | frontend/src/lib/auth.js:46-48 | without a user both role guards send to /login, as the sign-in guard does |
| FrontAuth.RequireAnyRoleSingleton | frontend/src/lib/auth.js:43-80 | a one-role list guards exactly as that role |
| FrontAuth.RoleGuardImpliesAuth | frontend/src/lib/auth.js:66-80 | whoever passes a role guard passes the sign-in guard with the same user |
| FrontProtectedRoute.Guard | frontend/ProtectedRoute.jsx:4-18 | loading until loaded, /login when signed out, /dashboard for a role other than the one required; the children exactly when loaded, signed in and either no role is required or the user has it |
| FrontProtectedRoute.NoRequirementAdmitsAll | frontend/ProtectedRoute.jsx:13 | without a required role every signed-in user sees the children |
| FrontProtectedRoute.RequirementExcludesOthers | frontend/ProtectedRoute.jsx:13-17 | two different roles never both reach a screen that requires a role |
| FrontApp.ProtectedRoute | frontend/src/App.jsx:23-45 | a spinner until loaded; /public for a missing, empty or 'visiteur' role; the page exactly when the role is a real one and listed, or no list is given; every other loaded case goes to /public |
| FrontApp.NoAccess | frontend/src/App.jsx:36 | the three real roles are never sent to the public page |
| FrontApp.RoleBasedRedirect | frontend/src/App.jsx:47-65 | a spinner until loaded, then /public for visitors and /dashboard for everyone else |
| FrontApp.Root | frontend/src/App.jsx:103-115 | signed out goes to the sign-in page; signed in, the role-based redirect |
| FrontApp.RootSendsVisitorsToPublic | frontend/src/App.jsx:47-65 | the root sends to /dashboard exactly the loaded users the layout's guard admits |
| FrontApp.AllowedRoles | frontend/src/App.jsx:117-179 | the dashboard, courses and about pages have no role list; every other page has one |
| FrontApp.PageScreen | frontend/src/App.jsx:118-127 | nothing is rendered when signed out, and a user the layout's guard stops sees that guard's screen |
| FrontApp.PageAccess | frontend/src/App.jsx:128-178 | students, grades and send-email render exactly for 'administrateur' and 'scolarite'; my-grades and contact-admin exactly for 'etudiant'; users exactly for 'administrateur'; dashboard, courses and about for every non-visitor |
| FrontApp.StaffAndStudentPagesDisjoint | frontend/src/App.jsx:128-178 | no role reaches both a staff page and a student page, and a visitor is sent to /public from every page |
| FrontMainLayout.EffectiveRole | frontend/src/layouts/MainLayout.jsx:26 | the user's role, or 'etudiant' when it is missing or empty |
| FrontMainLayout.NavigationFor | frontend/src/layouts/MainLayout.jsx:36-46 | the navigation array has its nine entries |
| FrontMainLayout.Navigation | frontend/src/layouts/MainLayout.jsx:26-46 | the navigation array for a role has its nine entries |
| FrontMainLayout.FilteredNavigation | frontend/src/layouts/MainLayout.jsx:48 | the menu holds exactly the entries of the array that are shown |
| FrontMainLayout.MenuKeepsOrder | frontend/src/layouts/MainLayout.jsx:48 | the menu keeps the order of the array |
| FrontMainLayout.Names | frontend/src/layouts/MainLayout.jsx:36-46 | one name per menu entry |
| FrontMainLayout.ExpectedMenu | frontend/src/layouts/MainLayout.jsx:37-45 | every role's menu has the dashboard, the courses and the about page |
| FrontMainLayout.AdminMenu | frontend/src/layouts/MainLayout.jsx:36-48 | an administrator's menu is the administrator's written-out list |
| FrontMainLayout.ScolariteMenu | frontend/src/layouts/MainLayout.jsx:36-48 | a 'scolarite' user's menu is the written-out staff list |
| FrontMainLayout.StudentMenu | frontend/src/layouts/MainLayout.jsx:36-48 | a student's menu is the written-out student list |
| FrontMainLayout.OtherMenu | frontend/src/layouts/MainLayout.jsx:36-48 | any other role's menu has only the three common entries |
| FrontMainLayout.MenuByRole | frontend/src/layouts/MainLayout.jsx:26-48 | the menu of every role is the written-out list for its effective role |
| FrontDashboard.SumBounds | frontend/src/pages/Dashboard.jsx:61 | grades between two bounds sum to between the bounds times their number |
| FrontDashboard.Average | frontend/src/pages/Dashboard.jsx:60-62 | 0 for no grades; otherwise the mean, whose product with the number of grades is their sum |
| FrontDashboard.AverageInRange | frontend/src/pages/Dashboard.jsx:60-62 | the mean of grades on the 0-20 scale stays on that scale |
| FrontDashboard.Rate | frontend/src/pages/Dashboard.jsx:63-68 | 0 when there is nothing to count; otherwise a share of at most all is a percentage between 0 and 100 |
| FrontDashboard.RateMonotone | frontend/src/pages/Dashboard.jsx:63-68 | counting more grades never lowers the rate |
| FrontDashboard.StatsOf | frontend/src/pages/Dashboard.jsx:56-69 | the three totals are the list lengths; the mean and the two rates are over all grades and 0 without grades; the excellence rate never exceeds the pass rate, and both are between 0 and 100 |
| FrontDashboard.BandsPartition | frontend/src/pages/Dashboard.jsx:72-97 | every grade falls in exactly one of the five bands |
| FrontDashboard.BandCountsSum | frontend/src/pages/Dashboard.jsx:72-97 | the four upper band counts sum to the passes, and passes and failures sum to all grades |
| FrontDashboard.AllBands | frontend/src/pages/Dashboard.jsx:72-97 | there are five bands before the empty ones are dropped |
| FrontDashboard.SumValuesDropsZeros | frontend/src/pages/Dashboard.jsx:98 | dropping the empty bands keeps the total count |
| FrontDashboard.SumValuesOfFive | frontend/src/pages/Dashboard.jsx:72-97 | the total of the five bands is the sum of their five counts |
| FrontDashboard.Distribution | frontend/src/pages/Dashboard.jsx:72-98 | exactly the non-empty bands, in band order, which together count every grade once |
| FrontDashboard.GradesOfCourse | frontend/src/pages/Dashboard.jsx:102 | a course's grades are exactly the loaded grades whose course resolved to it |
| FrontDashboard.CourseEntry | frontend/src/pages/Dashboard.jsx:101-112 | a course's entry is named by its code, carries its full name, and has the number and the mean of that course's grades |
| FrontDashboard.CourseEntries | frontend/src/pages/Dashboard.jsx:101-112 | one entry per course, in order |
| FrontDashboard.AverageByCourse | frontend/src/pages/Dashboard.jsx:101-113 | a permutation of the entries of the courses with grades: every graded course appears, nothing else does, and the means are in non-increasing order |
| FrontDashboard.ByDate | frontend/src/pages/Dashboard.jsx:116-117 | a permutation of the grades in date order |
| FrontDashboard.LatestSuffix | frontend/src/pages/Dashboard.jsx:118 | a tail of a date-sorted list is date-sorted, is part of the list, and has no date older than the part cut off |
| FrontDashboard.Last10 | frontend/src/pages/Dashboard.jsx:116-118 | the ten most recent grades (all when fewer), oldest first, none older than a grade left out |
| FrontDashboard.Last10Points | frontend/src/pages/Dashboard.jsx:119-124 | one point per recent grade, named 'Note 1', 'Note 2' and so on, with the grade and the course code or 'N/A' |
| FrontDashboard.StudentEntry | frontend/src/pages/Dashboard.jsx:151-161 | a student's entry keeps the student and has the number and the mean of that student's grades |
| FrontDashboard.Ranking | frontend/src/pages/Dashboard.jsx:151-164 | exactly the entries of graded students, a permutation of them, ordered by mean from the highest |
| FrontDashboard.RankingDistinct | frontend/src/pages/Dashboard.jsx:151-164 | a ranking of distinct students lists each of them at most once |
| FrontDashboard.TopStudents | frontend/src/pages/Dashboard.jsx:151-165 | the first five of the ranking (all when fewer), each graded, in order of mean, none below a student left out |
| FrontDashboard.FirstIndex | frontend/src/pages/Dashboard.jsx:172 | the position of the first occurrence of a month |
| FrontDashboard.FindMonth | frontend/src/pages/Dashboard.jsx:172 | a position holding the month, or none exactly when the month is not in the accumulator |
| FrontDashboard.FirstIndexExtend | frontend/src/pages/Dashboard.jsx:170-181 | one more student keeps the first position of a month already seen |
| FrontDashboard.OccurrencesExtend | frontend/src/pages/Dashboard.jsx:170-181 | one more student adds one occurrence exactly to its own month |
| FrontDashboard.FirstIndexNew | frontend/src/pages/Dashboard.jsx:177 | a month seen for the first time at a position has that position as first and no earlier occurrence |
| FrontDashboard.OccurrencesAbsent | frontend/src/pages/Dashboard.jsx:172 | a month that does not occur has no occurrences |
| FrontDashboard.Step | frontend/src/pages/Dashboard.jsx:170-181 | a known month keeps the number of entries; a new month is pushed with total position plus one |
| FrontDashboard.TrendStep | frontend/src/pages/Dashboard.jsx:170-181 | one step of the reduce keeps the trend invariant for a prefix one student longer |
| FrontDashboard.TrendStepNew | frontend/src/pages/Dashboard.jsx:176-178 | pushing a new month keeps the trend invariant |
| FrontDashboard.TrendStepExisting | frontend/src/pages/Dashboard.jsx:174-175 | raising a known month's total by one keeps the trend invariant |
| FrontDashboard.TrendStepFound | frontend/src/pages/Dashboard.jsx:172-175 | a student whose month is already listed (the `find` succeeds) keeps the trend invariant one student further |
| FrontDashboard.TrendEmpty | frontend/src/pages/Dashboard.jsx:181 | the empty accumulator is the trend of no students |
| FrontDashboard.ByCreation | frontend/src/pages/Dashboard.jsx:169 | a permutation of the students in creation order |
| FrontDashboard.EnrollmentTrend | frontend/src/pages/Dashboard.jsx:168-182 | the accumulator holds each month once, in order of first appearance, with total equal to its first position plus its number of students; the trend is its last six entries |
| FrontGradesPage.StudentName | frontend/src/pages/Grades.jsx:52 | the student's two names separated by a space, or "undefined undefined" when the student did not resolve |
| FrontGradesPage.StepByAppend | frontend/src/pages/Grades.jsx:45-80 | each filtering step distributes over concatenation |
| FrontGradesPage.StepBySingle | frontend/src/pages/Grades.jsx:45-80 | a step keeps a single grade exactly when it is inactive or the grade passes |
| FrontGradesPage.StepByEmpty | frontend/src/pages/Grades.jsx:45-80 | a step keeps nothing of nothing |
| FrontGradesPage.FilteredAppend | frontend/src/pages/Grades.jsx:45-80 | the effect's five steps distribute over concatenation |
| FrontGradesPage.FilteredSingle | frontend/src/pages/Grades.jsx:45-80 | the five steps keep a single grade exactly when it meets every active criterion |
| FrontGradesPage.FilteredIsOneFilter | frontend/src/pages/Grades.jsx:45-80 | the five successive filters are one filter by the conjunction of the active criteria |
| FrontGradesPage.FilteredGradesSpec | frontend/src/pages/Grades.jsx:45-80 | a grade is listed exactly when it is loaded and meets every active criterion, and the loaded order is kept |
| FrontGradesPage.StepBy | frontend/src/pages/Grades.jsx:66-76 | one filter step never lengthens the list, keeps every grade when switched off, and otherwise keeps exactly the listed grades meeting its predicate |
| FrontGradesPage.FilteredGrades | frontend/src/pages/Grades.jsx:45-80 | never longer than the loaded grades, and a grade is listed exactly when it is loaded and meets every active criterion |
| FrontGradesPage.MatchesQuery | frontend/src/pages/Grades.jsx:51-61 | the empty query matches every grade |
| FrontGradesPage.NoCriteriaListsAll | frontend/src/pages/Grades.jsx:151-159 | a blank query with every filter empty lists every grade, in order |
| FrontGradesPage.UnresolvedAndNaN | frontend/src/pages/Grades.jsx:66-75 | a grade whose student did not resolve never passes the student filter, and a bound that is not a number empties the list |
| FrontGradesPage.GradeLabel | frontend/src/pages/Grades.jsx:169-175 | 'Excellent' from 16, 'Très bien' from 14, 'Bien' from 12, 'Passable' from 10, 'Insuffisant' below |
| FrontGradesPage.BadgeStyle | frontend/src/pages/Grades.jsx:162-166 | the badge classes name the colour right after `bg-` |
| FrontGradesPage.GradeBadge | frontend/src/pages/Grades.jsx:161-167 | green from 16, blue from 14, yellow from 12, orange from 10 and red below 10 |
| FrontGradesPage.BandOf | frontend/src/pages/Grades.jsx:161-175 | one of five bands, each exactly the interval of its colour: from 16, [14,16), [12,14), [10,12), below 10 |
| FrontGradesPage.LabelAndBadgeOfBand | frontend/src/pages/Grades.jsx:161-175 | label and badge are both read off the band |
| FrontGradesPage.LabelsAndBadgesDistinct | frontend/src/pages/Grades.jsx:161-175 | the five labels differ, and so do the five badges |
| FrontGradesPage.LabelAgreesWithBadge | frontend/src/pages/Grades.jsx:161-175 | two grades share a label exactly when they share a band, and a badge exactly when they share a band |
| FrontGradesPage.CurrentItems | frontend/src/pages/Grades.jsx:177-180 | at most ten grades; for a page within range, exactly that page's consecutive slice of the filtered list, which is not empty |
| FrontGradesPage.CanEdit | frontend/src/pages/Grades.jsx:10-11 | editing is offered exactly to 'administrateur' and 'scolarite' |
| FrontGradesPage.GradesPage.constructor | frontend/src/pages/Grades.jsx:13-37 | nothing loaded, no criteria, page 1, the form empty and closed |
| FrontGradesPage.GradesPage.RunFilterEffect | frontend/src/pages/Grades.jsx:45-80 | the shown list becomes the filtered grades and page 1 is shown; nothing else changes |
| FrontGradesPage.GradesPage.SetSearchQuery | frontend/src/pages/Grades.jsx:80 | a new query refilters and goes back to page 1 |
| FrontGradesPage.GradesPage.SetFilters | frontend/src/pages/Grades.jsx:80 | new filters refilter and go back to page 1 |
| FrontGradesPage.GradesPage.Loaded | frontend/src/pages/Grades.jsx:82-100 | loaded grades are stored, then refiltered on page 1 |
| FrontGradesPage.GradesPage.ClearFilters | frontend/src/pages/Grades.jsx:151-159 | filters and query are emptied, and every loaded grade is listed on page 1 |
| FrontGradesPage.GradesPage.Edit | frontend/src/pages/Grades.jsx:130-138 | the grade is being edited, the form opens with its student and course ids ('' when unresolved) and its value as text |
| FrontGradesPage.GradesPage.Submit | frontend/src/pages/Grades.jsx:102-128 | no request when a field is empty; an edit sends only the parsed grade, a new grade sends student, course and parsed grade; only a success closes and empties the form |
| FrontStudentsPage.SearchStudents | frontend/src/pages/Students.jsx:34-48 | a blank query lists every student; otherwise a student is listed exactly when it is loaded and matches, in the loaded order |
| FrontStudentsPage.MatchesQuery | frontend/src/pages/Students.jsx:39-44 | the empty query matches every student |
| FrontStudentsPage.CurrentItems | frontend/src/pages/Students.jsx:114-117 | at most eight students; for a page within range, exactly that page's consecutive slice of the listed students, which is not empty |
| FrontStudentsPage.StudentsPage.constructor | frontend/src/pages/Students.jsx:12-27 | nothing loaded, no query, page 1, the form empty and closed |
| FrontStudentsPage.StudentsPage.RunSearchEffect | frontend/src/pages/Students.jsx:34-48 | the listed students become the search result; only a non-blank query goes back to page 1 |
| FrontStudentsPage.StudentsPage.SetSearchQuery | frontend/src/pages/Students.jsx:48 | a new query reruns the search |
| FrontStudentsPage.StudentsPage.Loaded | frontend/src/pages/Students.jsx:50-63 | the loaded students, or none when the request failed, then the search again |
| FrontStudentsPage.StudentsPage.Edit | frontend/src/pages/Students.jsx:92-100 | the student is being edited and the form opens with its names and email |
| FrontStudentsPage.StudentsPage.Submit | frontend/src/pages/Students.jsx:65-90 | an edit sends an update of that student with the form, otherwise a creation with the form; only a success closes and empties the form |
| FrontCoursesPage.SearchCourses | frontend/src/pages/Courses.jsx:35-48 | a blank query lists every course; otherwise a course is listed exactly when it is loaded and matches, in the loaded order |
| FrontCoursesPage.MatchesQuery | frontend/src/pages/Courses.jsx:40-44 | the empty query matches every course |
| FrontCoursesPage.CurrentItems | frontend/src/pages/Courses.jsx:106-109 | at most ten courses; for a page within range, exactly that page's consecutive slice of the listed courses, which is not empty |
| FrontCoursesPage.CoursesPage.constructor | frontend/src/pages/Courses.jsx:13-28 | nothing loaded, no query, page 1, the default form closed |
| FrontCoursesPage.CoursesPage.RunSearchEffect | frontend/src/pages/Courses.jsx:35-48 | the listed courses become the search result; only a non-blank query goes back to page 1 |
| FrontCoursesPage.CoursesPage.SetSearchQuery | frontend/src/pages/Courses.jsx:48 | a new query reruns the search |
| FrontCoursesPage.CoursesPage.Loaded | frontend/src/pages/Courses.jsx:50-63 | the loaded courses, or none when the request failed, then the search again |
| FrontCoursesPage.CoursesPage.OpenNew | frontend/src/pages/Courses.jsx:133-136 | nothing is being edited and the default form with 3 credits opens |
| FrontCoursesPage.CoursesPage.Edit | frontend/src/pages/Courses.jsx:84-93 | the course is being edited and the form opens with its fields |
| FrontCoursesPage.CoursesPage.Submit | frontend/src/pages/Courses.jsx:65-82 | an edit sends an update of that course with the form, otherwise a creation with the form; only a success closes the form and restores the default |
| FrontUsersPage.IsAdmin | frontend/src/pages/Users.jsx:15-16 | the page is for 'administrateur' only; a missing role counts as 'etudiant' |
| FrontUsersPage.FilterByRole | frontend/src/pages/Users.jsx:40-47 | 'all' lists every user; any other role lists exactly the users with that role, in order |
| FrontUsersPage.DisjointCounts | frontend/src/pages/Users.jsx:145-150 | three different roles together count no more users than there are |
| FrontUsersPage.StatsOf | frontend/src/pages/Users.jsx:145-150 | the number of users and of each of the three roles, whose sum never exceeds the total |
| FrontUsersPage.RoleBadge | frontend/src/pages/Users.jsx:135-143 | a known role gets its own style, any other the visitor's |
| FrontUsersPage.CurrentItems | frontend/src/pages/Users.jsx:63-66 | at most ten users; for a page within range, exactly that page's consecutive slice of the listed users, which is not empty |
| FrontUsersPage.Delete | frontend/src/pages/Users.jsx:116-133 | one's own account is refused before any confirmation; a deletion of that user is requested exactly for another account that was confirmed |
| FrontUsersPage.UsersPage.constructor | frontend/src/pages/Users.jsx:18-32 | nothing loaded, the 'all' filter, page 1, the empty form closed |
| FrontUsersPage.UsersPage.RunFilterEffect | frontend/src/pages/Users.jsx:40-47 | the listed users become the role filter's result, on page 1 |
| FrontUsersPage.UsersPage.SetRoleFilter | frontend/src/pages/Users.jsx:47 | a new role filter refilters on page 1 |
| FrontUsersPage.UsersPage.Loaded | frontend/src/pages/Users.jsx:49-61 | the loaded users, or none when the request failed, then the filter again |
| FrontUsersPage.UsersPage.OpenModal | frontend/src/pages/Users.jsx:73-82 | the user is being edited and the form opens with its fields, 'visiteur' for a missing role |
| FrontUsersPage.UsersPage.CloseModal | frontend/src/pages/Users.jsx:84-88 | the form closes and empties and nothing is being edited |
| FrontUsersPage.UsersPage.Submit | frontend/src/pages/Users.jsx:90-114 | a change of one's own role that is not confirmed sends nothing; otherwise the form is sent for the edited user; a success closes the form, and notifies when it was one's own account |
| FrontSelection.Toggle | frontend/src/pages/SendEmail.jsx:57-63 | the id is selected afterwards exactly when it was not before, every other id keeps its state, a new id goes at the end, and removing keeps the order |
| FrontSelection.ToggleTwice | frontend/src/pages/EmailAdmin.jsx:43-49 | two clicks on the same student leave the same ids selected, and the same list when it was not selected |
| FrontSelection.SelectAllStep | frontend/src/pages/SendEmail.jsx:48-55 | the flag flips; from unset every listed id is selected, from set none is |
| FrontSelection.SelectAllTwice | frontend/src/pages/EmailAdmin.jsx:34-41 | two clicks on select-all from the unset flag leave nothing selected and the flag unset |
| FrontSendEmail.CanSend | frontend/src/pages/SendEmail.jsx:13-16 | the page sends exactly for 'administrateur' and 'scolarite'; a missing role counts as 'etudiant' |
| FrontSendEmail.SendNotice | frontend/src/pages/SendEmail.jsx:96-111 | an error reply alerts its error or the default; a request that fails alerts its message; a delivered reply, which carries `details` and no `results`, ends in the type error of reading `results` |
| FrontSendEmail.SendEmailPage.constructor | frontend/src/pages/SendEmail.jsx:18-27 | nothing loaded or selected, the form empty, no result |
| FrontSendEmail.SendEmailPage.Loaded | frontend/src/pages/SendEmail.jsx:35-46 | the loaded students, or none when the request failed |
| FrontSendEmail.SendEmailPage.SelectAll | frontend/src/pages/SendEmail.jsx:48-55 | the selection and the flag take one select-all step |
| FrontSendEmail.SendEmailPage.SelectStudent | frontend/src/pages/SendEmail.jsx:57-63 | the student is toggled; the select-all flag stays |
| FrontSendEmail.SendEmailPage.Submit | frontend/src/pages/SendEmail.jsx:65-115 | no request without a selected student, then none without subject and message, each with its alert; otherwise the selection and the form are sent, a delivered reply is kept and clears the form, the selection and the flag, and any other reply clears the result |
| FrontEmailAdmin.ResultOf | frontend/src/pages/EmailAdmin.jsx:74-89 | success exactly for a delivered reply, with its message and the reply; a failure carries the reply's error, or the default message when there is none, and no reply |
| FrontEmailAdmin.EmailAdminPage.constructor | frontend/src/pages/EmailAdmin.jsx:10-18 | nothing loaded or selected, the form empty, no result |
| FrontEmailAdmin.EmailAdminPage.Loaded | frontend/src/pages/EmailAdmin.jsx:24-32 | the listed students; a failed request keeps the list as it was |
| FrontEmailAdmin.EmailAdminPage.SelectAll | frontend/src/pages/EmailAdmin.jsx:34-41 | the selection and the flag take one select-all step |
| FrontEmailAdmin.EmailAdminPage.SelectStudent | frontend/src/pages/EmailAdmin.jsx:43-49 | the student is toggled; the select-all flag stays |
| FrontEmailAdmin.EmailAdminPage.Submit | frontend/src/pages/EmailAdmin.jsx:51-93 | no request without a selected student, then none without both fields, each with its alert; otherwise the selection and the form are sent, the panel shows the outcome, and only a delivered send clears the form, the selection and the flag |
| FrontEmailAdmin.EmailAdminPage.Reset | frontend/src/pages/EmailAdmin.jsx:215-220 | form, selection, flag and result are all cleared |
| FrontMyGrades.MaxGrade | frontend/src/pages/MyGrades.jsx:34 | the largest grade: one of the grades, and no grade is above it |
| FrontMyGrades.StatsOf | frontend/src/pages/MyGrades.jsx:30-35 | the number of grades, the passes among them, and the mean and the largest grade, which are 0 without grades |
| FrontMyGrades.SumAtMostMax | frontend/src/pages/MyGrades.jsx:32-34 | grades at most a bound sum to at most the bound times their number |
| FrontMyGrades.MeanAtMostMax | frontend/src/pages/MyGrades.jsx:30-35 | the mean never exceeds the largest grade |
| FrontMyGrades.CourseLabel | frontend/src/pages/MyGrades.jsx:38 | 'N/A' for a missing course name; otherwise its first fifteen characters |
| FrontMyGrades.ChartData | frontend/src/pages/MyGrades.jsx:37-40 | one row per grade, in order, with the course label and the grade |
| FrontMyGrades.MyGradesPage.constructor | frontend/src/pages/MyGrades.jsx:10-14 | no grades, loading |
| FrontMyGrades.MyGradesPage.Loaded | frontend/src/pages/MyGrades.jsx:17-28 | the reply's grades, or none when the reply has no list or the request failed, and loading ends |
| FrontStudentDashboard.NewestFirst | frontend/src/pages/StudentDashboard.jsx:126-127 | a permutation of the grades, newest first |
| FrontStudentDashboard.RecentGrades | frontend/src/pages/StudentDashboard.jsx:126-129 | the eight most recent grades (all when fewer), oldest first, drawn from the grades, none older than a grade left out |
| FrontStudentDashboard.RecentPoints | frontend/src/pages/StudentDashboard.jsx:130-133 | one point per recent grade, with the course code or 'N/A' and the grade |
| FrontStudentDashboard.PasswordCheck | frontend/src/pages/StudentDashboard.jsx:81-89 | the form passes exactly when the two new passwords match and have at least six characters; a mismatch is reported before the length |
| FrontStudentDashboard.EmptyFormRefused | frontend/src/pages/StudentDashboard.jsx:112 | the emptied form fails the length check |
| FrontStudentDashboard.PasswordAlert | frontend/src/pages/StudentDashboard.jsx:105-115 | the success message on success, the reply's error on refusal, and the failure's message otherwise |
| FrontStudentDashboard.StudentDashboardPage.constructor | frontend/src/pages/StudentDashboard.jsx:15-26 | the stored token and data, nothing loaded, loading, the password form empty and closed |
| FrontStudentDashboard.StudentDashboardPage.SignOut | frontend/src/pages/StudentDashboard.jsx:65-67 | token and data are removed and the page goes to the student login |
| FrontStudentDashboard.StudentDashboardPage.Load | frontend/src/pages/StudentDashboard.jsx:32-71 | without a token there is no request and the page goes to the login; a failed profile signs out; a loaded profile is shown and the grades are requested: accepted grades are shown, a refusal is ignored, a throw signs out; loading always ends |
| FrontStudentDashboard.StudentDashboardPage.Logout | frontend/src/pages/StudentDashboard.jsx:72-76 | token and data are removed and the page goes to the student login |
| FrontStudentDashboard.StudentDashboardPage.ShowPasswordForm | frontend/src/pages/StudentDashboard.jsx:158 | the password form opens or closes and nothing else changes |
| FrontStudentDashboard.StudentDashboardPage.ChangePassword | frontend/src/pages/StudentDashboard.jsx:78-117 | a form failing the checks sends nothing and alerts the check; otherwise the token and the two passwords are sent, the reply is alerted, and only a success closes and empties the form |
| FrontUserRoleForm.CapitalizeAll | frontend/src/components/users/user-role-form.jsx:79 | each word with its first character upper-cased, in order |
| FrontUserRoleForm.CapitalizeAvoids | frontend/src/components/users/user-role-form.jsx:79 | capitalising adds no `_` |
| FrontUserRoleForm.RoleWords | frontend/src/components/users/user-role-form.jsx:77-79 | one capitalised word per `_`-separated segment, none holding `_` |
| FrontUserRoleForm.RoleLabel | frontend/src/components/users/user-role-form.jsx:77-80 | the label has no `_`; it joins the words with spaces, and for a role without spaces splitting it on spaces gives back the words |
| FrontUserRoleForm.SpacesKept | frontend/src/components/users/user-role-form.jsx:77-80 | the words of a role without spaces have no spaces |
| FrontUserRoleForm.SplitChars | frontend/src/components/users/user-role-form.jsx:78 | every character of a segment comes from the split string |
| FrontUserRoleForm.TableLabels | frontend/src/lib/roles.js:1-5 | the three roles of the table are shown as 'Admin', 'Manager' and 'Student' |
| FrontUserRoleForm.CapitalizeLower | frontend/src/components/users/user-role-form.jsx:79 | a word starting with a lower-case letter is capitalised to the same word with that letter upper-cased |
| FrontUserRoleForm.SingleWordLabel | frontend/src/components/users/user-role-form.jsx:77-80 | a role without `_` is shown capitalised |
| FrontUserRoleForm.InitialRole | frontend/src/components/users/user-role-form.jsx:28 | the user's role, or 'student' when it is missing or empty |
| FrontUserRoleForm.UpdatedToast | frontend/src/components/users/user-role-form.jsx:43 | the success toast ends with the role |
| FrontUserRoleForm.RoleSheet.constructor | frontend/src/components/users/user-role-form.jsx:23-24 | no role, not loading |
| FrontUserRoleForm.RoleSheet.UserChanged | frontend/src/components/users/user-role-form.jsx:26-30 | a new user sets the role to its initial role; no user keeps the role |
| FrontUserRoleForm.RoleSheet.SelectRole | frontend/src/components/users/user-role-form.jsx:70 | the chosen role is kept |
| FrontUserRoleForm.RoleSheet.Submit | frontend/src/components/users/user-role-form.jsx:32-56 | the success toast always shows; with a parent callback and a user, the user's id and the role go to the parent and the sheet asks to close; with a callback and no user, the failure toast follows and the sheet stays open; without a callback it only closes |
| FrontUsersIndex.FirstChar | frontend/src/pages/users/index.jsx:42 | the first character of a name, or nothing for a missing or empty name |
| FrontUsersIndex.Initials | frontend/src/pages/users/index.jsx:41-43 | one or two characters: the upper-cased first characters of the names, or 'U' when both are missing or empty |
| FrontUsersIndex.FormatDate | frontend/src/pages/users/index.jsx:33-39 | 'N/A' for a missing or zero timestamp, otherwise the formatted date |
| FrontUsersIndex.Users | frontend/src/pages/users/index.jsx:22 | the fetched list, or none before it arrives or when it has no data |
| FrontUsersIndex.UsersIndexPage.constructor | frontend/src/pages/users/index.jsx:19-20 | nobody selected, the sheet closed, no refetch |
| FrontUsersIndex.UsersIndexPage.Edit | frontend/src/pages/users/index.jsx:24-27 | the user is selected and the sheet opens |
| FrontUsersIndex.UsersIndexPage.OpenChange | frontend/src/pages/users/index.jsx:133 | the sheet opens or closes as asked |
| FrontUsersIndex.UsersIndexPage.SheetSubmitted | frontend/src/pages/users/index.jsx:29-31 | a success refetches once, whatever role it carries, and a close request shuts the sheet |
| FrontUsersIndex.EditAndSubmit | frontend/src/pages/users/index.jsx:130-135 | a submit from the sheet opened on a listed user hands its id and its initial role to the page, which refetches once and closes the sheet |

## Left out

- Persistence: Mongoose queries, `populate` and database-side sorting are maps and functions over them. Handlers run one at a time, so the race between a uniqueness check and the insert is not modelled.
- Cryptography and identity: bcrypt, jsonwebtoken, svix, `crypto.randomBytes` and the identity provider's session lookup are parameters or inputs. Token expiry is carried as a claim, and its clock is not modelled.
- Mail transport and markup: `sendMail` is a parameter giving the transport's answer. The HTML templates are reduced to the fields that carry data: recipients, subject, reply-to, the rewritten message and the embedded values. How a grade and a date are written out (`grade.toFixed` and the French date) is a parameter of the grade mail, and the copyright year of the footer is left out.
- Number formatting: averages and rates are exact `real` values, so `toFixed` and `parseFloat` rounding is not modelled. A form's grade text is turned into a number by a parameter.
- Dates: parsing, `toLocaleDateString` and `Intl` formatting are parameters. Dates are integers.
- Text: `toLowerCase` and `toUpperCase` are modelled on ASCII letters only. Lengths count characters, not UTF-16 code units.
- `Promise.all` in the bulk-mail handler is a sequential list of results, in the order the students were found.
- Mutating sorts: the enrollment trend on the dashboard sorts the shared `students` state array in place. The model sorts a copy, so the later effect of that mutation on other charts is not modelled.
- The dashboard's `performanceRadar` is only a rescaling of the band counts for a chart, and is not modelled.
- Rendering, loading and submitting flags, spinners, toasts' timing and the simulated one-second wait in the role sheet are not modelled.
- Confirmation dialogs are boolean parameters.
- The `handleDelete` handlers of the grade, student and course pages are not modelled. They confirm, send the delete and reload, and the deletion itself is modelled on the server.
- FrontStudentsPage.StudentsPage.Submit: the alert showing the temporary password after a creation is not modelled, only the request and the form reset.
- Read-only handlers without logic are not modelled: the students, grades, courses and users `getById` handlers, the students `getAll`, `getMyGradesStudent`, and the users `getAllUsers` and `getUserById`.
- `updateUser` and `deleteUser` in backend/routes/students.js use a `User` the file never imports, so they always answer 500. They are not modelled.
- Malformed bodies are not modelled: values of the wrong type, `null`, NaN grades on the server, and Mongoose cast errors for malformed ids.
- Server wiring (backend/server.js), the database connection, the stale schemas file, the one-off data scripts and the presentation-only pages are not part of this model. So are the network clients and the zod-based forms.
