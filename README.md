# Taskify, modelled in Dafny

Taskify is an Android app for a school. An administrator creates teacher
accounts and keeps a local registry of teachers. Teachers create tasks for
the students of a subject, follow each student's submission and grade it.
Students register, confirm their phone, choose their subjects and see the
tasks of each subject.

This project models the deterministic logic behind those screens and
proves properties of it:

- **Input handling** (`register.dfy`, `verify_phone.dfy`, `country.dfy`,
  `create_teacher.dfy`, `teacher_index.dfy`, `admin_profile.dfy`):
  - dial-code cleaning and lookup;
  - password strength and the registration checks, in their order;
  - phone masking and the one-time-code field;
  - flag strings built from ISO codes, as UTF-16 code units;
  - teacher emails, generated passwords and the teacher-id counter;
  - comma-separated subject lists;
  - password-change checks.
- **Screen state** (`teacher_tasks_vm.dfy`, `task_details_vm.dfy`,
  `teacher_profile_vm.dfy`, `student_subjects_vm.dfy`,
  `teacher_home_vm.dfy`, and the form classes of the admin screens):
  - each view model is a class with its state record as a field;
  - each event is a method stating the whole new state;
  - each asynchronous completion is a method of its own, taking the backend's
    answer as a parameter.
- **The local teacher registry** (`admin_storage.dfy`): the id counter, the
  upsert by id, the sorted listing, the subject assignments, and the JSON
  encode/decode round trips.
- **The document-store repositories** (`teacher_tasks_repo.dfy`,
  `teacher_students.dfy`, `student_subject_repo.dfy`,
  `student_assignments_repo.dfy`, `student_tasks_repo.dfy`,
  `student_bootstrapper.dfy`):
  - the store is a map from document keys to documents (`docstore.dfy`);
  - a batch is a function on that map that either applies every write or
    none;
  - a query's answer is a parameter, in the backend's order;
  - the reads, defaults, filters, sorts, chunked lookups and write sets are
    modelled as the code performs them.
- **Shared modules**:
  - `strings.dfy`: Kotlin's trim, blank, lowercase, split, join and
    `toIntOrNull` with its 32-bit bound;
  - `lists.dfy`: filters, distinct, chunking, a stable sort with its
    sortedness and permutation proofs, toggling;
  - `task_models.dfy` and `task_docs.dfy`: the task enums and the readers of
    stored task fields.

Character classes (digits, letters, whitespace, upper and lower case) are
ASCII ones throughout. That is a deliberate simplification.

Clocks, random draws, backend-chosen ids and the signed-in account are
parameters. A server timestamp is a placeholder value in a written
document, and a commit replaces it with the commit time, which is a
parameter of the commit.

## Model

| member | source | states |
|---|---|---|
| Register.NormalizeCountryCode | app/src/main/java/com/example/taskify/ui/RegisterActivity.kt:339-344 | the result is "" exactly when the input has no digit; otherwise it is "+" followed by every digit of the input in order, extra '+' and other characters dropped |
| Register.NormalizeIdempotent | app/src/main/java/com/example/taskify/ui/RegisterActivity.kt:339-344 | normalising a dial code twice gives what normalising it once gives |
| Register.Sanitize | app/src/main/java/com/example/taskify/ui/RegisterActivity.kt:270-277 | the picker's sanitised text is "" only when the input holds neither '+' nor a digit, otherwise "+" followed by only the input's digits |
| Register.SanitizeIdempotent | app/src/main/java/com/example/taskify/ui/RegisterActivity.kt:270-277 | sanitising is idempotent |
| Register.Cleaned | app/src/main/java/com/example/taskify/ui/RegisterActivity.kt:279 | a cleaned code holds no space and has no whitespace at either end, keeps every visible character of the code in order, and is the code itself when the code had no space and no edge whitespace |
| Register.CleanedIdempotent | app/src/main/java/com/example/taskify/ui/RegisterActivity.kt:279 | cleaning a cleaned code changes nothing |
| Register.FindMatch | app/src/main/java/com/example/taskify/ui/RegisterActivity.kt:281-285 | a blank cleaned query finds nothing; a match is a listed country whose cleaned code equals the cleaned query |
| Register.FindMatchIsFirst | app/src/main/java/com/example/taskify/ui/RegisterActivity.kt:281-285 | the match is the first such country in list order, and no match means no country has that code |
| Register.Matching | app/src/main/java/com/example/taskify/ui/RegisterActivity.kt:289-294 | a country is among the candidates exactly when its cleaned code starts with the query or its name contains it ignoring case; when every country matches, the candidates are the whole list |
| Register.MatchingAppend | app/src/main/java/com/example/taskify/ui/RegisterActivity.kt:289-294 | the candidates of two lists one after the other are those of the first followed by those of the second, so list order is kept |
| Register.Suggestions | app/src/main/java/com/example/taskify/ui/RegisterActivity.kt:287-296 | a cleaned query shorter than two characters suggests nothing; otherwise the suggestions are a prefix of the candidates in list order, twelve long or all of them when fewer |
| Register.SuggestionsKeepEarlier | app/src/main/java/com/example/taskify/ui/RegisterActivity.kt:287-296 | a matching country earlier in the list is never dropped for a later one: the matches of a front part of the list, when at most twelve, are all shown first, and with twelve or more what follows changes nothing |
| Register.SuggestionsMatch | app/src/main/java/com/example/taskify/ui/RegisterActivity.kt:287-296 | every suggestion is a listed country the query matches, and with fewer than twelve shown every matching country is shown |
| Register.StrengthScore | app/src/main/java/com/example/taskify/ui/RegisterActivity.kt:365-373 | the score is at most five and reaches five exactly when all five criteria hold |
| Register.GetPasswordStrength | app/src/main/java/com/example/taskify/ui/RegisterActivity.kt:365-379 | two or fewer criteria give WEAK, three or four MEDIUM, all five STRONG; EMPTY is never returned |
| Register.EmptyPasswordIsWeak | app/src/main/java/com/example/taskify/ui/RegisterActivity.kt:365-379 | the empty password rates WEAK, not EMPTY |
| Register.EmailFormatSound | app/src/main/java/com/example/taskify/ui/RegisterActivity.kt:411 | every address the computed check accepts matches the email pattern |
| Register.EmailFormatComplete | app/src/main/java/com/example/taskify/ui/RegisterActivity.kt:411 | every address of the pattern's shape passes the computed check |
| Register.EmailFormatMatchesPattern | app/src/main/java/com/example/taskify/ui/RegisterActivity.kt:411 | the computed check accepts exactly the addresses the pattern describes |
| Register.IsEmailFormat | app/src/main/java/com/example/taskify/ui/RegisterActivity.kt:411 | the computed email check accepts only texts of six or more characters holding an '@'; its equivalence with the pattern is EmailFormatMatchesPattern |
| Register.PhoneAfterCode | app/src/main/java/com/example/taskify/ui/RegisterActivity.kt:205-206 | a dial code followed by a national number passes the phone pattern exactly when, with a digit in the code, the number is all digits, and otherwise when the number alone passes |
| Register.FullPhoneValid | app/src/main/java/com/example/taskify/ui/RegisterActivity.kt:426 | the assembled number passes exactly when the dial code has a digit and the trimmed national number is all digits, or, without such a digit, when the trimmed number is itself '+' and digits |
| Register.IsPhone | app/src/main/java/com/example/taskify/ui/RegisterActivity.kt:426 | the phone pattern: a '+' and one or more digits; such a number is left unchanged by the code field's sanitiser and by the dial-code normaliser |
| Register.FullPhone | app/src/main/java/com/example/taskify/ui/RegisterActivity.kt:205-206 | the number sent on is "+", the dial code's digits and the trimmed national number when the dial code has a digit, and only the trimmed national number otherwise |
| Register.ValidateAllInputs | app/src/main/java/com/example/taskify/ui/RegisterActivity.kt:388-443 | success, reported as "", exactly when names, email pattern, both reserved domains, phone, strength and confirmation all pass; each of the eight messages is reported exactly when its check is the first that fails, in the order names, email present, email format, admin domain, teacher domain, phone, strength, match |
| VerifyPhone.DigitsOfTrim | app/src/main/java/com/example/taskify/ui/VerifyPhoneActivity.kt:121-122 | trimming keeps every digit of the number |
| VerifyPhone.MaskPhoneKeepLast3 | app/src/main/java/com/example/taskify/ui/VerifyPhoneActivity.kt:120-130 | three digits or fewer give "***"; otherwise an optional '+' (exactly when the trimmed number starts with one), a '*' per digit but the last three, then those three digits; no other character appears |
| VerifyPhone.MaskKeepsLastThree | app/src/main/java/com/example/taskify/ui/VerifyPhoneActivity.kt:125-126 | a masked number ends with the number's last three digits |
| VerifyPhone.OtpFilter | app/src/main/java/com/example/taskify/ui/VerifyPhoneActivity.kt:78 | the field keeps only digits, the first six (or all, when fewer) of those typed, in order |
| VerifyPhone.OtpFilterIdempotent | app/src/main/java/com/example/taskify/ui/VerifyPhoneActivity.kt:78 | filtering the kept text again changes nothing |
| VerifyPhone.OtpVerifiesIff | app/src/main/java/com/example/taskify/ui/VerifyPhoneActivity.kt:19-93 | the field holds "123456" exactly when the first six typed digits are that code |
| VerifyPhone.VerifyPhoneScreen.constructor | app/src/main/java/com/example/taskify/ui/VerifyPhoneActivity.kt:39-41 | the screen starts with an empty code, info line and error |
| VerifyPhone.VerifyPhoneScreen.OnOtpChange | app/src/main/java/com/example/taskify/ui/VerifyPhoneActivity.kt:76-78 | typing sets the field to the filtered text and leaves both messages |
| VerifyPhone.VerifyPhoneScreen.SendCode | app/src/main/java/com/example/taskify/ui/VerifyPhoneActivity.kt:63-69 | "Send Code" shows "Code ready" and clears the error, leaving the field |
| VerifyPhone.VerifyPhoneScreen.Verify | app/src/main/java/com/example/taskify/ui/VerifyPhoneActivity.kt:87-103 | proceeds exactly when the field equals the development code; otherwise sets "Invalid code. Use 123456" and clears the info line |
| Countries.SurrogatePair | app/src/main/java/com/example/taskify/ui/CountryUtils.kt:46-48 | a supplementary code point becomes a high and a low surrogate that decode back to it |
| Countries.Utf16 | app/src/main/java/com/example/taskify/ui/CountryUtils.kt:44-46 | a string in code units is at least as long as in characters |
| Countries.Utf16OfBmp | app/src/main/java/com/example/taskify/ui/CountryUtils.kt:44-46 | a string of Basic Multilingual Plane characters has one code unit per character |
| Countries.FlagCodePoint | app/src/main/java/com/example/taskify/ui/CountryUtils.kt:46 | every produced symbol is supplementary, and a letter A-Z maps into U+1F1E6..U+1F1FF |
| Countries.FlagCodePoints | app/src/main/java/com/example/taskify/ui/CountryUtils.kt:45-47 | one symbol per code unit of the upper-cased ISO code, in order |
| Countries.FlagUnits | app/src/main/java/com/example/taskify/ui/CountryUtils.kt:46-48 | each symbol is written as two code units |
| Countries.IsoToFlag | app/src/main/java/com/example/taskify/ui/CountryUtils.kt:43-49 | a flag has two code units per code unit of the upper-cased ISO code |
| Countries.FlagUnitsDecode | app/src/main/java/com/example/taskify/ui/CountryUtils.kt:46-48 | decoding the written pairs gives the symbols back |
| Countries.FlagDecodes | app/src/main/java/com/example/taskify/ui/CountryUtils.kt:43-49 | decoding a flag gives one regional indicator per code unit of the upper-cased ISO code, in order |
| Countries.FlagIgnoresCase | app/src/main/java/com/example/taskify/ui/CountryUtils.kt:44 | lower- and upper-case ISO codes give the same flag |
| Countries.TwoLetterFlag | app/src/main/java/com/example/taskify/ui/CountryUtils.kt:43-49 | a two-letter code gives a four-unit string holding U+1F1E6 plus each letter's offset from 'A' |
| Countries.LoadCountries | app/src/main/java/com/example/taskify/ui/CountryUtils.kt:25-40 | one country per entry in file order, name, ISO code and dial code copied, flag the ISO code's flag |
| TeacherTasksVm.MarkLoaded | app/src/main/java/com/example/taskify/viewmodel/TeacherTasksViewModel.kt:125-128 | completing an attachment keeps the list's length |
| TeacherTasksVm.MarkLoadedOnly | app/src/main/java/com/example/taskify/viewmodel/TeacherTasksViewModel.kt:127 | only attachments with that id change, and only their loading flag, which becomes false |
| TeacherTasksVm.MarkLoadedAbsent | app/src/main/java/com/example/taskify/viewmodel/TeacherTasksViewModel.kt:127 | completing an id no attachment has changes nothing |
| TeacherTasksVm.MarkLoadedAppend | app/src/main/java/com/example/taskify/viewmodel/TeacherTasksViewModel.kt:127 | completion works element by element: it distributes over concatenation |
| TeacherTasksVm.AddThenLoaded | app/src/main/java/com/example/taskify/viewmodel/TeacherTasksViewModel.kt:116-128 | adding an attachment under a fresh id and completing it gives the earlier list followed by the new attachment, not loading |
| TeacherTasksVm.WithoutId | app/src/main/java/com/example/taskify/viewmodel/TeacherTasksViewModel.kt:133 | an attachment remains exactly when it was there and has another id |
| TeacherTasksVm.WithoutIdAppend | app/src/main/java/com/example/taskify/viewmodel/TeacherTasksViewModel.kt:133 | removal keeps the order of the rest: it distributes over concatenation |
| TeacherTasksVm.WithoutIdAbsent | app/src/main/java/com/example/taskify/viewmodel/TeacherTasksViewModel.kt:133 | removing an id no attachment has changes nothing |
| TeacherTasksVm.AddThenRemove | app/src/main/java/com/example/taskify/viewmodel/TeacherTasksViewModel.kt:116-134 | removing a freshly added attachment restores the list |
| TeacherTasksVm.Validate | app/src/main/java/com/example/taskify/viewmodel/TeacherTasksViewModel.kt:136-156 | no message exactly when the form is ready; otherwise exactly the first failing check's message, in the order login, subject, title, content, points, attachments, due date, unlock time, hours |
| TeacherTasksVm.UidsAt | app/src/main/java/com/example/taskify/viewmodel/TeacherTasksViewModel.kt:183 | the i-th student id is the i-th student's uid |
| TeacherTasksVm.SubmitRequest | app/src/main/java/com/example/taskify/viewmodel/TeacherTasksViewModel.kt:165-188 | a ready form sends the teacher's id and name, the selected subject, title, content, priority, due date, grades and attachments, the parsed points (positive, 32-bit), the unlock time and parsed hours exactly when scheduling is on, and the listed students' ids in order |
| TeacherTasksVm.SubmittedTaskDoc | app/src/main/java/com/example/taskify/viewmodel/TeacherTasksViewModel.kt:165-188 | the task document of a ready form has an unlock time and hours exactly when scheduling is on, and a trimmed, non-blank title |
| TeacherTasksVm.SavedFormAsWritten | app/src/main/java/com/example/taskify/viewmodel/TeacherTasksViewModel.kt:165-202 | the form the success step builds from the captured state: task fields reset, subject, students and priority kept, saving off, a success message, and the captured error kept |
| TeacherTasksVm.StaleErrorAfterSave | app/src/main/java/com/example/taskify/viewmodel/TeacherTasksViewModel.kt:96-202 | a ready form can carry an earlier validation error (turning scheduling off does not clear it), and saving it then shows that error beside the success message |
| TeacherTasksVm.SavedForm | app/src/main/java/com/example/taskify/viewmodel/TeacherTasksViewModel.kt:190-202 | after a save the task fields are reset, the subject, subjects, students and priority are kept, saving ends, the error is empty and the success message names the task |
| TeacherTasksVm.SavedFormNotReady | app/src/main/java/com/example/taskify/viewmodel/TeacherTasksViewModel.kt:136-202 | a saved form does not pass validation again as it stands |
| TeacherTasksVm.TeacherTasksViewModel.constructor | app/src/main/java/com/example/taskify/viewmodel/TeacherTasksViewModel.kt:10-44 | the screen starts from the default state with no teacher |
| TeacherTasksVm.TeacherTasksViewModel.Load | app/src/main/java/com/example/taskify/viewmodel/TeacherTasksViewModel.kt:46-47 | loading starts and both messages are cleared |
| TeacherTasksVm.TeacherTasksViewModel.ProfileLoaded | app/src/main/java/com/example/taskify/viewmodel/TeacherTasksViewModel.kt:50-66 | the teacher's id and display name ("Teacher" when both name parts are blank) are kept, the subjects shown with the first selected, and students are fetched exactly when that subject is not blank |
| TeacherTasksVm.TeacherTasksViewModel.StudentsLoaded | app/src/main/java/com/example/taskify/viewmodel/TeacherTasksViewModel.kt:67-82 | the fetched students replace the list and nothing else changes |
| TeacherTasksVm.TeacherTasksViewModel.LoadFailed | app/src/main/java/com/example/taskify/viewmodel/TeacherTasksViewModel.kt:70-71 | loading ends with the failure's message, or "Failed to load" |
| TeacherTasksVm.TeacherTasksViewModel.SetSubject | app/src/main/java/com/example/taskify/viewmodel/TeacherTasksViewModel.kt:76-79 | the subject changes, messages and students are cleared, and students are fetched exactly for a non-blank subject |
| TeacherTasksVm.TeacherTasksViewModel.SubjectStudentsFailed | app/src/main/java/com/example/taskify/viewmodel/TeacherTasksViewModel.kt:83-84 | a failed student fetch sets the error and nothing else |
| TeacherTasksVm.TeacherTasksViewModel.SetTitle | app/src/main/java/com/example/taskify/viewmodel/TeacherTasksViewModel.kt:89 | only the title changes, and both messages are cleared |
| TeacherTasksVm.TeacherTasksViewModel.SetPointsText | app/src/main/java/com/example/taskify/viewmodel/TeacherTasksViewModel.kt:90 | the points text becomes exactly the typed digits, in order; messages cleared |
| TeacherTasksVm.TeacherTasksViewModel.SetContent | app/src/main/java/com/example/taskify/viewmodel/TeacherTasksViewModel.kt:91 | only the content changes, and both messages are cleared |
| TeacherTasksVm.TeacherTasksViewModel.SetPriority | app/src/main/java/com/example/taskify/viewmodel/TeacherTasksViewModel.kt:92 | only the priority changes, and both messages are cleared |
| TeacherTasksVm.TeacherTasksViewModel.SetDueAtMillis | app/src/main/java/com/example/taskify/viewmodel/TeacherTasksViewModel.kt:94 | only the due date changes, and both messages are cleared |
| TeacherTasksVm.TeacherTasksViewModel.SetScheduleEnabled | app/src/main/java/com/example/taskify/viewmodel/TeacherTasksViewModel.kt:96-102 | turning scheduling off forgets the unlock time and hours, turning it on keeps them; the messages are untouched |
| TeacherTasksVm.TeacherTasksViewModel.SetOpenFromMillis | app/src/main/java/com/example/taskify/viewmodel/TeacherTasksViewModel.kt:104 | only the unlock time changes, and both messages are cleared |
| TeacherTasksVm.TeacherTasksViewModel.SetAvailableHoursText | app/src/main/java/com/example/taskify/viewmodel/TeacherTasksViewModel.kt:105 | the hours text becomes exactly the typed digits; messages cleared |
| TeacherTasksVm.TeacherTasksViewModel.SetGrade | app/src/main/java/com/example/taskify/viewmodel/TeacherTasksViewModel.kt:107-114 | that student's grade becomes the typed digits and every other grade is kept |
| TeacherTasksVm.TeacherTasksViewModel.AddAttachment | app/src/main/java/com/example/taskify/viewmodel/TeacherTasksViewModel.kt:116-124 | exactly one attachment is appended at the end, still loading; messages cleared |
| TeacherTasksVm.TeacherTasksViewModel.AttachmentLoaded | app/src/main/java/com/example/taskify/viewmodel/TeacherTasksViewModel.kt:125-129 | the attachments with that id stop loading; nothing else changes |
| TeacherTasksVm.TeacherTasksViewModel.RemoveAttachment | app/src/main/java/com/example/taskify/viewmodel/TeacherTasksViewModel.kt:132-134 | every attachment with the id is removed, the rest kept in order, the messages untouched |
| TeacherTasksVm.TeacherTasksViewModel.Submit | app/src/main/java/com/example/taskify/viewmodel/TeacherTasksViewModel.kt:158-170 | a failing check sets only the error (and clears success) and sends nothing; a ready form starts saving with cleared messages and sends its request |
| TeacherTasksVm.TeacherTasksViewModel.SubmitSucceeded | app/src/main/java/com/example/taskify/viewmodel/TeacherTasksViewModel.kt:190-202 | the screen shows the captured form reset as the source writes it, so it keeps the error it was captured with; it differs from the corrected save only in that error |
| TeacherTasksVm.TeacherTasksViewModel.SubmitFailed | app/src/main/java/com/example/taskify/viewmodel/TeacherTasksViewModel.kt:203-204 | the captured form, no longer saving, with the failure's message or "Failed to save task" |
| TaskDetailsVm.TeacherTaskDetailsViewModel.constructor | app/src/main/java/com/example/taskify/viewmodel/TeacherTaskDetailsViewModel.kt:37-52 | the screen starts loading, with no task, students, grades or error, for the given task id |
| TaskDetailsVm.TeacherTaskDetailsViewModel.Load | app/src/main/java/com/example/taskify/viewmodel/TeacherTaskDetailsViewModel.kt:55-56 | loading starts and the error is cleared; nothing else changes |
| TaskDetailsVm.TeacherTaskDetailsViewModel.Loaded | app/src/main/java/com/example/taskify/viewmodel/TeacherTaskDetailsViewModel.kt:59-68 | the task, its students and their grades replace the shown ones together, loading ends, the error is cleared |
| TaskDetailsVm.TeacherTaskDetailsViewModel.LoadFailed | app/src/main/java/com/example/taskify/viewmodel/TeacherTaskDetailsViewModel.kt:69-70 | loading ends with the failure's message, or "Failed to load task"; the earlier task, students and grades stay |
| TaskDetailsVm.TeacherTaskDetailsViewModel.SetGrade | app/src/main/java/com/example/taskify/viewmodel/TeacherTaskDetailsViewModel.kt:75-80 | that student's grade becomes the digits of the typed text, every other student's grade is kept, and nothing else changes |
| TaskDetailsVm.TeacherTaskDetailsViewModel.SaveGrades | app/src/main/java/com/example/taskify/viewmodel/TeacherTaskDetailsViewModel.kt:82-88 | without a loaded task nothing happens; otherwise saving starts, the error is cleared and the grades sent are the ones shown |
| TaskDetailsVm.TeacherTaskDetailsViewModel.GradesSaved | app/src/main/java/com/example/taskify/viewmodel/TeacherTaskDetailsViewModel.kt:89 | only the saving flag goes off |
| TaskDetailsVm.TeacherTaskDetailsViewModel.GradesSaveFailed | app/src/main/java/com/example/taskify/viewmodel/TeacherTaskDetailsViewModel.kt:90-91 | saving ends with the failure's message, or "Failed to save grades" |
| TaskDetailsVm.TeacherTaskDetailsViewModel.DeleteTask | app/src/main/java/com/example/taskify/viewmodel/TeacherTaskDetailsViewModel.kt:96-97 | deleting starts and the error is cleared |
| TaskDetailsVm.TeacherTaskDetailsViewModel.Deleted | app/src/main/java/com/example/taskify/viewmodel/TeacherTaskDetailsViewModel.kt:100-102 | deleting ends and the completion callback runs exactly once |
| TaskDetailsVm.TeacherTaskDetailsViewModel.DeleteFailed | app/src/main/java/com/example/taskify/viewmodel/TeacherTaskDetailsViewModel.kt:103-104 | deleting ends with the failure's message, or "Failed to delete task", and the callback does not run |
| TaskDetailsVm.SaveGradesRound | app/src/main/java/com/example/taskify/viewmodel/TeacherTaskDetailsViewModel.kt:82-93 | a grade save sends nothing exactly when no task is loaded; otherwise it ends with saving off, an error only on failure, and the grades and task as they were |
| TaskDetailsVm.DeleteRound | app/src/main/java/com/example/taskify/viewmodel/TeacherTaskDetailsViewModel.kt:96-107 | a delete ends with deleting off and runs the callback exactly when it succeeds; a failure leaves its message |
| TeacherProfileVm.ValidateChangePass | app/src/main/java/com/example/taskify/viewmodel/TeacherProfileViewModel.kt:88-94 | no message exactly for an acceptable change; otherwise each message exactly when its check is the first to fail, in the order all filled, at least 6 characters, confirmation matches, different from the old password |
| TeacherProfileVm.TeacherProfileViewModel.constructor | app/src/main/java/com/example/taskify/viewmodel/TeacherProfileViewModel.kt:10-37 | the screen starts loading with every field empty |
| TeacherProfileVm.TeacherProfileViewModel.Load | app/src/main/java/com/example/taskify/viewmodel/TeacherProfileViewModel.kt:39-40 | loading starts, both messages are cleared and the username is kept |
| TeacherProfileVm.TeacherProfileViewModel.ProfileLoaded | app/src/main/java/com/example/taskify/viewmodel/TeacherProfileViewModel.kt:43-49 | loading ends and the three name fields show the stored names |
| TeacherProfileVm.TeacherProfileViewModel.LoadFailed | app/src/main/java/com/example/taskify/viewmodel/TeacherProfileViewModel.kt:50-51 | loading ends with the failure's message, or "Failed to load profile" |
| TeacherProfileVm.TeacherProfileViewModel.ClearMessages | app/src/main/java/com/example/taskify/viewmodel/TeacherProfileViewModel.kt:56-58 | only the error and success lines are reset |
| TeacherProfileVm.TeacherProfileViewModel.SetFirstName | app/src/main/java/com/example/taskify/viewmodel/TeacherProfileViewModel.kt:60 | only the first name changes, and both messages are cleared |
| TeacherProfileVm.TeacherProfileViewModel.SetMiddleName | app/src/main/java/com/example/taskify/viewmodel/TeacherProfileViewModel.kt:61 | only the middle name changes, and both messages are cleared |
| TeacherProfileVm.TeacherProfileViewModel.SetLastName | app/src/main/java/com/example/taskify/viewmodel/TeacherProfileViewModel.kt:62 | only the last name changes, and both messages are cleared |
| TeacherProfileVm.TeacherProfileViewModel.SetOldPass | app/src/main/java/com/example/taskify/viewmodel/TeacherProfileViewModel.kt:64 | only the old password changes, and both messages are cleared |
| TeacherProfileVm.TeacherProfileViewModel.SetNewPass | app/src/main/java/com/example/taskify/viewmodel/TeacherProfileViewModel.kt:65 | only the new password changes, and both messages are cleared |
| TeacherProfileVm.TeacherProfileViewModel.SetConfirmPass | app/src/main/java/com/example/taskify/viewmodel/TeacherProfileViewModel.kt:66 | only the confirmation changes, and both messages are cleared |
| TeacherProfileVm.TeacherProfileViewModel.SetDeletePassword | app/src/main/java/com/example/taskify/viewmodel/TeacherProfileViewModel.kt:68 | only the delete password changes, and both messages are cleared |
| TeacherProfileVm.TeacherProfileViewModel.SaveProfile | app/src/main/java/com/example/taskify/viewmodel/TeacherProfileViewModel.kt:70-80 | a first or last name blank after trimming is refused with "First name and last name are required" and nothing is sent; otherwise saving starts and the three names are sent as typed |
| TeacherProfileVm.TeacherProfileViewModel.ProfileSaved | app/src/main/java/com/example/taskify/viewmodel/TeacherProfileViewModel.kt:81 | saving ends with "Profile updated" and a check mark |
| TeacherProfileVm.TeacherProfileViewModel.ProfileSaveFailed | app/src/main/java/com/example/taskify/viewmodel/TeacherProfileViewModel.kt:82-83 | saving ends with the failure's message, or "Failed to save profile" |
| TeacherProfileVm.TeacherProfileViewModel.ChangePassword | app/src/main/java/com/example/taskify/viewmodel/TeacherProfileViewModel.kt:96-107 | a refused change shows the first failing check's message and sends nothing; an accepted one starts and sends the old and new passwords |
| TeacherProfileVm.TeacherProfileViewModel.PasswordChanged | app/src/main/java/com/example/taskify/viewmodel/TeacherProfileViewModel.kt:108-114 | the three password fields are emptied and the success line is set |
| TeacherProfileVm.TeacherProfileViewModel.PasswordChangeFailed | app/src/main/java/com/example/taskify/viewmodel/TeacherProfileViewModel.kt:115-116 | the change ends with the failure's message, or "Failed to change password" |
| TeacherProfileVm.TeacherProfileViewModel.DeleteAccount | app/src/main/java/com/example/taskify/viewmodel/TeacherProfileViewModel.kt:121-131 | a blank password is refused with "Password is required to delete the account" and deletion never starts; otherwise it starts and sends the password |
| TeacherProfileVm.TeacherProfileViewModel.AccountDeleted | app/src/main/java/com/example/taskify/viewmodel/TeacherProfileViewModel.kt:132-137 | the password field is emptied, the success line is set and the callback runs once |
| TeacherProfileVm.TeacherProfileViewModel.AccountDeleteFailed | app/src/main/java/com/example/taskify/viewmodel/TeacherProfileViewModel.kt:138-139 | deleting ends with the failure's message, or "Failed to delete account" |
| TeacherProfileVm.RefusedChange | app/src/main/java/com/example/taskify/viewmodel/TeacherProfileViewModel.kt:96-102 | a change the checks refuse reaches no backend and leaves every input and the busy flag as they were, with an error shown |
| TeacherProfileVm.AcceptedChange | app/src/main/java/com/example/taskify/viewmodel/TeacherProfileViewModel.kt:96-114 | an accepted change the backend confirms sends the typed passwords and ends with the password fields empty, nothing in progress and a success line |
| AdminProfile.Validate | app/src/main/java/com/example/taskify/ui/admin/screens/AdminProfileScreen.kt:67-74 | no message exactly when every field is filled, the new password has at least 6 characters and matches its confirmation, and a signed-in account has an email; otherwise each message exactly when its check is the first to fail, in that order |
| AdminProfile.SamePasswordAccepted | app/src/main/java/com/example/taskify/ui/admin/screens/AdminProfileScreen.kt:67-74 | the administrator's checks accept a new password equal to the old one, which the teacher's checks refuse |
| AdminProfile.AdminProfileForm.constructor | app/src/main/java/com/example/taskify/ui/admin/screens/AdminProfileScreen.kt:54-62 | the form starts with empty fields and not loading |
| AdminProfile.AdminProfileForm.Submit | app/src/main/java/com/example/taskify/ui/admin/screens/AdminProfileScreen.kt:76-91 | the message shown is the validation's; a refused form sends nothing and leaves loading alone; an accepted one starts loading and sends the account's email with the old and new passwords; the fields are kept |
| AdminProfile.AdminProfileForm.Updated | app/src/main/java/com/example/taskify/ui/admin/screens/AdminProfileScreen.kt:93-103 | the success message is shown, the fields are emptied, the callback runs once and loading ends |
| AdminProfile.AdminProfileForm.UpdateFailed | app/src/main/java/com/example/taskify/ui/admin/screens/AdminProfileScreen.kt:100-103 | the failure's message, or "Failed to update password", is shown; the fields stay, the callback does not run and loading ends |
| AdminProfile.SubmitRound | app/src/main/java/com/example/taskify/ui/admin/screens/AdminProfileScreen.kt:76-104 | one submission shows one message, runs the callback exactly when the form was accepted and the backend succeeded, and leaves loading off whenever the backend was reached |
| StudentSubjectsVm.AllNames | app/src/main/java/com/example/taskify/ui/student/viewmodel/StudentSubjectsViewModel.kt:59 | a name is in the set exactly when some catalogue entry has it |
| StudentSubjectsVm.SelectAll | app/src/main/java/com/example/taskify/ui/student/viewmodel/StudentSubjectsViewModel.kt:58-67 | the selection becomes empty or every catalogue name, and empty exactly when the catalogue is empty or the selection already has as many subjects as it has names |
| StudentSubjectsVm.SelectAllTwice | app/src/main/java/com/example/taskify/ui/student/viewmodel/StudentSubjectsViewModel.kt:58-67 | pressing it twice on a non-empty catalogue ends full exactly when the selection was full-sized, and empty otherwise |
| StudentSubjectsVm.SizeNotEquality | app/src/main/java/com/example/taskify/ui/student/viewmodel/StudentSubjectsViewModel.kt:62 | the comparison is by size only: a selection of the right size that lacks an offered subject is cleared, not completed |
| StudentSubjectsVm.StudentSubjectsViewModel.constructor | app/src/main/java/com/example/taskify/ui/student/viewmodel/StudentSubjectsViewModel.kt:23 | the screen starts loading with no subjects, no selection and no error |
| StudentSubjectsVm.StudentSubjectsViewModel.Refresh | app/src/main/java/com/example/taskify/ui/student/viewmodel/StudentSubjectsViewModel.kt:30-32 | loading starts and the error is cleared |
| StudentSubjectsVm.StudentSubjectsViewModel.Refreshed | app/src/main/java/com/example/taskify/ui/student/viewmodel/StudentSubjectsViewModel.kt:34-42 | the catalogue and exactly the saved subjects replace the whole state, loading ended and no error |
| StudentSubjectsVm.StudentSubjectsViewModel.RefreshFailed | app/src/main/java/com/example/taskify/ui/student/viewmodel/StudentSubjectsViewModel.kt:43-47 | loading ends with the failure's message, or "Failed to load subjects"; the catalogue and the choice stay |
| StudentSubjectsVm.StudentSubjectsViewModel.ToggleSubject | app/src/main/java/com/example/taskify/ui/student/viewmodel/StudentSubjectsViewModel.kt:52-56 | only the selection changes: the subject is removed when chosen and added otherwise |
| StudentSubjectsVm.StudentSubjectsViewModel.ToggleSelectAll | app/src/main/java/com/example/taskify/ui/student/viewmodel/StudentSubjectsViewModel.kt:58-67 | only the selection changes, as select-all describes |
| StudentSubjectsVm.StudentSubjectsViewModel.SaveSelection | app/src/main/java/com/example/taskify/ui/student/viewmodel/StudentSubjectsViewModel.kt:69-75 | the list sent holds every chosen subject exactly once, ordered by lower-cased name, and loading starts |
| StudentSubjectsVm.StudentSubjectsViewModel.SelectionSaved | app/src/main/java/com/example/taskify/ui/student/viewmodel/StudentSubjectsViewModel.kt:76-78 | loading ends and the callback runs once |
| StudentSubjectsVm.StudentSubjectsViewModel.SelectionSaveFailed | app/src/main/java/com/example/taskify/ui/student/viewmodel/StudentSubjectsViewModel.kt:79-83 | loading ends with the failure's message, or "Failed to save subjects", and the callback does not run |
| StudentSubjectsVm.ToggleTwiceRound | app/src/main/java/com/example/taskify/ui/student/viewmodel/StudentSubjectsViewModel.kt:52-56 | toggling one subject twice leaves the whole screen as it was |
| StudentSubjectsVm.SaveRound | app/src/main/java/com/example/taskify/ui/student/viewmodel/StudentSubjectsViewModel.kt:69-85 | one save sends exactly the chosen subjects, leaves the choice and catalogue alone, ends with loading off, and runs the callback exactly when it succeeds, which is exactly when no error is left |
| AdminRegistry.WrapLong | app/src/main/java/com/example/taskify/ui/admin/AdminStorage.kt:17 | a Kotlin Long sum: the value within the 64-bit range that agrees with the exact one modulo 2^64, equal to it when it fits |
| AdminRegistry.OptString | app/src/main/java/com/example/taskify/ui/admin/AdminStorage.kt:72-80 | a missing entry reads as the empty text and a string as itself |
| AdminRegistry.OptLong | app/src/main/java/com/example/taskify/ui/admin/AdminStorage.kt:76 | a number reads as itself and a missing entry as 0 |
| AdminRegistry.MiddleOrNull | app/src/main/java/com/example/taskify/ui/admin/AdminStorage.kt:78 | the middle name is absent exactly when the stored one is blank, and otherwise kept as stored |
| AdminRegistry.ItemStrings | app/src/main/java/com/example/taskify/ui/admin/AdminStorage.kt:70-72 | one subject name per array element, each read as text |
| AdminRegistry.DecodeTeachers | app/src/main/java/com/example/taskify/ui/admin/AdminStorage.kt:67-85 | at most one record per array element (elements that are not objects are skipped) |
| AdminRegistry.TeachersOf | app/src/main/java/com/example/taskify/ui/admin/AdminStorage.kt:63-65 | a missing, unparsable or non-array text reads as no teachers |
| AdminRegistry.RecordJson | app/src/main/java/com/example/taskify/ui/admin/AdminStorage.kt:90-102 | one record is written as a JSON object |
| AdminRegistry.RecordsJson | app/src/main/java/com/example/taskify/ui/admin/AdminStorage.kt:88-103 | one object per record, in the list's order |
| AdminRegistry.Normalized | app/src/main/java/com/example/taskify/ui/admin/AdminStorage.kt:78-94 | a record as it reads back: every field kept except that a blank middle name becomes absent |
| AdminRegistry.StrItemsRoundTrip | app/src/main/java/com/example/taskify/ui/admin/AdminStorage.kt:70-100 | the subject names written read back as the same names |
| AdminRegistry.RecordRoundTrip | app/src/main/java/com/example/taskify/ui/admin/AdminStorage.kt:67-100 | decoding a written record gives the record back with its middle name normalised |
| AdminRegistry.ListRoundTrip | app/src/main/java/com/example/taskify/ui/admin/AdminStorage.kt:67-103 | decoding the written array gives the normalised records in the same order |
| AdminRegistry.TeachersRoundTrip | app/src/main/java/com/example/taskify/ui/admin/AdminStorage.kt:63-105 | storing the list and loading it again gives the same records in the same order, a missing or blank middle name coming back absent |
| AdminRegistry.DecodedNormalized | app/src/main/java/com/example/taskify/ui/admin/AdminStorage.kt:78 | records loaded from storage are already normalised |
| AdminRegistry.IndexOfId | app/src/main/java/com/example/taskify/ui/admin/AdminStorage.kt:30 | the first position holding the id, or the length when none does |
| AdminRegistry.Upsert | app/src/main/java/com/example/taskify/ui/admin/AdminStorage.kt:40 | the list keeps its length or grows by one |
| AdminRegistry.UpsertFrame | app/src/main/java/com/example/taskify/ui/admin/AdminStorage.kt:30-40 | the list keeps its length exactly when some record has the id; every record except the first with that id keeps its place |
| AdminRegistry.FirstById | app/src/main/java/com/example/taskify/ui/admin/AdminStorage.kt:50 | absent exactly when no record has the id; otherwise a record of the list with that id |
| AdminRegistry.UpsertThenFind | app/src/main/java/com/example/taskify/ui/admin/AdminStorage.kt:40-50 | after putting a record in, looking its id up finds that record |
| AdminRegistry.NormalizeUpsert | app/src/main/java/com/example/taskify/ui/admin/AdminStorage.kt:40-78 | normalising commutes with putting a record in |
| AdminRegistry.SaveReadsBack | app/src/main/java/com/example/taskify/ui/admin/AdminStorage.kt:21-42 | saving a record and loading the list gives the list as before with the normalised record put in |
| AdminRegistry.NameLePreorder | app/src/main/java/com/example/taskify/ui/admin/AdminStorage.kt:46 | ordering by lower-cased last name and then lower-cased first name is total and transitive |
| AdminRegistry.AssignmentsOf | app/src/main/java/com/example/taskify/ui/admin/AdminStorage.kt:107-109 | a missing, unparsable or non-object text reads as no assignments |
| AdminRegistry.AssignmentsRoundTrip | app/src/main/java/com/example/taskify/ui/admin/AdminStorage.kt:107-124 | storing an assignment map and loading it gives the same map |
| AdminRegistry.AdminStorage.constructor | app/src/main/java/com/example/taskify/ui/admin/AdminStorage.kt:7-13 | the storage holds the given counter and texts |
| AdminRegistry.AdminStorage.NextTeacherId | app/src/main/java/com/example/taskify/ui/admin/AdminStorage.kt:15-19 | the id is the stored counter, 1 when none is stored, and the counter becomes the id plus one in 64-bit arithmetic; nothing else changes |
| AdminRegistry.AdminStorage.LoadTeachersInternal | app/src/main/java/com/example/taskify/ui/admin/AdminStorage.kt:63-86 | the loop reads the stored array as the decoding function describes |
| AdminRegistry.AdminStorage.SaveTeacher | app/src/main/java/com/example/taskify/ui/admin/AdminStorage.kt:21-42 | the stored text becomes the loaded list with the record put in place of the first one with its id, or appended; nothing else changes |
| AdminRegistry.AdminStorage.GetAllTeachers | app/src/main/java/com/example/taskify/ui/admin/AdminStorage.kt:44-47 | the stored records, each exactly as often as stored, ordered by lower-cased last name and then first name |
| AdminRegistry.AdminStorage.GetTeacherById | app/src/main/java/com/example/taskify/ui/admin/AdminStorage.kt:49-51 | the first stored record with the id, or none |
| AdminRegistry.AdminStorage.LoadSubjectAssignmentsInternal | app/src/main/java/com/example/taskify/ui/admin/AdminStorage.kt:107-118 | the loop reads every key of the stored object with its number |
| AdminRegistry.AdminStorage.AssignSubjectsToTeacher | app/src/main/java/com/example/taskify/ui/admin/AdminStorage.kt:53-57 | every listed subject maps to the teacher afterwards and every other subject keeps its assignment, or its absence |
| AdminRegistry.AdminStorage.GetAssignedTeacherIdForSubject | app/src/main/java/com/example/taskify/ui/admin/AdminStorage.kt:59-61 | present exactly when the subject has a stored assignment, and then that teacher |
| AdminRegistry.TwoIds | app/src/main/java/com/example/taskify/ui/admin/AdminStorage.kt:15-19 | two ids in a row are consecutive below the 64-bit bound |
| AdminRegistry.SaveThenGet | app/src/main/java/com/example/taskify/ui/admin/AdminStorage.kt:21-51 | looking up a just-saved teacher's id gives the saved record with a blank middle name read back as absent |
| CreateTeacher.SanitizeFirstName | app/src/main/java/com/example/taskify/ui/admin/CreateTeacherActivity.kt:63-66 | a non-empty result made only of a-z and 0-9: the trimmed, lower-cased name with every other character removed, or "teacher" when nothing is left |
| CreateTeacher.SanitizeOfSlug | app/src/main/java/com/example/taskify/ui/admin/CreateTeacherActivity.kt:63-66 | a name already made only of a-z and 0-9 is kept as it is |
| CreateTeacher.SanitizeIdempotent | app/src/main/java/com/example/taskify/ui/admin/CreateTeacherActivity.kt:63-66 | cleaning a cleaned name changes nothing |
| CreateTeacher.TeacherEmail | app/src/main/java/com/example/taskify/ui/admin/CreateTeacherActivity.kt:234 | the email is the cleaned first name, then the id's decimal text, then "@tc.edu.lb" |
| CreateTeacher.EmailDeterminesTeacher | app/src/main/java/com/example/taskify/ui/admin/CreateTeacherActivity.kt:234 | when the cleaned first names hold no digit, equal emails mean equal cleaned names and equal ids |
| CreateTeacher.EmailCollision | app/src/main/java/com/example/taskify/ui/admin/CreateTeacherActivity.kt:234 | a first name ending in digits lets two teachers share an email: "ab1" with id 23 and "ab12" with id 3 |
| CreateTeacher.GenPassword | app/src/main/java/com/example/taskify/ui/admin/CreateTeacherActivity.kt:68-72 | the password has the requested length and its i-th character is the alphabet's character at the i-th random draw |
| CreateTeacher.EveryPasswordPossible | app/src/main/java/com/example/taskify/ui/admin/CreateTeacherActivity.kt:68-72 | every string over the alphabet is the password of some sequence of draws |
| CreateTeacher.StoredCounter | app/src/main/java/com/example/taskify/ui/admin/CreateTeacherActivity.kt:77-78 | the counter reads 1 when its document or field is missing or null, the stored number otherwise, and fails when the field holds something that is not a number |
| CreateTeacher.CounterAdvances | app/src/main/java/com/example/taskify/ui/admin/CreateTeacherActivity.kt:78-79 | after the transaction the counter reads one more, in 64-bit arithmetic, and no other document changes |
| CreateTeacher.NextTeacherId | app/src/main/java/com/example/taskify/ui/admin/CreateTeacherActivity.kt:74-82 | the id is what the counter reads; when it cannot be read nothing is written, otherwise the counter document has one more merged into it |
| CreateTeacher.TwoTeacherIds | app/src/main/java/com/example/taskify/ui/admin/CreateTeacherActivity.kt:74-82 | two creations in a row get consecutive ids below the 64-bit bound |
| CreateTeacher.ValidateForm | app/src/main/java/com/example/taskify/ui/admin/CreateTeacherActivity.kt:216-228 | no message exactly when both names are filled and a subject is chosen; otherwise the names message when a name is blank, the subject message when only the subject is missing |
| CreateTeacher.CreatedDocs | app/src/main/java/com/example/taskify/ui/admin/CreateTeacherActivity.kt:241-273 | the account, profile and index documents each end as their merge makes them |
| CreateTeacher.ProfileDocReads | app/src/main/java/com/example/taskify/ui/admin/CreateTeacherActivity.kt:251-262 | a merged profile reads back the id, the names (a blank middle name as null), the email and the subjects |
| CreateTeacher.CreatedProfileReadsBack | app/src/main/java/com/example/taskify/ui/admin/CreateTeacherActivity.kt:241-273 | after a creation the profile holds the id, the names, the email and the subjects |
| CreateTeacher.AccountDocsRead | app/src/main/java/com/example/taskify/ui/admin/CreateTeacherActivity.kt:242-272 | the merged account reads back the teacher role and the email; the merged index entry the uid, the email and the id |
| CreateTeacher.CreatedAccountReadsBack | app/src/main/java/com/example/taskify/ui/admin/CreateTeacherActivity.kt:241-273 | after a creation the account is a teacher with its email, and the index entry under the email gives the uid and the id |
| CreateTeacher.CreatedFrame | app/src/main/java/com/example/taskify/ui/admin/CreateTeacherActivity.kt:241-273 | a creation changes no document but its three |
| CreateTeacher.CreateAccount | app/src/main/java/com/example/taskify/ui/admin/CreateTeacherActivity.kt:231-287 | an unreadable counter fails and writes nothing; a failed account creation fails after the counter has moved; otherwise the outcome carries the id, the derived email and the drawn password, and the three documents are merged |
| CreateTeacher.CreateTeacherForm.constructor | app/src/main/java/com/example/taskify/ui/admin/CreateTeacherActivity.kt:55-61 | the form starts empty, not loading, with no dialog |
| CreateTeacher.CreateTeacherForm.ToggleSubject | app/src/main/java/com/example/taskify/ui/admin/CreateTeacherActivity.kt:194-204 | only the selection changes: the subject is removed when chosen and added otherwise |
| CreateTeacher.CreateTeacherForm.Submit | app/src/main/java/com/example/taskify/ui/admin/CreateTeacherActivity.kt:214-230 | the message shown is the validation's; a refused form sends nothing; an accepted one starts loading and hands over the trimmed names and every chosen subject once; the form is kept |
| CreateTeacher.CreateTeacherForm.Finished | app/src/main/java/com/example/taskify/ui/admin/CreateTeacherActivity.kt:275-287 | loading ends; a creation shows the id, email and password in the dialog and empties the form; a failure shows its message and keeps the form |
| CreateTeacher.CreateRound | app/src/main/java/com/example/taskify/ui/admin/CreateTeacherActivity.kt:214-288 | a refused form writes nothing; an accepted one ends with loading off, and with a readable counter and a created account leaves a profile holding the trimmed first name and an emptied form |
| TeacherIndex.CleanPieces | app/src/main/java/com/example/taskify/ui/admin/TeacherIndexActivity.kt:105 | the pieces are trimmed and the blank ones dropped, none longer than the input list |
| TeacherIndex.ParseSubjects | app/src/main/java/com/example/taskify/ui/admin/TeacherIndexActivity.kt:105 | every subject read from the comma-separated text is trimmed and not blank |
| TeacherIndex.CleanPiecesMembers | app/src/main/java/com/example/taskify/ui/admin/TeacherIndexActivity.kt:105 | a subject is listed exactly when some piece trims to it and it is not blank |
| TeacherIndex.CleanPiecesAppend | app/src/main/java/com/example/taskify/ui/admin/TeacherIndexActivity.kt:105 | cleaning keeps the order: the pieces of two texts come out one after the other |
| TeacherIndex.JoinSplit | app/src/main/java/com/example/taskify/ui/admin/TeacherIndexActivity.kt:105 | joining pieces without the separator and splitting again gives the pieces back |
| TeacherIndex.ParseJoined | app/src/main/java/com/example/taskify/ui/admin/TeacherIndexActivity.kt:105 | subjects joined by ", ", as the teacher's greeting lists them, read back as the same list when none is blank, padded or holds a comma |
| TeacherIndex.Normalize | app/src/main/java/com/example/taskify/ui/admin/TeacherIndexActivity.kt:101-105 | the email is the input trimmed and lower-cased, each name is its input trimmed (so in trimmed form), and the subjects are parsed from the comma-separated text |
| TeacherIndex.Validate | app/src/main/java/com/example/taskify/ui/admin/TeacherIndexActivity.kt:107-110 | nothing to report exactly when the email and the first and last names are filled and a subject is listed; otherwise "Fill email, first, last, subjects" |
| TeacherIndex.WriteEntry | app/src/main/java/com/example/taskify/ui/admin/TeacherIndexActivity.kt:113-126 | the entry replaces whatever was stored under the email, and nothing else changes |
| TeacherIndex.EntryReadsBack | app/src/main/java/com/example/taskify/ui/admin/TeacherIndexActivity.kt:117-124 | the written entry reads back the email, the names (a blank middle name as null) and the subjects, and no longer holds a uid or an id |
| TeacherIndex.TeacherIndexForm.constructor | app/src/main/java/com/example/taskify/ui/admin/TeacherIndexActivity.kt:34-39 | the form starts with five empty fields, not loading |
| TeacherIndex.TeacherIndexForm.Submit | app/src/main/java/com/example/taskify/ui/admin/TeacherIndexActivity.kt:99-112 | the message shown is the validation's of the normalised entry; a refused form writes nothing; an accepted one starts loading and hands over that entry; the fields are kept |
| TeacherIndex.TeacherIndexForm.Saved | app/src/main/java/com/example/taskify/ui/admin/TeacherIndexActivity.kt:128-137 | the form says where the entry was saved, empties all five fields and stops loading |
| TeacherIndex.TeacherIndexForm.Failed | app/src/main/java/com/example/taskify/ui/admin/TeacherIndexActivity.kt:134-137 | the failure's message, or "Failed", is shown, the fields stay and loading stops |
| TeacherIndex.SaveRound | app/src/main/java/com/example/taskify/ui/admin/TeacherIndexActivity.kt:99-139 | a refused form writes nothing; an accepted one whose write succeeds stores the normalised entry under the normalised email and empties the form; a failed write changes nothing |
| TeacherHomeVm.EmailIndex | app/src/main/java/com/example/taskify/viewmodel/TeacherHomeViewModel.kt:36-37 | the first position whose trimmed, lower-cased email is the one sought, or the length when none is |
| TeacherHomeVm.FindTeacher | app/src/main/java/com/example/taskify/viewmodel/TeacherHomeViewModel.kt:36-37 | absent exactly when no record has the email; otherwise the first record that has it |
| TeacherHomeVm.FullNameJoined | app/src/main/java/com/example/taskify/viewmodel/TeacherHomeViewModel.kt:44-52 | with trimmed, non-blank first and last names, the full name is the non-blank name parts joined by single spaces |
| TeacherHomeVm.GreetingParts | app/src/main/java/com/example/taskify/viewmodel/TeacherHomeViewModel.kt:54-58 | the greeting is its opening, the full name, ", our ", the subjects joined by ", " and " teacher", so each part can be recovered |
| TeacherHomeVm.FullName | app/src/main/java/com/example/taskify/viewmodel/TeacherHomeViewModel.kt:44-52 | the full name has no whitespace at either end and holds the visible characters of the first, middle and last names, in that order |
| TeacherHomeVm.Greeting | app/src/main/java/com/example/taskify/viewmodel/TeacherHomeViewModel.kt:54-58 | the greeting starts with "Hello Mr. ", ends with " teacher", and is exactly as long as its five parts together |
| TeacherHomeVm.TeacherHomeViewModel.constructor | app/src/main/java/com/example/taskify/viewmodel/TeacherHomeViewModel.kt:12-24 | the screen starts loading with no greeting and no error |
| TeacherHomeVm.TeacherHomeViewModel.LoadTeacher | app/src/main/java/com/example/taskify/viewmodel/TeacherHomeViewModel.kt:26-33 | without a usable signed-in email the screen shows "No user logged in" and nothing is looked up; otherwise it loads and the trimmed, lower-cased email is looked up |
| TeacherHomeVm.TeacherHomeViewModel.TeachersLoaded | app/src/main/java/com/example/taskify/viewmodel/TeacherHomeViewModel.kt:36-59 | the first record with the email is greeted; without one, "Teacher record not found" is shown |
| TeacherHomeVm.LoadRound | app/src/main/java/com/example/taskify/viewmodel/TeacherHomeViewModel.kt:26-61 | a load always ends not loading, and a greeting is shown exactly when someone is signed in and a record with their email exists |
| TeacherTasksRepo.TaskRows | app/src/main/java/com/example/taskify/ui/teacher/TeacherTasksFirestoreRepository.kt:33-52 | one row per task document, in order, each read as the task row reader describes |
| TeacherTasksRepo.TaskRowOf | app/src/main/java/com/example/taskify/ui/teacher/TeacherTasksFirestoreRepository.kt:33-52 | a task row keeps the document id, the stored title and subject ("" when missing) and the due and unlock times; a known priority is kept and a missing or unknown one reads MEDIUM; a missing creation time and missing points read zero, points as 32-bit; available hours are kept only when positive |
| TeacherTasksRepo.GetMyTasks | app/src/main/java/com/example/taskify/ui/teacher/TeacherTasksFirestoreRepository.kt:25-54 | nothing when nobody is signed in; otherwise the rows of exactly the tasks the teacher owns, each as often as returned, newest first |
| TeacherTasksRepo.TaskDoc | app/src/main/java/com/example/taskify/ui/teacher/TeacherTasksFirestoreRepository.kt:84-98 | the unlock time and the hours are stored exactly when given, as a timestamp and a number |
| TeacherTasksRepo.TaskDocFields | app/src/main/java/com/example/taskify/ui/teacher/TeacherTasksFirestoreRepository.kt:84-95 | the title, content, subject, points, priority and attachments are stored as given, the creation time is left to the server, and the due date is a timestamp or null |
| TeacherTasksRepo.TaskData | app/src/main/java/com/example/taskify/ui/teacher/TeacherTasksFirestoreRepository.kt:74-98 | a new task's document has its title and content trimmed, and an unlock time and hours exactly when given |
| TeacherTasksRepo.TaskDataFields | app/src/main/java/com/example/taskify/ui/teacher/TeacherTasksFirestoreRepository.kt:74-98 | a new task's document stores the subject, the points, the priority's name, each attachment as a payload, the server's creation time and the due date |
| TeacherTasksRepo.InitialGrade | app/src/main/java/com/example/taskify/ui/teacher/TeacherTasksFirestoreRepository.kt:105-106 | a student's initial grade is the trimmed text read as a 32-bit number; none when missing, blank or not a number |
| TeacherTasksRepo.StudentData | app/src/main/java/com/example/taskify/ui/teacher/TeacherTasksFirestoreRepository.kt:108-115 | a new submission is delivered, not opened or submitted, stores the parsed grade or null, and has a grading time exactly when it has a grade |
| TeacherTasksRepo.CreateBatchResult | app/src/main/java/com/example/taskify/ui/teacher/TeacherTasksFirestoreRepository.kt:100-120 | the batch commits, writes the task document and each listed student's submission, and leaves every other document as it was |
| TeacherTasksRepo.CreateTaskAndAssignStudents | app/src/main/java/com/example/taskify/ui/teacher/TeacherTasksFirestoreRepository.kt:56-122 | the answer is the new task's id; the task and each listed student's submission are stored, and nothing else changes |
| TeacherTasksRepo.CreatedTaskRow | app/src/main/java/com/example/taskify/ui/teacher/TeacherTasksFirestoreRepository.kt:33-52 | a created task is listed with its title trimmed, its creation time the commit time and its hours kept only when positive |
| TeacherTasksRepo.StoredTaskReads | app/src/main/java/com/example/taskify/ui/teacher/TeacherTasksFirestoreRepository.kt:84-98 | every field of a committed task document reads back as written, the creation time as the commit time |
| TeacherTasksRepo.MiniOfPayload | app/src/main/java/com/example/taskify/ui/teacher/TeacherTasksFirestoreRepository.kt:137-142 | a stored attachment is shown with its type name, label and value |
| TeacherTasksRepo.MinisRoundTrip | app/src/main/java/com/example/taskify/ui/teacher/TeacherTasksFirestoreRepository.kt:137-143 | a stored attachment list is shown back in order |
| TeacherTasksRepo.CreatedTaskDetails | app/src/main/java/com/example/taskify/ui/teacher/TeacherTasksFirestoreRepository.kt:124-155 | the details of a created task show the trimmed title and content, the priority's name, the commit time and each attachment in order |
| TeacherTasksRepo.GetTaskDetails | app/src/main/java/com/example/taskify/ui/teacher/TeacherTasksFirestoreRepository.kt:124-155 | the details keep the id, the stored title, subject and content ("" when missing), the stored priority text or "MEDIUM" when missing, zero for a missing creation time or points, 32-bit points, and no more attachments than stored (none when the list is missing) |
| TeacherTasksRepo.GradeText | app/src/main/java/com/example/taskify/ui/teacher/TeacherTasksFirestoreRepository.kt:166 | the grade shown is empty when none is stored, and otherwise text that reads back as the stored number cut to 32 bits |
| TeacherTasksRepo.GradesOf | app/src/main/java/com/example/taskify/ui/teacher/TeacherTasksFirestoreRepository.kt:165-168 | the grades map has an entry for every submission and for nothing else |
| TeacherTasksRepo.GradesOfDistinct | app/src/main/java/com/example/taskify/ui/teacher/TeacherTasksFirestoreRepository.kt:165-168 | with distinct ids, each submission's entry is its own grade text |
| TeacherTasksRepo.ProfileMap | app/src/main/java/com/example/taskify/ui/teacher/TeacherTasksFirestoreRepository.kt:174-201 | an id has a profile row exactly when it is listed and has a profile document, and the row is that document's |
| TeacherTasksRepo.RowFor | app/src/main/java/com/example/taskify/ui/teacher/TeacherTasksFirestoreRepository.kt:203-213 | a submission's row has its id and its state (DELIVERED when unknown), and the profile's name and email, or "Student" and "" without a profile |
| TeacherTasksRepo.RowsFor | app/src/main/java/com/example/taskify/ui/teacher/TeacherTasksFirestoreRepository.kt:203-213 | one row per submission, in order |
| TeacherTasksRepo.TaskStudentRows | app/src/main/java/com/example/taskify/ui/teacher/TeacherTasksFirestoreRepository.kt:203-214 | the rows of the submissions, each exactly once, ordered by lower-cased name |
| TeacherTasksRepo.ProfileMapSnoc | app/src/main/java/com/example/taskify/ui/teacher/TeacherTasksFirestoreRepository.kt:183-200 | looking one more id up adds its profile row when it has a profile, and nothing otherwise |
| TeacherTasksRepo.GetTaskStudents | app/src/main/java/com/example/taskify/ui/teacher/TeacherTasksFirestoreRepository.kt:157-217 | the grades map comes from the submissions and the rows are their rows in name order, with the profiles fetched ten ids at a time |
| TeacherTasksRepo.FetchProfiles | app/src/main/java/com/example/taskify/ui/teacher/TeacherTasksFirestoreRepository.kt:174-201 | the chunked lookups find the profile rows of exactly the ids that have a profile |
| TeacherTasksRepo.PutProfiles | app/src/main/java/com/example/taskify/ui/teacher/TeacherTasksFirestoreRepository.kt:178-200 | one chunk's query puts in the profile row of every id of the chunk that has a profile |
| TeacherTasksRepo.GradeFields | app/src/main/java/com/example/taskify/ui/teacher/TeacherTasksFirestoreRepository.kt:224-230 | a grade update sets the grade, null when the text is not a number, and a grading time exactly when it is one |
| TeacherTasksRepo.SavedGradeReadsBack | app/src/main/java/com/example/taskify/ui/teacher/TeacherTasksFirestoreRepository.kt:166-230 | a saved grade text is shown back as the number it parsed to, or as "" when it did not parse |
| TeacherTasksRepo.ShownGradeSavesBack | app/src/main/java/com/example/taskify/ui/teacher/TeacherTasksFirestoreRepository.kt:166-224 | saving the grades as shown keeps every stored grade |
| TeacherTasksRepo.UpdateTaskGrades | app/src/main/java/com/example/taskify/ui/teacher/TeacherTasksFirestoreRepository.kt:219-236 | the batch commits exactly when every listed submission exists; then each gets its grade update and nothing else changes; otherwise nothing changes |
| TeacherTasksRepo.TaskDeletion | app/src/main/java/com/example/taskify/ui/teacher/TeacherTasksFirestoreRepository.kt:242-249 | a batch deleting the task and its submissions removes exactly those documents and keeps the rest |
| TeacherTasksRepo.DeleteAll | app/src/main/java/com/example/taskify/ui/teacher/TeacherTasksFirestoreRepository.kt:244-248 | the batch deletes exactly the given documents |
| TeacherTasksRepo.DeleteTask | app/src/main/java/com/example/taskify/ui/teacher/TeacherTasksFirestoreRepository.kt:238-250 | the task and every submission under it are removed, and every other document is kept as it was |
| TeacherStudents.ProfileName | app/src/main/java/com/example/taskify/ui/teacher/TeacherStudentsRepository.kt:21-24 | a student's shown name is never blank: the non-blank name parts joined by spaces, or "Student" |
| TeacherStudents.ProfileRow | app/src/main/java/com/example/taskify/ui/teacher/TeacherStudentsRepository.kt:15-31 | a profile becomes a row with its id, its name, its email (empty when missing) and the DELIVERED state |
| TeacherStudents.ByLowerNamePreorder | app/src/main/java/com/example/taskify/ui/teacher/TeacherStudentsRepository.kt:32 | ordering rows by lower-cased name is total and transitive |
| TeacherStudents.SubjectProfiles | app/src/main/java/com/example/taskify/ui/teacher/TeacherStudentsRepository.kt:10-11 | exactly the profiles whose subjects list holds the subject |
| TeacherStudents.ProfileRows | app/src/main/java/com/example/taskify/ui/teacher/TeacherStudentsRepository.kt:15-31 | one row per profile, in order |
| TeacherStudents.GetStudentsForSubject | app/src/main/java/com/example/taskify/ui/teacher/TeacherStudentsRepository.kt:9-33 | the rows of exactly the profiles that list the subject, each once, ordered by lower-cased name |
| TeacherStudents.StudentsForSubjectSound | app/src/main/java/com/example/taskify/ui/teacher/TeacherStudentsRepository.kt:9-33 | every returned row comes from a profile that lists the subject |
| TeacherStudents.StudentsForSubjectComplete | app/src/main/java/com/example/taskify/ui/teacher/TeacherStudentsRepository.kt:9-33 | every profile that lists the subject gives a returned row |
| StudentSubjectRepo.CleanSubjects | app/src/main/java/com/example/taskify/ui/student/data/StudentSubjectRepository.kt:25 | no more subjects than stored entries |
| StudentSubjectRepo.CleanSubjectsTrimmed | app/src/main/java/com/example/taskify/ui/student/data/StudentSubjectRepository.kt:25 | every subject read is trimmed and not blank |
| StudentSubjectRepo.CleanSubjectsMembers | app/src/main/java/com/example/taskify/ui/student/data/StudentSubjectRepository.kt:25 | a subject is read exactly when some non-null entry trims to it and it is not blank |
| StudentSubjectRepo.CleanStrValues | app/src/main/java/com/example/taskify/ui/student/data/StudentSubjectRepository.kt:25 | reading back a stored list of trimmed, non-blank subjects gives that list |
| StudentSubjectRepo.GetSelectedSubjects | app/src/main/java/com/example/taskify/ui/student/data/StudentSubjectRepository.kt:21-26 | nothing without a signed-in student or without a profile document |
| StudentSubjectRepo.SelectionDoc | app/src/main/java/com/example/taskify/ui/student/data/StudentSubjectRepository.kt:30-34 | the document written holds exactly the trimmed, lower-cased email, the subjects without repetitions and the server's time |
| StudentSubjectRepo.SaveSelectedSubjects | app/src/main/java/com/example/taskify/ui/student/data/StudentSubjectRepository.kt:28-36 | without a signed-in student nothing is written; otherwise the student's profile document is replaced by the selection document, and nothing else changes |
| StudentSubjectRepo.SavedSelectionReadsBack | app/src/main/java/com/example/taskify/ui/student/data/StudentSubjectRepository.kt:21-36 | saving trimmed, non-blank subjects and reading them back gives them without repetitions, in order of first occurrence |
| StudentSubjectRepo.SelectedFromDoc | app/src/main/java/com/example/taskify/ui/student/data/StudentSubjectRepository.kt:21-26 | a student's subjects are read from their own profile document only |
| StudentSubjectRepo.SaveKeepsOthers | app/src/main/java/com/example/taskify/ui/student/data/StudentSubjectRepository.kt:28-36 | saving one student's choice leaves every other student's choice as it was |
| StudentSubjectRepo.TeacherNameOf | app/src/main/java/com/example/taskify/ui/student/data/StudentSubjectRepository.kt:44-51 | a teacher's name is absent exactly when every name part is blank or missing, and otherwise not blank |
| StudentSubjectRepo.SubjectLists | app/src/main/java/com/example/taskify/ui/student/data/StudentSubjectRepository.kt:53-55 | each profile's cleaned subjects, in query order |
| StudentSubjectRepo.TeacherNames | app/src/main/java/com/example/taskify/ui/student/data/StudentSubjectRepository.kt:44-51 | each profile's teacher name, in query order |
| StudentSubjectRepo.FirstLister | app/src/main/java/com/example/taskify/ui/student/data/StudentSubjectRepository.kt:57-59 | the first profile whose subjects hold the subject, or the count when none does |
| StudentSubjectRepo.CollectSubjects | app/src/main/java/com/example/taskify/ui/student/data/StudentSubjectRepository.kt:41-60 | after every profile is visited the map holds each listed subject once, with the name of the first teacher listing it |
| StudentSubjectRepo.AddProfile | app/src/main/java/com/example/taskify/ui/student/data/StudentSubjectRepository.kt:57-59 | one profile's visit adds each of its subjects not yet seen with that teacher's name and keeps the rest |
| StudentSubjectRepo.CatalogueFacts | app/src/main/java/com/example/taskify/ui/student/data/StudentSubjectRepository.kt:62-63 | reordering the collected subjects keeps each of them exactly once |
| StudentSubjectRepo.GetAllSubjectsWithTeachers | app/src/main/java/com/example/taskify/ui/student/data/StudentSubjectRepository.kt:38-65 | every subject some teacher lists appears exactly once, ordered by lower-cased name, paired with the name of the first teacher in the query result that lists it |
| TaskModels.ParsePriority | app/src/main/java/com/example/taskify/ui/teacher/TeacherTaskModels.kt:3 | a text names a priority only when it is that priority's exact constant name |
| TaskModels.PriorityRoundTrip | app/src/main/java/com/example/taskify/ui/teacher/TeacherTaskModels.kt:3 | every priority's name reads back as that priority |
| TaskModels.PriorityOrMedium | app/src/main/java/com/example/taskify/ui/student/data/StudentAssighmentsRepository.kt:59-60 | a stored priority reads as the priority it names, and a missing or unknown one as MEDIUM |
| TaskModels.ParseAttachmentType | app/src/main/java/com/example/taskify/ui/teacher/TeacherTaskModels.kt:5 | a text names an attachment type only when it is that type's exact constant name |
| TaskModels.AttachmentTypeRoundTrip | app/src/main/java/com/example/taskify/ui/teacher/TeacherTaskModels.kt:5 | every attachment type's name reads back as that type |
| TaskModels.ParseState | app/src/main/java/com/example/taskify/ui/teacher/TeacherTaskModels.kt:15 | a text names a submission state only when it is that state's exact constant name |
| TaskModels.StateRoundTrip | app/src/main/java/com/example/taskify/ui/teacher/TeacherTaskModels.kt:15 | every submission state's name reads back as that state |
| TaskModels.StateOrDelivered | app/src/main/java/com/example/taskify/ui/student/data/StudentAssighmentsRepository.kt:77-78 | a stored state reads as the state it names, and a missing or unknown one as DELIVERED |
| TaskModels.NonBlankParts | app/src/main/java/com/example/taskify/ui/teacher/TeacherStudentsRepository.kt:21-22 | a part is kept exactly when it is a non-blank part of the input |
| TaskModels.NonBlankPartsAppend | app/src/main/java/com/example/taskify/ui/teacher/TeacherStudentsRepository.kt:21-22 | the non-blank parts of two lists one after the other are those of the first followed by those of the second, so order is kept |
| TaskModels.JoinedNameBlank | app/src/main/java/com/example/taskify/ui/teacher/TeacherStudentsRepository.kt:21-23 | the joined name is blank exactly when every part is blank |
| TaskModels.NameOr | app/src/main/java/com/example/taskify/ui/teacher/TeacherStudentsRepository.kt:21-24 | the fallback exactly when every part is blank; otherwise the non-blank parts joined by spaces, which is not blank |
| TaskDocs.IntOrZero | app/src/main/java/com/example/taskify/ui/student/data/StudentAssighmentsRepository.kt:88 | a stored number cut to 32 bits, 0 when missing |
| TaskDocs.StoredHours | app/src/main/java/com/example/taskify/ui/student/data/StudentAssighmentsRepository.kt:65 | the hours are kept exactly when the stored number cut to 32 bits is positive, and are then that number |
| TaskDocs.AttachmentPayload | app/src/main/java/com/example/taskify/ui/teacher/TeacherTasksFirestoreRepository.kt:74-82 | an attachment is stored as an object whose loading flag is false |
| TaskDocs.ReadAttachment | app/src/main/java/com/example/taskify/ui/student/data/StudentAssighmentsRepository.kt:67-74 | an entry gives an attachment exactly when it is an object; its id, label and value are the stored texts ("" when missing), its type is the stored type name or PDF when that is unknown, and it is never loading |
| TaskDocs.ReadAttachments | app/src/main/java/com/example/taskify/ui/student/data/StudentAssighmentsRepository.kt:67-75 | no attachments when the list is missing, and none read is loading |
| TaskDocs.ReadAttachmentList | app/src/main/java/com/example/taskify/ui/student/data/StudentAssighmentsRepository.kt:67-75 | at most one attachment per entry, none loading |
| TaskDocs.AttachmentRoundTrip | app/src/main/java/com/example/taskify/ui/student/data/StudentAssighmentsRepository.kt:67-74 | a stored attachment reads back as itself, no longer loading |
| TaskDocs.AttachmentsRoundTrip | app/src/main/java/com/example/taskify/ui/student/data/StudentAssighmentsRepository.kt:67-75 | a stored attachment list reads back in order, with no attachment loading |
| StudentAssignmentsRepo.StoredGrade | app/src/main/java/com/example/taskify/ui/student/data/StudentAssighmentsRepository.kt:79 | the grade is present exactly when a number is stored, and is then that number cut to 32 bits |
| StudentAssignmentsRepo.RowOf | app/src/main/java/com/example/taskify/ui/student/data/StudentAssighmentsRepository.kt:59-97 | a row carries its task's id, subject, teacher name, title and content ("" when missing); a known priority and state are kept, a missing or unknown one reads MEDIUM and DELIVERED; the grade is the stored number cut to 32 bits, absent when not a number; points are the stored number cut to 32 bits, 0 when missing; the due and unlock times are the stored ones; a missing creation time is 0; kept hours are positive; no attachment is loading and there are no more attachments than stored entries |
| StudentAssignmentsRepo.RowFor | app/src/main/java/com/example/taskify/ui/student/data/StudentAssighmentsRepository.kt:49-57 | a task gives a row exactly when the student has a sub-document under it, and the row is read from the task and that sub-document |
| StudentAssignmentsRepo.AssignmentRowsMembers | app/src/main/java/com/example/taskify/ui/student/data/StudentAssighmentsRepository.kt:49-98 | a row is listed exactly when it is the row of one of the tasks whose student sub-document exists |
| StudentAssignmentsRepo.AssignmentRows | app/src/main/java/com/example/taskify/ui/student/data/StudentAssighmentsRepository.kt:49-98 | at most one row per task, and each row is of a task the student has a sub-document under |
| StudentAssignmentsRepo.GetAssignmentsForSubject | app/src/main/java/com/example/taskify/ui/student/data/StudentAssighmentsRepository.kt:37-102 | nothing without a signed-in student; otherwise the rows of exactly the subject's tasks that have the student's sub-document, each once, newest first |
| StudentAssignmentsRepo.ReadRows | app/src/main/java/com/example/taskify/ui/student/data/StudentAssighmentsRepository.kt:47-99 | the loop gathers the rows of the tasks, in order, whose student sub-document exists |
| StudentAssignmentsRepo.ListedRows | app/src/main/java/com/example/taskify/ui/student/data/StudentAssighmentsRepository.kt:40-57 | every listed row belongs to the subject and to a task the student has a sub-document under |
| StudentAssignmentsRepo.MarkOpened | app/src/main/java/com/example/taskify/ui/student/data/StudentAssighmentsRepository.kt:104-113 | nothing happens without a signed-in student; otherwise the update succeeds exactly when the student's sub-document exists, and then it gets the OPENED state and the device's time and nothing else changes |
| StudentAssignmentsRepo.OpenedRow | app/src/main/java/com/example/taskify/ui/student/data/StudentAssighmentsRepository.kt:104-113 | after it is marked opened, the student's row shows OPENED, keeps its grade and records when it was opened |
| StudentTasksRepo.ParentId | app/src/main/java/com/example/taskify/ui/student/data/StudentTasksRepository.kt:32 | a document has a parent id exactly when it lives under another document, and it is that document's id |
| StudentTasksRepo.TaskIds | app/src/main/java/com/example/taskify/ui/student/data/StudentTasksRepository.kt:32 | the task ids have no repetitions and are exactly the parents of the returned sub-documents |
| StudentTasksRepo.TeacherNameOf | app/src/main/java/com/example/taskify/ui/student/data/StudentTasksRepository.kt:50 | the teacher's name is never blank: the stored name, or "Teacher" when that is missing or blank |
| StudentTasksRepo.FeedFor | app/src/main/java/com/example/taskify/ui/student/data/StudentTasksRepository.kt:44-64 | a task gives a feed entry exactly when it exists and its subject is the one asked for; the entry carries its id, the subject, a non-blank teacher name and the creation time, 0 when missing |
| StudentTasksRepo.FeedMembers | app/src/main/java/com/example/taskify/ui/student/data/StudentTasksRepository.kt:44-64 | an entry is in the feed exactly when it is the entry of one of the ids, and it then belongs to the subject and is an existing task |
| StudentTasksRepo.FeedItems | app/src/main/java/com/example/taskify/ui/student/data/StudentTasksRepository.kt:38-64 | at most one entry per id, and each entry is of an existing task of the subject |
| StudentTasksRepo.FeedDistinct | app/src/main/java/com/example/taskify/ui/student/data/StudentTasksRepository.kt:32-66 | distinct ids give a feed in which no task appears twice |
| StudentTasksRepo.GetMyTasksForSubject | app/src/main/java/com/example/taskify/ui/student/data/StudentTasksRepository.kt:22-69 | nothing without a signed-in student; otherwise the entries of the subject's tasks among the parents of the returned sub-documents, each once, newest first |
| StudentTasksRepo.FetchChunk | app/src/main/java/com/example/taskify/ui/student/data/StudentTasksRepository.kt:39-65 | one chunk's query appends the entry of every task of the chunk that exists and belongs to the subject, in order |
| StudentTasksRepo.FeedShown | app/src/main/java/com/example/taskify/ui/student/data/StudentTasksRepository.kt:22-69 | every shown entry is a task of the subject that a returned sub-document lives under, and no task is shown twice |
| StudentBootstrapper.StoredEmail | app/src/main/java/com/example/taskify/ui/student/StudentBootstrapper.kt:15 | the email is the signed-in account's, trimmed and lower-cased, or empty without one |
| StudentBootstrapper.Bootstrapped | app/src/main/java/com/example/taskify/ui/student/StudentBootstrapper.kt:17-46 | the account document becomes what the account step makes of it, the profile exists, and every other document is kept |
| StudentBootstrapper.EnsureStudentDocs | app/src/main/java/com/example/taskify/ui/student/StudentBootstrapper.kt:13-49 | the answer is true exactly when someone is signed in; without one nothing is written; otherwise the store becomes the bootstrapped one |
| StudentBootstrapper.StudentRoleNotBlank | app/src/main/java/com/example/taskify/ui/student/StudentBootstrapper.kt:24-31 | the role the bootstrap writes is not itself read as missing |
| StudentBootstrapper.AccountAfter | app/src/main/java/com/example/taskify/ui/student/StudentBootstrapper.kt:17-33 | afterwards the account has a role: a missing or blank role reads "student", and an account with a role is left exactly as it was |
| StudentBootstrapper.AccountFields | app/src/main/java/com/example/taskify/ui/student/StudentBootstrapper.kt:20-32 | a created account carries the email, and an existing one keeps every field other than the role |
| StudentBootstrapper.ProfileAfter | app/src/main/java/com/example/taskify/ui/student/StudentBootstrapper.kt:35-46 | afterwards the profile exists; an existing one is kept as it was, and a new one lists no subjects and carries the email |
| StudentBootstrapper.AccountIdempotent | app/src/main/java/com/example/taskify/ui/student/StudentBootstrapper.kt:17-33 | the account step a second time keeps the account as the first left it |
| StudentBootstrapper.BootstrapIdempotent | app/src/main/java/com/example/taskify/ui/student/StudentBootstrapper.kt:13-49 | running the bootstrap again, at any later time, changes nothing |
| Lists.Chunked | app/src/main/java/com/example/taskify/ui/student/data/StudentTasksRepository.kt:37 | the chunks are non-empty, hold at most ten ids, all but the last exactly ten, and concatenate to the id list |
| Lists.Distinct | app/src/main/java/com/example/taskify/ui/student/data/StudentSubjectRepository.kt:32 | the list without repetitions holds exactly the elements of the input |
| Lists.DistinctFirstOrder | app/src/main/java/com/example/taskify/ui/student/data/StudentSubjectRepository.kt:32 | the kept elements appear in the order of their first occurrences |
| Lists.Toggled | app/src/main/java/com/example/taskify/ui/student/viewmodel/StudentSubjectsViewModel.kt:52-56 | the clicked subject is chosen afterwards exactly when it was not before, and every other subject keeps its state |
| Lists.ToggleTwice | app/src/main/java/com/example/taskify/ui/student/viewmodel/StudentSubjectsViewModel.kt:52-56 | toggling the same subject twice gives back the selection |
| Lists.ListOf | app/src/main/java/com/example/taskify/ui/student/viewmodel/StudentSubjectsViewModel.kt:71 | the set turned into a list holds each chosen subject exactly once |
| Lists.SortByStable | app/src/main/java/com/example/taskify/ui/teacher/TeacherTasksFirestoreRepository.kt:53 | the sort is stable: for every element, the elements the order ranks equal to it come out in the order they went in |

## Left out

- Compose rendering, navigation, dialogs, toasts as widgets, clipboard and sharing are not modelled. A toast is modelled as the message it shows.
- Coroutines, cancellation and interleavings of concurrent events are not modelled. Each launched body is split into a start step and completion steps, taken one after the other.
- Network failures are not modelled as such. A failing backend call is a completion step that carries the failure's message (or none).
- The store's transaction isolation and retries are not modelled. The counter transaction is one read followed by one write.
- Every individual write is its own commit. That holds for the three writes of a teacher creation and the two steps of the student bootstrap. A failure between them is not modelled, and neither is a concurrent writer.
- Query result order is an input. The model does not say which order the backend returns for a whereIn query or a collection-group query, nor how documents with equal creation times are ordered. The ordering proofs hold for any such input order, and the sort is stable (Lists.SortByStable), so tasks with equal creation times keep the order the backend gave them. The student feed's whereIn fetch (StudentTasksRepo.FetchChunk) appends a chunk's tasks in the chunk's id order, while the backend answers in document-id order; the two differ only in how tasks with equal creation times end up after the sort.
- The collection-group query of the student feed filters `__name__` (the document id) against the bare uid. Its semantics are not modelled: the keys of the documents it returns are a parameter. The Firestore client library accepts a document-id filter on a collection group only when the value is a full document path (an even number of segments). A bare uid has one segment, so as written the query should be refused before it reaches the backend, and `getMyTasksForSubject` would then fail on every call. This comes from the library's documented rules, not from the model. The model shows what the feed computes from the sub-documents such a query is meant to return. None of the files modelled here calls `getMyTasksForSubject`.
- The SDK throws when a getString, getLong or getTimestamp call meets a field of another type. The model reads such a field as absent (DocStore.GetString, DocStore.GetLong, DocStore.GetMillis), so the reader takes its default instead of failing. The exception is the teacher-id counter: a non-number there fails the transaction and writes nothing, as the SDK's throw does (CreateTeacher.StoredCounter).
- Setting a document with a null value for a field stores the null. The model keeps it as a Null value, which the readers treat as absent.
- A set's iteration order (the toList of a selection, the forEach over a grade map) is not modelled. The model takes some list holding each element once.
- Kotlin's Unicode-wide character classification and case mapping are not modelled; only ASCII classes and case mapping are. The email pattern's regular-expression engine is replaced by a predicate proved equivalent to the pattern over ASCII.
- Strings are sequences of characters. Only the flag strings are modelled in UTF-16 code units.
- JSON text is not modelled. The stored registry is a JSON value tree, or an unparsable marker.
  - optString of a number gives its decimal text; the text of a fraction or an exponent is not modelled, since numbers are integers.
  - optString of a nested array or object gives its JSON text; the model gives the empty string, since JSON text is not modelled.
  - optLong of a numeric string is read as 0.
- SecureRandom is not modelled: each password character is picked by a draw given as a parameter. The claim that the alphabet has no look-alike characters is not proved.
- The uid of a teacher record is not modelled, because the registry never sets it.
- The source uses the result of the secondary-account creation as the new account's uid, although that call returns no value. The model takes the uid as an input. None stands for a failed creation.
- markOpened on a missing sub-document throws in the SDK. The model reports it as ok = false with nothing written.
- The bootstrapper's account and profile writes use the same commit time. The model takes one `now` for both.
- Date formatting of the task details is not modelled. The details carry the creation time in milliseconds instead of formatted text.
- validatePhoneLive is not modelled, because every decision in it is made by libphonenumber.
- saveRegistration and the password-reset call are not modelled; they are foreign SDK calls.
- generateStrongPassword of the registration screen and the UUIDs of new attachments are not modelled; the UUIDs are parameters.
- computeNeeded (floating-point arithmetic) is not modelled.
- The authentication and profile repositories are not modelled, and neither are the screens outside the listed view models.
- The two attachment-dialog rules of the task screen are not modelled: a URL only when it is non-blank, and the default "TXT" label.
- Countries.LoadCountries maps the entries already read. The file read and the JSON parsing of the country file are not modelled.

## Findings

| source | as written | input that shows it | evidently intended | confidence | as-written member | corrected member |
|---|---|---|---|---|---|---|
| app/src/main/java/com/example/taskify/viewmodel/TeacherTasksViewModel.kt:190-202 | the success step copies the state captured at submit time, error included, so an error left over from an earlier failed check survives the save | fill a valid form with scheduling on and the hours empty, press submit (error "Enter available hours"), turn scheduling off (which does not clear the error), press submit again and let the save succeed: the screen shows that error beside "Task saved" | a successful save shows no error | not executed | TeacherTasksVm.StaleErrorAfterSave | TeacherTasksVm.SavedForm |

