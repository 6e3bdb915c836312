/**
 * The teacher's "new task" form: one immutable form record that every event
 * replaces, the checks a submission must pass, and the request it sends.
 * Each asynchronous step of the view model is a separate completion method
 * that receives the backend's answer as a parameter.
 */
module TeacherTasksVm {
  import opened Strings
  import opened DocStore
  import opened TaskModels
  import opened TeacherTasksRepo

  /** `TeacherTaskUiState`. */
  datatype TaskForm = TaskForm(
    loading: bool,
    subjects: seq<string>,
    selectedSubject: string,
    title: string,
    pointsText: string,
    content: string,
    attachments: seq<TaskAttachment>,
    students: seq<StudentRow>,
    grades: map<string, string>,
    priority: TaskPriority,
    dueAtMillis: Option<int>,
    scheduleEnabled: bool,
    openFromMillis: Option<int>,
    availableHoursText: string,
    saving: bool,
    error: string,
    success: string)

  const InitialForm := TaskForm(true, [], "", "", "", "", [], [], map[], MEDIUM, None, false, None, "", false, "", "")

  // ---------------------------------------------------------------------------
  // Attachments

  /** The completion of `addAttachment`: the attachment with that id stops
      loading; every other one is kept as it is. */
  function MarkLoaded(atts: seq<TaskAttachment>, id: string): (r: seq<TaskAttachment>)
    ensures |r| == |atts|
  {
    if atts == [] then []
    else [if atts[0].id == id then atts[0].(isLoading := false) else atts[0]] + MarkLoaded(atts[1..], id)
  }

  /** Only the attachments with that id change, and only their loading flag. */
  lemma {:induction false} MarkLoadedOnly(atts: seq<TaskAttachment>, id: string, i: int)
    requires 0 <= i < |atts|
    ensures atts[i].id == id ==> MarkLoaded(atts, id)[i] == atts[i].(isLoading := false)
    ensures atts[i].id != id ==> MarkLoaded(atts, id)[i] == atts[i]
  {
    if i > 0 {
      MarkLoadedOnly(atts[1..], id, i - 1);
    }
  }

  /** Marking an id that no attachment has changes nothing. */
  lemma {:induction false} MarkLoadedAbsent(atts: seq<TaskAttachment>, id: string)
    requires forall i :: 0 <= i < |atts| ==> atts[i].id != id
    ensures MarkLoaded(atts, id) == atts
  {
    if atts != [] {
      MarkLoadedAbsent(atts[1..], id);
    }
  }

  lemma {:induction false} MarkLoadedAppend(a: seq<TaskAttachment>, b: seq<TaskAttachment>, id: string)
    ensures MarkLoaded(a + b, id) == MarkLoaded(a, id) + MarkLoaded(b, id)
  {
    if a != [] {
      assert (a + b)[1..] == a[1..] + b;
      MarkLoadedAppend(a[1..], b, id);
    } else {
      assert a + b == b;
    }
  }

  /** Adding an attachment under a fresh id and then completing it leaves the
      earlier list as it was, followed by the new attachment, not loading. */
  lemma AddThenLoaded(atts: seq<TaskAttachment>, a: TaskAttachment)
    requires forall i :: 0 <= i < |atts| ==> atts[i].id != a.id
    ensures MarkLoaded(atts + [a], a.id) == atts + [a.(isLoading := false)]
  {
    MarkLoadedAppend(atts, [a], a.id);
    MarkLoadedAbsent(atts, a.id);
  }

  /** `filterNot { it.id == id }`. */
  function WithoutId(atts: seq<TaskAttachment>, id: string): (r: seq<TaskAttachment>)
    ensures |r| <= |atts|
    ensures forall a :: a in r <==> a in atts && a.id != id
  {
    if atts == [] then []
    else
      assert forall a :: a in atts <==> a == atts[0] || a in atts[1..];
      (if atts[0].id == id then [] else [atts[0]]) + WithoutId(atts[1..], id)
  }

  /** Removal keeps the order of what remains: it distributes over
      concatenation. */
  lemma {:induction false} WithoutIdAppend(a: seq<TaskAttachment>, b: seq<TaskAttachment>, id: string)
    ensures WithoutId(a + b, id) == WithoutId(a, id) + WithoutId(b, id)
  {
    if a != [] {
      assert (a + b)[1..] == a[1..] + b;
      WithoutIdAppend(a[1..], b, id);
    } else {
      assert a + b == b;
    }
  }

  /** Removing an id that no attachment has changes nothing. */
  lemma {:induction false} WithoutIdAbsent(atts: seq<TaskAttachment>, id: string)
    requires forall i :: 0 <= i < |atts| ==> atts[i].id != id
    ensures WithoutId(atts, id) == atts
  {
    if atts != [] {
      WithoutIdAbsent(atts[1..], id);
    }
  }

  /** Removing a freshly added attachment restores the list. */
  lemma AddThenRemove(atts: seq<TaskAttachment>, a: TaskAttachment)
    requires forall i :: 0 <= i < |atts| ==> atts[i].id != a.id
    ensures WithoutId(atts + [a], a.id) == atts
  {
    WithoutIdAppend(atts, [a], a.id);
    WithoutIdAbsent(atts, a.id);
  }

  // ---------------------------------------------------------------------------
  // validate

  const NotLoggedIn := "Not logged in"
  const SelectSubject := "Select a subject"
  const TitleRequired := "Title is required"
  const ContentRequired := "Content is required"
  const EnterPoints := "Enter points (e.g. 20, 100)"
  const WaitForAttachments := "Wait for attachments to finish"
  const SelectDueDate := "Select a due date"
  const SelectUnlock := "Select the unlock date/time"
  const EnterHours := "Enter available hours (e.g. 2, 24)"

  /** `toIntOrNull()` gives a positive number. */
  predicate PositiveInt(text: string)
  {
    ParseInt(text).Some? && ParseInt(text).value > 0
  }

  predicate AnyLoading(atts: seq<TaskAttachment>)
  {
    exists i :: 0 <= i < |atts| && atts[i].isLoading
  }

  /** Scheduling off, or an unlock time and a positive number of hours. */
  predicate ScheduleComplete(s: TaskForm)
  {
    s.scheduleEnabled ==> s.openFromMillis.Some? && PositiveInt(s.availableHoursText)
  }

  /** Everything a submission needs. */
  predicate ReadyToSubmit(teacherUid: string, s: TaskForm)
  {
    && !IsBlank(teacherUid)
    && !IsBlank(s.selectedSubject)
    && !IsBlank(Trim(s.title))
    && !IsBlank(Trim(s.content))
    && PositiveInt(s.pointsText)
    && !AnyLoading(s.attachments)
    && s.dueAtMillis.Some?
    && ScheduleComplete(s)
  }

  /** `validate()`: nothing when the form is ready, otherwise the message of
      the first failing check, in the order login, subject, title, content,
      points, attachments, due date, unlock time, hours. */
  function Validate(teacherUid: string, s: TaskForm): (r: Option<string>)
    ensures r.None? <==> ReadyToSubmit(teacherUid, s)
    ensures r == Some(NotLoggedIn) <==> IsBlank(teacherUid)
    ensures r == Some(SelectSubject) <==> !IsBlank(teacherUid) && IsBlank(s.selectedSubject)
    ensures r == Some(TitleRequired) <==>
      !IsBlank(teacherUid) && !IsBlank(s.selectedSubject) && IsBlank(Trim(s.title))
    ensures r == Some(ContentRequired) <==>
      !IsBlank(teacherUid) && !IsBlank(s.selectedSubject) && !IsBlank(Trim(s.title)) && IsBlank(Trim(s.content))
    ensures r == Some(EnterPoints) <==>
      !IsBlank(teacherUid) && !IsBlank(s.selectedSubject) && !IsBlank(Trim(s.title)) && !IsBlank(Trim(s.content))
      && !PositiveInt(s.pointsText)
    ensures r == Some(WaitForAttachments) <==>
      !IsBlank(teacherUid) && !IsBlank(s.selectedSubject) && !IsBlank(Trim(s.title)) && !IsBlank(Trim(s.content))
      && PositiveInt(s.pointsText) && AnyLoading(s.attachments)
    ensures r == Some(SelectDueDate) <==>
      !IsBlank(teacherUid) && !IsBlank(s.selectedSubject) && !IsBlank(Trim(s.title)) && !IsBlank(Trim(s.content))
      && PositiveInt(s.pointsText) && !AnyLoading(s.attachments) && s.dueAtMillis.None?
    ensures r == Some(SelectUnlock) <==>
      !IsBlank(teacherUid) && !IsBlank(s.selectedSubject) && !IsBlank(Trim(s.title)) && !IsBlank(Trim(s.content))
      && PositiveInt(s.pointsText) && !AnyLoading(s.attachments) && s.dueAtMillis.Some?
      && s.scheduleEnabled && s.openFromMillis.None?
    ensures r == Some(EnterHours) <==>
      !IsBlank(teacherUid) && !IsBlank(s.selectedSubject) && !IsBlank(Trim(s.title)) && !IsBlank(Trim(s.content))
      && PositiveInt(s.pointsText) && !AnyLoading(s.attachments) && s.dueAtMillis.Some?
      && s.scheduleEnabled && s.openFromMillis.Some? && !PositiveInt(s.availableHoursText)
  {
    if IsBlank(teacherUid) then Some(NotLoggedIn)
    else if IsBlank(s.selectedSubject) then Some(SelectSubject)
    else if IsBlank(Trim(s.title)) then Some(TitleRequired)
    else if IsBlank(Trim(s.content)) then Some(ContentRequired)
    else if !PositiveInt(s.pointsText) then Some(EnterPoints)
    else if AnyLoading(s.attachments) then Some(WaitForAttachments)
    else if s.dueAtMillis.None? then Some(SelectDueDate)
    else if s.scheduleEnabled && s.openFromMillis.None? then Some(SelectUnlock)
    else if s.scheduleEnabled && !PositiveInt(s.availableHoursText) then Some(EnterHours)
    else None
  }

  // ---------------------------------------------------------------------------
  // submitTaskToFirestore

  /** `students.map { it.uid }`. */
  function Uids(students: seq<StudentRow>): (r: seq<string>)
    ensures |r| == |students|
  {
    if students == [] then [] else [students[0].uid] + Uids(students[1..])
  }

  lemma {:induction false} UidsAt(students: seq<StudentRow>, i: int)
    requires 0 <= i < |students|
    ensures Uids(students)[i] == students[i].uid
  {
    if i > 0 {
      UidsAt(students[1..], i - 1);
    }
  }

  /** The request a ready form sends: the points and, when scheduling is on,
      the hours as numbers; the unlock time only when scheduling is on; the
      listed students' ids and the typed grades. */
  function SubmitRequest(teacherUid: string, teacherName: string, s: TaskForm): (t: NewTask)
    requires ReadyToSubmit(teacherUid, s)
    ensures IntFields(t) && t.points > 0
    ensures t.availableHours.Some? <==> s.scheduleEnabled
    ensures t.availableHours.Some? ==> t.availableHours.value > 0
    ensures t.openFrom.Some? <==> s.scheduleEnabled
    ensures t.teacherUid == teacherUid && t.teacherName == teacherName
    ensures t.subject == s.selectedSubject && t.title == s.title && t.content == s.content
    ensures t.priority == s.priority && t.points == ParseInt(s.pointsText).value
    ensures t.dueAt == s.dueAtMillis && t.initialGrades == s.grades && t.attachments == s.attachments
    ensures s.scheduleEnabled ==>
      t.openFrom == s.openFromMillis && t.availableHours == Some(ParseInt(s.availableHoursText).value)
    ensures |t.studentUids| == |s.students|
    ensures forall i :: 0 <= i < |s.students| ==> t.studentUids[i] == s.students[i].uid
  {
    forall i | 0 <= i < |s.students| ensures Uids(s.students)[i] == s.students[i].uid {
      UidsAt(s.students, i);
    }
    NewTask(
      teacherUid, teacherName, s.selectedSubject, s.title, s.content,
      ParseInt(s.pointsText).value, s.priority, s.attachments, Uids(s.students), s.grades,
      s.dueAtMillis,
      if s.scheduleEnabled then s.openFromMillis else None,
      if s.scheduleEnabled then Some(ParseInt(s.availableHoursText).value) else None)
  }

  /** The task document written for a submitted form has an unlock time and
      available hours exactly when scheduling was on, and its stored title is
      the trimmed, non-blank title. */
  lemma SubmittedTaskDoc(teacherUid: string, teacherName: string, s: TaskForm)
    requires ReadyToSubmit(teacherUid, s)
    ensures var d := TaskData(SubmitRequest(teacherUid, teacherName, s));
      && ("openFrom" in d <==> s.scheduleEnabled)
      && ("availableHours" in d <==> s.scheduleEnabled)
      && d["title"] == Str(Trim(s.title)) && !IsBlank(Trim(s.title))
  {
  }

  /** The form after a save, as the source writes it: the captured form with
      its task fields reset and a success message; its error is the captured
      one. */
  function SavedFormAsWritten(s: TaskForm, taskId: string): (r: TaskForm)
    ensures r.title == "" && r.content == "" && r.pointsText == "" && r.attachments == [] && r.grades == map[]
    ensures r.dueAtMillis.None? && !r.scheduleEnabled && r.openFromMillis.None? && r.availableHoursText == ""
    ensures r.selectedSubject == s.selectedSubject && r.subjects == s.subjects
    ensures r.students == s.students && r.priority == s.priority
    ensures !r.saving && r.success != [] && r.error == s.error
  {
    s.(title := "", content := "", pointsText := "", attachments := [], grades := map[],
       dueAtMillis := None, scheduleEnabled := false, openFromMillis := None, availableHoursText := "",
       saving := false, success := "Task saved \U{E2}\U{153}\U{2026} (id: " + taskId + ")")
  }

  /** A form that passes validation can still carry the error of an earlier
      failed submission: turning scheduling off does not clear it.  Saving it
      then shows that error beside the success message. */
  lemma StaleErrorAfterSave()
    ensures var s := InitialForm.(loading := false, selectedSubject := "Math", title := "Quiz", content := "Read",
                                  pointsText := "20", dueAtMillis := Some(0), error := EnterHours);
      && ReadyToSubmit("t1", s)
      && SavedFormAsWritten(s, "x").error == EnterHours
      && SavedFormAsWritten(s, "x").success != []
  {
    var s := InitialForm.(loading := false, selectedSubject := "Math", title := "Quiz", content := "Read",
                          pointsText := "20", dueAtMillis := Some(0), error := EnterHours);
    assert !IsWhitespace(s.title[0]) && !IsWhitespace(s.content[0]);
    TrimOfNonWhitespaceEnds(s.title);
    TrimOfNonWhitespaceEnds(s.content);
    assert !IsWhitespace(s.selectedSubject[0]) && !IsWhitespace("t1"[0]);
    assert AllDigits(s.pointsText) && DecValue(s.pointsText) == 20;
  }

  /** The form after a save: the task fields reset, the subject, its students
      and the priority kept, no error, and a success message naming the new
      task. */
  function SavedForm(s: TaskForm, taskId: string): (r: TaskForm)
    ensures r.title == "" && r.content == "" && r.pointsText == "" && r.attachments == [] && r.grades == map[]
    ensures r.dueAtMillis.None? && !r.scheduleEnabled && r.openFromMillis.None? && r.availableHoursText == ""
    ensures r.selectedSubject == s.selectedSubject && r.subjects == s.subjects
    ensures r.students == s.students && r.priority == s.priority
    ensures !r.saving && r.error == "" && r.success == "Task saved \U{E2}\U{153}\U{2026} (id: " + taskId + ")"
  {
    SavedFormAsWritten(s, taskId).(error := "")
  }

  /** A saved form cannot be submitted again as it stands: its title is
      empty. */
  lemma SavedFormNotReady(teacherUid: string, s: TaskForm, taskId: string)
    ensures Validate(teacherUid, SavedForm(s, taskId)).Some?
  {
    assert IsBlank(Trim(SavedForm(s, taskId).title));
  }

  // ---------------------------------------------------------------------------
  // The view model

  class TeacherTasksViewModel {
    var ui: TaskForm
    var teacherUid: string
    var teacherName: string

    constructor ()
      ensures ui == InitialForm && teacherUid == "" && teacherName == ""
    {
      ui := InitialForm;
      teacherUid, teacherName := "", "";
    }

    /** `load()`, before the profile arrives. */
    method Load()
      modifies this
      ensures ui == old(ui).(loading := true, error := "", success := "")
      ensures teacherUid == old(teacherUid) && teacherName == old(teacherName)
    {
      ui := ui.(loading := true, error := "", success := "");
    }

    /** The profile arrived: the teacher's id and display name ("Teacher" when
        both name parts are blank), the subjects, and the first subject
        selected.  Returns the subject whose students are fetched next, when
        it is not blank. */
    method ProfileLoaded(uid: string, firstName: string, lastName: string, subjects: seq<string>)
      returns (fetch: Option<string>)
      modifies this
      ensures teacherUid == uid && teacherName == NameOr([firstName, lastName], "Teacher")
      ensures ui == old(ui).(loading := false, subjects := subjects,
                             selectedSubject := if subjects == [] then "" else subjects[0])
      ensures fetch.Some? <==> !IsBlank(ui.selectedSubject)
      ensures fetch.Some? ==> fetch.value == ui.selectedSubject
    {
      teacherUid := uid;
      teacherName := NameOr([firstName, lastName], "Teacher");
      var selected := if subjects == [] then "" else subjects[0];
      ui := ui.(loading := false, subjects := subjects, selectedSubject := selected);
      fetch := if IsBlank(selected) then None else Some(selected);
    }

    /** The students of the selected subject arrived. */
    method StudentsLoaded(students: seq<StudentRow>)
      modifies this
      ensures ui == old(ui).(students := students)
      ensures teacherUid == old(teacherUid) && teacherName == old(teacherName)
    {
      ui := ui.(students := students);
    }

    /** Loading the profile failed. */
    method LoadFailed(message: Option<string>)
      modifies this
      ensures ui == old(ui).(loading := false, error := OrElse(message, "Failed to load"))
      ensures teacherUid == old(teacherUid) && teacherName == old(teacherName)
    {
      ui := ui.(loading := false, error := OrElse(message, "Failed to load"));
    }

    /** `setSubject(v)`: the subject changes, the messages and the student list
        are cleared, and the students are fetched only for a non-blank
        subject. */
    method SetSubject(v: string) returns (fetch: bool)
      modifies this
      ensures ui == old(ui).(selectedSubject := v, error := "", success := "", students := [])
      ensures fetch <==> !IsBlank(v)
      ensures teacherUid == old(teacherUid) && teacherName == old(teacherName)
    {
      ui := ui.(selectedSubject := v, error := "", success := "", students := []);
      fetch := !IsBlank(v);
    }

    /** Fetching the subject's students failed. */
    method SubjectStudentsFailed(message: Option<string>)
      modifies this
      ensures ui == old(ui).(error := OrElse(message, "Failed to load students"))
      ensures teacherUid == old(teacherUid) && teacherName == old(teacherName)
    {
      ui := ui.(error := OrElse(message, "Failed to load students"));
    }

    method SetTitle(v: string)
      modifies this
      ensures ui == old(ui).(title := v, error := "", success := "")
      ensures teacherUid == old(teacherUid) && teacherName == old(teacherName)
    {
      ui := ui.(title := v, error := "", success := "");
    }

    /** `setPointsText(v)`: only the digits of what was typed are kept. */
    method SetPointsText(v: string)
      modifies this
      ensures ui == old(ui).(pointsText := Digits(v), error := "", success := "")
      ensures AllDigits(ui.pointsText)
      ensures teacherUid == old(teacherUid) && teacherName == old(teacherName)
    {
      ui := ui.(pointsText := Digits(v), error := "", success := "");
    }

    method SetContent(v: string)
      modifies this
      ensures ui == old(ui).(content := v, error := "", success := "")
      ensures teacherUid == old(teacherUid) && teacherName == old(teacherName)
    {
      ui := ui.(content := v, error := "", success := "");
    }

    method SetPriority(v: TaskPriority)
      modifies this
      ensures ui == old(ui).(priority := v, error := "", success := "")
      ensures teacherUid == old(teacherUid) && teacherName == old(teacherName)
    {
      ui := ui.(priority := v, error := "", success := "");
    }

    method SetDueAtMillis(v: Option<int>)
      modifies this
      ensures ui == old(ui).(dueAtMillis := v, error := "", success := "")
      ensures teacherUid == old(teacherUid) && teacherName == old(teacherName)
    {
      ui := ui.(dueAtMillis := v, error := "", success := "");
    }

    /** `setScheduleEnabled(v)`: turning scheduling off forgets the unlock time
        and the hours; turning it on keeps them.  The messages are left as
        they are. */
    method SetScheduleEnabled(v: bool)
      modifies this
      ensures ui == old(ui).(scheduleEnabled := v,
                             openFromMillis := if v then old(ui).openFromMillis else None,
                             availableHoursText := if v then old(ui).availableHoursText else "")
      ensures ui.error == old(ui).error && ui.success == old(ui).success
      ensures teacherUid == old(teacherUid) && teacherName == old(teacherName)
    {
      ui := ui.(scheduleEnabled := v,
                openFromMillis := if v then ui.openFromMillis else None,
                availableHoursText := if v then ui.availableHoursText else "");
    }

    method SetOpenFromMillis(v: Option<int>)
      modifies this
      ensures ui == old(ui).(openFromMillis := v, error := "", success := "")
      ensures teacherUid == old(teacherUid) && teacherName == old(teacherName)
    {
      ui := ui.(openFromMillis := v, error := "", success := "");
    }

    /** `setAvailableHoursText(v)`: only the digits of what was typed are
        kept. */
    method SetAvailableHoursText(v: string)
      modifies this
      ensures ui == old(ui).(availableHoursText := Digits(v), error := "", success := "")
      ensures AllDigits(ui.availableHoursText)
      ensures teacherUid == old(teacherUid) && teacherName == old(teacherName)
    {
      ui := ui.(availableHoursText := Digits(v), error := "", success := "");
    }

    /** `setGrade(uid, text)`: that student's grade becomes the digits of what
        was typed; every other grade is kept. */
    method SetGrade(studentUid: string, gradeText: string)
      modifies this
      ensures ui == old(ui).(grades := old(ui).grades[studentUid := Digits(gradeText)], error := "", success := "")
      ensures forall u :: u != studentUid ==> (u in ui.grades <==> u in old(ui).grades)
      ensures forall u :: u != studentUid && u in ui.grades ==> ui.grades[u] == old(ui).grades[u]
      ensures teacherUid == old(teacherUid) && teacherName == old(teacherName)
    {
      ui := ui.(grades := ui.grades[studentUid := Digits(gradeText)], error := "", success := "");
    }

    /** `addAttachment`, given the random id it draws: the attachment is
        appended, still loading. */
    method AddAttachment(id: string, kind: AttachmentType, labelText: string, value: string)
      modifies this
      ensures ui == old(ui).(attachments := old(ui).attachments + [TaskAttachment(id, kind, labelText, value, true)],
                             error := "", success := "")
      ensures teacherUid == old(teacherUid) && teacherName == old(teacherName)
    {
      ui := ui.(attachments := ui.attachments + [TaskAttachment(id, kind, labelText, value, true)],
                error := "", success := "");
    }

    /** The step `addAttachment` launches: the attachment stops loading. */
    method AttachmentLoaded(id: string)
      modifies this
      ensures ui == old(ui).(attachments := MarkLoaded(old(ui).attachments, id))
      ensures teacherUid == old(teacherUid) && teacherName == old(teacherName)
    {
      ui := ui.(attachments := MarkLoaded(ui.attachments, id));
    }

    /** `removeAttachment(id)`: the messages are left as they are. */
    method RemoveAttachment(id: string)
      modifies this
      ensures ui == old(ui).(attachments := WithoutId(old(ui).attachments, id))
      ensures teacherUid == old(teacherUid) && teacherName == old(teacherName)
    {
      ui := ui.(attachments := WithoutId(ui.attachments, id));
    }

    /** `submitTaskToFirestore()`, up to the backend call.  A failing check
        shows its message and changes nothing else; a ready form starts
        saving and yields the request, together with the form as it was
        (which the completion starts from). */
    method Submit() returns (request: Option<NewTask>, captured: TaskForm)
      modifies this
      ensures captured == old(ui)
      ensures Validate(teacherUid, old(ui)).Some? ==>
        request.None? && ui == old(ui).(error := Validate(teacherUid, old(ui)).value, success := "")
      ensures Validate(teacherUid, old(ui)).None? ==>
        request == Some(SubmitRequest(teacherUid, teacherName, old(ui)))
        && ui == old(ui).(saving := true, error := "", success := "")
      ensures teacherUid == old(teacherUid) && teacherName == old(teacherName)
    {
      captured := ui;
      var msg := Validate(teacherUid, ui);
      if msg.Some? {
        ui := ui.(error := msg.value, success := "");
        request := None;
      } else {
        request := Some(SubmitRequest(teacherUid, teacherName, ui));
        ui := ui.(saving := true, error := "", success := "");
      }
    }

    /** The backend created the task: the captured form, reset, with the
        success message and with the error it carried when it was captured
        (see `StaleErrorAfterSave`). */
    method SubmitSucceeded(captured: TaskForm, taskId: string)
      modifies this
      ensures ui == SavedFormAsWritten(captured, taskId)
      ensures ui.error == captured.error && ui == SavedForm(captured, taskId).(error := captured.error)
      ensures teacherUid == old(teacherUid) && teacherName == old(teacherName)
    {
      ui := SavedFormAsWritten(captured, taskId);
    }

    /** The backend call failed: the captured form, no longer saving, with the
        failure's message. */
    method SubmitFailed(captured: TaskForm, message: Option<string>)
      modifies this
      ensures ui == captured.(saving := false, error := OrElse(message, "Failed to save task"))
      ensures teacherUid == old(teacherUid) && teacherName == old(teacherName)
    {
      ui := captured.(saving := false, error := OrElse(message, "Failed to save task"));
    }
  }
}
