/**
 * The teacher's side of the task store: listing the teacher's tasks, creating
 * a task together with one submission document per student, reading a task's
 * details and its students, saving grades, and deleting a task with its
 * submissions.
 */
module TeacherTasksRepo {
  import opened Strings
  import opened Lists
  import opened DocStore
  import opened TaskModels
  import opened TaskDocs
  import opened TeacherStudents

  // ---------------------------------------------------------------------------
  // getMyTasks

  predicate OwnedBy(e: DocEntry, uid: string)
  {
    GetString(e.data, "teacherUid") == Some(uid)
  }

  /** The row a task document becomes, with the stored defaults: MEDIUM for
      a missing or unknown priority, zero for a missing creation time, a
      32-bit point count, and available hours only when positive. */
  function TaskRowOf(e: DocEntry): (r: TeacherTaskRow)
    ensures r.taskId == e.id
    ensures r.title == OrEmpty(GetString(e.data, "title")) && r.subject == OrEmpty(GetString(e.data, "subject"))
    ensures GetString(e.data, "priority").None? || ParsePriority(GetString(e.data, "priority").value).None?
      ==> r.priority == MEDIUM
    ensures GetString(e.data, "priority").Some? && ParsePriority(GetString(e.data, "priority").value).Some?
      ==> r.priority == ParsePriority(GetString(e.data, "priority").value).value
    ensures GetMillis(e.data, "createdAt").None? ==> r.createdAt == 0
    ensures IntMin <= r.points <= IntMax && (GetLong(e.data, "points").None? ==> r.points == 0)
    ensures r.availableHours.Some? ==> r.availableHours.value > 0
    ensures r.dueAt == GetMillis(e.data, "dueAt") && r.openFrom == GetMillis(e.data, "openFrom")
  {
    TeacherTaskRow(
      e.id,
      OrEmpty(GetString(e.data, "title")),
      OrEmpty(GetString(e.data, "subject")),
      IntOrZero(e.data, "points"),
      StoredPriority(e.data),
      MillisOrZero(e.data, "createdAt"),
      GetMillis(e.data, "dueAt"),
      GetMillis(e.data, "openFrom"),
      StoredHours(e.data))
  }

  function TaskRows(docs: seq<DocEntry>): (r: seq<TeacherTaskRow>)
    ensures |r| == |docs|
    ensures forall i :: 0 <= i < |docs| ==> r[i] == TaskRowOf(docs[i])
  {
    seq(|docs|, i requires 0 <= i < |docs| => TaskRowOf(docs[i]))
  }

  /** `sortedByDescending { it.createdAt }`. */
  predicate NewerFirst(a: TeacherTaskRow, b: TeacherTaskRow)
  {
    a.createdAt >= b.createdAt
  }

  function CreatedAt(a: TeacherTaskRow): int { a.createdAt }

  /** `getMyTasks` over the task collection: nothing when nobody is signed in;
      otherwise the rows of exactly the tasks the teacher owns, newest first. */
  function GetMyTasks(signedIn: Option<string>, tasks: seq<DocEntry>): (r: seq<TeacherTaskRow>)
    ensures signedIn.None? ==> r == []
    ensures signedIn.Some? ==> multiset(r) == multiset(TaskRows(Select(tasks, e => OwnedBy(e, signedIn.value))))
    ensures SortedBy(r, NewerFirst)
  {
    if signedIn.None? then []
    else
      var rows := TaskRows(Select(tasks, e => OwnedBy(e, signedIn.value)));
      DescendingKeyPreorder(NewerFirst, CreatedAt);
      SortBySorted(rows, NewerFirst);
      SortBy(rows, NewerFirst)
  }

  // ---------------------------------------------------------------------------
  // createTaskAndAssignStudents

  /** The arguments of `createTaskAndAssignStudents`.  `points` and
      `availableHours` are Kotlin `Int`s. */
  datatype NewTask = NewTask(
    teacherUid: string,
    teacherName: string,
    subject: string,
    title: string,
    content: string,
    points: int,
    priority: TaskPriority,
    attachments: seq<TaskAttachment>,
    studentUids: seq<string>,
    initialGrades: map<string, string>,
    dueAt: Option<int>,
    openFrom: Option<int>,
    availableHours: Option<int>)

  predicate IntFields(t: NewTask)
  {
    && IntMin <= t.points <= IntMax
    && (t.availableHours.Some? ==> IntMin <= t.availableHours.value <= IntMax)
  }

  /** A task document, from the values its fields are stored as: the fixed
      fields, a server timestamp for `createdAt`, and `openFrom` /
      `availableHours` put only when given. */
  function TaskDoc(teacherUid: string, teacherName: string, subject: string, title: string, content: string,
                   points: int, priority: string, attachments: seq<Value>,
                   dueAt: Option<int>, openFrom: Option<int>, availableHours: Option<int>): (d: Doc)
    ensures "openFrom" in d <==> openFrom.Some?
    ensures "availableHours" in d <==> availableHours.Some?
    ensures openFrom.Some? ==> d["openFrom"] == Time(openFrom.value)
    ensures availableHours.Some? ==> d["availableHours"] == Int(availableHours.value)
  {
    var base := map[
      "teacherUid" := Str(teacherUid),
      "teacherName" := Str(teacherName),
      "subject" := Str(subject),
      "title" := Str(title),
      "content" := Str(content),
      "points" := Int(points),
      "priority" := Str(priority),
      "attachments" := Arr(attachments),
      "createdAt" := ServerTime,
      "dueAt" := if dueAt.Some? then Time(dueAt.value) else Null];
    var withOpen := if openFrom.Some? then base["openFrom" := Time(openFrom.value)] else base;
    if availableHours.Some? then withOpen["availableHours" := Int(availableHours.value)] else withOpen
  }

  lemma TaskDocFields(teacherUid: string, teacherName: string, subject: string, title: string, content: string,
                      points: int, priority: string, attachments: seq<Value>,
                      dueAt: Option<int>, openFrom: Option<int>, availableHours: Option<int>)
    ensures var d := TaskDoc(teacherUid, teacherName, subject, title, content, points, priority, attachments, dueAt, openFrom, availableHours);
      && "title" in d && d["title"] == Str(title)
      && "content" in d && d["content"] == Str(content)
      && "subject" in d && d["subject"] == Str(subject)
      && "points" in d && d["points"] == Int(points)
      && "priority" in d && d["priority"] == Str(priority)
      && "attachments" in d && d["attachments"] == Arr(attachments)
      && "createdAt" in d && d["createdAt"] == ServerTime
      && "dueAt" in d && d["dueAt"] == if dueAt.Some? then Time(dueAt.value) else Null
  {
  }

  /** The task document of a new task: title and content trimmed, the
      priority's name, the attachments as stored payloads, the creation time
      left to the server, and `openFrom` / `availableHours` present only when
      given. */
  function TaskData(t: NewTask): (d: Doc)
    ensures "openFrom" in d <==> t.openFrom.Some?
    ensures "availableHours" in d <==> t.availableHours.Some?
    ensures "title" in d && d["title"] == Str(Trim(t.title))
    ensures "content" in d && d["content"] == Str(Trim(t.content))
  {
    TaskDocFields(t.teacherUid, t.teacherName, t.subject, Trim(t.title), Trim(t.content), t.points,
                  PriorityName(t.priority), Payloads(t.attachments), t.dueAt, t.openFrom, t.availableHours);
    TaskDoc(t.teacherUid, t.teacherName, t.subject, Trim(t.title), Trim(t.content), t.points,
            PriorityName(t.priority), Payloads(t.attachments), t.dueAt, t.openFrom, t.availableHours)
  }

  /** The remaining fields of a task document. */
  lemma TaskDataFields(t: NewTask)
    ensures var d := TaskData(t);
      && "createdAt" in d && d["createdAt"] == ServerTime
      && "subject" in d && d["subject"] == Str(t.subject)
      && "points" in d && d["points"] == Int(t.points)
      && "priority" in d && d["priority"] == Str(PriorityName(t.priority))
      && "attachments" in d && d["attachments"] == Arr(Payloads(t.attachments))
      && "dueAt" in d && d["dueAt"] == (if t.dueAt.Some? then Time(t.dueAt.value) else Null)
      && (t.openFrom.Some? ==> d["openFrom"] == Time(t.openFrom.value))
      && (t.availableHours.Some? ==> d["availableHours"] == Int(t.availableHours.value))
  {
    TaskDocFields(t.teacherUid, t.teacherName, t.subject, Trim(t.title), Trim(t.content), t.points,
                  PriorityName(t.priority), Payloads(t.attachments), t.dueAt, t.openFrom, t.availableHours);
  }

  /** A student's initial grade: the trimmed text, when not blank, read as an
      `Int`; null when missing, blank or not a number. */
  function InitialGrade(grades: map<string, string>, uid: string): (g: Option<int>)
    ensures uid !in grades || IsBlank(grades[uid]) ==> g == None
    ensures uid in grades ==> g == ParseInt(Trim(grades[uid]))
  {
    BlankTrimmed(if uid in grades then grades[uid] else "");
    if uid in grades && !IsBlank(Trim(grades[uid])) then ParseInt(Trim(grades[uid])) else None
  }

  /** A new submission: delivered, not opened or submitted, graded exactly
      when it has a grade. */
  function StudentData(g: Option<int>): (d: Doc)
    ensures "state" in d && d["state"] == Str(StateName(DELIVERED))
    ensures "openedAt" in d && "submittedAt" in d && d["openedAt"] == Null && d["submittedAt"] == Null
    ensures "grade" in d && d["grade"] == (if g.Some? then Int(g.value) else Null)
    ensures "gradedAt" in d && (d["gradedAt"] != Null <==> g.Some?)
  {
    map[
      "state" := Str(StateName(DELIVERED)),
      "grade" := if g.Some? then Int(g.value) else Null,
      "deliveredAt" := ServerTime,
      "openedAt" := Null,
      "submittedAt" := Null,
      "gradedAt" := if g.Some? then ServerTime else Null]
  }

  /** The documents a task creation writes: the task and one submission per
      listed student. */
  predicate CreatedKey(t: NewTask, taskId: string, k: DocKey)
  {
    k == TaskKey(taskId) || (k.Sub? && k == StudentKey(taskId, k.id) && k.id in t.studentUids)
  }

  /** The submission written for a student: its initial grade, if any. */
  function StudentWrite(t: NewTask, taskId: string, u: string): Write
  {
    SetDoc(StudentKey(taskId, u), StudentData(InitialGrade(t.initialGrades, u)))
  }

  /** The batch of `createTaskAndAssignStudents`: the task document first,
      then one submission per student, in the order the students were
      picked. */
  predicate IsCreateBatch(ws: seq<Write>, taskDoc: Doc, t: NewTask, taskId: string)
  {
    && |ws| == |t.studentUids| + 1
    && ws[0] == SetDoc(TaskKey(taskId), taskDoc)
    && forall j :: 1 <= j < |ws| ==> ws[j] == StudentWrite(t, taskId, t.studentUids[j - 1])
  }

  method CreateBatch(taskDoc: Doc, t: NewTask, taskId: string) returns (ws: seq<Write>)
    ensures IsCreateBatch(ws, taskDoc, t, taskId)
  {
    ws := [SetDoc(TaskKey(taskId), taskDoc)];
    var i := 0;
    while i < |t.studentUids|
      invariant 0 <= i <= |t.studentUids|
      invariant |ws| == i + 1 && ws[0] == SetDoc(TaskKey(taskId), taskDoc)
      invariant forall j :: 1 <= j < |ws| ==> ws[j] == StudentWrite(t, taskId, t.studentUids[j - 1])
    {
      ws := ws + [StudentWrite(t, taskId, t.studentUids[i])];
      i := i + 1;
    }
  }

  /** Committing the batch writes the task document and each submission, and
      leaves every other document as it was. */
  lemma CreateBatchResult(before: Store, ws: seq<Write>, taskDoc: Doc, t: NewTask, taskId: string, now: int)
    requires IsCreateBatch(ws, taskDoc, t, taskId)
    ensures ApplyBatch(before, ws, now).Some?
    ensures Lookup(ApplyBatch(before, ws, now).value, TaskKey(taskId)) == Some(Resolve(taskDoc, now))
    ensures forall u :: u in t.studentUids ==>
      Lookup(ApplyBatch(before, ws, now).value, StudentKey(taskId, u)) == Some(Resolve(StudentData(InitialGrade(t.initialGrades, u)), now))
    ensures forall k :: !CreatedKey(t, taskId, k) ==> Lookup(ApplyBatch(before, ws, now).value, k) == Lookup(before, k)
  {
    assert forall j :: 0 <= j < |ws| ==> ws[j].SetDoc?;
    SetsResult(before, ws, now, TaskKey(taskId), taskDoc);
    forall u | u in t.studentUids
      ensures Lookup(ApplyBatch(before, ws, now).value, StudentKey(taskId, u))
        == Some(Resolve(StudentData(InitialGrade(t.initialGrades, u)), now))
    {
      var j :| 0 <= j < |t.studentUids| && t.studentUids[j] == u;
      assert ws[j + 1].key == StudentKey(taskId, u);
      SetsResult(before, ws, now, StudentKey(taskId, u), StudentData(InitialGrade(t.initialGrades, u)));
    }
    forall k | !CreatedKey(t, taskId, k)
      ensures Lookup(ApplyBatch(before, ws, now).value, k) == Lookup(before, k)
    {
      forall j | 0 <= j < |ws| ensures ws[j].key != k {
        if j > 0 { assert ws[j].key == StudentKey(taskId, t.studentUids[j - 1]); }
      }
      SetsResult(before, ws, now, k, map[]);
    }
  }

  /** `createTaskAndAssignStudents`, given the fresh id the backend picks for
      the task.  One batch writes the task document and a submission for each
      student; nothing else in the store changes. */
  method CreateTaskAndAssignStudents(db: Firestore, t: NewTask, taskId: string, now: int) returns (id: string)
    modifies db
    ensures id == taskId
    ensures Lookup(db.docs, TaskKey(taskId)) == Some(Resolve(TaskData(t), now))
    ensures forall u :: u in t.studentUids ==>
      Lookup(db.docs, StudentKey(taskId, u)) == Some(Resolve(StudentData(InitialGrade(t.initialGrades, u)), now))
    ensures forall k :: !CreatedKey(t, taskId, k) ==> Lookup(db.docs, k) == Lookup(old(db.docs), k)
  {
    var ws := CreateBatch(TaskData(t), t, taskId);
    CreateBatchResult(db.docs, ws, TaskData(t), t, taskId, now);
    var _ := db.Commit(ws, now);
    id := taskId;
  }

  /** A created task is listed back with its title trimmed, its creation time
      the commit time, and its hours kept only when positive. */
  lemma CreatedTaskRow(t: NewTask, taskId: string, now: int)
    requires IntFields(t)
    ensures TaskRowOf(DocEntry(taskId, Resolve(TaskData(t), now)))
      == TeacherTaskRow(taskId, Trim(t.title), t.subject, t.points, t.priority, now, t.dueAt, t.openFrom,
                        if t.availableHours.Some? && t.availableHours.value > 0 then t.availableHours else None)
  {
    PriorityRoundTrip(t.priority);
    StoredTaskReads(t, now);
  }

  /** How the fields of a committed task document read back. */
  lemma StoredTaskReads(t: NewTask, now: int)
    ensures var d := Resolve(TaskData(t), now);
      && GetString(d, "title") == Some(Trim(t.title))
      && GetString(d, "subject") == Some(t.subject)
      && GetString(d, "content") == Some(Trim(t.content))
      && GetLong(d, "points") == Some(t.points)
      && GetString(d, "priority") == Some(PriorityName(t.priority))
      && GetMillis(d, "createdAt") == Some(now)
      && GetList(d, "attachments") == Some(Payloads(t.attachments))
      && GetMillis(d, "dueAt") == t.dueAt
      && GetMillis(d, "openFrom") == t.openFrom
      && GetLong(d, "availableHours") == t.availableHours
  {
    TaskDataFields(t);
    var d := TaskData(t);
    ResolvedReads(d, now, "title");
    ResolvedReads(d, now, "subject");
    ResolvedReads(d, now, "content");
    ResolvedReads(d, now, "points");
    ResolvedReads(d, now, "priority");
    ResolvedReads(d, now, "createdAt");
    ResolvedReads(d, now, "attachments");
    ResolvedReads(d, now, "dueAt");
    ResolvedReads(d, now, "openFrom");
    ResolvedReads(d, now, "availableHours");
  }

  // ---------------------------------------------------------------------------
  // getTaskDetails

  datatype AttachmentMini = AttachmentMini(kind: string, labelText: string, value: string)

  /** A task's details; the creation time is kept in milliseconds. */
  datatype TeacherTaskDetails = TeacherTaskDetails(
    taskId: string,
    title: string,
    subject: string,
    content: string,
    points: int,
    priority: string,
    createdAt: int,
    attachments: seq<AttachmentMini>)

  function ReadMini(v: Value): (r: Option<AttachmentMini>)
    ensures r.Some? <==> v.Obj?
  {
    if v.Obj? then Some(AttachmentMini(FieldText(v.fields, "type"), FieldText(v.fields, "label"), FieldText(v.fields, "value")))
    else None
  }

  function ReadMinis(items: seq<Value>): (r: seq<AttachmentMini>)
    ensures |r| <= |items|
  {
    if items == [] then []
    else
      var m := ReadMini(items[0]);
      (if m.Some? then [m.value] else []) + ReadMinis(items[1..])
  }

  /** `getTaskDetails` on a task document (a missing document has no fields):
      missing texts are empty, a missing priority is "MEDIUM" as text, and only
      map-shaped attachments are listed. */
  function GetTaskDetails(e: DocEntry): (r: TeacherTaskDetails)
    ensures r.taskId == e.id
    ensures r.title == OrEmpty(GetString(e.data, "title")) && r.subject == OrEmpty(GetString(e.data, "subject"))
      && r.content == OrEmpty(GetString(e.data, "content"))
    ensures GetString(e.data, "priority").None? ==> r.priority == "MEDIUM"
    ensures GetString(e.data, "priority").Some? ==> r.priority == GetString(e.data, "priority").value
    ensures GetMillis(e.data, "createdAt").None? ==> r.createdAt == 0
    ensures IntMin <= r.points <= IntMax && (GetLong(e.data, "points").None? ==> r.points == 0)
    ensures GetList(e.data, "attachments").None? ==> r.attachments == []
    ensures GetList(e.data, "attachments").Some? ==> |r.attachments| <= |GetList(e.data, "attachments").value|
  {
    var p := GetString(e.data, "priority");
    var items := GetList(e.data, "attachments");
    TeacherTaskDetails(
      e.id,
      OrEmpty(GetString(e.data, "title")),
      OrEmpty(GetString(e.data, "subject")),
      OrEmpty(GetString(e.data, "content")),
      IntOrZero(e.data, "points"),
      if p.Some? then p.value else PriorityName(MEDIUM),
      MillisOrZero(e.data, "createdAt"),
      if items.Some? then ReadMinis(items.value) else [])
  }

  function Mini(a: TaskAttachment): AttachmentMini
  {
    AttachmentMini(AttachmentTypeName(a.kind), a.labelText, a.value)
  }

  function Minis(atts: seq<TaskAttachment>): (r: seq<AttachmentMini>)
    ensures |r| == |atts|
  {
    if atts == [] then [] else [Mini(atts[0])] + Minis(atts[1..])
  }

  /** A stored attachment is listed with its type name, label and value. */
  lemma MiniOfPayload(a: TaskAttachment)
    ensures ReadMini(AttachmentPayload(a)) == Some(Mini(a))
  {
    var m := AttachmentPayload(a).fields;
    assert FieldText(m, "type") == AttachmentTypeName(a.kind);
    assert FieldText(m, "label") == a.labelText;
    assert FieldText(m, "value") == a.value;
  }

  /** A stored attachment list is listed back in order. */
  lemma {:induction false} MinisRoundTrip(atts: seq<TaskAttachment>)
    ensures ReadMinis(Payloads(atts)) == Minis(atts)
  {
    if atts != [] {
      var p := Payloads(atts);
      assert p[0] == AttachmentPayload(atts[0]) && p[1..] == Payloads(atts[1..]);
      MiniOfPayload(atts[0]);
      MinisRoundTrip(atts[1..]);
    }
  }

  /** The details of a created task show what was stored: the trimmed title
      and content, the priority's name, the commit time, and each attachment's
      type name, label and value, in order. */
  lemma CreatedTaskDetails(t: NewTask, taskId: string, now: int)
    requires IntFields(t)
    ensures GetTaskDetails(DocEntry(taskId, Resolve(TaskData(t), now)))
      == TeacherTaskDetails(taskId, Trim(t.title), t.subject, Trim(t.content), t.points,
                            PriorityName(t.priority), now, Minis(t.attachments))
  {
    StoredTaskReads(t, now);
    MinisRoundTrip(t.attachments);
  }

  // ---------------------------------------------------------------------------
  // getTaskStudents

  datatype TaskStudentsBundle = TaskStudentsBundle(students: seq<StudentRow>, grades: map<string, string>)

  /** The grade shown for a submission: the stored number as text, or "" when
      there is none. */
  function GradeText(d: Doc): (g: string)
    ensures GetLong(d, "grade").None? ==> g == ""
    ensures GetLong(d, "grade").Some? ==> ParseInt(g) == Some(ToInt32(GetLong(d, "grade").value))
  {
    var l := GetLong(d, "grade");
    if l.Some? then
      IntTextRoundTrip(ToInt32(l.value));
      IntText(ToInt32(l.value))
    else ""
  }

  /** `associate { it.id to grade }`: one entry per submission document (a
      later document with the same id would win). */
  function GradesOf(docs: seq<DocEntry>): (r: map<string, string>)
    ensures forall i :: 0 <= i < |docs| ==> docs[i].id in r
    ensures forall u :: u in r ==> u in Ids(docs)
  {
    if docs == [] then map[]
    else
      var init := docs[..|docs| - 1];
      var last := docs[|docs| - 1];
      var r := GradesOf(init)[last.id := GradeText(last.data)];
      assert Ids(docs) == Ids(init) + [last.id];
      assert forall i :: 0 <= i < |init| ==> docs[i] == init[i];
      r
  }

  /** With distinct ids, each submission's entry is its own grade text. */
  lemma {:induction false} GradesOfDistinct(docs: seq<DocEntry>)
    requires DistinctIds(docs)
    ensures forall i :: 0 <= i < |docs| ==> GradesOf(docs)[docs[i].id] == GradeText(docs[i].data)
  {
    if docs != [] {
      var init := docs[..|docs| - 1];
      assert DistinctIds(init);
      GradesOfDistinct(init);
      forall i | 0 <= i < |docs| - 1
        ensures GradesOf(docs)[docs[i].id] == GradeText(docs[i].data)
      {
        assert docs[i] == init[i];
        assert docs[i].id != docs[|docs| - 1].id;
      }
    }
  }

  function Ids(docs: seq<DocEntry>): (r: seq<string>)
    ensures |r| == |docs|
    ensures forall i :: 0 <= i < |docs| ==> r[i] == docs[i].id
  {
    seq(|docs|, i requires 0 <= i < |docs| => docs[i].id)
  }

  function ProfileKey(uid: string): DocKey { Top("studentProfiles", uid) }

  /** The profile rows of the listed ids that have a profile document, put
      in the map one id after the other. */
  function ProfileMap(store: Store, ids: seq<string>): (r: map<string, StudentRow>)
    ensures forall u :: u in r <==> u in ids && ProfileKey(u) in store
    ensures forall u :: u in r ==> ProfileKey(u) in store && r[u] == ProfileRow(DocEntry(u, store[ProfileKey(u)]))
  {
    if ids == [] then map[]
    else
      var init := ids[..|ids| - 1];
      var u := ids[|ids| - 1];
      var m := ProfileMap(store, init);
      assert forall x :: x in ids <==> x in init || x == u by {
        assert ids == init + [u];
      }
      if ProfileKey(u) in store then m[u := ProfileRow(DocEntry(u, store[ProfileKey(u)]))] else m
  }

  /** The row of one submission: its id and state (DELIVERED when unknown), and
      the name and email of the student's profile, or "Student" and "" when
      there is no profile. */
  function RowFor(st: DocEntry, profiles: map<string, StudentRow>): (r: StudentRow)
    ensures r.uid == st.id && r.state == StoredState(st.data)
    ensures st.id !in profiles ==> r.fullName == "Student" && r.email == ""
    ensures st.id in profiles ==> r.fullName == profiles[st.id].fullName && r.email == profiles[st.id].email
  {
    var p := if st.id in profiles then Some(profiles[st.id]) else None;
    StudentRow(st.id, if p.Some? then p.value.fullName else "Student", if p.Some? then p.value.email else "", StoredState(st.data))
  }

  function RowsFor(docs: seq<DocEntry>, profiles: map<string, StudentRow>): (r: seq<StudentRow>)
    ensures |r| == |docs|
    ensures forall i :: 0 <= i < |docs| ==> r[i] == RowFor(docs[i], profiles)
  {
    seq(|docs|, i requires 0 <= i < |docs| => RowFor(docs[i], profiles))
  }

  /** The students of a task: one row per submission, by name ignoring case. */
  function TaskStudentRows(store: Store, docs: seq<DocEntry>): (r: seq<StudentRow>)
    ensures multiset(r) == multiset(RowsFor(docs, ProfileMap(store, Ids(docs))))
    ensures SortedBy(r, ByLowerName)
  {
    ByLowerNamePreorder();
    SortBySorted(RowsFor(docs, ProfileMap(store, Ids(docs))), ByLowerName);
    SortBy(RowsFor(docs, ProfileMap(store, Ids(docs))), ByLowerName)
  }

  lemma ProfileMapSnoc(store: Store, ids: seq<string>, u: string)
    ensures ProfileMap(store, ids + [u]) ==
      if ProfileKey(u) in store then ProfileMap(store, ids)[u := ProfileRow(DocEntry(u, store[ProfileKey(u)]))]
      else ProfileMap(store, ids)
  {
    assert (ids + [u])[..|ids|] == ids;
  }

  /** `getTaskStudents`, given the task's submission documents: the profiles
      are fetched ten ids at a time; the grades map has one entry per
      submission and the rows are the submissions' rows in name order. */
  method GetTaskStudents(db: Firestore, studentDocs: seq<DocEntry>) returns (b: TaskStudentsBundle)
    ensures b.grades == GradesOf(studentDocs)
    ensures b.students == TaskStudentRows(db.docs, studentDocs)
  {
    var ids := Ids(studentDocs);
    var grades := GradesOf(studentDocs);
    if ids == [] {
      assert RowsFor(studentDocs, ProfileMap(db.docs, ids)) == [];
      return TaskStudentsBundle([], grades);
    }
    var profiles := FetchProfiles(db, ids);
    var rows := RowsFor(studentDocs, profiles);
    b := TaskStudentsBundle(SortBy(rows, ByLowerName), grades);
  }

  /** The profile lookups of `getTaskStudents`: `whereIn("__name__", chunk)`
      for each chunk of ten ids, each profile found put in the map under its
      id. */
  method FetchProfiles(db: Firestore, ids: seq<string>) returns (profiles: map<string, StudentRow>)
    ensures profiles == ProfileMap(db.docs, ids)
  {
    profiles := map[];
    var chunks := Chunked(ids, 10);
    var c := 0;
    while c < |chunks|
      invariant 0 <= c <= |chunks|
      invariant profiles == ProfileMap(db.docs, Concat(chunks[..c]))
    {
      ConcatSnoc(chunks, c);
      profiles := PutProfiles(db, profiles, Concat(chunks[..c]), chunks[c]);
      c := c + 1;
    }
    assert chunks[..c] == chunks;
  }

  /** One chunk's query: every profile found among the chunk's ids is put in
      the map under its id. */
  method PutProfiles(db: Firestore, profiles: map<string, StudentRow>, ghost done: seq<string>, chunk: seq<string>)
    returns (r: map<string, StudentRow>)
    requires profiles == ProfileMap(db.docs, done)
    ensures r == ProfileMap(db.docs, done + chunk)
  {
    var store := db.docs;
    r := profiles;
    ghost var seen := done;
    var j := 0;
    while j < |chunk|
      invariant 0 <= j <= |chunk|
      invariant seen == done + chunk[..j]
      invariant r == ProfileMap(store, seen)
    {
      var u := chunk[j];
      ProfileMapSnoc(store, seen, u);
      if ProfileKey(u) in store {
        r := r[u := ProfileRow(DocEntry(u, store[ProfileKey(u)]))];
      }
      seen := seen + [u];
      j := j + 1;
      assert seen == done + chunk[..j];
    }
    assert chunk[..j] == chunk;
  }

  // ---------------------------------------------------------------------------
  // updateTaskGrades

  /** The update for a parsed grade: the grade (null when there is none), and
      a grading time only when there is one. */
  function GradeFields(g: Option<int>): (d: Doc)
    ensures "grade" in d && d["grade"] == (if g.Some? then Int(g.value) else Null)
    ensures "gradedAt" in d <==> g.Some?
    ensures "gradedAt" in d ==> d["gradedAt"] == ServerTime
  {
    if g.Some? then map["grade" := Int(g.value), "gradedAt" := ServerTime] else map["grade" := Null]
  }

  /** The update for one grade text: the trimmed text read as an `Int`. */
  function GradeUpdate(text: string): Doc
  {
    GradeFields(ParseInt(Trim(text)))
  }

  /** Saving a grade text and reading it back shows the number it parsed to,
      or "" when it did not parse. */
  lemma SavedGradeReadsBack(before: Doc, text: string, now: int)
    ensures GradeText(before + Resolve(GradeUpdate(text), now))
      == if ParseInt(Trim(text)).Some? then IntText(ParseInt(Trim(text)).value) else ""
  {
    var d := before + Resolve(GradeUpdate(text), now);
    var g := ParseInt(Trim(text));
    if g.Some? {
      assert GetLong(d, "grade") == Some(g.value);
    } else {
      assert d["grade"] == Null;
    }
  }

  /** Saving the grades exactly as shown keeps every stored grade. */
  lemma ShownGradeSavesBack(d: Doc)
    ensures ParseInt(Trim(GradeText(d))) == if GetLong(d, "grade").Some? then Some(ToInt32(GetLong(d, "grade").value)) else None
  {
    var g := GradeText(d);
    if g != "" {
      var n := ToInt32(GetLong(d, "grade").value);
      assert g == IntText(n);
      if n < 0 {
        assert g[0] == '-';
      }
      assert g[|g| - 1] == NatText(if n < 0 then -n else n)[|NatText(if n < 0 then -n else n)| - 1];
      TrimOfNonWhitespaceEnds(g);
    }
  }

  /** The update batch for a list of grades. */
  /** The update of one submission's grade. */
  function GradeWrite(taskId: string, grade: (string, string)): Write
  {
    UpdateDoc(StudentKey(taskId, grade.0), GradeUpdate(grade.1))
  }

  /** A grade batch: one update per entry, in the entries' order. */
  predicate IsGradeBatch(ws: seq<Write>, taskId: string, grades: seq<(string, string)>)
  {
    && |ws| == |grades|
    && forall j :: 0 <= j < |ws| ==> ws[j] == GradeWrite(taskId, grades[j])
  }

  method GradeBatch(taskId: string, grades: seq<(string, string)>) returns (ws: seq<Write>)
    ensures IsGradeBatch(ws, taskId, grades)
  {
    ws := [];
    var i := 0;
    while i < |grades|
      invariant 0 <= i <= |grades|
      invariant |ws| == i
      invariant forall j :: 0 <= j < i ==> ws[j] == GradeWrite(taskId, grades[j])
    {
      ws := ws + [GradeWrite(taskId, grades[i])];
      i := i + 1;
    }
  }

  /** `grades.forEach { … batch.update(…) }` then `commit()`, with the map's
      entries in iteration order.  The batch commits exactly when every listed
      submission exists; then each gets its grade update and nothing else
      changes; otherwise nothing changes. */
  method UpdateTaskGrades(db: Firestore, taskId: string, grades: seq<(string, string)>, now: int) returns (ok: bool)
    requires forall i, j :: 0 <= i < j < |grades| ==> grades[i].0 != grades[j].0
    modifies db
    ensures ok <==> forall i :: 0 <= i < |grades| ==> StudentKey(taskId, grades[i].0) in old(db.docs)
    ensures !ok ==> db.docs == old(db.docs)
    ensures ok ==> forall i :: 0 <= i < |grades| ==>
      Lookup(db.docs, StudentKey(taskId, grades[i].0)) == Some(old(db.docs)[StudentKey(taskId, grades[i].0)] + Resolve(GradeUpdate(grades[i].1), now))
    ensures ok ==> forall k :: (forall i :: 0 <= i < |grades| ==> k != StudentKey(taskId, grades[i].0)) ==>
      Lookup(db.docs, k) == Lookup(old(db.docs), k)
  {
    var ws := GradeBatch(taskId, grades);
    UpdatesResult(db.docs, ws, now);
    forall k | forall i :: 0 <= i < |grades| ==> k != StudentKey(taskId, grades[i].0)
      ensures !Touches(ws, k)
    {
      forall i | 0 <= i < |ws| ensures ws[i].key != k {
        assert ws[i].key == StudentKey(taskId, grades[i].0);
      }
    }
    ok := db.Commit(ws, now);
  }

  // ---------------------------------------------------------------------------
  // deleteTask

  /** The task document and its submissions. */
  predicate InTask(k: DocKey, taskId: string)
  {
    k == TaskKey(taskId) || (k.Sub? && k.collection == "tasks" && k.parent == taskId && k.sub == "students")
  }

  /** The submission documents under a task. */
  function Submissions(store: Store, taskId: string): set<DocKey>
  {
    set k | k in store && k.Sub? && InTask(k, taskId)
  }

  /** A batch deleting a task's submissions and the task removes the task and
      every submission under it, and nothing else. */
  lemma TaskDeletion(store: Store, ws: seq<Write>, taskId: string, now: int)
    requires forall j :: 0 <= j < |ws| ==> ws[j].DeleteDoc?
    requires KeysOf(ws) == Submissions(store, taskId) + {TaskKey(taskId)}
    ensures ApplyBatch(store, ws, now).Some?
    ensures forall k :: k in ApplyBatch(store, ws, now).value <==> k in store && !InTask(k, taskId)
    ensures forall k :: k in ApplyBatch(store, ws, now).value ==> ApplyBatch(store, ws, now).value[k] == store[k]
  {
    DeletesResult(store, ws, now);
    var r := store - KeysOf(ws);
    forall k ensures k in r <==> k in store && !InTask(k, taskId) {
      if k in store && InTask(k, taskId) && k.Sub? {
        assert k in KeysOf(ws);
      }
    }
  }

  /** A batch deleting each of the given documents, in some order. */
  method DeleteAll(keys: set<DocKey>) returns (ws: seq<Write>)
    ensures forall j :: 0 <= j < |ws| ==> ws[j].DeleteDoc?
    ensures KeysOf(ws) == keys
  {
    var pending := keys;
    ws := [];
    while pending != {}
      invariant forall j :: 0 <= j < |ws| ==> ws[j].DeleteDoc?
      invariant KeysOf(ws) + pending == keys
      decreases |pending|
    {
      var k :| k in pending;
      KeysOfSnoc(ws, DeleteDoc(k));
      ws := ws + [DeleteDoc(k)];
      pending := pending - {k};
    }
  }

  /** `deleteTask`: removes the task and every submission under it, and
      nothing else. */
  method DeleteTask(db: Firestore, taskId: string, now: int)
    modifies db
    ensures forall k :: k in db.docs <==> k in old(db.docs) && !InTask(k, taskId)
    ensures forall k :: k in db.docs ==> db.docs[k] == old(db.docs)[k]
  {
    var ws := DeleteAll(Submissions(db.docs, taskId) + {TaskKey(taskId)});
    TaskDeletion(db.docs, ws, taskId, now);
    var _ := db.Commit(ws, now);
  }
}
