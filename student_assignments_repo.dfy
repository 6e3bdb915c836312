/**
 * The student's view of the tasks of one subject: every task of the subject
 * that has a sub-document for the signed-in student, read with defaults and
 * listed newest first, and marking a task as opened.  The signed-in uid is a
 * parameter, the task query's answer is the sequence of task documents in
 * the order the backend returns them, and the student sub-documents are
 * read from the store.
 */
module StudentAssignmentsRepo {
  import opened Strings
  import opened Lists
  import opened DocStore
  import opened TaskModels
  import opened TaskDocs

  datatype StudentAssignmentRow = StudentAssignmentRow(
    taskId: string,
    subject: string,
    teacherName: string,
    title: string,
    content: string,
    points: int,
    priority: TaskPriority,
    createdAt: int,
    dueAt: Option<int>,
    openFrom: Option<int>,
    availableHours: Option<int>,
    attachments: seq<TaskAttachment>,
    state: SubmissionState,
    grade: Option<int>)

  /** `getLong("grade")?.toInt()`. */
  function StoredGrade(d: Doc): (g: Option<int>)
    ensures g.None? <==> GetLong(d, "grade").None?
    ensures g.Some? ==> g.value == ToInt32(GetLong(d, "grade").value)
  {
    var l := GetLong(d, "grade");
    if l.Some? then Some(ToInt32(l.value)) else None
  }

  /** The row of a task for a student: what is missing or unknown falls back
      to its default (MEDIUM priority, PDF attachments, DELIVERED state,
      empty texts, zero points and creation time), the available hours are
      kept only when positive, and no attachment is loading. */
  function RowOf(task: DocEntry, student: Doc): (r: StudentAssignmentRow)
    ensures r.taskId == task.id && r.subject == OrEmpty(GetString(task.data, "subject"))
    ensures r.teacherName == OrEmpty(GetString(task.data, "teacherName")) && r.title == OrEmpty(GetString(task.data, "title"))
      && r.content == OrEmpty(GetString(task.data, "content"))
    ensures (r.grade.None? <==> GetLong(student, "grade").None?)
      && (r.grade.Some? ==> r.grade.value == ToInt32(GetLong(student, "grade").value))
    ensures GetString(task.data, "priority").Some? && ParsePriority(GetString(task.data, "priority").value).Some?
      ==> r.priority == ParsePriority(GetString(task.data, "priority").value).value
    ensures GetString(student, "state").Some? && ParseState(GetString(student, "state").value).Some?
      ==> r.state == ParseState(GetString(student, "state").value).value
    ensures GetString(task.data, "priority").None? || ParsePriority(GetString(task.data, "priority").value).None?
      ==> r.priority == MEDIUM
    ensures GetString(student, "state").None? || ParseState(GetString(student, "state").value).None?
      ==> r.state == DELIVERED
    ensures r.availableHours.Some? ==> r.availableHours.value > 0
    ensures GetMillis(task.data, "createdAt").None? ==> r.createdAt == 0
    ensures r.points == IntOrZero(task.data, "points") && IntMin <= r.points <= IntMax
      && (GetLong(task.data, "points").None? ==> r.points == 0)
    ensures r.dueAt == GetMillis(task.data, "dueAt") && r.openFrom == GetMillis(task.data, "openFrom")
    ensures forall i :: 0 <= i < |r.attachments| ==> !r.attachments[i].isLoading
    ensures GetList(task.data, "attachments").Some? ==>
      |r.attachments| <= |GetList(task.data, "attachments").value|
  {
    StudentAssignmentRow(
      task.id,
      OrEmpty(GetString(task.data, "subject")),
      OrEmpty(GetString(task.data, "teacherName")),
      OrEmpty(GetString(task.data, "title")),
      OrEmpty(GetString(task.data, "content")),
      IntOrZero(task.data, "points"),
      StoredPriority(task.data),
      MillisOrZero(task.data, "createdAt"),
      GetMillis(task.data, "dueAt"),
      GetMillis(task.data, "openFrom"),
      StoredHours(task.data),
      ReadAttachments(GetList(task.data, "attachments")),
      StoredState(student),
      StoredGrade(student))
  }

  /** `whereEqualTo("subject", subject)`. */
  predicate HasSubject(e: DocEntry, subject: string)
  {
    GetString(e.data, "subject") == Some(subject)
  }

  /** The row of a task for the student, when the student has a
      sub-document under it. */
  function RowFor(store: Store, uid: string, t: DocEntry): (r: Option<StudentAssignmentRow>)
    ensures r.Some? <==> StudentKey(t.id, uid) in store
    ensures r.Some? ==> r.value == RowOf(t, store[StudentKey(t.id, uid)])
  {
    if StudentKey(t.id, uid) in store then Some(RowOf(t, store[StudentKey(t.id, uid)])) else None
  }

  /** The rows of the tasks, in order, that have a sub-document for the
      student. */
  function AssignmentRows(store: Store, uid: string, tasks: seq<DocEntry>): (r: seq<StudentAssignmentRow>)
    ensures |r| <= |tasks|
    ensures forall i :: 0 <= i < |r| ==> StudentKey(r[i].taskId, uid) in store
  {
    var r := Collect(tasks, t => RowFor(store, uid, t));
    forall i | 0 <= i < |r| ensures StudentKey(r[i].taskId, uid) in store {
      CollectMembers(tasks, t => RowFor(store, uid, t), r[i]);
    }
    r
  }

  /** A row is listed exactly when it is the row of one of the tasks whose
      student sub-document exists. */
  lemma AssignmentRowsMembers(store: Store, uid: string, tasks: seq<DocEntry>, x: StudentAssignmentRow)
    ensures x in AssignmentRows(store, uid, tasks) <==>
      exists i :: 0 <= i < |tasks| && RowFor(store, uid, tasks[i]) == Some(x)
  {
    CollectMembers(tasks, t => RowFor(store, uid, t), x);
  }

  /** `sortedByDescending { it.createdAt }`. */
  predicate NewestFirst(a: StudentAssignmentRow, b: StudentAssignmentRow)
  {
    a.createdAt >= b.createdAt
  }

  function CreatedAtOf(a: StudentAssignmentRow): int { a.createdAt }

  /** `getAssignmentsForSubject(subject)`: nothing without a signed-in
      student; otherwise the rows of the subject's tasks that have the
      student's sub-document, newest first. */
  method GetAssignmentsForSubject(db: Firestore, signedIn: Option<string>, tasks: seq<DocEntry>, subject: string)
    returns (rows: seq<StudentAssignmentRow>)
    ensures signedIn.None? ==> rows == []
    ensures signedIn.Some? ==>
      multiset(rows) == multiset(AssignmentRows(db.docs, signedIn.value, Select(tasks, e => HasSubject(e, subject))))
    ensures SortedBy(rows, NewestFirst)
  {
    if signedIn.None? {
      return [];
    }
    var uid := signedIn.value;
    var matching := Select(tasks, e => HasSubject(e, subject));
    if matching == [] {
      return [];
    }
    var found := ReadRows(db, uid, matching);
    DescendingKeyPreorder(NewestFirst, CreatedAtOf);
    SortBySorted(found, NewestFirst);
    rows := SortBy(found, NewestFirst);
  }

  /** The per-task reads of `getAssignmentsForSubject`: the student's
      sub-document under each task, in the query's order, each one found
      giving a row. */
  method ReadRows(db: Firestore, uid: string, matching: seq<DocEntry>) returns (found: seq<StudentAssignmentRow>)
    ensures found == AssignmentRows(db.docs, uid, matching)
  {
    var store := db.docs;
    found := [];
    var i := 0;
    while i < |matching|
      invariant 0 <= i <= |matching|
      invariant found == AssignmentRows(store, uid, matching[..i])
    {
      var row := RowFor(store, uid, matching[i]);
      assert matching[..i + 1][..i] == matching[..i];
      if row.Some? {
        found := found + [row.value];
      }
      i := i + 1;
    }
    assert matching[..i] == matching;
  }

  /** Every listed row belongs to the subject and to a task the student has
      a sub-document under. */
  lemma ListedRows(store: Store, uid: string, tasks: seq<DocEntry>, subject: string, x: StudentAssignmentRow)
    requires x in AssignmentRows(store, uid, Select(tasks, e => HasSubject(e, subject)))
    ensures x.subject == subject && StudentKey(x.taskId, uid) in store
  {
    var matching := Select(tasks, e => HasSubject(e, subject));
    AssignmentRowsMembers(store, uid, matching, x);
    var i :| 0 <= i < |matching| && RowFor(store, uid, matching[i]) == Some(x);
    assert HasSubject(matching[i], subject);
  }

  // ---------------------------------------------------------------------------
  // markOpened

  /** The update of `markOpened`: the OPENED state and the device's time. */
  function OpenedUpdate(clientNow: int): Doc
  {
    map["state" := Str(StateName(OPENED)), "openedAt" := Time(clientNow)]
  }

  /** `markOpened(taskId)`: nothing without a signed-in student; otherwise
      an update of the student's own sub-document under the task, which
      fails (and changes nothing) when that document does not exist. */
  method MarkOpened(db: Firestore, signedIn: Option<string>, taskId: string, clientNow: int, now: int)
    returns (ok: bool)
    modifies db
    ensures signedIn.None? ==> ok && db.docs == old(db.docs)
    ensures signedIn.Some? ==> (ok <==> StudentKey(taskId, signedIn.value) in old(db.docs))
    ensures !ok ==> db.docs == old(db.docs)
    ensures signedIn.Some? && ok ==>
      var k := StudentKey(taskId, signedIn.value);
      db.docs == old(db.docs)[k := old(db.docs)[k] + OpenedUpdate(clientNow)]
  {
    if signedIn.None? {
      return true;
    }
    assert Resolve(OpenedUpdate(clientNow), now) == OpenedUpdate(clientNow);
    ok := db.Commit([UpdateDoc(StudentKey(taskId, signedIn.value), OpenedUpdate(clientNow))], now);
  }

  /** After `markOpened` the student's row of the task shows OPENED, keeps
      its grade, and records when it was opened. */
  lemma OpenedRow(task: DocEntry, student: Doc, clientNow: int)
    ensures RowOf(task, student + OpenedUpdate(clientNow)).state == OPENED
    ensures RowOf(task, student + OpenedUpdate(clientNow)).grade == RowOf(task, student).grade
    ensures GetMillis(student + OpenedUpdate(clientNow), "openedAt") == Some(clientNow)
  {
    var d := student + OpenedUpdate(clientNow);
    assert d["state"] == Str("OPENED");
    assert GetLong(d, "grade") == GetLong(student, "grade");
  }
}
