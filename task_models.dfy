/**
 * The records shared by the teacher and student sides of the app: task
 * priority, attachment kinds, submission states, the rows shown in lists,
 * and the way a person's name is assembled from its parts.
 */
module TaskModels {
  import opened Strings

  datatype TaskPriority = LOW | MEDIUM | HIGH

  datatype AttachmentType = PPT | EXCEL | WORD | URL | IMAGE | TXT | PDF

  datatype SubmissionState = DELIVERED | OPENED | SUBMITTED

  datatype TaskAttachment = TaskAttachment(
    id: string,
    kind: AttachmentType,
    labelText: string,
    value: string,
    isLoading: bool)

  datatype StudentRow = StudentRow(
    uid: string,
    fullName: string,
    email: string,
    state: SubmissionState)

  /** A teacher in the administrator's local registry (the record carries no
      account id there). */
  datatype TeacherRecord = TeacherRecord(
    teacherId: int,
    firstName: string,
    middleName: Option<string>,
    lastName: string,
    email: string,
    subjectNames: seq<string>)

  datatype TeacherTaskRow = TeacherTaskRow(
    taskId: string,
    title: string,
    subject: string,
    points: int,
    priority: TaskPriority,
    createdAt: int,
    dueAt: Option<int>,
    openFrom: Option<int>,
    availableHours: Option<int>)

  // ---------------------------------------------------------------------------
  // Enum names: `name` and `valueOf`

  function PriorityName(p: TaskPriority): string
  {
    match p
    case LOW => "LOW"
    case MEDIUM => "MEDIUM"
    case HIGH => "HIGH"
  }

  /** `TaskPriority.valueOf(s)`: defined only on the exact constant names. */
  function ParsePriority(s: string): (r: Option<TaskPriority>)
    ensures r.Some? ==> PriorityName(r.value) == s
  {
    if s == "LOW" then Some(LOW)
    else if s == "MEDIUM" then Some(MEDIUM)
    else if s == "HIGH" then Some(HIGH)
    else None
  }

  lemma PriorityRoundTrip(p: TaskPriority)
    ensures ParsePriority(PriorityName(p)) == Some(p)
  {
  }

  /** A stored priority read back: a missing or unknown name becomes MEDIUM. */
  function PriorityOrMedium(stored: Option<string>): (p: TaskPriority)
    ensures stored.Some? && ParsePriority(stored.value).Some? ==> p == ParsePriority(stored.value).value
    ensures stored.None? || ParsePriority(stored.value).None? ==> p == MEDIUM
  {
    if stored.Some? && ParsePriority(stored.value).Some? then ParsePriority(stored.value).value else MEDIUM
  }

  function AttachmentTypeName(t: AttachmentType): string
  {
    match t
    case PPT => "PPT"
    case EXCEL => "EXCEL"
    case WORD => "WORD"
    case URL => "URL"
    case IMAGE => "IMAGE"
    case TXT => "TXT"
    case PDF => "PDF"
  }

  /** `AttachmentType.valueOf(s)`. */
  function ParseAttachmentType(s: string): (r: Option<AttachmentType>)
    ensures r.Some? ==> AttachmentTypeName(r.value) == s
  {
    if s == "PPT" then Some(PPT)
    else if s == "EXCEL" then Some(EXCEL)
    else if s == "WORD" then Some(WORD)
    else if s == "URL" then Some(URL)
    else if s == "IMAGE" then Some(IMAGE)
    else if s == "TXT" then Some(TXT)
    else if s == "PDF" then Some(PDF)
    else None
  }

  lemma AttachmentTypeRoundTrip(t: AttachmentType)
    ensures ParseAttachmentType(AttachmentTypeName(t)) == Some(t)
  {
  }

  function StateName(s: SubmissionState): string
  {
    match s
    case DELIVERED => "DELIVERED"
    case OPENED => "OPENED"
    case SUBMITTED => "SUBMITTED"
  }

  /** `SubmissionState.valueOf(s)`. */
  function ParseState(s: string): (r: Option<SubmissionState>)
    ensures r.Some? ==> StateName(r.value) == s
  {
    if s == "DELIVERED" then Some(DELIVERED)
    else if s == "OPENED" then Some(OPENED)
    else if s == "SUBMITTED" then Some(SUBMITTED)
    else None
  }

  lemma StateRoundTrip(s: SubmissionState)
    ensures ParseState(StateName(s)) == Some(s)
  {
  }

  /** A stored submission state read back: missing or unknown is DELIVERED. */
  function StateOrDelivered(stored: Option<string>): (st: SubmissionState)
    ensures stored.Some? && ParseState(stored.value).Some? ==> st == ParseState(stored.value).value
    ensures stored.None? || ParseState(stored.value).None? ==> st == DELIVERED
  {
    if stored.Some? && ParseState(stored.value).Some? then ParseState(stored.value).value else DELIVERED
  }

  // ---------------------------------------------------------------------------
  // Names

  /** `filter { it.isNotBlank() }` on name parts: every non-blank part and
      nothing else, in order (see `NonBlankPartsAppend`). */
  function NonBlankParts(parts: seq<string>): (r: seq<string>)
    ensures |r| <= |parts|
    ensures forall i :: 0 <= i < |r| ==> !IsBlank(r[i])
    ensures forall x {:trigger x in r} :: x in r <==> x in parts && !IsBlank(x)
  {
    if parts == [] then []
    else
      assert forall x :: x in parts <==> x == parts[0] || x in parts[1..];
      (if IsBlank(parts[0]) then [] else [parts[0]]) + NonBlankParts(parts[1..])
  }

  /** The non-blank parts of two lists one after the other are those of the
      first followed by those of the second: the filter keeps order. */
  lemma {:induction false} NonBlankPartsAppend(a: seq<string>, b: seq<string>)
    ensures NonBlankParts(a + b) == NonBlankParts(a) + NonBlankParts(b)
  {
    if a == [] {
      assert a + b == b;
    } else {
      assert (a + b)[0] == a[0] && (a + b)[1..] == a[1..] + b;
      NonBlankPartsAppend(a[1..], b);
    }
  }

  lemma {:induction false} NonBlankPartsEmpty(parts: seq<string>)
    ensures NonBlankParts(parts) == [] <==> forall i :: 0 <= i < |parts| ==> IsBlank(parts[i])
  {
    if parts != [] {
      NonBlankPartsEmpty(parts[1..]);
      assert forall i :: 1 <= i < |parts| ==> parts[i] == parts[1..][i - 1];
    }
  }

  /** The non-blank name parts joined by single spaces. */
  function JoinedName(parts: seq<string>): string
  {
    Join(NonBlankParts(parts), " ")
  }

  lemma JoinStartsWithFirst(ps: seq<string>, sep: string)
    requires ps != []
    ensures StartsWith(Join(ps, sep), ps[0])
  {
  }

  /** The joined name is blank exactly when every part is blank. */
  lemma JoinedNameBlank(parts: seq<string>)
    ensures IsBlank(JoinedName(parts)) <==> forall i :: 0 <= i < |parts| ==> IsBlank(parts[i])
  {
    NonBlankPartsEmpty(parts);
    var ps := NonBlankParts(parts);
    if ps != [] {
      JoinStartsWithFirst(ps, " ");
      var i :| 0 <= i < |ps[0]| && !IsWhitespace(ps[0][i]);
      assert JoinedName(parts)[i] == ps[0][i];
    }
  }

  /** `joinToString(" ").ifBlank { fallback }` over the non-blank parts. */
  function NameOr(parts: seq<string>, fallback: string): (r: string)
    ensures (forall i :: 0 <= i < |parts| ==> IsBlank(parts[i])) ==> r == fallback
    ensures (exists i :: 0 <= i < |parts| && !IsBlank(parts[i])) ==> r == JoinedName(parts) && !IsBlank(r)
  {
    JoinedNameBlank(parts);
    if IsBlank(JoinedName(parts)) then fallback else JoinedName(parts)
  }
}
