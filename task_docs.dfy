/**
 * The layout of a task in the document store, shared by the teacher's and
 * the students' repositories: the `tasks/{taskId}` document, its
 * `students/{uid}` sub-documents, and how their fields are read back with
 * defaults.
 */
module TaskDocs {
  import opened Strings
  import opened DocStore
  import opened TaskModels

  function TaskKey(taskId: string): DocKey { Top("tasks", taskId) }

  function StudentKey(taskId: string, uid: string): DocKey { Sub("tasks", taskId, "students", uid) }

  /** `getLong(f) ?: 0` narrowed with `toInt()`. */
  function IntOrZero(d: Doc, f: string): (n: int)
    ensures IntMin <= n <= IntMax
    ensures GetLong(d, f).None? ==> n == 0
    ensures GetLong(d, f).Some? ==> n == ToInt32(GetLong(d, f).value)
  {
    var l := GetLong(d, f);
    ToInt32(if l.Some? then l.value else 0)
  }

  /** `getTimestamp(f)` in milliseconds, 0 when absent. */
  function MillisOrZero(d: Doc, f: string): int
  {
    var t := GetMillis(d, f);
    if t.Some? then t.value else 0
  }

  /** The stored priority, MEDIUM when missing or unknown. */
  function StoredPriority(d: Doc): TaskPriority
  {
    PriorityOrMedium(GetString(d, "priority"))
  }

  /** `availableHours`, narrowed to 32 bits, kept only when positive. */
  function StoredHours(d: Doc): (h: Option<int>)
    ensures h.Some? ==> 0 < h.value <= IntMax
    ensures h.Some? <==> ToInt32(if GetLong(d, "availableHours").Some? then GetLong(d, "availableHours").value else 0) > 0
    ensures h.Some? ==> h.value == IntOrZero(d, "availableHours")
  {
    var n := IntOrZero(d, "availableHours");
    if n > 0 then Some(n) else None
  }

  /** The submission state of a student sub-document, DELIVERED when missing or
      unknown. */
  function StoredState(d: Doc): SubmissionState
  {
    StateOrDelivered(GetString(d, "state"))
  }

  // ---------------------------------------------------------------------------
  // Attachments

  /** How an attachment is stored: its id, type name, label and value, and a
      loading flag that is always false. */
  function AttachmentPayload(a: TaskAttachment): (v: Value)
    ensures v.Obj? && "isLoading" in v.fields && v.fields["isLoading"] == Bool(false)
  {
    Obj(map[
      "id" := Str(a.id),
      "type" := Str(AttachmentTypeName(a.kind)),
      "label" := Str(a.labelText),
      "value" := Str(a.value),
      "isLoading" := Bool(false)])
  }

  /** Reading one stored attachment: maps only; an unknown type is PDF; missing
      texts are empty; the attachment is never loading. */
  function ReadAttachment(v: Value): (r: Option<TaskAttachment>)
    ensures r.Some? <==> v.Obj?
    ensures r.Some? ==> !r.value.isLoading
    ensures r.Some? ==> var t := ParseAttachmentType(FieldText(v.fields, "type"));
      r.value.kind == if t.Some? then t.value else PDF
    ensures r.Some? ==> r.value.id == FieldText(v.fields, "id")
    ensures r.Some? ==> r.value.labelText == FieldText(v.fields, "label") && r.value.value == FieldText(v.fields, "value")
  {
    if !v.Obj? then None
    else
      var m := v.fields;
      var typeName := FieldText(m, "type");
      var kind := if ParseAttachmentType(typeName).Some? then ParseAttachmentType(typeName).value else PDF;
      Some(TaskAttachment(FieldText(m, "id"), kind, FieldText(m, "label"), FieldText(m, "value"), false))
  }

  /** `(get("attachments") as? List<*>)?.mapNotNull { … } ?: emptyList()`. */
  function ReadAttachments(items: Option<seq<Value>>): (r: seq<TaskAttachment>)
    ensures items.None? ==> r == []
    ensures forall i :: 0 <= i < |r| ==> !r[i].isLoading
  {
    if items.None? then [] else ReadAttachmentList(items.value)
  }

  function ReadAttachmentList(items: seq<Value>): (r: seq<TaskAttachment>)
    ensures |r| <= |items|
    ensures forall i :: 0 <= i < |r| ==> !r[i].isLoading
  {
    if items == [] then []
    else
      var a := ReadAttachment(items[0]);
      (if a.Some? then [a.value] else []) + ReadAttachmentList(items[1..])
  }

  function Payloads(atts: seq<TaskAttachment>): (r: seq<Value>)
    ensures |r| == |atts|
  {
    if atts == [] then [] else [AttachmentPayload(atts[0])] + Payloads(atts[1..])
  }

  function NotLoading(atts: seq<TaskAttachment>): (r: seq<TaskAttachment>)
    ensures |r| == |atts|
  {
    if atts == [] then [] else [atts[0].(isLoading := false)] + NotLoading(atts[1..])
  }

  /** A stored attachment reads back as itself, no longer loading. */
  lemma AttachmentRoundTrip(a: TaskAttachment)
    ensures ReadAttachment(AttachmentPayload(a)) == Some(a.(isLoading := false))
  {
    AttachmentTypeRoundTrip(a.kind);
  }

  /** A stored attachment list reads back as the same list, in order, with no
      attachment loading. */
  lemma {:induction false} AttachmentsRoundTrip(atts: seq<TaskAttachment>)
    ensures ReadAttachmentList(Payloads(atts)) == NotLoading(atts)
  {
    if atts != [] {
      AttachmentRoundTrip(atts[0]);
      var p := Payloads(atts);
      assert p[0] == AttachmentPayload(atts[0]) && p[1..] == Payloads(atts[1..]);
      AttachmentsRoundTrip(atts[1..]);
    }
  }
}
