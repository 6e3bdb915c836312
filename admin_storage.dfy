/**
 * The administrator's local registry of teachers, kept in the device's
 * preferences: a counter for the next teacher id, the list of teacher
 * records stored as a JSON array, and a subject-to-teacher map stored as a
 * JSON object.
 *
 * A stored preference string is represented by what it parses to
 * (`StoredText`): `Unparsable` when the JSON parser rejects it.  Writing a
 * JSON value back stores text that parses to that same value.
 */
module AdminRegistry {
  import opened Strings
  import opened Lists
  import opened TaskModels

  const Int64Min: int := -0x8000_0000_0000_0000
  const Int64Max: int := 0x7FFF_FFFF_FFFF_FFFF

  /** A Kotlin `Long` result: the mathematical value wrapped into 64 bits. */
  function WrapLong(n: int): (r: int)
    ensures Int64Min <= r <= Int64Max
    ensures (r - n) % 0x1_0000_0000_0000_0000 == 0
    ensures Int64Min <= n <= Int64Max ==> r == n
  {
    (n - Int64Min) % 0x1_0000_0000_0000_0000 + Int64Min
  }

  // ---------------------------------------------------------------------------
  // JSON values and the lenient `opt…` readers

  datatype Json =
    | JNull
    | JBool(b: bool)
    | JNum(n: int)
    | JStr(s: string)
    | JArr(items: seq<Json>)
    | JObj(fields: map<string, Json>)

  /** What a stored preference string parses to. */
  datatype StoredText = Unparsable | Parsed(json: Json)

  function Opt(o: map<string, Json>, k: string): (r: Option<Json>)
    ensures r.Some? <==> k in o
  {
    if k in o then Some(o[k]) else None
  }

  /** `optString`: "" when missing, a string as it is, another scalar as its
      text (a JSON null reads as "null"). */
  function OptString(v: Option<Json>): (r: string)
    ensures v.None? ==> r == ""
    ensures v.Some? && v.value.JStr? ==> r == v.value.s
  {
    match v
    case None => ""
    case Some(j) =>
      match j
      case JStr(s) => s
      case JNum(n) => IntText(n)
      case JBool(b) => if b then "true" else "false"
      case JNull => "null"
      case _ => ""
  }

  /** `optLong`: a number as it is, 0 otherwise. */
  function OptLong(v: Option<Json>): (r: int)
    ensures v.Some? && v.value.JNum? ==> r == v.value.n
    ensures v.None? ==> r == 0
  {
    if v.Some? && v.value.JNum? then v.value.n else 0
  }

  // ---------------------------------------------------------------------------
  // Teacher records: decoding and encoding

  /** `optString("middleName").takeIf { it.isNotBlank() }`. */
  function MiddleOrNull(m: string): (r: Option<string>)
    ensures r.None? <==> IsBlank(m)
    ensures r.Some? ==> r.value == m
  {
    if IsBlank(m) then None else Some(m)
  }

  /** `optJSONArray("subjectNames") ?: JSONArray()`. */
  function SubjectArray(o: map<string, Json>): seq<Json>
  {
    if "subjectNames" in o && o["subjectNames"].JArr? then o["subjectNames"].items else []
  }

  /** Each array element read with `optString`. */
  function ItemStrings(items: seq<Json>): (r: seq<string>)
    ensures |r| == |items|
    ensures forall j :: 0 <= j < |r| ==> r[j] == OptString(Some(items[j]))
  {
    if items == [] then [] else ItemStrings(items[..|items| - 1]) + [OptString(Some(items[|items| - 1]))]
  }

  function DecodeRecord(o: map<string, Json>): TeacherRecord
  {
    TeacherRecord(
      OptLong(Opt(o, "teacherId")),
      OptString(Opt(o, "firstName")),
      MiddleOrNull(OptString(Opt(o, "middleName"))),
      OptString(Opt(o, "lastName")),
      OptString(Opt(o, "email")),
      ItemStrings(SubjectArray(o)))
  }

  /** The records of a JSON array, skipping every element that is not an
      object. */
  function DecodeTeachers(items: seq<Json>): (r: seq<TeacherRecord>)
    ensures |r| <= |items|
  {
    if items == [] then []
    else
      var last := items[|items| - 1];
      DecodeTeachers(items[..|items| - 1]) + (if last.JObj? then [DecodeRecord(last.fields)] else [])
  }

  /** `loadTeachersInternal()` as a value: nothing when the text is missing,
      unparsable or not an array. */
  function TeachersOf(stored: Option<StoredText>): (r: seq<TeacherRecord>)
    ensures stored.None? || stored.value.Unparsable? || !stored.value.json.JArr? ==> r == []
  {
    if stored.None? || stored.value.Unparsable? || !stored.value.json.JArr? then []
    else DecodeTeachers(stored.value.json.items)
  }

  function StrItems(ss: seq<string>): (r: seq<Json>)
    ensures |r| == |ss|
    ensures forall j :: 0 <= j < |r| ==> r[j] == JStr(ss[j])
  {
    if ss == [] then [] else StrItems(ss[..|ss| - 1]) + [JStr(ss[|ss| - 1])]
  }

  /** The JSON object `saveTeachersInternal` writes for one record; an absent
      middle name is written as "". */
  function RecordJson(t: TeacherRecord): (j: Json)
    ensures j.JObj?
  {
    JObj(map[
      "teacherId" := JNum(t.teacherId),
      "firstName" := JStr(t.firstName),
      "middleName" := JStr(OrElse(t.middleName, "")),
      "lastName" := JStr(t.lastName),
      "email" := JStr(t.email),
      "subjectNames" := JArr(StrItems(t.subjectNames))])
  }

  function RecordsJson(list: seq<TeacherRecord>): (r: seq<Json>)
    ensures |r| == |list|
    ensures forall i :: 0 <= i < |r| ==> r[i] == RecordJson(list[i])
  {
    if list == [] then [] else RecordsJson(list[..|list| - 1]) + [RecordJson(list[|list| - 1])]
  }

  /** A record as it reads back: a blank middle name becomes absent. */
  function Normalized(t: TeacherRecord): (r: TeacherRecord)
    ensures r.teacherId == t.teacherId && r.firstName == t.firstName && r.lastName == t.lastName
    ensures r.email == t.email && r.subjectNames == t.subjectNames
    ensures r.middleName.None? <==> t.middleName.None? || IsBlank(t.middleName.value)
    ensures r.middleName.Some? ==> r.middleName == t.middleName
  {
    t.(middleName := if t.middleName.Some? && !IsBlank(t.middleName.value) then t.middleName else None)
  }

  function NormalizeAll(list: seq<TeacherRecord>): (r: seq<TeacherRecord>)
    ensures |r| == |list|
    ensures forall i :: 0 <= i < |r| ==> r[i] == Normalized(list[i])
  {
    if list == [] then [] else NormalizeAll(list[..|list| - 1]) + [Normalized(list[|list| - 1])]
  }

  lemma {:induction false} StrItemsRoundTrip(ss: seq<string>)
    ensures ItemStrings(StrItems(ss)) == ss
  {
  }

  /** Decoding an encoded record gives the record back, up to its middle
      name. */
  lemma RecordRoundTrip(t: TeacherRecord)
    ensures DecodeRecord(RecordJson(t).fields) == Normalized(t)
  {
    var o := RecordJson(t).fields;
    assert SubjectArray(o) == StrItems(t.subjectNames);
    StrItemsRoundTrip(t.subjectNames);
    if t.middleName.None? {
      assert IsBlank("");
    }
  }

  /** Encoding the list and decoding it again gives the same records in the
      same order, except that a missing or blank middle name comes back
      missing. */
  lemma {:induction false} TeachersRoundTrip(list: seq<TeacherRecord>)
    ensures TeachersOf(Some(Parsed(JArr(RecordsJson(list))))) == NormalizeAll(list)
  {
    ListRoundTrip(list);
  }

  lemma {:induction false} ListRoundTrip(list: seq<TeacherRecord>)
    ensures DecodeTeachers(RecordsJson(list)) == NormalizeAll(list)
  {
    if list != [] {
      var init := list[..|list| - 1];
      ListRoundTrip(init);
      RecordRoundTrip(list[|list| - 1]);
      assert RecordsJson(list)[..|list| - 1] == RecordsJson(init);
    }
  }

  /** Records read from storage are already normalised. */
  lemma {:induction false} DecodedNormalized(items: seq<Json>)
    ensures NormalizeAll(DecodeTeachers(items)) == DecodeTeachers(items)
  {
    if items != [] {
      var init := items[..|items| - 1];
      DecodedNormalized(init);
      var r := DecodeTeachers(items);
      assert NormalizeAll(r) == r by {
        forall i | 0 <= i < |r| ensures Normalized(r[i]) == r[i] {
          if i >= |DecodeTeachers(init)| {
            assert r[i] == DecodeRecord(items[|items| - 1].fields);
          } else {
            assert r[i] == DecodeTeachers(init)[i];
            assert Normalized(NormalizeAll(DecodeTeachers(init))[i]) == NormalizeAll(DecodeTeachers(init))[i];
          }
        }
      }
    }
  }

  // ---------------------------------------------------------------------------
  // Replacing or adding a record, finding one by id, the name order

  /** `indexOfFirst { it.teacherId == id }`, with `|list|` for -1. */
  function IndexOfId(list: seq<TeacherRecord>, id: int): (k: nat)
    ensures k <= |list|
    ensures k < |list| ==> list[k].teacherId == id
    ensures forall j :: 0 <= j < k ==> list[j].teacherId != id
  {
    if list == [] then 0
    else if list[0].teacherId == id then 0
    else
      var k := IndexOfId(list[1..], id);
      assert forall j :: 1 <= j < |list| ==> list[1..][j - 1] == list[j];
      1 + k
  }

  /** `saveTeacher` on the list: the first record with the same id is
      replaced in place, or the record is appended. */
  function Upsert(list: seq<TeacherRecord>, rec: TeacherRecord): (r: seq<TeacherRecord>)
    ensures |r| == |list| || |r| == |list| + 1
  {
    var k := IndexOfId(list, rec.teacherId);
    if k < |list| then list[k := rec] else list + [rec]
  }

  /** The list grows exactly when no record had the id; every record except
      the first with that id keeps its place. */
  lemma UpsertFrame(list: seq<TeacherRecord>, rec: TeacherRecord)
    ensures |Upsert(list, rec)| == |list| <==> exists i :: 0 <= i < |list| && list[i].teacherId == rec.teacherId
    ensures forall i :: 0 <= i < |list| && i != IndexOfId(list, rec.teacherId) ==> Upsert(list, rec)[i] == list[i]
    ensures forall i :: 0 <= i < |list| && list[i].teacherId != rec.teacherId ==> Upsert(list, rec)[i] == list[i]
  {
  }

  /** `firstOrNull { it.teacherId == id }`. */
  function FirstById(list: seq<TeacherRecord>, id: int): (r: Option<TeacherRecord>)
    ensures r.None? <==> forall i :: 0 <= i < |list| ==> list[i].teacherId != id
    ensures r.Some? ==> r.value in list && r.value.teacherId == id
  {
    var k := IndexOfId(list, id);
    if k < |list| then Some(list[k]) else None
  }

  /** After the upsert, looking the id up finds the new record. */
  lemma UpsertThenFind(list: seq<TeacherRecord>, rec: TeacherRecord)
    ensures FirstById(Upsert(list, rec), rec.teacherId) == Some(rec)
  {
    var k := IndexOfId(list, rec.teacherId);
    var r := Upsert(list, rec);
    assert r[k] == rec;
    assert forall j :: 0 <= j < k ==> r[j] == list[j];
  }

  lemma {:induction false} NormalizeUpsert(list: seq<TeacherRecord>, rec: TeacherRecord)
    ensures NormalizeAll(Upsert(list, rec)) == Upsert(NormalizeAll(list), Normalized(rec))
  {
    IndexOfIdUnique(NormalizeAll(list), rec.teacherId, IndexOfId(list, rec.teacherId));
  }

  /** The first index holding an id is the only index with both properties. */
  lemma IndexOfIdUnique(list: seq<TeacherRecord>, id: int, k: nat)
    requires k <= |list|
    requires k < |list| ==> list[k].teacherId == id
    requires forall j :: 0 <= j < k ==> list[j].teacherId != id
    ensures IndexOfId(list, id) == k
  {
  }

  /** Saving a record and reading the stored list back: the list as before
      with the record put in, its middle name normalised. */
  lemma SaveReadsBack(stored: Option<StoredText>, rec: TeacherRecord)
    ensures TeachersOf(Some(Parsed(JArr(RecordsJson(Upsert(TeachersOf(stored), rec))))))
      == Upsert(TeachersOf(stored), Normalized(rec))
  {
    var list := TeachersOf(stored);
    TeachersRoundTrip(Upsert(list, rec));
    NormalizeUpsert(list, rec);
    if stored.Some? && stored.value.Parsed? && stored.value.json.JArr? {
      DecodedNormalized(stored.value.json.items);
    }
  }

  /** `compareBy { it.lastName.lowercase() }.thenBy { it.firstName.lowercase() }`. */
  predicate NameLe(a: TeacherRecord, b: TeacherRecord)
  {
    || (Lower(a.lastName) != Lower(b.lastName) && LexLe(Lower(a.lastName), Lower(b.lastName)))
    || (Lower(a.lastName) == Lower(b.lastName) && LexLe(Lower(a.firstName), Lower(b.firstName)))
  }

  lemma NameLePreorder()
    ensures TotalPreorder(NameLe)
  {
    PairKeyPreorder(NameLe, (t: TeacherRecord) => Lower(t.lastName), (t: TeacherRecord) => Lower(t.firstName));
  }

  // ---------------------------------------------------------------------------
  // Subject assignments

  /** `loadSubjectAssignmentsInternal()` as a value: nothing when the text is
      missing, unparsable or not an object. */
  function AssignmentsOf(stored: Option<StoredText>): (r: map<string, int>)
    ensures stored.None? || stored.value.Unparsable? || !stored.value.json.JObj? ==> r == map[]
  {
    if stored.None? || stored.value.Unparsable? || !stored.value.json.JObj? then map[]
    else
      var f := stored.value.json.fields;
      map k | k in f :: OptLong(Some(f[k]))
  }

  function AssignmentsJson(m: map<string, int>): Json
  {
    JObj(map k | k in m :: JNum(m[k]))
  }

  /** Storing a map and reading it back gives the map. */
  lemma AssignmentsRoundTrip(m: map<string, int>)
    ensures AssignmentsOf(Some(Parsed(AssignmentsJson(m)))) == m
  {
  }

  // ---------------------------------------------------------------------------
  // The registry

  class AdminStorage {
    /** The stored `next_teacher_id` (absent: never stored). */
    var nextId: Option<int>
    /** The stored `teachers_json`. */
    var teachersText: Option<StoredText>
    /** The stored `subject_assignments_json`. */
    var assignmentsText: Option<StoredText>

    constructor (nextId: Option<int>, teachersText: Option<StoredText>, assignmentsText: Option<StoredText>)
      ensures this.nextId == nextId && this.teachersText == teachersText && this.assignmentsText == assignmentsText
    {
      this.nextId := nextId;
      this.teachersText := teachersText;
      this.assignmentsText := assignmentsText;
    }

    /** `nextTeacherId()`: the stored counter (1 when none is stored); the
        counter moves one up. */
    method NextTeacherId() returns (id: int)
      modifies this
      ensures id == OrElse(old(nextId), 1)
      ensures nextId == Some(WrapLong(id + 1))
      ensures teachersText == old(teachersText) && assignmentsText == old(assignmentsText)
    {
      id := OrElse(nextId, 1);
      nextId := Some(WrapLong(id + 1));
    }

    /** `loadTeachersInternal()`. */
    method LoadTeachersInternal() returns (out: seq<TeacherRecord>)
      ensures out == TeachersOf(teachersText)
    {
      if teachersText.None? || teachersText.value.Unparsable? || !teachersText.value.json.JArr? {
        return [];
      }
      var arr := teachersText.value.json.items;
      out := [];
      var i := 0;
      while i < |arr|
        invariant 0 <= i <= |arr|
        invariant out == DecodeTeachers(arr[..i])
      {
        assert arr[..i + 1][..i] == arr[..i];
        if !arr[i].JObj? {
          i := i + 1;
          continue;
        }
        var o := arr[i].fields;
        var subjArr := SubjectArray(o);
        var subjects: seq<string> := [];
        var j := 0;
        while j < |subjArr|
          invariant 0 <= j <= |subjArr|
          invariant subjects == ItemStrings(subjArr[..j])
        {
          assert subjArr[..j + 1][..j] == subjArr[..j];
          subjects := subjects + [OptString(Some(subjArr[j]))];
          j := j + 1;
        }
        assert subjArr[..j] == subjArr;
        out := out + [TeacherRecord(
          OptLong(Opt(o, "teacherId")),
          OptString(Opt(o, "firstName")),
          MiddleOrNull(OptString(Opt(o, "middleName"))),
          OptString(Opt(o, "lastName")),
          OptString(Opt(o, "email")),
          subjects)];
        i := i + 1;
      }
      assert arr[..i] == arr;
    }

    /** `saveTeacher(...)`: the stored list with the record put in place of
        the first one with its id, or appended. */
    method SaveTeacher(teacherId: int, firstName: string, middleName: Option<string>, lastName: string,
                       email: string, subjectNames: seq<string>)
      modifies this
      ensures teachersText == Some(Parsed(JArr(RecordsJson(Upsert(TeachersOf(old(teachersText)),
                TeacherRecord(teacherId, firstName, middleName, lastName, email, subjectNames))))))
      ensures nextId == old(nextId) && assignmentsText == old(assignmentsText)
    {
      var list := LoadTeachersInternal();
      var record := TeacherRecord(teacherId, firstName, middleName, lastName, email, subjectNames);
      var k := IndexOfId(list, teacherId);
      if k < |list| {
        list := list[k := record];
      } else {
        list := list + [record];
      }
      teachersText := Some(Parsed(JArr(RecordsJson(list))));
    }

    /** `getAllTeachers()`: the stored records, reordered by last name and
        then first name, both lower-cased. */
    method GetAllTeachers() returns (r: seq<TeacherRecord>)
      ensures multiset(r) == multiset(TeachersOf(teachersText))
      ensures SortedBy(r, NameLe)
    {
      var list := LoadTeachersInternal();
      r := SortBy(list, NameLe);
      NameLePreorder();
      SortBySorted(list, NameLe);
    }

    /** `getTeacherById(id)`: the first stored record with that id. */
    method GetTeacherById(teacherId: int) returns (r: Option<TeacherRecord>)
      ensures r == FirstById(TeachersOf(teachersText), teacherId)
    {
      var list := LoadTeachersInternal();
      r := FirstById(list, teacherId);
    }

    /** `loadSubjectAssignmentsInternal()`: every key of the stored object
        with its number. */
    method LoadSubjectAssignmentsInternal() returns (out: map<string, int>)
      ensures out == AssignmentsOf(assignmentsText)
    {
      if assignmentsText.None? || assignmentsText.value.Unparsable? || !assignmentsText.value.json.JObj? {
        return map[];
      }
      var f := assignmentsText.value.json.fields;
      out := map[];
      var keys := f.Keys;
      while keys != {}
        invariant keys <= f.Keys
        invariant out.Keys == f.Keys - keys
        invariant forall k :: k in out ==> out[k] == OptLong(Some(f[k]))
        decreases |keys|
      {
        var k :| k in keys;
        out := out[k := OptLong(Some(f[k]))];
        keys := keys - {k};
      }
    }

    /** `assignSubjectsToTeacher(id, subjects)`: each listed subject now maps
        to the teacher; every other subject keeps its assignment. */
    method AssignSubjectsToTeacher(teacherId: int, subjectNames: seq<string>)
      modifies this
      ensures forall s :: s in subjectNames ==>
        s in AssignmentsOf(assignmentsText) && AssignmentsOf(assignmentsText)[s] == teacherId
      ensures forall s :: s !in subjectNames ==>
        && (s in AssignmentsOf(assignmentsText) <==> s in AssignmentsOf(old(assignmentsText)))
        && (s in AssignmentsOf(assignmentsText) ==> AssignmentsOf(assignmentsText)[s] == AssignmentsOf(old(assignmentsText))[s])
      ensures nextId == old(nextId) && teachersText == old(teachersText)
    {
      var m0 := LoadSubjectAssignmentsInternal();
      var m := m0;
      var i := 0;
      while i < |subjectNames|
        invariant 0 <= i <= |subjectNames|
        invariant forall s :: s in subjectNames[..i] ==> s in m && m[s] == teacherId
        invariant forall s :: s !in subjectNames[..i] ==> (s in m <==> s in m0) && (s in m ==> m[s] == m0[s])
      {
        assert subjectNames[..i + 1] == subjectNames[..i] + [subjectNames[i]];
        m := m[subjectNames[i] := teacherId];
        i := i + 1;
      }
      assert subjectNames[..i] == subjectNames;
      assignmentsText := Some(Parsed(AssignmentsJson(m)));
      AssignmentsRoundTrip(m);
    }

    /** `getAssignedTeacherIdForSubject(subject)`. */
    method GetAssignedTeacherIdForSubject(subjectName: string) returns (r: Option<int>)
      ensures r.Some? <==> subjectName in AssignmentsOf(assignmentsText)
      ensures r.Some? ==> r.value == AssignmentsOf(assignmentsText)[subjectName]
    {
      var m := LoadSubjectAssignmentsInternal();
      r := if subjectName in m then Some(m[subjectName]) else None;
    }
  }

  /** Two ids in a row are consecutive (below the 64-bit bound). */
  method TwoIds(storage: AdminStorage) returns (first: int, second: int)
    modifies storage
    ensures first == OrElse(old(storage.nextId), 1)
    ensures second == WrapLong(first + 1)
    ensures Int64Min <= first < Int64Max ==> second == first + 1
  {
    first := storage.NextTeacherId();
    second := storage.NextTeacherId();
  }

  /** Saving a teacher and then looking its id up gives the saved record,
      with a blank middle name read back as absent. */
  method SaveThenGet(storage: AdminStorage, rec: TeacherRecord) returns (found: Option<TeacherRecord>)
    modifies storage
    ensures found == Some(Normalized(rec))
  {
    storage.SaveTeacher(rec.teacherId, rec.firstName, rec.middleName, rec.lastName, rec.email, rec.subjectNames);
    SaveReadsBack(old(storage.teachersText), rec);
    UpsertThenFind(TeachersOf(old(storage.teachersText)), Normalized(rec));
    found := storage.GetTeacherById(rec.teacherId);
  }
}
