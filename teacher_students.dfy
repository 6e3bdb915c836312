/**
 * The teacher's student list for a subject: one row per student profile that
 * lists the subject, named from the profile's name parts, ordered by name
 * ignoring case.
 */
module TeacherStudents {
  import opened Strings
  import opened Lists
  import opened DocStore
  import opened TaskModels

  /** A profile's display name: its non-blank first, middle and last names
      joined by single spaces, or "Student" when all are blank. */
  function ProfileName(d: Doc): (r: string)
    ensures !IsBlank(r)
  {
    var parts := [OrEmpty(GetString(d, "firstName")), OrEmpty(GetString(d, "middleName")), OrEmpty(GetString(d, "lastName"))];
    var r := NameOr(parts, "Student");
    assert "Student"[0] == 'S';
    r
  }

  /** The row a profile document becomes: its id, its name, its email (empty
      when missing), and the state DELIVERED. */
  function ProfileRow(e: DocEntry): (r: StudentRow)
    ensures r.uid == e.id && r.state == DELIVERED
    ensures r.email == OrEmpty(GetString(e.data, "email"))
    ensures r.fullName == ProfileName(e.data)
  {
    StudentRow(e.id, ProfileName(e.data), OrEmpty(GetString(e.data, "email")), DELIVERED)
  }

  /** Rows are ordered by their lower-cased full name. */
  predicate ByLowerName(a: StudentRow, b: StudentRow)
  {
    LexLe(Lower(a.fullName), Lower(b.fullName))
  }

  function LowerName(a: StudentRow): string { Lower(a.fullName) }

  lemma ByLowerNamePreorder()
    ensures TotalPreorder(ByLowerName)
  {
    LexKeyPreorder(ByLowerName, LowerName);
  }

  /** `whereArrayContains("subjects", subject)`. */
  predicate ListsSubject(e: DocEntry, subject: string)
  {
    GetList(e.data, "subjects").Some? && Str(subject) in GetList(e.data, "subjects").value
  }

  /** The profiles that list the subject, in their order. */
  function SubjectProfiles(profiles: seq<DocEntry>, subject: string): (r: seq<DocEntry>)
    ensures forall e :: e in r <==> e in profiles && ListsSubject(e, subject)
  {
    Select(profiles, e => ListsSubject(e, subject))
  }

  function ProfileRows(docs: seq<DocEntry>): (r: seq<StudentRow>)
    ensures |r| == |docs|
    ensures forall i :: 0 <= i < |docs| ==> r[i] == ProfileRow(docs[i])
  {
    seq(|docs|, i requires 0 <= i < |docs| => ProfileRow(docs[i]))
  }

  /** `getStudentsForSubject(subject)` over the profile collection: the rows of
      the profiles listing the subject, in name order, and exactly those. */
  function GetStudentsForSubject(profiles: seq<DocEntry>, subject: string): (r: seq<StudentRow>)
    ensures multiset(r) == multiset(ProfileRows(SubjectProfiles(profiles, subject)))
    ensures SortedBy(r, ByLowerName)
  {
    var rows := ProfileRows(SubjectProfiles(profiles, subject));
    ByLowerNamePreorder();
    SortBySorted(rows, ByLowerName);
    SortBy(rows, ByLowerName)
  }

  /** Every returned row comes from a profile that lists the subject. */
  lemma StudentsForSubjectSound(profiles: seq<DocEntry>, subject: string, x: StudentRow)
    requires x in GetStudentsForSubject(profiles, subject)
    ensures exists i :: 0 <= i < |profiles| && ListsSubject(profiles[i], subject) && x == ProfileRow(profiles[i])
  {
    var sel := SubjectProfiles(profiles, subject);
    SameMembers(GetStudentsForSubject(profiles, subject), ProfileRows(sel));
    var e := ProfileRowSource(sel, x);
    var i :| 0 <= i < |profiles| && profiles[i] == e;
  }

  lemma ProfileRowSource(docs: seq<DocEntry>, x: StudentRow) returns (e: DocEntry)
    requires x in ProfileRows(docs)
    ensures e in docs && x == ProfileRow(e)
  {
    var rows := ProfileRows(docs);
    var j :| 0 <= j < |rows| && rows[j] == x;
    e := docs[j];
  }

  /** Every profile that lists the subject gives a row. */
  lemma StudentsForSubjectComplete(profiles: seq<DocEntry>, subject: string, i: int)
    requires 0 <= i < |profiles| && ListsSubject(profiles[i], subject)
    ensures ProfileRow(profiles[i]) in GetStudentsForSubject(profiles, subject)
  {
    var sel := SubjectProfiles(profiles, subject);
    var rows := ProfileRows(sel);
    assert profiles[i] in sel;
    var j :| 0 <= j < |sel| && sel[j] == profiles[i];
    assert rows[j] in rows;
    SameMembers(GetStudentsForSubject(profiles, subject), rows);
  }
}
