/**
 * The student's subject repository: which subjects the signed-in student has
 * chosen (the `subjects` list of `studentProfiles/{uid}`), saving a new
 * choice, and the catalogue of subjects offered by the teachers, each with
 * the name of the first teacher listing it.
 *
 * The signed-in account's uid and email are parameters (`None`: nobody
 * signed in, or no email); the teacher-profile query result is a parameter
 * in the backend's order.
 */
module StudentSubjectRepo {
  import opened Strings
  import opened Lists
  import opened DocStore
  import opened TaskModels

  /** `StudentSubjectItem`. */
  datatype StudentSubjectItem = StudentSubjectItem(subjectName: string, teacherName: Option<string>)

  function ProfileKey(uid: string): DocKey
  {
    Top("studentProfiles", uid)
  }

  // ---------------------------------------------------------------------------
  // Reading a list of subjects

  /** `mapNotNull { it?.toString()?.trim() }.filter { it.isNotBlank() }`. */
  function CleanSubjects(items: seq<Value>): (r: seq<string>)
    ensures |r| <= |items|
  {
    if items == [] then []
    else
      var t := ValueText(items[0]);
      (if t.Some? && !IsBlank(Trim(t.value)) then [Trim(t.value)] else []) + CleanSubjects(items[1..])
  }

  /** Every subject read is trimmed and not blank. */
  lemma {:induction false} CleanSubjectsTrimmed(items: seq<Value>)
    ensures forall i :: 0 <= i < |CleanSubjects(items)| ==>
      !IsBlank(CleanSubjects(items)[i]) && Trim(CleanSubjects(items)[i]) == CleanSubjects(items)[i]
  {
    if items != [] {
      CleanSubjectsTrimmed(items[1..]);
      var t := ValueText(items[0]);
      if t.Some? {
        TrimIdempotent(t.value);
      }
    }
  }

  /** A subject is read exactly when some non-null entry trims to it and it
      is not blank. */
  lemma {:induction false} CleanSubjectsMembers(items: seq<Value>, x: string)
    ensures x in CleanSubjects(items) <==>
      !IsBlank(x) && exists i :: 0 <= i < |items| && ValueText(items[i]).Some? && Trim(ValueText(items[i]).value) == x
  {
    if items != [] {
      CleanSubjectsMembers(items[1..], x);
      if exists i :: 1 <= i < |items| && ValueText(items[i]).Some? && Trim(ValueText(items[i]).value) == x {
        var i :| 1 <= i < |items| && ValueText(items[i]).Some? && Trim(ValueText(items[i]).value) == x;
        assert items[1..][i - 1] == items[i];
      }
    }
  }

  /** Reading back a list of trimmed, non-blank strings gives that list. */
  lemma {:induction false} CleanStrValues(ss: seq<string>)
    requires forall i :: 0 <= i < |ss| ==> !IsBlank(ss[i]) && Trim(ss[i]) == ss[i]
    ensures CleanSubjects(StrValues(ss)) == ss
  {
    if ss != [] {
      CleanStrValues(ss[1..]);
      assert StrValues(ss)[1..] == StrValues(ss[1..]);
    }
  }

  // ---------------------------------------------------------------------------
  // getSelectedSubjects / saveSelectedSubjects

  /** `getSelectedSubjects()`: nothing without a signed-in student or a
      profile document, otherwise the cleaned `subjects` list. */
  function GetSelectedSubjects(store: Store, signedIn: Option<string>): (r: seq<string>)
    ensures signedIn.None? ==> r == []
    ensures signedIn.Some? && ProfileKey(signedIn.value) !in store ==> r == []
  {
    if signedIn.None? then []
    else
      var d := Lookup(store, ProfileKey(signedIn.value));
      if d.None? then []
      else CleanSubjects(OrElse(GetList(d.value, "subjects"), []))
  }

  /** The document `saveSelectedSubjects` writes. */
  function SelectionDoc(email: Option<string>, subjects: seq<string>): (d: Doc)
    ensures d.Keys == {"email", "subjects", "updatedAt"}
    ensures d["email"] == Str(Lower(Trim(OrEmpty(email))))
    ensures d["subjects"] == Arr(StrValues(Distinct(subjects)))
    ensures d["updatedAt"] == ServerTime
  {
    map["email" := Str(Lower(Trim(OrEmpty(email)))),
        "subjects" := Arr(StrValues(Distinct(subjects))),
        "updatedAt" := ServerTime]
  }

  /** `saveSelectedSubjects(subjects)`: without a signed-in student nothing is
      written; otherwise the profile document is replaced by the lower-cased
      email, the subjects without repetitions, and the commit time. */
  method SaveSelectedSubjects(db: Firestore, signedIn: Option<string>, email: Option<string>, subjects: seq<string>, now: int)
    modifies db
    ensures signedIn.None? ==> db.docs == old(db.docs)
    ensures signedIn.Some? ==>
      db.docs == old(db.docs)[ProfileKey(signedIn.value) := Resolve(SelectionDoc(email, subjects), now)]
  {
    if signedIn.None? {
      return;
    }
    var ok := db.Commit([SetDoc(ProfileKey(signedIn.value), SelectionDoc(email, subjects))], now);
  }

  /** Saving a choice of trimmed, non-blank subjects and reading it back gives
      the choice without its repetitions, in order of first occurrence. */
  lemma SavedSelectionReadsBack(store: Store, uid: string, email: Option<string>, subjects: seq<string>, now: int)
    requires forall i :: 0 <= i < |subjects| ==> !IsBlank(subjects[i]) && Trim(subjects[i]) == subjects[i]
    ensures GetSelectedSubjects(store[ProfileKey(uid) := Resolve(SelectionDoc(email, subjects), now)], Some(uid))
      == Distinct(subjects)
  {
    var d := SelectionDoc(email, subjects);
    SelectedFromDoc(store, uid, Resolve(d, now));
    ResolvedReads(d, now, "subjects");
    DistinctReadsBack(subjects);
  }

  lemma SelectedFromDoc(store: Store, uid: string, d: Doc)
    ensures GetSelectedSubjects(store[ProfileKey(uid) := d], Some(uid)) == CleanSubjects(OrElse(GetList(d, "subjects"), []))
  {
    assert Lookup(store[ProfileKey(uid) := d], ProfileKey(uid)) == Some(d);
  }

  lemma DistinctReadsBack(subjects: seq<string>)
    requires forall i :: 0 <= i < |subjects| ==> !IsBlank(subjects[i]) && Trim(subjects[i]) == subjects[i]
    ensures CleanSubjects(StrValues(Distinct(subjects))) == Distinct(subjects)
  {
    var ds := Distinct(subjects);
    forall i | 0 <= i < |ds| ensures !IsBlank(ds[i]) && Trim(ds[i]) == ds[i] {
      assert ds[i] in subjects;
    }
    CleanStrValues(ds);
  }

  /** Saving one student's choice leaves every other student's choice as it
      was. */
  lemma SaveKeepsOthers(store: Store, uid: string, d: Doc, other: string)
    requires other != uid
    ensures GetSelectedSubjects(store[ProfileKey(uid) := d], Some(other)) == GetSelectedSubjects(store, Some(other))
  {
    assert Lookup(store[ProfileKey(uid) := d], ProfileKey(other)) == Lookup(store, ProfileKey(other));
  }

  // ---------------------------------------------------------------------------
  // getAllSubjectsWithTeachers

  /** A teacher's display name: the non-blank name parts joined by spaces, or
      nothing when every part is blank or missing. */
  function TeacherNameOf(d: Doc): (r: Option<string>)
    ensures r.None? <==> IsBlank(OrEmpty(GetString(d, "firstName"))) && IsBlank(OrEmpty(GetString(d, "middleName")))
                         && IsBlank(OrEmpty(GetString(d, "lastName")))
    ensures r.Some? ==> !IsBlank(r.value)
  {
    var parts := [OrEmpty(GetString(d, "firstName")), OrEmpty(GetString(d, "middleName")), OrEmpty(GetString(d, "lastName"))];
    JoinedNameBlank(parts);
    assert (forall i :: 0 <= i < |parts| ==> IsBlank(parts[i])) <==> IsBlank(parts[0]) && IsBlank(parts[1]) && IsBlank(parts[2]);
    if IsBlank(JoinedName(parts)) then None else Some(JoinedName(parts))
  }

  /** The cleaned subjects a teacher profile lists. */
  function SubjectsOf(d: Doc): seq<string>
  {
    CleanSubjects(OrElse(GetList(d, "subjects"), []))
  }

  /** Each profile's subjects, in query order. */
  function SubjectLists(profiles: seq<DocEntry>): (r: seq<seq<string>>)
    ensures |r| == |profiles|
    ensures forall i :: 0 <= i < |r| ==> r[i] == SubjectsOf(profiles[i].data)
  {
    if profiles == [] then [] else [SubjectsOf(profiles[0].data)] + SubjectLists(profiles[1..])
  }

  /** Each profile's teacher name, in query order. */
  function TeacherNames(profiles: seq<DocEntry>): (r: seq<Option<string>>)
    ensures |r| == |profiles|
    ensures forall i :: 0 <= i < |r| ==> r[i] == TeacherNameOf(profiles[i].data)
  {
    if profiles == [] then [] else [TeacherNameOf(profiles[0].data)] + TeacherNames(profiles[1..])
  }

  /** The position of the first list holding subject `x` (`|lists|` when
      none does). */
  function FirstLister(lists: seq<seq<string>>, x: string): (k: nat)
    ensures k <= |lists|
    ensures k < |lists| ==> x in lists[k]
    ensures forall j :: 0 <= j < k ==> x !in lists[j]
  {
    if lists == [] then 0
    else if x in lists[0] then 0
    else
      var k := FirstLister(lists[1..], x);
      assert forall j :: 1 <= j < |lists| ==> lists[1..][j - 1] == lists[j];
      1 + k
  }

  /** `keys` holds, once each and with the name of the first teacher listing
      it, exactly the subjects of the first `i` lists. */
  ghost predicate CollectedUpTo(lists: seq<seq<string>>, teachers: seq<Option<string>>, i: nat,
                                keys: seq<string>, names: map<string, Option<string>>)
    requires |teachers| == |lists|
  {
    && NoDuplicates(keys)
    && (forall x :: x in names <==> x in keys)
    && (forall x :: x in keys <==> FirstLister(lists, x) < i)
    && (forall x :: x in names ==> FirstLister(lists, x) < |lists| && names[x] == teachers[FirstLister(lists, x)])
  }

  /** The linked map of the source after every profile is visited. */
  method CollectSubjects(lists: seq<seq<string>>, teachers: seq<Option<string>>)
    returns (keys: seq<string>, names: map<string, Option<string>>)
    requires |teachers| == |lists|
    ensures CollectedUpTo(lists, teachers, |lists|, keys, names)
  {
    keys, names := [], map[];
    var i := 0;
    while i < |lists|
      invariant 0 <= i <= |lists|
      invariant CollectedUpTo(lists, teachers, i, keys, names)
    {
      keys, names := AddProfile(lists, teachers, i, keys, names);
      i := i + 1;
    }
  }

  /** One profile's visit: each of its subjects not yet seen is added with
      this teacher's name. */
  method AddProfile(lists: seq<seq<string>>, teachers: seq<Option<string>>, i: nat,
                    keys0: seq<string>, names0: map<string, Option<string>>)
    returns (keys: seq<string>, names: map<string, Option<string>>)
    requires |teachers| == |lists| && i < |lists|
    requires CollectedUpTo(lists, teachers, i, keys0, names0)
    ensures CollectedUpTo(lists, teachers, i + 1, keys, names)
  {
    keys, names := keys0, names0;
    var subs := lists[i];
    var j := 0;
    while j < |subs|
      invariant 0 <= j <= |subs|
      invariant NoDuplicates(keys)
      invariant forall x :: x in names <==> x in keys
      invariant forall x :: x in keys <==> FirstLister(lists, x) < i || x in subs[..j]
      invariant forall x :: x in names ==> FirstLister(lists, x) < |lists| && names[x] == teachers[FirstLister(lists, x)]
    {
      var s := subs[j];
      assert subs[..j + 1] == subs[..j] + [s];
      if s !in names {
        assert FirstLister(lists, s) == i;
        keys := keys + [s];
        names := names[s := teachers[i]];
      }
      j := j + 1;
    }
    assert subs[..j] == subs;
  }

  /** Pairs each subject with its teacher's name. */
  function Items(keys: seq<string>, names: map<string, Option<string>>): (r: seq<StudentSubjectItem>)
    requires forall x :: x in keys ==> x in names
    ensures |r| == |keys|
    ensures forall i :: 0 <= i < |r| ==> r[i] == StudentSubjectItem(keys[i], names[keys[i]])
  {
    if keys == [] then [] else [StudentSubjectItem(keys[0], names[keys[0]])] + Items(keys[1..], names)
  }

  /** The subject names of a list of items, in order. */
  function SubjectNames(items: seq<StudentSubjectItem>): (r: seq<string>)
    ensures |r| == |items|
    ensures forall i :: 0 <= i < |r| ==> r[i] == items[i].subjectName
  {
    if items == [] then [] else [items[0].subjectName] + SubjectNames(items[1..])
  }

  /** `sortedBy { it.lowercase() }` compares the lower-cased subjects. */
  predicate LowerLe(a: string, b: string)
  {
    LexLe(Lower(a), Lower(b))
  }

  /** `getAllSubjectsWithTeachers()`: each subject some teacher lists, once,
      ordered by its lower-cased name, paired with the name of the first
      teacher in the query result listing it. */
  method GetAllSubjectsWithTeachers(profiles: seq<DocEntry>) returns (items: seq<StudentSubjectItem>)
    ensures forall x :: x in SubjectNames(items) <==> FirstLister(SubjectLists(profiles), x) < |profiles|
    ensures NoDuplicates(SubjectNames(items))
    ensures SortedBy(SubjectNames(items), LowerLe)
    ensures forall i :: 0 <= i < |items| ==>
      FirstLister(SubjectLists(profiles), items[i].subjectName) < |profiles|
      && items[i].teacherName == TeacherNames(profiles)[FirstLister(SubjectLists(profiles), items[i].subjectName)]
  {
    var lists, teachers := SubjectLists(profiles), TeacherNames(profiles);
    var keys, names := CollectSubjects(lists, teachers);
    var sorted := SortBy(keys, LowerLe);
    SortedByLower(keys);
    CatalogueFacts(lists, teachers, keys, names, sorted);
    items := Items(sorted, names);
    assert SubjectNames(items) == sorted;
  }

  lemma SortedByLower(keys: seq<string>)
    ensures SortedBy(SortBy(keys, LowerLe), LowerLe)
  {
    LexKeyPreorder(LowerLe, Lower);
    SortBySorted(keys, LowerLe);
  }

  /** Reordering the collected subjects keeps each of them once. */
  lemma CatalogueFacts(lists: seq<seq<string>>, teachers: seq<Option<string>>,
                       keys: seq<string>, names: map<string, Option<string>>, sorted: seq<string>)
    requires |teachers| == |lists|
    requires CollectedUpTo(lists, teachers, |lists|, keys, names)
    requires multiset(sorted) == multiset(keys)
    ensures forall x :: x in sorted <==> FirstLister(lists, x) < |lists|
    ensures forall x :: x in sorted ==> x in names
    ensures NoDuplicates(sorted)
  {
    SameMembers(keys, sorted);
    PermutationNoDuplicates(keys, sorted);
  }
}
