/**
 * The administrator's "teachers index" form: one entry per teacher email,
 * holding the names and the subjects typed as a comma-separated list.
 * Each field is a string the form keeps; the Save button normalises them,
 * checks them and replaces the entry stored under the email.
 */
module TeacherIndex {
  import opened Strings
  import opened DocStore
  import CreateTeacher

  // ---------------------------------------------------------------------------
  // The subject list

  /** Each piece trimmed, the blank ones dropped, the order kept. */
  function CleanPieces(pieces: seq<string>): (r: seq<string>)
    ensures |r| <= |pieces|
    ensures forall i :: 0 <= i < |r| ==> !IsBlank(r[i]) && Trim(r[i]) == r[i]
  {
    if pieces == [] then []
    else
      var t := Trim(pieces[0]);
      TrimIdempotent(pieces[0]);
      BlankTrimmed(pieces[0]);
      (if IsBlank(t) then [] else [t]) + CleanPieces(pieces[1..])
  }

  /** `split(",").map { it.trim() }.filter { it.isNotBlank() }`. */
  function ParseSubjects(raw: string): (r: seq<string>)
    ensures forall i :: 0 <= i < |r| ==> !IsBlank(r[i]) && Trim(r[i]) == r[i]
  {
    CleanPieces(Split(raw, ','))
  }

  /** A subject is listed exactly when some piece trims to it and it is not
      blank. */
  lemma {:induction false} CleanPiecesMembers(pieces: seq<string>, x: string)
    ensures x in CleanPieces(pieces) <==> !IsBlank(x) && exists i :: 0 <= i < |pieces| && Trim(pieces[i]) == x
  {
    if pieces != [] {
      CleanPiecesMembers(pieces[1..], x);
      BlankTrimmed(pieces[0]);
      if exists i :: 0 <= i < |pieces| && Trim(pieces[i]) == x {
        var i :| 0 <= i < |pieces| && Trim(pieces[i]) == x;
        if i > 0 {
          assert pieces[1..][i - 1] == pieces[i];
        }
      }
      if exists i :: 0 <= i < |pieces[1..]| && Trim(pieces[1..][i]) == x {
        var i :| 0 <= i < |pieces[1..]| && Trim(pieces[1..][i]) == x;
        assert pieces[i + 1] == pieces[1..][i];
      }
    }
  }

  /** Cleaning keeps the order: the pieces of two texts come out one after
      the other. */
  lemma {:induction false} CleanPiecesAppend(a: seq<string>, b: seq<string>)
    ensures CleanPieces(a + b) == CleanPieces(a) + CleanPieces(b)
  {
    if a != [] {
      assert (a + b)[0] == a[0];
      assert (a + b)[1..] == a[1..] + b;
      CleanPiecesAppend(a[1..], b);
    } else {
      assert a + b == b;
    }
  }

  /** Splitting at the first separator of a text whose first part has none. */
  lemma {:induction false} SplitAfter(a: string, sep: char, b: string)
    requires Excludes(a, sep)
    ensures Split(a + [sep] + b, sep) == [a] + Split(b, sep)
  {
    if a == [] {
      assert a + [sep] + b == [sep] + b;
      assert ([sep] + b)[1..] == b;
    } else {
      var s := a + [sep] + b;
      assert s[0] == a[0] && s[1..] == a[1..] + [sep] + b;
      SplitAfter(a[1..], sep, b);
      assert [a[0]] + a[1..] == a;
    }
  }

  /** A text without the separator is one piece. */
  lemma {:induction false} SplitNone(a: string, sep: char)
    requires Excludes(a, sep)
    ensures Split(a, sep) == [a]
  {
    if a != [] {
      SplitNone(a[1..], sep);
      assert [a[0]] + a[1..] == a;
    }
  }

  /** Joining pieces without the separator and splitting again gives back the
      pieces. */
  lemma {:induction false} JoinSplit(parts: seq<string>, sep: char)
    requires parts != []
    requires forall i :: 0 <= i < |parts| ==> Excludes(parts[i], sep)
    ensures Split(Join(parts, [sep]), sep) == parts
  {
    if |parts| == 1 {
      SplitNone(parts[0], sep);
    } else {
      JoinSplit(parts[1..], sep);
      SplitAfter(parts[0], sep, Join(parts[1..], [sep]));
      assert [parts[0]] + parts[1..] == parts;
    }
  }

  /** Each string with a space in front. */
  function Spaced(parts: seq<string>): (r: seq<string>)
    ensures |r| == |parts|
    ensures forall i :: 0 <= i < |parts| ==> r[i] == " " + parts[i]
  {
    if parts == [] then [] else [" " + parts[0]] + Spaced(parts[1..])
  }

  /** Joining with ", " is joining with "," after putting a space in front
      of every part but the first. */
  lemma {:induction false} JoinSpaced(parts: seq<string>)
    requires parts != []
    ensures " " + Join(parts, ", ") == Join(Spaced(parts), ",")
  {
    if |parts| > 1 {
      JoinSpaced(parts[1..]);
      assert Spaced(parts)[1..] == Spaced(parts[1..]);
    }
  }

  /** A space in front of a trimmed, non-blank text is trimmed away. */
  lemma TrimSpaced(x: string)
    requires !IsBlank(x) && Trim(x) == x
    ensures Trim(" " + x) == x
  {
    BlankIffTrimEmpty(x);
    assert (" " + x)[1..] == x;
    assert TrimStart(" " + x) == TrimStart(x) == x;
    TrimOfNonWhitespaceEnds(x);
  }

  lemma {:induction false} CleanSpaced(parts: seq<string>)
    requires forall i :: 0 <= i < |parts| ==> !IsBlank(parts[i]) && Trim(parts[i]) == parts[i]
    ensures CleanPieces(Spaced(parts)) == parts
  {
    if parts != [] {
      TrimSpaced(parts[0]);
      CleanSpaced(parts[1..]);
      assert Spaced(parts)[1..] == Spaced(parts[1..]);
    }
  }

  /** The pieces a ", "-joined list splits into at its commas. */
  function CommaPieces(subjects: seq<string>): (r: seq<string>)
    requires subjects != []
    ensures |r| == |subjects| && r[0] == subjects[0]
    ensures forall i :: 1 <= i < |r| ==> r[i] == " " + subjects[i]
  {
    [subjects[0]] + Spaced(subjects[1..])
  }

  lemma JoinedAsPieces(subjects: seq<string>)
    requires subjects != []
    ensures Join(subjects, ", ") == Join(CommaPieces(subjects), ",")
  {
    var pieces := CommaPieces(subjects);
    if |subjects| > 1 {
      var rest := Join(subjects[1..], ", ");
      JoinSpaced(subjects[1..]);
      assert pieces[1..] == Spaced(subjects[1..]);
      assert Join(pieces, ",") == subjects[0] + "," + (" " + rest);
      assert Join(subjects, ", ") == subjects[0] + ", " + rest;
      assert ", " == "," + " ";
    }
  }

  lemma CommaPiecesExclude(subjects: seq<string>)
    requires subjects != []
    requires forall i :: 0 <= i < |subjects| ==> Excludes(subjects[i], ',')
    ensures forall i :: 0 <= i < |subjects| ==> Excludes(CommaPieces(subjects)[i], ',')
  {
    forall i | 1 <= i < |subjects| ensures Excludes(CommaPieces(subjects)[i], ',') {
      var x := subjects[i];
      assert CommaPieces(subjects)[i] == " " + x;
      assert forall j :: 1 <= j < |x| + 1 ==> (" " + x)[j] == x[j - 1];
    }
  }

  lemma CleanCommaPieces(subjects: seq<string>)
    requires subjects != []
    requires forall i :: 0 <= i < |subjects| ==> !IsBlank(subjects[i]) && Trim(subjects[i]) == subjects[i]
    ensures CleanPieces(CommaPieces(subjects)) == subjects
  {
    CleanPiecesAppend([subjects[0]], Spaced(subjects[1..]));
    CleanSpaced(subjects[1..]);
    assert CleanPieces([subjects[0]]) == [subjects[0]] + CleanPieces([]);
    assert [subjects[0]] + subjects[1..] == subjects;
  }

  /** Subjects written out as the greeting lists them, joined by ", ", are
      read back as the same list, as long as no subject is blank, none has
      whitespace around it and none holds a comma. */
  lemma ParseJoined(subjects: seq<string>)
    requires forall i :: 0 <= i < |subjects| ==> !IsBlank(subjects[i]) && Trim(subjects[i]) == subjects[i]
    requires forall i :: 0 <= i < |subjects| ==> Excludes(subjects[i], ',')
    ensures ParseSubjects(Join(subjects, ", ")) == subjects
  {
    if subjects == [] {
      assert Split([], ',') == [[]];
      assert IsBlank(Trim([]));
      assert CleanPieces([[]]) == [] + CleanPieces([]);
    } else {
      JoinedAsPieces(subjects);
      CommaPiecesExclude(subjects);
      JoinSplit(CommaPieces(subjects), ',');
      CleanCommaPieces(subjects);
    }
  }

  // ---------------------------------------------------------------------------
  // Saving an entry

  const FillAll := "Fill email, first, last, subjects"
  const SaveFailed := "Failed"

  /** What the Save button writes: the email trimmed and lower-cased, the
      names trimmed, the parsed subjects. */
  datatype IndexEntry = IndexEntry(email: string, firstName: string, middleName: string, lastName: string,
                                   subjects: seq<string>)

  function Normalize(email: string, firstName: string, middleName: string, lastName: string, subjectsRaw: string)
    : (e: IndexEntry)
    ensures e.email == Lower(Trim(email)) && e.subjects == ParseSubjects(subjectsRaw)
    ensures e.firstName == Trim(firstName) && e.middleName == Trim(middleName) && e.lastName == Trim(lastName)
    ensures Trim(e.firstName) == e.firstName && Trim(e.middleName) == e.middleName && Trim(e.lastName) == e.lastName
  {
    TrimIdempotent(firstName);
    TrimIdempotent(middleName);
    TrimIdempotent(lastName);
    IndexEntry(Lower(Trim(email)), Trim(firstName), Trim(middleName), Trim(lastName), ParseSubjects(subjectsRaw))
  }

  /** The Save button's check: nothing to write unless the email, the first
      and last names are filled and at least one subject is listed. */
  function Validate(e: IndexEntry): (r: Option<string>)
    ensures r.None? <==> !IsBlank(e.email) && !IsBlank(e.firstName) && !IsBlank(e.lastName) && e.subjects != []
    ensures r.Some? ==> r.value == FillAll
  {
    if IsBlank(e.email) || IsBlank(e.firstName) || IsBlank(e.lastName) || e.subjects == [] then Some(FillAll)
    else None
  }

  /** The stored entry: a blank middle name is stored as null. */
  function EntryDoc(e: IndexEntry): Doc
  {
    map["email" := Str(e.email),
        "firstName" := Str(e.firstName),
        "middleName" := (if IsBlank(e.middleName) then Null else Str(e.middleName)),
        "lastName" := Str(e.lastName),
        "subjects" := Arr(StrValues(e.subjects))]
  }

  /** `set(...)` on `teachersIndex/{email}`: the entry replaces whatever was
      stored under the email. */
  method WriteEntry(db: Firestore, e: IndexEntry, now: int)
    modifies db
    ensures db.docs == old(db.docs)[CreateTeacher.IndexKey(e.email) := EntryDoc(e)]
  {
    assert Resolve(EntryDoc(e), now) == EntryDoc(e);
    var ok := db.Commit([SetDoc(CreateTeacher.IndexKey(e.email), EntryDoc(e))], now);
  }

  /** The written entry reads back the normalised email, the names (a blank
      middle name as null) and the subjects.  Being a replacement, it no
      longer holds the uid or the id a creation merged into the same entry. */
  lemma EntryReadsBack(store: Store, e: IndexEntry)
    ensures var d := store[CreateTeacher.IndexKey(e.email) := EntryDoc(e)][CreateTeacher.IndexKey(e.email)];
      && GetString(d, "email") == Some(e.email)
      && GetString(d, "firstName") == Some(e.firstName)
      && GetString(d, "lastName") == Some(e.lastName)
      && GetString(d, "middleName") == (if IsBlank(e.middleName) then None else Some(e.middleName))
      && GetList(d, "subjects") == Some(StrValues(e.subjects))
      && GetString(d, "uid") == None && GetLong(d, "teacherId") == None
  {
    var d := EntryDoc(e);
    assert "uid" !in d && "teacherId" !in d;
  }

  class TeacherIndexForm {
    var email: string
    var firstName: string
    var middleName: string
    var lastName: string
    var subjectsRaw: string
    var loading: bool

    constructor ()
      ensures email == "" && firstName == "" && middleName == "" && lastName == "" && subjectsRaw == ""
      ensures !loading
    {
      email, firstName, middleName, lastName, subjectsRaw := "", "", "", "", "";
      loading := false;
    }

    /** The Save button, up to the write: a refused form only shows its
        message; an accepted one starts loading and hands over the
        normalised entry.  The fields are not touched. */
    method Submit() returns (toast: Option<string>, entry: Option<IndexEntry>)
      modifies this
      ensures var e := Normalize(old(email), old(firstName), old(middleName), old(lastName), old(subjectsRaw));
        && toast == Validate(e)
        && (toast.Some? ==> entry.None? && loading == old(loading))
        && (toast.None? ==> entry == Some(e) && loading)
      ensures email == old(email) && firstName == old(firstName) && middleName == old(middleName)
      ensures lastName == old(lastName) && subjectsRaw == old(subjectsRaw)
    {
      var e := Normalize(email, firstName, middleName, lastName, subjectsRaw);
      toast := Validate(e);
      if toast.Some? {
        entry := None;
        return;
      }
      entry := Some(e);
      loading := true;
    }

    /** The entry was stored: the form says where and empties all five
        fields. */
    method Saved(e: IndexEntry) returns (toast: string)
      modifies this
      ensures toast == "Saved teachersIndex/" + e.email
      ensures email == "" && firstName == "" && middleName == "" && lastName == "" && subjectsRaw == ""
      ensures !loading
    {
      toast := "Saved teachersIndex/" + e.email;
      email, firstName, middleName, lastName, subjectsRaw := "", "", "", "", "";
      loading := false;
    }

    /** Storing failed: the message is shown and the fields stay. */
    method Failed(message: Option<string>) returns (toast: string)
      modifies this
      ensures toast == OrElse(message, SaveFailed)
      ensures email == old(email) && firstName == old(firstName) && middleName == old(middleName)
      ensures lastName == old(lastName) && subjectsRaw == old(subjectsRaw)
      ensures !loading
    {
      toast := OrElse(message, SaveFailed);
      loading := false;
    }
  }

  /** One press of Save from start to end (`succeeds`: whether the write
      reached the database): a refused form writes nothing; an accepted one
      stores the normalised entry under the normalised email and empties the
      form. */
  method SaveRound(form: TeacherIndexForm, db: Firestore, succeeds: bool, message: Option<string>, now: int)
    returns (toast: string)
    modifies form, db
    ensures var e := Normalize(old(form.email), old(form.firstName), old(form.middleName), old(form.lastName),
                               old(form.subjectsRaw));
      && (Validate(e).Some? ==> toast == FillAll && db.docs == old(db.docs))
      && (Validate(e).None? && succeeds ==>
            db.docs == old(db.docs)[CreateTeacher.IndexKey(e.email) := EntryDoc(e)]
            && form.email == "" && form.subjectsRaw == "" && !form.loading)
      && (Validate(e).None? && !succeeds ==> db.docs == old(db.docs) && !form.loading)
  {
    var t, entry := form.Submit();
    if t.Some? {
      return t.value;
    }
    if succeeds {
      WriteEntry(db, entry.value, now);
      toast := form.Saved(entry.value);
    } else {
      toast := form.Failed(message);
    }
  }
}
