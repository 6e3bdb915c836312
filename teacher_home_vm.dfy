/**
 * The teacher's home screen state: finding the signed-in teacher in the
 * administrator's registry by email and greeting them with their name and
 * subjects.  The signed-in email is a parameter (`None`: nobody signed in);
 * the registry's records arrive as a parameter of the completion step.
 */
module TeacherHomeVm {
  import opened Strings
  import opened TaskModels

  /** `TeacherHomeUiState`. */
  datatype HomeState = HomeState(isLoading: bool, greeting: string, error: string)

  const InitialHome := HomeState(true, "", "")
  const NoUser := "No user logged in"
  const NotFound := "Teacher record not found"

  /** An email as the screen compares it: trimmed and lower-cased. */
  function NormalEmail(e: string): string
  {
    Lower(Trim(e))
  }

  /** The position of the first record whose normalised email is `email`
      (`|teachers|` when none is). */
  function EmailIndex(teachers: seq<TeacherRecord>, email: string): (k: nat)
    ensures k <= |teachers|
    ensures k < |teachers| ==> NormalEmail(teachers[k].email) == email
    ensures forall j :: 0 <= j < k ==> NormalEmail(teachers[j].email) != email
  {
    if teachers == [] then 0
    else if NormalEmail(teachers[0].email) == email then 0
    else
      var k := EmailIndex(teachers[1..], email);
      assert forall j :: 1 <= j < |teachers| ==> teachers[1..][j - 1] == teachers[j];
      1 + k
  }

  /** `firstOrNull { it.email.trim().lowercase() == email }`. */
  function FindTeacher(teachers: seq<TeacherRecord>, email: string): (r: Option<TeacherRecord>)
    ensures r.None? <==> forall i :: 0 <= i < |teachers| ==> NormalEmail(teachers[i].email) != email
    ensures r.Some? ==> r.value == teachers[EmailIndex(teachers, email)]
  {
    var k := EmailIndex(teachers, email);
    if k < |teachers| then Some(teachers[k]) else None
  }

  /** The optional middle part: a space and the middle name, when it is not
      blank. */
  function MiddlePart(middle: Option<string>): string
  {
    if middle.Some? && !IsBlank(middle.value) then " " + middle.value else ""
  }

  /** The `buildString` of the screen, trimmed: no whitespace at either end,
      and the visible characters of the first, middle and last names, in
      that order (a blank middle name has none). */
  function FullName(t: TeacherRecord): (r: string)
    ensures r == [] || (!IsWhitespace(r[0]) && !IsWhitespace(r[|r| - 1]))
    ensures Filter(r, Visible) == Filter(t.firstName + OrElse(t.middleName, "") + t.lastName, Visible)
  {
    BuiltNameVisible(t);
    TrimKeepsVisible(t.firstName + MiddlePart(t.middleName) + " " + t.lastName);
    Trim(t.firstName + MiddlePart(t.middleName) + " " + t.lastName)
  }

  /** The spaces `buildString` adds are invisible, and so is a blank middle
      name it leaves out. */
  lemma BuiltNameVisible(t: TeacherRecord)
    ensures Filter(t.firstName + MiddlePart(t.middleName) + " " + t.lastName, Visible)
      == Filter(t.firstName + OrElse(t.middleName, "") + t.lastName, Visible)
  {
    var f, m, l := t.firstName, OrElse(t.middleName, ""), t.lastName;
    var mp := MiddlePart(t.middleName);
    FilterAppend(f + mp + " ", l, Visible);
    FilterAppend(f + mp, " ", Visible);
    FilterAppend(f, mp, Visible);
    FilterAppend(f + m, l, Visible);
    FilterAppend(f, m, Visible);
    SpaceInvisible();
    MiddlePartVisible(t.middleName);
  }

  lemma SpaceInvisible()
    ensures Filter(" ", Visible) == []
  {
    FilterEmpty(" ", Visible);
  }

  /** The middle part has the visible characters of the middle name: its
      leading space has none, and neither has a blank name it leaves out. */
  lemma MiddlePartVisible(middle: Option<string>)
    ensures Filter(MiddlePart(middle), Visible) == Filter(OrElse(middle, ""), Visible)
  {
    var m := OrElse(middle, "");
    if middle.Some? && !IsBlank(m) {
      FilterAppend(" ", m, Visible);
      SpaceInvisible();
    } else {
      FilterEmpty(m, Visible);
      assert MiddlePart(middle) == "";
    }
  }

  /** With trimmed first and last names that are not blank and a trimmed
      middle name, the full name is the non-blank parts joined by single
      spaces. */
  lemma FullNameJoined(t: TeacherRecord)
    requires !IsBlank(t.firstName) && Trim(t.firstName) == t.firstName
    requires !IsBlank(t.lastName) && Trim(t.lastName) == t.lastName
    requires t.middleName.Some? ==> Trim(t.middleName.value) == t.middleName.value
    ensures FullName(t) == JoinedName([t.firstName, OrElse(t.middleName, ""), t.lastName])
  {
    var raw := t.firstName + MiddlePart(t.middleName) + " " + t.lastName;
    BuiltJoined(t.firstName, t.middleName, t.lastName);
    TrimOfNonWhitespaceEnds(raw);
    assert FullName(t) == Trim(raw);
  }

  /** What `buildString` appends, for non-blank first and last names without
      edge whitespace, is the non-blank parts joined by single spaces, and
      starts and ends with a visible character. */
  lemma BuiltJoined(f: string, middle: Option<string>, l: string)
    requires !IsBlank(f) && Trim(f) == f && !IsBlank(l) && Trim(l) == l
    ensures var raw := f + MiddlePart(middle) + " " + l;
      && raw == JoinedName([f, OrElse(middle, ""), l])
      && !IsWhitespace(raw[0]) && !IsWhitespace(raw[|raw| - 1])
  {
    var m := OrElse(middle, "");
    var mp := MiddlePart(middle);
    var raw := f + mp + " " + l;
    NonBlankThree(f, m, l);
    if IsBlank(m) {
      assert mp == "";
      assert raw == f + " " + l;
      JoinTwo(f, l);
    } else {
      assert mp == " " + m;
      assert raw == f + " " + m + " " + l;
      JoinThree(f, m, l);
    }
    EdgesOfTrimmed(f);
    EdgesOfTrimmed(l);
    assert raw[0] == f[0];
    assert raw[|raw| - 1] == l[|l| - 1];
  }

  /** A trimmed text that is not blank starts and ends with a visible
      character. */
  lemma EdgesOfTrimmed(s: string)
    requires !IsBlank(s) && Trim(s) == s
    ensures s != [] && !IsWhitespace(s[0]) && !IsWhitespace(s[|s| - 1])
  {
  }

  /** With non-blank first and last parts, the blank test drops only a blank
      middle part. */
  lemma NonBlankThree(f: string, m: string, l: string)
    requires !IsBlank(f) && !IsBlank(l)
    ensures NonBlankParts([f, m, l]) == if IsBlank(m) then [f, l] else [f, m, l]
  {
    assert [l][1..] == [];
    assert NonBlankParts([l]) == [l] + NonBlankParts([]);
    assert [m, l][1..] == [l];
    assert NonBlankParts([m, l]) == (if IsBlank(m) then [] else [m]) + [l];
    assert [f, m, l][1..] == [m, l];
    assert NonBlankParts([f, m, l]) == [f] + NonBlankParts([m, l]);
  }

  lemma JoinTwo(a: string, b: string)
    ensures Join([a, b], " ") == a + " " + b
  {
    assert [a, b][1..] == [b];
  }

  lemma JoinThree(a: string, b: string, c: string)
    ensures Join([a, b, c], " ") == a + " " + b + " " + c
  {
    assert [a, b, c][1..] == [b, c];
    JoinTwo(b, c);
  }

  const GreetingStart := "Hello Mr. "
  const GreetingMiddle := ", our "
  const GreetingEnd := " teacher"

  /** `"Hello Mr. $fullName, our $subjects teacher"`. */
  function Greeting(t: TeacherRecord): (g: string)
    ensures StartsWith(g, GreetingStart) && EndsWith(g, GreetingEnd)
    ensures |g| == |GreetingStart| + |FullName(t)| + |GreetingMiddle| + |Join(t.subjectNames, ", ")| + |GreetingEnd|
  {
    var g := GreetingStart + FullName(t) + GreetingMiddle + Join(t.subjectNames, ", ") + GreetingEnd;
    assert g[..|GreetingStart|] == GreetingStart;
    assert g[|g| - |GreetingEnd|..] == GreetingEnd;
    g
  }

  /** The greeting can be taken apart again: after its fixed opening comes
      the full name, then ", our ", the subjects joined by ", ", and the
      closing " teacher". */
  lemma GreetingParts(t: TeacherRecord)
    ensures StartsWith(Greeting(t), GreetingStart) && EndsWith(Greeting(t), GreetingEnd)
    ensures Greeting(t)[|GreetingStart|..|GreetingStart| + |FullName(t)|] == FullName(t)
    ensures Greeting(t)[|GreetingStart| + |FullName(t)|..|GreetingStart| + |FullName(t)| + |GreetingMiddle|] == GreetingMiddle
    ensures Greeting(t)[|GreetingStart| + |FullName(t)| + |GreetingMiddle|..|Greeting(t)| - |GreetingEnd|]
      == Join(t.subjectNames, ", ")
  {
    FiveParts(GreetingStart, FullName(t), GreetingMiddle, Join(t.subjectNames, ", "), GreetingEnd);
  }

  /** Each of five glued pieces can be cut out again. */
  lemma FiveParts(a: string, b: string, c: string, d: string, e: string)
    ensures var g := a + b + c + d + e;
      && g[..|a|] == a && g[|a|..|a| + |b|] == b && g[|a| + |b|..|a| + |b| + |c|] == c
      && g[|a| + |b| + |c|..|g| - |e|] == d && g[|g| - |e|..] == e
  {
    var g := a + b + c + d + e;
    assert g[..|a|] == a;
    assert g[|g| - |e|..] == e;
    assert g[|a|..|a| + |b|] == b;
    assert g[|a| + |b|..|a| + |b| + |c|] == c;
    assert g[|a| + |b| + |c|..|g| - |e|] == d;
  }

  class TeacherHomeViewModel {
    var ui: HomeState

    constructor ()
      ensures ui == InitialHome
    {
      ui := InitialHome;
    }

    /** `loadTeacher()`, up to the registry read: without a usable signed-in
        email the screen shows "No user logged in" and nothing is looked up;
        otherwise it loads and the normalised email is looked up. */
    method LoadTeacher(email: Option<string>) returns (lookup: Option<string>)
      modifies this
      ensures lookup.None? <==> email.None? || IsBlank(NormalEmail(email.value))
      ensures lookup.None? ==> ui == HomeState(false, "", NoUser)
      ensures lookup.Some? ==> lookup.value == NormalEmail(email.value) && ui == HomeState(true, "", "")
    {
      if email.None? || IsBlank(NormalEmail(email.value)) {
        ui := HomeState(false, "", NoUser);
        return None;
      }
      ui := HomeState(true, "", "");
      lookup := Some(NormalEmail(email.value));
    }

    /** The registry's records arrived: the first record with the email is
        greeted, or "Teacher record not found" is shown. */
    method TeachersLoaded(email: string, teachers: seq<TeacherRecord>)
      modifies this
      ensures FindTeacher(teachers, email).None? ==> ui == HomeState(false, "", NotFound)
      ensures FindTeacher(teachers, email).Some? ==>
        ui == HomeState(false, Greeting(FindTeacher(teachers, email).value), "")
    {
      var teacher := FindTeacher(teachers, email);
      if teacher.None? {
        ui := HomeState(false, "", NotFound);
        return;
      }
      ui := HomeState(false, Greeting(teacher.value), "");
    }
  }

  /** A whole load: it always ends not loading, and a greeting is shown
      exactly when someone is signed in and a record with their email
      exists. */
  method LoadRound(vm: TeacherHomeViewModel, email: Option<string>, teachers: seq<TeacherRecord>)
    modifies vm
    ensures !vm.ui.isLoading
    ensures vm.ui.error == "" <==>
      email.Some? && !IsBlank(NormalEmail(email.value)) && FindTeacher(teachers, NormalEmail(email.value)).Some?
    ensures vm.ui.error == "" ==> StartsWith(vm.ui.greeting, GreetingStart)
  {
    var lookup := vm.LoadTeacher(email);
    if lookup.Some? {
      vm.TeachersLoaded(lookup.value, teachers);
      if vm.ui.error == "" {
        GreetingParts(FindTeacher(teachers, lookup.value).value);
      }
    }
  }
}
