/**
 * The administrator's "create teacher" screen: the sign-in email derived
 * from the first name and a numeric id, the generated password, the id
 * counter kept in the database, the validation of the form, and the three
 * documents written for a new teacher.  The random draws of the password
 * generator, the account's uid and the failure message of a backend call
 * are parameters.
 */
module CreateTeacher {
  import opened Strings
  import opened Lists
  import opened DocStore
  import AdminRegistry

  const TeacherDomain := "@tc.edu.lb"

  /** The subjects the form offers, in display order. */
  const OfferedSubjects := ["Math", "English", "Arabic", "French", "History", "Geography",
                            "Physics", "Chemistry", "Biology", "Computer Science", "Civics", "Philosophy"]

  // ---------------------------------------------------------------------------
  // The sign-in email

  /** A character the email keeps from a first name. */
  predicate IsSlugChar(c: char) { IsLower(c) || IsDigit(c) }

  const DefaultSlug := "teacher"

  /** `sanitizeFirstName(s)`: the trimmed, lower-cased name without anything
      but `a`-`z` and `0`-`9`, or "teacher" when nothing is left. */
  function SanitizeFirstName(s: string): (r: string)
    ensures r != []
    ensures forall i :: 0 <= i < |r| ==> IsSlugChar(r[i])
    ensures Filter(Lower(Trim(s)), IsSlugChar) == [] ==> r == DefaultSlug
    ensures Filter(Lower(Trim(s)), IsSlugChar) != [] ==> r == Filter(Lower(Trim(s)), IsSlugChar)
  {
    var cleaned := Filter(Lower(Trim(s)), IsSlugChar);
    assert cleaned != [] ==> !IsWhitespace(cleaned[0]);
    if IsBlank(cleaned) then DefaultSlug else cleaned
  }

  /** A name that is already a non-empty run of `a`-`z` and `0`-`9` is kept
      as it is. */
  lemma SanitizeOfSlug(s: string)
    requires s != [] && forall i :: 0 <= i < |s| ==> IsSlugChar(s[i])
    ensures SanitizeFirstName(s) == s
  {
    TrimOfNonWhitespaceEnds(s);
    assert Lower(s) == s;
    FilterKeepsAll(s, IsSlugChar);
  }

  lemma SanitizeIdempotent(s: string)
    ensures SanitizeFirstName(SanitizeFirstName(s)) == SanitizeFirstName(s)
  {
    SanitizeOfSlug(SanitizeFirstName(s));
  }

  /** The email of a new teacher: the cleaned first name, the id, the
      school's domain. */
  function TeacherEmail(firstName: string, id: int): (e: string)
    ensures |e| == |SanitizeFirstName(firstName)| + |IntText(id)| + |TeacherDomain|
    ensures StartsWith(e, SanitizeFirstName(firstName))
    ensures EndsWith(e, TeacherDomain)
    ensures e[|SanitizeFirstName(firstName)|..|e| - |TeacherDomain|] == IntText(id)
  {
    var s, t := SanitizeFirstName(firstName), IntText(id);
    var e := s + t + TeacherDomain;
    assert e[..|s|] == s;
    assert e[|e| - |TeacherDomain|..] == TeacherDomain;
    assert e[|s|..|e| - |TeacherDomain|] == t;
    e
  }

  lemma IntTextStart(n: int)
    ensures IntText(n) != [] && (IntText(n)[0] == '-' <==> n < 0)
    ensures IntText(n)[0] == '-' || IsDigit(IntText(n)[0])
  {
    if n >= 0 {
      assert IsDigit(NatText(n)[0]);
    }
  }

  lemma IntTextInjective(a: int, b: int)
    requires IntText(a) == IntText(b)
    ensures a == b
  {
    IntTextStart(a);
    IntTextStart(b);
    if a < 0 {
      var u, v := NatText(-a), NatText(-b);
      assert IntText(a) == "-" + u && IntText(b) == "-" + v;
      assert u == IntText(a)[1..];
      assert v == IntText(b)[1..];
      NatTextValue(-a);
      NatTextValue(-b);
    } else {
      assert IntText(a) == NatText(a) && IntText(b) == NatText(b);
      NatTextValue(a);
      NatTextValue(b);
    }
  }

  /** Two words of lower-case letters, each followed by a text starting with
      something else, can only be glued together in one way. */
  lemma GluedApart(s1: string, t1: string, s2: string, t2: string)
    requires forall i :: 0 <= i < |s1| ==> IsLower(s1[i])
    requires forall i :: 0 <= i < |s2| ==> IsLower(s2[i])
    requires t1 != [] && !IsLower(t1[0]) && t2 != [] && !IsLower(t2[0])
    requires s1 + t1 == s2 + t2
    ensures s1 == s2 && t1 == t2
  {
    var w := s1 + t1;
    assert forall i :: 0 <= i < |s1| ==> IsLower(w[i]);
    assert forall i :: 0 <= i < |s2| ==> IsLower(w[i]) by {
      assert w == s2 + t2;
    }
    assert !IsLower(w[|s1|]);
    assert !IsLower(w[|s2|]) by {
      assert w == s2 + t2;
    }
    assert |s1| == |s2|;
    assert s1 == (s1 + t1)[..|s1|] == (s2 + t2)[..|s2|] == s2;
    assert t1 == (s1 + t1)[|s1|..] == (s2 + t2)[|s2|..] == t2;
  }

  /** When the cleaned first names hold no digit, the email tells the name
      and the id apart: equal emails mean equal cleaned names and equal ids. */
  lemma EmailDeterminesTeacher(n1: string, id1: int, n2: string, id2: int)
    requires forall i :: 0 <= i < |SanitizeFirstName(n1)| ==> !IsDigit(SanitizeFirstName(n1)[i])
    requires forall i :: 0 <= i < |SanitizeFirstName(n2)| ==> !IsDigit(SanitizeFirstName(n2)[i])
    requires TeacherEmail(n1, id1) == TeacherEmail(n2, id2)
    ensures SanitizeFirstName(n1) == SanitizeFirstName(n2) && id1 == id2
  {
    var s1, s2 := SanitizeFirstName(n1), SanitizeFirstName(n2);
    var t1, t2 := IntText(id1), IntText(id2);
    var e := TeacherEmail(n1, id1);
    assert e == s1 + t1 + TeacherDomain;
    assert e == s2 + t2 + TeacherDomain;
    assert s1 + t1 == e[..|e| - |TeacherDomain|] == s2 + t2;
    IntTextStart(id1);
    IntTextStart(id2);
    GluedApart(s1, t1, s2, t2);
    IntTextInjective(id1, id2);
  }

  /** A first name ending in digits can make two teachers share an email:
      "ab1" with id 23 and "ab12" with id 3 both get "ab123@tc.edu.lb". */
  lemma EmailCollision()
    ensures TeacherEmail("ab1", 23) == TeacherEmail("ab12", 3)
  {
    CollidingParts();
    assert TeacherEmail("ab1", 23) == "ab1" + "23" + TeacherDomain;
    assert TeacherEmail("ab12", 3) == "ab12" + "3" + TeacherDomain;
    assert "ab1" + "23" == "ab12" + "3";
  }

  lemma CollidingParts()
    ensures SanitizeFirstName("ab1") == "ab1" && SanitizeFirstName("ab12") == "ab12"
    ensures IntText(23) == "23" && IntText(3) == "3"
  {
    SlugName("ab1");
    SlugName("ab12");
    CollidingIds();
  }

  lemma SlugName(s: string)
    requires s == "ab1" || s == "ab12"
    ensures SanitizeFirstName(s) == s
  {
    assert IsSlugChar('a') && IsSlugChar('b') && IsSlugChar('1') && IsSlugChar('2');
    assert forall i :: 0 <= i < |s| ==> s[i] in "ab12";
    SanitizeOfSlug(s);
  }

  lemma CollidingIds()
    ensures IntText(23) == "23" && IntText(3) == "3"
  {
    assert 23 / 10 == 2 && 23 % 10 == 3;
    assert NatText(23) == NatText(2) + [DigitChar(3)];
    assert DigitChar(2) == '2' && DigitChar(3) == '3';
  }

  // ---------------------------------------------------------------------------
  // The password

  const PasswordAlphabet := "ABCDEFGHJKLMNPQRSTUVWXYZabcdefghijkmnopqrstuvwxyz23456789!@#$%&*_-"
  const PasswordLength := 10

  /** `genPassword(len)`: `len` characters, each picked from the alphabet by
      one random draw (`draws[i]` is the `i`-th `nextInt(alphabet.length)`). */
  method GenPassword(len: nat, draws: seq<int>) returns (p: string)
    requires |draws| == len
    requires forall i :: 0 <= i < len ==> 0 <= draws[i] < |PasswordAlphabet|
    ensures |p| == len
    ensures forall i :: 0 <= i < len ==> p[i] == PasswordAlphabet[draws[i]]
    ensures forall i :: 0 <= i < len ==> p[i] in PasswordAlphabet
  {
    p := "";
    var i := 0;
    while i < len
      invariant 0 <= i <= len
      invariant |p| == i
      invariant forall j :: 0 <= j < i ==> p[j] == PasswordAlphabet[draws[j]]
    {
      p := p + [PasswordAlphabet[draws[i]]];
      i := i + 1;
    }
  }

  /** The positions in `alphabet` of the characters of `p`: the draws that
      make `p`. */
  function DrawsFor(alphabet: string, p: string): (d: seq<int>)
    requires forall i :: 0 <= i < |p| ==> p[i] in alphabet
    ensures |d| == |p|
    ensures forall i :: 0 <= i < |p| ==> 0 <= d[i] < |alphabet| && alphabet[d[i]] == p[i]
  {
    if p == [] then [] else [FirstIndex(alphabet, p[0])] + DrawsFor(alphabet, p[1..])
  }

  /** Every string over the alphabet can come out of the generator: the
      draws `DrawsFor(PasswordAlphabet, p)` produce exactly `p`. */
  method EveryPasswordPossible(p: string) returns (q: string)
    requires forall i :: 0 <= i < |p| ==> p[i] in PasswordAlphabet
    ensures q == p
  {
    q := GenPassword(|p|, DrawsFor(PasswordAlphabet, p));
  }

  // ---------------------------------------------------------------------------
  // The id counter

  const CounterKey := Top("counters", "teachers")

  /** What the counter transaction reads: the stored "next", 1 when the
      document or the field is missing or null, and a failure when the field
      holds something that is not a number. */
  function StoredCounter(store: Store): (r: Option<int>)
    ensures CounterKey !in store || "next" !in store[CounterKey] ==> r == Some(1)
    ensures CounterKey in store && "next" in store[CounterKey] ==>
      (r.Some? <==> store[CounterKey]["next"].Null? || store[CounterKey]["next"].Int?)
    ensures r.Some? && CounterKey in store && "next" in store[CounterKey] && store[CounterKey]["next"].Int? ==>
      r.value == store[CounterKey]["next"].n
  {
    if CounterKey !in store || "next" !in store[CounterKey] then Some(1)
    else match store[CounterKey]["next"]
      case Null => Some(1)
      case Int(n) => Some(n)
      case _ => None
  }

  /** The counter document after the transaction stored `current + 1`. */
  function CounterDoc(store: Store, current: int): Doc
  {
    (if CounterKey in store then store[CounterKey] else map[]) + map["next" := Int(AdminRegistry.WrapLong(current + 1))]
  }

  /** After the transaction the counter reads one more (as a 64-bit long)
      and no other document has changed. */
  lemma CounterAdvances(store: Store, current: int)
    ensures StoredCounter(store[CounterKey := CounterDoc(store, current)]) == Some(AdminRegistry.WrapLong(current + 1))
    ensures forall k :: k != CounterKey ==> Lookup(store[CounterKey := CounterDoc(store, current)], k) == Lookup(store, k)
  {
    assert CounterDoc(store, current)["next"] == Int(AdminRegistry.WrapLong(current + 1));
  }

  /** `nextTeacherId()`: returns the counter's value and merges value + 1
      into the counter document; when the value cannot be read as a number
      the transaction fails and nothing is written. */
  method NextTeacherId(db: Firestore, now: int) returns (id: Option<int>)
    modifies db
    ensures id == StoredCounter(old(db.docs))
    ensures id.None? ==> db.docs == old(db.docs)
    ensures id.Some? ==> db.docs == old(db.docs)[CounterKey := CounterDoc(old(db.docs), id.value)]
  {
    id := StoredCounter(db.docs);
    if id.None? {
      return;
    }
    var next := map["next" := Int(AdminRegistry.WrapLong(id.value + 1))];
    assert Resolve(next, now) == next;
    var ok := db.Commit([MergeDoc(CounterKey, next)], now);
  }

  /** Two creations in a row get consecutive ids. */
  method TwoTeacherIds(db: Firestore, now: int) returns (first: Option<int>, second: Option<int>)
    modifies db
    ensures first.Some? ==> second == Some(AdminRegistry.WrapLong(first.value + 1))
    ensures first.Some? && AdminRegistry.Int64Min <= first.value < AdminRegistry.Int64Max ==> second == Some(first.value + 1)
  {
    first := NextTeacherId(db, now);
    if first.Some? {
      CounterAdvances(old(db.docs), first.value);
    }
    second := NextTeacherId(db, now);
  }

  // ---------------------------------------------------------------------------
  // The form

  const NamesRequired := "First and last name are required"
  const SubjectRequired := "Select at least 1 subject"
  const CreateFailed := "Failed to create teacher"

  /** What an accepted form hands to the creation: trimmed names and the
      chosen subjects. */
  datatype NewTeacher = NewTeacher(firstName: string, middleName: string, lastName: string, subjects: seq<string>)

  /** The checks of the Create button, in order: both names, then a subject. */
  function ValidateForm(firstName: string, lastName: string, selected: set<string>): (r: Option<string>)
    ensures r.None? <==> !IsBlank(firstName) && !IsBlank(lastName) && selected != {}
    ensures r == Some(NamesRequired) <==> IsBlank(firstName) || IsBlank(lastName)
    ensures r == Some(SubjectRequired) <==> !IsBlank(firstName) && !IsBlank(lastName) && selected == {}
  {
    BlankIffTrimEmpty(firstName);
    BlankIffTrimEmpty(lastName);
    BlankIffTrimEmpty(Trim(firstName));
    BlankIffTrimEmpty(Trim(lastName));
    TrimIdempotent(firstName);
    TrimIdempotent(lastName);
    if IsBlank(Trim(firstName)) || IsBlank(Trim(lastName)) then Some(NamesRequired)
    else if selected == {} then Some(SubjectRequired)
    else None
  }

  // ---------------------------------------------------------------------------
  // The documents of a new teacher

  const TeacherRole := "teacher"

  function UserKey(uid: string): DocKey { Top("users", uid) }
  function ProfileKey(uid: string): DocKey { Top("teacherProfiles", uid) }
  function IndexKey(email: string): DocKey { Top("teachersIndex", email) }

  function UserDoc(email: string): Doc
  {
    map["role" := Str(TeacherRole), "email" := Str(email), "createdAt" := ServerTime]
  }

  /** The profile: a blank middle name is stored as null. */
  function ProfileDoc(id: int, t: NewTeacher, email: string): Doc
  {
    map["teacherId" := Int(id),
        "firstName" := Str(t.firstName),
        "middleName" := (if IsBlank(t.middleName) then Null else Str(t.middleName)),
        "lastName" := Str(t.lastName),
        "email" := Str(email),
        "subjects" := Arr(StrValues(t.subjects)),
        "createdAt" := ServerTime]
  }

  function IndexDoc(uid: string, email: string, id: int): Doc
  {
    map["uid" := Str(uid), "email" := Str(email), "teacherId" := Int(id), "createdAt" := ServerTime]
  }

  function CreationWrites(uid: string, id: int, email: string, t: NewTeacher): (ws: seq<Write>)
    ensures |ws| == 3 && forall i :: 0 <= i < 3 ==> ws[i].MergeDoc?
  {
    [MergeDoc(UserKey(uid), UserDoc(email)),
     MergeDoc(ProfileKey(uid), ProfileDoc(id, t, email)),
     MergeDoc(IndexKey(email), IndexDoc(uid, email, id))]
  }

  /** The store after the three merges. */
  function CreatedStore(store: Store, uid: string, id: int, email: string, t: NewTeacher, now: int): Store
  {
    BatchWithoutUpdatesCommits(store, CreationWrites(uid, id, email, t), now);
    ApplyBatch(store, CreationWrites(uid, id, email, t), now).value
  }

  /** A document after a merge of `d` into it. */
  function MergedDoc(before: Option<Doc>, d: Doc, now: int): Doc
  {
    (if before.Some? then before.value else map[]) + Resolve(d, now)
  }

  /** A field written by a merge reads back as written. */
  lemma MergedField(before: Option<Doc>, d: Doc, now: int, f: string)
    requires f in d && d[f] != ServerTime
    ensures f in MergedDoc(before, d, now) && MergedDoc(before, d, now)[f] == d[f]
  {
  }

  /** Each of the three documents ends as its merge makes it. */
  lemma CreatedDocs(store: Store, uid: string, id: int, email: string, t: NewTeacher, now: int)
    ensures Lookup(CreatedStore(store, uid, id, email, t, now), UserKey(uid))
      == Some(MergedDoc(Lookup(store, UserKey(uid)), UserDoc(email), now))
    ensures Lookup(CreatedStore(store, uid, id, email, t, now), ProfileKey(uid))
      == Some(MergedDoc(Lookup(store, ProfileKey(uid)), ProfileDoc(id, t, email), now))
    ensures Lookup(CreatedStore(store, uid, id, email, t, now), IndexKey(email))
      == Some(MergedDoc(Lookup(store, IndexKey(email)), IndexDoc(uid, email, id), now))
  {
    var ws := CreationWrites(uid, id, email, t);
    BatchWithoutUpdatesCommits(store, ws, now);
    BatchSingleWrite(store, ws, now, 0);
    BatchSingleWrite(store, ws, now, 1);
    BatchSingleWrite(store, ws, now, 2);
  }

  /** The merged profile reads back the id, the names (a blank middle name
      as null), the email and the subjects. */
  lemma ProfileDocReads(before: Option<Doc>, id: int, t: NewTeacher, email: string, now: int)
    ensures var m := MergedDoc(before, ProfileDoc(id, t, email), now);
      && GetLong(m, "teacherId") == Some(id)
      && GetString(m, "firstName") == Some(t.firstName)
      && GetString(m, "lastName") == Some(t.lastName)
      && GetString(m, "middleName") == (if IsBlank(t.middleName) then None else Some(t.middleName))
      && GetString(m, "email") == Some(email)
      && GetList(m, "subjects") == Some(StrValues(t.subjects))
  {
    var p := ProfileDoc(id, t, email);
    MergedField(before, p, now, "teacherId");
    MergedField(before, p, now, "firstName");
    MergedField(before, p, now, "lastName");
    MergedField(before, p, now, "middleName");
    MergedField(before, p, now, "email");
    MergedField(before, p, now, "subjects");
  }

  /** After a creation the profile holds the id, the names (a blank middle
      name as null), the email and the subjects. */
  lemma CreatedProfileReadsBack(store: Store, uid: string, id: int, email: string, t: NewTeacher, now: int)
    ensures var r := CreatedStore(store, uid, id, email, t, now);
      && ProfileKey(uid) in r
      && GetLong(r[ProfileKey(uid)], "teacherId") == Some(id)
      && GetString(r[ProfileKey(uid)], "firstName") == Some(t.firstName)
      && GetString(r[ProfileKey(uid)], "lastName") == Some(t.lastName)
      && GetString(r[ProfileKey(uid)], "middleName") == (if IsBlank(t.middleName) then None else Some(t.middleName))
      && GetString(r[ProfileKey(uid)], "email") == Some(email)
      && GetList(r[ProfileKey(uid)], "subjects") == Some(StrValues(t.subjects))
  {
    CreatedDocs(store, uid, id, email, t, now);
    ProfileDocReads(Lookup(store, ProfileKey(uid)), id, t, email, now);
  }

  /** The merged account document reads back the role and the email; the
      merged index entry the uid, the email and the id. */
  lemma AccountDocsRead(user: Option<Doc>, index: Option<Doc>, uid: string, id: int, email: string, now: int)
    ensures var m := MergedDoc(user, UserDoc(email), now);
      GetString(m, "role") == Some(TeacherRole) && GetString(m, "email") == Some(email)
    ensures var m := MergedDoc(index, IndexDoc(uid, email, id), now);
      GetString(m, "uid") == Some(uid) && GetString(m, "email") == Some(email) && GetLong(m, "teacherId") == Some(id)
  {
    MergedField(user, UserDoc(email), now, "role");
    MergedField(user, UserDoc(email), now, "email");
    MergedField(index, IndexDoc(uid, email, id), now, "uid");
    MergedField(index, IndexDoc(uid, email, id), now, "email");
    MergedField(index, IndexDoc(uid, email, id), now, "teacherId");
  }

  /** After a creation the account is a teacher with its email, and the
      index maps the email to the uid and the id. */
  lemma CreatedAccountReadsBack(store: Store, uid: string, id: int, email: string, t: NewTeacher, now: int)
    ensures var r := CreatedStore(store, uid, id, email, t, now);
      && UserKey(uid) in r && IndexKey(email) in r
      && GetString(r[UserKey(uid)], "role") == Some(TeacherRole)
      && GetString(r[UserKey(uid)], "email") == Some(email)
      && GetString(r[IndexKey(email)], "uid") == Some(uid)
      && GetString(r[IndexKey(email)], "email") == Some(email)
      && GetLong(r[IndexKey(email)], "teacherId") == Some(id)
  {
    CreatedDocs(store, uid, id, email, t, now);
    AccountDocsRead(Lookup(store, UserKey(uid)), Lookup(store, IndexKey(email)), uid, id, email, now);
  }

  /** A creation changes no document but its three. */
  lemma CreatedFrame(store: Store, uid: string, id: int, email: string, t: NewTeacher, now: int, k: DocKey)
    requires k != UserKey(uid) && k != ProfileKey(uid) && k != IndexKey(email)
    ensures Lookup(CreatedStore(store, uid, id, email, t, now), k) == Lookup(store, k)
  {
    var ws := CreationWrites(uid, id, email, t);
    BatchWithoutUpdatesCommits(store, ws, now);
    BatchFrame(store, ws, now, k);
  }

  /** Three writes one after the other end where the batch of the three
      ends. */
  lemma ThreeMerges(store: Store, ws: seq<Write>, now: int)
    requires |ws| == 3 && ws[0].MergeDoc? && ws[1].MergeDoc? && ws[2].MergeDoc?
    ensures var s1 := ApplyWrite(store, ws[0], now).value;
            var s2 := ApplyWrite(s1, ws[1], now).value;
            ApplyBatch(store, ws, now) == ApplyWrite(s2, ws[2], now)
  {
    var s1 := ApplyWrite(store, ws[0], now).value;
    var s2 := ApplyWrite(s1, ws[1], now).value;
    var s3 := ApplyWrite(s2, ws[2], now).value;
    assert ws[1..][0] == ws[1] && ws[1..][1..][0] == ws[2] && ws[1..][1..][1..] == [];
    assert ApplyBatch(s2, ws[1..][1..], now) == ApplyBatch(s3, [], now) == Some(s3);
    assert ApplyBatch(s1, ws[1..], now) == ApplyBatch(s2, ws[1..][1..], now);
  }

  /** How one creation ended. */
  datatype Outcome =
    | Created(id: int, email: string, password: string)
    | Failed(message: string)

  /** The body of the Create button's coroutine: take an id, derive the
      email and password, create the account (`uid`: the new account, `None`
      when creating it failed), then merge the three documents.  A failure
      of the counter writes nothing; a failed account creation has already
      used up its id. */
  method CreateAccount(db: Firestore, t: NewTeacher, uid: Option<string>, failure: Option<string>,
                       draws: seq<int>, now: int) returns (out: Outcome)
    requires |draws| == PasswordLength
    requires forall i :: 0 <= i < PasswordLength ==> 0 <= draws[i] < |PasswordAlphabet|
    modifies db
    ensures StoredCounter(old(db.docs)).None? ==>
      out == Failed(OrElse(failure, CreateFailed)) && db.docs == old(db.docs)
    ensures StoredCounter(old(db.docs)).Some? && uid.None? ==>
      var id := StoredCounter(old(db.docs)).value;
      out == Failed(OrElse(failure, CreateFailed)) && db.docs == old(db.docs)[CounterKey := CounterDoc(old(db.docs), id)]
    ensures StoredCounter(old(db.docs)).Some? && uid.Some? ==>
      var id := StoredCounter(old(db.docs)).value;
      var email := TeacherEmail(t.firstName, id);
      && out.Created? && out.id == id && out.email == email
      && |out.password| == PasswordLength
      && (forall i :: 0 <= i < PasswordLength ==> out.password[i] == PasswordAlphabet[draws[i]])
      && db.docs == CreatedStore(old(db.docs)[CounterKey := CounterDoc(old(db.docs), id)], uid.value, id, email, t, now)
  {
    var id := NextTeacherId(db, now);
    if id.None? {
      return Failed(OrElse(failure, CreateFailed));
    }
    var email := TeacherEmail(t.firstName, id.value);
    var pass := GenPassword(PasswordLength, draws);
    if uid.None? {
      return Failed(OrElse(failure, CreateFailed));
    }
    ghost var before := db.docs;
    var ws := CreationWrites(uid.value, id.value, email, t);
    var ok := db.Commit([ws[0]], now);
    ok := db.Commit([ws[1]], now);
    ok := db.Commit([ws[2]], now);
    ThreeMerges(before, ws, now);
    out := Created(id.value, email, pass);
  }

  class CreateTeacherForm {
    var firstName: string
    var middleName: string
    var lastName: string
    var selected: set<string>
    var loading: bool
    var showDialog: bool
    var createdId: int
    var createdEmail: string
    var createdPass: string

    constructor ()
      ensures firstName == "" && middleName == "" && lastName == "" && selected == {}
      ensures !loading && !showDialog && createdId == 0 && createdEmail == "" && createdPass == ""
    {
      firstName, middleName, lastName := "", "", "";
      selected := {};
      loading, showDialog := false, false;
      createdId, createdEmail, createdPass := 0, "", "";
    }

    /** Clicking a subject's row or its checkbox. */
    method ToggleSubject(subject: string)
      modifies this
      ensures selected == Toggled(old(selected), subject)
      ensures firstName == old(firstName) && middleName == old(middleName) && lastName == old(lastName)
      ensures loading == old(loading) && showDialog == old(showDialog)
      ensures createdId == old(createdId) && createdEmail == old(createdEmail) && createdPass == old(createdPass)
    {
      selected := Toggled(selected, subject);
    }

    /** The Create button, up to the coroutine: a refused form only shows its
        message; an accepted one starts loading and hands over the trimmed
        names and each chosen subject once. */
    method Submit() returns (toast: Option<string>, request: Option<NewTeacher>)
      modifies this
      ensures toast == ValidateForm(old(firstName), old(lastName), old(selected))
      ensures toast.Some? ==> request.None? && loading == old(loading)
      ensures toast.None? ==> request.Some? && loading
      ensures toast.None? ==>
        && request.value.firstName == Trim(old(firstName))
        && request.value.middleName == Trim(old(middleName))
        && request.value.lastName == Trim(old(lastName))
        && NoDuplicates(request.value.subjects)
        && (forall x :: x in request.value.subjects <==> x in old(selected))
      ensures firstName == old(firstName) && middleName == old(middleName) && lastName == old(lastName)
      ensures selected == old(selected) && showDialog == old(showDialog)
      ensures createdId == old(createdId) && createdEmail == old(createdEmail) && createdPass == old(createdPass)
    {
      var chosen := ListOf(selected);
      toast := ValidateForm(firstName, lastName, selected);
      if toast.Some? {
        request := None;
        return;
      }
      request := Some(NewTeacher(Trim(firstName), Trim(middleName), Trim(lastName), chosen));
      loading := true;
    }

    /** The coroutine ended: a creation shows its id, email and password and
        empties the form; a failure shows its message and keeps the form.
        Loading ends either way. */
    method Finished(out: Outcome) returns (toast: Option<string>)
      modifies this
      ensures !loading
      ensures out.Failed? ==> toast == Some(out.message)
      ensures out.Failed? ==>
        && firstName == old(firstName) && middleName == old(middleName) && lastName == old(lastName)
        && selected == old(selected) && showDialog == old(showDialog)
        && createdId == old(createdId) && createdEmail == old(createdEmail) && createdPass == old(createdPass)
      ensures out.Created? ==>
        && toast.None? && showDialog
        && createdId == out.id && createdEmail == out.email && createdPass == out.password
        && firstName == "" && middleName == "" && lastName == "" && selected == {}
    {
      if out.Failed? {
        toast := Some(out.message);
      } else {
        toast := None;
        createdId, createdEmail, createdPass := out.id, out.email, out.password;
        showDialog := true;
        firstName, middleName, lastName := "", "", "";
        selected := {};
      }
      loading := false;
    }
  }

  /** One press of Create from start to end: a refused form writes nothing;
      an accepted one with a readable counter and a created account leaves a
      teacher profile holding the trimmed first name, and an emptied form. */
  method CreateRound(form: CreateTeacherForm, db: Firestore, uid: Option<string>, failure: Option<string>,
                     draws: seq<int>, now: int) returns (toast: Option<string>)
    requires |draws| == PasswordLength
    requires forall i :: 0 <= i < PasswordLength ==> 0 <= draws[i] < |PasswordAlphabet|
    modifies form, db
    ensures ValidateForm(old(form.firstName), old(form.lastName), old(form.selected)).Some? ==>
      db.docs == old(db.docs) && toast == ValidateForm(old(form.firstName), old(form.lastName), old(form.selected))
    ensures ValidateForm(old(form.firstName), old(form.lastName), old(form.selected)).None? ==> !form.loading
    ensures (ValidateForm(old(form.firstName), old(form.lastName), old(form.selected)).None?
             && StoredCounter(old(db.docs)).Some? && uid.Some?) ==>
      && toast.None? && form.firstName == "" && form.selected == {}
      && ProfileKey(uid.value) in db.docs
      && GetString(db.docs[ProfileKey(uid.value)], "firstName") == Some(Trim(old(form.firstName)))
  {
    var request;
    toast, request := form.Submit();
    if toast.Some? {
      return;
    }
    var out := CreateAccount(db, request.value, uid, failure, draws, now);
    if out.Created? {
      CreatedProfileReadsBack(old(db.docs)[CounterKey := CounterDoc(old(db.docs), out.id)], uid.value, out.id, out.email,
                       request.value, now);
    }
    toast := form.Finished(out);
  }
}
