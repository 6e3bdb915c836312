/**
 * Making sure a signed-in student has the two documents the student screens
 * read: the account document under `users` (created with the student role,
 * or given that role when it has none) and the profile under
 * `studentProfiles` (created with no subjects).  The signed-in account is a
 * parameter; each write is its own commit.
 */
module StudentBootstrapper {
  import opened Strings
  import opened DocStore
  import CreateTeacher
  import opened StudentSubjectRepo

  const StudentRole := "student"

  /** `currentUser?.email?.trim()?.lowercase().orEmpty()`. */
  function StoredEmail(email: Option<string>): (e: string)
    ensures email.None? ==> e == []
    ensures email.Some? ==> e == Lower(Trim(email.value))
  {
    if email.None? then [] else Lower(Trim(email.value))
  }

  /** The account document created for a student without one. */
  function NewUserDoc(email: string): Doc
  {
    map["email" := Str(email), "role" := Str(StudentRole), "createdAt" := ServerTime]
  }

  /** The profile created for a student without one. */
  function NewProfileDoc(email: string): Doc
  {
    map["email" := Str(email), "subjects" := Arr([]), "createdAt" := ServerTime]
  }

  /** `getString("role")?.trim()?.lowercase()` is null or blank. */
  predicate RoleMissing(d: Doc)
  {
    GetString(d, "role").None? || IsBlank(Lower(Trim(GetString(d, "role").value)))
  }

  /** The account document after the account step, from what was there:
      created when missing, given the student role when it has none, kept
      otherwise. */
  function AccountDoc(before: Option<Doc>, email: string, now: int): Doc
  {
    if before.None? then Resolve(NewUserDoc(email), now)
    else if RoleMissing(before.value) then before.value + map["role" := Str(StudentRole)]
    else before.value
  }

  /** The store after the account step. */
  function UserStep(store: Store, uid: string, email: string, now: int): Store
  {
    var k := CreateTeacher.UserKey(uid);
    store[k := AccountDoc(Lookup(store, k), email, now)]
  }

  /** The store after the profile step. */
  function ProfileStep(store: Store, uid: string, email: string, now: int): Store
  {
    var k := ProfileKey(uid);
    if k !in store then store[k := Resolve(NewProfileDoc(email), now)] else store
  }

  /** Both steps, as `ensureStudentDocs` takes them: the account document
      becomes its `AccountDoc`, the profile exists, and every other document
      is left as it was. */
  function Bootstrapped(store: Store, uid: string, email: string, now: int): (r: Store)
    ensures r.Keys == store.Keys + {CreateTeacher.UserKey(uid), ProfileKey(uid)}
    ensures r[CreateTeacher.UserKey(uid)] == AccountDoc(Lookup(store, CreateTeacher.UserKey(uid)), email, now)
    ensures forall k :: k in store && k != CreateTeacher.UserKey(uid) && k != ProfileKey(uid) ==> r[k] == store[k]
  {
    assert ProfileKey(uid) != CreateTeacher.UserKey(uid);
    ProfileStep(UserStep(store, uid, email, now), uid, email, now)
  }

  /** `ensureStudentDocs()`: false, writing nothing, without a signed-in
      account; otherwise the account and profile documents are put in
      place and the answer is true. */
  method EnsureStudentDocs(db: Firestore, signedIn: Option<string>, email: Option<string>, now: int)
    returns (ok: bool)
    modifies db
    ensures ok <==> signedIn.Some?
    ensures signedIn.None? ==> db.docs == old(db.docs)
    ensures signedIn.Some? ==> db.docs == Bootstrapped(old(db.docs), signedIn.value, StoredEmail(email), now)
  {
    if signedIn.None? {
      return false;
    }
    var uid := signedIn.value;
    var e := StoredEmail(email);
    var userRef := CreateTeacher.UserKey(uid);
    var user := Lookup(db.docs, userRef);
    var committed;
    if user.None? {
      committed := db.Commit([SetDoc(userRef, NewUserDoc(e))], now);
    } else if RoleMissing(user.value) {
      assert Resolve(map["role" := Str(StudentRole)], now) == map["role" := Str(StudentRole)];
      committed := db.Commit([UpdateDoc(userRef, map["role" := Str(StudentRole)])], now);
    } else {
      assert old(db.docs)[userRef := user.value] == old(db.docs);
    }
    ghost var mid := db.docs;
    assert mid == UserStep(old(db.docs), uid, e, now);
    var studentRef := ProfileKey(uid);
    var profile := Lookup(db.docs, studentRef);
    if profile.None? {
      committed := db.Commit([SetDoc(studentRef, NewProfileDoc(e))], now);
    }
    assert db.docs == ProfileStep(mid, uid, e, now);
    return true;
  }

  /** The student role, trimmed and lower-cased, is not blank. */
  lemma StudentRoleNotBlank()
    ensures !IsBlank(Lower(Trim(StudentRole)))
  {
    TrimOfNonWhitespaceEnds(StudentRole);
    assert Lower(StudentRole)[0] == LowerChar('s') == 's';
  }

  /** The account step leaves an account with a role: a missing or blank
      role reads as "student", and any other role is kept with the whole
      document. */
  lemma AccountAfter(before: Option<Doc>, email: string, now: int)
    ensures !RoleMissing(AccountDoc(before, email, now))
    ensures before.None? || RoleMissing(before.value) ==>
      GetString(AccountDoc(before, email, now), "role") == Some(StudentRole)
    ensures before.Some? && !RoleMissing(before.value) ==> AccountDoc(before, email, now) == before.value
  {
    StudentRoleNotBlank();
    var d := AccountDoc(before, email, now);
    if before.None? {
      assert d["role"] == Str(StudentRole);
      assert GetString(d, "role") == Some(StudentRole);
    } else if RoleMissing(before.value) {
      assert GetString(d, "role") == Some(StudentRole);
    }
  }

  /** A created account carries the stored email; an account that was there
      keeps every field other than the role. */
  lemma AccountFields(before: Option<Doc>, email: string, now: int)
    ensures before.None? ==> GetString(AccountDoc(before, email, now), "email") == Some(email)
    ensures before.Some? ==> forall f :: f in before.value && f != "role" ==>
      f in AccountDoc(before, email, now) && AccountDoc(before, email, now)[f] == before.value[f]
  {
    if before.None? {
      assert AccountDoc(before, email, now)["email"] == Str(email);
    }
  }

  /** After the bootstrap the profile exists; a new one lists no subjects,
      and one that was there is kept as it was. */
  lemma ProfileAfter(store: Store, uid: string, email: string, now: int)
    ensures ProfileKey(uid) in Bootstrapped(store, uid, email, now)
    ensures ProfileKey(uid) in store ==>
      Bootstrapped(store, uid, email, now)[ProfileKey(uid)] == store[ProfileKey(uid)]
    ensures ProfileKey(uid) !in store ==> GetSelectedSubjects(Bootstrapped(store, uid, email, now), Some(uid)) == []
    ensures ProfileKey(uid) !in store ==>
      GetString(Bootstrapped(store, uid, email, now)[ProfileKey(uid)], "email") == Some(email)
  {
    var k := ProfileKey(uid);
    assert k != CreateTeacher.UserKey(uid);
    var s1 := UserStep(store, uid, email, now);
    if k !in store {
      var d := Resolve(NewProfileDoc(email), now);
      assert Bootstrapped(store, uid, email, now) == s1[k := d];
      SelectedFromDoc(s1, uid, d);
      assert GetList(d, "subjects") == Some([]);
      assert d["email"] == Str(email);
    }
  }

  /** The account step a second time keeps the account as the first left it. */
  lemma AccountIdempotent(before: Option<Doc>, email: string, now: int, later: int)
    ensures AccountDoc(Some(AccountDoc(before, email, now)), email, later) == AccountDoc(before, email, now)
  {
    AccountAfter(before, email, now);
  }

  /** Running the bootstrap again changes nothing. */
  lemma BootstrapIdempotent(store: Store, uid: string, email: string, now: int, later: int)
    ensures Bootstrapped(Bootstrapped(store, uid, email, now), uid, email, later)
      == Bootstrapped(store, uid, email, now)
  {
    var s := Bootstrapped(store, uid, email, now);
    var k := CreateTeacher.UserKey(uid);
    AccountIdempotent(Lookup(store, k), email, now, later);
    assert Lookup(s, k) == Some(s[k]);
    assert UserStep(s, uid, email, later) == s;
    assert ProfileKey(uid) in s;
  }
}
