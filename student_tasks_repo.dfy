/**
 * The student's task feed for one subject: the tasks the signed-in student
 * has a sub-document under, found through the collection-group query over
 * every `students` sub-collection, fetched by id ten at a time, kept when
 * they belong to the subject, and listed newest first.  The signed-in uid is
 * a parameter and the collection-group query's answer is the sequence of
 * the keys it returned; the task documents are read from the store.
 */
module StudentTasksRepo {
  import opened Strings
  import opened Lists
  import opened DocStore
  import opened TaskDocs

  /** `StudentTaskFeedItem`; the priority is the stored text, unparsed. */
  datatype FeedItem = FeedItem(
    taskId: string,
    teacherName: string,
    subject: string,
    title: string,
    createdAt: int,
    dueAt: Option<int>,
    priority: string)

  const DefaultTeacherName := "Teacher"

  /** The number of ids one `whereIn` query may carry. */
  const ChunkSize := 10

  /** `reference.parent.parent?.id`: the id of the document a sub-document
      lives under; a top-level document has none. */
  function ParentId(k: DocKey): (r: Option<string>)
    ensures r.Some? <==> k.Sub?
    ensures r.Some? ==> r.value == k.parent
  {
    if k.Sub? then Some(k.parent) else None
  }

  /** `mapNotNull { it.reference.parent.parent?.id }.distinct()`. */
  function TaskIds(subs: seq<DocKey>): (r: seq<string>)
    ensures NoDuplicates(r)
    ensures forall id :: id in r <==> exists i :: 0 <= i < |subs| && subs[i].Sub? && subs[i].parent == id
  {
    var parents := Collect(subs, ParentId);
    forall id ensures id in parents <==> exists i :: 0 <= i < |subs| && subs[i].Sub? && subs[i].parent == id {
      CollectMembers(subs, ParentId, id);
    }
    Distinct(parents)
  }

  /** `getString("teacherName").orEmpty().ifBlank { "Teacher" }`. */
  function TeacherNameOf(d: Doc): (n: string)
    ensures !IsBlank(n)
    ensures !IsBlank(OrEmpty(GetString(d, "teacherName"))) ==> n == GetString(d, "teacherName").value
  {
    var n := OrEmpty(GetString(d, "teacherName"));
    if IsBlank(n) then
      assert !IsWhitespace(DefaultTeacherName[0]);
      DefaultTeacherName
    else n
  }

  /** The feed entry of the task `id`, when that task exists and its
      subject (empty when missing) is `subject`. */
  function FeedFor(store: Store, subject: string, id: string): (r: Option<FeedItem>)
    ensures r.Some? <==> TaskKey(id) in store && OrEmpty(GetString(store[TaskKey(id)], "subject")) == subject
    ensures r.Some? ==> r.value.taskId == id && r.value.subject == subject && !IsBlank(r.value.teacherName)
    ensures r.Some? ==> r.value.createdAt == MillisOrZero(store[TaskKey(id)], "createdAt")
  {
    if TaskKey(id) !in store then None
    else
      var d := store[TaskKey(id)];
      var subj := OrEmpty(GetString(d, "subject"));
      if subj != subject then None
      else
        Some(FeedItem(id, TeacherNameOf(d), subj, OrEmpty(GetString(d, "title")),
          MillisOrZero(d, "createdAt"), GetMillis(d, "dueAt"), OrEmpty(GetString(d, "priority"))))
  }

  /** The feed of the tasks `ids`, in order. */
  function FeedItems(store: Store, subject: string, ids: seq<string>): (r: seq<FeedItem>)
    ensures |r| <= |ids|
    ensures forall i :: 0 <= i < |r| ==> r[i].subject == subject && TaskKey(r[i].taskId) in store
  {
    var r := Collect(ids, id => FeedFor(store, subject, id));
    forall i | 0 <= i < |r| ensures r[i].subject == subject && TaskKey(r[i].taskId) in store {
      CollectMembers(ids, id => FeedFor(store, subject, id), r[i]);
    }
    r
  }

  /** No two entries of a feed are the same task. */
  predicate DistinctTasks(items: seq<FeedItem>)
  {
    forall i, j :: 0 <= i < j < |items| ==> items[i].taskId != items[j].taskId
  }

  /** An entry is in the feed exactly when it is the entry of one of the ids;
      it then belongs to the subject, names a teacher, and is an existing
      task. */
  lemma FeedMembers(store: Store, subject: string, ids: seq<string>, x: FeedItem)
    ensures x in FeedItems(store, subject, ids) <==>
      exists i :: 0 <= i < |ids| && FeedFor(store, subject, ids[i]) == Some(x)
    ensures x in FeedItems(store, subject, ids) ==>
      x.subject == subject && !IsBlank(x.teacherName) && x.taskId in ids && TaskKey(x.taskId) in store
  {
    CollectMembers(ids, id => FeedFor(store, subject, id), x);
  }

  /** Distinct ids give a feed in which no task appears twice. */
  lemma {:induction false} FeedDistinct(store: Store, subject: string, ids: seq<string>)
    requires NoDuplicates(ids)
    ensures DistinctTasks(FeedItems(store, subject, ids))
  {
    if ids != [] {
      var init := ids[..|ids| - 1];
      var last := ids[|ids| - 1];
      assert NoDuplicates(init) by {
        forall i, j | 0 <= i < j < |init| ensures init[i] != init[j] {
          assert init[i] == ids[i] && init[j] == ids[j];
        }
      }
      FeedDistinct(store, subject, init);
      var rest := FeedItems(store, subject, init);
      var v := FeedFor(store, subject, last);
      if v.Some? {
        assert last !in init by {
          forall i | 0 <= i < |init| ensures init[i] != last {
            assert init[i] == ids[i];
          }
        }
        forall k | 0 <= k < |rest| ensures rest[k].taskId != last {
          FeedMembers(store, subject, init, rest[k]);
        }
      }
    }
  }

  /** `sortedByDescending { it.createdAt }`. */
  predicate NewestFirst(a: FeedItem, b: FeedItem)
  {
    a.createdAt >= b.createdAt
  }

  function CreatedAtOf(a: FeedItem): int { a.createdAt }

  /** `getMyTasksForSubject(subject)`: nothing without a signed-in student;
      otherwise the feed of the distinct parent tasks of the sub-documents
      the collection-group query returned, newest first. */
  method GetMyTasksForSubject(db: Firestore, signedIn: Option<string>, subs: seq<DocKey>, subject: string)
    returns (items: seq<FeedItem>)
    ensures signedIn.None? ==> items == []
    ensures signedIn.Some? ==> multiset(items) == multiset(FeedItems(db.docs, subject, TaskIds(subs)))
    ensures SortedBy(items, NewestFirst)
  {
    if signedIn.None? || subs == [] {
      return [];
    }
    var ids := TaskIds(subs);
    if ids == [] {
      return [];
    }
    var found: seq<FeedItem> := [];
    var chunks := Chunked(ids, ChunkSize);
    var c := 0;
    while c < |chunks|
      invariant 0 <= c <= |chunks|
      invariant found == FeedItems(db.docs, subject, Concat(chunks[..c]))
    {
      ConcatSnoc(chunks, c);
      found := FetchChunk(db, subject, found, Concat(chunks[..c]), chunks[c]);
      c := c + 1;
    }
    assert chunks[..c] == chunks;
    DescendingKeyPreorder(NewestFirst, CreatedAtOf);
    SortBySorted(found, NewestFirst);
    items := SortBy(found, NewestFirst);
  }

  /** One chunk's `whereIn(documentId(), chunk)`: the entry of every task of
      the chunk that exists and belongs to the subject is appended. */
  method FetchChunk(db: Firestore, subject: string, found: seq<FeedItem>, ghost done: seq<string>, chunk: seq<string>)
    returns (r: seq<FeedItem>)
    requires found == FeedItems(db.docs, subject, done)
    ensures r == FeedItems(db.docs, subject, done + chunk)
  {
    var store := db.docs;
    r := found;
    ghost var seen := done;
    var j := 0;
    while j < |chunk|
      invariant 0 <= j <= |chunk|
      invariant seen == done + chunk[..j]
      invariant r == FeedItems(store, subject, seen)
    {
      var item := FeedFor(store, subject, chunk[j]);
      assert (seen + [chunk[j]])[..|seen|] == seen;
      if item.Some? {
        r := r + [item.value];
      }
      seen := seen + [chunk[j]];
      j := j + 1;
      assert seen == done + chunk[..j];
    }
    assert chunk[..j] == chunk;
  }

  /** The feed a student is shown: every entry is a task of the subject that
      one of the returned sub-documents lives under, and no task is shown
      twice. */
  lemma FeedShown(store: Store, subject: string, subs: seq<DocKey>)
    ensures DistinctTasks(FeedItems(store, subject, TaskIds(subs)))
    ensures forall x :: x in FeedItems(store, subject, TaskIds(subs)) ==>
      x.subject == subject && TaskKey(x.taskId) in store &&
      exists i :: 0 <= i < |subs| && subs[i].Sub? && subs[i].parent == x.taskId
  {
    var ids := TaskIds(subs);
    FeedDistinct(store, subject, ids);
    forall x | x in FeedItems(store, subject, ids)
      ensures x.subject == subject && TaskKey(x.taskId) in store
      ensures exists i :: 0 <= i < |subs| && subs[i].Sub? && subs[i].parent == x.taskId
    {
      FeedMembers(store, subject, ids, x);
    }
  }
}
