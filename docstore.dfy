/**
 * The hosted document database, as the app sees it: documents are maps from
 * field name to value, addressed by a collection and an id (or, for the
 * per-student submissions, by a task id and a student id under the
 * `students` sub-collection).  Reads are the typed accessors of a document
 * snapshot; writes are batches that apply in order and commit all or nothing.
 */
module DocStore {
  import opened Strings

  /** A field value.  `Int` is a 64-bit integer field, `Time` a timestamp in
      milliseconds since the epoch, `ServerTime` the server-timestamp
      placeholder a write may carry. */
  datatype Value =
    | Null
    | Str(s: string)
    | Int(n: int)
    | Bool(b: bool)
    | Time(millis: int)
    | ServerTime
    | Arr(items: seq<Value>)
    | Obj(fields: map<string, Value>)

  type Doc = map<string, Value>

  /** One document of a query result, in the order the backend returns it. */
  datatype DocEntry = DocEntry(id: string, data: Doc)

  datatype DocKey =
    | Top(collection: string, id: string)
    | Sub(collection: string, parent: string, sub: string, id: string)

  /** The ids of a query result are those of distinct documents. */
  predicate DistinctIds(docs: seq<DocEntry>)
  {
    forall i, j :: 0 <= i < j < |docs| ==> docs[i].id != docs[j].id
  }

  /** `getString(f)`: the text of a string field, null otherwise. */
  function GetString(d: Doc, f: string): (r: Option<string>)
    ensures r.Some? <==> f in d && d[f].Str?
  {
    if f in d && d[f].Str? then Some(d[f].s) else None
  }

  /** `getLong(f)`. */
  function GetLong(d: Doc, f: string): (r: Option<int>)
    ensures r.Some? <==> f in d && d[f].Int?
  {
    if f in d && d[f].Int? then Some(d[f].n) else None
  }

  /** `getTimestamp(f)?.toDate()?.time`. */
  function GetMillis(d: Doc, f: string): (r: Option<int>)
    ensures r.Some? <==> f in d && d[f].Time?
  {
    if f in d && d[f].Time? then Some(d[f].millis) else None
  }

  /** `get(f) as? List<*>`. */
  function GetList(d: Doc, f: string): (r: Option<seq<Value>>)
    ensures r.Some? <==> f in d && d[f].Arr?
  {
    if f in d && d[f].Arr? then Some(d[f].items) else None
  }

  /** `orEmpty()` / `?: ""`. */
  function OrEmpty(o: Option<string>): string
  {
    if o.Some? then o.value else ""
  }

  /** `toString()` of a stored value; null for `Null`.  A timestamp prints as
      the SDK's `Timestamp(seconds=…, nanoseconds=…)`; a list as Kotlin's
      `[a, b]`.  A nested map, which Kotlin prints as `{k=v, …}`, is given a
      fixed placeholder: no text read in this model comes from one. */
  function ValueText(v: Value): (r: Option<string>)
    ensures r.None? <==> v.Null?
    ensures v.Str? ==> r == Some(v.s)
  {
    match v
    case Null => None
    case Str(s) => Some(s)
    case Int(n) => Some(IntText(n))
    case Bool(b) => Some(if b then "true" else "false")
    case Time(ms) =>
      Some("Timestamp(seconds=" + IntText(ms / 1000) + ", nanoseconds=" + IntText(ms % 1000 * 1000000) + ")")
    case ServerTime => Some("ServerTimestamp")
    case Arr(items) => Some("[" + Join(ItemTexts(items), ", ") + "]")
    case Obj(_) => Some("{…}")
  }

  function ItemTexts(items: seq<Value>): seq<string>
    decreases items
  {
    if items == [] then []
    else
      var t := ValueText(items[0]);
      [if t.Some? then t.value else "null"] + ItemTexts(items[1..])
  }

  /** A list of strings as a stored array. */
  function StrValues(ss: seq<string>): (r: seq<Value>)
    ensures |r| == |ss|
    ensures forall i :: 0 <= i < |ss| ==> r[i] == Str(ss[i])
  {
    if ss == [] then [] else [Str(ss[0])] + StrValues(ss[1..])
  }

  /** `m[k]?.toString().orEmpty()` for a map element of a list. */
  function FieldText(m: map<string, Value>, k: string): string
  {
    if k in m then OrEmpty(ValueText(m[k])) else ""
  }

  // ---------------------------------------------------------------------------
  // Writes

  datatype Write =
    | SetDoc(key: DocKey, data: Doc)      // set(data): replaces the document
    | MergeDoc(key: DocKey, data: Doc)    // set(data, SetOptions.merge())
    | UpdateDoc(key: DocKey, data: Doc)   // update(data): the document must exist
    | DeleteDoc(key: DocKey)

  type Store = map<DocKey, Doc>

  /** Replaces every server-timestamp placeholder by the commit time. */
  function Resolve(d: Doc, now: int): (r: Doc)
    ensures r.Keys == d.Keys
    ensures forall f :: f in d ==> r[f] == (if d[f] == ServerTime then Time(now) else d[f])
  {
    map f | f in d :: if d[f] == ServerTime then Time(now) else d[f]
  }

  /** Reading a field of a committed document: a server timestamp reads as
      the commit time, every other field as it was written. */
  lemma ResolvedReads(d: Doc, now: int, f: string)
    ensures f in d && d[f] == ServerTime ==> GetMillis(Resolve(d, now), f) == Some(now)
    ensures f !in d || d[f] != ServerTime ==>
      && GetString(Resolve(d, now), f) == GetString(d, f)
      && GetLong(Resolve(d, now), f) == GetLong(d, f)
      && GetMillis(Resolve(d, now), f) == GetMillis(d, f)
      && GetList(Resolve(d, now), f) == GetList(d, f)
  {
  }

  function ApplyWrite(store: Store, w: Write, now: int): (r: Option<Store>)
    ensures r.None? <==> w.UpdateDoc? && w.key !in store
    ensures r.Some? ==> forall k :: k != w.key ==> (k in r.value <==> k in store)
    ensures r.Some? ==> forall k :: k != w.key && k in store ==> r.value[k] == store[k]
  {
    match w
    case SetDoc(k, d) => Some(store[k := Resolve(d, now)])
    case MergeDoc(k, d) =>
      var base := if k in store then store[k] else map[];
      Some(store[k := base + Resolve(d, now)])
    case UpdateDoc(k, d) =>
      if k in store then Some(store[k := store[k] + Resolve(d, now)]) else None
    case DeleteDoc(k) => Some(store - {k})
  }

  /** A batch commits all its writes in order, or none of them when one update
      targets a missing document. */
  function ApplyBatch(store: Store, ws: seq<Write>, now: int): Option<Store>
    decreases |ws|
  {
    if ws == [] then Some(store)
    else
      var r := ApplyWrite(store, ws[0], now);
      if r.None? then None else ApplyBatch(r.value, ws[1..], now)
  }

  predicate Touches(ws: seq<Write>, k: DocKey)
  {
    exists i :: 0 <= i < |ws| && ws[i].key == k
  }

  /** A batch leaves every document it does not name as it was. */
  lemma {:induction false} BatchFrame(store: Store, ws: seq<Write>, now: int, k: DocKey)
    requires ApplyBatch(store, ws, now).Some?
    requires !Touches(ws, k)
    ensures k in ApplyBatch(store, ws, now).value <==> k in store
    ensures k in store ==> ApplyBatch(store, ws, now).value[k] == store[k]
    decreases |ws|
  {
    if ws != [] {
      var r := ApplyWrite(store, ws[0], now);
      assert ws[0].key != k;
      forall i | 0 <= i < |ws[1..]| ensures ws[1..][i].key != k {
        assert ws[1..][i] == ws[i + 1];
      }
      BatchFrame(r.value, ws[1..], now, k);
    }
  }

  /** A batch without updates always commits. */
  lemma {:induction false} BatchWithoutUpdatesCommits(store: Store, ws: seq<Write>, now: int)
    requires forall i :: 0 <= i < |ws| ==> !ws[i].UpdateDoc?
    ensures ApplyBatch(store, ws, now).Some?
    decreases |ws|
  {
    if ws != [] {
      BatchWithoutUpdatesCommits(ApplyWrite(store, ws[0], now).value, ws[1..], now);
    }
  }

  function Lookup(store: Store, k: DocKey): Option<Doc>
  {
    if k in store then Some(store[k]) else None
  }

  /** What one write makes of the document at its key (`None`: no document). */
  function DocAfter(before: Option<Doc>, w: Write, now: int): Option<Doc>
  {
    match w
    case SetDoc(_, d) => Some(Resolve(d, now))
    case MergeDoc(_, d) => Some((if before.Some? then before.value else map[]) + Resolve(d, now))
    case UpdateDoc(_, d) => if before.Some? then Some(before.value + Resolve(d, now)) else None
    case DeleteDoc(_) => None
  }

  lemma ApplyWriteAt(store: Store, w: Write, now: int)
    requires ApplyWrite(store, w, now).Some?
    ensures Lookup(ApplyWrite(store, w, now).value, w.key) == DocAfter(Lookup(store, w.key), w, now)
  {
  }

  /** In a batch that names a key once, that document ends as the one write
      naming it makes it. */
  lemma {:induction false} BatchSingleWrite(store: Store, ws: seq<Write>, now: int, i: nat)
    requires ApplyBatch(store, ws, now).Some?
    requires i < |ws|
    requires forall j :: 0 <= j < |ws| && j != i ==> ws[j].key != ws[i].key
    ensures Lookup(ApplyBatch(store, ws, now).value, ws[i].key) == DocAfter(Lookup(store, ws[i].key), ws[i], now)
    decreases |ws|
  {
    var r := ApplyWrite(store, ws[0], now).value;
    if i == 0 {
      ApplyWriteAt(store, ws[0], now);
      BatchFrame(r, ws[1..], now, ws[0].key);
    } else {
      assert ws[1..][i - 1] == ws[i];
      BatchSingleWrite(r, ws[1..], now, i - 1);
    }
  }

  /** A batch of updates commits exactly when every document it updates
      exists. */
  lemma {:induction false} UpdatesCommitIff(store: Store, ws: seq<Write>, now: int)
    requires forall i :: 0 <= i < |ws| ==> ws[i].UpdateDoc?
    ensures ApplyBatch(store, ws, now).Some? <==> forall i :: 0 <= i < |ws| ==> ws[i].key in store
    decreases |ws|
  {
    if ws != [] {
      var r := ApplyWrite(store, ws[0], now);
      if r.Some? {
        assert r.value.Keys == store.Keys;
        UpdatesCommitIff(r.value, ws[1..], now);
        assert forall i :: 1 <= i < |ws| ==> ws[i] == ws[1..][i - 1];
      }
    }
  }

  /** A batch of updates to distinct documents commits exactly when every
      document exists; then each gets its update merged in and every document
      the batch does not name is left as it was. */
  lemma UpdatesResult(store: Store, ws: seq<Write>, now: int)
    requires forall i :: 0 <= i < |ws| ==> ws[i].UpdateDoc?
    requires forall i, j :: 0 <= i < j < |ws| ==> ws[i].key != ws[j].key
    ensures ApplyBatch(store, ws, now).Some? <==> forall i :: 0 <= i < |ws| ==> ws[i].key in store
    ensures ApplyBatch(store, ws, now).Some? ==> forall i :: 0 <= i < |ws| ==>
      Lookup(ApplyBatch(store, ws, now).value, ws[i].key) == Some(store[ws[i].key] + Resolve(ws[i].data, now))
    ensures ApplyBatch(store, ws, now).Some? ==> forall k :: !Touches(ws, k) ==>
      Lookup(ApplyBatch(store, ws, now).value, k) == Lookup(store, k)
  {
    UpdatesCommitIff(store, ws, now);
    if ApplyBatch(store, ws, now).Some? {
      forall i | 0 <= i < |ws|
        ensures Lookup(ApplyBatch(store, ws, now).value, ws[i].key) == Some(store[ws[i].key] + Resolve(ws[i].data, now))
      {
        BatchSingleWrite(store, ws, now, i);
      }
      forall k | !Touches(ws, k)
        ensures Lookup(ApplyBatch(store, ws, now).value, k) == Lookup(store, k)
      {
        BatchFrame(store, ws, now, k);
      }
    }
  }

  /** In a batch of `set`s that all give a key the same data, that key ends
      holding that data; a key the batch does not name is left as it was. */
  lemma {:induction false} SetsResult(store: Store, ws: seq<Write>, now: int, k: DocKey, d: Doc)
    requires forall i :: 0 <= i < |ws| ==> ws[i].SetDoc?
    requires forall i :: 0 <= i < |ws| && ws[i].key == k ==> ws[i].data == d
    ensures ApplyBatch(store, ws, now).Some?
    ensures Touches(ws, k) ==> Lookup(ApplyBatch(store, ws, now).value, k) == Some(Resolve(d, now))
    ensures !Touches(ws, k) ==> Lookup(ApplyBatch(store, ws, now).value, k) == Lookup(store, k)
    decreases |ws|
  {
    BatchWithoutUpdatesCommits(store, ws, now);
    if ws != [] {
      var r := ApplyWrite(store, ws[0], now).value;
      assert forall i :: 1 <= i < |ws| ==> ws[i] == ws[1..][i - 1];
      SetsResult(r, ws[1..], now, k, d);
      if Touches(ws[1..], k) {
        var i :| 0 <= i < |ws[1..]| && ws[1..][i].key == k;
        assert ws[i + 1].key == k;
      } else if ws[0].key == k {
        assert Lookup(r, k) == Some(Resolve(d, now));
      } else {
        forall i | 0 <= i < |ws| ensures ws[i].key != k {
          if i > 0 { assert ws[i] == ws[1..][i - 1]; }
        }
      }
    }
  }

  /** The documents a batch names. */
  function KeysOf(ws: seq<Write>): set<DocKey>
  {
    set i | 0 <= i < |ws| :: ws[i].key
  }

  lemma KeysOfSnoc(ws: seq<Write>, w: Write)
    ensures KeysOf(ws + [w]) == KeysOf(ws) + {w.key}
  {
    var all := ws + [w];
    forall x ensures x in KeysOf(all) <==> x in KeysOf(ws) + {w.key} {
      if x in KeysOf(all) {
        var j :| 0 <= j < |all| && all[j].key == x;
        if j < |ws| { assert ws[j].key == x; }
      }
      if x in KeysOf(ws) {
        var j :| 0 <= j < |ws| && ws[j].key == x;
        assert all[j].key == x;
      }
      if x == w.key { assert all[|ws|].key == x; }
    }
  }

  /** A batch of deletes removes exactly the documents it names. */
  lemma {:induction false} DeletesResult(store: Store, ws: seq<Write>, now: int)
    requires forall i :: 0 <= i < |ws| ==> ws[i].DeleteDoc?
    ensures ApplyBatch(store, ws, now) == Some(store - KeysOf(ws))
    decreases |ws|
  {
    if ws != [] {
      assert forall i :: 1 <= i < |ws| ==> ws[i] == ws[1..][i - 1];
      assert ApplyWrite(store, ws[0], now) == Some(store - {ws[0].key});
      DeletesResult(store - {ws[0].key}, ws[1..], now);
      assert KeysOf(ws) == {ws[0].key} + KeysOf(ws[1..]) by {
        forall k ensures k in KeysOf(ws) <==> k in {ws[0].key} + KeysOf(ws[1..]) {
          if k in KeysOf(ws) {
            var i :| 0 <= i < |ws| && ws[i].key == k;
            if i > 0 { assert ws[1..][i - 1].key == k; }
          }
        }
      }
      assert store - {ws[0].key} - KeysOf(ws[1..]) == store - KeysOf(ws);
    } else {
      assert KeysOf(ws) == {};
      assert store - KeysOf(ws) == store;
    }
  }

  /** The database itself: its documents change only by committed batches. */
  class Firestore {
    var docs: Store

    constructor (initial: Store)
      ensures docs == initial
    {
      docs := initial;
    }

    /** `batch.commit()` (a single `set`/`update`/`delete` is a batch of one). */
    method Commit(ws: seq<Write>, now: int) returns (ok: bool)
      modifies this
      ensures ok <==> ApplyBatch(old(docs), ws, now).Some?
      ensures docs == if ok then ApplyBatch(old(docs), ws, now).value else old(docs)
    {
      var r := ApplyBatch(docs, ws, now);
      ok := r.Some?;
      if ok {
        docs := r.value;
      }
    }
  }
}
