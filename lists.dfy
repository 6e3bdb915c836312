/**
 * Kotlin collection operations shared by the repositories and view models:
 * `distinct()`, `chunked(n)`, and the stable `sortedBy` / `sortedWith` /
 * `sortedByDescending` family, modelled as insertion sort by a total preorder.
 */
module Lists {
  import opened Strings

  /** `le` orders every pair and is transitive (ties are allowed). */
  ghost predicate TotalPreorder<T(!new)>(le: (T, T) -> bool)
  {
    && (forall x, y :: le(x, y) || le(y, x))
    && (forall x, y, z :: le(x, y) && le(y, z) ==> le(x, z))
  }

  predicate SortedBy<T>(s: seq<T>, le: (T, T) -> bool)
  {
    forall i, j :: 0 <= i < j < |s| ==> le(s[i], s[j])
  }

  /** Inserts `x` after every leading element that is not greater than it, so
      that equal elements keep their order of arrival. */
  function Insert<T>(x: T, s: seq<T>, le: (T, T) -> bool): (r: seq<T>)
    ensures |r| == |s| + 1
    ensures multiset(r) == multiset(s) + multiset{x}
  {
    if s == [] || !le(s[0], x) then [x] + s
    else
      assert s == [s[0]] + s[1..];
      [s[0]] + Insert(x, s[1..], le)
  }

  /** The stable sort of Kotlin's `sortedWith`: each element in turn is
      inserted after all earlier elements that are not greater than it. */
  function SortBy<T>(s: seq<T>, le: (T, T) -> bool): (r: seq<T>)
    ensures |r| == |s|
    ensures multiset(r) == multiset(s)
  {
    if s == [] then []
    else
      assert s == s[..|s| - 1] + [s[|s| - 1]];
      Insert(s[|s| - 1], SortBy(s[..|s| - 1], le), le)
  }

  /** The elements of `Insert(x, s)` are `x` and those of `s`. */
  lemma InsertMembers<T>(x: T, s: seq<T>, le: (T, T) -> bool)
    ensures forall y :: y in Insert(x, s, le) <==> y == x || y in s
  {
    var r := Insert(x, s, le);
    forall y ensures y in r <==> y == x || y in s {
      assert y in r <==> y in multiset(r);
      assert y in s <==> y in multiset(s);
    }
  }

  /** Sequences holding the same multiset hold the same members. */
  lemma SameMembers<T>(a: seq<T>, b: seq<T>)
    requires multiset(a) == multiset(b)
    ensures forall x :: x in a <==> x in b
  {
    forall x ensures x in a <==> x in b {
      assert x in a <==> x in multiset(a);
      assert x in b <==> x in multiset(b);
    }
  }

  /** The head of a sorted sequence is below every later element. */
  lemma HeadBelowRest<T>(s: seq<T>, le: (T, T) -> bool)
    requires s != [] && SortedBy(s, le)
    ensures forall y :: y in s[1..] ==> le(s[0], y)
  {
    forall y | y in s[1..] ensures le(s[0], y) {
      var j :| 0 <= j < |s[1..]| && s[1..][j] == y;
      assert s[j + 1] == y;
    }
  }

  lemma {:induction false} InsertSorted<T(!new)>(x: T, s: seq<T>, le: (T, T) -> bool)
    requires TotalPreorder(le) && SortedBy(s, le)
    ensures SortedBy(Insert(x, s, le), le)
  {
    if s != [] && le(s[0], x) {
      var tail := Insert(x, s[1..], le);
      assert SortedBy(s[1..], le);
      InsertSorted(x, s[1..], le);
      InsertMembers(x, s[1..], le);
      HeadBelowRest(s, le);
      var r := [s[0]] + tail;
      assert Insert(x, s, le) == r;
      forall i, j | 0 <= i < j < |r| ensures le(r[i], r[j]) {
        assert r[j] == tail[j - 1];
        if i > 0 {
          assert r[i] == tail[i - 1];
        } else {
          assert r[j] in tail;
        }
      }
    }
  }

  /** `SortBy` returns its input, sorted. */
  lemma {:induction false} SortBySorted<T(!new)>(s: seq<T>, le: (T, T) -> bool)
    requires TotalPreorder(le)
    ensures SortedBy(SortBy(s, le), le)
  {
    if s != [] {
      SortBySorted(s[..|s| - 1], le);
      InsertSorted(s[|s| - 1], SortBy(s[..|s| - 1], le), le);
    }
  }

  /** The elements that `le` ranks equal to `k`. */
  function TiedWith<T>(le: (T, T) -> bool, k: T): T -> bool
  {
    y => le(y, k) && le(k, y)
  }

  /** No element of a sorted sequence that starts above `x` is tied with `x`. */
  lemma NoneTiedAbove<T(!new)>(x: T, t: seq<T>, le: (T, T) -> bool, k: T)
    requires TotalPreorder(le) && SortedBy(t, le)
    requires t != [] && !le(t[0], x) && TiedWith(le, k)(x)
    ensures Select(t, TiedWith(le, k)) == []
  {
    forall i | 0 <= i < |t| ensures !TiedWith(le, k)(t[i]) {
      assert le(t[0], t[i]);
    }
    SelectDropsAll(t, TiedWith(le, k));
  }

  /** Inserting `x` into a sorted sequence puts it after every element tied
      with it. */
  lemma {:induction false} InsertStable<T(!new)>(x: T, t: seq<T>, le: (T, T) -> bool, k: T)
    requires TotalPreorder(le) && SortedBy(t, le)
    ensures var p := TiedWith(le, k);
      Select(Insert(x, t, le), p) == Select(t, p) + (if p(x) then [x] else [])
  {
    var p := TiedWith(le, k);
    if t == [] || !le(t[0], x) {
      var r := [x] + t;
      assert r[0] == x && r[1..] == t;
      if p(x) && t != [] {
        NoneTiedAbove(x, t, le, k);
      }
    } else {
      assert SortedBy(t[1..], le);
      InsertStable(x, t[1..], le, k);
      var h := if p(t[0]) then [t[0]] else [];
      var tail := Insert(x, t[1..], le);
      var r := [t[0]] + tail;
      assert r[0] == t[0] && r[1..] == tail;
      var y, z := Select(t[1..], p), if p(x) then [x] else [];
      assert Select(r, p) == h + (y + z);
      assert h + (y + z) == (h + y) + z;
    }
  }

  /** `SortBy` is stable: the elements tied with any `k` come out in the
      order they went in. */
  lemma {:induction false} SortByStable<T(!new)>(s: seq<T>, le: (T, T) -> bool, k: T)
    requires TotalPreorder(le)
    ensures Select(SortBy(s, le), TiedWith(le, k)) == Select(s, TiedWith(le, k))
  {
    if s != [] {
      var init, x := s[..|s| - 1], s[|s| - 1];
      assert s == init + [x];
      SortByStable(init, le, k);
      SortBySorted(init, le);
      InsertStable(x, SortBy(init, le), le, k);
      SelectAppend(init, [x], TiedWith(le, k));
    }
  }

  /** Any order whose comparison is that of a string key under `LexLe` is a
      total preorder. */
  lemma LexKeyPreorder<T(!new)>(le: (T, T) -> bool, key: T -> string)
    requires forall x, y :: le(x, y) == LexLe(key(x), key(y))
    ensures TotalPreorder(le)
  {
    forall x, y ensures le(x, y) || le(y, x) { LexLeTotal(key(x), key(y)); }
    forall x, y, z | le(x, y) && le(y, z) ensures le(x, z) {
      LexLeTransitive(key(x), key(y), key(z));
    }
  }

  /** `compareBy(key1).thenBy(key2)` on string keys is a total preorder. */
  lemma PairKeyPreorder<T(!new)>(le: (T, T) -> bool, key1: T -> string, key2: T -> string)
    requires forall x, y :: le(x, y) == ((key1(x) != key1(y) && LexLe(key1(x), key1(y))) || (key1(x) == key1(y) && LexLe(key2(x), key2(y))))
    ensures TotalPreorder(le)
  {
    forall x, y ensures le(x, y) || le(y, x) {
      LexLeTotal(key1(x), key1(y));
      LexLeTotal(key2(x), key2(y));
    }
    forall x, y, z | le(x, y) && le(y, z) ensures le(x, z) {
      if key1(x) == key1(y) && key1(y) == key1(z) {
        LexLeTransitive(key2(x), key2(y), key2(z));
      } else {
        var a, b, c := key1(x), key1(y), key1(z);
        LexLeReflexive(a);
        LexLeReflexive(b);
        LexLeTransitive(a, b, c);
        if a == c {
          LexLeAntisymmetric(a, b);
        }
      }
    }
  }

  /** Any order that compares an integer key from greatest to least is a total
      preorder (`sortedByDescending`). */
  lemma DescendingKeyPreorder<T(!new)>(le: (T, T) -> bool, key: T -> int)
    requires forall x, y :: le(x, y) == (key(x) >= key(y))
    ensures TotalPreorder(le)
  {
  }

  // ---------------------------------------------------------------------------
  // String order

  /** Kotlin's `String.compareTo(other) <= 0`: lexicographic on characters, a
      proper prefix first. */
  predicate LexLe(a: string, b: string)
  {
    if a == [] then true
    else if b == [] then false
    else if a[0] != b[0] then a[0] < b[0]
    else LexLe(a[1..], b[1..])
  }

  lemma {:induction false} LexLeTotal(a: string, b: string)
    ensures LexLe(a, b) || LexLe(b, a)
  {
    if a != [] && b != [] && a[0] == b[0] {
      LexLeTotal(a[1..], b[1..]);
    }
  }

  lemma {:induction false} LexLeTransitive(a: string, b: string, c: string)
    requires LexLe(a, b) && LexLe(b, c)
    ensures LexLe(a, c)
  {
    if a != [] && b != [] && c != [] && a[0] == b[0] && b[0] == c[0] {
      LexLeTransitive(a[1..], b[1..], c[1..]);
    }
  }

  lemma {:induction false} LexLeReflexive(a: string)
    ensures LexLe(a, a)
  {
    if a != [] {
      LexLeReflexive(a[1..]);
    }
  }

  lemma {:induction false} LexLeAntisymmetric(a: string, b: string)
    requires LexLe(a, b) && LexLe(b, a)
    ensures a == b
  {
    if a != [] && b != [] {
      LexLeAntisymmetric(a[1..], b[1..]);
      assert a == [a[0]] + a[1..] && b == [b[0]] + b[1..];
    }
  }

  // ---------------------------------------------------------------------------
  // filter and take

  /** `filter { p(it) }` on a list: the elements that pass, in order. */
  function Select<T(!new)>(s: seq<T>, p: T -> bool): (r: seq<T>)
    ensures |r| <= |s|
    ensures forall i :: 0 <= i < |r| ==> p(r[i])
    ensures forall x {:trigger x in r} :: x in r <==> x in s && p(x)
  {
    if s == [] then []
    else
      assert forall x :: x in s <==> x == s[0] || x in s[1..];
      (if p(s[0]) then [s[0]] else []) + Select(s[1..], p)
  }

  /** Filtering a concatenation filters each part, keeping their order. */
  lemma {:induction false} SelectAppend<T(!new)>(a: seq<T>, b: seq<T>, p: T -> bool)
    ensures Select(a + b, p) == Select(a, p) + Select(b, p)
  {
    if a == [] {
      assert a + b == b;
    } else {
      var c := a + b;
      assert c[0] == a[0] && c[1..] == a[1..] + b;
      var h := if p(a[0]) then [a[0]] else [];
      var x, y := Select(a[1..], p), Select(b, p);
      SelectAppend(a[1..], b, p);
      assert Select(c, p) == h + (x + y);
      assert h + (x + y) == (h + x) + y;
    }
  }

  /** Filtering keeps a sequence whose every element passes. */
  lemma {:induction false} SelectKeepsAll<T(!new)>(s: seq<T>, p: T -> bool)
    requires forall i :: 0 <= i < |s| ==> p(s[i])
    ensures Select(s, p) == s
  {
    if s != [] {
      SelectKeepsAll(s[1..], p);
    }
  }

  /** Filtering empties a sequence whose every element fails. */
  lemma {:induction false} SelectDropsAll<T(!new)>(s: seq<T>, p: T -> bool)
    requires forall i :: 0 <= i < |s| ==> !p(s[i])
    ensures Select(s, p) == []
  {
    if s != [] {
      SelectDropsAll(s[1..], p);
    }
  }

  /** `mapNotNull { f(it) }`: the values `f` gives, in order, skipping the
      elements it gives none for.  Defined from the end, as a loop that
      appends builds it. */
  function Collect<T, U>(s: seq<T>, f: T -> Option<U>): (r: seq<U>)
    ensures |r| <= |s|
  {
    if s == [] then []
    else
      var rest := Collect(s[..|s| - 1], f);
      var v := f(s[|s| - 1]);
      if v.Some? then rest + [v.value] else rest
  }

  /** Collecting one more element appends its value, when it has one. */
  lemma CollectSnoc<T, U>(s: seq<T>, x: T, f: T -> Option<U>)
    ensures Collect(s + [x], f) == Collect(s, f) + (if f(x).Some? then [f(x).value] else [])
  {
    assert (s + [x])[..|s|] == s;
  }

  /** A value is collected exactly when `f` gives it for some element. */
  lemma {:induction false} CollectMembers<T, U>(s: seq<T>, f: T -> Option<U>, x: U)
    ensures x in Collect(s, f) <==> exists i :: 0 <= i < |s| && f(s[i]) == Some(x)
  {
    if s != [] {
      var init := s[..|s| - 1];
      CollectMembers(init, f, x);
      if exists i :: 0 <= i < |s| && f(s[i]) == Some(x) {
        var i :| 0 <= i < |s| && f(s[i]) == Some(x);
        if i < |s| - 1 {
          assert init[i] == s[i];
        }
      }
      if exists i :: 0 <= i < |init| && f(init[i]) == Some(x) {
        var i :| 0 <= i < |init| && f(init[i]) == Some(x);
        assert s[i] == init[i];
      }
    }
  }

  /** `indexOfFirst { p(it) }`, with `|s|` for none. */
  function FirstWhere<T>(s: seq<T>, p: T -> bool): (k: nat)
    ensures k <= |s|
    ensures k < |s| ==> p(s[k])
    ensures forall j :: 0 <= j < k ==> !p(s[j])
  {
    if s == [] then 0
    else if p(s[0]) then 0
    else 1 + FirstWhere(s[1..], p)
  }

  /** `take(n)`: the first `n` elements, or all of them when there are fewer. */
  function Take<T>(s: seq<T>, n: nat): (r: seq<T>)
    ensures |r| == if |s| < n then |s| else n
    ensures r == s[..|r|]
  {
    if |s| <= n then s else s[..n]
  }

  // ---------------------------------------------------------------------------
  // distinct() and chunked(n)

  predicate NoDuplicates<T(==)>(s: seq<T>)
  {
    forall i, j :: 0 <= i < j < |s| ==> s[i] != s[j]
  }

  /** An element occurs at most once in a sequence without repetitions. */
  lemma {:induction false} NoDuplicatesCount<T>(s: seq<T>, x: T)
    requires NoDuplicates(s)
    ensures multiset(s)[x] <= 1
  {
    if s != [] {
      var init := s[..|s| - 1];
      assert s == init + [s[|s| - 1]];
      NoDuplicatesCount(init, x);
      if x == s[|s| - 1] {
        assert x !in init;
      }
    }
  }

  /** Reordering a sequence without repetitions keeps it without repetitions. */
  lemma PermutationNoDuplicates<T>(a: seq<T>, b: seq<T>)
    requires multiset(a) == multiset(b) && NoDuplicates(a)
    ensures NoDuplicates(b)
  {
    forall i, j | 0 <= i < j < |b| ensures b[i] != b[j] {
      NoDuplicatesCount(a, b[j]);
      assert b == b[..j] + [b[j]] + b[j + 1..];
      assert b[i] in b[..j];
    }
  }

  /** Index of the first occurrence of `x` in `s`. */
  function FirstIndex<T(==)>(s: seq<T>, x: T): (k: nat)
    requires x in s
    ensures k < |s| && s[k] == x && x !in s[..k]
  {
    if s[0] == x then 0 else 1 + FirstIndex(s[1..], x)
  }

  /** `distinct()`: the first occurrence of each element, in order of first
      occurrence (see `DistinctFirstOrder`). */
  function Distinct<T(==,!new)>(s: seq<T>): (r: seq<T>)
    ensures forall x :: x in r <==> x in s
    ensures NoDuplicates(r)
    ensures |r| <= |s|
  {
    if s == [] then []
    else
      var r := Distinct(s[..|s| - 1]);
      if s[|s| - 1] in r then r else r + [s[|s| - 1]]
  }

  /** The kept elements appear in the order of their first occurrences. */
  lemma {:induction false} DistinctFirstOrder<T(!new)>(s: seq<T>)
    ensures forall i, j :: 0 <= i < j < |Distinct(s)| ==> FirstIndex(s, Distinct(s)[i]) < FirstIndex(s, Distinct(s)[j])
  {
    if s != [] {
      var init := s[..|s| - 1];
      var last := s[|s| - 1];
      var r := Distinct(init);
      DistinctFirstOrder(init);
      assert s == init + [last];
      forall x | x in init ensures FirstIndex(s, x) == FirstIndex(init, x) {
        FirstIndexPrefix(init, [last], x);
      }
      if last !in r {
        assert last !in init;
        assert FirstIndex(s, last) == |s| - 1 by {
          assert s[..|s| - 1] == init;
        }
        assert Distinct(s) == r + [last];
        forall i, j | 0 <= i < j < |r| + 1
          ensures FirstIndex(s, Distinct(s)[i]) < FirstIndex(s, Distinct(s)[j])
        {
          assert r[i] in init;
          if j < |r| { assert r[j] in init; }
        }
      } else {
        forall i, j | 0 <= i < j < |r|
          ensures FirstIndex(s, Distinct(s)[i]) < FirstIndex(s, Distinct(s)[j])
        {
          assert r[i] in init && r[j] in init;
        }
      }
    }
  }

  lemma {:induction false} FirstIndexPrefix<T>(a: seq<T>, b: seq<T>, x: T)
    requires x in a
    ensures FirstIndex(a + b, x) == FirstIndex(a, x)
  {
    if a[0] != x {
      assert (a + b)[1..] == a[1..] + b;
      FirstIndexPrefix(a[1..], b, x);
    }
  }

  lemma {:induction false} DistinctOfDistinct<T(!new)>(s: seq<T>)
    requires NoDuplicates(s)
    ensures Distinct(s) == s
  {
    if s != [] {
      var init := s[..|s| - 1];
      var last := s[|s| - 1];
      assert NoDuplicates(init);
      DistinctOfDistinct(init);
      assert last !in init;
      assert Distinct(s) == if last in Distinct(init) then Distinct(init) else Distinct(init) + [last];
      assert s == init + [last];
    }
  }

  function Concat<T>(chunks: seq<seq<T>>): seq<T>
  {
    if chunks == [] then [] else chunks[0] + Concat(chunks[1..])
  }

  /** Concatenating one more chunk appends it. */
  lemma {:induction false} ConcatSnoc<T>(chunks: seq<seq<T>>, c: nat)
    requires c < |chunks|
    ensures Concat(chunks[..c + 1]) == Concat(chunks[..c]) + chunks[c]
  {
    if c > 0 {
      assert chunks[..c + 1][1..] == chunks[1..][..c];
      assert chunks[..c][1..] == chunks[1..][..c - 1];
      ConcatSnoc(chunks[1..], c - 1);
    } else {
      assert chunks[..1] == [chunks[0]];
    }
  }

  /** `chunked(n)`: consecutive pieces of length `n`, the last one possibly
      shorter, whose concatenation is the input. */
  function Chunked<T>(s: seq<T>, n: nat): (r: seq<seq<T>>)
    requires n > 0
    ensures Concat(r) == s
    ensures forall i :: 0 <= i < |r| ==> 0 < |r[i]| <= n
    ensures forall i :: 0 <= i < |r| - 1 ==> |r[i]| == n
  {
    if |s| <= n then
      if s == [] then [] else [s]
    else
      var rest := Chunked(s[n..], n);
      assert s == s[..n] + s[n..];
      [s[..n]] + rest
  }

  /** Clicking an entry of a multiple choice: it joins the selection when absent
      and leaves it when present. */
  function Toggled<T(!new)>(selected: set<T>, name: T): (r: set<T>)
    ensures name in r <==> name !in selected
    ensures forall x :: x != name ==> (x in r <==> x in selected)
  {
    if name in selected then selected - {name} else selected + {name}
  }

  /** Toggling the same entry twice gives back the selection. */
  lemma ToggleTwice<T(!new)>(selected: set<T>, name: T)
    ensures Toggled(Toggled(selected, name), name) == selected
  {
  }

  /** `toList()` on a set: each element once, in an order the
      set decides. */
  method ListOf<T>(selected: set<T>) returns (r: seq<T>)
    ensures NoDuplicates(r)
    ensures forall x :: x in r <==> x in selected
  {
    r := [];
    var rest := selected;
    while rest != {}
      invariant rest <= selected
      invariant NoDuplicates(r)
      invariant forall x :: x in r <==> x in selected && x !in rest
      decreases |rest|
    {
      var x :| x in rest;
      r := r + [x];
      rest := rest - {x};
    }
  }
}
