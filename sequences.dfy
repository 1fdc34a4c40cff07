/**
 * Sequence utilities shared by the in-memory table and query models:
 * filtering, a stable sort with the greatest key first, pagination, the
 * "first match" scan, and keyed tables (unique ids, replace by id).
 *
 * `SortDesc` is an insertion sort that places every element after all the
 * elements already placed whose key is at least as large, so among elements of
 * equal key the original order is kept. That is the guarantee of Python's
 * `sorted(..., reverse=True)`; the database queries that order by a column are
 * modelled with the same ordering (their order among equal keys is left open
 * by SQL, and this is one admissible choice).
 */
module Sequences {
  import opened Wrappers

  /** The elements of `s` that satisfy `p`, in their original order. */
  function Filter<T(==)>(s: seq<T>, p: T -> bool): (r: seq<T>)
    ensures |r| <= |s|
    ensures forall i :: 0 <= i < |r| ==> r[i] in s && p(r[i])
    ensures multiset(r) <= multiset(s)
    ensures forall x :: x in s && p(x) ==> x in r
    decreases |s|
  {
    if s == [] then []
    else
      var rest := Filter(s[1..], p);
      assert s == [s[0]] + s[1..];
      assert forall x :: x in s[1..] ==> x in s;
      (if p(s[0]) then [s[0]] else []) + rest
  }

  /** Filtering keeps every passing element as often as it occurs, and no other. */
  lemma {:induction false} FilterMultiplicity<T>(s: seq<T>, p: T -> bool)
    ensures forall x :: multiset(Filter(s, p))[x] == if p(x) then multiset(s)[x] else 0
    decreases |s|
  {
    if s != [] {
      FilterMultiplicity(s[1..], p);
      assert s == [s[0]] + s[1..];
      assert multiset(s) == multiset{s[0]} + multiset(s[1..]);
    }
  }

  /** A non-empty sequence is its prefix followed by its last element. */
  lemma SnocSplit<T>(s: seq<T>)
    requires s != []
    ensures s == s[..|s| - 1] + [s[|s| - 1]]
  {
  }

  /** Extending a prefix by one element. */
  lemma PrefixSnoc<T>(s: seq<T>, k: nat)
    requires k < |s|
    ensures s[..k + 1] == s[..k] + [s[k]]
  {
  }

  lemma PrefixTrans<T>(a: seq<T>, b: seq<T>, c: seq<T>)
    requires a <= b && b <= c
    ensures a <= c
  {
    assert forall i :: 0 <= i < |a| ==> a[i] == b[i] == c[i];
  }

  lemma PrefixAppend<T>(a: seq<T>, b: seq<T>, d: seq<T>)
    requires a <= b
    ensures a <= b + d
  {
    assert forall i :: 0 <= i < |a| ==> a[i] == b[i] == (b + d)[i];
  }

  lemma AppendAssoc<T>(a: seq<T>, b: seq<T>, c: seq<T>)
    ensures a + (b + c) == (a + b) + c
  {
  }

  /** Filtering distributes over concatenation, so a scan can filter element by element. */
  lemma {:induction false} FilterAppend<T>(a: seq<T>, b: seq<T>, p: T -> bool)
    ensures Filter(a + b, p) == Filter(a, p) + Filter(b, p)
    decreases |a|
  {
    if a == [] {
      assert a + b == b;
    } else {
      assert (a + b)[1..] == a[1..] + b;
      FilterAppend(a[1..], b, p);
    }
  }

  /** Every element that satisfies `p` is kept. */
  lemma {:induction false} FilterKeeps<T>(s: seq<T>, p: T -> bool, i: nat)
    requires i < |s| && p(s[i])
    ensures s[i] in Filter(s, p)
    decreases |s|
  {
    if i > 0 {
      FilterKeeps(s[1..], p, i - 1);
    }
  }

  lemma FilterSingleton<T>(x: T, p: T -> bool)
    ensures Filter([x], p) == if p(x) then [x] else []
  {
    var s := [x];
    assert s[0] == x && s[1..] == [];
    assert Filter(s[1..], p) == [];
  }

  /** Filtering a non-empty sequence: the filtered prefix, then its last element if it passes. */
  lemma FilterSnoc<T>(s: seq<T>, p: T -> bool)
    requires s != []
    ensures Filter(s, p) == Filter(s[..|s| - 1], p) + (if p(s[|s| - 1]) then [s[|s| - 1]] else [])
  {
    var init := s[..|s| - 1];
    var last := s[|s| - 1];
    SnocSplit(s);
    FilterAppend(init, [last], p);
    FilterSingleton(last, p);
  }

  function Min(a: int, b: int): int { if a <= b then a else b }

  /** The elements from position `offset` on, at most `limit` of them (SQL OFFSET/LIMIT). */
  function Page<T>(s: seq<T>, offset: nat, limit: nat): (r: seq<T>)
    ensures |r| <= limit
    ensures offset >= |s| ==> r == []
    ensures offset < |s| ==> |r| == Min(limit, |s| - offset)
    ensures offset < |s| ==> r == s[offset..offset + Min(limit, |s| - offset)]
    ensures forall i :: 0 <= i < |r| ==> offset + i < |s| && r[i] == s[offset + i]
  {
    if offset >= |s| then []
    else s[offset..][..Min(limit, |s| - offset)]
  }

  /** The first `limit` elements of `s` (SQL LIMIT with no OFFSET). */
  function Take<T>(s: seq<T>, limit: nat): (r: seq<T>)
    ensures |r| == Min(limit, |s|)
    ensures r == s[..|r|]
  {
    s[..Min(limit, |s|)]
  }

  predicate SortedDesc<T>(s: seq<T>, key: T -> real) {
    forall i, j :: 0 <= i < j < |s| ==> key(s[i]) >= key(s[j])
  }

  /** Puts `x` right after the leading run of elements whose key is at least `key(x)`. */
  function Insert<T>(x: T, s: seq<T>, key: T -> real): (r: seq<T>)
    ensures |r| == |s| + 1
    decreases |s|
  {
    if s == [] then [x]
    else if key(s[0]) >= key(x) then [s[0]] + Insert(x, s[1..], key)
    else [x] + s
  }

  /** Stable sort, greatest key first. */
  function SortDesc<T(==)>(s: seq<T>, key: T -> real): (r: seq<T>)
    ensures |r| == |s|
    ensures SortedDesc(r, key)
    ensures multiset(r) == multiset(s)
    decreases |s|
  {
    if s == [] then []
    else
      var init, x := s[..|s| - 1], s[|s| - 1];
      var p := SortDesc(init, key);
      InsertSorted(x, p, key);
      InsertMultiset(x, p, key);
      MultisetSnoc(s);
      Insert(x, p, key)
  }

  /**
   * Sorting the elements that pass `p` gives a permutation of exactly those
   * elements: each passing element as often as in `s`, and no other.
   */
  lemma SortedFilterMembers<T>(s: seq<T>, p: T -> bool, key: T -> real)
    ensures var r := SortDesc(Filter(s, p), key);
      (forall x :: multiset(r)[x] == if p(x) then multiset(s)[x] else 0)
      && (forall x :: x in r <==> x in s && p(x))
  {
    var r := SortDesc(Filter(s, p), key);
    FilterMultiplicity(s, p);
    forall x
      ensures x in r <==> x in s && p(x)
    {
      assert x in r <==> x in multiset(r);
      assert x in s <==> x in multiset(s);
    }
  }

  lemma MultisetSnoc<T>(s: seq<T>)
    requires s != []
    ensures multiset(s) == multiset(s[..|s| - 1]) + multiset{s[|s| - 1]}
  {
    assert s == s[..|s| - 1] + [s[|s| - 1]];
  }

  lemma {:induction false} InsertMultiset<T>(x: T, s: seq<T>, key: T -> real)
    ensures multiset(Insert(x, s, key)) == multiset(s) + multiset{x}
    decreases |s|
  {
    if s != [] && key(s[0]) >= key(x) {
      InsertMultiset(x, s[1..], key);
      assert s == [s[0]] + s[1..];
    }
  }

  lemma {:induction false} InsertBound<T>(x: T, s: seq<T>, key: T -> real, b: real)
    requires key(x) <= b
    requires forall i :: 0 <= i < |s| ==> key(s[i]) <= b
    ensures forall i :: 0 <= i < |Insert(x, s, key)| ==> key(Insert(x, s, key)[i]) <= b
    decreases |s|
  {
    if s != [] && key(s[0]) >= key(x) {
      InsertBound(x, s[1..], key, b);
      assert Insert(x, s, key) == [s[0]] + Insert(x, s[1..], key);
    }
  }

  lemma {:induction false} InsertSorted<T>(x: T, s: seq<T>, key: T -> real)
    requires SortedDesc(s, key)
    ensures SortedDesc(Insert(x, s, key), key)
    decreases |s|
  {
    if s != [] && key(s[0]) >= key(x) {
      InsertSorted(x, s[1..], key);
      InsertBound(x, s[1..], key, key(s[0]));
      assert Insert(x, s, key) == [s[0]] + Insert(x, s[1..], key);
    }
  }

  // ---------------------------------------------------------------------------
  // Stability: the elements of any one key keep their relative order.

  /** The elements of `s` whose key is exactly `v`, in order. */
  function WithKey<T>(s: seq<T>, key: T -> real, v: real): (r: seq<T>)
    ensures |r| <= |s|
    ensures forall i :: 0 <= i < |r| ==> key(r[i]) == v
    decreases |s|
  {
    if s == [] then []
    else (if key(s[0]) == v then [s[0]] else []) + WithKey(s[1..], key, v)
  }

  lemma {:induction false} WithKeyAppend<T>(a: seq<T>, b: seq<T>, key: T -> real, v: real)
    ensures WithKey(a + b, key, v) == WithKey(a, key, v) + WithKey(b, key, v)
    decreases |a|
  {
    if a != [] {
      assert (a + b)[0] == a[0];
      assert (a + b)[1..] == a[1..] + b;
      WithKeyAppend(a[1..], b, key, v);
    } else {
      assert a + b == b;
    }
  }

  lemma {:induction false} WithKeyAbsent<T>(s: seq<T>, key: T -> real, v: real)
    requires forall i :: 0 <= i < |s| ==> key(s[i]) < v
    ensures WithKey(s, key, v) == []
    decreases |s|
  {
    if s != [] {
      WithKeyAbsent(s[1..], key, v);
    }
  }

  lemma {:induction false} InsertWithKey<T>(x: T, s: seq<T>, key: T -> real, v: real)
    requires SortedDesc(s, key)
    ensures WithKey(Insert(x, s, key), key, v)
      == WithKey(s, key, v) + (if key(x) == v then [x] else [])
    decreases |s|
  {
    if s == [] {
    } else if key(s[0]) >= key(x) {
      InsertWithKey(x, s[1..], key, v);
      var head: seq<T> := if key(s[0]) == v then [s[0]] else [];
      var last: seq<T> := if key(x) == v then [x] else [];
      var r := Insert(x, s, key);
      assert r[0] == s[0] && r[1..] == Insert(x, s[1..], key);
      calc {
        WithKey(r, key, v);
        head + WithKey(Insert(x, s[1..], key), key, v);
        head + (WithKey(s[1..], key, v) + last);
        { AppendAssoc(head, WithKey(s[1..], key, v), last); }
        (head + WithKey(s[1..], key, v)) + last;
      }
    } else {
      assert Insert(x, s, key) == [x] + s;
      assert Insert(x, s, key)[1..] == s;
      if key(x) == v {
        WithKeyAbsent(s, key, v);
      }
    }
  }

  /** Python's reverse sort is stable: equal-key elements keep their input order. */
  lemma {:induction false} SortDescStable<T>(s: seq<T>, key: T -> real, v: real)
    ensures WithKey(SortDesc(s, key), key, v) == WithKey(s, key, v)
    decreases |s|
  {
    if s != [] {
      var p := s[..|s| - 1];
      var x := s[|s| - 1];
      var last: seq<T> := if key(x) == v then [x] else [];
      assert s == p + [x];
      assert SortDesc(s, key) == Insert(x, SortDesc(p, key), key);
      assert WithKey([x], key, v) == last by {
        assert [x][1..] == [];
      }
      calc {
        WithKey(SortDesc(s, key), key, v);
        { InsertWithKey(x, SortDesc(p, key), key, v); }
        WithKey(SortDesc(p, key), key, v) + last;
        { SortDescStable(p, key, v); }
        WithKey(p, key, v) + WithKey([x], key, v);
        { WithKeyAppend(p, [x], key, v); }
        WithKey(s, key, v);
      }
    }
  }

  // ---------------------------------------------------------------------------
  // The first element that passes a test, and what it is after a sort.

  /** The position of the first element of `s` satisfying `ok`, scanning from the front. */
  function FirstIndex<T>(s: seq<T>, ok: T -> bool): (r: Option<nat>)
    ensures r.None? <==> forall i :: 0 <= i < |s| ==> !ok(s[i])
    ensures r.Some? ==> r.value < |s| && ok(s[r.value])
    ensures r.Some? ==> forall j :: 0 <= j < r.value ==> !ok(s[j])
    decreases |s|
  {
    if s == [] then None
    else if ok(s[0]) then Some(0)
    else
      var r := FirstIndex(s[1..], ok);
      assert forall i :: 1 <= i < |s| ==> s[i] == s[1..][i - 1];
      if r.Some? then Some(r.value + 1) else None
  }

  /** The first element of `s` satisfying `ok`. */
  function FirstMatch<T>(s: seq<T>, ok: T -> bool): (r: Option<T>)
    ensures r.None? <==> forall i :: 0 <= i < |s| ==> !ok(s[i])
    ensures r.Some? ==> ok(r.value)
    ensures r.Some? ==> FirstIndex(s, ok).Some? && r.value == s[FirstIndex(s, ok).value]
  {
    var i := FirstIndex(s, ok);
    if i.Some? then Some(s[i.value]) else None
  }

  /** An element that passes `ok` with none passing before it is the first match. */
  lemma FirstMatchAt<T>(s: seq<T>, ok: T -> bool, i: nat)
    requires i < |s| && ok(s[i])
    requires forall j :: 0 <= j < i ==> !ok(s[j])
    ensures FirstMatch(s, ok) == Some(s[i])
  {
    var k := FirstIndex(s, ok);
    assert k.Some? && k.value == i by {
      assert !(k.Some? && k.value < i);
      assert !(k.Some? && k.value > i);
    }
  }

  /**
   * The index of the element of `s` that passes `ok` with the greatest key,
   * the earliest one among several with that key.
   */
  function BestIndex<T>(s: seq<T>, key: T -> real, ok: T -> bool): (r: Option<nat>)
    ensures r.None? <==> forall j :: 0 <= j < |s| ==> !ok(s[j])
    ensures r.Some? ==> r.value < |s| && ok(s[r.value])
    ensures r.Some? ==> forall j :: 0 <= j < |s| && ok(s[j]) ==> key(s[j]) <= key(s[r.value])
    ensures r.Some? ==> forall j :: 0 <= j < r.value && ok(s[j]) ==> key(s[j]) < key(s[r.value])
    decreases |s|
  {
    if s == [] then None
    else
      var b := BestIndex(s[..|s| - 1], key, ok);
      var x := s[|s| - 1];
      if ok(x) && (b.None? || key(x) > key(s[b.value])) then Some(|s| - 1) else b
  }

  /** The first match of a non-empty sequence is its head, or else the first match of its tail. */
  lemma FirstMatchHead<T>(s: seq<T>, ok: T -> bool)
    requires s != []
    ensures FirstMatch(s, ok) == if ok(s[0]) then Some(s[0]) else FirstMatch(s[1..], ok)
  {
    if !ok(s[0]) {
      var r := FirstIndex(s[1..], ok);
      if r.Some? {
        assert s[r.value + 1] == s[1..][r.value];
      }
    }
  }

  lemma {:induction false} FirstMatchInsert<T>(x: T, s: seq<T>, key: T -> real, ok: T -> bool)
    requires SortedDesc(s, key)
    ensures var f := FirstMatch(s, ok);
      FirstMatch(Insert(x, s, key), ok)
        == if ok(x) && (f.None? || key(x) > key(f.value)) then Some(x) else f
    decreases |s|
  {
    var r := Insert(x, s, key);
    FirstMatchHead(r, ok);
    if s == [] {
    } else if key(s[0]) >= key(x) {
      FirstMatchInsert(x, s[1..], key, ok);
      FirstMatchHead(s, ok);
      assert r[0] == s[0] && r[1..] == Insert(x, s[1..], key);
    } else {
      assert r[0] == x && r[1..] == s;
      var f := FirstMatch(s, ok);
      if f.Some? {
        assert key(f.value) <= key(s[0]);
      }
    }
  }

  /**
   * Scanning a stably sorted list for the first element that passes `ok`
   * finds the greatest-key passing element, the earliest of them in the input.
   */
  lemma {:induction false} FirstMatchOfSorted<T>(s: seq<T>, key: T -> real, ok: T -> bool)
    ensures var b := BestIndex(s, key, ok);
      FirstMatch(SortDesc(s, key), ok) == if b.Some? then Some(s[b.value]) else None
    decreases |s|
  {
    if s != [] {
      var p := s[..|s| - 1];
      var x := s[|s| - 1];
      FirstMatchOfSorted(p, key, ok);
      FirstMatchInsert(x, SortDesc(p, key), key, ok);
      var b := BestIndex(p, key, ok);
      if b.Some? {
        assert s[b.value] == p[b.value];
      }
    }
  }

  /**
   * Keeping the first `limit` elements of the sorted list drops no element
   * whose key beats a kept one: whatever was left out ranks no higher than
   * everything kept, and was left out only because the limit was reached.
   */
  lemma TopKeepsBest<T>(s: seq<T>, key: T -> real, limit: nat, i: nat)
    requires i < |s|
    requires s[i] !in Take(SortDesc(s, key), limit)
    ensures |Take(SortDesc(s, key), limit)| == limit
    ensures forall j :: 0 <= j < limit ==> key(Take(SortDesc(s, key), limit)[j]) >= key(s[i])
  {
    var r := SortDesc(s, key);
    assert s[i] in multiset(s);
    assert s[i] in multiset(r);
    var k :| 0 <= k < |r| && r[k] == s[i];
    assert k >= Min(limit, |r|);
  }

  // ---------------------------------------------------------------------------
  // Tables: rows with a primary key.

  predicate UniqueBy<T>(rows: seq<T>, id: T -> int) {
    forall i, j :: 0 <= i < j < |rows| ==> id(rows[i]) != id(rows[j])
  }

  lemma {:induction false} FilterKeepsUnique<T>(rows: seq<T>, id: T -> int, p: T -> bool)
    requires UniqueBy(rows, id)
    ensures UniqueBy(Filter(rows, p), id)
    decreases |rows|
  {
    if rows != [] {
      FilterKeepsUnique(rows[1..], id, p);
      var t := Filter(rows[1..], p);
      forall j | 0 <= j < |t|
        ensures id(t[j]) != id(rows[0])
      {
        var k :| 0 <= k < |rows[1..]| && rows[1..][k] == t[j];
        assert rows[k + 1] == t[j];
      }
    }
  }

  /** A row whose key no stored row has can be appended without breaking uniqueness. */
  lemma UniqueSnoc<T>(rows: seq<T>, x: T, id: T -> int)
    requires UniqueBy(rows, id)
    requires forall i :: 0 <= i < |rows| ==> id(rows[i]) != id(x)
    ensures UniqueBy(rows + [x], id)
  {
    var r := rows + [x];
    forall i, j | 0 <= i < j < |r|
      ensures id(r[i]) != id(r[j])
    {
      assert r[i] == rows[i];
    }
  }

  /** Overwrites every row whose key is `id(x)` with `x` (an UPDATE by primary key). */
  function ReplaceBy<T>(rows: seq<T>, x: T, id: T -> int): (r: seq<T>)
    ensures |r| == |rows|
    ensures forall i :: 0 <= i < |rows| ==> r[i] == (if id(rows[i]) == id(x) then x else rows[i])
  {
    if rows == [] then []
    else [if id(rows[0]) == id(x) then x else rows[0]] + ReplaceBy(rows[1..], x, id)
  }

  lemma ReplaceKeepsUnique<T>(rows: seq<T>, x: T, id: T -> int)
    requires UniqueBy(rows, id)
    ensures UniqueBy(ReplaceBy(rows, x, id), id)
  {
    var r := ReplaceBy(rows, x, id);
    forall i, j | 0 <= i < j < |r|
      ensures id(r[i]) != id(r[j])
    {
      assert id(r[i]) == id(rows[i]) && id(r[j]) == id(rows[j]);
    }
  }

  /** In a table with unique keys, the row found by its key is that row. */
  lemma FindByUniqueKey<T>(rows: seq<T>, id: T -> int, i: nat, ok: T -> bool)
    requires UniqueBy(rows, id) && i < |rows|
    requires forall x :: ok(x) ==> id(x) == id(rows[i])
    requires ok(rows[i])
    ensures FirstMatch(rows, ok) == Some(rows[i])
  {
    var k := FirstIndex(rows, ok).value;
    assert id(rows[k]) == id(rows[i]);
  }
}
