/**
 * The memory store: the `Memory` record and `MemoryRepository`, whose SQL
 * queries are stated here as functions over the sequence of stored rows, and
 * whose create/update/delete change that sequence.
 *
 * The cosine distance of pgvector is an abstract `dist` function on vectors
 * and the time-zone conversion of `created_at` an abstract `localDate`
 * function; both are parameters of the queries that use them.
 */
module MemoryStore {
  import opened Wrappers
  import opened Calendar
  import opened Sequences
  import opened Strings

  datatype MemoryType = Item | Place | Schedule | Person | Memo

  /** The string value stored in the `type` column. */
  function TypeName(t: MemoryType): string {
    match t
    case Item => "item"
    case Place => "place"
    case Schedule => "schedule"
    case Person => "person"
    case Memo => "memo"
  }

  lemma TypeNameInjective(a: MemoryType, b: MemoryType)
    ensures TypeName(a) == TypeName(b) ==> a == b
  {
  }

  /** Type-specific extra information (a JSON object, reduced here to string values). */
  type Metadata = map<string, string>

  /** One `memory` row. `createdAt` is an instant in microseconds. */
  datatype Memory = Memory(
    id: int, userId: Option<int>, memoryType: string, keywords: string, content: string,
    metadata: Option<Metadata>, originalText: string, embedding: Option<seq<real>>, createdAt: int)

  /** `WHERE user_id = :user_id`, applied only when a user is given. */
  predicate OwnedBy(m: Memory, userId: Option<int>) {
    userId.None? || m.userId == userId
  }

  /** `WHERE type = :type_filter`, applied only when a filter is given. */
  predicate OfType(m: Memory, typeFilter: Option<MemoryType>) {
    typeFilter.None? || m.memoryType == TypeName(typeFilter.value)
  }

  function Newness(m: Memory): real { m.createdAt as real }

  function MemoryId(m: Memory): int { m.id }

  predicate UniqueIds(rows: seq<Memory>) {
    UniqueBy(rows, MemoryId)
  }

  // ---------------------------------------------------------------------------
  // get_by_id

  function FindMemory(rows: seq<Memory>, id: int, userId: Option<int>): (r: Option<Memory>)
    ensures r.Some? ==> r.value in rows && r.value.id == id && OwnedBy(r.value, userId)
    ensures r.None? ==> forall i :: 0 <= i < |rows| ==> !(rows[i].id == id && OwnedBy(rows[i], userId))
  {
    FirstMatch(rows, (m: Memory) => m.id == id && OwnedBy(m, userId))
  }

  /** With a user given, another owner's memory is invisible; without one, any owner's row is found. */
  lemma FindMemoryOwnership(rows: seq<Memory>, i: nat, u: int)
    requires UniqueIds(rows) && i < |rows|
    ensures rows[i].userId != Some(u) ==> FindMemory(rows, rows[i].id, Some(u)).None?
    ensures FindMemory(rows, rows[i].id, None) == Some(rows[i])
    ensures rows[i].userId == Some(u) ==> FindMemory(rows, rows[i].id, Some(u)) == Some(rows[i])
  {
    FindByUniqueKey(rows, MemoryId, i, (m: Memory) => m.id == rows[i].id && OwnedBy(m, None));
    if rows[i].userId == Some(u) {
      FindByUniqueKey(rows, MemoryId, i, (m: Memory) => m.id == rows[i].id && OwnedBy(m, Some(u)));
    }
  }

  // ---------------------------------------------------------------------------
  // get_all: filters, newest first, then OFFSET and LIMIT.

  /** The rows `get_all` pages through: the user's memories of the requested type, newest first. */
  function Listed(rows: seq<Memory>, userId: Option<int>, typeFilter: Option<MemoryType>): (s: seq<Memory>)
    ensures forall m :: m in s <==> m in rows && OwnedBy(m, userId) && OfType(m, typeFilter)
    ensures forall m :: multiset(s)[m] == if OwnedBy(m, userId) && OfType(m, typeFilter) then multiset(rows)[m] else 0
    ensures forall i, j :: 0 <= i < j < |s| ==> s[i].createdAt >= s[j].createdAt
  {
    var p := (m: Memory) => OwnedBy(m, userId) && OfType(m, typeFilter);
    SortedFilterMembers(rows, p, Newness);
    SortDesc(Filter(rows, p), Newness)
  }

  function AllMemories(rows: seq<Memory>, userId: Option<int>, typeFilter: Option<MemoryType>,
                       limit: nat, offset: nat): seq<Memory>
  {
    Page(Listed(rows, userId, typeFilter), offset, limit)
  }

  lemma AllMemoriesSpec(rows: seq<Memory>, userId: Option<int>, typeFilter: Option<MemoryType>,
                        limit: nat, offset: nat)
    ensures var r := AllMemories(rows, userId, typeFilter, limit, offset);
      |r| <= limit
      && (forall i :: 0 <= i < |r| ==> r[i] in rows && OwnedBy(r[i], userId) && OfType(r[i], typeFilter))
      && (forall i, j :: 0 <= i < j < |r| ==> r[i].createdAt >= r[j].createdAt)
  {
    var s := Listed(rows, userId, typeFilter);
    var r := Page(s, offset, limit);
    forall i | 0 <= i < |r|
      ensures r[i] in rows && OwnedBy(r[i], userId) && OfType(r[i], typeFilter)
    {
      assert r[i] == s[offset + i];
    }
    forall i, j | 0 <= i < j < |r|
      ensures r[i].createdAt >= r[j].createdAt
    {
      assert r[i] == s[offset + i] && r[j] == s[offset + j];
    }
  }

  /**
   * Nothing that matches is lost: every matching row has a place in the
   * newest-first list, and it is on the page whenever that place falls
   * within the window the offset and the limit select.
   */
  lemma AllMemoriesComplete(rows: seq<Memory>, userId: Option<int>, typeFilter: Option<MemoryType>,
                            limit: nat, offset: nat, m: Memory)
    requires m in rows && OwnedBy(m, userId) && OfType(m, typeFilter)
    ensures var s := Listed(rows, userId, typeFilter);
      var r := AllMemories(rows, userId, typeFilter, limit, offset);
      exists k :: 0 <= k < |s| && s[k] == m && (offset <= k < offset + limit ==> m in r)
  {
    var s := Listed(rows, userId, typeFilter);
    var r := AllMemories(rows, userId, typeFilter, limit, offset);
    var k :| 0 <= k < |s| && s[k] == m;
    if offset <= k < offset + limit {
      assert r[k - offset] == m;
    }
  }

  // ---------------------------------------------------------------------------
  // search_by_vector

  /** The cosine distance of a row with an embedding to the query vector (0 for a row without one). */
  function Distance(m: Memory, query: seq<real>, dist: (seq<real>, seq<real>) -> real): real {
    if m.embedding.Some? then dist(m.embedding.value, query) else 0.0
  }

  predicate VectorCandidate(m: Memory, query: seq<real>, dist: (seq<real>, seq<real>) -> real,
                            userId: Option<int>, typeFilter: Option<MemoryType>, threshold: real)
  {
    m.embedding.Some? && OwnedBy(m, userId) && OfType(m, typeFilter)
    && Distance(m, query, dist) <= 1.0 - threshold
  }

  /** The search's rows before the pairing with similarities: best first, at most `limit`. */
  function VectorHits(rows: seq<Memory>, query: seq<real>, dist: (seq<real>, seq<real>) -> real,
                      userId: Option<int>, typeFilter: Option<MemoryType>, limit: nat, threshold: real): seq<Memory>
  {
    Take(SortDesc(Filter(rows, (m: Memory) => VectorCandidate(m, query, dist, userId, typeFilter, threshold)),
                  (m: Memory) => -Distance(m, query, dist)),
         limit)
  }

  function WithSimilarity(hits: seq<Memory>, query: seq<real>, dist: (seq<real>, seq<real>) -> real): (r: seq<(Memory, real)>)
    ensures |r| == |hits|
    ensures forall i :: 0 <= i < |hits| ==> r[i] == (hits[i], 1.0 - Distance(hits[i], query, dist))
  {
    if hits == [] then []
    else [(hits[0], 1.0 - Distance(hits[0], query, dist))] + WithSimilarity(hits[1..], query, dist)
  }

  /** `search_by_vector(embedding, user_id, type_filter, limit=5, threshold=0.5)`. */
  function SearchByVector(rows: seq<Memory>, query: seq<real>, dist: (seq<real>, seq<real>) -> real,
                          userId: Option<int>, typeFilter: Option<MemoryType>, limit: nat, threshold: real): seq<(Memory, real)>
  {
    WithSimilarity(VectorHits(rows, query, dist, userId, typeFilter, limit, threshold), query, dist)
  }

  const DefaultSearchLimit: nat := 5
  const DefaultSearchThreshold: real := 0.5

  /** Every hit has an embedding, passes the filters and the distance bound, and reports similarity 1 - distance. */
  lemma SearchByVectorQualifies(rows: seq<Memory>, query: seq<real>, dist: (seq<real>, seq<real>) -> real,
                                userId: Option<int>, typeFilter: Option<MemoryType>, limit: nat, threshold: real)
    ensures var r := SearchByVector(rows, query, dist, userId, typeFilter, limit, threshold);
      |r| <= limit
      && forall i :: 0 <= i < |r| ==>
        r[i].0 in rows && r[i].0.embedding.Some? && OwnedBy(r[i].0, userId) && OfType(r[i].0, typeFilter)
        && dist(r[i].0.embedding.value, query) <= 1.0 - threshold
        && r[i].1 == 1.0 - dist(r[i].0.embedding.value, query)
  {
    var p := (m: Memory) => VectorCandidate(m, query, dist, userId, typeFilter, threshold);
    var f := Filter(rows, p);
    var s := SortDesc(f, (m: Memory) => -Distance(m, query, dist));
    var h := Take(s, limit);
    forall i | 0 <= i < |h|
      ensures h[i] in rows && VectorCandidate(h[i], query, dist, userId, typeFilter, threshold)
    {
      assert h[i] == s[i];
      assert s[i] in multiset(f);
      var k :| 0 <= k < |f| && f[k] == s[i];
    }
  }

  /** Hits come in ascending distance, i.e. descending similarity. */
  lemma SearchByVectorOrdered(rows: seq<Memory>, query: seq<real>, dist: (seq<real>, seq<real>) -> real,
                              userId: Option<int>, typeFilter: Option<MemoryType>, limit: nat, threshold: real)
    ensures var r := SearchByVector(rows, query, dist, userId, typeFilter, limit, threshold);
      forall i, j :: 0 <= i < j < |r| ==> r[i].1 >= r[j].1
  {
    var key := (m: Memory) => -Distance(m, query, dist);
    var s := SortDesc(Filter(rows, (m: Memory) => VectorCandidate(m, query, dist, userId, typeFilter, threshold)), key);
    var h := Take(s, limit);
    forall i, j | 0 <= i < j < |h|
      ensures key(h[i]) >= key(h[j])
    {
      assert h[i] == s[i] && h[j] == s[j];
    }
  }

  /**
   * No qualifying memory is passed over for a worse one: a candidate missing
   * from the result is no closer than any hit, and the result is then full.
   */
  lemma SearchByVectorSkipsNothingBetter(rows: seq<Memory>, query: seq<real>, dist: (seq<real>, seq<real>) -> real,
                                         userId: Option<int>, typeFilter: Option<MemoryType>, limit: nat,
                                         threshold: real, c: Memory)
    requires c in rows && VectorCandidate(c, query, dist, userId, typeFilter, threshold)
    requires c !in VectorHits(rows, query, dist, userId, typeFilter, limit, threshold)
    ensures var r := SearchByVector(rows, query, dist, userId, typeFilter, limit, threshold);
      |r| == limit && forall i :: 0 <= i < |r| ==> r[i].1 >= 1.0 - Distance(c, query, dist)
  {
    var p := (m: Memory) => VectorCandidate(m, query, dist, userId, typeFilter, threshold);
    var key := (m: Memory) => -Distance(m, query, dist);
    var f := Filter(rows, p);
    var k :| 0 <= k < |rows| && rows[k] == c;
    FilterKeeps(rows, p, k);
    var i :| 0 <= i < |f| && f[i] == c;
    TopKeepsBest(f, key, limit, i);
  }

  // ---------------------------------------------------------------------------
  // get_by_date and get_calendar_marks

  /** The rows `get_by_date` takes from: the user's memories created on `target` (local time), newest first. */
  function OnDate(rows: seq<Memory>, target: Date, userId: Option<int>, localDate: int -> Date): (s: seq<Memory>)
    ensures forall m :: m in s <==> m in rows && localDate(m.createdAt) == target && OwnedBy(m, userId)
    ensures forall m :: multiset(s)[m]
                        == if localDate(m.createdAt) == target && OwnedBy(m, userId) then multiset(rows)[m] else 0
    ensures forall i, j :: 0 <= i < j < |s| ==> s[i].createdAt >= s[j].createdAt
  {
    var p := (m: Memory) => localDate(m.createdAt) == target && OwnedBy(m, userId);
    SortedFilterMembers(rows, p, Newness);
    SortDesc(Filter(rows, p), Newness)
  }

  /** `get_by_date`: the memories whose local creation date is `target`, newest first, at most `limit`. */
  function ByDate(rows: seq<Memory>, target: Date, userId: Option<int>, localDate: int -> Date, limit: nat): seq<Memory>
  {
    Take(OnDate(rows, target, userId, localDate), limit)
  }

  lemma ByDateSpec(rows: seq<Memory>, target: Date, userId: Option<int>, localDate: int -> Date, limit: nat)
    ensures var r := ByDate(rows, target, userId, localDate, limit);
      |r| <= limit
      && (forall i :: 0 <= i < |r| ==> r[i] in rows && localDate(r[i].createdAt) == target && OwnedBy(r[i], userId))
      && (forall i, j :: 0 <= i < j < |r| ==> r[i].createdAt >= r[j].createdAt)
  {
    var s := OnDate(rows, target, userId, localDate);
    var r := Take(s, limit);
    forall i | 0 <= i < |r|
      ensures r[i] in rows && localDate(r[i].createdAt) == target && OwnedBy(r[i], userId)
    {
      assert r[i] == s[i];
    }
    forall i, j | 0 <= i < j < |r|
      ensures r[i].createdAt >= r[j].createdAt
    {
      assert r[i] == s[i] && r[j] == s[j];
    }
  }

  /** Every memory of that day is listed, and it is returned whenever it is among the `limit` newest. */
  lemma ByDateComplete(rows: seq<Memory>, target: Date, userId: Option<int>, localDate: int -> Date,
                       limit: nat, m: Memory)
    requires m in rows && localDate(m.createdAt) == target && OwnedBy(m, userId)
    ensures var s := OnDate(rows, target, userId, localDate);
      var r := ByDate(rows, target, userId, localDate, limit);
      exists k :: 0 <= k < |s| && s[k] == m && (k < limit ==> m in r)
  {
    var s := OnDate(rows, target, userId, localDate);
    var r := ByDate(rows, target, userId, localDate, limit);
    var k :| 0 <= k < |s| && s[k] == m;
    if k < limit {
      assert r[k] == m;
    }
  }

  /** The local creation dates of the rows, one per row. */
  function LocalDates(rows: seq<Memory>, localDate: int -> Date): (r: seq<Date>)
    ensures |r| == |rows|
    ensures forall i :: 0 <= i < |rows| ==> r[i] == localDate(rows[i].createdAt)
  {
    if rows == [] then []
    else LocalDates(rows[..|rows| - 1], localDate) + [localDate(rows[|rows| - 1].createdAt)]
  }

  /** `GROUP BY` local date with `COUNT(id)`, built row by row. */
  function CountByDate(rows: seq<Memory>, localDate: int -> Date): map<Date, nat>
  {
    if rows == [] then map[]
    else
      var m := CountByDate(rows[..|rows| - 1], localDate);
      var d := localDate(rows[|rows| - 1].createdAt);
      m[d := (if d in m then m[d] else 0) + 1]
  }

  /** The counts are the multiset of local dates: a date is marked iff some row falls on it, with that many rows. */
  lemma {:induction false} CountByDateSpec(rows: seq<Memory>, localDate: int -> Date)
    ensures var marks := CountByDate(rows, localDate);
      var dates := multiset(LocalDates(rows, localDate));
      (forall d :: d in marks <==> d in dates) && (forall d :: d in marks ==> marks[d] == dates[d])
    decreases |rows|
  {
    if rows != [] {
      var init := rows[..|rows| - 1];
      CountByDateSpec(init, localDate);
      var d := localDate(rows[|rows| - 1].createdAt);
      assert LocalDates(rows, localDate) == LocalDates(init, localDate) + [d];
    }
  }

  /** `get_calendar_marks`: for each local date, how many of the user's memories were created that day. */
  function CalendarMarks(rows: seq<Memory>, userId: Option<int>, localDate: int -> Date): map<Date, nat>
  {
    CountByDate(Filter(rows, (m: Memory) => OwnedBy(m, userId)), localDate)
  }

  /**
   * The marks are the multiset of the user's local creation dates: a date is
   * marked iff one of the user's memories falls on it, its count is how many
   * do, and the counts add up to the number of the user's memories.
   */
  lemma CalendarMarksSpec(rows: seq<Memory>, userId: Option<int>, localDate: int -> Date)
    ensures var mine := Filter(rows, (m: Memory) => OwnedBy(m, userId));
      var marks := CalendarMarks(rows, userId, localDate);
      var dates := multiset(LocalDates(mine, localDate));
      (forall d :: d in marks <==> d in dates)
      && (forall d :: d in marks ==> marks[d] == dates[d])
      && |dates| == |mine|
  {
    CountByDateSpec(Filter(rows, (m: Memory) => OwnedBy(m, userId)), localDate);
  }

  lemma {:induction false} CountByDateMarksEveryDay(rows: seq<Memory>, localDate: int -> Date, i: nat)
    requires i < |rows|
    ensures localDate(rows[i].createdAt) in CountByDate(rows, localDate)
    ensures CountByDate(rows, localDate)[localDate(rows[i].createdAt)] >= 1
  {
    var dates := LocalDates(rows, localDate);
    CountByDateSpec(rows, localDate);
    assert dates[i] == localDate(rows[i].createdAt);
    assert dates[i] in multiset(dates);
  }

  // ---------------------------------------------------------------------------
  // search_by_keywords: `keywords ILIKE '%' || kw || '%'`.

  /**
   * SQL LIKE: `%` matches any run of characters, `_` any one character, and a
   * backslash makes the next character literal.
   */
  function Like(s: string, p: string): bool
    decreases |s| + |p|
  {
    if p == [] then s == []
    else if p[0] == '%' then Like(s, p[1..]) || (s != [] && Like(s[1..], p))
    else if p[0] == '\\' then |p| >= 2 && s != [] && s[0] == p[1] && Like(s[1..], p[2..])
    else if p[0] == '_' then s != [] && Like(s[1..], p[1..])
    else s != [] && s[0] == p[0] && Like(s[1..], p[1..])
  }

  function ILike(s: string, p: string): bool {
    Like(Lower(s), Lower(p))
  }

  /** The rows `search_by_keywords` takes from: every keyword hit of the user, newest first. */
  function KeywordMatches(rows: seq<Memory>, kw: string, userId: Option<int>,
                          typeFilter: Option<MemoryType>): (s: seq<Memory>)
    ensures forall m :: m in s <==> m in rows && KeywordHit(m, kw, userId, typeFilter)
    ensures forall m :: multiset(s)[m] == if KeywordHit(m, kw, userId, typeFilter) then multiset(rows)[m] else 0
    ensures forall i, j :: 0 <= i < j < |s| ==> s[i].createdAt >= s[j].createdAt
  {
    var p := (m: Memory) => KeywordHit(m, kw, userId, typeFilter);
    SortedFilterMembers(rows, p, Newness);
    SortDesc(Filter(rows, p), Newness)
  }

  /** `search_by_keywords(keywords, user_id, type_filter, limit=10)`. */
  function SearchByKeywords(rows: seq<Memory>, kw: string, userId: Option<int>,
                            typeFilter: Option<MemoryType>, limit: nat): seq<Memory>
  {
    Take(KeywordMatches(rows, kw, userId, typeFilter), limit)
  }

  const DefaultKeywordLimit: nat := 10

  predicate NoWildcards(k: string) {
    forall i :: 0 <= i < |k| ==> k[i] != '%' && k[i] != '_' && k[i] != '\\'
  }

  lemma {:induction false} LikeAnything(s: string)
    ensures Like(s, "%")
    decreases |s|
  {
    assert "%"[1..] == [];
    if s != [] {
      LikeAnything(s[1..]);
    }
  }

  lemma {:induction false} LikeLiteralPrefix(s: string, k: string)
    requires NoWildcards(k)
    ensures Like(s, k + "%") <==> |k| <= |s| && s[..|k|] == k
    decreases |k|
  {
    if k == [] {
      assert k + "%" == "%";
      LikeAnything(s);
    } else if s == [] {
      assert (k + "%")[0] == k[0];
    } else {
      assert (k + "%")[0] == k[0];
      assert (k + "%")[1..] == k[1..] + "%";
      LikeLiteralPrefix(s[1..], k[1..]);
      if |k| <= |s| && s[..|k|] == k {
        assert s[1..][..|k| - 1] == k[1..];
      }
      if s != [] && s[0] == k[0] && |k[1..]| <= |s[1..]| && s[1..][..|k[1..]|] == k[1..] {
        assert s[..|k|] == [s[0]] + s[1..][..|k| - 1];
        assert k == [k[0]] + k[1..];
      }
    }
  }

  lemma {:induction false} LikeLeadingPercent(s: string, q: string)
    ensures Like(s, "%" + q) <==> exists i :: 0 <= i <= |s| && Like(s[i..], q)
    decreases |s|
  {
    var p := "%" + q;
    assert p[0] == '%' && p[1..] == q;
    assert s[0..] == s;
    if s != [] {
      LikeLeadingPercent(s[1..], q);
      if exists i :: 0 <= i <= |s| && Like(s[i..], q) {
        var i :| 0 <= i <= |s| && Like(s[i..], q);
        if i > 0 {
          assert s[1..][i - 1..] == s[i..];
        }
      }
      if exists i :: 0 <= i <= |s[1..]| && Like(s[1..][i..], q) {
        var i :| 0 <= i <= |s[1..]| && Like(s[1..][i..], q);
        assert s[1..][i..] == s[i + 1..];
      }
    }
  }

  /** Without wildcard characters, the pattern `%kw%` is exactly "contains kw". */
  lemma LikeContains(s: string, k: string)
    requires NoWildcards(k)
    ensures Like(s, "%" + k + "%") <==> Contains(s, k)
  {
    assert "%" + k + "%" == "%" + (k + "%");
    LikeLeadingPercent(s, k + "%");
    if exists i :: 0 <= i <= |s| && Like(s[i..], k + "%") {
      var i :| 0 <= i <= |s| && Like(s[i..], k + "%");
      LikeLiteralPrefix(s[i..], k);
      assert s[i..][..|k|] == s[i..i + |k|];
      assert ContainsAt(s, k, i);
    }
    if Contains(s, k) {
      var i :| 0 <= i <= |s| && ContainsAt(s, k, i);
      LikeLiteralPrefix(s[i..], k);
      assert s[i..][..|k|] == s[i..i + |k|];
    }
  }

  lemma NoWildcardsLower(k: string)
    requires NoWildcards(k)
    ensures NoWildcards(Lower(k))
  {
  }

  /** A wildcard in the query is not literal: "_" matches every non-empty keyword string. */
  lemma UnderscoreMatchesAnyone(s: string)
    requires s != []
    ensures ILike(s, "%" + "_" + "%")
  {
    var p := Lower("%" + "_" + "%");
    assert p == "%_%";
    assert p[1..] == "_%";
    assert Like(Lower(s), "_%") by {
      assert "_%"[1..] == "%";
      LikeAnything(Lower(s)[1..]);
    }
  }

  predicate KeywordHit(m: Memory, kw: string, userId: Option<int>, typeFilter: Option<MemoryType>) {
    ILike(m.keywords, "%" + kw + "%") && OwnedBy(m, userId) && OfType(m, typeFilter)
  }

  lemma LowerPattern(kw: string)
    ensures Lower("%" + kw + "%") == "%" + Lower(kw) + "%"
  {
    var p := "%" + kw + "%";
    var q := "%" + Lower(kw) + "%";
    assert |Lower(p)| == |q|;
    forall i | 0 <= i < |q|
      ensures Lower(p)[i] == q[i]
    {
      if 0 < i <= |kw| {
        assert p[i] == kw[i - 1];
      }
    }
  }

  /** For a query without wildcard characters, ILIKE '%kw%' is a case-insensitive substring test. */
  lemma KeywordHitContains(m: Memory, kw: string)
    requires NoWildcards(kw)
    ensures ILike(m.keywords, "%" + kw + "%") <==> Contains(Lower(m.keywords), Lower(kw))
  {
    NoWildcardsLower(kw);
    LowerPattern(kw);
    LikeContains(Lower(m.keywords), Lower(kw));
  }

  lemma SearchByKeywordsSpec(rows: seq<Memory>, kw: string, userId: Option<int>,
                             typeFilter: Option<MemoryType>, limit: nat)
    requires NoWildcards(kw)
    ensures var r := SearchByKeywords(rows, kw, userId, typeFilter, limit);
      |r| <= limit
      && (forall i :: 0 <= i < |r| ==>
            r[i] in rows && OwnedBy(r[i], userId) && OfType(r[i], typeFilter)
            && Contains(Lower(r[i].keywords), Lower(kw)))
      && (forall i, j :: 0 <= i < j < |r| ==> r[i].createdAt >= r[j].createdAt)
  {
    var r := SearchByKeywords(rows, kw, userId, typeFilter, limit);
    forall i | 0 <= i < |r|
      ensures r[i] in rows && OwnedBy(r[i], userId) && OfType(r[i], typeFilter)
        && Contains(Lower(r[i].keywords), Lower(kw))
    {
      SearchByKeywordsHit(rows, kw, userId, typeFilter, limit, i);
      KeywordHitContains(r[i], kw);
    }
    forall i, j | 0 <= i < j < |r|
      ensures r[i].createdAt >= r[j].createdAt
    {
      SearchByKeywordsOrder(rows, kw, userId, typeFilter, limit, i, j);
    }
  }

  lemma SearchByKeywordsHit(rows: seq<Memory>, kw: string, userId: Option<int>,
                            typeFilter: Option<MemoryType>, limit: nat, i: nat)
    requires i < |SearchByKeywords(rows, kw, userId, typeFilter, limit)|
    ensures var r := SearchByKeywords(rows, kw, userId, typeFilter, limit);
      r[i] in rows && KeywordHit(r[i], kw, userId, typeFilter)
  {
    assert SearchByKeywords(rows, kw, userId, typeFilter, limit)[i] == KeywordMatches(rows, kw, userId, typeFilter)[i];
  }

  lemma SearchByKeywordsOrder(rows: seq<Memory>, kw: string, userId: Option<int>,
                              typeFilter: Option<MemoryType>, limit: nat, i: nat, j: nat)
    requires i < j < |SearchByKeywords(rows, kw, userId, typeFilter, limit)|
    ensures var r := SearchByKeywords(rows, kw, userId, typeFilter, limit);
      r[i].createdAt >= r[j].createdAt
  {
    var s := KeywordMatches(rows, kw, userId, typeFilter);
    var r := SearchByKeywords(rows, kw, userId, typeFilter, limit);
    assert r[i] == s[i] && r[j] == s[j];
  }

  /**
   * Every memory of the user whose keywords contain `kw` (ignoring case) is
   * listed, and it is returned whenever it is among the `limit` newest.
   */
  lemma SearchByKeywordsComplete(rows: seq<Memory>, kw: string, userId: Option<int>,
                                 typeFilter: Option<MemoryType>, limit: nat, m: Memory)
    requires NoWildcards(kw)
    requires m in rows && OwnedBy(m, userId) && OfType(m, typeFilter)
    requires Contains(Lower(m.keywords), Lower(kw))
    ensures var s := KeywordMatches(rows, kw, userId, typeFilter);
      var r := SearchByKeywords(rows, kw, userId, typeFilter, limit);
      exists k :: 0 <= k < |s| && s[k] == m && (k < limit ==> m in r)
  {
    KeywordHitContains(m, kw);
    var s := KeywordMatches(rows, kw, userId, typeFilter);
    var r := SearchByKeywords(rows, kw, userId, typeFilter, limit);
    var k :| 0 <= k < |s| && s[k] == m;
    if k < limit {
      assert r[k] == m;
    }
  }

  // ---------------------------------------------------------------------------
  // The repository object: the table and its writes.

  class MemoryRepository {
    var rows: seq<Memory>
    var nextId: int

    ghost predicate Valid()
      reads this
    {
      UniqueIds(rows) && (forall i :: 0 <= i < |rows| ==> 1 <= rows[i].id < nextId) && nextId >= 1
    }

    constructor ()
      ensures Valid() && rows == [] && nextId == 1
    {
      rows := [];
      nextId := 1;
    }

    function GetById(id: int, userId: Option<int>): (r: Option<Memory>)
      reads this
      ensures r == FindMemory(rows, id, userId)
    {
      FindMemory(rows, id, userId)
    }

    /** `create`: the database assigns the next id; the row is appended to the table. */
    method Create(m: Memory) returns (saved: Memory)
      requires Valid()
      modifies this
      ensures Valid()
      ensures saved == m.(id := old(nextId)) && rows == old(rows) + [saved]
      ensures nextId == old(nextId) + 1
      ensures GetById(saved.id, None) == Some(saved)
    {
      saved := m.(id := nextId);
      rows := rows + [saved];
      nextId := nextId + 1;
      FindMemoryOwnership(rows, |rows| - 1, 0);
    }

    /** `update`: the stored row with the same id is overwritten. */
    method Update(m: Memory)
      requires Valid()
      modifies this
      ensures Valid() && nextId == old(nextId) && |rows| == |old(rows)|
      ensures forall i :: 0 <= i < |rows| ==> rows[i] == (if old(rows)[i].id == m.id then m else old(rows)[i])
    {
      ReplaceKeepsUnique(rows, m, MemoryId);
      rows := ReplaceBy(rows, m, MemoryId);
    }

    /** `delete`: the row with that id goes; every other row stays in order. */
    method Delete(m: Memory)
      requires Valid()
      modifies this
      ensures Valid() && nextId == old(nextId)
      ensures rows == Filter(old(rows), (x: Memory) => x.id != m.id)
      ensures GetById(m.id, None).None?
    {
      FilterKeepsUnique(rows, MemoryId, (x: Memory) => x.id != m.id);
      rows := Filter(rows, (x: Memory) => x.id != m.id);
    }
  }
}
