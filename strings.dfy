/**
 * The handful of Python `str` operations the core relies on: ASCII case
 * folding (`lower`), whitespace stripping (`strip`), searching (`in`,
 * `find`, `rfind`), `split` on a separator and `join`.
 */
module Strings {
  import opened Wrappers

  /** ASCII lower-casing (other scripts have no case in this model). */
  function LowerChar(c: char): char {
    if 'A' <= c <= 'Z' then (c as int + 32) as char else c
  }

  function Lower(s: string): (r: string)
    ensures |r| == |s|
    ensures forall i :: 0 <= i < |s| ==> r[i] == LowerChar(s[i])
  {
    if s == [] then [] else [LowerChar(s[0])] + Lower(s[1..])
  }

  predicate ContainsAt(s: string, k: string, i: int) {
    0 <= i && i + |k| <= |s| && s[i..i + |k|] == k
  }

  /** `k in s`: `k` occurs somewhere in `s`. */
  predicate Contains(s: string, k: string) {
    exists i :: 0 <= i <= |s| && ContainsAt(s, k, i)
  }

  // ---------------------------------------------------------------------------
  // Searching

  /** `s.find(sep, k)`: the first position at or after `k` where `sep` occurs. */
  function IndexFrom(s: string, sep: string, k: nat): (r: Option<nat>)
    requires |sep| > 0 && k <= |s|
    ensures r.Some? ==> k <= r.value && ContainsAt(s, sep, r.value)
    decreases |s| - k
  {
    if k + |sep| > |s| then None
    else if s[k..k + |sep|] == sep then Some(k)
    else IndexFrom(s, sep, k + 1)
  }

  /** `find` gives the first occurrence, and none exactly when there is none. */
  lemma {:induction false} IndexFromFirst(s: string, sep: string, k: nat)
    requires |sep| > 0 && k <= |s|
    ensures var r := IndexFrom(s, sep, k);
      && (r.None? <==> forall j :: k <= j <= |s| ==> !ContainsAt(s, sep, j))
      && (r.Some? ==> forall j :: k <= j < r.value ==> !ContainsAt(s, sep, j))
    decreases |s| - k
  {
    if k + |sep| > |s| {
    } else if s[k..k + |sep|] == sep {
      assert ContainsAt(s, sep, k);
    } else {
      IndexFromFirst(s, sep, k + 1);
    }
  }

  /** `sep in s` is exactly "find returns a position". */
  lemma IndexFromContains(s: string, sep: string)
    requires |sep| > 0
    ensures IndexFrom(s, sep, 0).Some? <==> Contains(s, sep)
  {
    IndexFromFirst(s, sep, 0);
    if Contains(s, sep) {
      var i :| 0 <= i <= |s| && ContainsAt(s, sep, i);
    }
  }

  /** `s.rfind(c)`: the last position holding `c`. */
  function LastIndexOf(s: string, c: char): (r: Option<nat>)
    ensures r.None? <==> forall j :: 0 <= j < |s| ==> s[j] != c
    ensures r.Some? ==> r.value < |s| && s[r.value] == c
    ensures r.Some? ==> forall j :: r.value < j < |s| ==> s[j] != c
  {
    if s == [] then None
    else if s[|s| - 1] == c then Some(|s| - 1)
    else LastIndexOf(s[..|s| - 1], c)
  }

  // ---------------------------------------------------------------------------
  // strip

  /** The ASCII characters `str.isspace` accepts (tab to carriage return,
      the four information separators, and the space). */
  predicate IsSpace(c: char) {
    var n := c as int;
    n == 32 || 9 <= n <= 13 || 28 <= n <= 31
  }

  /** The first position at or after `i` that does not hold whitespace. */
  function FirstNonSpace(s: string, i: nat): (r: nat)
    requires i <= |s|
    ensures i <= r <= |s|
    ensures forall k :: i <= k < r ==> IsSpace(s[k])
    ensures r < |s| ==> !IsSpace(s[r])
    decreases |s| - i
  {
    if i < |s| && IsSpace(s[i]) then FirstNonSpace(s, i + 1) else i
  }

  /** The end of `s[lo..j]` once its trailing whitespace is dropped. */
  function EndNonSpace(s: string, lo: nat, j: nat): (r: nat)
    requires lo <= j <= |s|
    ensures lo <= r <= j
    ensures forall k :: r <= k < j ==> IsSpace(s[k])
    ensures r > lo ==> !IsSpace(s[r - 1])
    decreases j
  {
    if j > lo && IsSpace(s[j - 1]) then EndNonSpace(s, lo, j - 1) else j
  }

  /**
   * `s.strip()`: the slice of `s` between its leading and its trailing
   * whitespace; everything dropped is whitespace and the ends of the
   * result are not.
   */
  function Strip(s: string): (r: string)
    ensures var i := FirstNonSpace(s, 0); var j := EndNonSpace(s, i, |s|);
      && r == s[i..j]
      && (forall k :: 0 <= k < i ==> IsSpace(s[k]))
      && (forall k :: j <= k < |s| ==> IsSpace(s[k]))
    ensures r == [] || (!IsSpace(r[0]) && !IsSpace(r[|r| - 1]))
  {
    var i := FirstNonSpace(s, 0);
    var j := EndNonSpace(s, i, |s|);
    assert i < j ==> !IsSpace(s[i]);
    s[i..j]
  }

  /** A string with no whitespace at either end is left as it is. */
  lemma StripTrimmed(s: string)
    requires s == [] || (!IsSpace(s[0]) && !IsSpace(s[|s| - 1]))
    ensures Strip(s) == s
  {
    assert FirstNonSpace(s, 0) == 0;
    if s != [] {
      assert EndNonSpace(s, 0, |s|) == |s|;
    }
  }

  /** `s.lstrip(c)` for one character. */
  function LStripChar(s: string, c: char): (r: string)
    ensures |r| <= |s| && r == s[|s| - |r|..]
    ensures r != [] ==> r[0] != c
    ensures forall i :: 0 <= i < |s| - |r| ==> s[i] == c
  {
    if s != [] && s[0] == c then LStripChar(s[1..], c) else s
  }

  // ---------------------------------------------------------------------------
  // join and split

  /** `sep.join(parts)`. */
  function Join(parts: seq<string>, sep: string): (r: string)
    ensures parts == [] ==> r == ""
    ensures |parts| == 1 ==> r == parts[0]
  {
    if parts == [] then ""
    else if |parts| == 1 then parts[0]
    else parts[0] + sep + Join(parts[1..], sep)
  }

  /** Adding one more part appends the separator and that part. */
  lemma {:induction false} JoinSnoc(parts: seq<string>, p: string, sep: string)
    requires parts != []
    ensures Join(parts + [p], sep) == Join(parts, sep) + sep + p
    decreases |parts|
  {
    var q := parts + [p];
    if |parts| == 1 {
      assert q[1..] == [p];
    } else {
      assert q[1..] == parts[1..] + [p];
      JoinSnoc(parts[1..], p, sep);
    }
  }

  /**
   * `s[k:].split(sep)`: the pieces between successive non-overlapping
   * occurrences of `sep`, scanning left to right.
   */
  function SplitFrom(s: string, sep: string, k: nat): (r: seq<string>)
    requires |sep| > 0 && k <= |s|
    ensures |r| >= 1
    ensures |r| == 1 <==> IndexFrom(s, sep, k).None?
    decreases |s| - k
  {
    match IndexFrom(s, sep, k)
    case None => [s[k..]]
    case Some(i) => [s[k..i]] + SplitFrom(s, sep, i + |sep|)
  }

  /** `s.split(sep)` for a non-empty separator. */
  function Split(s: string, sep: string): (r: seq<string>)
    requires |sep| > 0
    ensures |r| >= 1
  {
    SplitFrom(s, sep, 0)
  }

  lemma JoinCons(a: string, rest: seq<string>, sep: string)
    requires rest != []
    ensures Join([a] + rest, sep) == a + sep + Join(rest, sep)
  {
    assert ([a] + rest)[1..] == rest;
  }

  /** Cutting `s[k..]` around an occurrence of `sep` at `i`. */
  lemma SliceAround(s: string, sep: string, k: nat, i: nat)
    requires k <= i && ContainsAt(s, sep, i)
    ensures s[k..] == s[k..i] + sep + s[i + |sep|..]
  {
    var m := i + |sep|;
    assert s[k..] == s[k..i] + s[i..m] + s[m..];
  }

  /** One split step read backwards: a piece, the separator, then the rest joined. */
  lemma JoinPieces(s: string, sep: string, k: nat, i: nat, rest: seq<string>)
    requires k <= i && ContainsAt(s, sep, i)
    requires rest != [] && Join(rest, sep) == s[i + |sep|..]
    ensures Join([s[k..i]] + rest, sep) == s[k..]
  {
    JoinCons(s[k..i], rest, sep);
    SliceAround(s, sep, k, i);
  }

  /** Splitting and joining back with the same separator gives the input. */
  lemma {:induction false} SplitFromJoin(s: string, sep: string, k: nat)
    requires |sep| > 0 && k <= |s|
    ensures Join(SplitFrom(s, sep, k), sep) == s[k..]
    decreases |s| - k
  {
    match IndexFrom(s, sep, k)
    case None =>
    case Some(i) =>
      var m := i + |sep|;
      var rest := SplitFrom(s, sep, m);
      assert SplitFrom(s, sep, k) == [s[k..i]] + rest;
      SplitFromJoin(s, sep, m);
      JoinPieces(s, sep, k, i, rest);
  }

  lemma SplitJoin(s: string, sep: string)
    requires |sep| > 0
    ensures Join(Split(s, sep), sep) == s
  {
    SplitFromJoin(s, sep, 0);
  }

  /** Without an occurrence of the separator, `split` gives the whole string. */
  lemma SplitAbsent(s: string, sep: string)
    requires |sep| > 0 && !Contains(s, sep)
    ensures Split(s, sep) == [s]
  {
    IndexFromContains(s, sep);
  }

  /** With exactly one occurrence `s == a + sep + b`, `split` gives `[a, b]`. */
  lemma SplitOnce(a: string, sep: string, b: string)
    requires |sep| > 0
    requires forall j :: 0 <= j < |a| ==> !ContainsAt(a + sep + b, sep, j)
    requires !Contains(b, sep)
    ensures Split(a + sep + b, sep) == [a, b]
  {
    var s := a + sep + b;
    var k := |a| + |sep|;
    assert ContainsAt(s, sep, |a|);
    IndexFromFirst(s, sep, 0);
    assert IndexFrom(s, sep, 0) == Some(|a|);
    AbsentInSuffix(a + sep, b, sep);
    IndexFromFirst(s, sep, k);
    assert SplitFrom(s, sep, k) == [b];
    assert SplitFrom(s, sep, 0) == [s[0..|a|]] + [b];
    assert s[0..|a|] == a;
  }

  /** The first piece of `split` is everything before the first occurrence. */
  lemma SplitHead(a: string, sep: string, b: string)
    requires |sep| > 0
    requires forall j :: 0 <= j < |a| ==> !ContainsAt(a + sep + b, sep, j)
    ensures Split(a + sep + b, sep)[0] == a
  {
    var s := a + sep + b;
    assert ContainsAt(s, sep, |a|);
    IndexFromFirst(s, sep, 0);
    assert IndexFrom(s, sep, 0) == Some(|a|);
    assert s[0..|a|] == a;
  }

  /** An occurrence starting inside the suffix `b` of `p + b` is an occurrence in `b`. */
  lemma AbsentInSuffix(p: string, b: string, sep: string)
    requires !Contains(b, sep)
    ensures forall j :: |p| <= j <= |p + b| ==> !ContainsAt(p + b, sep, j)
  {
    var s := p + b;
    forall j | |p| <= j <= |s|
      ensures !ContainsAt(s, sep, j)
    {
      if ContainsAt(s, sep, j) {
        assert s[j..j + |sep|] == b[j - |p|..j - |p| + |sep|];
        assert ContainsAt(b, sep, j - |p|);
      }
    }
  }
}
