/** What the database does for a repository query, restated over sequences:
    select the rows a predicate accepts, order them by one column descending
    (`Sort.by(field).descending()`), and cut out one page
    (`PageRequest.of(from / size, size)`). */
module Queries {

  /** The rows of `s` that `p` accepts, in the order of `s`. */
  function Filter<T>(s: seq<T>, p: T -> bool): (r: seq<T>)
    ensures |r| <= |s|
    ensures forall i :: 0 <= i < |r| ==> r[i] in s && p(r[i])
    ensures forall i :: 0 <= i < |s| && p(s[i]) ==> s[i] in r
  {
    if s == [] then []
    else if p(s[0]) then [s[0]] + Filter(s[1..], p)
    else Filter(s[1..], p)
  }

  /** A predicate that accepts no row selects nothing. */
  lemma {:induction false} FilterNone<T>(s: seq<T>, p: T -> bool)
    requires forall i :: 0 <= i < |s| ==> !p(s[i])
    ensures Filter(s, p) == []
  {
    if s != [] {
      FilterNone(s[1..], p);
    }
  }

  /** Every row comes no later than the rows whose key is larger. */
  ghost predicate SortedDesc<T>(s: seq<T>, key: T -> int)
  {
    forall i, j :: 0 <= i < j < |s| ==> key(s[i]) >= key(s[j])
  }

  /** Puts `x` in front of the first row whose key does not exceed its own. */
  function InsertDesc<T>(x: T, s: seq<T>, key: T -> int): (r: seq<T>)
    requires SortedDesc(s, key)
    ensures |r| == |s| + 1
    ensures r[0] == x || (s != [] && r[0] == s[0])
    ensures SortedDesc(r, key)
    ensures multiset(r) == multiset(s) + multiset{x}
  {
    if s == [] || key(s[0]) <= key(x) then
      [x] + s
    else
      assert s == [s[0]] + s[1..];
      [s[0]] + InsertDesc(x, s[1..], key)
  }

  /** The rows of `s` ordered by `key`, largest first: what `Sort.by(field).descending()`
      asks of the database. Rows with equal keys come in an order the database
      does not promise; this one keeps them in the order of `s`. */
  function SortDesc<T>(s: seq<T>, key: T -> int): (r: seq<T>)
    ensures |r| == |s|
    ensures multiset(r) == multiset(s)
    ensures SortedDesc(r, key)
  {
    if s == [] then []
    else
      assert s == [s[0]] + s[1..];
      InsertDesc(s[0], SortDesc(s[1..], key), key)
  }

  /** Index of the first row of page `from / size` (Java's `/`, which agrees
      with Dafny's on the non-negative offsets the controllers admit). */
  function PageStart(from: int, size: int): (lo: int)
    requires from >= 0 && size > 0
    ensures 0 <= lo <= from
  {
    (from / size) * size
  }

  /** `PageRequest.of(from / size, size)` applied to the ordered rows `s`. */
  function Page<T>(s: seq<T>, from: int, size: int): (r: seq<T>)
    requires from >= 0 && size > 0
    ensures |r| <= size
    ensures |r| == if PageStart(from, size) >= |s| then 0
                   else if |s| - PageStart(from, size) < size then |s| - PageStart(from, size)
                   else size
    ensures forall i :: 0 <= i < |r| ==> r[i] == s[PageStart(from, size) + i]
  {
    var lo := PageStart(from, size);
    if lo >= |s| then []
    else if |s| - lo < size then s[lo..]
    else s[lo..lo + size]
  }

  lemma PageInSource<T>(s: seq<T>, from: int, size: int)
    requires from >= 0 && size > 0
    ensures multiset(Page(s, from, size)) <= multiset(s)
    ensures forall i :: 0 <= i < |Page(s, from, size)| ==> Page(s, from, size)[i] in s
  {
    var p := Page(s, from, size);
    var lo := PageStart(from, size);
    if lo < |s| {
      var hi := lo + |p|;
      assert p == s[lo..hi];
      calc {
        multiset(s);
        { assert s == s[..lo] + (s[lo..hi] + s[hi..]); }
        multiset(s[..lo]) + multiset(s[lo..hi] + s[hi..]);
      }
      forall i | 0 <= i < |p|
        ensures p[i] in s
      {
        assert p[i] == s[lo + i];
      }
    }
  }

  /** A page of a descending sequence is descending. */
  lemma PageKeepsOrder<T>(s: seq<T>, from: int, size: int, key: T -> int)
    requires from >= 0 && size > 0
    requires SortedDesc(s, key)
    ensures SortedDesc(Page(s, from, size), key)
  {
  }
}
