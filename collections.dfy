/** The document-store primitives the handlers use, over a collection held
    as a sequence of documents in insertion (natural) order:
    `find_one` is FindIndex/FindFirst, `update_one` is UpdateFirst,
    `find(filter)` is Filter, `.sort(key, -1).limit(k)` is TopByKey. */
module Collections {
  import opened Common

  /** No document of s satisfies the filter m. */
  predicate NoMatch<T>(s: seq<T>, m: T -> bool)
  {
    forall i :: 0 <= i < |s| ==> !m(s[i])
  }

  /** At most one document of s satisfies the filter m. */
  predicate AtMostOneMatch<T>(s: seq<T>, m: T -> bool)
  {
    forall i, j :: 0 <= i < j < |s| && m(s[i]) ==> !m(s[j])
  }

  /** No two documents of s share a key. */
  predicate Distinct<T, K(==)>(s: seq<T>, key: T -> K)
  {
    forall i, j :: 0 <= i < j < |s| ==> key(s[i]) != key(s[j])
  }

  /** The position of the first document satisfying m, if any. */
  function FindIndex<T>(s: seq<T>, m: T -> bool): (r: Option<nat>)
    ensures r.None? <==> NoMatch(s, m)
    ensures r.Some? ==> r.value < |s| && m(s[r.value]) && NoMatch(s[..r.value], m)
  {
    if s == [] then None
    else if m(s[0]) then Some(0)
    else match FindIndex(s[1..], m)
      case None => None
      case Some(k) =>
        Some(k + 1)
  }

  /** `find_one`: the first document satisfying m, if any. */
  function FindFirst<T>(s: seq<T>, m: T -> bool): (r: Option<T>)
    ensures r.None? <==> NoMatch(s, m)
    ensures r.Some? ==> r.value in s && m(r.value)
    ensures r.Some? ==> exists i :: 0 <= i < |s| && s[i] == r.value && NoMatch(s[..i], m)
  {
    match FindIndex(s, m)
    case None => None
    case Some(i) => Some(s[i])
  }

  /** `update_one`: rewrite the first document satisfying m with f; every
      other document, and the order, stay as they were. */
  function UpdateFirst<T>(s: seq<T>, m: T -> bool, f: T -> T): (r: seq<T>)
    ensures |r| == |s|
    ensures NoMatch(s, m) ==> r == s
    ensures forall i :: 0 <= i < |s| ==> r[i] == if m(s[i]) && NoMatch(s[..i], m) then f(s[i]) else s[i]
  {
    match FindIndex(s, m)
    case None => s
    case Some(k) =>
      assert forall i :: k < i < |s| ==> s[..i][k] == s[k];
      s[k := f(s[k])]
  }

  /** When the filter singles out at most one document, `update_one`
      rewrites exactly the matching documents. */
  lemma UpdateFirstSingle<T>(s: seq<T>, m: T -> bool, f: T -> T)
    requires AtMostOneMatch(s, m)
    ensures forall i :: 0 <= i < |s| ==> UpdateFirst(s, m, f)[i] == if m(s[i]) then f(s[i]) else s[i]
  {
    forall i | 0 <= i < |s| && m(s[i])
      ensures NoMatch(s[..i], m)
    {
      forall j | 0 <= j < i ensures !m(s[..i][j]) {
        assert s[..i][j] == s[j];
      }
    }
  }

  /** Repeating an `update_one` whose update keeps the document matching
      the filter and is itself idempotent changes nothing more. */
  lemma UpdateFirstIdempotent<T>(s: seq<T>, m: T -> bool, f: T -> T)
    requires forall x :: m(f(x)) == m(x)
    requires forall x :: f(f(x)) == f(x)
    ensures UpdateFirst(UpdateFirst(s, m, f), m, f) == UpdateFirst(s, m, f)
  {
    var a := UpdateFirst(s, m, f);
    var b := UpdateFirst(a, m, f);
    assert forall i :: 0 <= i < |s| ==> m(a[i]) == m(s[i]);
    forall i | 0 <= i < |s| ensures NoMatch(a[..i], m) == NoMatch(s[..i], m) {
      assert forall j :: 0 <= j < i ==> a[..i][j] == a[j] && s[..i][j] == s[j];
    }
    assert forall i :: 0 <= i < |s| ==> b[i] == a[i];
  }

  /** After an `update_one` whose update makes the document stop matching,
      no document matches when at most one did before. */
  lemma UpdateFirstConsumesMatch<T>(s: seq<T>, m: T -> bool, f: T -> T)
    requires AtMostOneMatch(s, m)
    requires forall x :: !m(f(x))
    ensures NoMatch(UpdateFirst(s, m, f), m)
  {
    UpdateFirstSingle(s, m, f);
  }

  /** An update that leaves a key field alone keeps that key unique. */
  lemma UpdateFirstKeepsDistinct<T, K>(s: seq<T>, m: T -> bool, f: T -> T, key: T -> K)
    requires Distinct(s, key)
    requires forall x :: key(f(x)) == key(x)
    ensures Distinct(UpdateFirst(s, m, f), key)
  {
    var r := UpdateFirst(s, m, f);
    assert forall i :: 0 <= i < |s| ==> key(r[i]) == key(s[i]);
  }

  /** `find(filter)`: the documents satisfying p, in their natural order
      (FilterSnoc and FilterAppend state the order). */
  function Filter<T(!new)>(s: seq<T>, p: T -> bool): (r: seq<T>)
    ensures |r| <= |s|
    ensures forall x :: multiset(r)[x] == if p(x) then multiset(s)[x] else 0
    ensures forall x :: x in r <==> x in s && p(x)
    decreases |s|
  {
    if s == [] then []
    else
      var init := Filter(s[..|s| - 1], p);
      assert s == s[..|s| - 1] + [s[|s| - 1]];
      if p(s[|s| - 1]) then init + [s[|s| - 1]] else init
  }

  /** A document added at the end is listed last when it matches. */
  lemma FilterSnoc<T(!new)>(s: seq<T>, x: T, p: T -> bool)
    ensures Filter(s + [x], p) == Filter(s, p) + (if p(x) then [x] else [])
  {
    assert (s + [x])[..|s|] == s;
  }

  lemma SplitLast<T>(a: seq<T>, b: seq<T>)
    requires b != []
    ensures b == b[..|b| - 1] + [b[|b| - 1]]
    ensures a + b == (a + b[..|b| - 1]) + [b[|b| - 1]]
  {
  }

  lemma ConcatAssoc<T>(x: seq<T>, y: seq<T>, z: seq<T>)
    ensures (x + y) + z == x + (y + z)
  {
  }

  /** `find(filter)` keeps natural order: filtering a collection made of
      two parts lists the first part's matches before the second's. */
  lemma {:induction false} FilterAppend<T(!new)>(a: seq<T>, b: seq<T>, p: T -> bool)
    ensures Filter(a + b, p) == Filter(a, p) + Filter(b, p)
    decreases |b|
  {
    if b == [] {
      assert a + b == a;
    } else {
      var init, x := b[..|b| - 1], b[|b| - 1];
      SplitLast(a, b);
      FilterAppend(a, init, p);
      FilterSnoc(a + init, x, p);
      FilterSnoc(init, x, p);
      ConcatAssoc(Filter(a, p), Filter(init, p), if p(x) then [x] else []);
    }
  }

  /** The positions of s whose document satisfies p. */
  function MatchingPositions<T>(s: seq<T>, p: T -> bool): set<nat>
  {
    set i: nat | i < |s| && p(s[i])
  }

  lemma MatchingPositionsSnoc<T>(s: seq<T>, p: T -> bool)
    requires s != []
    ensures var n := |s| - 1;
            |MatchingPositions(s, p)| == |MatchingPositions(s[..n], p)| + (if p(s[n]) then 1 else 0)
  {
    var n := |s| - 1;
    var before := MatchingPositions(s[..n], p);
    var all := MatchingPositions(s, p);
    var last: set<nat> := if p(s[n]) then {n} else {};
    forall i: nat ensures i in all <==> i in before + last {
      if i < n {
        assert s[..n][i] == s[i];
      }
    }
    assert all == before + last;
    assert before !! last;
  }

  /** The filtered collection has one document per matching position:
      `count_documents(filter)` is the size of its `find(filter)`. */
  lemma {:induction false} FilterCountsMatches<T(!new)>(s: seq<T>, p: T -> bool)
    ensures |Filter(s, p)| == |MatchingPositions(s, p)|
    decreases |s|
  {
    if s != [] {
      var n := |s| - 1;
      FilterCountsMatches(s[..n], p);
      MatchingPositionsSnoc(s, p);
    }
  }

  /** Keys are non-increasing along s. */
  predicate SortedDesc<T>(s: seq<T>, key: T -> int)
  {
    forall i, j :: 0 <= i < j < |s| ==> key(s[i]) >= key(s[j])
  }

  /** A bound on the keys of s and on the key of x bounds the keys of any
      rearrangement of s with x added. */
  lemma KeysBounded<T>(r: seq<T>, s: seq<T>, x: T, key: T -> int, bound: int)
    requires multiset(r) == multiset(s) + multiset{x}
    requires key(x) <= bound
    requires forall i :: 0 <= i < |s| ==> key(s[i]) <= bound
    ensures forall i :: 0 <= i < |r| ==> key(r[i]) <= bound
  {
    forall i | 0 <= i < |r| ensures key(r[i]) <= bound {
      var y := r[i];
      assert y in multiset(r);
      if y != x {
        assert y in multiset(s);
        var j :| 0 <= j < |s| && s[j] == y;
      }
    }
  }

  /** Insert x before the first element whose key is not greater, so that
      equal keys keep their order. */
  function InsertDesc<T>(x: T, s: seq<T>, key: T -> int): (r: seq<T>)
    requires SortedDesc(s, key)
    ensures SortedDesc(r, key)
    ensures multiset(r) == multiset(s) + multiset{x}
  {
    if s == [] then [x]
    else if key(x) >= key(s[0]) then [x] + s
    else
      var rest := InsertDesc(x, s[1..], key);
      assert s == [s[0]] + s[1..];
      assert forall i :: 0 <= i < |s[1..]| ==> key(s[1..][i]) <= key(s[0]) by {
        forall i | 0 <= i < |s[1..]| ensures key(s[1..][i]) <= key(s[0]) {
          assert s[1..][i] == s[i + 1];
        }
      }
      KeysBounded(rest, s[1..], x, key, key(s[0]));
      [s[0]] + rest
  }

  /** A stable sort by descending key. */
  function SortDesc<T>(s: seq<T>, key: T -> int): (r: seq<T>)
    ensures SortedDesc(r, key)
    ensures multiset(r) == multiset(s)
  {
    if s == [] then []
    else
      assert s == [s[0]] + s[1..];
      InsertDesc(s[0], SortDesc(s[1..], key), key)
  }

  /** `.limit(k)` / `.to_list(k)`: the first k documents. */
  function Take<T>(s: seq<T>, k: nat): (r: seq<T>)
    ensures |r| == Min(|s|, k)
    ensures forall i :: 0 <= i < |r| ==> r[i] == s[i]
  {
    if |s| <= k then s else s[..k]
  }

  /** `.sort(key, -1).limit(k)`: the k documents with the largest keys,
      largest first. */
  function TopByKey<T>(s: seq<T>, key: T -> int, k: nat): (r: seq<T>)
    ensures |r| == Min(|s|, k)
    ensures SortedDesc(r, key)
    ensures multiset(r) <= multiset(s)
    ensures |s| <= k ==> multiset(r) == multiset(s)
  {
    var sorted := SortDesc(s, key);
    assert |sorted| == |multiset(sorted)| == |multiset(s)| == |s|;
    assert sorted == sorted[..Min(|s|, k)] + sorted[Min(|s|, k)..];
    Take(sorted, k)
  }

  /** Whatever `.sort(key, -1).limit(k)` leaves out has a key no larger than
      any key it returns. */
  lemma TopByKeyExcluded<T>(s: seq<T>, key: T -> int, k: nat, x: T)
    requires x in s && x !in TopByKey(s, key, k)
    ensures forall i :: 0 <= i < |TopByKey(s, key, k)| ==> key(x) <= key(TopByKey(s, key, k)[i])
  {
    var sorted := SortDesc(s, key);
    var r := TopByKey(s, key, k);
    assert x in multiset(sorted);
    var j :| 0 <= j < |sorted| && sorted[j] == x;
    assert |r| <= j;
    forall i | 0 <= i < |r| ensures key(x) <= key(r[i]) {
      assert r[i] == sorted[i];
    }
  }
}
