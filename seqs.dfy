/**
 * Sequence operations the pipeline is built from: JavaScript's `filter`,
 * `flatMap`, `Array.from(new Set(..))`, `includes` on strings and the stable
 * `sort`, each with the facts the rest of the model relies on.
 *
 * Recursive definitions peel off the LAST element, so that they line up with
 * loops that push onto the end of an array.
 */
module Seqs {

  predicate NoDuplicates<T(==)>(s: seq<T>) {
    forall i, j :: 0 <= i < j < |s| ==> s[i] != s[j]
  }

  /** `a` can be obtained from `b` by deleting elements (order is kept). */
  predicate IsSubsequence<T(==)>(a: seq<T>, b: seq<T>)
    decreases |b|
  {
    if a == [] then true
    else if b == [] then false
    else if a[|a| - 1] == b[|b| - 1] then IsSubsequence(a[..|a| - 1], b[..|b| - 1])
    else IsSubsequence(a, b[..|b| - 1])
  }

  /** `s.filter(keep)`. */
  function Filter<T(!new)>(s: seq<T>, keep: T -> bool): (r: seq<T>)
    ensures |r| <= |s|
    ensures forall x :: x in r <==> x in s && keep(x)
    decreases |s|
  {
    if s == [] then []
    else
      var init := s[..|s| - 1];
      var last := s[|s| - 1];
      assert s == init + [last];
      var r := Filter(init, keep);
      if keep(last) then r + [last] else r
  }

  /** Filtering keeps every occurrence of a kept element and none of the others. */
  lemma {:induction false} FilterMultiset<T(!new)>(s: seq<T>, keep: T -> bool)
    ensures forall x :: multiset(Filter(s, keep))[x] == if keep(x) then multiset(s)[x] else 0
    decreases |s|
  {
    if s != [] {
      var init, last := s[..|s| - 1], s[|s| - 1];
      assert s == init + [last];
      FilterMultiset(init, keep);
    }
  }

  lemma FilterSnoc<T(!new)>(s: seq<T>, x: T, keep: T -> bool)
    ensures Filter(s + [x], keep) == if keep(x) then Filter(s, keep) + [x] else Filter(s, keep)
  {
    assert (s + [x])[..|s|] == s;
  }

  lemma {:induction false} FilterIsSubsequence<T(!new)>(s: seq<T>, keep: T -> bool)
    ensures IsSubsequence(Filter(s, keep), s)
    decreases |s|
  {
    if s != [] {
      var init, last := s[..|s| - 1], s[|s| - 1];
      var r := Filter(init, keep);
      FilterIsSubsequence(init, keep);
      if keep(last) {
        assert (r + [last])[..|r|] == r;
      } else if r != [] {
        assert r[|r| - 1] in r;
      }
    }
  }

  /** Filtering keeps everything when every element passes. */
  lemma {:induction false} FilterAll<T(!new)>(s: seq<T>, keep: T -> bool)
    requires forall x :: x in s ==> keep(x)
    ensures Filter(s, keep) == s
    decreases |s|
  {
    if s != [] {
      assert s == s[..|s| - 1] + [s[|s| - 1]];
      FilterAll(s[..|s| - 1], keep);
    }
  }

  /** Filtering twice with the same test changes nothing the second time. */
  lemma FilterIdempotent<T(!new)>(s: seq<T>, keep: T -> bool)
    ensures Filter(Filter(s, keep), keep) == Filter(s, keep)
  {
    FilterAll(Filter(s, keep), keep);
  }

  /** A sequence has no duplicates exactly when no element occurs twice in its multiset. */
  lemma {:induction false} NoDuplicatesMultiset<T>(s: seq<T>)
    ensures NoDuplicates(s) <==> forall x :: multiset(s)[x] <= 1
    decreases |s|
  {
    if s != [] {
      var init, last := s[..|s| - 1], s[|s| - 1];
      assert s == init + [last];
      NoDuplicatesMultiset(init);
      if NoDuplicates(s) {
        assert NoDuplicates(init) by {
          forall i, j | 0 <= i < j < |init| ensures init[i] != init[j] {
            assert init[i] == s[i] && init[j] == s[j];
          }
        }
      } else {
        var i, j :| 0 <= i < j < |s| && s[i] == s[j];
        if j < |s| - 1 {
          assert init[i] == init[j];
          var x :| multiset(init)[x] > 1;
          assert multiset(s)[x] > 1;
        } else {
          assert init[i] == last;
          assert multiset(s)[last] > 1;
        }
      }
    }
  }

  /** Filtering keeps a sorted sequence sorted. */
  lemma {:induction false} FilterSorted<T(!new)>(s: seq<T>, keep: T -> bool, key: T -> seq<int>)
    requires SortedBy(s, key)
    ensures SortedBy(Filter(s, keep), key)
    decreases |s|
  {
    if s != [] {
      var init, last := s[..|s| - 1], s[|s| - 1];
      assert s == init + [last];
      assert SortedBy(init, key) by {
        forall i, j | 0 <= i < j < |init| ensures LexLe(key(init[i]), key(init[j])) {
          assert init[i] == s[i] && init[j] == s[j];
        }
      }
      FilterSorted(init, keep, key);
      var r := Filter(init, keep);
      if keep(last) {
        var r' := r + [last];
        forall i, j | 0 <= i < j < |r'| ensures LexLe(key(r'[i]), key(r'[j])) {
          if j == |r| {
            assert r'[i] == r[i] && r[i] in r;
            var k :| 0 <= k < |init| && init[k] == r[i];
            assert s[k] == r[i];
          } else {
            assert r'[i] == r[i] && r'[j] == r[j];
          }
        }
      }
    }
  }

  /** `s.flatMap(f)`: the concatenation of `f` over the elements, in order. */
  function FlatMap<T, U>(s: seq<T>, f: T -> seq<U>): seq<U>
    decreases |s|
  {
    if s == [] then [] else FlatMap(s[..|s| - 1], f) + f(s[|s| - 1])
  }

  lemma FlatMapSnoc<T, U>(s: seq<T>, x: T, f: T -> seq<U>)
    ensures FlatMap(s + [x], f) == FlatMap(s, f) + f(x)
  {
    assert (s + [x])[..|s|] == s;
  }

  lemma {:induction false} FlatMapAppend<T, U>(a: seq<T>, b: seq<T>, f: T -> seq<U>)
    ensures FlatMap(a + b, f) == FlatMap(a, f) + FlatMap(b, f)
    decreases |b|
  {
    if b == [] {
      assert a + b == a;
    } else {
      var init, last := b[..|b| - 1], b[|b| - 1];
      assert a + b == (a + init) + [last];
      assert b == init + [last];
      FlatMapSnoc(a + init, last, f);
      FlatMapSnoc(init, last, f);
      FlatMapAppend(a, init, f);
    }
  }

  /** An element of a flat map comes from some element, and every part is kept. */
  lemma {:induction false} InFlatMap<T, U>(s: seq<T>, f: T -> seq<U>, y: U)
    ensures y in FlatMap(s, f) <==> exists x :: x in s && y in f(x)
    decreases |s|
  {
    if s != [] {
      var init, last := s[..|s| - 1], s[|s| - 1];
      assert s == init + [last];
      InFlatMap(init, f, y);
      assert forall x :: x in s <==> x in init || x == last;
    }
  }

  /** The multiset of a flat map is the sum of the parts' multisets. */
  lemma {:induction false} FlatMapMultiset<T, U>(s: seq<T>, f: T -> seq<U>, x: T)
    ensures multiset(FlatMap([x] + s, f)) == multiset(f(x)) + multiset(FlatMap(s, f))
  {
    FlatMapAppend([x], s, f);
    assert FlatMap([x], f) == FlatMap([], f) + f(x);
  }

  /** `Array.from(new Set(s))`: every element once, in order of first occurrence. */
  function Distinct<T(==, !new)>(s: seq<T>): (r: seq<T>)
    ensures NoDuplicates(r)
    ensures forall x :: x in r <==> x in s
    decreases |s|
  {
    if s == [] then []
    else
      var init := s[..|s| - 1];
      var last := s[|s| - 1];
      assert s == init + [last];
      var r := Distinct(init);
      if last in r then r else r + [last]
  }

  lemma DistinctSnoc<T(!new)>(s: seq<T>, x: T)
    ensures Distinct(s + [x]) == if x in Distinct(s) then Distinct(s) else Distinct(s) + [x]
  {
    assert (s + [x])[..|s|] == s;
  }

  /** `s.includes(t)` on strings: `t` occurs in `s` as a contiguous block. */
  predicate Includes<T(==)>(s: seq<T>, t: seq<T>)
    decreases |s|
  {
    t <= s || (s != [] && Includes(s[1..], t))
  }

  /** Lexicographic order on integer sequences: the order of the sort keys. */
  predicate LexLe(a: seq<int>, b: seq<int>)
    decreases |a|
  {
    a == [] || (b != [] && (a[0] < b[0] || (a[0] == b[0] && LexLe(a[1..], b[1..]))))
  }

  lemma {:induction false} LexLeTotal(a: seq<int>, b: seq<int>)
    ensures LexLe(a, b) || LexLe(b, a)
    decreases |a|
  {
    if a != [] && b != [] && a[0] == b[0] {
      LexLeTotal(a[1..], b[1..]);
    }
  }

  lemma {:induction false} LexLeTrans(a: seq<int>, b: seq<int>, c: seq<int>)
    requires LexLe(a, b) && LexLe(b, c)
    ensures LexLe(a, c)
    decreases |a|
  {
    if a != [] && a[0] == b[0] && b[0] == c[0] {
      LexLeTrans(a[1..], b[1..], c[1..]);
    }
  }

  /** For keys of one element the lexicographic order is the integer order. */
  lemma LexLeSingle(x: int, y: int)
    ensures LexLe([x], [y]) <==> x <= y
  {
    assert [x][1..] == [];
  }

  predicate SortedBy<T>(s: seq<T>, key: T -> seq<int>) {
    forall i, j :: 0 <= i < j < |s| ==> LexLe(key(s[i]), key(s[j]))
  }

  /** An element whose key is at most the first key of a sorted sequence is at most every key in it. */
  lemma BelowFirst<T>(x: T, s: seq<T>, key: T -> seq<int>)
    requires SortedBy(s, key) && s != [] && LexLe(key(x), key(s[0]))
    ensures SortedBy([x] + s, key)
  {
    forall i, j | 0 <= i < j < |s| + 1 ensures LexLe(key(([x] + s)[i]), key(([x] + s)[j])) {
      if i == 0 && j > 1 { LexLeTrans(key(x), key(s[0]), key(s[j - 1])); }
    }
  }

  /** Putting `y` in front of a sorted sequence keeps it sorted when `y`'s key is at most every key in it. */
  lemma AboveAll<T>(y: T, r: seq<T>, key: T -> seq<int>)
    requires SortedBy(r, key)
    requires forall z :: z in multiset(r) ==> LexLe(key(y), key(z))
    ensures SortedBy([y] + r, key)
  {
    forall i, j | 0 <= i < j < |r| + 1 ensures LexLe(key(([y] + r)[i]), key(([y] + r)[j])) {
      if i == 0 { assert r[j - 1] in multiset(r); }
    }
  }

  /** Inserts `x` in front of the first element whose key is not below it. */
  function Insert<T>(x: T, s: seq<T>, key: T -> seq<int>): (r: seq<T>)
    requires SortedBy(s, key)
    ensures SortedBy(r, key)
    ensures multiset(r) == multiset(s) + multiset{x}
    decreases |s|
  {
    if s == [] then [x]
    else if LexLe(key(x), key(s[0])) then
      BelowFirst(x, s, key);
      [x] + s
    else
      assert s == [s[0]] + s[1..];
      var rest := Insert(x, s[1..], key);
      LexLeTotal(key(x), key(s[0]));
      assert forall z :: z in multiset(rest) ==> LexLe(key(s[0]), key(z)) by {
        forall z | z in multiset(rest) ensures LexLe(key(s[0]), key(z)) {
          if z != x {
            assert z in multiset(s[1..]);
            var j :| 0 <= j < |s[1..]| && s[1..][j] == z;
            assert s[j + 1] == z;
          }
        }
      }
      AboveAll(s[0], rest, key);
      [s[0]] + rest
  }

  /** The stable sort: equal keys keep their original relative order. */
  function SortBy<T>(s: seq<T>, key: T -> seq<int>): (r: seq<T>)
    ensures SortedBy(r, key)
    ensures multiset(r) == multiset(s)
    decreases |s|
  {
    if s == [] then []
    else
      assert s == [s[0]] + s[1..];
      Insert(s[0], SortBy(s[1..], key), key)
  }

  lemma SortByLength<T>(s: seq<T>, key: T -> seq<int>)
    ensures |SortBy(s, key)| == |s|
  {
    assert |multiset(SortBy(s, key))| == |multiset(s)|;
  }

  /** Sorting does not change which elements are present. */
  lemma SortByMembers<T>(s: seq<T>, key: T -> seq<int>)
    ensures forall x :: x in SortBy(s, key) <==> x in s
  {
    var r := SortBy(s, key);
    assert forall x :: x in r <==> x in multiset(r);
    assert forall x :: x in s <==> x in multiset(s);
  }

  /** The multiset of a flat map depends only on the multiset of the parts' owners. */
  lemma {:induction false} FlatMapInsert<T, U>(x: T, s: seq<T>, key: T -> seq<int>, f: T -> seq<U>)
    requires SortedBy(s, key)
    ensures multiset(FlatMap(Insert(x, s, key), f)) == multiset(f(x)) + multiset(FlatMap(s, f))
    decreases |s|
  {
    if s == [] {
      FlatMapMultiset([], f, x);
    } else if LexLe(key(x), key(s[0])) {
      FlatMapMultiset(s, f, x);
    } else {
      assert s == [s[0]] + s[1..];
      var rest := Insert(x, s[1..], key);
      FlatMapInsert(x, s[1..], key, f);
      FlatMapMultiset(rest, f, s[0]);
      FlatMapMultiset(s[1..], f, s[0]);
    }
  }

  lemma {:induction false} FlatMapSortBy<T, U>(s: seq<T>, key: T -> seq<int>, f: T -> seq<U>)
    ensures multiset(FlatMap(SortBy(s, key), f)) == multiset(FlatMap(s, f))
    decreases |s|
  {
    if s != [] {
      assert s == [s[0]] + s[1..];
      FlatMapSortBy(s[1..], key, f);
      FlatMapInsert(s[0], SortBy(s[1..], key), key, f);
      FlatMapMultiset(s[1..], f, s[0]);
    }
  }
}
