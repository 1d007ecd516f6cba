/** The two sorts the modelled code uses: `sorted(values)` on numbers
    (quantiles, median) and the stable descending sort on a string key
    (`list.sort(key=..., reverse=True)` and `sorted(..., reverse=True)`). */
module Sorting {
  import opened Strings

  // ---------------------------------------------------------------------
  // Ascending sort of numbers

  predicate Ascending(s: seq<real>)
  {
    forall i, j :: 0 <= i < j < |s| ==> s[i] <= s[j]
  }

  // The sorting and extremum functions state only their length; what they
  // compute is stated by the lemmas after each, so that the verifier meets
  // those facts only where a proof asks for them.

  /** Inserts `x` in front of the first element that is not smaller. */
  function InsertAscending(x: real, s: seq<real>): (r: seq<real>)
    ensures |r| == |s| + 1
    decreases |s|
  {
    if s == [] then [x]
    else if x <= s[0] then [x] + s
    else [s[0]] + InsertAscending(x, s[1..])
  }

  lemma {:induction false} InsertAscendingSorted(x: real, s: seq<real>)
    requires Ascending(s)
    ensures Ascending(InsertAscending(x, s))
    ensures multiset(InsertAscending(x, s)) == multiset(s) + multiset{x}
    decreases |s|
  {
    if s != [] {
      if x <= s[0] {
        AscendingFront(x, s);
      } else {
        InsertAscendingSorted(x, s[1..]);
        AscendingBehind(x, s, InsertAscending(x, s[1..]));
      }
    }
  }

  lemma AscendingFront(x: real, s: seq<real>)
    requires s != [] && Ascending(s) && x <= s[0]
    ensures Ascending([x] + s)
  {
    var r := [x] + s;
    forall i, j | 0 <= i < j < |r| ensures r[i] <= r[j] {
      if i > 0 { assert r[i] == s[i - 1] && r[j] == s[j - 1]; }
      else { assert r[j] == s[j - 1]; }
    }
  }

  lemma AscendingBehind(x: real, s: seq<real>, t: seq<real>)
    requires s != [] && Ascending(s) && s[0] < x
    requires Ascending(t) && multiset(t) == multiset(s[1..]) + multiset{x}
    ensures Ascending([s[0]] + t)
    ensures multiset([s[0]] + t) == multiset(s) + multiset{x}
  {
    assert s == [s[0]] + s[1..];
    forall k | 0 <= k < |t| ensures s[0] <= t[k] {
      assert t[k] in multiset(t);
      if t[k] != x {
        assert t[k] in multiset(s[1..]);
        assert t[k] in s[1..];
      }
    }
    var r := [s[0]] + t;
    forall i, j | 0 <= i < j < |r| ensures r[i] <= r[j] {
      if i > 0 { assert r[i] == t[i - 1] && r[j] == t[j - 1]; }
      else { assert r[j] == t[j - 1]; }
    }
  }

  /** Python's `sorted(values)`, as insertion sort. */
  function SortAscending(s: seq<real>): (r: seq<real>)
    ensures |r| == |s|
    decreases |s|
  {
    if s == [] then [] else InsertAscending(s[0], SortAscending(s[1..]))
  }

  /** `sorted` returns an ascending permutation of its argument. */
  lemma {:induction false} SortAscendingSorted(s: seq<real>)
    ensures Ascending(SortAscending(s))
    ensures multiset(SortAscending(s)) == multiset(s)
    decreases |s|
  {
    if s != [] {
      SortAscendingSorted(s[1..]);
      InsertAscendingSorted(s[0], SortAscending(s[1..]));
      assert s == [s[0]] + s[1..];
    }
  }

  lemma {:induction false} SortAscendingOfAscending(s: seq<real>)
    requires Ascending(s)
    ensures SortAscending(s) == s
    decreases |s|
  {
    if s != [] {
      SortAscendingOfAscending(s[1..]);
      assert s == [s[0]] + s[1..];
    }
  }

  /** Python's `min(values)`. */
  function MinOf(s: seq<real>): real
    requires |s| > 0
    decreases |s|
  {
    if |s| == 1 then s[0]
    else
      var rest := MinOf(s[1..]);
      if s[0] <= rest then s[0] else rest
  }

  /** Python's `max(values)`. */
  function MaxOf(s: seq<real>): real
    requires |s| > 0
    decreases |s|
  {
    if |s| == 1 then s[0]
    else
      var rest := MaxOf(s[1..]);
      if s[0] >= rest then s[0] else rest
  }

  /** `min` returns an element that no element is below. */
  lemma {:induction false} MinOfIsLeast(s: seq<real>)
    requires |s| > 0
    ensures MinOf(s) in s
    ensures forall x :: x in s ==> MinOf(s) <= x
    decreases |s|
  {
    if |s| > 1 {
      MinOfIsLeast(s[1..]);
      assert forall x :: x in s ==> x == s[0] || x in s[1..];
    }
  }

  /** `max` returns an element that no element is above. */
  lemma {:induction false} MaxOfIsGreatest(s: seq<real>)
    requires |s| > 0
    ensures MaxOf(s) in s
    ensures forall x :: x in s ==> x <= MaxOf(s)
    decreases |s|
  {
    if |s| > 1 {
      MaxOfIsGreatest(s[1..]);
      assert forall x :: x in s ==> x == s[0] || x in s[1..];
    }
  }

  /** The first and last elements of the sorted values are their minimum and maximum. */
  lemma SortedEnds(s: seq<real>)
    requires |s| > 0
    ensures |SortAscending(s)| == |s|
    ensures SortAscending(s)[0] == MinOf(s)
    ensures SortAscending(s)[|s| - 1] == MaxOf(s)
    ensures forall k :: 0 <= k < |s| ==> MinOf(s) <= SortAscending(s)[k] <= MaxOf(s)
  {
    SortedWithin(s);
    SortedFirst(s);
    SortedLast(s);
  }

  lemma SameElements(a: seq<real>, b: seq<real>)
    requires multiset(a) == multiset(b)
    ensures forall x :: x in a <==> x in b
  {
    assert forall x :: x in a <==> x in multiset(a);
    assert forall x :: x in b <==> x in multiset(b);
  }

  lemma AscendingEnds(d: seq<real>)
    requires |d| > 0 && Ascending(d)
    ensures forall x :: x in d ==> d[0] <= x <= d[|d| - 1]
  {
    forall x | x in d ensures d[0] <= x <= d[|d| - 1] {
      var i :| 0 <= i < |d| && d[i] == x;
      assert d[0] <= d[i] <= d[|d| - 1];
    }
  }

  lemma SortedWithin(s: seq<real>)
    requires |s| > 0
    ensures forall k :: 0 <= k < |s| ==> MinOf(s) <= SortAscending(s)[k] <= MaxOf(s)
  {
    var d := SortAscending(s);
    SortAscendingSorted(s);
    SameElements(d, s);
    MinOfIsLeast(s);
    MaxOfIsGreatest(s);
    forall k | 0 <= k < |d| ensures MinOf(s) <= d[k] <= MaxOf(s) {
      assert d[k] in s;
    }
  }

  lemma SortedFirst(s: seq<real>)
    requires |s| > 0
    ensures SortAscending(s)[0] == MinOf(s)
  {
    var d := SortAscending(s);
    SortAscendingSorted(s);
    SameElements(d, s);
    AscendingEnds(d);
    MinOfIsLeast(s);
    assert d[0] in d;
  }

  lemma SortedLast(s: seq<real>)
    requires |s| > 0
    ensures SortAscending(s)[|s| - 1] == MaxOf(s)
  {
    var d := SortAscending(s);
    SortAscendingSorted(s);
    SameElements(d, s);
    AscendingEnds(d);
    MaxOfIsGreatest(s);
    assert d[|d| - 1] in d;
  }

  // ---------------------------------------------------------------------
  // Stable descending sort on a string key

  predicate DescendingBy<T>(s: seq<T>, key: T -> string)
  {
    forall i, j :: 0 <= i < j < |s| ==> LessEq(key(s[j]), key(s[i]))
  }

  lemma ConsDescending<T>(h: T, t: seq<T>, key: T -> string)
    requires DescendingBy(t, key)
    requires forall k :: 0 <= k < |t| ==> LessEq(key(t[k]), key(h))
    ensures DescendingBy([h] + t, key)
  {
    var r := [h] + t;
    forall i, j | 0 <= i < j < |r| ensures LessEq(key(r[j]), key(r[i])) {
      if i > 0 { assert r[i] == t[i - 1] && r[j] == t[j - 1]; }
      else { assert r[j] == t[j - 1]; }
    }
  }

  /** Inserts `x` after every element whose key is at least `key(x)`, so that
      earlier elements with an equal key stay in front of it. */
  function InsertDescendingBy<T>(x: T, s: seq<T>, key: T -> string): (r: seq<T>)
    ensures |r| == |s| + 1
    decreases |s|
  {
    if s == [] then [x]
    else if Less(key(s[0]), key(x)) then [x] + s
    else [s[0]] + InsertDescendingBy(x, s[1..], key)
  }

  lemma {:induction false} InsertDescendingSorted<T>(x: T, s: seq<T>, key: T -> string)
    requires DescendingBy(s, key)
    ensures DescendingBy(InsertDescendingBy(x, s, key), key)
    ensures multiset(InsertDescendingBy(x, s, key)) == multiset(s) + multiset{x}
    decreases |s|
  {
    if s != [] {
      if Less(key(s[0]), key(x)) {
        InsertInFront(x, s, key);
      } else {
        InsertDescendingSorted(x, s[1..], key);
        InsertBehind(x, s, InsertDescendingBy(x, s[1..], key), key);
      }
    }
  }

  lemma InsertInFront<T>(x: T, s: seq<T>, key: T -> string)
    requires s != [] && DescendingBy(s, key) && Less(key(s[0]), key(x))
    ensures DescendingBy([x] + s, key)
  {
    forall k | 0 <= k < |s| ensures LessEq(key(s[k]), key(x)) {
      LessEqTransitive(key(s[k]), key(s[0]), key(x));
    }
    ConsDescending(x, s, key);
  }

  lemma InsertBehind<T>(x: T, s: seq<T>, t: seq<T>, key: T -> string)
    requires s != [] && DescendingBy(s, key) && !Less(key(s[0]), key(x))
    requires DescendingBy(t, key) && multiset(t) == multiset(s[1..]) + multiset{x}
    ensures DescendingBy([s[0]] + t, key)
    ensures multiset([s[0]] + t) == multiset(s) + multiset{x}
  {
    assert s == [s[0]] + s[1..];
    NotLessIsLessEq(key(s[0]), key(x));
    forall k | 0 <= k < |t| ensures LessEq(key(t[k]), key(s[0])) {
      assert t[k] in multiset(t);
      if t[k] != x {
        assert t[k] in multiset(s[1..]);
        var i :| 0 <= i < |s[1..]| && s[1..][i] == t[k];
        assert s[i + 1] == t[k];
      }
    }
    ConsDescending(s[0], t, key);
  }

  /** A stable sort with `reverse=True`: insertion of the elements in input
      order. */
  function SortDescendingBy<T>(s: seq<T>, key: T -> string): (r: seq<T>)
    ensures |r| == |s|
    decreases |s|
  {
    if s == [] then []
    else InsertDescendingBy(s[|s| - 1], SortDescendingBy(s[..|s| - 1], key), key)
  }

  /** The sort returns a permutation of its argument, descending by key. */
  lemma {:induction false} SortDescendingSorted<T>(s: seq<T>, key: T -> string)
    ensures DescendingBy(SortDescendingBy(s, key), key)
    ensures multiset(SortDescendingBy(s, key)) == multiset(s)
    decreases |s|
  {
    if s != [] {
      var init := s[..|s| - 1];
      SortDescendingSorted(init, key);
      InsertDescendingSorted(s[|s| - 1], SortDescendingBy(init, key), key);
      assert s == init + [s[|s| - 1]];
    }
  }

  /** The elements of `s` whose key is `k`, in their order in `s`. */
  function WithKey<T>(s: seq<T>, key: T -> string, k: string): seq<T>
    decreases |s|
  {
    if s == [] then []
    else WithKey(s[..|s| - 1], key, k) + (if key(s[|s| - 1]) == k then [s[|s| - 1]] else [])
  }

  lemma {:induction false} WithKeyConcat<T>(a: seq<T>, b: seq<T>, key: T -> string, k: string)
    ensures WithKey(a + b, key, k) == WithKey(a, key, k) + WithKey(b, key, k)
    decreases |b|
  {
    if b != [] {
      assert (a + b)[..|a + b| - 1] == a + b[..|b| - 1];
      WithKeyConcat(a, b[..|b| - 1], key, k);
    } else {
      assert a + b == a;
    }
  }

  lemma WithKeyNone<T>(s: seq<T>, key: T -> string, k: string)
    requires forall i :: 0 <= i < |s| ==> key(s[i]) != k
    ensures WithKey(s, key, k) == []
    decreases |s|
  {
    if s != [] { WithKeyNone(s[..|s| - 1], key, k); }
  }

  lemma WithKeySingle<T>(x: T, key: T -> string, k: string)
    ensures WithKey([x], key, k) == (if key(x) == k then [x] else [])
  {
    assert [x][..0] == [];
  }

  lemma InFrontStable<T>(x: T, s: seq<T>, key: T -> string, k: string)
    requires s != [] && DescendingBy(s, key) && Less(key(s[0]), key(x))
    ensures WithKey([x] + s, key, k) == WithKey(s, key, k) + (if key(x) == k then [x] else [])
  {
    WithKeyConcat([x], s, key, k);
    WithKeySingle(x, key, k);
    if key(x) == k {
      forall i | 0 <= i < |s| ensures key(s[i]) != k {
        if key(s[i]) == k {
          assert LessEq(key(s[i]), key(s[0]));
          LessAsymmetric(key(s[0]), key(x));
        }
      }
      WithKeyNone(s, key, k);
    }
  }

  lemma {:induction false} InsertDescendingStable<T>(x: T, s: seq<T>, key: T -> string, k: string)
    requires DescendingBy(s, key)
    ensures WithKey(InsertDescendingBy(x, s, key), key, k)
         == WithKey(s, key, k) + (if key(x) == k then [x] else [])
    decreases |s|
  {
    if s == [] {
      WithKeySingle(x, key, k);
    } else if Less(key(s[0]), key(x)) {
      InFrontStable(x, s, key, k);
    } else {
      var t := InsertDescendingBy(x, s[1..], key);
      assert InsertDescendingBy(x, s, key) == [s[0]] + t;
      InsertDescendingStable(x, s[1..], key, k);
      BehindStable(x, s, t, key, k);
    }
  }

  lemma BehindStable<T>(x: T, s: seq<T>, t: seq<T>, key: T -> string, k: string)
    requires s != []
    requires WithKey(t, key, k) == WithKey(s[1..], key, k) + (if key(x) == k then [x] else [])
    ensures WithKey([s[0]] + t, key, k) == WithKey(s, key, k) + (if key(x) == k then [x] else [])
  {
    WithKeyConcat([s[0]], t, key, k);
    WithKeyConcat([s[0]], s[1..], key, k);
    assert s == [s[0]] + s[1..];
  }

  /** Stability: the elements sharing any one key keep their input order. */
  lemma {:induction false} SortDescendingStable<T>(s: seq<T>, key: T -> string, k: string)
    ensures WithKey(SortDescendingBy(s, key), key, k) == WithKey(s, key, k)
    decreases |s|
  {
    if s != [] {
      SortDescendingStable(s[..|s| - 1], key, k);
      SortDescendingSorted(s[..|s| - 1], key);
      InsertDescendingStable(s[|s| - 1], SortDescendingBy(s[..|s| - 1], key), key, k);
    }
  }

  lemma {:induction false} WithKeyMembers<T>(s: seq<T>, key: T -> string, k: string)
    ensures forall x :: x in WithKey(s, key, k) <==> x in s && key(x) == k
    decreases |s|
  {
    if s != [] {
      WithKeyMembers(s[..|s| - 1], key, k);
      assert s == s[..|s| - 1] + [s[|s| - 1]];
    }
  }

  lemma WithKeySnoc<T>(s: seq<T>, x: T, key: T -> string, k: string)
    ensures WithKey(s + [x], key, k) == WithKey(s, key, k) + (if key(x) == k then [x] else [])
  {
    assert (s + [x])[..|s|] == s;
  }

  predicate Distinct<T(==)>(s: seq<T>)
  {
    forall i, j :: 0 <= i < j < |s| ==> s[i] != s[j]
  }

  lemma {:induction false} DistinctOnce<T>(s: seq<T>, x: T)
    requires Distinct(s)
    ensures multiset(s)[x] <= 1
    decreases |s|
  {
    if s != [] {
      var n := |s| - 1;
      assert s == s[..n] + [s[n]];
      DistinctOnce(s[..n], x);
      if x == s[n] {
        assert x !in s[..n];
      }
    }
  }

  lemma RepeatTwice<T>(s: seq<T>, i: nat, j: nat)
    requires i < j < |s| && s[i] == s[j]
    ensures multiset(s)[s[i]] >= 2
  {
    assert s == s[..i] + [s[i]] + s[i + 1..j] + [s[j]] + s[j + 1..];
  }

  /** A permutation of a sequence without repetitions has none either. */
  lemma DistinctPermutation<T>(a: seq<T>, b: seq<T>)
    requires multiset(a) == multiset(b) && Distinct(a)
    ensures Distinct(b)
  {
    forall i, j | 0 <= i < j < |b| ensures b[i] != b[j] {
      DistinctOnce(a, b[i]);
      if b[i] == b[j] {
        RepeatTwice(b, i, j);
      }
    }
  }
}
