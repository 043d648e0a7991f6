/** The list pipeline operations the app and the backend share: Kotlin's `filter`,
    `sortedByDescending` and `distinctBy`, JavaScript's `filter` and `sort`, and
    SQL's `ORDER BY ... DESC`. Orders are by an integer key (a `dateAdded`). */
module Seqs {

  /** Every element's key is at least the key of every later element. */
  predicate SortedDesc<T>(s: seq<T>, key: T -> int) {
    forall i, j :: 0 <= i < j < |s| ==> key(s[i]) >= key(s[j])
  }

  /** Some element of `s` has key `k`. */
  predicate HasKey<T, K(==)>(s: seq<T>, key: T -> K, k: K) {
    exists j :: 0 <= j < |s| && key(s[j]) == k
  }

  /** No two elements of `s` share a key. */
  predicate DistinctKeys<T, K(==)>(s: seq<T>, key: T -> K) {
    forall i, j :: 0 <= i < j < |s| ==> key(s[i]) != key(s[j])
  }

  /** `s[i]` is the first element of `s` with its key. */
  predicate FirstOfKey<T, K(==)>(s: seq<T>, key: T -> K, i: int)
    requires 0 <= i < |s|
  {
    forall k :: 0 <= k < i ==> key(s[k]) != key(s[i])
  }

  /** `filter`: the elements satisfying `p`, in their original order. */
  function Filter<T(!new)>(s: seq<T>, p: T -> bool): (r: seq<T>)
    ensures |r| <= |s|
    ensures forall x :: x in r <==> x in s && p(x)
  {
    if s == [] then [] else (if p(s[0]) then [s[0]] else []) + Filter(s[1..], p)
  }

  /** Filtering keeps every copy of an element that passes and none of one
      that fails. */
  lemma {:induction false} FilterMultiset<T(!new)>(s: seq<T>, p: T -> bool)
    ensures forall x :: multiset(Filter(s, p))[x] == if p(x) then multiset(s)[x] else 0
  {
    if s != [] {
      FilterMultiset(s[1..], p);
      assert s == [s[0]] + s[1..];
      assert multiset(s) == multiset{s[0]} + multiset(s[1..]);
    }
  }

  /** Filtering keeps a descending order. */
  lemma {:induction false} FilterSorted<T(!new)>(s: seq<T>, p: T -> bool, key: T -> int)
    requires SortedDesc(s, key)
    ensures SortedDesc(Filter(s, p), key)
  {
    if s != [] {
      FilterSorted(s[1..], p, key);
      var tail := Filter(s[1..], p);
      forall y | y in tail ensures key(s[0]) >= key(y) {
        var j :| 0 <= j < |s[1..]| && s[1..][j] == y;
        assert s[1 + j] == y;
      }
    }
  }

  /** Filtering keeps keys distinct. */
  lemma {:induction false} FilterDistinct<T(!new), K>(s: seq<T>, p: T -> bool, key: T -> K)
    requires DistinctKeys(s, key)
    ensures DistinctKeys(Filter(s, p), key)
  {
    if s != [] {
      FilterDistinct(s[1..], p, key);
      var tail := Filter(s[1..], p);
      forall y | y in tail ensures key(y) != key(s[0]) {
        var j :| 0 <= j < |s[1..]| && s[1..][j] == y;
        assert s[1 + j] == y;
      }
    }
  }

  /** Filtering one more element extends the filtered prefix. */
  /** Filtering one more element of a prefix. */
  lemma FilterPrefixStep<T(!new)>(s: seq<T>, i: nat, p: T -> bool)
    requires i < |s|
    ensures Filter(s[..i + 1], p) == Filter(s[..i], p) + (if p(s[i]) then [s[i]] else [])
  {
    assert s[..i + 1] == s[..i] + [s[i]];
    FilterAppend(s[..i], s[i], p);
  }

  lemma {:induction false} FilterAppend<T(!new)>(s: seq<T>, x: T, p: T -> bool)
    ensures Filter(s + [x], p) == Filter(s, p) + (if p(x) then [x] else [])
  {
    if s != [] {
      assert (s + [x])[1..] == s[1..] + [x];
      FilterAppend(s[1..], x, p);
    }
  }

  /** Two sequences with distinct keys and no key in common concatenate to one. */
  lemma DistinctKeysConcat<T, K>(a: seq<T>, b: seq<T>, key: T -> K)
    requires DistinctKeys(a, key) && DistinctKeys(b, key)
    requires forall x, y :: x in a && y in b ==> key(x) != key(y)
    ensures DistinctKeys(a + b, key)
  {
    var c := a + b;
    forall i, j | 0 <= i < j < |c| ensures key(c[i]) != key(c[j]) {
      if i < |a| && j >= |a| {
        assert c[i] in a && c[j] == b[j - |a|];
      } else if i >= |a| {
        assert c[i] == b[i - |a|] && c[j] == b[j - |a|];
      }
    }
  }

  /** Places `x` into a descending sequence after every element whose key is at
      least `x`'s, so that equal keys keep their arrival order. */
  function InsertDesc<T(!new)>(x: T, s: seq<T>, key: T -> int): (r: seq<T>)
    requires SortedDesc(s, key)
    ensures SortedDesc(r, key)
    ensures multiset(r) == multiset(s) + multiset{x}
    ensures forall y :: y in r <==> y in s || y == x
  {
    if s == [] then [x]
    else if key(x) > key(s[0]) then [x] + s
    else
      var rest := InsertDesc(x, s[1..], key);
      InsertDescHead(x, s, key, rest);
      [s[0]] + rest
  }

  /** The head of a descending sequence can precede the insertion into its tail. */
  lemma InsertDescHead<T>(x: T, s: seq<T>, key: T -> int, rest: seq<T>)
    requires s != [] && SortedDesc(s, key) && key(x) <= key(s[0])
    requires SortedDesc(rest, key)
    requires multiset(rest) == multiset(s[1..]) + multiset{x}
    requires forall y :: y in rest <==> y in s[1..] || y == x
    ensures SortedDesc([s[0]] + rest, key)
    ensures multiset([s[0]] + rest) == multiset(s) + multiset{x}
    ensures forall y :: y in [s[0]] + rest <==> y in s || y == x
  {
    forall y | y in rest ensures key(s[0]) >= key(y) {
      if y != x {
        var j :| 0 <= j < |s[1..]| && s[1..][j] == y;
        assert s[1 + j] == y;
      }
    }
    assert s == [s[0]] + s[1..];
  }

  /** `sortedByDescending` / `ORDER BY key DESC`: a stable insertion sort. */
  function SortDesc<T(!new)>(s: seq<T>, key: T -> int): (r: seq<T>)
    ensures SortedDesc(r, key)
    ensures multiset(r) == multiset(s)
    ensures |r| == |s|
  {
    if s == [] then []
    else
      var init := SortDesc(s[..|s| - 1], key);
      assert s == s[..|s| - 1] + [s[|s| - 1]];
      var r := InsertDesc(s[|s| - 1], init, key);
      assert |r| == |multiset(r)|;
      r
  }

  /** Every element of a sorted permutation of `s` is in `s`, and conversely. */
  lemma SortDescMembers<T(!new)>(s: seq<T>, key: T -> int)
    ensures forall x :: x in SortDesc(s, key) <==> x in s
  {
    var r := SortDesc(s, key);
    forall x ensures x in r <==> x in s {
      assert x in r <==> x in multiset(r);
      assert x in s <==> x in multiset(s);
    }
  }

  /** The elements of `s` whose key is `k`, in their order in `s`. */
  function WithKey<T>(s: seq<T>, key: T -> int, k: int): seq<T> {
    if s == [] then [] else (if key(s[0]) == k then [s[0]] else []) + WithKey(s[1..], key, k)
  }

  lemma {:induction false} WithKeyAppend<T>(a: seq<T>, b: seq<T>, key: T -> int, k: int)
    ensures WithKey(a + b, key, k) == WithKey(a, key, k) + WithKey(b, key, k)
  {
    if a == [] {
      assert a + b == b;
    } else {
      var h := if key(a[0]) == k then [a[0]] else [];
      assert (a + b)[0] == a[0];
      assert (a + b)[1..] == a[1..] + b;
      assert WithKey(a + b, key, k) == h + WithKey(a[1..] + b, key, k);
      assert WithKey(a, key, k) == h + WithKey(a[1..], key, k);
      WithKeyAppend(a[1..], b, key, k);
      assert h + (WithKey(a[1..], key, k) + WithKey(b, key, k)) == (h + WithKey(a[1..], key, k)) + WithKey(b, key, k);
    }
  }

  lemma {:induction false} WithKeyNone<T(!new)>(s: seq<T>, key: T -> int, k: int)
    requires forall y :: y in s ==> key(y) != k
    ensures WithKey(s, key, k) == []
  {
    if s != [] {
      assert forall y :: y in s[1..] ==> y in s;
      WithKeyNone(s[1..], key, k);
    }
  }

  /** Putting `x` in front keeps the order of key `k` when no element of `s` has it or `x` lacks it. */
  lemma StableFront<T(!new)>(x: T, s: seq<T>, key: T -> int, k: int)
    requires key(x) == k ==> forall y :: y in s ==> key(y) != k
    ensures WithKey([x] + s, key, k) == WithKey(s, key, k) + WithKey([x], key, k)
  {
    WithKeyAppend([x], s, key, k);
    assert [x][1..] == [];
    if key(x) == k {
      WithKeyNone(s, key, k);
    }
  }

  /** Passing a head `h` before the insertion into the tail keeps the order of key `k`. */
  lemma StablePast<T>(h: T, tail: seq<T>, rest: seq<T>, x: T, key: T -> int, k: int)
    requires WithKey(rest, key, k) == WithKey(tail, key, k) + WithKey([x], key, k)
    ensures WithKey([h] + rest, key, k) == WithKey([h] + tail, key, k) + WithKey([x], key, k)
  {
    WithKeyAppend([h], rest, key, k);
    WithKeyAppend([h], tail, key, k);
  }

  /** An inserted element goes after every element of the same key. */
  lemma {:induction false} InsertDescStable<T(!new)>(x: T, s: seq<T>, key: T -> int, k: int)
    requires SortedDesc(s, key)
    ensures WithKey(InsertDesc(x, s, key), key, k) == WithKey(s, key, k) + WithKey([x], key, k)
  {
    if s == [] {
      assert InsertDesc(x, s, key) == [] + [x];
    } else if key(x) > key(s[0]) {
      assert InsertDesc(x, s, key) == [x] + s;
      forall y | y in s ensures key(y) < key(x) {
        var j :| 0 <= j < |s| && s[j] == y;
        assert key(s[0]) >= key(s[j]);
      }
      StableFront(x, s, key, k);
    } else {
      var tail := s[1..];
      assert SortedDesc(tail, key);
      var rest := InsertDesc(x, tail, key);
      assert InsertDesc(x, s, key) == [s[0]] + rest;
      InsertDescStable(x, tail, key, k);
      StablePast(s[0], tail, rest, x, key, k);
      assert [s[0]] + s[1..] == s;
    }
  }

  /** Appending `last` after a reordering that keeps key `k`'s order keeps it too. */
  lemma StableAppend<T>(init: seq<T>, sorted: seq<T>, r: seq<T>, last: T, key: T -> int, k: int)
    requires WithKey(sorted, key, k) == WithKey(init, key, k)
    requires WithKey(r, key, k) == WithKey(sorted, key, k) + WithKey([last], key, k)
    ensures WithKey(r, key, k) == WithKey(init + [last], key, k)
  {
    WithKeyAppend(init, [last], key, k);
  }

  /** `SortDesc` is stable: the elements of each key keep their order. */
  lemma {:induction false} SortDescStable<T(!new)>(s: seq<T>, key: T -> int, k: int)
    ensures WithKey(SortDesc(s, key), key, k) == WithKey(s, key, k)
  {
    if s != [] {
      var init, last := s[..|s| - 1], s[|s| - 1];
      var sorted := SortDesc(init, key);
      assert SortDesc(s, key) == InsertDesc(last, sorted, key);
      SortDescStable(init, key, k);
      InsertDescStable(last, sorted, key, k);
      StableAppend(init, sorted, InsertDesc(last, sorted, key), last, key, k);
      assert init + [last] == s;
    }
  }

  /** Inserting an element with a new key keeps keys distinct. */
  lemma {:induction false} InsertDescDistinct<T(!new), K>(x: T, s: seq<T>, order: T -> int, key: T -> K)
    requires SortedDesc(s, order) && DistinctKeys(s, key)
    requires forall y :: y in s ==> key(y) != key(x)
    ensures DistinctKeys(InsertDesc(x, s, order), key)
  {
    if s != [] && order(x) <= order(s[0]) {
      assert SortedDesc(s[1..], order);
      assert DistinctKeys(s[1..], key);
      InsertDescDistinct(x, s[1..], order, key);
      var rest := InsertDesc(x, s[1..], order);
      forall y | y in rest ensures key(y) != key(s[0]) {
        if y != x {
          var j :| 0 <= j < |s[1..]| && s[1..][j] == y;
          assert s[1 + j] == y;
        }
      }
    }
  }

  /** Sorting keeps keys distinct. */
  lemma {:induction false} SortDescDistinct<T(!new), K>(s: seq<T>, order: T -> int, key: T -> K)
    requires DistinctKeys(s, key)
    ensures DistinctKeys(SortDesc(s, order), key)
  {
    if s != [] {
      var init := s[..|s| - 1];
      assert DistinctKeys(init, key);
      SortDescDistinct(init, order, key);
      SortDescMembers(init, order);
      forall y | y in SortDesc(init, order) ensures key(y) != key(s[|s| - 1]) {
        var j :| 0 <= j < |init| && init[j] == y;
        assert s[j] == y;
      }
      InsertDescDistinct(s[|s| - 1], SortDesc(init, order), order, key);
    }
  }

  /** `distinctBy(key)`: the first element of each key, in their original order. */
  function DistinctBy<T(!new), K(==)>(s: seq<T>, key: T -> K): (r: seq<T>)
    ensures DistinctKeys(r, key)
    ensures forall x :: x in r ==> x in s
    ensures forall i :: 0 <= i < |s| ==> HasKey(r, key, key(s[i]))
    ensures forall i :: 0 <= i < |s| && FirstOfKey(s, key, i) ==> s[i] in r
    ensures |r| <= |s|
  {
    if s == [] then []
    else
      var r := DistinctBy(s[..|s| - 1], key);
      if HasKey(r, key, key(s[|s| - 1])) then
        DistinctBySkip(s, key, r);
        r
      else
        DistinctByAppend(s, key, r);
        r + [s[|s| - 1]]
  }

  /** The step of `DistinctBy` that drops a last element whose key was seen. */
  lemma DistinctBySkip<T, K>(s: seq<T>, key: T -> K, r: seq<T>)
    requires s != []
    requires forall i :: 0 <= i < |s| - 1 ==> HasKey(r, key, key(s[i]))
    requires forall i :: 0 <= i < |s| - 1 && FirstOfKey(s[..|s| - 1], key, i) ==> s[i] in r
    requires forall x :: x in r ==> x in s[..|s| - 1]
    requires HasKey(r, key, key(s[|s| - 1]))
    ensures forall i :: 0 <= i < |s| && FirstOfKey(s, key, i) ==> s[i] in r
    ensures forall x :: x in r ==> x in s
  {
    var init := s[..|s| - 1];
    LastNotFirst(s, key, r);
    forall i | 0 <= i < |s| - 1 && FirstOfKey(s, key, i) ensures s[i] in r {
      assert forall k :: 0 <= k < i ==> init[k] == s[k];
      assert FirstOfKey(init, key, i);
    }
    forall x | x in r ensures x in s {
      var k :| 0 <= k < |init| && init[k] == x;
      assert s[k] == x;
    }
  }

  /** A last element whose key already occurs earlier is not the first of its key. */
  lemma LastNotFirst<T, K>(s: seq<T>, key: T -> K, r: seq<T>)
    requires s != []
    requires forall x :: x in r ==> x in s[..|s| - 1]
    requires HasKey(r, key, key(s[|s| - 1]))
    ensures !FirstOfKey(s, key, |s| - 1)
  {
    var j :| 0 <= j < |r| && key(r[j]) == key(s[|s| - 1]);
    assert r[j] in r;
    var k :| 0 <= k < |s| - 1 && s[..|s| - 1][k] == r[j];
    assert s[k] == r[j];
  }

  /** The step of `DistinctBy` that keeps a last element with a new key. */
  lemma DistinctByAppend<T, K>(s: seq<T>, key: T -> K, r: seq<T>)
    requires s != []
    requires DistinctKeys(r, key)
    requires forall i :: 0 <= i < |s| - 1 ==> HasKey(r, key, key(s[i]))
    requires forall i :: 0 <= i < |s| - 1 && FirstOfKey(s[..|s| - 1], key, i) ==> s[i] in r
    requires forall x :: x in r ==> x in s[..|s| - 1]
    requires !HasKey(r, key, key(s[|s| - 1]))
    ensures DistinctKeys(r + [s[|s| - 1]], key)
    ensures forall i :: 0 <= i < |s| && FirstOfKey(s, key, i) ==> s[i] in r + [s[|s| - 1]]
    ensures forall i :: 0 <= i < |s| ==> HasKey(r + [s[|s| - 1]], key, key(s[i]))
    ensures forall x :: x in r + [s[|s| - 1]] ==> x in s
  {
    var init := s[..|s| - 1];
    var r' := r + [s[|s| - 1]];
    forall i | 0 <= i < |s| && FirstOfKey(s, key, i) ensures s[i] in r' {
      if i < |s| - 1 {
        assert forall k :: 0 <= k < i ==> init[k] == s[k];
        assert FirstOfKey(init, key, i);
      }
    }
    forall i | 0 <= i < |s| ensures HasKey(r', key, key(s[i])) {
      if i < |s| - 1 {
        var j :| 0 <= j < |r| && key(r[j]) == key(s[i]);
        assert r'[j] == r[j];
      } else {
        assert r'[|r|] == s[i];
      }
    }
    forall x | x in r' ensures x in s {
      if x in r {
        var k :| 0 <= k < |init| && init[k] == x;
        assert s[k] == x;
      }
    }
  }

  /** `distinctBy` keeps a descending order. */
  lemma {:induction false} DistinctBySorted<T(!new), K>(s: seq<T>, key: T -> K, order: T -> int)
    requires SortedDesc(s, order)
    ensures SortedDesc(DistinctBy(s, key), order)
  {
    if s != [] {
      var init := s[..|s| - 1];
      assert SortedDesc(init, order);
      DistinctBySorted(init, key, order);
      var r := DistinctBy(init, key);
      forall y | y in r ensures order(y) >= order(s[|s| - 1]) {
        var k :| 0 <= k < |init| && init[k] == y;
      }
    }
  }

  /** A sequence without repeated keys is its own `distinctBy`. */
  lemma {:induction false} DistinctByOfDistinct<T(!new), K>(s: seq<T>, key: T -> K)
    requires DistinctKeys(s, key)
    ensures DistinctBy(s, key) == s
  {
    if s != [] {
      var init := s[..|s| - 1];
      DistinctByOfDistinct(init, key);
      forall j | 0 <= j < |init| ensures key(init[j]) != key(s[|s| - 1]) {
        assert init[j] == s[j];
      }
      assert init + [s[|s| - 1]] == s;
    }
  }

  /** Mapping keeps a descending order when the new key agrees with the old one. */
  lemma MapSorted<T, U>(s: seq<T>, f: T -> U, key: T -> int, key': U -> int)
    requires SortedDesc(s, key)
    requires forall x :: key'(f(x)) == key(x)
    ensures SortedDesc(Map(s, f), key')
  {
  }

  /** Mapping keeps keys distinct when the new key agrees with the old one. */
  lemma MapDistinct<T, U, K>(s: seq<T>, f: T -> U, key: T -> K, key': U -> K)
    requires DistinctKeys(s, key)
    requires forall x :: key'(f(x)) == key(x)
    ensures DistinctKeys(Map(s, f), key')
  {
  }

  /** Applies `f` to every element (`map`). */
  function Map<T, U>(s: seq<T>, f: T -> U): (r: seq<U>)
    ensures |r| == |s| && forall i :: 0 <= i < |s| ==> r[i] == f(s[i])
  {
    if s == [] then [] else [f(s[0])] + Map(s[1..], f)
  }
}
