/** Python's `sorted(xs, key=lambda x: -score(x))` : highest score first, ties in the original order. */
module Sorting {
  ghost predicate Descending<T>(s: seq<T>, key: T -> real) {
    forall i, j :: 0 <= i < j < |s| ==> key(s[i]) >= key(s[j])
  }

  function InsertDesc<T>(x: T, s: seq<T>, key: T -> real): (r: seq<T>)
    ensures |r| == |s| + 1
  {
    if s == [] || key(x) >= key(s[0]) then [x] + s else [s[0]] + InsertDesc(x, s[1..], key)
  }

  function SortDesc<T>(s: seq<T>, key: T -> real): (r: seq<T>)
    ensures |r| == |s|
  {
    if s == [] then [] else InsertDesc(s[0], SortDesc(s[1..], key), key)
  }

  lemma {:induction false} MultisetCons<T>(s: seq<T>)
    requires s != []
    ensures multiset(s) == multiset{s[0]} + multiset(s[1..])
  {
    assert s == [s[0]] + s[1..];
  }

  lemma {:induction false} InsertPermutes<T>(x: T, s: seq<T>, key: T -> real)
    ensures multiset(InsertDesc(x, s, key)) == multiset{x} + multiset(s)
  {
    if s != [] && key(x) < key(s[0]) {
      InsertPermutes(x, s[1..], key);
      MultisetCons(s);
    }
  }

  lemma {:induction false} InsertIsSorted<T>(x: T, s: seq<T>, key: T -> real)
    requires Descending(s, key)
    ensures Descending(InsertDesc(x, s, key), key)
    ensures forall y :: y in InsertDesc(x, s, key) ==> y == x || y in s
  {
    if s != [] && key(x) < key(s[0]) {
      InsertIsSorted(x, s[1..], key);
      var r := InsertDesc(x, s[1..], key);
      assert forall i :: 0 <= i < |r| ==> r[i] in r;
    }
  }

  lemma {:induction false} SortIsSorted<T>(s: seq<T>, key: T -> real)
    ensures Descending(SortDesc(s, key), key)
    ensures multiset(SortDesc(s, key)) == multiset(s)
  {
    if s != [] {
      SortIsSorted(s[1..], key);
      InsertIsSorted(s[0], SortDesc(s[1..], key), key);
      InsertPermutes(s[0], SortDesc(s[1..], key), key);
      MultisetCons(s);
    }
  }

  function WithKey<T>(s: seq<T>, key: T -> real, v: real): seq<T> {
    if s == [] then []
    else (if key(s[0]) == v then [s[0]] else []) + WithKey(s[1..], key, v)
  }

  lemma {:induction false} WithKeyCons<T>(x: T, s: seq<T>, key: T -> real, v: real)
    ensures WithKey([x] + s, key, v) == (if key(x) == v then [x] else []) + WithKey(s, key, v)
  {
    assert ([x] + s)[1..] == s;
  }

  lemma {:induction false} InsertKeepsTies<T>(x: T, s: seq<T>, key: T -> real, v: real)
    requires Descending(s, key)
    ensures WithKey(InsertDesc(x, s, key), key, v) == (if key(x) == v then [x] else []) + WithKey(s, key, v)
  {
    if s == [] || key(x) >= key(s[0]) {
      WithKeyCons(x, s, key, v);
    } else {
      // nothing before x's place has x's key, so x stays the first of its ties
      InsertKeepsTies(x, s[1..], key, v);
      WithKeyCons(s[0], InsertDesc(x, s[1..], key), key, v);
      if key(x) == v {
        assert WithKey(s, key, v) == WithKey(s[1..], key, v);
      }
    }
  }

  /** Stability: rows with equal scores keep their order. */
  lemma {:induction false} SortIsStable<T>(s: seq<T>, key: T -> real, v: real)
    ensures WithKey(SortDesc(s, key), key, v) == WithKey(s, key, v)
  {
    if s != [] {
      SortIsStable(s[1..], key, v);
      SortIsSorted(s[1..], key);
      InsertKeepsTies(s[0], SortDesc(s[1..], key), key, v);
    }
  }

  lemma {:induction false} PrefixOfDescending<T>(s: seq<T>, n: nat, key: T -> real)
    requires Descending(s, key) && n <= |s|
    ensures Descending(s[..n], key)
  {
  }

  // ----- Permutations -----

  ghost predicate NoRepeats<T>(s: seq<T>) {
    forall i, j :: 0 <= i < j < |s| ==> s[i] != s[j]
  }

  lemma {:induction false} PermutationMembers<T>(a: seq<T>, b: seq<T>)
    requires multiset(a) == multiset(b)
    ensures forall x :: x in a <==> x in b
  {
    assert forall x :: x in a ==> x in multiset(a);
    assert forall x :: x in b ==> x in multiset(b);
  }

  lemma {:induction false} CountsWithoutRepeats<T>(s: seq<T>, x: T)
    requires NoRepeats(s)
    ensures multiset(s)[x] <= 1
  {
    if s != [] {
      CountsWithoutRepeats(s[1..], x);
      assert s == [s[0]] + s[1..];
      if x == s[0] {
        assert x !in s[1..];
        assert x !in multiset(s[1..]);
      }
    }
  }

  lemma {:induction false} RepeatsAreCounted<T>(s: seq<T>, i: nat, j: nat)
    requires i < j < |s| && s[i] == s[j]
    ensures multiset(s)[s[i]] >= 2
  {
    assert s == s[..j] + s[j..];
    assert s[i] in multiset(s[..j]) by { assert s[..j][i] == s[i]; }
    assert s[j] in multiset(s[j..]) by { assert s[j..][0] == s[j]; }
  }

  lemma {:induction false} PermutationHasNoRepeats<T>(a: seq<T>, b: seq<T>)
    requires multiset(a) == multiset(b) && NoRepeats(a)
    ensures NoRepeats(b)
  {
    forall i, j | 0 <= i < j < |b| ensures b[i] != b[j] {
      CountsWithoutRepeats(a, b[i]);
      if b[i] == b[j] {
        RepeatsAreCounted(b, i, j);
      }
    }
  }

  // ----- Sorting commutes with replacing each element by a view of it -----

  function Map<T, U>(s: seq<T>, f: T -> U): (r: seq<U>)
    ensures |r| == |s| && forall i :: 0 <= i < |s| ==> r[i] == f(s[i])
  {
    if s == [] then [] else [f(s[0])] + Map(s[1..], f)
  }

  lemma {:induction false} InsertOfMap<T, U>(x: T, s: seq<T>, f: T -> U, key: T -> real, keyOfView: U -> real)
    requires keyOfView(f(x)) == key(x) && forall y :: y in s ==> keyOfView(f(y)) == key(y)
    ensures InsertDesc(f(x), Map(s, f), keyOfView) == Map(InsertDesc(x, s, key), f)
  {
    if s != [] && key(x) < key(s[0]) {
      InsertOfMap(x, s[1..], f, key, keyOfView);
      assert Map(s, f)[1..] == Map(s[1..], f);
    }
  }

  lemma {:induction false} SortOfMap<T, U>(s: seq<T>, f: T -> U, key: T -> real, keyOfView: U -> real)
    requires forall y :: y in s ==> keyOfView(f(y)) == key(y)
    ensures SortDesc(Map(s, f), keyOfView) == Map(SortDesc(s, key), f)
  {
    if s != [] {
      var rest := SortDesc(s[1..], key);
      assert Map(s, f)[1..] == Map(s[1..], f);
      SortOfMap(s[1..], f, key, keyOfView);
      forall y | y in rest ensures keyOfView(f(y)) == key(y) {
        SortIsSorted(s[1..], key);
        assert y in multiset(rest);
      }
      InsertOfMap(s[0], rest, f, key, keyOfView);
    }
  }
}
