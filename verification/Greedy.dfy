/** First-come greedy selection: an element is kept unless it matches one kept before it. */
module Greedy {
  import opened Options

  /** The first kept element that x matches, searching from position `from`. */
  function FirstMatch<T>(kept: seq<T>, x: T, matches: (T, T) -> bool, from: nat := 0): (r: Option<nat>)
    requires from <= |kept|
    ensures r.Some? ==> from <= r.value < |kept| && matches(x, kept[r.value])
    ensures r.Some? ==> forall j :: from <= j < r.value ==> !matches(x, kept[j])
    ensures r.None? ==> forall j :: from <= j < |kept| ==> !matches(x, kept[j])
    decreases |kept| - from
  {
    if from == |kept| then None
    else if matches(x, kept[from]) then Some(from)
    else FirstMatch(kept, x, matches, from + 1)
  }

  lemma {:induction false} FirstMatchAt<T>(kept: seq<T>, x: T, matches: (T, T) -> bool, k: nat)
    requires k < |kept| && matches(x, kept[k]) && forall j :: 0 <= j < k ==> !matches(x, kept[j])
    ensures FirstMatch(kept, x, matches) == Some(k)
  {
    var first := FirstMatch(kept, x, matches);
    assert first.Some? && first.value <= k;
  }

  function Keepers<T>(xs: seq<T>, matches: (T, T) -> bool): seq<T> {
    if xs == [] then []
    else
      var kept, x := Keepers(xs[..|xs| - 1], matches), xs[|xs| - 1];
      if FirstMatch(kept, x, matches).None? then kept + [x] else kept
  }

  ghost predicate Independent<T>(s: seq<T>, matches: (T, T) -> bool) {
    forall i, j :: 0 <= i < j < |s| ==> !matches(s[j], s[i])
  }

  lemma {:induction false} KeepersAreIndependent<T>(xs: seq<T>, matches: (T, T) -> bool)
    ensures Independent(Keepers(xs, matches), matches)
    ensures forall x :: x in Keepers(xs, matches) ==> x in xs
  {
    if xs != [] {
      KeepersAreIndependent(xs[..|xs| - 1], matches);
    }
  }

  /** What was kept after a prefix stays kept, in the same places. */
  lemma {:induction false} KeepersGrow<T>(xs: seq<T>, p: nat, matches: (T, T) -> bool)
    requires p <= |xs|
    ensures Keepers(xs[..p], matches) <= Keepers(xs, matches)
    decreases |xs| - p
  {
    if p == |xs| {
      assert xs[..p] == xs;
    } else {
      KeepersGrow(xs, p + 1, matches);
      assert xs[..p + 1][..p] == xs[..p];
    }
  }

  /** An element that is not kept matches a keeper, and its first match is the one it met at its turn. */
  lemma {:induction false} MatchAtItsTurn<T>(xs: seq<T>, p: nat, matches: (T, T) -> bool)
    requires p < |xs| && FirstMatch(Keepers(xs[..p], matches), xs[p], matches).Some?
    ensures FirstMatch(Keepers(xs, matches), xs[p], matches) == FirstMatch(Keepers(xs[..p], matches), xs[p], matches)
  {
    KeepersGrow(xs, p, matches);
  }

  /** Each element either is kept at its turn or has a first match among the keepers of the whole list. */
  lemma {:induction false} EveryElementIsDecided<T>(xs: seq<T>, p: nat, matches: (T, T) -> bool)
    requires p < |xs|
    ensures FirstMatch(Keepers(xs[..p], matches), xs[p], matches).None? ==>
              |Keepers(xs[..p], matches)| < |Keepers(xs, matches)|
              && Keepers(xs, matches)[|Keepers(xs[..p], matches)|] == xs[p]
  {
    KeepersGrow(xs, p + 1, matches);
    assert xs[..p + 1][..p] == xs[..p];
  }

  ghost predicate Subsequence<T>(a: seq<T>, b: seq<T>) {
    if a == [] then true
    else if b == [] then false
    else if a[|a| - 1] == b[|b| - 1] && Subsequence(a[..|a| - 1], b[..|b| - 1]) then true
    else Subsequence(a, b[..|b| - 1])
  }

  lemma {:induction false} KeepersAreASubsequence<T>(xs: seq<T>, matches: (T, T) -> bool)
    ensures Subsequence(Keepers(xs, matches), xs)
  {
    if xs != [] {
      var kept, x := Keepers(xs[..|xs| - 1], matches), xs[|xs| - 1];
      KeepersAreASubsequence(xs[..|xs| - 1], matches);
      assert (kept + [x])[..|kept|] == kept;
    }
  }
}
