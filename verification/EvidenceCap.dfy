/** The global evidence cap and the token budget (cross_encoder.cap_global_evidence, truncate_to_token_budget). */
module EvidenceCap {
  import opened EvidenceRows
  import opened Sorting

  // ----- The code -----

  function Score(r: Row): real { r.Score() }

  /** Every sub-query's kept rows, one list after the other. */
  function Flatten(groups: seq<seq<Row>>): seq<Row> {
    if groups == [] then [] else groups[0] + Flatten(groups[1..])
  }

  /** `max(lst, key=score)`: the first row of highest score. */
  function Best(group: seq<Row>): (b: Row)
    requires group != []
    ensures b in group && forall i :: 0 <= i < |group| ==> Score(group[i]) <= Score(b)
  {
    if |group| == 1 then group[0]
    else
      var before, last := Best(group[..|group| - 1]), group[|group| - 1];
      assert forall i :: 0 <= i < |group| - 1 ==> group[i] == group[..|group| - 1][i];
      if Score(last) > Score(before) then last else before
  }

  /** The best row of each non-empty sub-query. */
  function Floor(groups: seq<seq<Row>>): seq<Row> {
    if groups == [] then []
    else if groups[0] == [] then Floor(groups[1..])
    else [Best(groups[0])] + Floor(groups[1..])
  }

  function Without(rows: seq<Row>, ids: set<Id>): seq<Row> {
    if rows == [] then []
    else if rows[0].evidenceId in ids then Without(rows[1..], ids)
    else [rows[0]] + Without(rows[1..], ids)
  }

  function Ids(rows: seq<Row>): set<Id> {
    set i | 0 <= i < |rows| :: rows[i].evidenceId
  }

  function Take(rows: seq<Row>, n: nat): seq<Row> {
    if |rows| <= n then rows else rows[..n]
  }

  function CapGlobalEvidence(groups: seq<seq<Row>>, maxTotal: nat): seq<Row> {
    var all := Flatten(groups);
    if |all| <= maxTotal then SortDesc(all, Score)
    else
      var floor := SortDesc(Floor(groups), Score);
      if |floor| >= maxTotal then floor[..maxTotal]
      else
        var rest := Take(SortDesc(Without(all, Ids(floor)), Score), maxTotal - |floor|);
        SortDesc(floor + rest, Score)
  }

  // ----- Other selections it is compared with -----

  /** One flag per kept row: which rows a selection takes. */
  type Selection = seq<seq<bool>>

  ghost predicate Shaped(groups: seq<seq<Row>>, pick: Selection) {
    |pick| == |groups| && forall g :: 0 <= g < |groups| ==> |pick[g]| == |groups[g]|
  }

  ghost function Picked(group: seq<Row>, pick: seq<bool>): seq<Row>
    requires |pick| == |group|
  {
    if group == [] then []
    else if pick[0] then [group[0]] + Picked(group[1..], pick[1..])
    else Picked(group[1..], pick[1..])
  }

  ghost function PickedOf(groups: seq<seq<Row>>, pick: Selection): seq<Row>
    requires Shaped(groups, pick)
  {
    if groups == [] then [] else Picked(groups[0], pick[0]) + PickedOf(groups[1..], pick[1..])
  }

  /** At least one row of every non-empty sub-query is taken. */
  ghost predicate Covers(groups: seq<seq<Row>>, pick: Selection)
    requires Shaped(groups, pick)
  {
    forall g :: 0 <= g < |groups| && groups[g] != [] ==> Picked(groups[g], pick[g]) != []
  }

  /** At most one row of every sub-query is taken. */
  ghost predicate OneEach(groups: seq<seq<Row>>, pick: Selection)
    requires Shaped(groups, pick)
  {
    forall g :: 0 <= g < |groups| ==> |Picked(groups[g], pick[g])| <= 1
  }

  ghost function Total(rows: seq<Row>): real {
    if rows == [] then 0.0 else Score(rows[0]) + Total(rows[1..])
  }

  // ----- Sums relative to a cut-off score -----

  ghost function Pos(x: real): real { if x > 0.0 then x else 0.0 }

  ghost function GainSum(rows: seq<Row>, cut: real): real {
    if rows == [] then 0.0 else Score(rows[0]) - cut + GainSum(rows[1..], cut)
  }

  ghost function PosSum(rows: seq<Row>, cut: real): (r: real)
    ensures r >= 0.0
  {
    if rows == [] then 0.0 else Pos(Score(rows[0]) - cut) + PosSum(rows[1..], cut)
  }

  ghost function Times(n: nat, cut: real): real {
    if n == 0 then 0.0 else cut + Times(n - 1, cut)
  }

  lemma {:induction false} GainsAndTotals(rows: seq<Row>, cut: real)
    ensures Total(rows) == GainSum(rows, cut) + Times(|rows|, cut)
  {
    if rows != [] { GainsAndTotals(rows[1..], cut); }
  }

  lemma {:induction false} SumsOfConcat(a: seq<Row>, b: seq<Row>, cut: real)
    ensures GainSum(a + b, cut) == GainSum(a, cut) + GainSum(b, cut)
    ensures PosSum(a + b, cut) == PosSum(a, cut) + PosSum(b, cut)
  {
    if a == [] {
      assert a + b == b;
    } else {
      assert (a + b)[1..] == a[1..] + b;
      SumsOfConcat(a[1..], b, cut);
    }
  }

  lemma {:induction false} SumsOfInsert(x: Row, s: seq<Row>, cut: real)
    ensures GainSum(InsertDesc(x, s, Score), cut) == Score(x) - cut + GainSum(s, cut)
    ensures PosSum(InsertDesc(x, s, Score), cut) == Pos(Score(x) - cut) + PosSum(s, cut)
  {
    if s == [] || Score(x) >= Score(s[0]) {
      assert ([x] + s)[1..] == s;
    } else {
      SumsOfInsert(x, s[1..], cut);
      var r := InsertDesc(x, s[1..], Score);
      assert ([s[0]] + r)[1..] == r;
    }
  }

  lemma {:induction false} SumsOfSort(s: seq<Row>, cut: real)
    ensures GainSum(SortDesc(s, Score), cut) == GainSum(s, cut)
    ensures PosSum(SortDesc(s, Score), cut) == PosSum(s, cut)
  {
    if s != [] {
      SumsOfSort(s[1..], cut);
      SumsOfInsert(s[0], SortDesc(s[1..], Score), cut);
    }
  }

  lemma {:induction false} NothingAboveTheCut(rows: seq<Row>, cut: real)
    requires forall i :: 0 <= i < |rows| ==> Score(rows[i]) <= cut
    ensures PosSum(rows, cut) == 0.0
  {
    if rows != [] { NothingAboveTheCut(rows[1..], cut); }
  }

  lemma {:induction false} EverythingAboveTheCut(rows: seq<Row>, cut: real)
    requires forall i :: 0 <= i < |rows| ==> Score(rows[i]) >= cut
    ensures PosSum(rows, cut) == GainSum(rows, cut)
  {
    if rows != [] { EverythingAboveTheCut(rows[1..], cut); }
  }

  /** The first k of a descending list collect every positive gain over the k-th score. */
  lemma {:induction false} PrefixTakesEveryGain(s: seq<Row>, k: nat)
    requires Descending(s, Score) && 0 < k <= |s|
    ensures GainSum(s[..k], Score(s[k - 1])) == PosSum(s, Score(s[k - 1]))
  {
    var cut := Score(s[k - 1]);
    assert s == s[..k] + s[k..];
    SumsOfConcat(s[..k], s[k..], cut);
    EverythingAboveTheCut(s[..k], cut);
    NothingAboveTheCut(s[k..], cut);
  }

  // ----- What a covering selection can collect at most -----

  /** The best row's gain, and every positive gain beside it. */
  ghost function Bound(group: seq<Row>, cut: real): real {
    if group == [] then 0.0
    else Score(Best(group)) - cut + PosSum(Without(group, {Best(group).evidenceId}), cut)
  }

  ghost function Bounds(groups: seq<seq<Row>>, cut: real): real {
    if groups == [] then 0.0 else Bound(groups[0], cut) + Bounds(groups[1..], cut)
  }

  /** A non-empty pick from rows no better than b gains at most b's gain plus the positive gains of the others. */
  lemma {:induction false} PickGainsAtMost(group: seq<Row>, pick: seq<bool>, b: Row, cut: real)
    requires |pick| == |group| && Picked(group, pick) != [] && DistinctIds(group)
    requires forall i :: 0 <= i < |group| ==> Score(group[i]) <= Score(b)
    ensures GainSum(Picked(group, pick), cut) <= Score(b) - cut + PosSum(Without(group, {b.evidenceId}), cut)
  {
    var r, rest, others := group[0], group[1..], Picked(group[1..], pick[1..]);
    if others != [] {
      PickGainsAtMost(rest, pick[1..], b, cut);
    }
    if pick[0] {
      assert ([r] + others)[1..] == others;
      if r.evidenceId == b.evidenceId {
        NobodyElse(rest, b.evidenceId);
        PickedGainsAtMostPositive(rest, pick[1..], cut);
      }
    }
    var kept := Without(rest, {b.evidenceId});
    assert ([r] + kept)[1..] == kept;
  }

  lemma {:induction false} NobodyElse(rows: seq<Row>, id: Id)
    requires FreshIn(id, rows)
    ensures Without(rows, {id}) == rows
  {
    if rows != [] {
      NobodyElse(rows[1..], id);
      assert rows[0].evidenceId != id;
    }
  }

  lemma {:induction false} PickedGainsAtMostPositive(group: seq<Row>, pick: seq<bool>, cut: real)
    requires |pick| == |group|
    ensures GainSum(Picked(group, pick), cut) <= PosSum(group, cut)
  {
    if group != [] {
      PickedGainsAtMostPositive(group[1..], pick[1..], cut);
      var others := Picked(group[1..], pick[1..]);
      assert ([group[0]] + others)[1..] == others;
    }
  }

  lemma {:induction false} CoveringGainsAtMost(groups: seq<seq<Row>>, pick: Selection, cut: real)
    requires Shaped(groups, pick) && Covers(groups, pick)
    requires forall g :: 0 <= g < |groups| ==> DistinctIds(groups[g])
    ensures GainSum(PickedOf(groups, pick), cut) <= Bounds(groups, cut)
  {
    if groups != [] {
      assert Covers(groups[1..], pick[1..]) by {
        forall g | 0 <= g < |groups[1..]| && groups[1..][g] != [] ensures Picked(groups[1..][g], pick[1..][g]) != [] {
          assert groups[1..][g] == groups[g + 1] && pick[1..][g] == pick[g + 1];
        }
      }
      CoveringGainsAtMost(groups[1..], pick[1..], cut);
      SumsOfConcat(Picked(groups[0], pick[0]), PickedOf(groups[1..], pick[1..]), cut);
      if groups[0] != [] {
        PickGainsAtMost(groups[0], pick[0], Best(groups[0]), cut);
      }
    }
  }

  lemma {:induction false} OneEachGainsAtMost(groups: seq<seq<Row>>, pick: Selection, cut: real)
    requires Shaped(groups, pick) && OneEach(groups, pick)
    ensures GainSum(PickedOf(groups, pick), cut) <= PosSum(Floor(groups), cut)
  {
    if groups != [] {
      OneEachGainsAtMost(groups[1..], pick[1..], cut) by {
        forall g | 0 <= g < |groups[1..]| ensures |Picked(groups[1..][g], pick[1..][g])| <= 1 {
          assert groups[1..][g] == groups[g + 1] && pick[1..][g] == pick[g + 1];
        }
      }
      var first := Picked(groups[0], pick[0]);
      SumsOfConcat(first, PickedOf(groups[1..], pick[1..]), cut);
      assert groups[0] != [] ==> Floor(groups)[1..] == Floor(groups[1..]);
      if first != [] {
        PickedComesFromTheGroup(groups[0], pick[0]);
        assert first == [first[0]] && first[0] in groups[0];
      }
    }
  }

  lemma {:induction false} PickedComesFromTheGroup(group: seq<Row>, pick: seq<bool>)
    requires |pick| == |group|
    ensures forall r :: r in Picked(group, pick) ==> r in group
  {
    if group != [] { PickedComesFromTheGroup(group[1..], pick[1..]); }
  }

  // ----- The floor and the leftovers, group by group -----

  lemma {:induction false} WithoutOfConcat(a: seq<Row>, b: seq<Row>, ids: set<Id>)
    ensures Without(a + b, ids) == Without(a, ids) + Without(b, ids)
  {
    if a == [] {
      assert a + b == b;
    } else {
      assert (a + b)[1..] == a[1..] + b;
      WithoutOfConcat(a[1..], b, ids);
    }
  }

  lemma {:induction false} WithoutAgrees(rows: seq<Row>, a: set<Id>, b: set<Id>)
    requires forall i :: 0 <= i < |rows| ==> (rows[i].evidenceId in a <==> rows[i].evidenceId in b)
    ensures Without(rows, a) == Without(rows, b)
  {
    if rows != [] { WithoutAgrees(rows[1..], a, b); }
  }

  lemma {:induction false} WithoutKeepsMembers(rows: seq<Row>, ids: set<Id>)
    ensures forall r :: r in Without(rows, ids) ==> r in rows
  {
    if rows != [] { WithoutKeepsMembers(rows[1..], ids); }
  }

  lemma {:induction false} FreshInParts(id: Id, a: seq<Row>, b: seq<Row>)
    requires FreshIn(id, a + b)
    ensures FreshIn(id, a) && FreshIn(id, b)
  {
    var all := a + b;
    assert forall i :: 0 <= i < |a| ==> a[i] == all[i];
    assert forall i :: 0 <= i < |b| ==> b[i] == all[|a| + i];
  }

  lemma {:induction false} DistinctParts(a: seq<Row>, b: seq<Row>)
    requires DistinctIds(a + b)
    ensures DistinctIds(a) && DistinctIds(b) && Ids(a) !! Ids(b)
  {
    if a == [] {
      assert a + b == b;
    } else {
      assert (a + b)[1..] == a[1..] + b;
      FreshInParts(a[0].evidenceId, a[1..], b);
      DistinctParts(a[1..], b);
      assert Ids(a) == {a[0].evidenceId} + Ids(a[1..]);
    }
  }

  lemma {:induction false} FloorComesFromTheGroups(groups: seq<seq<Row>>)
    ensures forall r :: r in Floor(groups) ==> r in Flatten(groups)
    ensures Ids(Floor(groups)) <= Ids(Flatten(groups))
  {
    if groups != [] {
      FloorComesFromTheGroups(groups[1..]);
    }
    forall id | id in Ids(Floor(groups)) ensures id in Ids(Flatten(groups)) {
      var i :| 0 <= i < |Floor(groups)| && Floor(groups)[i].evidenceId == id;
      assert Floor(groups)[i] in Flatten(groups);
    }
  }

  lemma {:induction false} LeavingTheBestOut(group: seq<Row>, b: Row, cut: real)
    requires DistinctIds(group) && b in group
    ensures |Without(group, {b.evidenceId})| == |group| - 1
    ensures GainSum(group, cut) == Score(b) - cut + GainSum(Without(group, {b.evidenceId}), cut)
  {
    if group[0] == b {
      NobodyElse(group[1..], b.evidenceId);
    } else {
      assert b in group[1..];
      LeavingTheBestOut(group[1..], b, cut);
      assert group[0].evidenceId != b.evidenceId;
    }
  }

  /** The bounds add up to the floor's gains and the positive gains of everything else. */
  lemma {:induction false} BoundsAreFloorAndLeftovers(groups: seq<seq<Row>>, cut: real)
    requires DistinctIds(Flatten(groups))
    ensures var left := Without(Flatten(groups), Ids(Floor(groups)));
      && Bounds(groups, cut) == GainSum(Floor(groups), cut) + PosSum(left, cut)
      && GainSum(Flatten(groups), cut) == GainSum(Floor(groups), cut) + GainSum(left, cut)
      && |left| == |Flatten(groups)| - |Floor(groups)|
  {
    if groups != [] {
      var head, tail := groups[0], groups[1..];
      DistinctParts(head, Flatten(tail));
      SumsOfConcat(head, Flatten(tail), cut);
      BoundsAreFloorAndLeftovers(tail, cut);
      LeftoversOfHeadAndTail(groups);
      var headLeft := if head == [] then [] else Without(head, {Best(head).evidenceId});
      SumsOfConcat(headLeft, Without(Flatten(tail), Ids(Floor(tail))), cut);
      if head != [] {
        LeavingTheBestOut(head, Best(head), cut);
        assert Floor(groups)[1..] == Floor(tail);
      }
    }
  }

  lemma {:induction false} GroupsAreDistinct(groups: seq<seq<Row>>)
    requires DistinctIds(Flatten(groups))
    ensures forall g :: 0 <= g < |groups| ==> DistinctIds(groups[g])
  {
    if groups != [] {
      DistinctParts(groups[0], Flatten(groups[1..]));
      GroupsAreDistinct(groups[1..]);
      assert forall g :: 0 < g < |groups| ==> groups[g] == groups[1..][g - 1];
    }
  }

  lemma {:induction false} LeftoversOfHeadAndTail(groups: seq<seq<Row>>)
    requires groups != [] && DistinctIds(Flatten(groups))
    ensures var head, tail := groups[0], groups[1..];
      Without(Flatten(groups), Ids(Floor(groups))) ==
      (if head == [] then [] else Without(head, {Best(head).evidenceId})) + Without(Flatten(tail), Ids(Floor(tail)))
  {
    var head, tail := groups[0], groups[1..];
    var ids, tailIds := Ids(Floor(groups)), Ids(Floor(tail));
    DistinctParts(head, Flatten(tail));
    FloorComesFromTheGroups(tail);
    WithoutOfConcat(head, Flatten(tail), ids);
    if head != [] {
      assert Floor(groups) == [Best(head)] + Floor(tail);
      IdsOfCons(Best(head), Floor(tail));
    }
    HeadAndTailIds(head, Flatten(tail), ids, tailIds);
  }

  lemma {:induction false} IdsOfCons(r: Row, rows: seq<Row>)
    ensures Ids([r] + rows) == {r.evidenceId} + Ids(rows)
  {
    var all := [r] + rows;
    assert forall i :: 0 <= i < |rows| ==> all[i + 1] == rows[i];
    assert all[0] == r;
  }

  lemma {:induction false} HeadAndTailIds(head: seq<Row>, tail: seq<Row>, ids: set<Id>, tailIds: set<Id>)
    requires Ids(head) !! Ids(tail) && tailIds <= Ids(tail)
    requires ids == (if head == [] then {} else {Best(head).evidenceId}) + tailIds
    ensures Without(tail, ids) == Without(tail, tailIds)
    ensures Without(head, ids) == if head == [] then [] else Without(head, {Best(head).evidenceId})
  {
    assert forall i :: 0 <= i < |tail| ==> tail[i].evidenceId in Ids(tail);
    assert forall i :: 0 <= i < |head| ==> head[i].evidenceId in Ids(head);
    if head != [] {
      var b := Best(head);
      assert b.evidenceId in Ids(head) by {
        var i :| 0 <= i < |head| && head[i] == b;
      }
      WithoutAgrees(head, ids, {b.evidenceId});
    }
    WithoutAgrees(tail, ids, tailIds);
  }

  // ----- What the cap returns -----

  lemma {:induction false} BestAndTheOthers(group: seq<Row>, b: Row)
    requires DistinctIds(group) && b in group
    ensures multiset(group) == multiset{b} + multiset(Without(group, {b.evidenceId}))
  {
    MultisetCons(group);
    if group[0] == b {
      NobodyElse(group[1..], b.evidenceId);
    } else {
      assert b in group[1..];
      BestAndTheOthers(group[1..], b);
      assert group[0].evidenceId != b.evidenceId;
    }
  }

  lemma {:induction false} FloorAndLeftoversAreEverything(groups: seq<seq<Row>>)
    requires DistinctIds(Flatten(groups))
    ensures multiset(Flatten(groups)) ==
      multiset(Floor(groups)) + multiset(Without(Flatten(groups), Ids(Floor(groups))))
  {
    if groups != [] {
      var head, tail := groups[0], groups[1..];
      DistinctParts(head, Flatten(tail));
      FloorAndLeftoversAreEverything(tail);
      LeftoversOfHeadAndTail(groups);
      if head != [] {
        BestAndTheOthers(head, Best(head));
      }
    }
  }

  lemma {:induction false} SubBagHasDistinctIds(sub: seq<Row>, rows: seq<Row>)
    requires multiset(sub) <= multiset(rows) && DistinctIds(rows)
    ensures DistinctIds(sub) && forall r :: r in sub ==> r in rows
  {
    IdsDiffer(rows);
    IdsDiffer(sub);
    forall r | r in sub ensures r in rows {
      assert r in multiset(sub);
    }
    forall i, j | 0 <= i < j < |sub| ensures sub[i].evidenceId != sub[j].evidenceId {
      assert sub[i] in sub && sub[j] in sub;
      CountsWithoutRepeats(rows, sub[i]);
      if sub[i] == sub[j] {
        RepeatsAreCounted(sub, i, j);
      }
    }
  }

  lemma {:induction false} SortHasTheSameIds(rows: seq<Row>)
    ensures Ids(SortDesc(rows, Score)) == Ids(rows)
  {
    var sorted := SortDesc(rows, Score);
    SortIsSorted(rows, Score);
    PermutationMembers(rows, sorted);
    forall i | 0 <= i < |rows| ensures rows[i].evidenceId in Ids(sorted) {
      assert rows[i] in sorted;
    }
    forall i | 0 <= i < |sorted| ensures sorted[i].evidenceId in Ids(rows) {
      assert sorted[i] in rows;
    }
  }

  lemma {:induction false} CountLeftovers(groups: seq<seq<Row>>)
    requires DistinctIds(Flatten(groups))
    ensures |Without(Flatten(groups), Ids(Floor(groups)))| == |Flatten(groups)| - |Floor(groups)|
  {
    BoundsAreFloorAndLeftovers(groups, 0.0);
  }

  /** The cap when the floor leaves slots over: the leftovers are those behind the floor, and they fill the slots. */
  lemma {:induction false} CapByCases(groups: seq<seq<Row>>, maxTotal: nat)
    requires DistinctIds(Flatten(groups)) && |Flatten(groups)| > maxTotal && |Floor(groups)| < maxTotal
    ensures var floor := SortDesc(Floor(groups), Score);
      var left := SortDesc(Without(Flatten(groups), Ids(Floor(groups))), Score);
      && 0 < maxTotal - |floor| <= |left|
      && CapGlobalEvidence(groups, maxTotal) == SortDesc(floor + left[..maxTotal - |floor|], Score)
  {
    CountLeftovers(groups);
    SortHasTheSameIds(Floor(groups));
  }

  /**
    * Exactly min(total, maxTotal) of the kept rows, highest score first; with slots enough, the best of each
    * sub-query.
    */
  lemma {:induction false} CapIsASelection(groups: seq<seq<Row>>, maxTotal: nat)
    requires DistinctIds(Flatten(groups))
    ensures var r := CapGlobalEvidence(groups, maxTotal);
      && |r| == (if |Flatten(groups)| <= maxTotal then |Flatten(groups)| else maxTotal)
      && Descending(r, Score)
      && multiset(r) <= multiset(Flatten(groups))
      && (|Floor(groups)| <= maxTotal ==> multiset(Floor(groups)) <= multiset(r))
  {
    var all, floor := Flatten(groups), SortDesc(Floor(groups), Score);
    FloorAndLeftoversAreEverything(groups);
    if |all| <= maxTotal {
      SortIsSorted(all, Score);
    } else if |floor| >= maxTotal {
      TruncatedFloor(Floor(groups), maxTotal);
    } else {
      CapByCases(groups, maxTotal);
      FilledUp(Floor(groups), Without(all, Ids(Floor(groups))), maxTotal - |floor|);
    }
  }

  lemma {:induction false} TruncatedFloor(floor: seq<Row>, n: nat)
    requires n <= |floor|
    ensures var r := SortDesc(floor, Score)[..n];
      Descending(r, Score) && multiset(r) <= multiset(floor) && (n == |floor| ==> multiset(r) == multiset(floor))
  {
    var sorted := SortDesc(floor, Score);
    SortIsSorted(floor, Score);
    PrefixOfDescending(sorted, n, Score);
    PrefixIsASubBag(sorted, n);
  }

  lemma {:induction false} PrefixIsASubBag(rows: seq<Row>, n: nat)
    requires n <= |rows|
    ensures multiset(rows[..n]) <= multiset(rows) && (n == |rows| ==> rows[..n] == rows)
  {
    assert rows == rows[..n] + rows[n..];
  }

  lemma {:induction false} FilledUp(floor: seq<Row>, without: seq<Row>, n: nat)
    requires n <= |without|
    ensures var r := SortDesc(SortDesc(floor, Score) + SortDesc(without, Score)[..n], Score);
      Descending(r, Score) && multiset(floor) <= multiset(r) <= multiset(floor) + multiset(without)
  {
    var left := SortDesc(without, Score);
    assert multiset(SortDesc(floor, Score)) == multiset(floor) && multiset(left) == multiset(without) by {
      SortIsSorted(floor, Score);
      SortIsSorted(without, Score);
    }
    PrefixIsASubBag(left, n);
    SortIsSorted(SortDesc(floor, Score) + left[..n], Score);
  }

  // ----- Optimality -----

  /** A score no higher, or no lower, than any row's. */
  lemma {:induction false} ExtremeScores(rows: seq<Row>) returns (lo: real, hi: real)
    ensures forall i :: 0 <= i < |rows| ==> lo <= Score(rows[i]) <= hi
  {
    if rows == [] {
      lo, hi := 0.0, 0.0;
    } else {
      lo, hi := ExtremeScores(rows[1..]);
      var s := Score(rows[0]);
      assert forall i :: 0 < i < |rows| ==> rows[i] == rows[1..][i - 1];
      lo, hi := if s < lo then s else lo, if s > hi then s else hi;
    }
  }

  /** When the slots suffice for every non-empty sub-query, no covering selection of the same size scores higher. */
  lemma {:induction false} CapIsOptimal(groups: seq<seq<Row>>, maxTotal: nat, pick: Selection)
    requires DistinctIds(Flatten(groups)) && |Floor(groups)| <= maxTotal
    requires Shaped(groups, pick) && Covers(groups, pick)
    requires |PickedOf(groups, pick)| == |CapGlobalEvidence(groups, maxTotal)|
    ensures Total(PickedOf(groups, pick)) <= Total(CapGlobalEvidence(groups, maxTotal))
  {
    var r := CapGlobalEvidence(groups, maxTotal);
    var cut := BestCut(groups, maxTotal);
    GroupsAreDistinct(groups);
    CoveringGainsAtMost(groups, pick, cut);
    GainsAndTotals(r, cut);
    GainsAndTotals(PickedOf(groups, pick), cut);
  }

  /** When slots are filled up, the lowest score that filled one is such a cut-off. */
  lemma {:induction false} FillingCut(groups: seq<seq<Row>>, maxTotal: nat) returns (cut: real)
    requires DistinctIds(Flatten(groups)) && |Flatten(groups)| > maxTotal && |Floor(groups)| < maxTotal
    ensures GainSum(CapGlobalEvidence(groups, maxTotal), cut) ==
      GainSum(Floor(groups), cut) + PosSum(Without(Flatten(groups), Ids(Floor(groups))), cut)
  {
    var without := Without(Flatten(groups), Ids(Floor(groups)));
    CapByCases(groups, maxTotal);
    cut := FillingUpCollects(Floor(groups), without, maxTotal - |Floor(groups)|);
  }

  /** The floor and the k best of the others collect every gain over the last one's score. */
  lemma {:induction false} FillingUpCollects(floor: seq<Row>, without: seq<Row>, k: nat) returns (cut: real)
    requires 0 < k <= |without|
    ensures GainSum(SortDesc(SortDesc(floor, Score) + SortDesc(without, Score)[..k], Score), cut) ==
      GainSum(floor, cut) + PosSum(without, cut)
  {
    var left := SortDesc(without, Score);
    cut := Score(left[k - 1]);
    SortIsSorted(without, Score);
    PrefixTakesEveryGain(left, k);
    SumsOfSort(without, cut);
    SumsOfSort(floor, cut);
    SumsOfConcat(SortDesc(floor, Score), left[..k], cut);
    SumsOfSort(SortDesc(floor, Score) + left[..k], cut);
  }

  /** The cut-off score at which the returned rows collect the whole bound. */
  lemma {:induction false} BestCut(groups: seq<seq<Row>>, maxTotal: nat) returns (cut: real)
    requires DistinctIds(Flatten(groups)) && |Floor(groups)| <= maxTotal
    ensures GainSum(CapGlobalEvidence(groups, maxTotal), cut) == Bounds(groups, cut)
  {
    var all, floor := Flatten(groups), SortDesc(Floor(groups), Score);
    var without := Without(all, Ids(Floor(groups)));
    var lo, hi := ExtremeScores(all);
    WithoutKeepsMembers(all, Ids(Floor(groups)));
    assert forall i :: 0 <= i < |without| ==> without[i] in all;
    if |all| <= maxTotal {
      cut := lo;
      SumsOfSort(all, cut);
      EverythingAboveTheCut(without, cut);
    } else if |floor| == maxTotal {
      cut := hi;
      assert floor[..maxTotal] == floor;
      NothingAboveTheCut(without, cut);
      SumsOfSort(Floor(groups), cut);
    } else {
      cut := FillingCut(groups, maxTotal);
    }
    BoundsAreFloorAndLeftovers(groups, cut);
  }

  /** With more sub-queries than slots, no selection of one row at most from each scores higher. */
  lemma {:induction false} CapIsTheBestOnePerSubQuery(groups: seq<seq<Row>>, maxTotal: nat, pick: Selection)
    requires DistinctIds(Flatten(groups)) && |Floor(groups)| > maxTotal
    requires Shaped(groups, pick) && OneEach(groups, pick)
    requires |PickedOf(groups, pick)| == maxTotal
    ensures CapGlobalEvidence(groups, maxTotal) == SortDesc(Floor(groups), Score)[..maxTotal]
    ensures Total(PickedOf(groups, pick)) <= Total(CapGlobalEvidence(groups, maxTotal))
  {
    var floor := SortDesc(Floor(groups), Score);
    CountLeftovers(groups);
    if maxTotal > 0 {
      var cut := Score(floor[maxTotal - 1]);
      SortIsSorted(Floor(groups), Score);
      PrefixTakesEveryGain(floor, maxTotal);
      SumsOfSort(Floor(groups), cut);
      OneEachGainsAtMost(groups, pick, cut);
      GainsAndTotals(floor[..maxTotal], cut);
      GainsAndTotals(PickedOf(groups, pick), cut);
    }
  }

  // ----- The token budget -----

  function Tokens(rows: seq<Row>, chunks: map<Id, RetrievedChunk>): nat
    requires forall i :: 0 <= i < |rows| ==> rows[i].chunkId in chunks
  {
    if rows == [] then 0
    else Tokens(rows[..|rows| - 1], chunks) + chunks[rows[|rows| - 1].chunkId].tokenCount
  }

  /** No rows have no tokens, one row those of its chunk, and two lists those of both. */
  lemma {:induction false} TokensAreTheSum(a: seq<Row>, r: Row, b: seq<Row>, chunks: map<Id, RetrievedChunk>)
    requires r.chunkId in chunks
    requires forall i :: 0 <= i < |a| ==> a[i].chunkId in chunks
    requires forall i :: 0 <= i < |b| ==> b[i].chunkId in chunks
    ensures Tokens([], chunks) == 0 && Tokens([r], chunks) == chunks[r.chunkId].tokenCount
    ensures Tokens(a + b, chunks) == Tokens(a, chunks) + Tokens(b, chunks)
  {
    assert [r][..0] == [];
    if b == [] {
      assert a + b == a;
    } else {
      assert (a + b)[..|a + b| - 1] == a + b[..|b| - 1];
      TokensAreTheSum(a, r, b[..|b| - 1], chunks);
    }
  }

  lemma {:induction false} TokensGrow(rows: seq<Row>, a: nat, b: nat, chunks: map<Id, RetrievedChunk>)
    requires forall i :: 0 <= i < |rows| ==> rows[i].chunkId in chunks
    requires a <= b <= |rows|
    ensures Tokens(rows[..a], chunks) <= Tokens(rows[..b], chunks)
    decreases b - a
  {
    if a < b {
      TokensGrow(rows, a, b - 1, chunks);
      assert rows[..b][..b - 1] == rows[..b - 1];
    }
  }

  /** The longest prefix of the given order whose chunks fit the budget. */
  method TruncateToTokenBudget(evidence: seq<Row>, chunks: map<Id, RetrievedChunk>, budget: nat)
    returns (kept: seq<Row>)
    requires forall i :: 0 <= i < |evidence| ==> evidence[i].chunkId in chunks
    ensures kept <= evidence && Tokens(kept, chunks) <= budget
    ensures forall n :: |kept| < n <= |evidence| ==> Tokens(evidence[..n], chunks) > budget
  {
    kept := [];
    var total := 0;
    for n := 0 to |evidence|
      invariant kept == evidence[..n] && total == Tokens(kept, chunks) <= budget
    {
      var tokens := chunks[evidence[n].chunkId].tokenCount;
      assert evidence[..n + 1][..n] == evidence[..n];
      if total + tokens > budget {
        forall m | n < m <= |evidence| ensures Tokens(evidence[..m], chunks) > budget {
          TokensGrow(evidence, n + 1, m, chunks);
        }
        return;
      }
      kept, total := kept + [evidence[n]], total + tokens;
    }
  }
}
