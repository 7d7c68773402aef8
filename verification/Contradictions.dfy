/** Numeric disagreements between evidence rows about one entity (fusion.flag_contradictions). */
module Contradictions {
  import opened Options
  import opened EvidenceRows

  type Slots = map<string, string>

  /** Two extractions name the same entity but carry different values for some numeric slot. */
  predicate Contradict(a: Slots, b: Slots, entitySlot: string, numeric: set<string>) {
    && SameEntity(a, b, entitySlot)
    && exists s :: s in numeric && DifferOn(a, b, s)
  }

  predicate SameEntity(a: Slots, b: Slots, entitySlot: string) {
    entitySlot in a && entitySlot in b && a[entitySlot] == b[entitySlot]
  }

  predicate DifferOn(a: Slots, b: Slots, slot: string) {
    slot in a && slot in b && a[slot] != b[slot]
  }

  predicate Partners(rows: seq<Slots>, a: nat, b: nat, entitySlot: string, numeric: set<string>) {
    a < |rows| && b < |rows| && Contradict(rows[a], rows[b], entitySlot, numeric)
  }

  // ----- Specification: pair ids over the active rows -----

  datatype Flags = Flags(ids: seq<Option<Id>>, next: Id)

  /** Rows i and j share the id of the first of them that has one, or a new one. */
  function Mark(f: Flags, i: nat, j: nat): (g: Flags)
    requires i < |f.ids| && j < |f.ids|
    ensures |g.ids| == |f.ids|
  {
    var id := if f.ids[i].Some? then f.ids[i].value else if f.ids[j].Some? then f.ids[j].value else f.next;
    Flags(f.ids[i := Some(id)][j := Some(id)], if f.ids[i].None? && f.ids[j].None? then f.next + 1 else f.next)
  }

  /** Setting a pair once per differing slot is setting it once. */
  lemma {:induction false} MarkTwice(f: Flags, i: nat, j: nat)
    requires i < |f.ids| && j < |f.ids| && i != j
    ensures Mark(Mark(f, i, j), i, j) == Mark(f, i, j)
  {
    var g := Mark(f, i, j);
    assert g.ids[i := g.ids[i]][j := g.ids[i]] == g.ids;
  }

  /** Row i against rows i + 1 .. n - 1. */
  function FlagRow(f: Flags, rows: seq<Slots>, i: nat, n: nat, entitySlot: string, numeric: set<string>): (g: Flags)
    requires |f.ids| == |rows| && i < |rows| && n <= |rows|
    ensures |g.ids| == |rows|
    decreases n
  {
    if n <= i + 1 then f
    else
      var before := FlagRow(f, rows, i, n - 1, entitySlot, numeric);
      if Partners(rows, i, n - 1, entitySlot, numeric) then Mark(before, i, n - 1) else before
  }

  /** The first n rows, each against all rows after it. */
  function FlagRows(f: Flags, rows: seq<Slots>, n: nat, entitySlot: string, numeric: set<string>): (g: Flags)
    requires |f.ids| == |rows| && n <= |rows|
    ensures |g.ids| == |rows|
  {
    if n == 0 then f
    else FlagRow(FlagRows(f, rows, n - 1, entitySlot, numeric), rows, n - 1, |rows|, entitySlot, numeric)
  }

  lemma {:induction false} OneMorePartner(f: Flags, rows: seq<Slots>, i: nat, n: nat, entitySlot: string,
                                          numeric: set<string>)
    requires |f.ids| == |rows| && i < n < |rows|
    ensures var before := FlagRow(f, rows, i, n, entitySlot, numeric);
      FlagRow(f, rows, i, n + 1, entitySlot, numeric) ==
        if Partners(rows, i, n, entitySlot, numeric) then Mark(before, i, n) else before
  {
  }

  lemma {:induction false} OneMoreRow(f: Flags, rows: seq<Slots>, n: nat, entitySlot: string, numeric: set<string>)
    requires |f.ids| == |rows| && n < |rows|
    ensures FlagRows(f, rows, n + 1, entitySlot, numeric) ==
      FlagRow(FlagRows(f, rows, n, entitySlot, numeric), rows, n, |rows|, entitySlot, numeric)
  {
  }

  function Unflagged(n: nat, next: Id): (f: Flags)
    ensures |f.ids| == n && forall k :: 0 <= k < n ==> f.ids[k].None?
  {
    Flags(seq(n, _ => None), next)
  }

  function FlagAll(rows: seq<Slots>, next: Id, entitySlot: string, numeric: set<string>): (f: Flags)
    ensures |f.ids| == |rows|
  {
    FlagRows(Unflagged(|rows|, next), rows, |rows|, entitySlot, numeric)
  }

  // ----- The invariant between two comparisons -----

  /** The pair (a, b) comes before position (i, n) in the order of comparison. */
  ghost predicate Compared(a: nat, b: nat, i: nat, n: nat) {
    a < b && (a < i || (a == i && b < n))
  }

  /** k has a contradiction partner it has already been compared with. */
  ghost predicate HasPartner(rows: seq<Slots>, k: nat, i: nat, n: nat, entitySlot: string, numeric: set<string>) {
    exists m: nat :: Partners(rows, k, m, entitySlot, numeric) && (Compared(k, m, i, n) || Compared(m, k, i, n))
  }

  /** Flagged are exactly the rows that have met a partner. */
  ghost predicate Complete(f: Flags, rows: seq<Slots>, i: nat, n: nat, entitySlot: string, numeric: set<string>) {
    |f.ids| == |rows| && forall k: nat :: k < |rows| ==>
      (f.ids[k].Some? <==> HasPartner(rows, k, i, n, entitySlot, numeric))
  }

  /** Each id in use belongs to one entity: `owner` says which. */
  ghost predicate Owned(f: Flags, rows: seq<Slots>, owner: map<Id, string>, entitySlot: string) {
    && |f.ids| == |rows|
    && (forall id :: id in owner ==> id < f.next)
    && (forall k: nat :: k < |rows| && f.ids[k].Some? ==>
      f.ids[k].value in owner && Names(rows[k], entitySlot, owner[f.ids[k].value]))
  }

  predicate Names(row: Slots, entitySlot: string, entity: string) {
    entitySlot in row && row[entitySlot] == entity
  }

  lemma {:induction false} PartnersAreSymmetric(rows: seq<Slots>, a: nat, b: nat, entitySlot: string,
                                                numeric: set<string>)
    ensures Partners(rows, a, b, entitySlot, numeric) == Partners(rows, b, a, entitySlot, numeric)
  {
    if Partners(rows, a, b, entitySlot, numeric) {
      var s :| s in numeric && DifferOn(rows[a], rows[b], s);
      assert DifferOn(rows[b], rows[a], s);
    }
    if Partners(rows, b, a, entitySlot, numeric) {
      var s :| s in numeric && DifferOn(rows[b], rows[a], s);
      assert DifferOn(rows[a], rows[b], s);
    }
  }

  lemma {:induction false} OneMoreComparison(rows: seq<Slots>, k: nat, i: nat, n: nat, entitySlot: string,
                                             numeric: set<string>)
    requires i < n
    ensures HasPartner(rows, k, i, n + 1, entitySlot, numeric) <==>
      HasPartner(rows, k, i, n, entitySlot, numeric)
      || ((k == i || k == n) && Partners(rows, i, n, entitySlot, numeric))
  {
    PartnersAreSymmetric(rows, i, n, entitySlot, numeric);
    if HasPartner(rows, k, i, n + 1, entitySlot, numeric) {
      var m: nat :| Partners(rows, k, m, entitySlot, numeric) && (Compared(k, m, i, n + 1) || Compared(m, k, i, n + 1));
      assert Compared(k, m, i, n) || Compared(m, k, i, n) || (k == i && m == n) || (k == n && m == i);
    }
    if HasPartner(rows, k, i, n, entitySlot, numeric) {
      var m: nat :| Partners(rows, k, m, entitySlot, numeric) && (Compared(k, m, i, n) || Compared(m, k, i, n));
      assert Compared(k, m, i, n + 1) || Compared(m, k, i, n + 1);
    }
    if (k == i || k == n) && Partners(rows, i, n, entitySlot, numeric) {
      var m := if k == i then n else i;
      assert Partners(rows, k, m, entitySlot, numeric) && (Compared(k, m, i, n + 1) || Compared(m, k, i, n + 1));
    }
  }

  lemma {:induction false} ComparisonKeepsComplete(f: Flags, rows: seq<Slots>, i: nat, n: nat, entitySlot: string,
                                                   numeric: set<string>)
    requires Complete(f, rows, i, n, entitySlot, numeric) && i < n < |rows|
    ensures Complete(if Partners(rows, i, n, entitySlot, numeric) then Mark(f, i, n)
      else f, rows, i, n + 1, entitySlot, numeric)
  {
    forall k: nat | k < |rows|
      ensures HasPartner(rows, k, i, n + 1, entitySlot, numeric) <==>
        HasPartner(rows, k, i, n, entitySlot, numeric)
          || ((k == i || k == n) && Partners(rows, i, n, entitySlot, numeric))
    {
      OneMoreComparison(rows, k, i, n, entitySlot, numeric);
    }
  }

  lemma {:induction false} FlagRowIsComplete(f: Flags, rows: seq<Slots>, i: nat, n: nat, entitySlot: string,
                                             numeric: set<string>)
    requires |f.ids| == |rows| && i < |rows| && i + 1 <= n <= |rows| && Complete(f, rows, i, i + 1, entitySlot, numeric)
    ensures Complete(FlagRow(f, rows, i, n, entitySlot, numeric), rows, i, n, entitySlot, numeric)
    decreases n
  {
    if n > i + 1 {
      FlagRowIsComplete(f, rows, i, n - 1, entitySlot, numeric);
      ComparisonKeepsComplete(FlagRow(f, rows, i, n - 1, entitySlot, numeric), rows, i, n - 1, entitySlot, numeric);
    }
  }

  lemma {:induction false} NextRowStartsComplete(f: Flags, rows: seq<Slots>, i: nat, entitySlot: string,
                                                 numeric: set<string>)
    requires i < |rows| && Complete(f, rows, i, |rows|, entitySlot, numeric)
    ensures Complete(f, rows, i + 1, i + 2, entitySlot, numeric)
  {
    forall k: nat | k < |rows|
      ensures HasPartner(rows, k, i + 1, i + 2, entitySlot, numeric) <==>
        HasPartner(rows, k, i, |rows|, entitySlot, numeric)
    {
      if HasPartner(rows, k, i + 1, i + 2, entitySlot, numeric) {
        var m: nat :| Partners(rows, k, m, entitySlot, numeric)
          && (Compared(k, m, i + 1, i + 2) || Compared(m, k, i + 1, i + 2));
        assert Compared(k, m, i, |rows|) || Compared(m, k, i, |rows|);
      }
      if HasPartner(rows, k, i, |rows|, entitySlot, numeric) {
        var m: nat :| Partners(rows, k, m, entitySlot, numeric)
          && (Compared(k, m, i, |rows|) || Compared(m, k, i, |rows|));
        assert Compared(k, m, i + 1, i + 2) || Compared(m, k, i + 1, i + 2);
      }
    }
  }

  lemma {:induction false} FlagRowsAreComplete(rows: seq<Slots>, next: Id, n: nat, entitySlot: string,
                                               numeric: set<string>)
    requires n <= |rows|
    ensures Complete(FlagRows(Unflagged(|rows|, next), rows, n, entitySlot, numeric), rows, n, n + 1, entitySlot,
      numeric)
  {
    if n > 0 {
      FlagRowsAreComplete(rows, next, n - 1, entitySlot, numeric);
      var before := FlagRows(Unflagged(|rows|, next), rows, n - 1, entitySlot, numeric);
      FlagRowIsComplete(before, rows, n - 1, |rows|, entitySlot, numeric);
      NextRowStartsComplete(FlagRow(before, rows, n - 1, |rows|, entitySlot, numeric), rows, n - 1, entitySlot,
        numeric);
    }
  }

  ghost predicate Contradicted(rows: seq<Slots>, k: nat, entitySlot: string, numeric: set<string>) {
    exists m: nat :: m != k && Partners(rows, k, m, entitySlot, numeric)
  }

  lemma {:induction false} EveryPairIsComparedInTheEnd(rows: seq<Slots>, k: nat, entitySlot: string,
                                                       numeric: set<string>)
    requires k < |rows|
    ensures HasPartner(rows, k, |rows|, |rows| + 1, entitySlot, numeric) <==> Contradicted(rows, k, entitySlot, numeric)
  {
    if Contradicted(rows, k, entitySlot, numeric) {
      var m: nat :| m != k && Partners(rows, k, m, entitySlot, numeric);
      assert Compared(k, m, |rows|, |rows| + 1) || Compared(m, k, |rows|, |rows| + 1);
    }
  }

  lemma {:induction false} MarkKeepsOwned(f: Flags, rows: seq<Slots>, owner: map<Id, string>, i: nat, n: nat,
                                          entitySlot: string) returns (owner': map<Id, string>)
    requires Owned(f, rows, owner, entitySlot) && i < |rows| && n < |rows| && SameEntity(rows[i], rows[n], entitySlot)
    ensures Owned(Mark(f, i, n), rows, owner', entitySlot)
  {
    owner' := if f.ids[i].None? && f.ids[n].None? then owner[f.next := rows[i][entitySlot]] else owner;
  }

  lemma {:induction false} FlagRowIsOwned(f: Flags, rows: seq<Slots>, owner: map<Id, string>, i: nat, n: nat,
                                          entitySlot: string, numeric: set<string>)
    returns (owner': map<Id, string>)
    requires i < |rows| && n <= |rows| && Owned(f, rows, owner, entitySlot)
    ensures Owned(FlagRow(f, rows, i, n, entitySlot, numeric), rows, owner', entitySlot)
    decreases n
  {
    owner' := owner;
    if n > i + 1 {
      owner' := FlagRowIsOwned(f, rows, owner, i, n - 1, entitySlot, numeric);
      if Partners(rows, i, n - 1, entitySlot, numeric) {
        owner' := MarkKeepsOwned(FlagRow(f, rows, i, n - 1, entitySlot, numeric), rows, owner', i, n - 1, entitySlot);
      }
    }
  }

  lemma {:induction false} FlagRowsAreOwned(rows: seq<Slots>, next: Id, n: nat, entitySlot: string,
                                            numeric: set<string>)
    returns (owner: map<Id, string>)
    requires n <= |rows|
    ensures Owned(FlagRows(Unflagged(|rows|, next), rows, n, entitySlot, numeric), rows, owner, entitySlot)
  {
    owner := map[];
    if n > 0 {
      owner := FlagRowsAreOwned(rows, next, n - 1, entitySlot, numeric);
      owner := FlagRowIsOwned(FlagRows(Unflagged(|rows|, next), rows, n - 1, entitySlot, numeric), rows, owner, n - 1,
        |rows|, entitySlot, numeric);
    }
  }

  /** A row is flagged if and only if some other row contradicts it; rows sharing an id name one entity. */
  lemma {:induction false} FlaggedExactlyWhenContradicted(rows: seq<Slots>, next: Id, entitySlot: string,
                                                          numeric: set<string>, k: nat, l: nat)
    requires k < |rows| && l < |rows|
    ensures var ids := FlagAll(rows, next, entitySlot, numeric).ids;
      && (ids[k].Some? <==> Contradicted(rows, k, entitySlot, numeric))
      && (ids[k].Some? && ids[k] == ids[l] ==> SameEntity(rows[k], rows[l], entitySlot))
  {
    FlagRowsAreComplete(rows, next, |rows|, entitySlot, numeric);
    var owner := FlagRowsAreOwned(rows, next, |rows|, entitySlot, numeric);
    EveryPairIsComparedInTheEnd(rows, k, entitySlot, numeric);
  }

  // ----- When contradicting rows share one id -----

  /** Each entity with flagged rows has one id: `idOf` says which. */
  ghost predicate OneIdPerEntity(f: Flags, rows: seq<Slots>, idOf: map<string, Id>, entitySlot: string) {
    && |f.ids| == |rows|
    && (forall k: nat :: k < |rows| && f.ids[k].Some? ==>
          entitySlot in rows[k] && rows[k][entitySlot] in idOf && idOf[rows[k][entitySlot]] == f.ids[k].value)
    && (forall entity :: entity in idOf ==> exists k: nat :: FlaggedFor(f, rows, k, entitySlot, entity))
  }

  ghost predicate FlaggedFor(f: Flags, rows: seq<Slots>, k: nat, entitySlot: string, entity: string) {
    k < |rows| && k < |f.ids| && f.ids[k].Some? && Names(rows[k], entitySlot, entity)
  }

  /** At most one numeric slot besides the entity slot can ever differ. */
  ghost predicate OneNumericSlot(entitySlot: string, numeric: set<string>) {
    forall s, t :: s in numeric && t in numeric && s != entitySlot && t != entitySlot ==> s == t
  }

  /**
    * With one slot, two unflagged rows that contradict each other cannot have a flagged row of their entity before
    * them.
    */
  lemma {:induction false} NoSecondId(f: Flags, rows: seq<Slots>, i: nat, n: nat, l: nat, entitySlot: string,
                                      numeric: set<string>)
    requires Complete(f, rows, i, n, entitySlot, numeric) && OneNumericSlot(entitySlot, numeric)
    requires i < n < |rows| && Partners(rows, i, n, entitySlot, numeric) && f.ids[i].None? && f.ids[n].None?
    requires l < |rows| && f.ids[l].Some?
    ensures !SameEntity(rows[i], rows[l], entitySlot)
  {
    var m: nat :| Partners(rows, l, m, entitySlot, numeric) && (Compared(l, m, i, n) || Compared(m, l, i, n));
    PartnersAreSymmetric(rows, l, m, entitySlot, numeric);
    var k := if l < m then l else m;
    assert HasPartner(rows, k, i, n, entitySlot, numeric);
    assert k < i;
    var s :| s in numeric && DifferOn(rows[i], rows[n], s);
    var t :| t in numeric && DifferOn(rows[l], rows[m], t);
    if SameEntity(rows[i], rows[l], entitySlot) {
      // k was compared with both i and n; one of them carries another value than k's
      assert s == t;
      var x := if rows[k][s] != rows[i][s] then i else n;
      assert DifferOn(rows[k], rows[x], s);
      ComparedPartners(rows, k, x, i, n, entitySlot, numeric);
    }
  }

  lemma {:induction false} ComparedPartners(rows: seq<Slots>, k: nat, x: nat, i: nat, n: nat, entitySlot: string,
                                            numeric: set<string>)
    requires Partners(rows, k, x, entitySlot, numeric) && Compared(k, x, i, n)
    ensures HasPartner(rows, x, i, n, entitySlot, numeric)
  {
    PartnersAreSymmetric(rows, k, x, entitySlot, numeric);
  }

  /** Every entity listed still has a flagged row once two more rows are flagged. */
  lemma {:induction false} StillFlagged(f: Flags, rows: seq<Slots>, idOf: map<string, Id>, i: nat, n: nat,
                                        entitySlot: string)
    requires OneIdPerEntity(f, rows, idOf, entitySlot) && i < n < |rows|
    ensures forall e :: e in idOf ==> exists k: nat :: FlaggedFor(Mark(f, i, n), rows, k, entitySlot, e)
  {
    forall e | e in idOf ensures exists k: nat :: FlaggedFor(Mark(f, i, n), rows, k, entitySlot, e) {
      var k: nat :| FlaggedFor(f, rows, k, entitySlot, e);
      assert FlaggedFor(Mark(f, i, n), rows, k, entitySlot, e);
    }
  }

  /** A pair that takes over the id of one of its rows leaves one id per entity. */
  lemma {:induction false} MarkWithOldId(f: Flags, rows: seq<Slots>, idOf: map<string, Id>, i: nat, n: nat,
                                         entitySlot: string)
    requires OneIdPerEntity(f, rows, idOf, entitySlot) && i < n < |rows| && SameEntity(rows[i], rows[n], entitySlot)
    requires f.ids[i].Some? || f.ids[n].Some?
    ensures OneIdPerEntity(Mark(f, i, n), rows, idOf, entitySlot)
  {
    StillFlagged(f, rows, idOf, i, n, entitySlot);
  }

  /** So does a pair with a new id when no row of its entity was flagged before. */
  lemma {:induction false} MarkWithNewId(f: Flags, rows: seq<Slots>, idOf: map<string, Id>, i: nat, n: nat,
                                         entitySlot: string)
    requires OneIdPerEntity(f, rows, idOf, entitySlot) && i < n < |rows| && SameEntity(rows[i], rows[n], entitySlot)
    requires f.ids[i].None? && f.ids[n].None?
    requires forall l: nat :: l < |rows| && f.ids[l].Some? ==> !SameEntity(rows[i], rows[l], entitySlot)
    ensures OneIdPerEntity(Mark(f, i, n), rows, idOf[rows[i][entitySlot] := f.next], entitySlot)
  {
    StillFlagged(f, rows, idOf, i, n, entitySlot);
    assert FlaggedFor(Mark(f, i, n), rows, i, entitySlot, rows[i][entitySlot]);
  }

  lemma {:induction false} MarkKeepsOneId(f: Flags, rows: seq<Slots>, idOf: map<string, Id>, i: nat, n: nat,
                                          entitySlot: string, numeric: set<string>)
    returns (idOf': map<string, Id>)
    requires Complete(f, rows, i, n, entitySlot, numeric) && OneNumericSlot(entitySlot, numeric) && i < n < |rows|
    requires Partners(rows, i, n, entitySlot, numeric) && OneIdPerEntity(f, rows, idOf, entitySlot)
    ensures OneIdPerEntity(Mark(f, i, n), rows, idOf', entitySlot)
  {
    if f.ids[i].None? && f.ids[n].None? {
      forall l: nat | l < |rows| && f.ids[l].Some? ensures !SameEntity(rows[i], rows[l], entitySlot) {
        NoSecondId(f, rows, i, n, l, entitySlot, numeric);
      }
      idOf' := idOf[rows[i][entitySlot] := f.next];
      MarkWithNewId(f, rows, idOf, i, n, entitySlot);
    } else {
      idOf' := idOf;
      MarkWithOldId(f, rows, idOf, i, n, entitySlot);
    }
  }

  lemma {:induction false} FlagRowKeepsOneId(f: Flags, rows: seq<Slots>, idOf: map<string, Id>, i: nat, n: nat,
                                             entitySlot: string, numeric: set<string>)
    returns (idOf': map<string, Id>)
    requires |f.ids| == |rows| && i < |rows| && i + 1 <= n <= |rows| && Complete(f, rows, i, i + 1, entitySlot, numeric)
    requires OneNumericSlot(entitySlot, numeric) && OneIdPerEntity(f, rows, idOf, entitySlot)
    ensures OneIdPerEntity(FlagRow(f, rows, i, n, entitySlot, numeric), rows, idOf', entitySlot)
    decreases n
  {
    idOf' := idOf;
    if n > i + 1 {
      var m := n - 1;
      idOf' := FlagRowKeepsOneId(f, rows, idOf, i, m, entitySlot, numeric);
      OneMorePartner(f, rows, i, m, entitySlot, numeric);
      if Partners(rows, i, m, entitySlot, numeric) {
        FlagRowIsComplete(f, rows, i, m, entitySlot, numeric);
        idOf' := MarkKeepsOneId(FlagRow(f, rows, i, m, entitySlot, numeric), rows, idOf', i, m, entitySlot, numeric);
      }
    }
  }

  lemma {:induction false} FlagRowsKeepOneId(rows: seq<Slots>, next: Id, n: nat, entitySlot: string,
                                             numeric: set<string>)
    returns (idOf: map<string, Id>)
    requires n <= |rows| && OneNumericSlot(entitySlot, numeric)
    ensures OneIdPerEntity(FlagRows(Unflagged(|rows|, next), rows, n, entitySlot, numeric), rows, idOf, entitySlot)
  {
    var start := Unflagged(|rows|, next);
    if n == 0 {
      idOf := map[];
    } else {
      var i := n - 1;
      var before := FlagRows(start, rows, i, entitySlot, numeric);
      OneMoreRow(start, rows, i, entitySlot, numeric);
      var earlier := FlagRowsKeepOneId(rows, next, i, entitySlot, numeric);
      FlagRowsAreComplete(rows, next, i, entitySlot, numeric);
      idOf := FlagRowKeepsOneId(before, rows, earlier, i, |rows|, entitySlot, numeric);
    }
  }

  /** Every two contradicting rows share their id, whatever the evidence. */
  ghost predicate ContradictingRowsShareIds(entitySlot: string, numeric: set<string>) {
    forall rows: seq<Slots>, next: Id, k: nat, l: nat :: Partners(rows, k, l, entitySlot, numeric) ==>
      FlagAll(rows, next, entitySlot, numeric).ids[k] == FlagAll(rows, next, entitySlot, numeric).ids[l]
  }

  /** Four rows of one entity that differ on two slots: the first from the last, and the others among themselves. */
  function PartingRows(entitySlot: string, s: string, t: string): seq<Slots> {
    [map[entitySlot := "E", s := "1"], map[entitySlot := "E", t := "1"], map[entitySlot := "E", t := "2"],
     map[entitySlot := "E", s := "2", t := "3"]]
  }

  /** Of four rows, all but the first two pairs are partners. */
  ghost predicate Parting(rows: seq<Slots>, entitySlot: string, numeric: set<string>) {
    && |rows| == 4
    && !Partners(rows, 0, 1, entitySlot, numeric) && !Partners(rows, 0, 2, entitySlot, numeric)
    && Partners(rows, 0, 3, entitySlot, numeric) && Partners(rows, 1, 2, entitySlot, numeric)
    && Partners(rows, 1, 3, entitySlot, numeric) && Partners(rows, 2, 3, entitySlot, numeric)
  }

  lemma {:induction false} TheyArePartners(entitySlot: string, numeric: set<string>, s: string, t: string)
    requires s in numeric && t in numeric && s != t && s != entitySlot && t != entitySlot
    ensures Parting(PartingRows(entitySlot, s, t), entitySlot, numeric)
  {
    var rows := PartingRows(entitySlot, s, t);
    assert "1"[0] != "2"[0] && "1"[0] != "3"[0] && "2"[0] != "3"[0];
    assert DifferOn(rows[0], rows[3], s) && DifferOn(rows[1], rows[2], t);
    assert DifferOn(rows[1], rows[3], t) && DifferOn(rows[2], rows[3], t);
  }

  /** The last row takes over the id of the second pair and parts from the first row. */
  lemma {:induction false} FlagsOfFour(rows: seq<Slots>, entitySlot: string, numeric: set<string>)
    requires Parting(rows, entitySlot, numeric)
    ensures FlagAll(rows, 0, entitySlot, numeric).ids == [Some(0), Some(1), Some(1), Some(1)]
  {
    var f0 := Unflagged(4, 0);
    OneMorePartner(f0, rows, 0, 1, entitySlot, numeric);
    OneMorePartner(f0, rows, 0, 2, entitySlot, numeric);
    OneMorePartner(f0, rows, 0, 3, entitySlot, numeric);
    var f1 := Flags([Some(0), None, None, Some(0)], 1);
    assert FlagRow(f0, rows, 0, 4, entitySlot, numeric) == f1;
    OneMorePartner(f1, rows, 1, 2, entitySlot, numeric);
    OneMorePartner(f1, rows, 1, 3, entitySlot, numeric);
    var f2 := Flags([Some(0), Some(1), Some(1), Some(1)], 2);
    assert FlagRow(f1, rows, 1, 4, entitySlot, numeric) == f2;
    OneMorePartner(f2, rows, 2, 3, entitySlot, numeric);
    assert FlagRow(f2, rows, 2, 4, entitySlot, numeric) == f2;
    RowByRow(rows, f0, f1, f2, entitySlot, numeric);
  }

  lemma {:induction false} RowByRow(rows: seq<Slots>, f0: Flags, f1: Flags, f2: Flags, entitySlot: string,
                                    numeric: set<string>)
    requires |rows| == 4 && |f0.ids| == |f1.ids| == |f2.ids| == 4
    requires FlagRow(f0, rows, 0, 4, entitySlot, numeric) == f1 && FlagRow(f1, rows, 1, 4, entitySlot, numeric) == f2
    requires FlagRow(f2, rows, 2, 4, entitySlot, numeric) == f2
    ensures FlagRows(f0, rows, 4, entitySlot, numeric) == f2
  {
    OneMoreRow(f0, rows, 0, entitySlot, numeric);
    OneMoreRow(f0, rows, 1, entitySlot, numeric);
    OneMoreRow(f0, rows, 2, entitySlot, numeric);
    OneMoreRow(f0, rows, 3, entitySlot, numeric);
  }

  /** With a second numeric slot, four rows can part a pair. */
  lemma {:induction false} TwoSlotsCanPartAPair(entitySlot: string, numeric: set<string>, s: string, t: string)
    requires s in numeric && t in numeric && s != t && s != entitySlot && t != entitySlot
    ensures !ContradictingRowsShareIds(entitySlot, numeric)
  {
    var rows := PartingRows(entitySlot, s, t);
    TheyArePartners(entitySlot, numeric, s, t);
    FlagsOfFour(rows, entitySlot, numeric);
    assert Partners(rows, 0, 3, entitySlot, numeric);
  }

  /**
    * Contradicting rows always share one id exactly when the schema has at most one numeric slot besides the entity's.
    */
  lemma {:induction false} SharedIdsExactlyWithOneSlot(entitySlot: string, numeric: set<string>)
    ensures ContradictingRowsShareIds(entitySlot, numeric) <==> OneNumericSlot(entitySlot, numeric)
  {
    if OneNumericSlot(entitySlot, numeric) {
      forall rows: seq<Slots>, next: Id, k: nat, l: nat | Partners(rows, k, l, entitySlot, numeric)
        ensures FlagAll(rows, next, entitySlot, numeric).ids[k] == FlagAll(rows, next, entitySlot, numeric).ids[l]
      {
        PartnersAreSymmetric(rows, k, l, entitySlot, numeric);
        assert k != l;
        FlaggedExactlyWhenContradicted(rows, next, entitySlot, numeric, k, l);
        FlaggedExactlyWhenContradicted(rows, next, entitySlot, numeric, l, k);
        var idOf := FlagRowsKeepOneId(rows, next, |rows|, entitySlot, numeric);
      }
    } else {
      var s, t :| s in numeric && t in numeric && s != entitySlot && t != entitySlot && s != t;
      TwoSlotsCanPartAPair(entitySlot, numeric, s, t);
    }
  }

  // ----- The in-place implementation -----

  ghost predicate Carries(active: seq<Evidence>, f: Flags)
    reads active
  {
    |f.ids| == |active| && forall i :: 0 <= i < |active| ==> active[i].pairId == f.ids[i]
  }

  /** Gives rows a and b one id: that of a, else of b, else the next new one. */
  method SetPair(a: Evidence, b: Evidence, next: Id, ghost active: seq<Evidence>, ghost i: nat, ghost j: nat,
                 ghost f: Flags)
    returns (next': Id)
    requires DistinctObjects(active) && i < j < |active| && a == active[i] && b == active[j]
    requires Carries(active, f) && f.next == next
    modifies a`pairId, b`pairId
    ensures Carries(active, Mark(f, i, j)) && next' == Mark(f, i, j).next
  {
    ObjectsDiffer(active);
    next' := next;
    var id := if a.pairId.Some? then a.pairId.value else if b.pairId.Some? then b.pairId.value else next;
    if a.pairId.None? && b.pairId.None? {
      next' := next + 1;
    }
    a.pairId := Some(id);
    b.pairId := Some(id);
  }

  /** Row i of the active rows against every row after it. */
  method FlagAgainstLater(active: seq<Evidence>, extracted: seq<Slots>, i: nat, next: Id, entitySlot: string,
                          numeric: set<string>, ghost f: Flags)
    returns (next': Id)
    requires DistinctObjects(active) && |extracted| == |active| && i < |active| && Carries(active, f) && f.next == next
    modifies active`pairId
    ensures Carries(active, FlagRow(f, extracted, i, |active|, entitySlot, numeric))
    ensures next' == FlagRow(f, extracted, i, |active|, entitySlot, numeric).next
  {
    next' := next;
    for j := i + 1 to |active|
      invariant Carries(active, FlagRow(f, extracted, i, j, entitySlot, numeric))
      invariant next' == FlagRow(f, extracted, i, j, entitySlot, numeric).next
    {
      ghost var before := FlagRow(f, extracted, i, j, entitySlot, numeric);
      OneMorePartner(f, extracted, i, j, entitySlot, numeric);
      if Partners(extracted, i, j, entitySlot, numeric) {
        next' := SetPair(active[i], active[j], next', active, i, j, before);
      }
    }
  }

  method FlagActive(active: seq<Evidence>, extracted: seq<Slots>, next: Id, entitySlot: string, numeric: set<string>)
    requires DistinctObjects(active) && |extracted| == |active| && forall i :: 0 <= i < |active| ==>
      active[i].pairId.None?
    modifies active`pairId
    ensures Carries(active, FlagAll(extracted, next, entitySlot, numeric))
  {
    ghost var n, f0 := |active|, Unflagged(|active|, next);
    ghost var f := f0;
    var next' := next;
    for i := 0 to |active|
      invariant f == FlagRows(f0, extracted, i, entitySlot, numeric)
      invariant Carries(active, f) && next' == f.next
    {
      OneMoreRow(f0, extracted, i, entitySlot, numeric);
      next' := FlagAgainstLater(active, extracted, i, next', entitySlot, numeric, f);
      f := FlagRow(f, extracted, i, n, entitySlot, numeric);
    }
  }

  /** The rows not marked as duplicates, in order. */
  function Active(evidence: seq<Evidence>): (active: seq<Evidence>)
    reads evidence
    ensures forall x :: x in active ==> x in evidence && x.duplicateOf.None?
    ensures forall x :: x in evidence && x.duplicateOf.None? ==> x in active
    ensures DistinctObjects(evidence) ==> DistinctObjects(active)
  {
    if evidence == [] then []
    else if evidence[0].duplicateOf.None? then [evidence[0]] + Active(evidence[1..])
    else Active(evidence[1..])
  }

  /** What extraction finds in the text of each row's chunk. */
  function Extracted(active: seq<Evidence>, chunks: map<Id, RetrievedChunk>,
                     extract: string -> Slots): (rows: seq<Slots>)
    requires forall x :: x in active ==> x.chunkId in chunks
    ensures |rows| == |active| && forall i :: 0 <= i < |active| ==> rows[i] == extract(chunks[active[i].chunkId].text)
  {
    if active == [] then [] else [extract(chunks[active[0].chunkId].text)] + Extracted(active[1..], chunks, extract)
  }

  // ----- The same on row values -----

  /** What flagging is told: the schema's slots, the extraction, and the next pair id. */
  datatype Flagging = Flagging(entitySlot: Option<string>, numeric: set<string>, extract: string -> Slots, nextPair: Id)

  ghost function ActiveRows(rows: seq<Row>): (active: seq<Row>)
    ensures forall r :: r in active ==> r in rows && r.duplicateOf.None?
    ensures forall r :: r in rows && r.duplicateOf.None? ==> r in active
  {
    if rows == [] then []
    else if rows[0].duplicateOf.None? then [rows[0]] + ActiveRows(rows[1..])
    else ActiveRows(rows[1..])
  }

  /** What extraction finds in the text of each row's chunk. */
  ghost function ExtractedRows(active: seq<Row>, chunks: map<Id, RetrievedChunk>,
                               extract: string -> Slots): (slots: seq<Slots>)
    ensures |slots| == |active|
    ensures forall i :: 0 <= i < |active| && active[i].chunkId in chunks ==>
      slots[i] == extract(chunks[active[i].chunkId].text)
  {
    seq(|active|, i requires 0 <= i < |active| =>
      if active[i].chunkId in chunks then extract(chunks[active[i].chunkId].text) else map[])
  }

  /** The rows carry exactly the pair ids of the specification. */
  ghost predicate AreFlagged(rows: seq<Row>, chunks: map<Id, RetrievedChunk>, f: Flagging) {
    && (forall i :: 0 <= i < |rows| && rows[i].duplicateOf.Some? ==> rows[i].pairId.None?)
    && (f.entitySlot.None? ==> forall i :: 0 <= i < |rows| ==> rows[i].pairId.None?)
    && (f.entitySlot.Some? ==> HaveIds(ActiveRows(rows), IdsFor(rows, chunks, f)))
  }

  ghost predicate OnlyPairIdsChange(before: seq<Row>, after: seq<Row>) {
    && |after| == |before|
    && forall i :: 0 <= i < |after| ==> after[i] == before[i].(pairId := after[i].pairId)
  }

  ghost predicate HaveIds(active: seq<Row>, ids: seq<Option<Id>>) {
    |ids| == |active| && forall k :: 0 <= k < |active| ==> active[k].pairId == ids[k]
  }

  ghost function IdsFor(rows: seq<Row>, chunks: map<Id, RetrievedChunk>, f: Flagging): seq<Option<Id>>
    requires f.entitySlot.Some?
  {
    FlagAll(ExtractedRows(ActiveRows(rows), chunks, f.extract), f.nextPair, f.entitySlot.value, f.numeric).ids
  }

  /** An active row is flagged exactly when another one contradicts it, and rows with one id name one entity. */
  lemma {:induction false} RowsAreFlaggedExactly(rows: seq<Row>, chunks: map<Id, RetrievedChunk>, f: Flagging, k: nat,
                                                 l: nat)
    requires AreFlagged(rows, chunks, f) && f.entitySlot.Some? && k < |ActiveRows(rows)| && l < |ActiveRows(rows)|
    ensures var active := ActiveRows(rows);
      var slots := ExtractedRows(active, chunks, f.extract);
      && (active[k].pairId.Some? <==> Contradicted(slots, k, f.entitySlot.value, f.numeric))
      && (active[k].pairId.Some? && active[k].pairId == active[l].pairId ==>
        SameEntity(slots[k], slots[l], f.entitySlot.value))
  {
    var slots := ExtractedRows(ActiveRows(rows), chunks, f.extract);
    FlaggedExactlyWhenContradicted(slots, f.nextPair, f.entitySlot.value, f.numeric, k, l);
  }

  /** The texts give one value for the entity, and two different ones for some numeric slot. */
  ghost predicate TextsContradict(a: Slots, b: Slots, entitySlot: string, numeric: set<string>) {
    && entitySlot in a && entitySlot in b && a[entitySlot] == b[entitySlot]
    && exists s :: s in numeric && s in a && s in b && a[s] != b[s]
  }

  ghost predicate RowsContradict(r: Row, t: Row, chunks: map<Id, RetrievedChunk>, f: Flagging) {
    && f.entitySlot.Some? && r.chunkId in chunks && t.chunkId in chunks
    && TextsContradict(f.extract(chunks[r.chunkId].text), f.extract(chunks[t.chunkId].text), f.entitySlot.value,
                       f.numeric)
  }

  /** A row that is no duplicate is flagged exactly when the text of another such row contradicts its own. */
  lemma {:induction false} FlaggedExactlyWhenTextsContradict(rows: seq<Row>, chunks: map<Id, RetrievedChunk>,
                                                             f: Flagging, r: Row)
    requires AreFlagged(rows, chunks, f) && r in rows && r.duplicateOf.None?
    requires forall t :: t in rows ==> t.chunkId in chunks
    ensures r.pairId.Some? <==> exists t :: t in rows && t.duplicateOf.None? && RowsContradict(r, t, chunks, f)
  {
    var active := ActiveRows(rows);
    if f.entitySlot.Some? {
      var slots := ExtractedRows(active, chunks, f.extract);
      var k :| 0 <= k < |active| && active[k] == r;
      RowsAreFlaggedExactly(rows, chunks, f, k, k);
      if r.pairId.Some? {
        var m: nat :| m != k && Partners(slots, k, m, f.entitySlot.value, f.numeric);
        PartnersContradict(active, chunks, f, k, m);
      }
      if t :| t in rows && t.duplicateOf.None? && RowsContradict(r, t, chunks, f) {
        var m :| 0 <= m < |active| && active[m] == t;
        PartnersContradict(active, chunks, f, k, m);
      }
    } else {
      var i :| 0 <= i < |rows| && rows[i] == r;
    }
  }

  lemma {:induction false} PartnersContradict(active: seq<Row>, chunks: map<Id, RetrievedChunk>, f: Flagging, k: nat,
                                              m: nat)
    requires f.entitySlot.Some? && k < |active| && forall t :: t in active ==> t.chunkId in chunks
    ensures Partners(ExtractedRows(active, chunks, f.extract), k, m, f.entitySlot.value, f.numeric) <==>
      m < |active| && m != k && RowsContradict(active[k], active[m], chunks, f)
    ensures m < |active| ==> active[m] in active && active[k] in active
  {
    var slots := ExtractedRows(active, chunks, f.extract);
    if m < |active| {
      assert active[m] in active && active[k] in active;
      var a, b := slots[k], slots[m];
      if Contradict(a, b, f.entitySlot.value, f.numeric) {
        var s :| s in f.numeric && DifferOn(a, b, s);
        assert s in f.numeric && s in a && s in b && a[s] != b[s];
      }
      if TextsContradict(a, b, f.entitySlot.value, f.numeric) {
        var s :| s in f.numeric && s in a && s in b && a[s] != b[s];
        assert DifferOn(a, b, s);
      }
    }
  }

  lemma {:induction false} ActiveAsRows(evidence: seq<Evidence>)
    ensures ActiveRows(Rows(evidence)) == Rows(Active(evidence))
  {
    if evidence != [] {
      ActiveAsRows(evidence[1..]);
      assert Rows(evidence)[1..] == Rows(evidence[1..]);
    }
  }

  /** The pair ids of the active objects become those of the specification. */
  method FlagObjects(evidence: seq<Evidence>, chunks: map<Id, RetrievedChunk>, entitySlot: Option<string>,
                     numeric: set<string>, extract: string -> Slots, next: Id)
    requires DistinctObjects(evidence) && forall x :: x in evidence ==> x.chunkId in chunks && x.pairId.None?
    modifies evidence`pairId
    ensures forall x :: x in evidence && (x.duplicateOf.Some? || entitySlot.None?) ==> x.pairId.None?
    ensures entitySlot.Some? ==>
      Carries(Active(evidence), FlagAll(Extracted(Active(evidence), chunks, extract), next, entitySlot.value, numeric))
  {
    if entitySlot.Some? {
      var active := Active(evidence);
      var extracted := Extracted(active, chunks, extract);
      assert forall i :: 0 <= i < |active| ==> active[i] in active;
      FlagActive(active, extracted, next, entitySlot.value, numeric);
      SameActive(evidence);
    }
  }

  /**
    * Only pair ids change, only on active rows, and they become those of the specification. A schema without an
    * entity slot flags nothing.
    */
  method FlagContradictions(evidence: seq<Evidence>, chunks: map<Id, RetrievedChunk>, entitySlot: Option<string>,
                            numeric: set<string>, extract: string -> Slots, next: Id)
    requires DistinctObjects(evidence) && forall x :: x in evidence ==> x.chunkId in chunks && x.pairId.None?
    modifies evidence`pairId
    ensures forall x :: x in evidence && (x.duplicateOf.Some? || entitySlot.None?) ==> x.pairId.None?
    ensures AreFlagged(Rows(evidence), chunks, Flagging(entitySlot, numeric, extract, next))
    ensures OnlyPairIdsChange(old(Rows(evidence)), Rows(evidence))
  {
    FlagObjects(evidence, chunks, entitySlot, numeric, extract, next);
    CarriedAreFlagged(evidence, chunks, Flagging(entitySlot, numeric, extract, next));
  }

  lemma {:induction false} CarriedAreFlagged(evidence: seq<Evidence>, chunks: map<Id, RetrievedChunk>, f: Flagging)
    requires forall x :: x in evidence ==> x.chunkId in chunks
    requires forall x :: x in evidence && (x.duplicateOf.Some? || f.entitySlot.None?) ==> x.pairId.None?
    requires f.entitySlot.Some? ==>
      Carries(Active(evidence),
        FlagAll(Extracted(Active(evidence), chunks, f.extract), f.nextPair, f.entitySlot.value, f.numeric))
    ensures AreFlagged(Rows(evidence), chunks, f)
  {
    var active := Active(evidence);
    ActiveAsRows(evidence);
    assert forall i :: 0 <= i < |evidence| ==> evidence[i] in evidence;
    assert forall i :: 0 <= i < |active| ==> active[i] in active;
    if f.entitySlot.Some? {
      assert ExtractedRows(Rows(active), chunks, f.extract) == Extracted(active, chunks, f.extract);
    }
  }

  twostate lemma {:induction false} SameActive(evidence: seq<Evidence>)
    requires forall x :: x in evidence ==> x.duplicateOf == old(x.duplicateOf)
    ensures Active(evidence) == old(Active(evidence))
  {
    if evidence != [] {
      SameActive(evidence[1..]);
    }
  }
}
