/** How a section's paragraphs are grouped into pieces (_section_pieces). */
module GreedyPacking {
  import opened Collections
  import opened Text
  import opened Tokens
  import opened Chunker
  import opened Packing

  /** Paragraphs packed together, within the budget. */
  ghost predicate Short(group: seq<string>, budget: nat, al: Alphabet) {
    group != [] && |ToksOfAll(group, al)| <= budget
  }

  /** A paragraph by itself that is beyond the budget. */
  ghost predicate Long(group: seq<string>, budget: nat, al: Alphabet) {
    |group| == 1 && |Toks(group[0], al)| > budget
  }

  /** The first paragraph of the second group would not have fitted into the first one. */
  ghost predicate NoRoomFor(first: seq<string>, second: seq<string>, budget: nat, al: Alphabet) {
    Short(first, budget, al) && Short(second, budget, al) ==>
      |ToksOfAll(first, al)| + |Toks(second[0], al)| > budget
  }

  ghost predicate WellGrouped(groups: seq<seq<string>>, budget: nat, al: Alphabet) {
    && (forall i :: 0 <= i < |groups| ==> Short(groups[i], budget, al) || Long(groups[i], budget, al))
    && (forall i :: 0 < i < |groups| ==> NoRoomFor(groups[i - 1], groups[i], budget, al))
  }

  ghost function Flat(groups: seq<seq<string>>): seq<string> {
    if groups == [] then [] else groups[0] + Flat(groups[1..])
  }

  ghost function NonBlank(paragraphs: seq<string>): seq<string> {
    if paragraphs == [] then []
    else (if paragraphs[0] == "" then [] else [paragraphs[0]]) + NonBlank(paragraphs[1..])
  }

  /** A long paragraph is cut into windows, and any other group is joined by blank lines. */
  ghost function PiecesOfGroup(group: seq<string>, budget: nat, overlap: nat, al: Alphabet): seq<Piece>
    requires al.Valid() && overlap < budget
  {
    if Long(group, budget, al) then WindowsOf(group[0], al, budget, overlap) else [Piece(Join(group, "\n\n"), 0)]
  }

  ghost function PiecesOfGroups(groups: seq<seq<string>>, budget: nat, overlap: nat, al: Alphabet): seq<Piece>
    requires al.Valid() && overlap < budget
  {
    if groups == [] then []
    else PiecesOfGroup(groups[0], budget, overlap, al) + PiecesOfGroups(groups[1..], budget, overlap, al)
  }

  lemma {:induction false} PiecesOfMore(group: seq<string>, groups: seq<seq<string>>, budget: nat, overlap: nat,
                                        al: Alphabet)
    requires al.Valid() && overlap < budget
    ensures PiecesOfGroups([group] + groups, budget, overlap, al)
         == PiecesOfGroup(group, budget, overlap, al) + PiecesOfGroups(groups, budget, overlap, al)
    ensures Flat([group] + groups) == group + Flat(groups)
  {
    assert ([group] + groups)[1..] == groups;
  }

  lemma {:induction false} GroupedMore(group: seq<string>, groups: seq<seq<string>>, budget: nat, al: Alphabet)
    requires WellGrouped(groups, budget, al) && (Short(group, budget, al) || Long(group, budget, al))
    requires groups != [] ==> NoRoomFor(group, groups[0], budget, al)
    ensures WellGrouped([group] + groups, budget, al)
  {
    var all := [group] + groups;
    forall i | 0 < i < |all| ensures NoRoomFor(all[i - 1], all[i], budget, al) {
      if i > 1 { assert NoRoomFor(groups[i - 2], groups[i - 1], budget, al); }
    }
  }

  /** What the pieces still to come are made from, with some paragraphs already gathered. */
  ghost predicate MadeFrom(pieces: seq<Piece>, groups: seq<seq<string>>, current: seq<string>, paragraphs: seq<string>,
                           budget: nat, overlap: nat, al: Alphabet)
    requires al.Valid() && overlap < budget
  {
    && WellGrouped(groups, budget, al) && Flat(groups) == current + NonBlank(paragraphs)
    && pieces == PiecesOfGroups(groups, budget, overlap, al)
    && (current != [] ==> groups != [] && current <= groups[0] && Short(groups[0], budget, al))
  }

  lemma {:induction false} LastGroup(current: seq<string>, budget: nat, overlap: nat, al: Alphabet)
    returns (groups: seq<seq<string>>)
    requires al.Valid() && overlap < budget && |ToksOfAll(current, al)| <= budget
    ensures MadeFrom(Packed(current), groups, current, [], budget, overlap, al)
  {
    groups := if current == [] then [] else [current];
    if current != [] {
      ShortIsNotLong(current, budget, al);
      PiecesOfMore(current, [], budget, overlap, al);
      assert [current] + [] == [current] && current + [] == current;
    }
  }

  lemma {:induction false} ShortIsNotLong(group: seq<string>, budget: nat, al: Alphabet)
    requires Short(group, budget, al)
    ensures !Long(group, budget, al)
  {
    if |group| == 1 {
      ToksOfOne(group[0], al);
      assert group == [group[0]];
    }
  }

  /** The group under way is closed before other groups. */
  lemma {:induction false} ClosedBefore(current: seq<string>, pieces: seq<Piece>, groups: seq<seq<string>>,
                                        paragraphs: seq<string>, next: seq<string>, budget: nat, overlap: nat,
                                        al: Alphabet)
    returns (all: seq<seq<string>>)
    requires al.Valid() && overlap < budget && |ToksOfAll(current, al)| <= budget
    requires WellGrouped(groups, budget, al) && Flat(groups) == next + NonBlank(paragraphs)
    requires pieces == PiecesOfGroups(groups, budget, overlap, al)
    requires current != [] && groups != [] ==> NoRoomFor(current, groups[0], budget, al)
    requires NonBlank(next + paragraphs) == next + NonBlank(paragraphs)
    ensures MadeFrom(Packed(current) + pieces, all, current, next + paragraphs, budget, overlap, al)
  {
    if current == [] {
      all := groups;
      assert Packed(current) + pieces == pieces;
    } else {
      all := [current] + groups;
      ShortIsNotLong(current, budget, al);
      PiecesOfMore(current, groups, budget, overlap, al);
      GroupedMore(current, groups, budget, al);
    }
  }

  lemma {:induction false} NonBlankOfMore(p: string, rest: seq<string>)
    ensures NonBlank([p] + rest) == (if p == "" then [] else [p]) + NonBlank(rest)
  {
    assert ([p] + rest)[1..] == rest;
  }

  lemma {:induction false} PackGroups(paragraphs: seq<string>, current: seq<string>, tokens: nat, budget: nat,
                                      overlap: nat, al: Alphabet)
    returns (groups: seq<seq<string>>)
    requires al.Valid() && overlap < budget && |ToksOfAll(current, al)| == tokens <= budget
    ensures MadeFrom(Pack(paragraphs, current, tokens, budget, overlap, al), groups, current, paragraphs, budget,
                     overlap, al)
    decreases |paragraphs|, 0
  {
    if paragraphs == [] {
      groups := LastGroup(current, budget, overlap, al);
    } else {
      var p, rest := paragraphs[0], paragraphs[1..];
      assert [p] + rest == paragraphs;
      var n := |Toks(p, al)|;
      var sum := tokens + n;
      PackNext(p, rest, current, tokens, n, sum, budget, overlap, al);
      groups := NextGroups(Pack(paragraphs, current, tokens, budget, overlap, al), p, rest, current, tokens, n, sum,
                           budget, overlap, al);
    }
  }

  /** The pieces to come when p is the next paragraph, of n tokens that make a sum with those gathered. */
  ghost predicate PacksNext(pieces: seq<Piece>, p: string, rest: seq<string>, current: seq<string>, tokens: nat,
                            n: nat, sum: nat, budget: nat, overlap: nat, al: Alphabet)
    requires al.Valid() && overlap < budget && n == |Toks(p, al)| && sum == tokens + n
  {
    if p == "" then pieces == Pack(rest, current, tokens, budget, overlap, al)
    else if n > budget then
      pieces == Packed(current) + (WindowsOf(p, al, budget, overlap) + Pack(rest, [], 0, budget, overlap, al))
    else if sum > budget then pieces == Packed(current) + Pack(rest, [p], n, budget, overlap, al)
    else pieces == Pack(rest, current + [p], sum, budget, overlap, al)
  }

  lemma {:induction false} PackNext(p: string, rest: seq<string>, current: seq<string>, tokens: nat, n: nat, sum: nat,
                                    budget: nat, overlap: nat, al: Alphabet)
    requires al.Valid() && overlap < budget && n == |Toks(p, al)| && sum == tokens + n
    ensures PacksNext(Pack([p] + rest, current, tokens, budget, overlap, al), p, rest, current, tokens, n, sum, budget,
                      overlap, al)
  {
    assert ([p] + rest)[1..] == rest;
  }

  lemma {:induction false} BlankIsSkipped(pieces: seq<Piece>, groups: seq<seq<string>>, current: seq<string>,
                                          rest: seq<string>, budget: nat, overlap: nat, al: Alphabet)
    requires al.Valid() && overlap < budget && MadeFrom(pieces, groups, current, rest, budget, overlap, al)
    ensures MadeFrom(pieces, groups, current, [""] + rest, budget, overlap, al)
  {
    NonBlankOfMore("", rest);
    assert [] + NonBlank(rest) == NonBlank(rest);
  }

  lemma {:induction false} NextGroups(pieces: seq<Piece>, p: string, rest: seq<string>, current: seq<string>,
                                      tokens: nat, n: nat, sum: nat, budget: nat, overlap: nat, al: Alphabet)
    returns (groups: seq<seq<string>>)
    requires al.Valid() && overlap < budget && |ToksOfAll(current, al)| == tokens <= budget
    requires n == |Toks(p, al)| && sum == tokens + n
    requires PacksNext(pieces, p, rest, current, tokens, n, sum, budget, overlap, al)
    ensures MadeFrom(pieces, groups, current, [p] + rest, budget, overlap, al)
    decreases |rest|, 2
  {
    if p == "" {
      groups := PackGroups(rest, current, tokens, budget, overlap, al);
      BlankIsSkipped(pieces, groups, current, rest, budget, overlap, al);
    } else {
      NonBlankOfMore(p, rest);
      if n > budget {
        groups := LongGroup(p, rest, current, budget, overlap, al);
      } else if sum > budget {
        groups := FreshGroups(p, rest, current, n, budget, overlap, al);
      } else {
        groups := SameGroups(p, rest, current, sum, budget, overlap, al);
      }
    }
  }

  lemma {:induction false} LongGroup(p: string, rest: seq<string>, current: seq<string>, budget: nat, overlap: nat,
                                     al: Alphabet)
    returns (groups: seq<seq<string>>)
    requires al.Valid() && overlap < budget && |ToksOfAll(current, al)| <= budget && |Toks(p, al)| > budget
    requires NonBlank([p] + rest) == [p] + NonBlank(rest)
    ensures MadeFrom(Packed(current) + (WindowsOf(p, al, budget, overlap) + Pack(rest, [], 0, budget, overlap, al)),
                     groups, current, [p] + rest, budget, overlap, al)
    decreases |rest|, 1
  {
    var later := PackGroups(rest, [], 0, budget, overlap, al);
    ToksOfOne(p, al);
    assert Long([p], budget, al) && !Short([p], budget, al);
    PiecesOfMore([p], later, budget, overlap, al);
    GroupedMore([p], later, budget, al);
    assert [] + NonBlank(rest) == NonBlank(rest);
    groups := ClosedBefore(current, PiecesOfGroups([[p]] + later, budget, overlap, al), [[p]] + later, rest, [p],
                           budget, overlap, al);
  }

  lemma {:induction false} FreshGroups(p: string, rest: seq<string>, current: seq<string>, n: nat, budget: nat,
                                       overlap: nat, al: Alphabet)
    returns (groups: seq<seq<string>>)
    requires al.Valid() && overlap < budget && |ToksOfAll(current, al)| <= budget && n == |Toks(p, al)| <= budget
    requires |ToksOfAll(current, al)| + n > budget && NonBlank([p] + rest) == [p] + NonBlank(rest)
    ensures MadeFrom(Packed(current) + Pack(rest, [p], n, budget, overlap, al), groups, current, [p] + rest, budget,
                     overlap, al)
    decreases |rest|, 1
  {
    ToksOfOne(p, al);
    var later := PackGroups(rest, [p], n, budget, overlap, al);
    assert later[0][0] == [p][0];
    groups := ClosedBefore(current, Pack(rest, [p], n, budget, overlap, al), later, rest, [p], budget, overlap, al);
  }

  lemma {:induction false} SameGroups(p: string, rest: seq<string>, current: seq<string>, tokens: nat, budget: nat,
                                      overlap: nat, al: Alphabet)
    returns (groups: seq<seq<string>>)
    requires al.Valid() && overlap < budget && |ToksOfAll(current, al)| + |Toks(p, al)| == tokens <= budget
    requires NonBlank([p] + rest) == [p] + NonBlank(rest)
    ensures MadeFrom(Pack(rest, current + [p], tokens, budget, overlap, al), groups, current, [p] + rest, budget,
                     overlap, al)
    decreases |rest|, 1
  {
    ToksOfAllSnoc(current, p, al);
    groups := PackGroups(rest, current + [p], tokens, budget, overlap, al);
    ConcatIsAssociative(current, [p], NonBlank(rest));
    assert current <= current + [p] <= groups[0];
  }

  /**
    * A section's pieces are those of its paragraphs taken in groups: each as long as the budget allows, and a paragraph
    * beyond it by itself.
    */
  lemma {:induction false} PiecesAreGreedyGroups(body: string, budget: nat, overlap: nat, al: Alphabet)
    returns (groups: seq<seq<string>>)
    requires al.Valid() && overlap < budget
    ensures WellGrouped(groups, budget, al) && Flat(groups) == NonBlank(Paragraphs(body, al))
    ensures PiecesOfSection(body, budget, overlap, al) == PiecesOfGroups(groups, budget, overlap, al)
  {
    groups := PackGroups(Paragraphs(body, al), [], 0, budget, overlap, al);
    assert [] + NonBlank(Paragraphs(body, al)) == NonBlank(Paragraphs(body, al));
  }
}
