/** Anti-over-fragmentation merge of proposed sub-queries, and the fallback structure of decompose. */
module MultiIntent {
  import opened Options
  import opened Vectors
  import opened Greedy

  datatype Proposed = Proposed(text: string, intentLabel: string)

  /** A kept sub-query with the texts absorbed into it. */
  datatype Group = Group(query: Proposed, absorbed: seq<string>)

  // ----- Specification -----

  ghost predicate Alike(e: Embedder, threshold: real, text: string, keptText: string)
    requires e.Valid()
  {
    Cosine(e.sqrt, e.embed(keptText), e.embed(text)) > threshold
  }

  ghost function Absorbs(e: Embedder, threshold: real): (Proposed, Proposed) -> bool
    requires e.Valid()
  {
    (x: Proposed, kept: Proposed) => Alike(e, threshold, x.text, kept.text)
  }

  function Heads(groups: seq<Group>): (r: seq<Proposed>)
    ensures |r| == |groups| && forall i :: 0 <= i < |r| ==> r[i] == groups[i].query
  {
    seq(|groups|, i requires 0 <= i < |groups| => groups[i].query)
  }

  /** One more proposal: absorbed by the first kept query it is alike to, or kept itself. */
  ghost function Place(groups: seq<Group>, x: Proposed, absorbs: (Proposed, Proposed) -> bool): seq<Group> {
    match FirstMatch(Heads(groups), x, absorbs)
    case None => groups + [Group(x, [])]
    case Some(g) => groups[g := Group(groups[g].query, groups[g].absorbed + [x.text])]
  }

  ghost function Merged(proposed: seq<Proposed>, absorbs: (Proposed, Proposed) -> bool): seq<Group> {
    if proposed == [] then []
    else Place(Merged(proposed[..|proposed| - 1], absorbs), proposed[|proposed| - 1], absorbs)
  }

  /**
    * Merging starts from nothing; each proposal is kept behind the others when no kept query is alike to it, and else
    * its text goes to the first that is.
    */
  ghost predicate MergesOneMore(before: seq<Group>, x: Proposed, after: seq<Group>, threshold: real, e: Embedder)
    requires e.Valid()
  {
    if NoneAlikeBefore(before, |before|, x.text, threshold, e) then after == before + [Group(x, [])]
    else exists g | FirstAlikeAt(before, g, x.text, threshold, e) ::
      after == before[g := Group(before[g].query, before[g].absorbed + [x.text])]
  }

  ghost predicate NoneAlikeBefore(groups: seq<Group>, g: nat, t: string, threshold: real, e: Embedder)
    requires e.Valid() && g <= |groups|
  {
    forall h :: 0 <= h < g ==> !Alike(e, threshold, t, groups[h].query.text)
  }

  ghost predicate FirstAlikeAt(groups: seq<Group>, g: int, t: string, threshold: real, e: Embedder)
    requires e.Valid()
  {
    0 <= g < |groups| && Alike(e, threshold, t, groups[g].query.text) && NoneAlikeBefore(groups, g, t, threshold, e)
  }

  lemma {:induction false} MergingIsFirstCome(proposed: seq<Proposed>, x: Proposed, threshold: real, e: Embedder)
    requires e.Valid()
    ensures Merged([], Absorbs(e, threshold)) == []
    ensures MergesOneMore(Merged(proposed, Absorbs(e, threshold)), x, Merged(proposed + [x], Absorbs(e, threshold)),
                          threshold, e)
  {
    var absorbs := Absorbs(e, threshold);
    var before := Merged(proposed, absorbs);
    assert (proposed + [x])[..|proposed|] == proposed;
    forall h | 0 <= h < |before|
      ensures absorbs(x, Heads(before)[h]) <==> Alike(e, threshold, x.text, before[h].query.text)
    {
    }
    match FirstMatch(Heads(before), x, absorbs)
    case None =>
    case Some(g) => assert FirstAlikeAt(before, g, x.text, threshold, e);
  }

  // ----- Implementation -----

  /** The index of the first kept query whose embedding is too close, if any. */
  method FirstAlike(kept: seq<Group>, embeddings: seq<Vec>, sq: Proposed, threshold: real, e: Embedder)
    returns (dup: Option<nat>)
    requires e.Valid() && |embeddings| == |kept|
    requires forall i :: 0 <= i < |kept| ==> embeddings[i] == e.embed(kept[i].query.text)
    ensures dup == FirstMatch(Heads(kept), sq, Absorbs(e, threshold))
  {
    ghost var absorbs, heads := Absorbs(e, threshold), Heads(kept);
    var embedding := e.embed(sq.text);
    for i := 0 to |kept|
      invariant FirstMatch(heads, sq, absorbs) == FirstMatch(heads, sq, absorbs, i)
    {
      assert absorbs(sq, heads[i]) <==> Cosine(e.sqrt, embeddings[i], embedding) > threshold;
      if Cosine(e.sqrt, embeddings[i], embedding) > threshold {
        return Some(i);
      }
    }
    dup := None;
  }

  method MergeSimilar(proposed: seq<Proposed>, threshold: real, e: Embedder) returns (kept: seq<Group>)
    requires e.Valid()
    ensures kept == Merged(proposed, Absorbs(e, threshold))
  {
    kept := [];
    var embeddings: seq<Vec> := [];
    for n := 0 to |proposed|
      invariant kept == Merged(proposed[..n], Absorbs(e, threshold))
      invariant |embeddings| == |kept|
      invariant forall i :: 0 <= i < |kept| ==> embeddings[i] == e.embed(kept[i].query.text)
    {
      var sq := proposed[n];
      assert proposed[..n + 1][..n] == proposed[..n];
      var dup := FirstAlike(kept, embeddings, sq, threshold, e);
      match dup
      case None =>
        kept, embeddings := kept + [Group(sq, [])], embeddings + [e.embed(sq.text)];
      case Some(g) =>
        kept := kept[g := Group(kept[g].query, kept[g].absorbed + [sq.text])];
    }
    assert proposed[..|proposed|] == proposed;
  }

  // ----- What merging promises -----

  lemma {:induction false} HeadsAreTheKeepers(proposed: seq<Proposed>, absorbs: (Proposed, Proposed) -> bool)
    ensures Heads(Merged(proposed, absorbs)) == Keepers(proposed, absorbs)
  {
    if proposed != [] {
      HeadsAreTheKeepers(proposed[..|proposed| - 1], absorbs);
    }
  }

  /** Kept queries come in the order proposed and are pairwise no more alike than the threshold. */
  lemma {:induction false} KeptQueriesAreIndependent(proposed: seq<Proposed>, threshold: real, e: Embedder)
    requires e.Valid()
    ensures var kept := Heads(Merged(proposed, Absorbs(e, threshold)));
      && Subsequence(kept, proposed)
      && forall i, j :: 0 <= i < j < |kept| ==> !Alike(e, threshold, kept[j].text, kept[i].text)
  {
    var absorbs := Absorbs(e, threshold);
    HeadsAreTheKeepers(proposed, absorbs);
    KeepersAreIndependent(proposed, absorbs);
    KeepersAreASubsequence(proposed, absorbs);
    var kept := Keepers(proposed, absorbs);
    forall i, j | 0 <= i < j < |kept| ensures !Alike(e, threshold, kept[j].text, kept[i].text) {
      assert !absorbs(kept[j], kept[i]);
    }
  }

  /** Each absorbed text is alike to its own keeper and to no keeper before that one. */
  ghost predicate AbsorbedByFirst(groups: seq<Group>, threshold: real, e: Embedder)
    requires e.Valid()
  {
    forall g, t :: 0 <= g < |groups| && t in groups[g].absorbed ==>
      Alike(e, threshold, t, groups[g].query.text) && NoneAlikeBefore(groups, g, t, threshold, e)
  }

  lemma {:induction false} AbsorbedTextsMatchTheirKeeper(proposed: seq<Proposed>, threshold: real, e: Embedder)
    requires e.Valid()
    ensures AbsorbedByFirst(Merged(proposed, Absorbs(e, threshold)), threshold, e)
  {
    if proposed != [] {
      var absorbs := Absorbs(e, threshold);
      var groups, x := Merged(proposed[..|proposed| - 1], absorbs), proposed[|proposed| - 1];
      AbsorbedTextsMatchTheirKeeper(proposed[..|proposed| - 1], threshold, e);
      var placed := Place(groups, x, absorbs);
      var first := FirstMatch(Heads(groups), x, absorbs);
      forall g, t | 0 <= g < |placed| && t in placed[g].absorbed
        ensures Alike(e, threshold, t, placed[g].query.text) && NoneAlikeBefore(placed, g, t, threshold, e)
      {
        if g < |groups| && t in groups[g].absorbed {
          assert NoneAlikeBefore(groups, g, t, threshold, e);
        } else {
          assert first == Some(g) && t == x.text;
          assert forall h :: 0 <= h < g ==> !absorbs(x, Heads(groups)[h]);
        }
      }
    }
  }

  function Texts(groups: seq<Group>): seq<string> {
    if groups == [] then []
    else [groups[0].query.text] + groups[0].absorbed + Texts(groups[1..])
  }

  function ProposedTexts(proposed: seq<Proposed>): (r: seq<string>)
    ensures |r| == |proposed| && forall i :: 0 <= i < |r| ==> r[i] == proposed[i].text
  {
    if proposed == [] then [] else ProposedTexts(proposed[..|proposed| - 1]) + [proposed[|proposed| - 1].text]
  }

  lemma {:induction false} TextsAfterKeeping(groups: seq<Group>, x: Proposed)
    ensures Texts(groups + [Group(x, [])]) == Texts(groups) + [x.text]
  {
    if groups != [] {
      TextsAfterKeeping(groups[1..], x);
      assert (groups + [Group(x, [])])[1..] == groups[1..] + [Group(x, [])];
    } else {
      assert (groups + [Group(x, [])])[1..] == [];
    }
  }

  lemma {:induction false} TextsAfterAbsorbing(groups: seq<Group>, g: nat, text: string)
    requires g < |groups|
    ensures multiset(Texts(groups[g := Group(groups[g].query, groups[g].absorbed + [text])])) ==
      multiset(Texts(groups)) + multiset{text}
  {
    var after := groups[g := Group(groups[g].query, groups[g].absorbed + [text])];
    if g == 0 {
      assert after[1..] == groups[1..];
    } else {
      TextsAfterAbsorbing(groups[1..], g - 1, text);
      assert after[1..] == groups[1..][g - 1 := Group(groups[g].query, groups[g].absorbed + [text])];
    }
  }

  /** Kept and absorbed texts together are exactly the proposed texts. */
  lemma {:induction false} MergingPartitionsTheProposals(proposed: seq<Proposed>, absorbs: (Proposed, Proposed) -> bool)
    ensures multiset(Texts(Merged(proposed, absorbs))) == multiset(ProposedTexts(proposed))
  {
    if proposed != [] {
      var groups, x := Merged(proposed[..|proposed| - 1], absorbs), proposed[|proposed| - 1];
      MergingPartitionsTheProposals(proposed[..|proposed| - 1], absorbs);
      match FirstMatch(Heads(groups), x, absorbs)
      case None => TextsAfterKeeping(groups, x);
      case Some(g) => TextsAfterAbsorbing(groups, g, x.text);
    }
  }

  lemma {:induction false} MergingIndependent(s: seq<Proposed>, absorbs: (Proposed, Proposed) -> bool)
    requires Independent(s, absorbs)
    ensures |Merged(s, absorbs)| == |s| && forall i :: 0 <= i < |s| ==> Merged(s, absorbs)[i] == Group(s[i], [])
  {
    if s != [] {
      MergingIndependent(s[..|s| - 1], absorbs);
    }
  }

  /** Merging the kept queries again absorbs nothing. */
  lemma {:induction false} MergingIsIdempotent(proposed: seq<Proposed>, absorbs: (Proposed, Proposed) -> bool)
    ensures var kept := Heads(Merged(proposed, absorbs));
      && Heads(Merged(kept, absorbs)) == kept
      && forall i :: 0 <= i < |Merged(kept, absorbs)| ==> Merged(kept, absorbs)[i].absorbed == []
  {
    HeadsAreTheKeepers(proposed, absorbs);
    KeepersAreIndependent(proposed, absorbs);
    MergingIndependent(Keepers(proposed, absorbs), absorbs);
  }

  // ----- The orchestration around it -----

  datatype SubQuery = SubQuery(subQueryId: nat, text: string, intentLabel: string, mergedFrom: seq<string>)

  /** What the decomposition model did: failed or timed out, or returned its validated (perhaps empty) proposals. */
  datatype Proposal = Failed | Returned(queries: seq<Proposed>)

  const SINGLE_INTENT := "single"

  function Fallback(transcript: string, firstId: nat): seq<SubQuery> {
    [SubQuery(firstId, transcript, SINGLE_INTENT, [])]
  }

  function AsSubQueries(groups: seq<Group>, firstId: nat): (r: seq<SubQuery>)
    ensures |r| == |groups|
    ensures forall i :: 0 <= i < |r| ==>
      r[i] == SubQuery(firstId + i, groups[i].query.text, groups[i].query.intentLabel, groups[i].absorbed)
  {
    seq(|groups|, i requires 0 <= i < |groups| =>
      SubQuery(firstId + i, groups[i].query.text, groups[i].query.intentLabel, groups[i].absorbed))
  }

  /** The kept queries with what they absorbed, as the sub-queries tell them. */
  ghost function GroupsOf(subQueries: seq<SubQuery>): (r: seq<Group>)
    ensures |r| == |subQueries|
    ensures forall i :: 0 <= i < |r| ==>
      r[i] == Group(Proposed(subQueries[i].text, subQueries[i].intentLabel), subQueries[i].mergedFrom)
  {
    seq(|subQueries|, i requires 0 <= i < |subQueries| =>
      Group(Proposed(subQueries[i].text, subQueries[i].intentLabel), subQueries[i].mergedFrom))
  }

  /**
    * Some of the proposals in their order, no two of them alike; every other proposal's text stands with the first one
    * kept that it is alike to, and no text is lost or added.
    */
  ghost predicate IsSplit(subQueries: seq<SubQuery>, proposed: seq<Proposed>, threshold: real, e: Embedder)
    requires e.Valid()
  {
    && Subsequence(Heads(GroupsOf(subQueries)), proposed)
    && (forall i, j :: 0 <= i < j < |subQueries| ==> !Alike(e, threshold, subQueries[j].text, subQueries[i].text))
    && AbsorbedByFirst(GroupsOf(subQueries), threshold, e)
    && multiset(Texts(GroupsOf(subQueries))) == multiset(ProposedTexts(proposed))
  }

  /** The transcript itself under one id, unless it is compound and the model proposed how to split it. */
  ghost predicate IsDecomposition(subQueries: seq<SubQuery>, transcript: string, compound: bool, llm: Proposal,
                                  threshold: real, e: Embedder, firstId: nat)
    requires e.Valid()
  {
    if compound && llm.Returned? && llm.queries != [] then
      IsSplit(subQueries, llm.queries, threshold, e)
      && forall i :: 0 <= i < |subQueries| ==> subQueries[i].subQueryId == firstId + i
    else subQueries == [SubQuery(firstId, transcript, "single", [])]
  }

  lemma {:induction false} GroupsOfSubQueries(groups: seq<Group>, firstId: nat)
    ensures GroupsOf(AsSubQueries(groups, firstId)) == groups
  {
  }

  lemma {:induction false} MergedIsASplit(proposed: seq<Proposed>, threshold: real, e: Embedder, firstId: nat)
    requires e.Valid()
    ensures IsSplit(AsSubQueries(Merged(proposed, Absorbs(e, threshold)), firstId), proposed, threshold, e)
  {
    var absorbs := Absorbs(e, threshold);
    GroupsOfSubQueries(Merged(proposed, absorbs), firstId);
    KeptQueriesAreIndependent(proposed, threshold, e);
    AbsorbedTextsMatchTheirKeeper(proposed, threshold, e);
    MergingPartitionsTheProposals(proposed, absorbs);
    var kept := Heads(Merged(proposed, absorbs));
    var subQueries := AsSubQueries(Merged(proposed, absorbs), firstId);
    forall i, j | 0 <= i < j < |subQueries| ensures !Alike(e, threshold, subQueries[j].text, subQueries[i].text) {
      assert !Alike(e, threshold, kept[j].text, kept[i].text);
    }
  }

  /** One sub-query over the whole transcript, or the merged proposals of a model that made any for a compound one. */
  ghost function DecomposedInto(transcript: string, compound: bool, llm: Proposal, e: Embedder, threshold: real,
                                firstId: nat): seq<SubQuery>
    requires e.Valid()
  {
    if !compound || llm.Failed? || llm.queries == [] then Fallback(transcript, firstId)
    else AsSubQueries(Merged(llm.queries, Absorbs(e, threshold)), firstId)
  }

  /**
    * `firstId` stands for the freshly generated ids. `fellBack` counts the fallback events emitted: none for a
    * transcript without a compound signal, at most one otherwise.
    */
  method Decompose(transcript: string, compound: bool, llm: Proposal, threshold: real, e: Embedder, firstId: nat)
    returns (subQueries: seq<SubQuery>, fellBack: nat)
    requires e.Valid()
    ensures |subQueries| >= 1
    ensures forall i :: 0 <= i < |subQueries| ==> subQueries[i].subQueryId == firstId + i
    ensures subQueries == DecomposedInto(transcript, compound, llm, e, threshold, firstId)
    ensures IsDecomposition(subQueries, transcript, compound, llm, threshold, e, firstId)
    ensures fellBack == if compound && (llm.Failed? || llm.queries == []) then 1 else 0
  {
    fellBack := 0;
    if !compound {
      subQueries := Fallback(transcript, firstId);
    } else if llm.Failed? || llm.queries == [] {
      fellBack := 1;
      subQueries := Fallback(transcript, firstId);
    } else {
      var merged := MergeSimilar(llm.queries, threshold, e);
      MergingKeepsSomething(llm.queries, Absorbs(e, threshold));
      MergedIsASplit(llm.queries, threshold, e, firstId);
      subQueries := AsSubQueries(merged, firstId);
    }
  }

  lemma {:induction false} MergingKeepsSomething(proposed: seq<Proposed>, absorbs: (Proposed, Proposed) -> bool)
    requires proposed != []
    ensures |Merged(proposed, absorbs)| >= 1
  {
    if |proposed| > 1 {
      MergingKeepsSomething(proposed[..|proposed| - 1], absorbs);
    } else {
      assert proposed[..0] == [];
    }
  }
}
