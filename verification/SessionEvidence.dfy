/** The evidence behind a session's answers: what the pipeline returned in one of its passes. */
module SessionEvidence {
  import opened Collections
  import opened Options
  import opened EvidenceRows
  import opened Vectors
  import opened MultiIntent
  import opened RankFusion
  import opened Rerank
  import opened ReorderBuffer
  import opened Session
  import opened Grounding
  import opened Generation
  import opened Controller
  import opened Trace
  import opened Frames
  import P = EvidencePipeline

  /** How passes ask the pipeline: the text of an entity delta, and the settings of decomposition and of the rest. */
  datatype Asking = Asking(deltaQuery: Entities -> string, mergeThreshold: real, settings: P.Settings)

  /** A backend with the session's embedder and settings; its index, scores and generated ids are its own. */
  ghost predicate Backs(b: P.Backend, e: Embedder, a: Asking) {
    b.embedder == e && b.mergeThreshold == a.mergeThreshold && b.st == a.settings
  }

  /** The outcome of decomposing the text, retrieving for each of its sub-queries, and fusing what was retrieved. */
  ghost predicate Gives(p: Pipeline, text: string, compound: bool, llm: Proposal, b: P.Backend, rows: seq<Row>)
    requires p.Found? && b.embedder.Valid()
  {
    && p.subQueries == DecomposedInto(text, compound, llm, b.embedder, b.mergeThreshold, b.nextId)
    && IsDecomposition(p.subQueries, text, compound, llm, b.mergeThreshold, b.embedder, b.nextId)
    && p.retrievals == P.ResultsFor(p.subQueries, b.retrieve)
    && P.IsTurnEvidence(p.evidence, rows, P.SourcesOf(p.subQueries, b))
  }

  /** What a pass gets is what the pipeline gives for the text. */
  ghost predicate FromPipeline(p: Pipeline, text: string, e: Embedder, a: Asking)
    requires e.Valid()
  {
    p.Found? ==> exists compound, llm, b, rows :: Backs(b, e, a) && Gives(p, text, compound, llm, b, rows)
  }

  /** Every text gets such an outcome. */
  method RunPipeline(text: string, compound: bool, llm: Proposal, b: P.Backend, events: nat, ghost a: Asking)
    returns (p: Pipeline)
    requires b.embedder.Valid() && OneScorePerPair(b.score) && Backs(b, b.embedder, a)
    ensures p.Found? && IsDecomposition(p.subQueries, text, compound, llm, b.mergeThreshold, b.embedder, b.nextId)
    ensures p.retrievals == P.ResultsFor(p.subQueries, b.retrieve) && FromPipeline(p, text, b.embedder, a)
  {
    var subQueries, results, turn; ghost var rows;
    subQueries, results, turn, rows := P.DecomposeAndFuse(text, compound, llm, b);
    p := Found(events, subQueries, results, turn);
    assert Gives(p, text, compound, llm, b, rows);
  }

  /** The evidence is well chosen among the chunks that the same outcome retrieved. */
  lemma {:induction false} ThePipelineChoosesWell(p: Pipeline, text: string, e: Embedder, a: Asking)
    requires e.Valid() && FromPipeline(p, text, e, a) && p.Found?
    ensures P.WellChosen(p.evidence, ChunksById(p.retrievals), e, a.settings)
  {
    var compound, llm, b, rows :| Backs(b, e, a) && Gives(p, text, compound, llm, b, rows);
    P.EvidenceIsWellChosen(p.evidence, rows, P.SourcesOf(p.subQueries, b));
  }

  // ----- The happenings of a session -----

  /** The happenings are those of one run from a new session on. */
  ghost predicate OneRun(hs: seq<Happening>, st: Setting)
    requires ValidRolling(FRESH, st.env, st.controller)
  {
    Outcomes(hs) == Run(FRESH, Inputs(hs), st.env, st.controller).outcomes
  }

  /** The controller's state before the next pass. */
  ghost function StateAfter(hs: seq<Happening>, st: Setting): Rolling
    requires ValidRolling(FRESH, st.env, st.controller)
  {
    Run(FRESH, Inputs(hs), st.env, st.controller).state
  }

  /** What a retrieving pass asks: the transcript, or for a refinement the entities that are new to the state before. */
  function AskedBy(h: Happening, before: Rolling, st: Setting, a: Asking): string
    requires h.Processed?
  {
    if Attempt(h.outcome) == Some(Delta)
    then a.deltaQuery(EntityDiff(st.env.extract(h.input.bufferText), before.entities))
    else h.input.bufferText
  }

  /** Every pass that retrieved got what the pipeline gives for the text it asked. */
  ghost predicate AllFromPipeline(hs: seq<Happening>, st: Setting, a: Asking)
    requires ValidRolling(FRESH, st.env, st.controller)
  {
    hs == [] || (AllFromPipeline(hs[..|hs| - 1], st, a) && Asks(hs[|hs| - 1], hs[..|hs| - 1], st, a))
  }

  ghost predicate Asks(h: Happening, before: seq<Happening>, st: Setting, a: Asking)
    requires ValidRolling(FRESH, st.env, st.controller)
  {
    h.Processed? && h.outcome.Retrieved? ==>
      FromPipeline(h.world.pipeline, AskedBy(h, StateAfter(before, st), st, a), st.env.embedder, a)
  }

  /** The evidence is what this pass's pipeline returned, well chosen among the chunks the same pass retrieved. */
  ghost predicate ChosenIn(h: Happening, evidence: seq<Row>, st: Setting, a: Asking) {
    && h.Processed? && h.world.pipeline.Found? && evidence == h.world.pipeline.evidence
    && P.WellChosen(evidence, ChunksById(h.world.pipeline.retrievals), st.env.embedder, a.settings)
  }

  ghost predicate ChosenBefore(evidence: seq<Row>, hs: seq<Happening>, st: Setting, a: Asking) {
    exists j :: 0 <= j < |hs| && ChosenIn(hs[j], evidence, st, a)
  }

  /** The last pass as part of the run. */
  lemma {:induction false} LastPass(hs: seq<Happening>, st: Setting)
    requires ValidRolling(FRESH, st.env, st.controller) && hs != [] && OneRun(hs, st)
    ensures var before, h := hs[..|hs| - 1], hs[|hs| - 1];
      && OneRun(before, st)
      && if h.Processed?
        then (StateAfter(hs, st), h.outcome) == Pass(StateAfter(before, st), h.input, st.env, st.controller)
        else StateAfter(hs, st) == StateAfter(before, st)
  {
    var before, h := hs[..|hs| - 1], hs[|hs| - 1];
    if h.Processed? {
      RunNext(FRESH, Inputs(before), h.input, st.env, st.controller);
      SameLast(Outcomes(before), h.outcome, Run(FRESH, Inputs(before), st.env, st.controller).outcomes,
        Pass(StateAfter(before, st), h.input, st.env, st.controller).1);
    }
  }

  /** What a session keeps as evidence, if anything, one of its passes chose. */
  lemma {:induction false} KeptEvidenceWasChosen(hs: seq<Happening>, st: Setting, a: Asking)
    requires ValidRolling(FRESH, st.env, st.controller) && Coherent(hs, st) && OneRun(hs, st)
    requires AllFromPipeline(hs, st, a)
    ensures var kept := StateAfter(hs, st).lastEvidence; kept == [] || ChosenBefore(kept, hs, st, a)
  {
    if hs != [] {
      var before, h := hs[..|hs| - 1], hs[|hs| - 1];
      var old', kept := StateAfter(before, st).lastEvidence, StateAfter(hs, st).lastEvidence;
      LastPass(hs, st);
      KeptEvidenceWasChosen(before, st, a);
      if h.Processed? {
        PassHandsOn(StateAfter(before, st), h.input, st.env, st.controller);
      }
      if kept == old' {
        StillChosen(kept, before, h, st, a);
        assert before + [h] == hs;
      } else {
        ChosenNow(h, before, st, a);
        assert ChosenIn(hs[|hs| - 1], kept, st, a);
      }
    }
  }

  lemma {:induction false} StillChosen(evidence: seq<Row>, before: seq<Happening>, h: Happening, st: Setting, a: Asking)
    ensures ChosenBefore(evidence, before, st, a) ==> ChosenBefore(evidence, before + [h], st, a)
  {
    if ChosenBefore(evidence, before, st, a) {
      var j :| 0 <= j < |before| && ChosenIn(before[j], evidence, st, a);
      assert (before + [h])[j] == before[j];
    }
  }

  /** A pass that answers from its pipeline's evidence answers from evidence chosen in it. */
  lemma {:induction false} ChosenNow(h: Happening, before: seq<Happening>, st: Setting, a: Asking)
    requires ValidRolling(FRESH, st.env, st.controller) && h.Processed? && h.outcome.Retrieved?
    requires Asks(h, before, st, a) && h.world.pipeline.Found?
    ensures ChosenIn(h, h.world.pipeline.evidence, st, a)
  {
    ThePipelineChoosesWell(h.world.pipeline, AskedBy(h, StateAfter(before, st), st, a), st.env.embedder, a);
  }

  /**
    * Pass k answers what it asked of the pipeline, from the evidence it got for it or, as a refinement that got none,
    * from what an earlier pass had got and chosen among its own retrievals.
    */
  ghost predicate AnswersFromChosen(hs: seq<Happening>, k: nat, st: Setting, a: Asking)
    requires ValidRolling(FRESH, st.env, st.controller)
    requires k < |hs| && hs[k].Processed? && hs[k].outcome.Retrieved?
  {
    var o, p := hs[k].outcome, hs[k].world.pipeline;
    && Asks(hs[k], hs[..k], st, a)
    && p.Found? && o.subQueries == p.subQueries && o.retrievals == p.retrievals
    && (ChosenIn(hs[k], o.evidence, st, a)
      || (o.trigger == Delta && p.evidence == [] && ChosenBefore(o.evidence, hs[..k], st, a)))
  }

  lemma {:induction false} LastAnswersFromChosen(hs: seq<Happening>, st: Setting, a: Asking)
    requires ValidRolling(FRESH, st.env, st.controller) && Coherent(hs, st) && OneRun(hs, st)
    requires AllFromPipeline(hs, st, a) && hs != [] && hs[|hs| - 1].Processed? && hs[|hs| - 1].outcome.Retrieved?
    requires hs[|hs| - 1].outcome.evidence != []
    ensures AnswersFromChosen(hs, |hs| - 1, st, a)
  {
    var before, h := hs[..|hs| - 1], hs[|hs| - 1];
    LastPass(hs, st);
    PassHandsOn(StateAfter(before, st), h.input, st.env, st.controller);
    ChosenNow(h, before, st, a);
    if h.outcome.evidence != h.world.pipeline.evidence {
      KeptEvidenceWasChosen(before, st, a);
    }
  }

  /** Every pass of a session that answers does so from well-chosen evidence. */
  lemma {:induction false} EveryPassAnswersFromChosen(hs: seq<Happening>, k: nat, st: Setting, a: Asking)
    requires ValidRolling(FRESH, st.env, st.controller) && Coherent(hs, st) && OneRun(hs, st)
    requires AllFromPipeline(hs, st, a) && k < |hs| && hs[k].Processed? && hs[k].outcome.Retrieved?
    requires hs[k].outcome.evidence != []
    ensures AnswersFromChosen(hs, k, st, a)
  {
    if k == |hs| - 1 {
      LastAnswersFromChosen(hs, st, a);
    } else {
      var before := hs[..|hs| - 1];
      LastPass(hs, st);
      assert before[..k] == hs[..k] && before[k] == hs[k];
      EveryPassAnswersFromChosen(before, k, st, a);
    }
  }

  /**
    * The version is the safe answer of a pass that answers from well-chosen evidence, and when keys tell the evidence's
    * tags apart each of its citations names the best citable row of its tag.
    */
  ghost predicate CitesChosenEvidence(v: AnswerVersion, hs: seq<Happening>, k: nat, st: Setting, a: Asking)
    requires ValidRolling(FRESH, st.env, st.controller)
  {
    && k < |hs| && IsSafeAnswer(v, hs[k], st) && AnswersFromChosen(hs, k, st, a)
    && var evidence, chunks := hs[k].outcome.evidence, ChunksById(hs[k].outcome.retrievals);
      KeysAreInjective(evidence, chunks) ==> AllCiteTheBest(v.citations, evidence, chunks)
  }

  ghost predicate SomeTurnChoseIt(v: AnswerVersion, hs: seq<Happening>, st: Setting, a: Asking)
    requires ValidRolling(FRESH, st.env, st.controller)
  {
    exists k: nat :: CitesChosenEvidence(v, hs, k, st, a)
  }

  lemma {:induction false} ChosenRowsAreDistinct(hs: seq<Happening>, k: nat, st: Setting, a: Asking)
    requires ValidRolling(FRESH, st.env, st.controller)
    requires k < |hs| && hs[k].Processed? && hs[k].outcome.Retrieved? && AnswersFromChosen(hs, k, st, a)
    ensures DistinctIds(hs[k].outcome.evidence)
  {
  }

  /**
    * A session whose passes get what the pipeline gives for the text they ask: each citation of each answer names a row
    * that the turn retrieved. All rows a turn can cite reached the minimal relevance, and any two are of different
    * chunks no more similar than the threshold, as the pass that chose them retrieved these chunks.
    */
  lemma {:induction false} EveryVersionCitesChosenEvidence(hs: seq<Happening>, st: Setting, a: Asking, n: nat)
    requires ValidRolling(FRESH, st.env, st.controller) && Coherent(hs, st) && OneRun(hs, st)
    requires AllFromPipeline(hs, st, a) && n < |Versions(hs, st)|
    ensures SomeTurnChoseIt(Versions(hs, st)[n], hs, st, a)
  {
    EveryVersionIsSafe(hs, st, n);
    var v := Versions(hs, st)[n];
    var k :| 0 <= k < |hs| && IsSafeAnswer(v, hs[k], st);
    EveryPassAnswersFromChosen(hs, k, st, a);
    ChosenRowsAreDistinct(hs, k, st, a);
    assert CitesChosenEvidence(v, hs, k, st, a);
  }

  /** So it is for every session that frames are served to. */
  lemma {:induction false} ServedFromThePipeline(session: SessionRecord, hs: seq<Happening>,
                                                 frames: seq<Option<TranscriptChunk>>, worlds: (nat, nat) -> World,
                                                 st: Setting, a: Asking)
    requires ValidRolling(FRESH, st.env, st.controller) && Served(session, hs, frames, worlds, st)
    requires AllFromPipeline(hs, st, a)
    ensures forall v :: v in session.answerVersions ==> SomeTurnChoseIt(v, hs, st, a)
  {
    forall n | 0 <= n < |session.answerVersions| ensures SomeTurnChoseIt(session.answerVersions[n], hs, st, a) {
      EveryVersionCitesChosenEvidence(hs, st, a, n);
    }
  }
}
