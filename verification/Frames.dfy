/** The receive loop's work on one inbound frame (stream_endpoint). */
module Frames {
  import opened Collections
  import opened Options
  import opened EvidenceRows
  import opened Sentences
  import opened ReorderBuffer
  import opened Session
  import opened Grounding
  import opened Generation
  import opened Controller
  import opened Reducer
  import opened MultiIntent
  import opened RankFusion
  import opened Trace
  import opened Text
  import opened Vectors

  /** What holds of a session between any two frames. */
  ghost predicate SessionValid(session: SessionRecord, st: Setting)
    reads session
  {
    && WellFormed(session.Buffering(), st.reorderWindowMs)
    && ValidRolling(session.RollingState(), st.env, st.controller)
    && Mirrors(session.eventLog, session.answerVersions)
  }

  /** The versions and the log are those of the happenings so far. */
  ghost predicate Records(session: SessionRecord, hs: seq<Happening>, st: Setting)
    reads session
  {
    Recounted(session.answerVersions, session.eventLog, hs, st)
  }

  /** A new session is valid. */
  method NewSession(st: Setting) returns (session: SessionRecord)
    requires ValidRolling(FRESH, st.env, st.controller)
    ensures fresh(session) && SessionValid(session, st)
    ensures session.Buffering() == EMPTY && session.RollingState() == FRESH && Records(session, [], st)
  {
    session := new SessionRecord();
    assert ApplyAll(INITIAL, []).answerHistory == ShownAll([]);
  }

  lemma {:induction false} OutcomeEventsCreateNone(o: Outcome, p: Pipeline)
    ensures CreatesNone(EventsOf(o, p))
  {
  }

  lemma {:induction false} ClarificationsCreateNone(subQueries: seq<SubQuery>)
    ensures CreatesNone(Clarifications(subQueries))
  {
    if subQueries != [] { ClarificationsCreateNone(subQueries[..|subQueries| - 1]); }
  }

  lemma {:induction false} NoiseIsAside(s: UiState, n: nat)
    ensures Aside(Noise(n)) && ApplyAll(s, Noise(n)).answer == s.answer
  {
    AsideKeepsTheAnswer(s, Noise(n));
  }

  /**
    * Whatever the page showed before: once it has seen a turn's decision, the pipeline's events and the answer's
    * events, its draft is exactly the text of the version that is then committed.
    */
  lemma {:induction false} PageDraftsTheVersion(s: UiState, o: Outcome, p: Pipeline, t: Turn, split: Split,
                                                fails: bool, versions: seq<AnswerVersion>)
    requires o.Retrieved?
    ensures var a := AnswerOf(t, split, fails);
      VersionOf(t, a, versions).Some? ==>
      ApplyAll(ApplyAll(s, EventsOf(o, p)), a.events).answer.text == VersionOf(t, a, versions).value.text
  {
    var decided := RetrievalDecision(Retrieve(o.trigger));
    ApplyConcat(s, [decided], Noise(p.events));
    assert [decided][..0] == [];
    assert ApplyAll(s, [decided]) == ApplyEvent(s, decided);
    NoiseIsAside(ApplyAll(s, [decided]), p.events);
    DraftIsTheCommittedText(ApplyAll(s, EventsOf(o, p)), t, split, fails, versions);
  }

  /** The decision that an outcome stands for: what was decided, or the retrieval that was attempted. */
  ghost function DecisionOf(o: Outcome): Option<Decision> {
    match o
    case Decided(d) => Some(d)
    case Retrieved(trigger, _, _, _) => Some(Retrieve(trigger))
    case Raised(Some(trigger)) => Some(Retrieve(trigger))
    case Raised(None) => None
  }

  lemma {:induction false} AsideKeepsTheDecision(s: UiState, events: seq<Event>)
    requires forall i :: 0 <= i < |events| ==> !events[i].RetrievalDecision?
    ensures ApplyAll(s, events).lastDecision == s.lastDecision
  {
    if events != [] { AsideKeepsTheDecision(s, events[..|events| - 1]); }
  }

  /** Once the page has seen a pass's events it shows what the pass decided, if it got that far. */
  lemma {:induction false} PageShowsTheDecision(s: UiState, o: Outcome, p: Pipeline)
    ensures ApplyAll(s, EventsOf(o, p)).lastDecision == if DecisionOf(o).Some? then DecisionOf(o) else s.lastDecision
  {
    if DecisionOf(o).Some? {
      var decided := RetrievalDecision(DecisionOf(o).value);
      assert [decided][..0] == [] && ApplyAll(s, [decided]) == ApplyEvent(s, decided);
      ApplyConcat(s, [decided], Noise(p.events));
      AsideKeepsTheDecision(ApplyAll(s, [decided]), Noise(p.events));
    }
  }

  /** The answer to a retrieval: the version and the events of its turn, which the page still mirrors. */
  method AnswerTurn(session: SessionRecord, o: Outcome, w: World, st: Setting) returns (ghost t: Turn)
    requires o.Retrieved? && MarksAreSolid(st.reader.space) && Mirrors(session.eventLog, session.answerVersions)
    modifies session`answerVersions, session`eventLog
    ensures TurnFits(o, w, t, old(session.answerVersions), st)
    ensures session.answerVersions ==
      Extended(old(session.answerVersions), NewVersion(o, w, t, old(session.answerVersions), st))
    ensures session.eventLog == old(session.eventLog) + RepliesTo(o, w, t, old(session.answerVersions), st)
    ensures Mirrors(session.eventLog, session.answerVersions)
  {
    ghost var log0, versions0 := session.eventLog, session.answerVersions;
    var answer;
    answer, t := StreamAnswer(session, o.subQueries, o.evidence, o.retrievals, w.llm, st.reader, st.minRelevance,
      w.versionId);
    if Answering(o, st) {
      TurnKeepsMirroring(answer, versions0, log0, session.answerVersions, session.eventLog, t, w.llm);
      AnswersAsReplied(o, w, t, answer, versions0, log0, session.answerVersions, session.eventLog, st);
    } else {
      ClarificationsCreateNone(o.subQueries);
      MirrorsStill(log0, versions0, Clarifications(o.subQueries));
      assert log0 + [] == log0;
    }
  }

  lemma {:induction false} AnswersAsReplied(o: Outcome, w: World, t: Turn, answer: Option<AnswerVersion>,
                                            versions0: seq<AnswerVersion>, log0: seq<Event>,
                                            versions: seq<AnswerVersion>, log: seq<Event>, st: Setting)
    requires Answering(o, st) && t.reader == st.reader && Answers(answer, versions0, log0, versions, log, t, w.llm)
    ensures versions == Extended(versions0, NewVersion(o, w, t, versions0, st))
    ensures log == log0 + RepliesTo(o, w, t, versions0, st)
  {
    var events := AnswerIn(w, t, st).events;
    assert log0 + (events + []) == log0 + events;
    if answer.Some? {
      ConcatIsAssociative(log0, events, [AnswerVersionCreated(answer.value)]);
    }
  }

  lemma {:induction false} DecisionsAreMirrored(log: seq<Event>, versions: seq<AnswerVersion>, o: Outcome, p: Pipeline)
    requires Mirrors(log, versions)
    ensures Mirrors(log + EventsOf(o, p), versions)
  {
    OutcomeEventsCreateNone(o, p);
    MirrorsStill(log, versions, EventsOf(o, p));
  }

  /** One committed chunk: a controller pass, then an answer, or an error event for whatever raised. */
  method ProcessChunk(session: SessionRecord, i: Input, w: World, st: Setting) returns (o: Outcome, ghost t: Turn)
    requires ValidRolling(session.RollingState(), st.env, st.controller) && MarksAreSolid(st.reader.space)
    requires Mirrors(session.eventLog, session.answerVersions)
    requires i.bufferText == session.BufferText() && i.hasPriorAnswer == (session.answerVersions != [])
    modifies session
    ensures session.Buffering() == old(session.Buffering())
    ensures (session.RollingState(), o) == Pass(old(session.RollingState()), i, st.env, st.controller)
    ensures TurnFits(o, w, t, old(session.answerVersions), st)
    ensures session.answerVersions ==
      Extended(old(session.answerVersions), NewVersion(o, w, t, old(session.answerVersions), st))
    ensures session.eventLog ==
      old(session.eventLog) + EventsOf(o, i.pipeline) + RepliesTo(o, w, t, old(session.answerVersions), st)
    ensures Mirrors(session.eventLog, session.answerVersions)
  {
    o := ControllerPass(session, i, st);
    t := FollowUp(session, o, w, st);
  }

  /** The controller's pass, whose decision and events the page mirrors as well. */
  method ControllerPass(session: SessionRecord, i: Input, st: Setting) returns (o: Outcome)
    requires ValidRolling(session.RollingState(), st.env, st.controller)
    requires Mirrors(session.eventLog, session.answerVersions)
    requires i.bufferText == session.BufferText() && i.hasPriorAnswer == (session.answerVersions != [])
    modifies session
    ensures session.Buffering() == old(session.Buffering()) && session.answerVersions == old(session.answerVersions)
    ensures (session.RollingState(), o) == Pass(old(session.RollingState()), i, st.env, st.controller)
    ensures session.eventLog == old(session.eventLog) + EventsOf(o, i.pipeline)
    ensures Mirrors(session.eventLog, session.answerVersions)
  {
    ghost var log0 := session.eventLog;
    o := OnChunk(session, i, st.env, st.controller);
    DecisionsAreMirrored(log0, session.answerVersions, o, i.pipeline);
  }

  /** The answer to a retrieval, or the error event of a pass that raised. */
  method FollowUp(session: SessionRecord, o: Outcome, w: World, st: Setting) returns (ghost t: Turn)
    requires MarksAreSolid(st.reader.space) && Mirrors(session.eventLog, session.answerVersions)
    modifies session`answerVersions, session`eventLog
    ensures TurnFits(o, w, t, old(session.answerVersions), st)
    ensures session.answerVersions ==
      Extended(old(session.answerVersions), NewVersion(o, w, t, old(session.answerVersions), st))
    ensures session.eventLog == old(session.eventLog) + RepliesTo(o, w, t, old(session.answerVersions), st)
    ensures Mirrors(session.eventLog, session.answerVersions)
  {
    t := Turn(map[], st.reader, w.versionId, 0, 0, w.llm.complete);
    if o.Retrieved? {
      t := AnswerTurn(session, o, w, st);
    } else if o.Raised? {
      EmitAside(session, ErrorEvent("controller"));
    }
  }

  method EmitAside(session: SessionRecord, e: Event)
    requires Mirrors(session.eventLog, session.answerVersions) && !e.AnswerVersionCreated?
    modifies session`eventLog
    ensures Mirrors(session.eventLog, session.answerVersions) && session.eventLog == old(session.eventLog) + [e]
  {
    MirrorsStill(session.eventLog, session.answerVersions, [e]);
    session.Emit(e);
  }

  /** The k-th pass of a frame. */
  ghost predicate PassInput(i: Input, bufferText: string, chunk: TranscriptChunk, w: World) {
    i.bufferText == bufferText && i.chunk == chunk && i.fault == w.fault && i.pipeline == w.pipeline
  }

  ghost predicate PassInputs(inputs: seq<Input>, bufferText: string, committed: seq<TranscriptChunk>,
                             worlds: nat -> World) {
    |inputs| <= |committed| && forall k :: 0 <= k < |inputs| ==>
      PassInput(inputs[k], bufferText, committed[k], worlds(k))
  }

  lemma {:induction false} RunNext(s: Rolling, inputs: seq<Input>, i: Input, env: Env, st: ControllerSettings)
    requires ValidRolling(s, env, st)
    ensures var before := Run(s, inputs, env, st); var (state, outcome) := Pass(before.state, i, env, st);
      Run(s, inputs + [i], env, st) == History(state, before.outcomes + [outcome])
  {
    assert (inputs + [i])[..|inputs|] == inputs;
  }

  /** The frame's passes come behind what happened before, each in the world it was given. */
  ghost predicate Adds(hs: seq<Happening>, hs': seq<Happening>, inputs: seq<Input>, outcomes: seq<Outcome>,
                       worlds: nat -> World)
  {
    && hs <= hs' && Inputs(hs') == Inputs(hs) + inputs && Outcomes(hs') == Outcomes(hs) + outcomes
    && forall k :: |hs| <= k < |hs'| && hs'[k].Processed? ==> exists n: nat :: hs'[k].world == worlds(n)
  }

  lemma {:induction false} AddsOneMore(hs: seq<Happening>, hs': seq<Happening>, inputs: seq<Input>,
                                       outcomes: seq<Outcome>, worlds: nat -> World, h: Happening, n: nat)
    requires Adds(hs, hs', inputs, outcomes, worlds) && h.Processed? && h.world == worlds(n)
    ensures Adds(hs, hs' + [h], inputs + [h.input], outcomes + [h.outcome], worlds)
  {
    assert (hs' + [h])[..|hs'|] == hs';
  }

  lemma {:induction false} AddsNothing(hs: seq<Happening>, hs': seq<Happening>, worlds: nat -> World)
    requires hs' == hs || hs' == hs + [StreamFault]
    ensures Adds(hs, hs', [], [], worlds)
  {
    assert (hs + [StreamFault])[..|hs|] == hs;
  }

  /** The run so far, from the state s on, has led to this state with these outcomes. */
  ghost predicate HasRun(s: Rolling, inputs: seq<Input>, rolling: Rolling, outcomes: seq<Outcome>, st: Setting) {
    && ValidRolling(s, st.env, st.controller) && ValidRolling(rolling, st.env, st.controller)
    && History(rolling, outcomes) == Run(s, inputs, st.env, st.controller)
  }

  lemma {:induction false} HasRunOnce(s: Rolling, st: Setting)
    requires ValidRolling(s, st.env, st.controller)
    ensures HasRun(s, [], s, [], st)
  {
  }

  lemma {:induction false} HasRunOn(s: Rolling, inputs: seq<Input>, before: Rolling, outcomes: seq<Outcome>, i: Input,
                                    after: Rolling, o: Outcome, st: Setting)
    requires HasRun(s, inputs, before, outcomes, st) && (after, o) == Pass(before, i, st.env, st.controller)
    ensures HasRun(s, inputs + [i], after, outcomes + [o], st)
  {
    PassKeepsValid(before, i, st.env, st.controller);
    RunNext(s, inputs, i, st.env, st.controller);
  }

  /** The pass over one committed chunk, as part of the run and of the session's happenings. */
  method PassOver(session: SessionRecord, chunk: TranscriptChunk, w: World, st: Setting, ghost s: Rolling,
                  ghost inputs: seq<Input>, ghost outcomes: seq<Outcome>, ghost hs: seq<Happening>)
    returns (ghost h: Happening)
    requires HasRun(s, inputs, session.RollingState(), outcomes, st) && MarksAreSolid(st.reader.space)
    requires Mirrors(session.eventLog, session.answerVersions) && Records(session, hs, st)
    modifies session
    ensures session.Buffering() == old(session.Buffering())
    ensures h.Processed? && h.world == w && PassInput(h.input, session.BufferText(), chunk, w)
    ensures HasRun(s, inputs + [h.input], session.RollingState(), outcomes + [h.outcome], st)
    ensures Mirrors(session.eventLog, session.answerVersions) && Records(session, hs + [h], st)
  {
    var i := Input(session.BufferText(), chunk, session.answerVersions != [], w.fault, w.pipeline);
    ghost var before, versions, log := session.RollingState(), session.answerVersions, session.eventLog;
    var o; ghost var t;
    o, t := ProcessChunk(session, i, w, st);
    h := Processed(i, w, o, t);
    PassIsRecorded(hs, i, w, o, t, versions, log, st);
    HasRunOn(s, inputs, before, outcomes, i, session.RollingState(), o, st);
  }

  /** The loop over the chunks the frame has committed. */
  method ProcessCommitted(session: SessionRecord, committed: seq<TranscriptChunk>, worlds: nat -> World, st: Setting,
                          ghost hs: seq<Happening>)
    returns (ghost inputs: seq<Input>, ghost outcomes: seq<Outcome>, ghost hs': seq<Happening>)
    requires ValidRolling(session.RollingState(), st.env, st.controller) && MarksAreSolid(st.reader.space)
    requires Mirrors(session.eventLog, session.answerVersions) && Records(session, hs, st)
    modifies session
    ensures session.Buffering() == old(session.Buffering())
    ensures |inputs| == |committed| && PassInputs(inputs, session.BufferText(), committed, worlds)
    ensures HasRun(old(session.RollingState()), inputs, session.RollingState(), outcomes, st)
    ensures Records(session, hs', st) && Adds(hs, hs', inputs, outcomes, worlds)
    ensures Mirrors(session.eventLog, session.answerVersions)
  {
    inputs, outcomes, hs' := [], [], hs;
    AddsNothing(hs, hs, worlds);
    HasRunOnce(session.RollingState(), st);
    for k := 0 to |committed|
      invariant |inputs| == k && session.Buffering() == old(session.Buffering())
      invariant PassInputs(inputs, session.BufferText(), committed, worlds)
      invariant HasRun(old(session.RollingState()), inputs, session.RollingState(), outcomes, st)
      invariant Records(session, hs', st) && Adds(hs, hs', inputs, outcomes, worlds)
      invariant Mirrors(session.eventLog, session.answerVersions)
    {
      ghost var h := PassOver(session, committed[k], worlds(k), st, old(session.RollingState()), inputs, outcomes, hs');
      AddsOneMore(hs, hs', inputs, outcomes, worlds, h, k);
      inputs, outcomes, hs' := inputs + [h.input], outcomes + [h.outcome], hs' + [h];
    }
  }

  /** The error event of a frame that could not be read or forced a gap. */
  method EmitFault(session: SessionRecord, st: Setting, ghost hs: seq<Happening>)
    requires Mirrors(session.eventLog, session.answerVersions) && Records(session, hs, st)
    modifies session`eventLog
    ensures Mirrors(session.eventLog, session.answerVersions) && Records(session, hs + [StreamFault], st)
  {
    FaultIsRecorded(hs, session.answerVersions, session.eventLog, st);
    EmitAside(session, ErrorEvent("stream"));
  }

  /** Ingestion, with the error event of a forced flush. */
  method IngestFrame(session: SessionRecord, chunk: TranscriptChunk, st: Setting, ghost hs: seq<Happening>)
    returns (committed: seq<TranscriptChunk>, ghost hs': seq<Happening>)
    requires Mirrors(session.eventLog, session.answerVersions) && Records(session, hs, st)
    modifies session`buffer, session`pending, session`nextSeq, session`gapOpenedAtMs, session`eventLog
    ensures Mirrors(session.eventLog, session.answerVersions) && Records(session, hs', st)
    ensures var r := Ingest(old(session.Buffering()), chunk, st.reorderWindowMs);
      session.Buffering() == r.state && committed == r.committed && hs' == if r.sequenceGap then hs + [StreamFault]
        else hs
  {
    var sequenceGap;
    committed, sequenceGap := session.IngestChunk(chunk, st.reorderWindowMs);
    hs' := hs;
    if sequenceGap {
      EmitFault(session, st, hs);
      hs' := hs + [StreamFault];
    }
  }

  /** Ingestion keeps the buffer well formed and the controller's part as it is. */
  method TakeIn(session: SessionRecord, chunk: TranscriptChunk, st: Setting, ghost hs: seq<Happening>)
    returns (committed: seq<TranscriptChunk>, ghost hs': seq<Happening>)
    requires WellFormed(session.Buffering(), st.reorderWindowMs)
    requires Mirrors(session.eventLog, session.answerVersions) && Records(session, hs, st)
    modifies session`buffer, session`pending, session`nextSeq, session`gapOpenedAtMs, session`eventLog
    ensures WellFormed(session.Buffering(), st.reorderWindowMs) && (hs' == hs || hs' == hs + [StreamFault])
    ensures Mirrors(session.eventLog, session.answerVersions) && Records(session, hs', st)
    ensures session.RollingState() == old(session.RollingState())
    ensures session.Buffering() == Ingest(old(session.Buffering()), chunk, st.reorderWindowMs).state
    ensures committed == Ingest(old(session.Buffering()), chunk, st.reorderWindowMs).committed
  {
    ghost var before := session.Buffering();
    committed, hs' := IngestFrame(session, chunk, st, hs);
    StillWellFormed(before, session.Buffering(), chunk, st.reorderWindowMs);
  }

  lemma {:induction false} StillWellFormed(before: Buffered, after: Buffered, chunk: TranscriptChunk, windowMs: nat)
    requires WellFormed(before, windowMs) && after == Ingest(before, chunk, windowMs).state
    ensures WellFormed(after, windowMs)
  {
    IngestKeepsWellFormed(before, chunk, windowMs);
  }

  /** A readable frame: every chunk it releases gets its pass over the one transcript they are all part of. */
  method HandleChunk(session: SessionRecord, chunk: TranscriptChunk, worlds: nat -> World, st: Setting,
                     ghost hs: seq<Happening>)
    returns (ghost inputs: seq<Input>, ghost outcomes: seq<Outcome>, ghost hs': seq<Happening>)
    requires SessionValid(session, st) && Records(session, hs, st) && MarksAreSolid(st.reader.space)
    modifies session
    ensures SessionValid(session, st) && Records(session, hs', st) && Adds(hs, hs', inputs, outcomes, worlds)
    ensures var r := Ingest(old(session.Buffering()), chunk, st.reorderWindowMs);
      session.Buffering() == r.state && |inputs| == |r.committed|
        && PassInputs(inputs, session.BufferText(), r.committed, worlds)
    ensures HasRun(old(session.RollingState()), inputs, session.RollingState(), outcomes, st)
  {
    var committed; ghost var hs0;
    committed, hs0 := TakeIn(session, chunk, st, hs);
    inputs, outcomes, hs' := ProcessCommitted(session, committed, worlds, st, hs0);
    AddsBehindAFault(hs, hs0, hs', inputs, outcomes, worlds);
  }

  lemma {:induction false} AddsBehindAFault(hs: seq<Happening>, hs0: seq<Happening>, hs': seq<Happening>,
                                            inputs: seq<Input>, outcomes: seq<Outcome>, worlds: nat -> World)
    requires (hs0 == hs || hs0 == hs + [StreamFault]) && Adds(hs0, hs', inputs, outcomes, worlds)
    ensures Adds(hs, hs', inputs, outcomes, worlds)
  {
    AddsNothing(hs, hs0, worlds);
    AddsTogether(hs, hs0, hs', inputs, outcomes, worlds);
  }

  lemma {:induction false} AddsTogether(hs: seq<Happening>, hs0: seq<Happening>, hs': seq<Happening>,
                                        inputs: seq<Input>, outcomes: seq<Outcome>, worlds: nat -> World)
    requires Adds(hs, hs0, [], [], worlds) && Adds(hs0, hs', inputs, outcomes, worlds)
    ensures Adds(hs, hs', inputs, outcomes, worlds)
  {
    assert Inputs(hs) + [] == Inputs(hs) && Outcomes(hs) + [] == Outcomes(hs);
    assert forall k :: |hs| <= k < |hs0| ==> hs'[k] == hs0[k];
  }

  /**
    * One frame. An unreadable one leaves an error event and nothing else; any other causes at most one unforced
    * retrieval.
    */
  method HandleFrame(session: SessionRecord, frame: Option<TranscriptChunk>, worlds: nat -> World, st: Setting,
                     ghost hs: seq<Happening>)
    returns (ghost inputs: seq<Input>, ghost outcomes: seq<Outcome>, ghost hs': seq<Happening>)
    requires SessionValid(session, st) && Records(session, hs, st) && MarksAreSolid(st.reader.space)
    modifies session
    ensures SessionValid(session, st) && Records(session, hs', st) && Adds(hs, hs', inputs, outcomes, worlds)
    ensures frame.None? ==>
      session.Buffering() == old(session.Buffering()) && session.RollingState() == old(session.RollingState())
      && hs' == hs + [StreamFault] && inputs == [] && outcomes == []
    ensures frame.Some? ==>
      var r := Ingest(old(session.Buffering()), frame.value, st.reorderWindowMs);
      session.Buffering() == r.state && |inputs| == |r.committed|
        && PassInputs(inputs, session.BufferText(), r.committed, worlds)
      && HasRun(old(session.RollingState()), inputs, session.RollingState(), outcomes, st)
    ensures Count(outcomes, Unforced) <= if frame.Some? then 1 else 0
  {
    inputs, outcomes := [], [];
    match frame
    case None =>
      EmitFault(session, st, hs);
      hs' := hs + [StreamFault];
      AddsNothing(hs, hs', worlds);
    case Some(chunk) =>
      ghost var rolling := session.RollingState();
      inputs, outcomes, hs' := HandleChunk(session, chunk, worlds, st, hs);
      AtMostOneUnforcedPerFrame(rolling, inputs, session.BufferText(), st.env, st.controller);
  }

  // ----- Falling back on the previous turn's evidence -----

  /** A refinement whose retrieval yields no evidence hands on the previous turn's, with this turn's retrievals. */
  ghost predicate FallsBack(s: Rolling, i: Input, env: Env, st: ControllerSettings)
    requires ValidRolling(s, env, st)
  {
    i.pipeline.Found? && i.pipeline.evidence == [] && Attempt(Pass(s, i, env, st).1) == Some(Delta)
  }

  /**
    * The evidence handed on can be cited exactly as far as this turn retrieved its chunks anew. When it retrieved none
    * of them there is nothing to cite, and every sentence of the answer becomes an uncertainty statement.
    */
  lemma {:induction false} FallbackEvidenceNeedsANewHit(s: Rolling, i: Input, env: Env, st: ControllerSettings,
                                                        t: Turn, split: Split, fails: bool)
    requires ValidRolling(s, env, st) && FallsBack(s, i, env, st)
    requires IsLookup(t.lookup, s.lastEvidence, ChunksById(i.pipeline.retrievals))
    ensures Pass(s, i, env, st).1 == Retrieved(Delta, i.pipeline.subQueries, i.pipeline.retrievals, s.lastEvidence)
    ensures t.lookup == map[] <==>
      forall k :: 0 <= k < |s.lastEvidence| ==> !Citable(s.lastEvidence[k], ChunksById(i.pipeline.retrievals))
    ensures (forall k :: 0 <= k < |s.lastEvidence| ==>
      !Citable(s.lastEvidence[k], ChunksById(i.pipeline.retrievals))) ==>
      AllUncertain(AnswerOf(t, split, fails))
  {
    FallbackIsHandedOn(s, i, env, st);
    NothingToCiteExactlyWithoutCitableRows(t.lookup, s.lastEvidence, ChunksById(i.pipeline.retrievals));
    if t.lookup == map[] {
      NothingToCiteNothingClaimed(t, split, fails);
    }
  }

  /** Everything that is said is one new entity, and every later text refers back to the topic. */
  function Talkative(embedder: Embedder): Env {
    Env((text: string) => map["said" := text], (text: string) => false, (text: string) => true, embedder)
  }

  function Said(seqNo: nat, text: string): TranscriptChunk { TranscriptChunk(seqNo, text, 0, true) }

  /** A first chunk that retrieves this row, and a second one whose retrieval comes back empty. */
  function FindsIt(sq: SubQuery, chunk: RetrievedChunk, row: Row): Input {
    Input("a", Said(0, "a"), false, NoFault, Found(0, [sq], [RetrievalResult(sq.subQueryId, [chunk], [])], [row]))
  }

  function FindsNothing(sq: SubQuery): Input {
    Input("ab", Said(1, "b"), true, NoFault, Found(0, [sq], [RetrievalResult(sq.subQueryId, [], [])], []))
  }

  lemma {:induction false} FirstChunkFindsIt(sq: SubQuery, chunk: RetrievedChunk, row: Row, embedder: Embedder,
                                             st: ControllerSettings)
    requires embedder.Valid() && st.stabilityWindow >= 2
    ensures var (s, o) := Pass(FRESH, FindsIt(sq, chunk, row), Talkative(embedder), st);
      && s.entities == map["said" := "a"] && s.hasRetrievedForTopic && s.lastEvidence == [row]
      && s.topicEmbedding == Some(embedder.embed("a")) && Attempt(o) == Some(Final)
  {
    var delta := EntityDiff(map["said" := "a"], map[]);
    assert "said" in delta;
    assert FRESH.entities + map["said" := "a"] == map["said" := "a"];
  }

  lemma {:induction false} SecondChunkFallsBack(s: Rolling, sq: SubQuery, embedder: Embedder, st: ControllerSettings)
    requires ValidRolling(s, Talkative(embedder), st) && s.entities == map["said" := "a"] && s.hasRetrievedForTopic
    requires s.topicEmbedding.Some?
    ensures FallsBack(s, FindsNothing(sq), Talkative(embedder), st)
  {
    assert "a" != "ab";
    assert "said" in EntityDiff(map["said" := "ab"], s.entities);
  }

  function FoundNothing(sq: SubQuery, row: Row): Outcome {
    Retrieved(Delta, [sq], FindsNothing(sq).pipeline.retrievals, [row])
  }

  lemma {:induction false} SecondOutcome(sq: SubQuery, chunk: RetrievedChunk, row: Row, embedder: Embedder,
                                         st: ControllerSettings)
    requires ValidRolling(FRESH, Talkative(embedder), st)
    ensures Run(FRESH, [FindsIt(sq, chunk, row), FindsNothing(sq)], Talkative(embedder), st).outcomes[1] ==
      FoundNothing(sq, row)
  {
    var first, second, env := FindsIt(sq, chunk, row), FindsNothing(sq), Talkative(embedder);
    var s := Pass(FRESH, first, env, st).0;
    PassKeepsValid(FRESH, first, env, st);
    RunOfOne(FRESH, first, env, st);
    assert [first, second][..1] == [first];
    OutcomeAt(FRESH, [first, second], 1, env, st);
    FirstChunkFindsIt(sq, chunk, row, embedder, st);
    SecondChunkFallsBack(s, sq, embedder, st);
    FallbackIsHandedOn(s, second, env, st);
  }

  lemma {:induction false} NothingToCiteIsAnswered(sq: SubQuery, row: Row, st: Setting, w: World, t: Turn,
                                                   versions: seq<AnswerVersion>)
    requires MarksAreSolid(st.reader.space) && Visible(Concat(w.llm.tokens), st.reader.space) != ""
    requires Answering(FoundNothing(sq, row), st) && TurnFits(FoundNothing(sq, row), w, t, versions, st)
    ensures t.lookup == map[] && AnswerIn(w, t, st).texts != [] && AllUncertain(AnswerIn(w, t, st))
  {
    NothingIsRecorded(sq);
    NothingToCiteExactlyWithoutCitableRows(t.lookup, [row], map[]);
    AnswerExactlyWhenVisible(t, w.llm.tokens, w.llm.fails);
    NothingToCiteNothingClaimed(t, OneShot(Concat(w.llm.tokens), st.reader.space), w.llm.fails);
  }

  /**
    * Such a run from a fresh session: the second turn answers from the first turn's row, which nothing in it retrieved.
    * Whatever the model streams, its answer is not empty and consists of uncertainty statements only.
    */
  lemma {:induction false} AFallbackCanLeaveNothingToCite(sq: SubQuery, chunk: RetrievedChunk, row: Row,
                                                          embedder: Embedder, st: Setting, w: World, t: Turn,
                                                          versions: seq<AnswerVersion>)
    requires st.env == Talkative(embedder) && ValidRolling(FRESH, st.env, st.controller)
      && MarksAreSolid(st.reader.space)
    requires row.duplicateOf.None? && row.Score() >= st.minRelevance
    requires Visible(Concat(w.llm.tokens), st.reader.space) != ""
    ensures var o := Run(FRESH, [FindsIt(sq, chunk, row), FindsNothing(sq)], st.env, st.controller).outcomes[1];
      && o == FoundNothing(sq, row) && Answering(o, st)
      && (TurnFits(o, w, t, versions, st) ==>
        t.lookup == map[] && AnswerIn(w, t, st).texts != [] && AllUncertain(AnswerIn(w, t, st)))
  {
    SecondOutcome(sq, chunk, row, embedder, st.controller);
    TopOfOne(row);
    if TurnFits(FoundNothing(sq, row), w, t, versions, st) {
      NothingToCiteIsAnswered(sq, row, st, w, t, versions);
    }
  }

  lemma {:induction false} TopOfOne(row: Row)
    requires row.duplicateOf.None?
    ensures AnyActive([row]) && Top([row]) == row.Score()
  {
    assert [row][0].duplicateOf.None? && !AnyActive([row][..0]);
  }

  lemma {:induction false} FallbackIsHandedOn(s: Rolling, i: Input, env: Env, st: ControllerSettings)
    requires ValidRolling(s, env, st) && FallsBack(s, i, env, st)
    ensures Pass(s, i, env, st).1 == Retrieved(Delta, i.pipeline.subQueries, i.pipeline.retrievals, s.lastEvidence)
  {
  }

  lemma {:induction false} NothingIsRecorded(sq: SubQuery)
    ensures ChunksById(FindsNothing(sq).pipeline.retrievals) == map[]
  {
    var retrievals := FindsNothing(sq).pipeline.retrievals;
    assert retrievals[..0] == [] && retrievals[0].dense + retrievals[0].sparse == [];
  }

  // ----- A whole session -----

  /** The chunks of the frames that could be read. */
  function Readable(frames: seq<Option<TranscriptChunk>>): seq<TranscriptChunk> {
    if frames == [] then []
    else
      var before, last := Readable(frames[..|frames| - 1]), frames[|frames| - 1];
      if last.Some? then before + [last.value] else before
  }

  /** The next arrival: its state is the ingested one, and the transcript grows by what it commits. */
  lemma {:induction false} DeliverNext(arrivals: seq<TranscriptChunk>, chunk: TranscriptChunk, windowMs: nat)
    ensures var r := Ingest(Deliver(arrivals, windowMs).state, chunk, windowMs);
      Deliver(arrivals + [chunk], windowMs).state == r.state
      && r.state.buffer == Deliver(arrivals, windowMs).state.buffer + r.committed
  {
    assert (arrivals + [chunk])[..|arrivals|] == arrivals;
    EveryRunIsWellFormed(arrivals, windowMs);
    IngestKeepsWellFormed(Deliver(arrivals, windowMs).state, chunk, windowMs);
  }

  /** The transcript as a number of arrivals have left it. */
  function TranscriptOf(arrivals: seq<TranscriptChunk>, windowMs: nat): seq<TranscriptChunk> {
    Deliver(arrivals, windowMs).state.buffer
  }

  /** Pass k is over chunk k of the transcript, and sees the transcript as the frame that committed it left it. */
  ghost predicate PassesOver(inputs: seq<Input>, arrivals: seq<TranscriptChunk>, windowMs: nat) {
    var transcript := TranscriptOf(arrivals, windowMs);
    |inputs| == |transcript| && forall k :: 0 <= k < |inputs| ==>
      inputs[k].chunk == transcript[k] && SawItsFrame(inputs[k], k, arrivals, windowMs)
  }

  ghost predicate SawItsFrame(i: Input, k: nat, arrivals: seq<TranscriptChunk>, windowMs: nat) {
    exists n :: 0 <= n < |arrivals| && SeenAfter(i, k, arrivals[..n], arrivals[n], windowMs)
  }

  /** This arrival behind the earlier ones committed chunk k, and the pass saw the transcript it left. */
  ghost predicate SeenAfter(i: Input, k: nat, earlier: seq<TranscriptChunk>, arrival: TranscriptChunk,
                            windowMs: nat) {
    var before, after := TranscriptOf(earlier, windowMs), TranscriptOf(earlier + [arrival], windowMs);
    |before| <= k < |after| && i.bufferText == TextOf(after)
  }

  lemma {:induction false} StillSawItsFrame(i: Input, k: nat, arrivals: seq<TranscriptChunk>, next: TranscriptChunk,
                                            windowMs: nat)
    requires SawItsFrame(i, k, arrivals, windowMs)
    ensures SawItsFrame(i, k, arrivals + [next], windowMs)
  {
    var n :| 0 <= n < |arrivals| && SeenAfter(i, k, arrivals[..n], arrivals[n], windowMs);
    var more := arrivals + [next];
    assert more[..n] == arrivals[..n] && more[n] == arrivals[n];
  }

  lemma {:induction false} SawTheLastFrame(i: Input, k: nat, arrivals: seq<TranscriptChunk>, next: TranscriptChunk,
                                           windowMs: nat)
    requires SeenAfter(i, k, arrivals, next, windowMs)
    ensures SawItsFrame(i, k, arrivals + [next], windowMs)
  {
    var more := arrivals + [next];
    assert more[..|arrivals|] == arrivals && more[|arrivals|] == next;
  }

  lemma {:induction false} PassesOverMore(inputs: seq<Input>, arrivals: seq<TranscriptChunk>, next: TranscriptChunk,
                                          more: seq<Input>, committed: seq<TranscriptChunk>, worlds: nat -> World,
                                          windowMs: nat)
    requires PassesOver(inputs, arrivals, windowMs) && |more| == |committed|
    requires TranscriptOf(arrivals + [next], windowMs) == TranscriptOf(arrivals, windowMs) + committed
    requires PassInputs(more, TextOf(TranscriptOf(arrivals + [next], windowMs)), committed, worlds)
    ensures PassesOver(inputs + more, arrivals + [next], windowMs)
  {
    var all, after := inputs + more, TranscriptOf(arrivals + [next], windowMs);
    forall k | 0 <= k < |all|
      ensures all[k].chunk == after[k] && SawItsFrame(all[k], k, arrivals + [next], windowMs)
    {
      if k < |inputs| {
        StillSawItsFrame(inputs[k], k, arrivals, next, windowMs);
      } else {
        assert PassInput(more[k - |inputs|], TextOf(after), committed[k - |inputs|], worlds(k - |inputs|));
        SawTheLastFrame(all[k], k, arrivals, next, windowMs);
      }
    }
  }

  /** Every pass ran in one of the worlds given for its frame. */
  ghost predicate FromWorlds(hs: seq<Happening>, worlds: (nat, nat) -> World, frames: nat) {
    forall k :: 0 <= k < |hs| && hs[k].Processed? ==> InSomeWorld(hs[k].world, worlds, frames)
  }

  ghost predicate InSomeWorld(w: World, worlds: (nat, nat) -> World, frames: nat) {
    exists n: nat, k: nat :: n < frames && w == worlds(n, k)
  }

  lemma {:induction false} FromMoreWorlds(hs: seq<Happening>, hs': seq<Happening>, inputs: seq<Input>,
                                          outcomes: seq<Outcome>, worlds: (nat, nat) -> World, n: nat)
    requires FromWorlds(hs, worlds, n) && Adds(hs, hs', inputs, outcomes, (k: nat) => worlds(n, k))
    ensures FromWorlds(hs', worlds, n + 1)
  {
    forall k | 0 <= k < |hs'| && hs'[k].Processed? ensures InSomeWorld(hs'[k].world, worlds, n + 1) {
      if k < |hs| {
        assert InSomeWorld(hs[k].world, worlds, n) && hs'[k] == hs[k];
      } else {
        var j: nat :| hs'[k].world == worlds(n, j);
      }
    }
  }

  /**
    * What frames served one after the other from a new session come to. The transcript is that of the readable
    * arrivals; every chunk of it had its pass, in order, and the controller's state is that of this one run; versions
    * and log are those of the passes and their answers, and the page mirrors them; and there are no more unforced
    * retrievals than readable frames.
    */
  ghost predicate Served(session: SessionRecord, hs: seq<Happening>, frames: seq<Option<TranscriptChunk>>,
                         worlds: (nat, nat) -> World, st: Setting)
    requires ValidRolling(FRESH, st.env, st.controller)
    reads session
  {
    SessionValid(session, st) && Records(session, hs, st)
      && CameTo(session.Buffering(), session.RollingState(), hs, frames, worlds, st)
  }

  ghost predicate CameTo(buffering: Buffered, rolling: Rolling, hs: seq<Happening>,
                         frames: seq<Option<TranscriptChunk>>, worlds: (nat, nat) -> World, st: Setting)
    requires ValidRolling(FRESH, st.env, st.controller)
  {
    && buffering == Deliver(Readable(frames), st.reorderWindowMs).state
    && PassesOver(Inputs(hs), Readable(frames), st.reorderWindowMs) && FromWorlds(hs, worlds, |frames|)
    && History(rolling, Outcomes(hs)) == Run(FRESH, Inputs(hs), st.env, st.controller)
    && Count(Outcomes(hs), Unforced) <= |Readable(frames)|
  }

  method OpenSession(ghost worlds: (nat, nat) -> World, st: Setting) returns (session: SessionRecord)
    requires ValidRolling(FRESH, st.env, st.controller)
    ensures fresh(session) && Served(session, [], [], worlds, st)
  {
    session := NewSession(st);
    NothingServed(session, worlds, st);
  }

  method ServeAll(session: SessionRecord, frames: seq<Option<TranscriptChunk>>, worlds: (nat, nat) -> World,
                  st: Setting)
    returns (ghost hs: seq<Happening>)
    requires ValidRolling(FRESH, st.env, st.controller) && MarksAreSolid(st.reader.space)
    requires Served(session, [], [], worlds, st)
    modifies session
    ensures Served(session, hs, frames, worlds, st)
  {
    hs := [];
    for n := 0 to |frames|
      invariant Served(session, hs, frames[..n], worlds, st)
    {
      NextPrefix(frames, n);
      hs := ServeOne(session, frames[..n], frames[n], n, worlds, st, hs);
    }
    WholePrefix(frames);
  }

  /**
    * Every session comes to that, every version in it is the safe answer of one of its turns, and unstable waits are
    * bounded.
    */
  method Serve(frames: seq<Option<TranscriptChunk>>, worlds: (nat, nat) -> World, st: Setting)
    returns (session: SessionRecord, ghost hs: seq<Happening>)
    requires ValidRolling(FRESH, st.env, st.controller) && MarksAreSolid(st.reader.space)
    ensures fresh(session) && Served(session, hs, frames, worlds, st)
    ensures AllSafe(session.answerVersions, hs, st) && Patient(Outcomes(hs), st.controller.maxWaitChunks)
  {
    session := OpenSession(worlds, st);
    hs := ServeAll(session, frames, worlds, st);
    ServedIsSafe(session, hs, frames, worlds, st);
  }

  lemma {:induction false} NothingServed(session: SessionRecord, worlds: (nat, nat) -> World, st: Setting)
    requires ValidRolling(FRESH, st.env, st.controller) && SessionValid(session, st) && Records(session, [], st)
    requires session.Buffering() == EMPTY && session.RollingState() == FRESH
    ensures Served(session, [], [], worlds, st)
  {
  }

  lemma {:induction false} ServedIsSafe(session: SessionRecord, hs: seq<Happening>,
                                        frames: seq<Option<TranscriptChunk>>, worlds: (nat, nat) -> World, st: Setting)
    requires ValidRolling(FRESH, st.env, st.controller) && Served(session, hs, frames, worlds, st)
    ensures AllSafe(session.answerVersions, hs, st) && Patient(Outcomes(hs), st.controller.maxWaitChunks)
  {
    AllVersionsAreSafe(hs, st);
    UnstableWaitsAreBounded(Inputs(hs), st.env, st.controller);
  }

  lemma {:induction false} ReadableNext(frames: seq<Option<TranscriptChunk>>, frame: Option<TranscriptChunk>)
    ensures Readable(frames + [frame]) == Readable(frames) + if frame.Some? then [frame.value] else []
  {
    assert (frames + [frame])[..|frames|] == frames;
  }

  /** What one readable frame more comes to. */
  lemma {:induction false} OneFrameMore(before: Buffered, rolling: Rolling, after: Buffered, rolling': Rolling,
                                        hs: seq<Happening>, hs': seq<Happening>, more: seq<Input>,
                                        their: seq<Outcome>, frames: seq<Option<TranscriptChunk>>,
                                        next: TranscriptChunk, worlds: (nat, nat) -> World, st: Setting)
    requires ValidRolling(FRESH, st.env, st.controller) && CameTo(before, rolling, hs, frames, worlds, st)
    requires Adds(hs, hs', more, their, (k: nat) => worlds(|frames|, k)) && Count(their, Unforced) <= 1
    requires var r := Ingest(before, next, st.reorderWindowMs);
      after == r.state && |more| == |r.committed|
      && PassInputs(more, TextOf(after.buffer), r.committed, (k: nat) => worlds(|frames|, k))
    requires HasRun(rolling, more, rolling', their, st)
    ensures CameTo(after, rolling', hs', frames + [Some(next)], worlds, st)
  {
    FromMoreWorlds(hs, hs', more, their, worlds, |frames|);
    CountOfConcat(Outcomes(hs), their, Unforced);
    ReadableNext(frames, Some(next));
    DeliverNext(Readable(frames), next, st.reorderWindowMs);
    RunsCompose(FRESH, Inputs(hs), more, st.env, st.controller);
    PassesOverMore(Inputs(hs), Readable(frames), next, more, Ingest(before, next, st.reorderWindowMs).committed,
      (k: nat) => worlds(|frames|, k), st.reorderWindowMs);
  }

  lemma {:induction false} UnreadableFrameMore(buffering: Buffered, rolling: Rolling, hs: seq<Happening>,
                                               frames: seq<Option<TranscriptChunk>>, worlds: (nat, nat) -> World,
                                               st: Setting)
    requires ValidRolling(FRESH, st.env, st.controller) && CameTo(buffering, rolling, hs, frames, worlds, st)
    ensures CameTo(buffering, rolling, hs + [StreamFault], frames + [None], worlds, st)
  {
    AddsNothing(hs, hs + [StreamFault], (k: nat) => worlds(|frames|, k));
    FromMoreWorlds(hs, hs + [StreamFault], [], [], worlds, |frames|);
    ReadableNext(frames, None);
    assert Readable(frames) + [] == Readable(frames);
    assert Inputs(hs) + [] == Inputs(hs) && Outcomes(hs) + [] == Outcomes(hs);
  }

  /** The next frame of a session. */
  method ServeOne(session: SessionRecord, ghost frames: seq<Option<TranscriptChunk>>, frame: Option<TranscriptChunk>,
                  n: nat, worlds: (nat, nat) -> World, st: Setting, ghost hs: seq<Happening>)
    returns (ghost hs': seq<Happening>)
    requires n == |frames| && ValidRolling(FRESH, st.env, st.controller) && MarksAreSolid(st.reader.space)
    requires Served(session, hs, frames, worlds, st)
    modifies session
    ensures Served(session, hs', frames + [frame], worlds, st)
  {
    ghost var before, rolling := session.Buffering(), session.RollingState();
    ghost var more, their;
    more, their, hs' := HandleFrame(session, frame, (k: nat) => worlds(n, k), st, hs);
    if frame.Some? {
      OneFrameMore(before, rolling, session.Buffering(), session.RollingState(), hs, hs', more, their, frames,
        frame.value, worlds, st);
    } else {
      UnreadableFrameMore(before, rolling, hs, frames, worlds, st);
    }
  }
}
