/** What a whole session amounts to: the happenings of its receive loop, and the versions and log they leave. */
module Trace {
  import opened Options
  import opened EvidenceRows
  import opened Text
  import opened Sentences
  import opened Session
  import opened RankFusion
  import opened Grounding
  import opened Generation
  import opened Controller
  import Finishing

  /** What the outside does while one committed chunk is processed. */
  datatype World = World(fault: Fault, pipeline: Pipeline, llm: Llm, versionId: Id)

  datatype Setting = Setting(env: Env, controller: ControllerSettings, reader: Reader, minRelevance: real,
    reorderWindowMs: nat)

  /**
    * A frame that could not be read or forced a gap, or one committed chunk's pass with the turn that answered it, if
    * any.
    */
  datatype Happening =
    | StreamFault
    | Processed(input: Input, world: World, outcome: Outcome, turn: Turn)

  /** The turn leads to an answer attempt: there is something to ask and enough to ground it in. */
  predicate Answering(o: Outcome, st: Setting) {
    o.Retrieved? && o.subQueries != [] && !Insufficient(o.evidence, st.minRelevance)
  }

  /** What the turn's stream amounts to. */
  function AnswerIn(w: World, t: Turn, st: Setting): Answered {
    AnswerOf(t, OneShot(Concat(w.llm.tokens), st.reader.space), w.llm.fails)
  }

  /** The version a pass leads to, if any. */
  function NewVersion(o: Outcome, w: World, t: Turn, versions: seq<AnswerVersion>, st: Setting): Option<AnswerVersion> {
    if Answering(o, st) then VersionOf(t, AnswerIn(w, t, st), versions) else None
  }

  function Extended(versions: seq<AnswerVersion>, v: Option<AnswerVersion>): seq<AnswerVersion> {
    if v.Some? then versions + [v.value] else versions
  }

  /** What follows a pass in the log: an error event, requests for clarification, or the answer's events. */
  function RepliesTo(o: Outcome, w: World, t: Turn, versions: seq<AnswerVersion>, st: Setting): seq<Event> {
    match o
    case Decided(_) => []
    case Raised(_) => [ErrorEvent("controller")]
    case Retrieved(_, subQueries, _, evidence) =>
      if !Answering(o, st) then Clarifications(subQueries)
      else
        var v := NewVersion(o, w, t, versions, st);
        AnswerIn(w, t, st).events + if v.Some? then [AnswerVersionCreated(v.value)] else []
  }

  /** The turn is that of the outcome: its lookup is the one built from its rows, and its number is the next. */
  ghost predicate TurnFits(o: Outcome, w: World, t: Turn, versions: seq<AnswerVersion>, st: Setting) {
    Answering(o, st) ==>
      && IsTurnLookup(t.lookup, o.evidence, ChunksById(o.retrievals))
      && t == Turn(t.lookup, st.reader, w.versionId, NextVersionNo(versions), o.subQueries[0].subQueryId,
        w.llm.complete)
  }

  // ----- Folding the happenings -----

  function Versions(hs: seq<Happening>, st: Setting): seq<AnswerVersion> {
    if hs == [] then []
    else
      var before, h := Versions(hs[..|hs| - 1], st), hs[|hs| - 1];
      match h
      case StreamFault => before
      case Processed(_, w, o, t) => Extended(before, NewVersion(o, w, t, before, st))
  }

  function Log(hs: seq<Happening>, st: Setting): seq<Event> {
    if hs == [] then []
    else
      var before, h := Log(hs[..|hs| - 1], st), hs[|hs| - 1];
      match h
      case StreamFault => before + [ErrorEvent("stream")]
      case Processed(i, w, o, t) => before + EventsOf(o, i.pipeline) + RepliesTo(o, w, t,
        Versions(hs[..|hs| - 1], st), st)
  }

  /** The inputs of the passes, in order, and their outcomes. */
  function Inputs(hs: seq<Happening>): seq<Input> {
    if hs == [] then []
    else
      var before, h := Inputs(hs[..|hs| - 1]), hs[|hs| - 1];
      if h.Processed? then before + [h.input] else before
  }

  function Outcomes(hs: seq<Happening>): seq<Outcome> {
    if hs == [] then []
    else
      var before, h := Outcomes(hs[..|hs| - 1]), hs[|hs| - 1];
      if h.Processed? then before + [h.outcome] else before
  }

  /**
    * A pass sees what the outside does and whether there is an answer already, and its turn is the one for its
    * outcome.
    */
  ghost predicate Fits(h: Happening, versions: seq<AnswerVersion>, st: Setting) {
    h.Processed? ==>
      && h.input.fault == h.world.fault && h.input.pipeline == h.world.pipeline
      && h.input.hasPriorAnswer == (versions != [])
      && TurnFits(h.outcome, h.world, h.turn, versions, st)
  }

  ghost predicate Coherent(hs: seq<Happening>, st: Setting) {
    hs == [] || (Coherent(hs[..|hs| - 1], st) && Fits(hs[|hs| - 1], Versions(hs[..|hs| - 1], st), st))
  }

  /** One happening more. */
  lemma {:induction false} OneMoreHappening(hs: seq<Happening>, h: Happening, st: Setting)
    requires Coherent(hs, st) && Fits(h, Versions(hs, st), st)
    ensures Coherent(hs + [h], st)
    ensures match h
      case StreamFault =>
        Versions(hs + [h], st) == Versions(hs, st) && Log(hs + [h], st) == Log(hs, st) + [ErrorEvent("stream")]
        && Inputs(hs + [h]) == Inputs(hs) && Outcomes(hs + [h]) == Outcomes(hs)
      case Processed(i, w, o, t) =>
        Versions(hs + [h], st) == Extended(Versions(hs, st), NewVersion(o, w, t, Versions(hs, st), st))
        && Log(hs + [h], st) == Log(hs, st) + EventsOf(o, i.pipeline) + RepliesTo(o, w, t, Versions(hs, st), st)
        && Inputs(hs + [h]) == Inputs(hs) + [i] && Outcomes(hs + [h]) == Outcomes(hs) + [o]
  {
    assert (hs + [h])[..|hs|] == hs;
  }

  /** These are the versions and the log of coherent happenings. */
  ghost predicate Recounted(versions: seq<AnswerVersion>, log: seq<Event>, hs: seq<Happening>, st: Setting) {
    versions == Versions(hs, st) && log == Log(hs, st) && Coherent(hs, st)
  }

  lemma {:induction false} PassIsRecorded(hs: seq<Happening>, i: Input, w: World, o: Outcome, t: Turn,
                                          versions: seq<AnswerVersion>, log: seq<Event>, st: Setting)
    requires Recounted(versions, log, hs, st) && TurnFits(o, w, t, versions, st)
    requires i.fault == w.fault && i.pipeline == w.pipeline && i.hasPriorAnswer == (versions != [])
    ensures Recounted(Extended(versions, NewVersion(o, w, t, versions, st)),
      log + EventsOf(o, i.pipeline) + RepliesTo(o, w, t, versions, st),
                     hs + [Processed(i, w, o, t)], st)
  {
    OneMoreHappening(hs, Processed(i, w, o, t), st);
  }

  lemma {:induction false} FaultIsRecorded(hs: seq<Happening>, versions: seq<AnswerVersion>, log: seq<Event>,
                                           st: Setting)
    requires Recounted(versions, log, hs, st)
    ensures Recounted(versions, log + [ErrorEvent("stream")], hs + [StreamFault], st)
  {
    OneMoreHappening(hs, StreamFault, st);
  }

  // ----- Safety over the whole session -----

  /**
    * The version is the answer of this turn: every sentence stands on rows of the turn's evidence or is an uncertainty
    * statement, every citation names a non-duplicate row of the turn's evidence that the turn retrieved, the best of
    * its tag as far as rows and tags can be told apart, and the turn's events tell exactly these sentences and
    * citations.
    */
  ghost predicate IsSafeAnswer(v: AnswerVersion, h: Happening, st: Setting) {
    h.Processed? && Answering(h.outcome, st) &&
    var a, chunks := AnswerIn(h.world, h.turn, st), ChunksById(h.outcome.retrievals);
    && v.answerVersionId == h.world.versionId && v.text == Join(a.texts, " ") && v.citations == a.citations
    && IsTurnLookup(h.turn.lookup, h.outcome.evidence, chunks) && AllMayStand(a, h.turn) && Tells(a, v.versionNo)
    && Finishing.AllStandOrSaySo(a.texts, h.outcome.evidence, chunks, st.reader)
    && AllCiteEvidence(v.citations, v.answerVersionId, st.reader, h.outcome.evidence, chunks)
    && (KeysAreInjective(h.outcome.evidence, chunks) && DistinctIds(h.outcome.evidence) ==>
      AllCiteTheBest(v.citations, h.outcome.evidence, chunks))
  }

  lemma {:induction false} NewVersionIsSafe(h: Happening, versions: seq<AnswerVersion>, st: Setting)
    requires h.Processed? && Fits(h, versions, st) && NewVersion(h.outcome, h.world, h.turn, versions, st).Some?
    ensures IsSafeAnswer(NewVersion(h.outcome, h.world, h.turn, versions, st).value, h, st)
  {
    var split := OneShot(Concat(h.world.llm.tokens), st.reader.space);
    EverySentenceMayStand(h.turn, split, h.world.llm.fails);
    EventsTellTheAnswer(h.turn, split, h.world.llm.fails);
    var evidence, chunks := h.outcome.evidence, ChunksById(h.outcome.retrievals);
    EveryCitationIsEvidence(h.turn, split, h.world.llm.fails, evidence, chunks);
    Finishing.EveryTextStandsOrSaysSo(h.turn, split, h.world.llm.fails, evidence, chunks);
    if KeysAreInjective(evidence, chunks) && DistinctIds(evidence) {
      EveryCitationIsTheBest(h.turn, split, h.world.llm.fails, evidence, chunks);
    }
  }

  ghost predicate SomeTurnIsSafe(v: AnswerVersion, hs: seq<Happening>, st: Setting) {
    exists k :: 0 <= k < |hs| && IsSafeAnswer(v, hs[k], st)
  }

  /** Whatever happens in a session, every answer version in it is the safe answer of one of its turns. */
  lemma {:induction false} EveryVersionIsSafe(hs: seq<Happening>, st: Setting, n: nat)
    requires Coherent(hs, st) && n < |Versions(hs, st)|
    ensures SomeTurnIsSafe(Versions(hs, st)[n], hs, st)
  {
    var k := |hs| - 1;
    var before, h := hs[..k], hs[k];
    var versions := Versions(before, st);
    if n < |versions| {
      EveryVersionIsSafe(before, st, n);
      var j :| 0 <= j < |before| && IsSafeAnswer(versions[n], before[j], st);
      assert hs[j] == before[j];
    } else {
      NewVersionIsSafe(h, versions, st);
      assert IsSafeAnswer(Versions(hs, st)[n], hs[k], st);
    }
  }

  ghost predicate AllSafe(versions: seq<AnswerVersion>, hs: seq<Happening>, st: Setting) {
    forall n :: 0 <= n < |versions| ==> SomeTurnIsSafe(versions[n], hs, st)
  }

  lemma {:induction false} AllVersionsAreSafe(hs: seq<Happening>, st: Setting)
    requires Coherent(hs, st)
    ensures AllSafe(Versions(hs, st), hs, st)
  {
    forall n | 0 <= n < |Versions(hs, st)| ensures SomeTurnIsSafe(Versions(hs, st)[n], hs, st) {
      EveryVersionIsSafe(hs, st, n);
    }
  }

  /** The turn gets as far as asking the model, whose stream holds a visible character. */
  predicate SaysSomething(h: Happening, st: Setting) {
    h.Processed? && Answering(h.outcome, st) && Visible(Concat(h.world.llm.tokens), st.reader.space) != ""
  }

  function TurnsThatSaySomething(hs: seq<Happening>, st: Setting): nat {
    if hs == [] then 0
    else TurnsThatSaySomething(hs[..|hs| - 1], st) + if SaysSomething(hs[|hs| - 1], st) then 1 else 0
  }

  lemma {:induction false} VersionExactlyWhenSomethingIsSaid(h: Happening, versions: seq<AnswerVersion>, st: Setting)
    requires h.Processed? && Fits(h, versions, st) && MarksAreSolid(st.reader.space)
    ensures NewVersion(h.outcome, h.world, h.turn, versions, st).Some? <==> SaysSomething(h, st)
  {
    if Answering(h.outcome, st) {
      AnswerExactlyWhenVisible(h.turn, h.world.llm.tokens, h.world.llm.fails);
    }
  }

  /** Exactly one version per turn that had the model asked and whose stream held a visible character. */
  lemma {:induction false} OneVersionPerAnswer(hs: seq<Happening>, st: Setting)
    requires Coherent(hs, st) && MarksAreSolid(st.reader.space)
    ensures |Versions(hs, st)| == TurnsThatSaySomething(hs, st)
  {
    if hs != [] {
      var before, h := hs[..|hs| - 1], hs[|hs| - 1];
      OneVersionPerAnswer(before, st);
      if h.Processed? { VersionExactlyWhenSomethingIsSaid(h, Versions(before, st), st); }
    }
  }

  // ----- Every failure is logged -----

  /** What went wrong: a frame at fault, a pass that raised, or a stream that broke off. */
  function Failures(hs: seq<Happening>, st: Setting): nat {
    if hs == [] then 0
    else
      var before, h := Failures(hs[..|hs| - 1], st), hs[|hs| - 1];
      if h.StreamFault? || h.outcome.Raised? || (Answering(h.outcome, st) && h.world.llm.fails) then before + 1
      else before
  }

  lemma {:induction false} PassLogsNoError(o: Outcome, p: Pipeline)
    ensures Errors(EventsOf(o, p)) == 0
  {
    NoErrors(EventsOf(o, p));
  }

  lemma {:induction false} RepliesLogFailures(o: Outcome, w: World, t: Turn, versions: seq<AnswerVersion>, st: Setting)
    ensures Errors(RepliesTo(o, w, t, versions, st))
         == if o.Raised? || (Answering(o, st) && w.llm.fails) then 1 else 0
  {
    if o.Raised? {
      assert [ErrorEvent("controller")][..0] == [];
    } else if Answering(o, st) {
      var v := NewVersion(o, w, t, versions, st);
      FailuresAreTold(t, OneShot(Concat(w.llm.tokens), st.reader.space), w.llm.fails);
      ErrorsOfConcat(AnswerIn(w, t, st).events, if v.Some? then [AnswerVersionCreated(v.value)] else []);
      NoErrors(if v.Some? then [AnswerVersionCreated(v.value)] else []);
    } else {
      NoErrors(RepliesTo(o, w, t, versions, st));
    }
  }

  /** The log of a session holds one error event for each failure in it, and no others. */
  lemma {:induction false} EveryFailureIsLogged(hs: seq<Happening>, st: Setting)
    ensures Errors(Log(hs, st)) == Failures(hs, st)
  {
    if hs != [] {
      var before, h := hs[..|hs| - 1], hs[|hs| - 1];
      EveryFailureIsLogged(before, st);
      match h
      case StreamFault =>
        assert (Log(before, st) + [ErrorEvent("stream")])[..|Log(before, st)|] == Log(before, st);
      case Processed(i, w, o, t) =>
        var versions := Versions(before, st);
        PassLogsNoError(o, i.pipeline);
        RepliesLogFailures(o, w, t, versions, st);
        ErrorsOfConcat(Log(before, st), EventsOf(o, i.pipeline));
        ErrorsOfConcat(Log(before, st) + EventsOf(o, i.pipeline), RepliesTo(o, w, t, versions, st));
    }
  }
}
