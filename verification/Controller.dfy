/** One pass of the retrieval controller per committed chunk (retrieval_controller.on_chunk). */
module Controller {
  import opened Options
  import opened EvidenceRows
  import opened Vectors
  import opened ReorderBuffer
  import opened Session
  import opened MultiIntent
  import opened RankFusion

  /** The deterministic parts the controller consults. */
  datatype Env = Env(extract: string -> Entities, presentationOnly: string -> bool, contrastive: string -> bool,
    embedder: Embedder)

  datatype ControllerSettings = ControllerSettings(
    stabilityThreshold: real, stabilityWindow: nat, maxWaitChunks: nat, refinementThreshold: real)

  /** Where a call outside the controller raises before any retrieval is attempted. */
  datatype Fault = NoFault | AtEmbedding | AtExtraction | AtClassification

  /** What decomposition, retrieval and fusion come to, and how many events they emit on the way. */
  datatype Pipeline =
    | Fails(events: nat)
    | Found(events: nat, subQueries: seq<SubQuery>, retrievals: seq<RetrievalResult>, evidence: seq<Row>)

  datatype Outcome =
    | Decided(decision: Decision)
    | Retrieved(trigger: Trigger, subQueries: seq<SubQuery>, retrievals: seq<RetrievalResult>, evidence: seq<Row>)
    | Raised(attempted: Option<Trigger>)

  /** One pass: the transcript so far, the chunk, whether an answer exists, and what the outside does. */
  datatype Input = Input(bufferText: string, chunk: TranscriptChunk, hasPriorAnswer: bool, fault: Fault,
    pipeline: Pipeline)

  // ----- Specification -----

  /** Slots of the new entities that are absent from the old ones or changed. */
  function EntityDiff(new': Entities, old': Entities): (delta: Entities)
    ensures forall k :: k in delta <==> k in new' && !(k in old' && old'[k] == new'[k])
  {
    map k | k in new' && !(k in old' && old'[k] == new'[k]) :: new'[k]
  }

  predicate Suppressed(s: Rolling, i: Input, env: Env) {
    i.hasPriorAnswer && env.presentationOnly(i.bufferText) && EntityDiff(env.extract(i.bufferText), s.entities) == map[]
  }

  datatype Class = Refinement | NewTopic | Ambiguous

  const NEW_TOPIC_THRESHOLD := 0.4

  function Classify(text: string, topic: Vec, env: Env, st: ControllerSettings): Class
    requires |env.embedder.embed(text)| == |topic|
  {
    var sim := Cosine(env.embedder.sqrt, env.embedder.embed(text), topic);
    if sim >= st.refinementThreshold || env.contrastive(text) then Refinement
    else if sim < NEW_TOPIC_THRESHOLD then NewTopic
    else Ambiguous
  }

  /** The state between any two passes. */
  ghost predicate ValidRolling(s: Rolling, env: Env, st: ControllerSettings) {
    && env.embedder.Valid() && st.stabilityWindow >= 2
    && SameDimension(s.embeddingHistory, env.embedder.dim)
    && (s.topicEmbedding.Some? ==> |s.topicEmbedding.value| == env.embedder.dim)
    && s.waitCount <= st.maxWaitChunks
  }

  /** A retrieval that has been decided on: its result becomes the topic's evidence unless the pipeline raises. */
  function Finish(s: Rolling, trigger: Trigger, embedding: Vec, p: Pipeline): (Rolling, Outcome) {
    match p
    case Fails(_) => (s, Raised(Some(trigger)))
    case Found(_, subQueries, retrievals, evidence) =>
      (s.(topicEmbedding := Some(embedding), lastEvidence := evidence),
        Retrieved(trigger, subQueries, retrievals, evidence))
  }

  /** A refinement keeps the previous evidence when the delta finds nothing. */
  function Refine(s: Rolling, embedding: Vec, p: Pipeline): (Rolling, Outcome) {
    Finish(s, Delta, embedding, if p.Found? && p.evidence == [] then p.(evidence := s.lastEvidence) else p)
  }

  /** The stability gate, with its bounded patience. */
  function Gate(s: Rolling, delta: Entities, embedding: Vec, i: Input, env: Env, st: ControllerSettings): (Rolling,
                Outcome)
    requires SameDimension(s.embeddingHistory, env.embedder.dim)
  {
    var stability := Stability(env.embedder.sqrt, s.embeddingHistory, st.stabilityWindow, env.embedder.dim);
    var conclusive := i.chunk.isFinal && |s.embeddingHistory| < st.stabilityWindow;
    if delta == map[] || (stability < st.stabilityThreshold && !conclusive) then
      if s.waitCount + 1 > st.maxWaitChunks then Finish(s.(waitCount := 0), ForcedAfterMaxWait, embedding, i.pipeline)
      else (s.(waitCount := s.waitCount + 1), Decided(Wait(IntentUnstable)))
    else
      Finish(s.(waitCount := 0, hasRetrievedForTopic := true), if i.chunk.isFinal then Final
        else Provisional, embedding, i.pipeline)
  }

  /** What is decided once the entities are known. */
  function Weigh(s: Rolling, delta: Entities, embedding: Vec, i: Input, env: Env, st: ControllerSettings): (Rolling,
                 Outcome)
    requires ValidRolling(s, env, st)
  {
    if delta == map[] && s.hasRetrievedForTopic then (s, Decided(Wait(NoNewEntity)))
    else if s.hasRetrievedForTopic && s.topicEmbedding.Some? then
      if i.fault == AtClassification then (s, Raised(None))
      else
        match Classify(i.chunk.text, s.topicEmbedding.value, env, st)
        case Ambiguous => (s, Decided(NoRetrieval(AmbiguousRefinement)))
        case Refinement => Refine(s, embedding, i.pipeline)
        case NewTopic => Gate(s, delta, embedding, i, env, st)
    else Gate(s, delta, embedding, i, env, st)
  }

  /** on_chunk, as a function of the rolling state. */
  function Pass(s: Rolling, i: Input, env: Env, st: ControllerSettings): (r: (Rolling, Outcome))
    requires ValidRolling(s, env, st)
  {
    var embedding := env.embedder.embed(i.chunk.text);
    var s1 := s.(embeddingHistory := s.embeddingHistory + [embedding]);
    if i.fault == AtEmbedding then (s, Raised(None))
    else if i.fault == AtExtraction then (s1, Raised(None))
    else if Suppressed(s1, i, env) then (s1, Decided(NoRetrieval(PresentationOnly)))
    else
      var new' := env.extract(i.bufferText);
      Weigh(s1.(entities := s1.entities + new'), EntityDiff(new', s1.entities), embedding, i, env, st)
  }

  lemma {:induction false} GateKeepsValid(s: Rolling, delta: Entities, embedding: Vec, i: Input, env: Env,
                                          st: ControllerSettings)
    requires ValidRolling(s, env, st) && |embedding| == env.embedder.dim
    ensures ValidRolling(Gate(s, delta, embedding, i, env, st).0, env, st)
  {
  }

  lemma {:induction false} WeighKeepsValid(s: Rolling, delta: Entities, embedding: Vec, i: Input, env: Env,
                                           st: ControllerSettings)
    requires ValidRolling(s, env, st) && |embedding| == env.embedder.dim
    ensures ValidRolling(Weigh(s, delta, embedding, i, env, st).0, env, st)
  {
    GateKeepsValid(s, delta, embedding, i, env, st);
  }

  lemma {:induction false} PassKeepsValid(s: Rolling, i: Input, env: Env, st: ControllerSettings)
    requires ValidRolling(s, env, st)
    ensures ValidRolling(Pass(s, i, env, st).0, env, st)
  {
    var embedding := env.embedder.embed(i.chunk.text);
    var s1 := s.(embeddingHistory := s.embeddingHistory + [embedding]);
    assert ValidRolling(s1, env, st);
    var new' := env.extract(i.bufferText);
    WeighKeepsValid(s1.(entities := s1.entities + new'), EntityDiff(new', s1.entities), embedding, i, env, st);
  }

  // ----- What one pass decides, case by case -----

  /** The entities read from the transcript are all known as they are. */
  ghost predicate Current(entities: Entities, bufferText: string, env: Env) {
    EntityDiff(env.extract(bufferText), entities) == map[]
  }

  /** The reading of the history suffices, or the chunk is final and there can be none yet. */
  ghost predicate HistorySettles(history: seq<Vec>, i: Input, env: Env, st: ControllerSettings)
    requires SameDimension(history, env.embedder.dim)
  {
    Stability(env.embedder.sqrt, history, st.stabilityWindow, env.embedder.dim) >= st.stabilityThreshold
    || (i.chunk.isFinal && |history| < st.stabilityWindow)
  }

  /** So it is with the chunk's own embedding. */
  ghost predicate Settles(s: Rolling, i: Input, env: Env, st: ControllerSettings)
    requires ValidRolling(s, env, st)
  {
    HistorySettles(s.embeddingHistory + [env.embedder.embed(i.chunk.text)], i, env, st)
  }

  /** A retrieval that was attempted from state s: only a pipeline that returns replaces topic and evidence. */
  ghost predicate RetrievedWith(s: Rolling, trigger: Trigger, topic: Vec, p: Pipeline, t: Rolling, o: Outcome) {
    match p
    case Fails(_) => t == s && o == Raised(Some(trigger))
    case Found(_, subQueries, retrievals, evidence) =>
      && t == Rolling(s.entities, s.embeddingHistory, s.waitCount, s.hasRetrievedForTopic, Some(topic), evidence)
      && o == Retrieved(trigger, subQueries, retrievals, evidence)
  }

  /** A refinement: the evidence kept stands in for a delta that finds nothing. */
  ghost predicate RefinedWith(s: Rolling, topic: Vec, p: Pipeline, t: Rolling, o: Outcome) {
    if p.Found? && p.evidence == [] then
      RetrievedWith(s, Delta, topic, Found(p.events, p.subQueries, p.retrievals, s.lastEvidence), t, o)
    else RetrievedWith(s, Delta, topic, p, t, o)
  }

  /** At the gate: wait while patience lasts, be forced when it is spent, or retrieve on news that settles. */
  ghost predicate GatedWith(s: Rolling, news: bool, settles: bool, topic: Vec, i: Input, max: nat, t: Rolling,
                            o: Outcome)
  {
    if news && settles then
      RetrievedWith(s.(waitCount := 0, hasRetrievedForTopic := true), if i.chunk.isFinal then Final
        else Provisional, topic, i.pipeline, t, o)
    else if s.waitCount >= max then
      RetrievedWith(s.(waitCount := 0), ForcedAfterMaxWait, topic, i.pipeline, t, o)
    else t == s.(waitCount := s.waitCount + 1) && o == Decided(Wait(IntentUnstable))
  }

  /**
    * With news on an established topic the chunk is compared with the topic: alike or contrastive it refines, below 0.4
    * it starts anew at the gate, in between it is left alone.
    */
  ghost predicate ConsideredWith(s: Rolling, news: bool, settles: bool, e: Vec, i: Input, env: Env,
                                 st: ControllerSettings, t: Rolling, o: Outcome)
    requires s.topicEmbedding.Some? ==> |e| == |s.topicEmbedding.value|
  {
    if s.hasRetrievedForTopic && !news then t == s && o == Decided(Wait(NoNewEntity))
    else if s.hasRetrievedForTopic && s.topicEmbedding.Some? then
      var likeness := Cosine(env.embedder.sqrt, e, s.topicEmbedding.value);
      if i.fault == AtClassification then t == s && o == Raised(None)
      else if env.contrastive(i.chunk.text) || likeness >= st.refinementThreshold then
        RefinedWith(s, e, i.pipeline, t, o)
      else if likeness >= 0.4 then t == s && o == Decided(NoRetrieval(AmbiguousRefinement))
      else GatedWith(s, news, settles, e, i, st.maxWaitChunks, t, o)
    else GatedWith(s, news, settles, e, i, st.maxWaitChunks, t, o)
  }

  /** The whole decision, from what the state was, what the chunk reads as and what the outside does. */
  ghost predicate DecidedExactly(s: Rolling, i: Input, env: Env, st: ControllerSettings, t: Rolling, o: Outcome)
    requires ValidRolling(s, env, st)
  {
    var e := env.embedder.embed(i.chunk.text);
    var news, read := !Current(s.entities, i.bufferText, env), s.(embeddingHistory := s.embeddingHistory + [e]);
    var merged := read.(entities := s.entities + env.extract(i.bufferText));
    if i.fault == AtEmbedding then t == s && o == Raised(None)
    else if i.fault == AtExtraction then t == read && o == Raised(None)
    else if !news && i.hasPriorAnswer && env.presentationOnly(i.bufferText) then
      t == read && o == Decided(NoRetrieval(PresentationOnly))
    else ConsideredWith(merged, news, Settles(s, i, env, st), e, i, env, st, t, o)
  }

  lemma {:induction false} GateDecides(s: Rolling, delta: Entities, e: Vec, i: Input, env: Env, st: ControllerSettings)
    requires ValidRolling(s, env, st)
    ensures var (t, o) := Gate(s, delta, e, i, env, st);
      GatedWith(s, delta != map[], HistorySettles(s.embeddingHistory, i, env, st), e, i, st.maxWaitChunks, t, o)
  {
  }

  lemma {:induction false} WeighDecides(s: Rolling, delta: Entities, e: Vec, i: Input, env: Env, st: ControllerSettings)
    requires ValidRolling(s, env, st) && e == env.embedder.embed(i.chunk.text)
    ensures var (t, o) := Weigh(s, delta, e, i, env, st);
      ConsideredWith(s, delta != map[], HistorySettles(s.embeddingHistory, i, env, st), e, i, env, st, t, o)
  {
    GateDecides(s, delta, e, i, env, st);
  }

  /** Every pass decides exactly so. */
  lemma {:induction false} PassDecidesExactly(s: Rolling, i: Input, env: Env, st: ControllerSettings)
    requires ValidRolling(s, env, st)
    ensures var (t, o) := Pass(s, i, env, st); DecidedExactly(s, i, env, st, t, o)
  {
    var e, new' := env.embedder.embed(i.chunk.text), env.extract(i.bufferText);
    var s2 := s.(embeddingHistory := s.embeddingHistory + [e], entities := s.entities + new');
    assert ValidRolling(s2, env, st);
    WeighDecides(s2, EntityDiff(new', s.entities), e, i, env, st);
  }

  // ----- The entity map stays in step with the transcript -----

  lemma {:induction false} MergedIsCurrent(entities: Entities, bufferText: string, env: Env)
    ensures Current(entities + env.extract(bufferText), bufferText, env)
    ensures Current(entities, bufferText, env) ==> entities + env.extract(bufferText) == entities
  {
    var new' := env.extract(bufferText);
    assert EntityDiff(new', entities + new') == map[];
    if Current(entities, bufferText, env) {
      forall k | k in new' ensures k in entities && entities[k] == new'[k] {
        assert k !in EntityDiff(new', entities);
      }
    }
  }

  /** The pass got as far as reading the transcript's entities. */
  predicate ReadEntities(i: Input) { i.fault != AtEmbedding && i.fault != AtExtraction }

  /** The trigger of a retrieval that was attempted, whether or not its pipeline then raised. */
  function Attempt(o: Outcome): Option<Trigger> {
    match o
    case Decided(_) => None
    case Retrieved(trigger, _, _, _) => Some(trigger)
    case Raised(attempted) => attempted
  }

  /** A retrieval that was not forced by running out of patience. */
  predicate Unforced(o: Outcome) {
    Attempt(o).Some? && Attempt(o).value != ForcedAfterMaxWait
  }

  lemma {:induction false} GateKeepsEntities(s: Rolling, delta: Entities, embedding: Vec, i: Input, env: Env,
                                             st: ControllerSettings)
    requires ValidRolling(s, env, st)
    ensures Gate(s, delta, embedding, i, env, st).0.entities == s.entities
  {
  }

  lemma {:induction false} WeighKeepsEntities(s: Rolling, delta: Entities, embedding: Vec, i: Input, env: Env,
                                              st: ControllerSettings)
    requires ValidRolling(s, env, st)
    ensures Weigh(s, delta, embedding, i, env, st).0.entities == s.entities
  {
    GateKeepsEntities(s, delta, embedding, i, env, st);
  }

  /** A pass that raises early or is suppressed leaves the entities; any other merges those of the transcript. */
  lemma {:induction false} PassMergesEntities(s: Rolling, i: Input, env: Env, st: ControllerSettings)
    requires ValidRolling(s, env, st)
    ensures var merged := s.entities + env.extract(i.bufferText); var (t, o) := Pass(s, i, env, st);
      || t.entities == merged
      || (t.entities == s.entities && ((!ReadEntities(i) && o.Raised?) || Current(s.entities, i.bufferText, env)))
  {
    var embedding, new' := env.embedder.embed(i.chunk.text), env.extract(i.bufferText);
    var s2 := s.(embeddingHistory := s.embeddingHistory + [embedding], entities := s.entities + new');
    assert ValidRolling(s2, env, st);
    WeighKeepsEntities(s2, EntityDiff(new', s.entities), embedding, i, env, st);
  }

  /** On every branch, suppression included, no entity of the transcript is left unknown or outdated. */
  lemma {:induction false} EntitiesAreCurrent(s: Rolling, i: Input, env: Env, st: ControllerSettings)
    requires ValidRolling(s, env, st)
    ensures !Pass(s, i, env, st).1.Raised? ==> Current(Pass(s, i, env, st).0.entities, i.bufferText, env)
    ensures ReadEntities(i) ==> Current(Pass(s, i, env, st).0.entities, i.bufferText, env)
    ensures Current(s.entities, i.bufferText, env) ==> Pass(s, i, env, st).0.entities == s.entities
  {
    MergedIsCurrent(s.entities, i.bufferText, env);
    PassMergesEntities(s, i, env, st);
  }

  /** Without an entity delta nothing but lost patience retrieves. */
  lemma {:induction false} UnforcedNeedsADelta(s: Rolling, i: Input, env: Env, st: ControllerSettings)
    requires ValidRolling(s, env, st) && Unforced(Pass(s, i, env, st).1)
    ensures ReadEntities(i) && !Current(s.entities, i.bufferText, env)
  {
  }

  /**
    * Before a topic is established, retrieval fires unforced exactly on the conjunction of an entity delta and
    * stability.
    */
  lemma {:induction false} UnforcedExactlyOnTheConjunction(s: Rolling, i: Input, env: Env, st: ControllerSettings)
    requires ValidRolling(s, env, st) && ReadEntities(i) && !s.hasRetrievedForTopic
    ensures Unforced(Pass(s, i, env, st).1) <==> !Current(s.entities, i.bufferText, env) && Settles(s, i, env, st)
  {
  }

  /** Once a topic has been retrieved for, a chunk that brings no new entity never retrieves again, forced or not. */
  lemma {:induction false} NoRefiring(s: Rolling, i: Input, env: Env, st: ControllerSettings)
    requires ValidRolling(s, env, st) && s.hasRetrievedForTopic && Current(s.entities, i.bufferText, env)
    ensures Attempt(Pass(s, i, env, st).1).None?
    ensures Pass(s, i, env, st).0.hasRetrievedForTopic && Pass(s, i, env, st).0.lastEvidence == s.lastEvidence
  {
  }

  // ----- Runs -----

  datatype History = History(state: Rolling, outcomes: seq<Outcome>)

  function Run(s: Rolling, inputs: seq<Input>, env: Env, st: ControllerSettings): (h: History)
    requires ValidRolling(s, env, st)
    ensures ValidRolling(h.state, env, st) && |h.outcomes| == |inputs|
  {
    if inputs == [] then History(s, [])
    else
      var before := Run(s, inputs[..|inputs| - 1], env, st);
      PassKeepsValid(before.state, inputs[|inputs| - 1], env, st);
      var (state, outcome) := Pass(before.state, inputs[|inputs| - 1], env, st);
      History(state, before.outcomes + [outcome])
  }

  function Count(outcomes: seq<Outcome>, p: Outcome -> bool): nat {
    if outcomes == [] then 0
    else Count(outcomes[..|outcomes| - 1], p) + if p(outcomes[|outcomes| - 1]) then 1 else 0
  }

  /** Runs compose. */
  lemma {:induction false} RunsCompose(s: Rolling, a: seq<Input>, b: seq<Input>, env: Env, st: ControllerSettings)
    requires ValidRolling(s, env, st)
    ensures var first := Run(s, a, env, st); var second := Run(first.state, b, env, st);
      Run(s, a + b, env, st) == History(second.state, first.outcomes + second.outcomes)
  {
    if b == [] {
      assert a + b == a;
    } else {
      assert (a + b)[..|a + b| - 1] == a + b[..|b| - 1];
      RunsCompose(s, a, b[..|b| - 1], env, st);
    }
  }

  /** Every pass of one frame sees the same transcript, for all its chunks were committed before the first pass. */
  ghost predicate OneFrame(inputs: seq<Input>, bufferText: string) {
    forall k :: 0 <= k < |inputs| ==> inputs[k].bufferText == bufferText
  }

  /** One frame causes at most one retrieval that is not forced, however many held chunks it releases. */
  lemma {:induction false} AtMostOneUnforcedPerFrame(s: Rolling, inputs: seq<Input>, bufferText: string, env: Env,
                                                     st: ControllerSettings)
    requires ValidRolling(s, env, st) && OneFrame(inputs, bufferText)
    ensures Count(Run(s, inputs, env, st).outcomes, Unforced) <= 1
    ensures Current(s.entities, bufferText, env) || Count(Run(s, inputs, env, st).outcomes, Unforced) == 1 ==>
      Current(Run(s, inputs, env, st).state.entities, bufferText, env)
    ensures Current(s.entities, bufferText, env) ==> Count(Run(s, inputs, env, st).outcomes, Unforced) == 0
  {
    if inputs != [] {
      var last := inputs[|inputs| - 1];
      var before := Run(s, inputs[..|inputs| - 1], env, st);
      AtMostOneUnforcedPerFrame(s, inputs[..|inputs| - 1], bufferText, env, st);
      EntitiesAreCurrent(before.state, last, env, st);
      var o := Pass(before.state, last, env, st).1;
      assert Run(s, inputs, env, st).outcomes[..|inputs| - 1] == before.outcomes;
      if Unforced(o) {
        UnforcedNeedsADelta(before.state, last, env, st);
      }
    }
  }

  // ----- Bounded patience -----

  predicate UnstableWait(o: Outcome) { o == Decided(Wait(IntentUnstable)) }

  predicate NonDeltaAttempt(o: Outcome) { Attempt(o).Some? && Attempt(o).value != Delta }

  lemma {:induction false} GateCounts(s: Rolling, delta: Entities, embedding: Vec, i: Input, env: Env,
                                      st: ControllerSettings)
    requires ValidRolling(s, env, st)
    ensures var (t, o) := Gate(s, delta, embedding, i, env, st);
      if UnstableWait(o) then t.waitCount == s.waitCount + 1 else NonDeltaAttempt(o) && t.waitCount == 0
  {
  }

  lemma {:induction false} WeighCounts(s: Rolling, delta: Entities, embedding: Vec, i: Input, env: Env,
                                       st: ControllerSettings)
    requires ValidRolling(s, env, st)
    ensures var (t, o) := Weigh(s, delta, embedding, i, env, st);
      if UnstableWait(o) then t.waitCount == s.waitCount + 1
      else t.waitCount == if NonDeltaAttempt(o) then 0 else s.waitCount
  {
    GateCounts(s, delta, embedding, i, env, st);
  }

  lemma {:induction false} PatiencePerPass(s: Rolling, i: Input, env: Env, st: ControllerSettings)
    requires ValidRolling(s, env, st)
    ensures var (t, o) := Pass(s, i, env, st);
      if UnstableWait(o) then t.waitCount == s.waitCount + 1 && !NonDeltaAttempt(o)
      else if NonDeltaAttempt(o) then t.waitCount == 0
      else t.waitCount == s.waitCount
  {
    var embedding, new' := env.embedder.embed(i.chunk.text), env.extract(i.bufferText);
    var s2 := s.(embeddingHistory := s.embeddingHistory + [embedding], entities := s.entities + new');
    assert ValidRolling(s2, env, st);
    WeighCounts(s2, EntityDiff(new', s.entities), embedding, i, env, st);
  }

  /** The account after one more pass. */
  lemma {:induction false} AccountStep(max: nat, waits: nat, resets: nat, count: nat, waits': nat, resets': nat,
                                       count': nat)
    requires waits <= max * resets + count && count <= max
    requires (waits' == waits + 1 && resets' == resets && count' == count + 1)
          || (waits' == waits && resets' == resets + 1 && count' == 0)
          || (waits' == waits && resets' == resets && count' == count)
    ensures waits' <= max * resets' + count'
  {
    assert max * (resets + 1) == max * resets + max;
  }

  lemma {:induction false} AccountClosed(max: nat, waits: nat, resets: nat, count: nat)
    requires waits <= max * resets + count && count <= max
    ensures waits <= max * (1 + resets)
  {
    assert max * (1 + resets) == max + max * resets;
  }

  /** The wait counter never passes its limit, and unstable waits are paid for by resets. */
  lemma {:induction false} UnstableWaitsAreAccountedFor(inputs: seq<Input>, env: Env, st: ControllerSettings)
    requires ValidRolling(FRESH, env, st)
    ensures var h := Run(FRESH, inputs, env, st);
      && h.state.waitCount <= st.maxWaitChunks
      && Count(h.outcomes, UnstableWait) <= st.maxWaitChunks * Count(h.outcomes, NonDeltaAttempt) + h.state.waitCount
  {
    if inputs != [] {
      var h, before := Run(FRESH, inputs, env, st), Run(FRESH, inputs[..|inputs| - 1], env, st);
      UnstableWaitsAreAccountedFor(inputs[..|inputs| - 1], env, st);
      PatiencePerPass(before.state, inputs[|inputs| - 1], env, st);
      assert h.outcomes[..|inputs| - 1] == before.outcomes;
      AccountStep(st.maxWaitChunks, Count(before.outcomes, UnstableWait), Count(before.outcomes, NonDeltaAttempt),
        before.state.waitCount,
                  Count(h.outcomes, UnstableWait), Count(h.outcomes, NonDeltaAttempt), h.state.waitCount);
    }
  }

  /** The unstable waits number at most the limit times one more than the retrievals that were no refinements. */
  ghost predicate Patient(outcomes: seq<Outcome>, limit: nat) {
    Count(outcomes, UnstableWait) <= limit * (1 + Count(outcomes, NonDeltaAttempt))
  }

  /**
    * In any run the unstable waits number at most the limit times one more than the retrievals that were no
    * refinements.
    */
  lemma {:induction false} UnstableWaitsAreBounded(inputs: seq<Input>, env: Env, st: ControllerSettings)
    requires ValidRolling(FRESH, env, st)
    ensures Patient(Run(FRESH, inputs, env, st).outcomes, st.maxWaitChunks)
  {
    UnstableWaitsAreAccountedFor(inputs, env, st);
    var h := Run(FRESH, inputs, env, st);
    AccountClosed(st.maxWaitChunks, Count(h.outcomes, UnstableWait), Count(h.outcomes, NonDeltaAttempt),
      h.state.waitCount);
  }

  /** A stream that is never suppressed and never mentions an entity, with no call failing before the gate. */
  ghost predicate Quiet(inputs: seq<Input>, env: Env) {
    forall k :: 0 <= k < |inputs| ==> QuietInput(inputs[k], env)
  }

  ghost predicate QuietInput(i: Input, env: Env) {
    i.fault == NoFault && env.extract(i.bufferText) == map[]
      && !(i.hasPriorAnswer && env.presentationOnly(i.bufferText))
  }

  lemma {:induction false} QuietPass(s: Rolling, i: Input, env: Env, st: ControllerSettings)
    requires ValidRolling(s, env, st) && QuietInput(i, env) && s.entities == map[] && !s.hasRetrievedForTopic
    ensures var (t, o) := Pass(s, i, env, st);
      && t.entities == map[] && !t.hasRetrievedForTopic
      && (if s.waitCount == st.maxWaitChunks then Attempt(o) == Some(ForcedAfterMaxWait) && t.waitCount == 0
          else UnstableWait(o) && t.waitCount == s.waitCount + 1)
  {
    assert EntityDiff(env.extract(i.bufferText), s.entities) == map[];
    assert s.entities + env.extract(i.bufferText) == map[];
  }

  lemma {:induction false} OneMoreTime(q: nat, m: nat)
    ensures (q + 1) * m == q * m + m
  {
  }

  lemma {:induction false} LargerQuotient(p: nat, q: nat, m: nat)
    requires p < q
    ensures p * m + m <= q * m
  {
    OneMoreTime(q - 1, m);
    if p < q - 1 {
      LargerQuotient(p, q - 1, m);
    }
  }

  lemma {:induction false} RemainderIsUnique(q: nat, r: nat, p: nat, t: nat, m: nat)
    requires r < m && t < m && q * m + r == p * m + t
    ensures r == t
  {
    if p < q {
      LargerQuotient(p, q, m);
    } else if q < p {
      LargerQuotient(q, p, m);
    }
  }

  lemma {:induction false} Divided(n: nat, m: nat, q: nat, r: nat)
    requires m > 0 && q == n / m && r == n % m
    ensures n == q * m + r && r < m
  {
  }

  lemma {:induction false} CycleStep(n: nat, m: nat, r: nat)
    requires m > 0 && r == n % m
    ensures (n + 1) % m == if r == m - 1 then 0 else r + 1
  {
    var q, p, t := n / m, (n + 1) / m, (n + 1) % m;
    Divided(n, m, q, r);
    Divided(n + 1, m, p, t);
    if r == m - 1 {
      OneMoreTime(q, m);
      RemainderIsUnique(q + 1, 0, p, t, m);
    } else {
      RemainderIsUnique(q, r + 1, p, t, m);
    }
  }

  lemma {:induction false} QuietRun(inputs: seq<Input>, env: Env, st: ControllerSettings)
    requires ValidRolling(FRESH, env, st) && Quiet(inputs, env)
    ensures var s := Run(FRESH, inputs, env, st).state;
      s.entities == map[] && !s.hasRetrievedForTopic && s.waitCount == |inputs| % (st.maxWaitChunks + 1)
  {
    if inputs != [] {
      var n := |inputs| - 1;
      QuietRun(inputs[..n], env, st);
      QuietNext(Run(FRESH, inputs[..n], env, st).state, inputs[n], n, env, st);
    }
  }

  lemma {:induction false} QuietNext(s: Rolling, i: Input, n: nat, env: Env, st: ControllerSettings)
    requires ValidRolling(s, env, st) && QuietInput(i, env) && s.entities == map[] && !s.hasRetrievedForTopic
    requires s.waitCount == n % (st.maxWaitChunks + 1)
    ensures var t := Pass(s, i, env, st).0;
      t.entities == map[] && !t.hasRetrievedForTopic && t.waitCount == (n + 1) % (st.maxWaitChunks + 1)
  {
    QuietPass(s, i, env, st);
    CycleStep(n, st.maxWaitChunks + 1, s.waitCount);
  }

  lemma {:induction false} ForcedAtTheLimit(inputs: seq<Input>, env: Env, st: ControllerSettings)
    requires ValidRolling(FRESH, env, st) && Quiet(inputs, env) && inputs != []
    ensures var n := |inputs| - 1; var wait := Run(FRESH, inputs[..n], env, st).state.waitCount;
      var o := Run(FRESH, inputs, env, st).outcomes[n];
      if wait == st.maxWaitChunks then Attempt(o) == Some(ForcedAfterMaxWait) else UnstableWait(o)
  {
    var n := |inputs| - 1;
    QuietRun(inputs[..n], env, st);
    QuietPass(Run(FRESH, inputs[..n], env, st).state, inputs[n], env, st);
  }

  /**
    * On such a stream the k-th chunk is a forced retrieval exactly when the limit plus one divides k; every other one
    * waits.
    */
  lemma {:induction false} ForcedExactlyEveryRound(inputs: seq<Input>, env: Env, st: ControllerSettings)
    requires ValidRolling(FRESH, env, st) && Quiet(inputs, env) && inputs != []
    ensures var o := Run(FRESH, inputs, env, st).outcomes[|inputs| - 1];
      if |inputs| % (st.maxWaitChunks + 1) == 0 then Attempt(o) == Some(ForcedAfterMaxWait) else UnstableWait(o)
  {
    var n := |inputs| - 1;
    var wait := Run(FRESH, inputs[..n], env, st).state.waitCount;
    QuietRun(inputs[..n], env, st);
    ForcedAtTheLimit(inputs, env, st);
    CycleStep(n, st.maxWaitChunks + 1, wait);
  }

  // ----- Which chunks count as conclusive -----

  lemma {:induction false} RunOfOne(s: Rolling, i: Input, env: Env, st: ControllerSettings)
    requires ValidRolling(s, env, st)
    ensures Run(s, [i], env, st) == History(Pass(s, i, env, st).0, [Pass(s, i, env, st).1])
  {
    assert [i][..0] == [] && Run(s, [], env, st) == History(s, []);
  }

  /** How many of the chunks were embedded. */
  function Embedded(inputs: seq<Input>): nat {
    if inputs == [] then 0
    else Embedded(inputs[..|inputs| - 1]) + if inputs[|inputs| - 1].fault == AtEmbedding then 0 else 1
  }

  lemma {:induction false} PassEmbeds(s: Rolling, i: Input, env: Env, st: ControllerSettings)
    requires ValidRolling(s, env, st)
    ensures Pass(s, i, env, st).0.embeddingHistory ==
      s.embeddingHistory + if i.fault == AtEmbedding then [] else [env.embedder.embed(i.chunk.text)]
  {
  }

  lemma {:induction false} HistoryCountsEmbeddings(inputs: seq<Input>, env: Env, st: ControllerSettings)
    requires ValidRolling(FRESH, env, st)
    ensures |Run(FRESH, inputs, env, st).state.embeddingHistory| == Embedded(inputs)
  {
    if inputs != [] {
      var before := inputs[..|inputs| - 1];
      HistoryCountsEmbeddings(before, env, st);
      PassEmbeds(Run(FRESH, before, env, st).state, inputs[|inputs| - 1], env, st);
    }
  }

  /** The j-th chunk's embedding stands in the history behind those embedded before it, raised ones not counted. */
  lemma {:induction false} HistoryIsTheEmbedded(inputs: seq<Input>, j: nat, env: Env, st: ControllerSettings)
    requires ValidRolling(FRESH, env, st) && j < |inputs| && inputs[j].fault != AtEmbedding
    ensures var history := Run(FRESH, inputs, env, st).state.embeddingHistory;
      Embedded(inputs[..j]) < |history| && history[Embedded(inputs[..j])] == env.embedder.embed(inputs[j].chunk.text)
  {
    var before, last := inputs[..|inputs| - 1], inputs[|inputs| - 1];
    PassEmbeds(Run(FRESH, before, env, st).state, last, env, st);
    HistoryCountsEmbeddings(before, env, st);
    if j < |before| {
      assert before[..j] == inputs[..j];
      HistoryIsTheEmbedded(before, j, env, st);
    } else {
      assert inputs[..j] == before;
    }
  }

  /** The j-th and the k-th chunk were embedded and none between them was. */
  ghost predicate EmbeddedNext(inputs: seq<Input>, j: nat, k: nat) {
    && j < k < |inputs| && inputs[j].fault != AtEmbedding && inputs[k].fault != AtEmbedding
    && forall m :: j < m < k ==> inputs[m].fault == AtEmbedding
  }

  lemma {:induction false} HistoryGrows(inputs: seq<Input>, k: nat, env: Env, st: ControllerSettings)
    requires ValidRolling(FRESH, env, st) && k < |inputs|
    ensures Run(FRESH, inputs[..k + 1], env, st).state.embeddingHistory
         == Run(FRESH, inputs[..k], env, st).state.embeddingHistory
          + if inputs[k].fault == AtEmbedding then [] else [env.embedder.embed(inputs[k].chunk.text)]
  {
    assert inputs[..k + 1][..k] == inputs[..k];
    PassEmbeds(Run(FRESH, inputs[..k], env, st).state, inputs[k], env, st);
  }

  lemma {:induction false} NothingEmbeddedSince(inputs: seq<Input>, j: nat, k: nat, env: Env, st: ControllerSettings)
    requires ValidRolling(FRESH, env, st) && j < k < |inputs|
    requires forall m :: j < m < k ==> inputs[m].fault == AtEmbedding
    ensures Run(FRESH, inputs[..k], env, st).state.embeddingHistory
         == Run(FRESH, inputs[..j + 1], env, st).state.embeddingHistory
  {
    if j + 1 < k {
      NothingEmbeddedSince(inputs, j, k - 1, env, st);
      HistoryGrows(inputs, k - 1, env, st);
    }
  }

  /** Under a window of two the reading at a chunk is the cosine of it with the last chunk embedded before it. */
  lemma {:induction false} ReadingIsTheCosineOfTheLastTwo(inputs: seq<Input>, j: nat, k: nat, env: Env,
                                                          st: ControllerSettings)
    requires ValidRolling(FRESH, env, st) && st.stabilityWindow == 2 && EmbeddedNext(inputs, j, k)
    ensures Stability(env.embedder.sqrt, Run(FRESH, inputs[..k + 1], env, st).state.embeddingHistory,
                      st.stabilityWindow, env.embedder.dim)
         == Cosine(env.embedder.sqrt, env.embedder.embed(inputs[j].chunk.text),
                   env.embedder.embed(inputs[k].chunk.text))
  {
    var older := Run(FRESH, inputs[..j], env, st).state.embeddingHistory;
    var v, w := env.embedder.embed(inputs[j].chunk.text), env.embedder.embed(inputs[k].chunk.text);
    HistoryGrows(inputs, j, env, st);
    NothingEmbeddedSince(inputs, j, k, env, st);
    HistoryGrows(inputs, k, env, st);
    assert (older + [v]) + [w] == older + [v, w];
    StabilityOfTheLastTwo(env.embedder.sqrt, older, v, w, env.embedder.dim);
  }

  /** The k-th chunk is judged on a history that is still too short for a stability reading. */
  ghost predicate LacksHistory(inputs: seq<Input>, k: nat, env: Env, st: ControllerSettings)
    requires ValidRolling(FRESH, env, st) && k < |inputs|
  {
    inputs[k].fault != AtEmbedding && |Run(FRESH, inputs[..k + 1], env, st).state.embeddingHistory| < st.stabilityWindow
  }

  /** It lacks history exactly when too few chunks were embedded before it, raised ones not counted. */
  lemma {:induction false} LacksHistoryExactly(inputs: seq<Input>, k: nat, env: Env, st: ControllerSettings)
    requires ValidRolling(FRESH, env, st) && k < |inputs|
    ensures LacksHistory(inputs, k, env, st) <==>
      inputs[k].fault != AtEmbedding && Embedded(inputs[..k]) + 1 < st.stabilityWindow
  {
    HistoryCountsEmbeddings(inputs[..k + 1], env, st);
    assert inputs[..k + 1][..k] == inputs[..k];
  }

  lemma {:induction false} MoreAreEmbedded(inputs: seq<Input>, k: nat)
    requires 0 < k <= |inputs|
    ensures Embedded(inputs[..k]) >= if inputs[0].fault == AtEmbedding then 0 else 1
  {
    assert inputs[..k][..k - 1] == inputs[..k - 1];
    if k > 1 { MoreAreEmbedded(inputs, k - 1); }
  }

  /**
    * The first chunk after the very first that was embedded, not later than the k-th, and what was embedded before it.
    */
  lemma {:induction false} FirstEmbedded(inputs: seq<Input>, k: nat) returns (m: nat)
    requires 0 < k < |inputs| && inputs[k].fault != AtEmbedding
    ensures 0 < m <= k && inputs[m].fault != AtEmbedding
    ensures Embedded(inputs[..m]) == if inputs[0].fault == AtEmbedding then 0 else 1
  {
    if j: nat :| 0 < j < k && inputs[j].fault != AtEmbedding {
      m := FirstEmbedded(inputs, j);
    } else {
      m := k;
      NoneBetween(inputs, k);
    }
  }

  lemma {:induction false} NoneBetween(inputs: seq<Input>, k: nat)
    requires 0 < k <= |inputs| && forall j :: 0 < j < k ==> inputs[j].fault == AtEmbedding
    ensures Embedded(inputs[..k]) == if inputs[0].fault == AtEmbedding then 0 else 1
  {
    assert inputs[..k][..k - 1] == inputs[..k - 1];
    if k > 1 { NoneBetween(inputs, k - 1); }
  }

  /**
    * Only a session's very first chunk can lack history, as the controller assumes, exactly when the window is two and
    * that chunk was embedded, or no later chunk was.
    */
  lemma {:induction false} OnlyTheFirstLacksHistoryExactly(inputs: seq<Input>, env: Env, st: ControllerSettings)
    requires ValidRolling(FRESH, env, st) && inputs != []
    ensures (forall k :: 0 < k < |inputs| ==> !LacksHistory(inputs, k, env, st)) <==>
      (st.stabilityWindow == 2 && inputs[0].fault != AtEmbedding) || forall k :: 0 < k < |inputs| ==>
        inputs[k].fault == AtEmbedding
  {
    forall k | 0 < k < |inputs| && st.stabilityWindow == 2 && inputs[0].fault != AtEmbedding
      ensures !LacksHistory(inputs, k, env, st)
    {
      MoreAreEmbedded(inputs, k);
      LacksHistoryExactly(inputs, k, env, st);
    }
    if k :| 0 < k < |inputs| && inputs[k].fault != AtEmbedding {
      var m := FirstEmbedded(inputs, k);
      LacksHistoryExactly(inputs, m, env, st);
    }
  }

  /**
    * Otherwise a second, final chunk can retrieve at once: after a first one that raised, or under any larger window.
    */
  lemma {:induction false} ALaterChunkCanBeConclusive(first: Input, last: Input, env: Env, st: ControllerSettings)
    requires ValidRolling(FRESH, env, st) && (first.fault == AtEmbedding || st.stabilityWindow > 2)
    requires env.extract(first.bufferText) == map[] && env.extract(last.bufferText) != map[]
    requires last.fault == NoFault && last.chunk.isFinal
    ensures LacksHistory([first, last], 1, env, st)
    ensures Attempt(Run(FRESH, [first, last], env, st).outcomes[1]) == Some(Final)
  {
    var inputs := [first, last];
    assert inputs[..2] == inputs && inputs[..1] == [first];
    var s := Run(FRESH, [first], env, st).state;
    RunOfOne(FRESH, first, env, st);
    NoEntitiesNoTopic(first, env, st);
    HistoryCountsEmbeddings([first], env, st);
    LacksHistoryExactly(inputs, 1, env, st);
    NewEntities(env.extract(last.bufferText));
    FinalChunkWithoutHistoryRetrieves(s, last, env, st);
  }

  /** A final chunk that cannot be judged unstable yet retrieves at once, however unlike the chunks before it. */
  lemma {:induction false} FinalChunkWithoutHistoryRetrieves(s: Rolling, i: Input, env: Env, st: ControllerSettings)
    requires ValidRolling(s, env, st) && i.fault == NoFault && !s.hasRetrievedForTopic && i.chunk.isFinal
    requires |s.embeddingHistory| + 1 < st.stabilityWindow && !Current(s.entities, i.bufferText, env)
    ensures Attempt(Pass(s, i, env, st).1) == Some(Final)
  {
  }

  lemma {:induction false} NoEntitiesNoTopic(i: Input, env: Env, st: ControllerSettings)
    requires ValidRolling(FRESH, env, st) && env.extract(i.bufferText) == map[]
    ensures Pass(FRESH, i, env, st).0.entities == map[] && !Pass(FRESH, i, env, st).0.hasRetrievedForTopic
  {
    assert EntityDiff(map[], map[]) == map[];
    var none: Entities := map[];
    assert none + none == none;
  }

  lemma {:induction false} NewEntities(entities: Entities)
    requires entities != map[]
    ensures EntityDiff(entities, map[]) != map[]
  {
    var k :| k in entities;
    assert k in EntityDiff(entities, map[]);
  }

  // ----- Where a run's evidence comes from -----

  /**
    * A retrieval answers what the pipeline was asked, from the pipeline's evidence or, when a refinement finds none,
    * the evidence kept; what it answers from is kept. Nothing else changes the evidence kept.
    */
  ghost predicate HandsOn(before: seq<Row>, after: seq<Row>, o: Outcome, p: Pipeline) {
    match o
    case Retrieved(trigger, subQueries, retrievals, evidence) =>
      && p.Found? && subQueries == p.subQueries && retrievals == p.retrievals && evidence == after
      && (after == p.evidence || (trigger == Delta && p.evidence == [] && after == before))
    case Decided(_) | Raised(_) => after == before
  }

  lemma {:induction false} GateHandsOn(s: Rolling, delta: Entities, embedding: Vec, i: Input, env: Env,
                                       st: ControllerSettings)
    requires ValidRolling(s, env, st)
    ensures var (t, o) := Gate(s, delta, embedding, i, env, st); HandsOn(s.lastEvidence, t.lastEvidence, o, i.pipeline)
  {
  }

  lemma {:induction false} WeighHandsOn(s: Rolling, delta: Entities, embedding: Vec, i: Input, env: Env,
                                        st: ControllerSettings)
    requires ValidRolling(s, env, st)
    ensures var (t, o) := Weigh(s, delta, embedding, i, env, st); HandsOn(s.lastEvidence, t.lastEvidence, o, i.pipeline)
  {
    GateHandsOn(s, delta, embedding, i, env, st);
  }

  lemma {:induction false} PassHandsOn(s: Rolling, i: Input, env: Env, st: ControllerSettings)
    requires ValidRolling(s, env, st)
    ensures var (t, o) := Pass(s, i, env, st); HandsOn(s.lastEvidence, t.lastEvidence, o, i.pipeline)
  {
    var embedding, new' := env.embedder.embed(i.chunk.text), env.extract(i.bufferText);
    var s2 := s.(embeddingHistory := s.embeddingHistory + [embedding], entities := s.entities + new');
    assert ValidRolling(s2, env, st);
    WeighHandsOn(s2, EntityDiff(new', s.entities), embedding, i, env, st);
  }

  /** What holds of no evidence and of all that the pipeline returns holds of all that a run answers from. */
  lemma {:induction false} EvidenceOverRuns(inputs: seq<Input>, env: Env, st: ControllerSettings,
                                            good: seq<Row> -> bool)
    requires ValidRolling(FRESH, env, st) && good([])
    requires forall i :: i in inputs && i.pipeline.Found? ==> good(i.pipeline.evidence)
    ensures var h := Run(FRESH, inputs, env, st);
      good(h.state.lastEvidence) && forall o :: o in h.outcomes && o.Retrieved? ==> good(o.evidence)
  {
    if inputs != [] {
      var before, last := inputs[..|inputs| - 1], inputs[|inputs| - 1];
      assert last in inputs && forall i :: i in before ==> i in inputs;
      EvidenceOverRuns(before, env, st, good);
      PassHandsOn(Run(FRESH, before, env, st).state, last, env, st);
    }
  }

  // ----- When a run retrieves -----

  lemma {:induction false} OutcomeAt(s: Rolling, inputs: seq<Input>, k: nat, env: Env, st: ControllerSettings)
    requires ValidRolling(s, env, st) && k < |inputs|
    ensures Run(s, inputs, env, st).outcomes[k] == Pass(Run(s, inputs[..k], env, st).state, inputs[k], env, st).1
    ensures Run(s, inputs, env, st).outcomes[..k] == Run(s, inputs[..k], env, st).outcomes
  {
    var before := inputs[..|inputs| - 1];
    if k < |before| {
      OutcomeAt(s, before, k, env, st);
      assert before[..k] == inputs[..k];
    } else {
      assert inputs[..k] == before;
    }
  }

  lemma {:induction false} GateEstablishes(s: Rolling, delta: Entities, embedding: Vec, i: Input, env: Env,
                                           st: ControllerSettings)
    requires ValidRolling(s, env, st)
    ensures var (t, o) := Gate(s, delta, embedding, i, env, st);
      t.hasRetrievedForTopic <==> s.hasRetrievedForTopic || Unforced(o)
  {
  }

  lemma {:induction false} WeighEstablishes(s: Rolling, delta: Entities, embedding: Vec, i: Input, env: Env,
                                            st: ControllerSettings)
    requires ValidRolling(s, env, st)
    ensures var (t, o) := Weigh(s, delta, embedding, i, env, st);
      t.hasRetrievedForTopic <==> s.hasRetrievedForTopic || Unforced(o)
  {
    GateEstablishes(s, delta, embedding, i, env, st);
  }

  lemma {:induction false} PassEstablishes(s: Rolling, i: Input, env: Env, st: ControllerSettings)
    requires ValidRolling(s, env, st)
    ensures Pass(s, i, env, st).0.hasRetrievedForTopic <==> s.hasRetrievedForTopic || Unforced(Pass(s, i, env, st).1)
  {
    var embedding, new' := env.embedder.embed(i.chunk.text), env.extract(i.bufferText);
    var s2 := s.(embeddingHistory := s.embeddingHistory + [embedding], entities := s.entities + new');
    assert ValidRolling(s2, env, st);
    WeighEstablishes(s2, EntityDiff(new', s.entities), embedding, i, env, st);
  }

  /** A topic is established by the first retrieval that is not forced. */
  lemma {:induction false} TopicsAreEstablishedUnforced(inputs: seq<Input>, env: Env, st: ControllerSettings)
    requires ValidRolling(FRESH, env, st)
    ensures var h := Run(FRESH, inputs, env, st); h.state.hasRetrievedForTopic <==> Count(h.outcomes, Unforced) > 0
  {
    if inputs != [] {
      var before, last := inputs[..|inputs| - 1], inputs[|inputs| - 1];
      TopicsAreEstablishedUnforced(before, env, st);
      assert Run(FRESH, inputs, env, st).outcomes[..|before|] == Run(FRESH, before, env, st).outcomes;
      PassEstablishes(Run(FRESH, before, env, st).state, last, env, st);
    }
  }

  /** What the transcript's entities are compared with at the k-th chunk. */
  ghost predicate BringsNews(inputs: seq<Input>, k: nat, env: Env, st: ControllerSettings)
    requires ValidRolling(FRESH, env, st) && k < |inputs|
  {
    !Current(Run(FRESH, inputs[..k], env, st).state.entities, inputs[k].bufferText, env)
  }

  ghost predicate ReadsStable(inputs: seq<Input>, k: nat, env: Env, st: ControllerSettings)
    requires ValidRolling(FRESH, env, st) && k < |inputs|
  {
    Stability(env.embedder.sqrt, Run(FRESH, inputs[..k + 1], env, st).state.embeddingHistory, st.stabilityWindow,
      env.embedder.dim)
      >= st.stabilityThreshold
  }

  lemma {:induction false} SettlesExactly(inputs: seq<Input>, k: nat, env: Env, st: ControllerSettings)
    requires ValidRolling(FRESH, env, st) && k < |inputs| && ReadEntities(inputs[k])
    ensures Settles(Run(FRESH, inputs[..k], env, st).state, inputs[k], env, st) <==>
      ReadsStable(inputs, k, env, st)
        || (inputs[k].chunk.isFinal && Embedded(inputs[..k]) + 1 < st.stabilityWindow)
  {
    var s := Run(FRESH, inputs[..k], env, st).state;
    HistoryCountsEmbeddings(inputs[..k], env, st);
    PassEmbeds(s, inputs[k], env, st);
    assert inputs[..k + 1][..k] == inputs[..k];
  }

  /**
    * In any run, until a retrieval has fired unforced, the k-th chunk fires one exactly when it brings new entities and
    * either its stability suffices or it is final with fewer than a window of chunks embedded.
    */
  lemma {:induction false} FirstUnforcedExactly(inputs: seq<Input>, k: nat, env: Env, st: ControllerSettings)
    requires ValidRolling(FRESH, env, st) && k < |inputs| && ReadEntities(inputs[k])
    requires Count(Run(FRESH, inputs, env, st).outcomes[..k], Unforced) == 0
    ensures Unforced(Run(FRESH, inputs, env, st).outcomes[k]) <==>
      BringsNews(inputs, k, env, st)
      && (ReadsStable(inputs, k, env, st)
        || (inputs[k].chunk.isFinal && Embedded(inputs[..k]) + 1 < st.stabilityWindow))
  {
    var s := Run(FRESH, inputs[..k], env, st).state;
    OutcomeAt(FRESH, inputs, k, env, st);
    TopicsAreEstablishedUnforced(inputs[..k], env, st);
    UnforcedExactlyOnTheConjunction(s, inputs[k], env, st);
    SettlesExactly(inputs, k, env, st);
  }

  /**
    * Under a window of two, until a retrieval has fired unforced, a chunk that follows an embedded one fires one
    * exactly when it brings new entities and its embedding is alike enough to the last one.
    */
  lemma {:induction false} FirstUnforcedComparesTheLastTwo(inputs: seq<Input>, j: nat, k: nat, env: Env,
                                                           st: ControllerSettings)
    requires ValidRolling(FRESH, env, st) && st.stabilityWindow == 2 && EmbeddedNext(inputs, j, k)
    requires ReadEntities(inputs[k]) && Count(Run(FRESH, inputs, env, st).outcomes[..k], Unforced) == 0
    ensures Unforced(Run(FRESH, inputs, env, st).outcomes[k]) <==>
      BringsNews(inputs, k, env, st)
      && Cosine(env.embedder.sqrt, env.embedder.embed(inputs[j].chunk.text), env.embedder.embed(inputs[k].chunk.text))
           >= st.stabilityThreshold
  {
    FirstUnforcedExactly(inputs, k, env, st);
    ReadingIsTheCosineOfTheLastTwo(inputs, j, k, env, st);
    HistoryIsTheEmbedded(inputs[..k], j, env, st);
    HistoryCountsEmbeddings(inputs[..k], env, st);
  }

  predicate Attempted(o: Outcome) { Attempt(o).Some? }

  ghost predicate NoNews(inputs: seq<Input>, entities: Entities, env: Env) {
    forall k :: 0 <= k < |inputs| ==> Current(entities, inputs[k].bufferText, env)
  }

  lemma {:induction false} RestingRun(s: Rolling, inputs: seq<Input>, env: Env, st: ControllerSettings)
    requires ValidRolling(s, env, st) && s.hasRetrievedForTopic && NoNews(inputs, s.entities, env)
    ensures var h := Run(s, inputs, env, st);
      Count(h.outcomes, Attempted) == 0 && h.state.entities == s.entities && h.state.hasRetrievedForTopic
  {
    if inputs != [] {
      var before, last := inputs[..|inputs| - 1], inputs[|inputs| - 1];
      RestingRun(s, before, env, st);
      var h := Run(s, before, env, st);
      NoRefiring(h.state, last, env, st);
      EntitiesAreCurrent(h.state, last, env, st);
      assert Run(s, inputs, env, st).outcomes[..|before|] == h.outcomes;
    }
  }

  lemma {:induction false} CountOfConcat(a: seq<Outcome>, b: seq<Outcome>, p: Outcome -> bool)
    ensures Count(a + b, p) == Count(a, p) + Count(b, p)
  {
    if b == [] {
      assert a + b == a;
    } else {
      assert (a + b)[..|a + b| - 1] == a + b[..|b| - 1];
      CountOfConcat(a, b[..|b| - 1], p);
    }
  }

  /**
    * Once a retrieval has fired unforced, chunks that bring no new entity never retrieve, forced or not, however many
    * follow.
    */
  lemma {:induction false} NoRefiringWithoutNews(inputs: seq<Input>, more: seq<Input>, env: Env, st: ControllerSettings)
    requires ValidRolling(FRESH, env, st) && Count(Run(FRESH, inputs, env, st).outcomes, Unforced) > 0
    requires NoNews(more, Run(FRESH, inputs, env, st).state.entities, env)
    ensures var h, before := Run(FRESH, inputs + more, env, st), Run(FRESH, inputs, env, st);
      Count(h.outcomes, Attempted) == Count(before.outcomes, Attempted) && h.state.entities == before.state.entities
  {
    var before := Run(FRESH, inputs, env, st);
    TopicsAreEstablishedUnforced(inputs, env, st);
    RestingRun(before.state, more, env, st);
    RunsCompose(FRESH, inputs, more, env, st);
    CountOfConcat(before.outcomes, Run(before.state, more, env, st).outcomes, Attempted);
  }

  // ----- The implementation -----

  function Noise(n: nat): (events: seq<Event>)
    ensures |events| == n && forall k :: 0 <= k < n ==> events[k] == PipelineEvent
  {
    seq(n, _ => PipelineEvent)
  }

  /** What a pass logs. */
  function EventsOf(o: Outcome, p: Pipeline): seq<Event> {
    match o
    case Decided(d) => [RetrievalDecision(d)]
    case Retrieved(trigger, _, _, _) => [RetrievalDecision(Retrieve(trigger))] + Noise(p.events)
    case Raised(None) => []
    case Raised(Some(trigger)) => [RetrievalDecision(Retrieve(trigger))] + Noise(p.events)
  }

  method Decide(session: SessionRecord, d: Decision) returns (o: Outcome)
    modifies session`eventLog
    ensures o == Decided(d) && session.eventLog == old(session.eventLog) + [RetrievalDecision(d)]
  {
    session.Emit(RetrievalDecision(d));
    o := Decided(d);
  }

  /** _retrieve, and the two assignments behind each of its calls. */
  method RetrieveFor(session: SessionRecord, trigger: Trigger, embedding: Vec, p: Pipeline) returns (o: Outcome)
    modifies session`topicEmbedding, session`lastEvidence, session`eventLog
    ensures (session.RollingState(), o) == Finish(old(session.RollingState()), trigger, embedding, p)
    ensures session.eventLog == old(session.eventLog) + EventsOf(o, p)
  {
    session.eventLog := session.eventLog + ([RetrievalDecision(Retrieve(trigger))] + Noise(p.events));
    match p
    case Fails(_) => o := Raised(Some(trigger));
    case Found(_, subQueries, retrievals, evidence) =>
      session.topicEmbedding := Some(embedding);
      session.lastEvidence := evidence;
      o := Retrieved(trigger, subQueries, retrievals, evidence);
  }

  /** The stability gate. */
  method AtTheGate(session: SessionRecord, delta: Entities, embedding: Vec, i: Input, env: Env,
                   st: ControllerSettings) returns (o: Outcome)
    requires ValidRolling(session.RollingState(), env, st)
    modifies session`waitCount, session`hasRetrievedForTopic, session`topicEmbedding, session`lastEvidence,
      session`eventLog
    ensures (session.RollingState(), o) == Gate(old(session.RollingState()), delta, embedding, i, env, st)
    ensures session.eventLog == old(session.eventLog) + EventsOf(o, i.pipeline)
  {
    var stability := Stability(env.embedder.sqrt, session.embeddingHistory, st.stabilityWindow, env.embedder.dim);
    var insufficientHistory := |session.embeddingHistory| < st.stabilityWindow;
    var conclusiveSingleChunk := i.chunk.isFinal && insufficientHistory;
    if delta == map[] || (stability < st.stabilityThreshold && !conclusiveSingleChunk) {
      session.waitCount := session.waitCount + 1;
      if session.waitCount > st.maxWaitChunks {
        session.waitCount := 0;
        o := RetrieveFor(session, ForcedAfterMaxWait, embedding, i.pipeline);
      } else {
        o := Decide(session, Wait(IntentUnstable));
      }
      return;
    }
    session.waitCount := 0;
    session.hasRetrievedForTopic := true;
    o := RetrieveFor(session, if i.chunk.isFinal then Final else Provisional, embedding, i.pipeline);
  }

  /** The rest of the pass once the entities have been merged. */
  method Consider(session: SessionRecord, delta: Entities, embedding: Vec, i: Input, env: Env, st: ControllerSettings)
    returns (o: Outcome)
    requires ValidRolling(session.RollingState(), env, st)
    modifies session`waitCount, session`hasRetrievedForTopic, session`topicEmbedding, session`lastEvidence,
      session`eventLog
    ensures (session.RollingState(), o) == Weigh(old(session.RollingState()), delta, embedding, i, env, st)
    ensures session.eventLog == old(session.eventLog) + EventsOf(o, i.pipeline)
  {
    if delta == map[] && session.hasRetrievedForTopic {
      o := Decide(session, Wait(NoNewEntity));
      return;
    }
    if session.hasRetrievedForTopic && session.topicEmbedding.Some? {
      if i.fault == AtClassification {
        o := Raised(None);
        return;
      }
      var classification := Classify(i.chunk.text, session.topicEmbedding.value, env, st);
      if classification == Ambiguous {
        o := Decide(session, NoRetrieval(AmbiguousRefinement));
        return;
      }
      if classification == Refinement {
        var p := i.pipeline;
        if p.Found? && p.evidence == [] {
          p := p.(evidence := session.lastEvidence);
        }
        o := RetrieveFor(session, Delta, embedding, p);
        return;
      }
    }
    o := AtTheGate(session, delta, embedding, i, env, st);
  }

  /** on_chunk */
  method OnChunk(session: SessionRecord, i: Input, env: Env, st: ControllerSettings) returns (o: Outcome)
    requires ValidRolling(session.RollingState(), env, st)
    requires i.bufferText == session.BufferText() && i.hasPriorAnswer == (session.answerVersions != [])
    modifies session`embeddingHistory, session`entities, session`waitCount, session`hasRetrievedForTopic,
             session`topicEmbedding, session`lastEvidence, session`eventLog
    ensures (session.RollingState(), o) == Pass(old(session.RollingState()), i, env, st)
    ensures session.eventLog == old(session.eventLog) + EventsOf(o, i.pipeline)
  {
    if i.fault == AtEmbedding {
      return Raised(None);
    }
    var embedding := env.embedder.embed(i.chunk.text);
    session.embeddingHistory := session.embeddingHistory + [embedding];
    if i.fault == AtExtraction {
      return Raised(None);
    }
    var newEntities := env.extract(i.bufferText);
    var delta := EntityDiff(newEntities, session.entities);
    if i.hasPriorAnswer && env.presentationOnly(i.bufferText) && delta == map[] {
      o := Decide(session, NoRetrieval(PresentationOnly));
      return;
    }
    session.entities := session.entities + newEntities;
    o := Consider(session, delta, embedding, i, env, st);
  }
}
