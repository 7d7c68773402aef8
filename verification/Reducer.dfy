/** The browser's fold over the event stream (sessionReducer). */
module Reducer {
  import opened Options
  import opened Text
  import opened Sentences
  import opened Session
  import opened Grounding
  import opened Generation

  datatype UiAnswer = UiAnswer(versionNo: Option<nat>, text: string, citations: seq<Citation>, isStreaming: bool,
    supersedes: Option<nat>)

  /** The parts of the page's state that show decisions, answers and activity. */
  datatype UiState = UiState(lastDecision: Option<Decision>, answer: UiAnswer, answerHistory: seq<UiAnswer>,
    activity: seq<Event>)

  datatype Action = EventArrived(event: Event) | NewSession

  const NO_ANSWER := UiAnswer(None, "", [], false, None)
  const INITIAL := UiState(None, NO_ANSWER, [], [])
  const ACTIVITY_LIMIT := 300

  // ----- The reducer -----

  /** Newest first, and no more than the limit. */
  function AppendActivity(s: UiState, e: Event): UiState {
    var all := [e] + s.activity;
    s.(activity := if |all| > ACTIVITY_LIMIT then all[..ACTIVITY_LIMIT] else all)
  }

  function StartNewTurn(s: UiState): UiState { s.(answer := NO_ANSWER) }

  function Recorded(history: seq<UiAnswer>, versionNo: Option<nat>): (b: bool)
    ensures b <==> exists i :: 0 <= i < |history| && history[i].versionNo == versionNo
  {
    history != [] && (history[0].versionNo == versionNo || Recorded(history[1..], versionNo))
  }

  function Shown(v: AnswerVersion): UiAnswer {
    UiAnswer(Some(v.versionNo), v.text, v.citations, false, v.supersedes)
  }

  function ApplyEvent(s: UiState, e: Event): UiState {
    var next := AppendActivity(s, e);
    match e
    case RetrievalDecision(d) =>
      var decided := next.(lastDecision := Some(d));
      if d.Retrieve? then StartNewTurn(decided) else decided
    case AnswerDelta(versionNo, text, _) =>
      next.(answer := next.answer.(
        versionNo := Some(versionNo),
        text := if next.answer.text != "" then next.answer.text + " " + text else text,
        isStreaming := true))
    case AnswerVersionCreated(v) =>
      var answer := Shown(v);
      next.(answer := answer,
            answerHistory := if Recorded(next.answerHistory, answer.versionNo) then next.answerHistory
              else next.answerHistory + [answer])
    case PipelineEvent | CitationCreated(_) | Uncertainty(_, _) | SessionResync(_) | ErrorEvent(_) => next
  }

  function Reduce(s: UiState, a: Action): UiState {
    match a
    case EventArrived(e) => ApplyEvent(s, e)
    case NewSession => s.(answer := NO_ANSWER, answerHistory := [])
  }

  function ReduceAll(s: UiState, actions: seq<Action>): UiState {
    if actions == [] then s else Reduce(ReduceAll(s, actions[..|actions| - 1]), actions[|actions| - 1])
  }

  function ApplyAll(s: UiState, events: seq<Event>): UiState {
    if events == [] then s else ApplyEvent(ApplyAll(s, events[..|events| - 1]), events[|events| - 1])
  }

  // ----- Over any actions whatever -----

  ghost predicate DistinctVersions(history: seq<UiAnswer>) {
    forall i, j :: 0 <= i < j < |history| ==> history[i].versionNo != history[j].versionNo
  }

  /** The history never shows a version number twice, and the activity list stays within its limit. */
  lemma {:induction false} HistoryHasNoRepeats(actions: seq<Action>)
    ensures var s := ReduceAll(INITIAL, actions); DistinctVersions(s.answerHistory) && |s.activity| <= ACTIVITY_LIMIT
  {
    if actions != [] {
      HistoryHasNoRepeats(actions[..|actions| - 1]);
    }
  }

  // ----- What a page that saw these events shows -----

  /** The latest events, newest first. */
  ghost predicate LatestFirst(activity: seq<Event>, log: seq<Event>) {
    && |activity| == (if |log| <= 300 then |log| else 300)
    && forall i :: 0 <= i < |activity| ==> activity[i] == log[|log| - 1 - i]
  }

  /** One event more in front, and one less behind where the limit is reached. */
  ghost predicate OneMoreInFront(after: seq<Event>, before: seq<Event>, e: Event) {
    && |after| == (if |before| < 300 then |before| + 1 else 300) && after[0] == e
    && forall i :: 0 < i < |after| ==> after[i] == before[i - 1]
  }

  lemma {:induction false} OneMoreActivity(s: UiState, e: Event)
    ensures OneMoreInFront(ApplyEvent(s, e).activity, s.activity, e)
  {
  }

  lemma {:induction false} LatestNext(before: seq<Event>, after: seq<Event>, log: seq<Event>, e: Event)
    requires LatestFirst(before, log) && OneMoreInFront(after, before, e)
    ensures LatestFirst(after, log + [e])
  {
    forall i | 0 < i < |after| ensures after[i] == (log + [e])[|log| - i] {
      assert after[i] == before[i - 1] == log[|log| - 1 - (i - 1)];
    }
  }

  /** The activity list is the latest 300 events of all, newest first. */
  lemma {:induction false} ActivityIsTheLatest(log: seq<Event>)
    ensures LatestFirst(ApplyAll(INITIAL, log).activity, log)
  {
    if log != [] {
      var before, e := log[..|log| - 1], log[|log| - 1];
      ActivityIsTheLatest(before);
      OneMoreActivity(ApplyAll(INITIAL, before), e);
      LatestNext(ApplyAll(INITIAL, before).activity, ApplyAll(INITIAL, log).activity, before, e);
      assert before + [e] == log;
    }
  }

  /** The last decision of the log, if it holds one. */
  lemma {:induction false} TheLastDecisionStands(log: seq<Event>, k: nat)
    requires forall i :: k < i < |log| ==> !log[i].RetrievalDecision?
    ensures k < |log| && log[k].RetrievalDecision? ==> ApplyAll(INITIAL, log).lastDecision == Some(log[k].decision)
    ensures k == 0 && (log == [] || !log[0].RetrievalDecision?) ==> ApplyAll(INITIAL, log).lastDecision == None
  {
    if |log| > k + 1 || (log != [] && k == 0 && !log[0].RetrievalDecision?) {
      TheLastDecisionStands(log[..|log| - 1], k);
    }
  }

  /** A decision to retrieve empties the draft, and any other leaves it. */
  lemma {:induction false} OnlyRetrievalStartsATurn(s: UiState, d: Decision)
    ensures var t := ApplyEvent(s, RetrievalDecision(d));
      && t.answerHistory == s.answerHistory
      && (if d.Retrieve? then t.answer == UiAnswer(None, "", [], false, None) else t.answer == s.answer)
  {
  }

  /** The page shows the version's number, text, citations and what it supersedes, as no longer streaming. */
  ghost predicate Shows(answer: UiAnswer, v: AnswerVersion) {
    && answer.versionNo == Some(v.versionNo) && answer.text == v.text && answer.citations == v.citations
    && answer.supersedes == v.supersedes && !answer.isStreaming
  }

  /** A version replaces the draft, and is listed behind the others unless its number is there. */
  lemma {:induction false} VersionsReplaceTheDraft(s: UiState, v: AnswerVersion)
    ensures var t := ApplyEvent(s, AnswerVersionCreated(v));
      && Shows(t.answer, v)
      && if exists i :: 0 <= i < |s.answerHistory| && s.answerHistory[i].versionNo == Some(v.versionNo)
        then t.answerHistory == s.answerHistory else t.answerHistory == s.answerHistory + [t.answer]
  {
  }

  /** A new session empties answer and history and leaves the rest. */
  lemma {:induction false} NewSessionsStartEmpty(actions: seq<Action>)
    ensures var s, t := ReduceAll(INITIAL, actions), ReduceAll(INITIAL, actions + [NewSession]);
      && t.answer == UiAnswer(None, "", [], false, None) && t.answerHistory == []
      && t.activity == s.activity && t.lastDecision == s.lastDecision
  {
    assert (actions + [NewSession])[..|actions|] == actions;
  }

  // ----- The draft is the committed text -----

  lemma {:induction false} ApplyConcat(s: UiState, a: seq<Event>, b: seq<Event>)
    ensures ApplyAll(s, a + b) == ApplyAll(ApplyAll(s, a), b)
  {
    if b == [] {
      assert a + b == a;
    } else {
      assert (a + b)[..|a + b| - 1] == a + b[..|b| - 1];
      ApplyConcat(s, a, b[..|b| - 1]);
    }
  }

  /** Events that touch neither the draft nor the history. */
  ghost predicate Aside(events: seq<Event>) {
    forall i :: 0 <= i < |events| ==>
      events[i].PipelineEvent? || events[i].CitationCreated? || events[i].Uncertainty? || events[i].ErrorEvent?
  }

  lemma {:induction false} AsideKeepsTheAnswer(s: UiState, events: seq<Event>)
    requires Aside(events)
    ensures ApplyAll(s, events).answer == s.answer && ApplyAll(s, events).answerHistory == s.answerHistory
  {
    if events != [] {
      AsideKeepsTheAnswer(s, events[..|events| - 1]);
    }
  }

  /** The draft a turn has built so far. */
  ghost predicate Drafts(s: UiState, s0: UiState, texts: seq<string>) {
    s.answer.text == Join(texts, " ") && s.answerHistory == s0.answerHistory
  }

  lemma {:induction false} JoinNext(texts: seq<string>, text: string)
    ensures Join(texts + [text], " ") == if texts == [] then text else Join(texts, " ") + " " + text
  {
    var all := texts + [text];
    assert all[..|all| - 1] == texts;
  }

  lemma {:induction false} JoinIsNotEmpty(texts: seq<string>)
    requires texts != [] && texts[0] != ""
    ensures Join(texts, " ") != ""
  {
    if |texts| > 1 { JoinIsNotEmpty(texts[..|texts| - 1]); }
  }

  lemma {:induction false} ApplySnoc(s: UiState, events: seq<Event>, e: Event)
    ensures ApplyAll(s, events + [e]) == ApplyEvent(ApplyAll(s, events), e)
  {
    assert (events + [e])[..|events|] == events;
  }

  lemma {:induction false} DeltaExtendsTheDraft(s: UiState, s0: UiState, texts: seq<string>, versionNo: nat,
                                                text: string, isFinal: bool)
    requires Drafts(s, s0, texts) && (texts != [] ==> texts[0] != "")
    ensures Drafts(ApplyEvent(s, AnswerDelta(versionNo, text, isFinal)), s0, texts + [text])
  {
    JoinNext(texts, text);
    if texts != [] {
      JoinIsNotEmpty(texts);
    }
  }

  lemma {:induction false} SettledIsAside(t: Turn, v: Validation)
    ensures Aside(SettledEvents(t, v))
  {
  }

  lemma {:induction false} StepExtendsTheDraft(s0: UiState, a: Answered, t: Turn, sentence: string, isFinal: bool)
    requires AllMayStand(a, t) && Drafts(ApplyAll(s0, a.events), s0, a.texts)
    ensures Drafts(ApplyAll(s0, Step(a, t, sentence, isFinal).events), s0, Step(a, t, sentence, isFinal).texts)
  {
    var (v, _) := Settled(t, sentence, a.calls);
    var before := ApplyAll(s0, a.events);
    SettledIsAside(t, v);
    ApplyConcat(s0, a.events, SettledEvents(t, v));
    AsideKeepsTheAnswer(before, SettledEvents(t, v));
    ApplySnoc(s0, a.events + SettledEvents(t, v), AnswerDelta(t.versionNo, SettledText(v), isFinal));
    DeltaExtendsTheDraft(ApplyAll(before, SettledEvents(t, v)), s0, a.texts, t.versionNo, SettledText(v), isFinal);
  }

  lemma {:induction false} FoldDrafts(s0: UiState, t: Turn, sentences: seq<string>)
    requires s0.answer.text == ""
    ensures Drafts(ApplyAll(s0, Fold(t, sentences).events), s0, Fold(t, sentences).texts)
  {
    if sentences != [] {
      var before := sentences[..|sentences| - 1];
      FoldDrafts(s0, t, before);
      FoldMayStand(t, before);
      StepExtendsTheDraft(s0, Fold(t, before), t, sentences[|sentences| - 1], false);
    }
  }

  lemma {:induction false} ErrorKeepsTheDraft(s0: UiState, a: Answered, fails: bool)
    requires Drafts(ApplyAll(s0, a.events), s0, a.texts)
    ensures Drafts(ApplyAll(s0, WithError(a, fails).events), s0, WithError(a, fails).texts)
  {
    if fails {
      assert (a.events + [ErrorEvent("generation")])[..|a.events|] == a.events;
    }
  }

  /**
    * From the start of a turn to just before the version is created, the draft becomes exactly the text that is
    * committed.
    */
  lemma {:induction false} DraftIsTheCommittedText(s0: UiState, t: Turn, split: Split, fails: bool,
                                                   versions: seq<AnswerVersion>)
    requires s0.answer.text == ""
    ensures var a := AnswerOf(t, split, fails);
      && Drafts(ApplyAll(s0, a.events), s0, a.texts)
      && (VersionOf(t, a, versions).Some? ==>
        ApplyAll(s0, a.events).answer.text == VersionOf(t, a, versions).value.text)
  {
    var body := Fold(t, split.sentences);
    FoldDrafts(s0, t, split.sentences);
    FoldMayStand(t, split.sentences);
    ErrorKeepsTheDraft(s0, body, fails);
    assert AllMayStand(WithError(body, fails), t);
    StepExtendsTheDraft(s0, WithError(body, fails), t, split.rest, true);
  }

  // ----- The page's history is the server's -----

  function ShownAll(versions: seq<AnswerVersion>): (shown: seq<UiAnswer>)
    ensures |shown| == |versions| && forall i :: 0 <= i < |shown| ==> shown[i] == Shown(versions[i])
  {
    seq(|versions|, i requires 0 <= i < |versions| => Shown(versions[i]))
  }

  /** A page that saw the whole log lists the session's versions, each once and in order. */
  ghost predicate Mirrors(log: seq<Event>, versions: seq<AnswerVersion>) {
    Numbered(versions) && ApplyAll(INITIAL, log).answerHistory == ShownAll(versions)
  }

  /** Such a page shows of each version what the server committed. */
  lemma {:induction false} HistoryTellsTheVersions(log: seq<Event>, versions: seq<AnswerVersion>, k: nat)
    requires Mirrors(log, versions) && k < |versions|
    ensures var history := ApplyAll(INITIAL, log).answerHistory;
      |history| == |versions| && Shows(history[k], versions[k])
  {
    assert ShownAll(versions)[k] == Shown(versions[k]);
  }

  /** No version is created by these events. */
  ghost predicate CreatesNone(events: seq<Event>) {
    forall i :: 0 <= i < |events| ==> !events[i].AnswerVersionCreated?
  }

  lemma {:induction false} HistoryWaits(s: UiState, events: seq<Event>)
    requires CreatesNone(events)
    ensures ApplyAll(s, events).answerHistory == s.answerHistory
  {
    if events != [] { HistoryWaits(s, events[..|events| - 1]); }
  }

  lemma {:induction false} MirrorsStill(log: seq<Event>, versions: seq<AnswerVersion>, events: seq<Event>)
    requires Mirrors(log, versions) && CreatesNone(events)
    ensures Mirrors(log + events, versions)
  {
    ApplyConcat(INITIAL, log, events);
    HistoryWaits(ApplyAll(INITIAL, log), events);
  }

  lemma {:induction false} MirrorsTheNext(log: seq<Event>, versions: seq<AnswerVersion>, v: AnswerVersion)
    requires Mirrors(log, versions) && Numbered(versions + [v])
    ensures Mirrors(log + [AnswerVersionCreated(v)], versions + [v])
  {
    var s := ApplyAll(INITIAL, log);
    assert (versions + [v])[|versions|] == v && v.versionNo == |versions| + 1;
    assert (log + [AnswerVersionCreated(v)])[..|log|] == log;
    assert !Recorded(s.answerHistory, Some(v.versionNo)) by {
      assert forall i :: 0 <= i < |versions| ==>
        s.answerHistory[i] == Shown(versions[i]) && versions[i].versionNo == i + 1;
    }
    assert ShownAll(versions) + [Shown(v)] == ShownAll(versions + [v]);
  }

  lemma {:induction false} StepCreatesNone(a: Answered, t: Turn, sentence: string, isFinal: bool)
    requires CreatesNone(a.events)
    ensures CreatesNone(Step(a, t, sentence, isFinal).events)
  {
    SettledIsAside(t, Settled(t, sentence, a.calls).0);
  }

  lemma {:induction false} FoldCreatesNone(t: Turn, sentences: seq<string>)
    ensures CreatesNone(Fold(t, sentences).events)
  {
    if sentences != [] {
      FoldCreatesNone(t, sentences[..|sentences| - 1]);
      StepCreatesNone(Fold(t, sentences[..|sentences| - 1]), t, sentences[|sentences| - 1], false);
    }
  }

  lemma {:induction false} AnswerCreatesNone(t: Turn, split: Split, fails: bool)
    ensures CreatesNone(AnswerOf(t, split, fails).events)
  {
    FoldCreatesNone(t, split.sentences);
    StepCreatesNone(WithError(Fold(t, split.sentences), fails), t, split.rest, true);
  }

  /** A turn that answers extends both sides alike; one that does not leaves both. */
  lemma {:induction false} TurnKeepsMirroring(answer: Option<AnswerVersion>, versions0: seq<AnswerVersion>,
                                              log0: seq<Event>, versions: seq<AnswerVersion>, log: seq<Event>, t: Turn,
                                              llm: Llm)
    requires Mirrors(log0, versions0) && t.versionNo == NextVersionNo(versions0)
    requires Answers(answer, versions0, log0, versions, log, t, llm)
    ensures Mirrors(log, versions)
  {
    var split := OneShot(Concat(llm.tokens), t.reader.space);
    var a := AnswerOf(t, split, llm.fails);
    AnswerCreatesNone(t, split, llm.fails);
    MirrorsStill(log0, versions0, a.events);
    if answer.Some? {
      AnsweredIsMirrored(log0 + a.events, versions0, t, a);
    }
  }

  lemma {:induction false} AnsweredIsMirrored(log: seq<Event>, versions: seq<AnswerVersion>, t: Turn, a: Answered)
    requires Mirrors(log, versions) && t.versionNo == NextVersionNo(versions) && VersionOf(t, a, versions).Some?
    ensures Mirrors(log + [AnswerVersionCreated(VersionOf(t, a, versions).value)],
      versions + [VersionOf(t, a, versions).value])
  {
    NextVersionKeepsNumbering(t, a, versions);
    MirrorsTheNext(log, versions, VersionOf(t, a, versions).value);
  }
}
