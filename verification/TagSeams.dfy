/** What joining two texts with a blank does to the tags they show. */
module TagSeams {
  import opened Options
  import opened Text
  import opened CitationTags

  /** A tag and the stretch of text that shows it. */
  datatype Shown = Shown(tag: Tag, start: nat, end: nat)

  /** What is read at the start of a text: a tag or a single character, and what is left. */
  datatype Read = Read(tag: Option<Tag>, rest: string)

  type Reads = string -> Read

  ghost predicate Shortens(next: Reads) {
    forall s :: s != "" ==> |next(s).rest| < |s|
  }

  /** Reading as the parser does, tag by tag or character by character. */
  function ReadsOf(space: Spaces): (next: Reads)
    ensures Shortens(next)
    ensures forall s :: s != "" ==> next(s) == Next(s, space)
  {
    s => if s == "" then Read(None, "") else Next(s, space)
  }

  function Next(s: string, space: Spaces): (n: Read)
    requires s != ""
    ensures |n.rest| < |s|
  {
    match Parse(s, space)
    case Some(found) => Read(Some(found.tag), found.rest)
    case None => Read(None, s[1..])
  }

  /** The tags that are read, with their stretches, counted from `at`. */
  ghost function Stretches(s: string, at: nat, next: Reads): seq<Shown>
    requires Shortens(next)
    decreases |s|
  {
    if s == "" then []
    else
      var n := next(s);
      var end := at + (|s| - |n.rest|);
      if n.tag.Some? then [Shown(n.tag.value, at, end)] + Stretches(n.rest, end, next)
      else Stretches(n.rest, end, next)
  }

  /** The tags of s with their stretches, counted from `at`. */
  ghost function ShownFrom(s: string, at: nat, space: Spaces): seq<Shown> {
    Stretches(s, at, ReadsOf(space))
  }

  function TagsIn(shown: seq<Shown>): seq<Tag> {
    if shown == [] then [] else [shown[0].tag] + TagsIn(shown[1..])
  }

  lemma {:induction false} ShownAreTheTags(s: string, at: nat, space: Spaces)
    ensures TagsIn(ShownFrom(s, at, space)) == Tags(s, space)
    decreases |s|
  {
    if s != "" {
      var n := Next(s, space);
      var end := at + (|s| - |n.rest|);
      ShownAreTheTags(n.rest, end, space);
      assert n.tag.Some? ==>
        ([Shown(n.tag.value, at, end)] + ShownFrom(n.rest, end, space))[1..] == ShownFrom(n.rest, end, space);
    }
  }

  lemma {:induction false} TagsInConcat(a: seq<Shown>, b: seq<Shown>)
    ensures TagsIn(a + b) == TagsIn(a) + TagsIn(b)
  {
    if a == [] {
      assert a + b == b;
    } else {
      assert (a + b)[1..] == a[1..] + b;
      TagsInConcat(a[1..], b);
    }
  }

  /** Every stretch lies within these bounds. */
  ghost predicate AllWithin(shown: seq<Shown>, from: nat, to: nat) {
    forall i :: 0 <= i < |shown| ==> from <= shown[i].start < shown[i].end <= to
  }

  lemma {:induction false} StretchesWithin(s: string, at: nat, next: Reads)
    requires Shortens(next)
    ensures AllWithin(Stretches(s, at, next), at, at + |s|)
    decreases |s|
  {
    if s != "" {
      StretchesWithin(next(s).rest, at + (|s| - |next(s).rest|), next);
    }
  }

  // ----- What is pending behind a bracket, and what would close it -----

  /** The number of words, runs without whitespace. */
  function Words(s: string, space: Spaces): nat
    decreases |s|
  {
    var word := DropSpaces(s, space);
    if word == "" then 0
    else
      assert |TakeRun(word, space).1| < |word| by { RunTakesSome(s, space); }
      1 + Words(TakeRun(word, space).1, space)
  }

  lemma {:induction false} RunTakesSome(s: string, space: Spaces)
    ensures var word := DropSpaces(s, space); word != "" ==> !space(word[0]) && TakeRun(word, space).0 != ""
  {
    var w := DropSpacesSplits(s, space);
  }

  predicate StartsWithClose(s: string, space: Spaces) {
    var rest := DropSpaces(s, space);
    rest != "" && rest[0] == ']'
  }

  /** A closing bracket behind at least one character. */
  predicate HoldsClose(run: string) {
    exists i :: 1 <= i < |run| && run[i] == ']'
  }

  /** The text completes a tag of which a bracket and this many words stand before it. */
  predicate Completes(words: nat, y: string, space: Spaces) {
    if words == 0 then
      var (docId, after) := TakeRun(DropSpaces(y, space), space);
      docId != "" && after != "" && CompletesSection(after, space)
    else if words == 1 then CompletesSection(y, space)
    else words == 2 && StartsWithClose(y, space)
  }

  predicate CompletesSection(y: string, space: Spaces) {
    var (run, after) := TakeRun(DropSpaces(y, space), space);
    run != "" && (HoldsClose(run) || StartsWithClose(after, space))
  }

  lemma {:induction false} CutExactlyWhenHeld(run: string)
    ensures CutAtLastClose(run).Some? <==> HoldsClose(run)
  {
    if |run| >= 2 {
      CutExactlyWhenHeld(run[1..]);
      if HoldsClose(run[1..]) {
        var i :| 1 <= i < |run| - 1 && run[1..][i] == ']';
        assert run[i + 1] == ']';
      }
      if i :| 1 <= i < |run| && run[i] == ']' && i > 1 {
        assert run[1..][i - 1] == ']';
      }
    }
  }

  // ----- Reading across the seam -----

  lemma {:induction false} DropAcross(u: string, t: string, space: Spaces)
    ensures DropSpaces(u + t, space) == if DropSpaces(u, space) == "" then DropSpaces(t, space)
      else DropSpaces(u, space) + t
  {
    if u == "" {
      assert u + t == t;
    } else if space(u[0]) {
      assert (u + t)[1..] == u[1..] + t;
      DropAcross(u[1..], t, space);
    }
  }

  lemma {:induction false} RunAcross(u: string, t: string, space: Spaces)
    requires t != "" && space(t[0])
    ensures TakeRun(u + t, space) == (TakeRun(u, space).0, TakeRun(u, space).1 + t)
  {
    if u == "" {
      assert u + t == t && TakeRun(t, space) == ("", t);
    } else if !space(u[0]) {
      assert (u + t)[1..] == u[1..] + t;
      RunAcross(u[1..], t, space);
    }
  }

  /** What the parser needs behind the document's words: a section and its bracket. */
  predicate ParsesSection(gap: string, space: Spaces) {
    var (run, after) := TakeRun(gap, space);
    run != "" && (StartsWithClose(after, space) || CutAtLastClose(run).Some?)
  }

  lemma {:induction false} ParseNeeds(s: string, space: Spaces)
    requires s != "" && s[0] == '['
    ensures var (docId, afterDoc) := TakeRun(DropSpaces(s[1..], space), space);
      Parse(s, space).Some? <==> docId != "" && afterDoc != "" && ParsesSection(DropSpaces(afterDoc, space), space)
  {
    var start := DropSpaces(s[1..], space);
    var (docId, afterDoc) := TakeRun(start, space);
    TakeRunSplits(start, space);
    assert afterDoc != "" ==> |DropSpaces(afterDoc, space)| < |afterDoc|;
  }

  /** The bracket at the start of s stands open at its end, and y completes a tag. */
  predicate Opens(s: string, y: string, space: Spaces) {
    s != "" && s[0] == '[' && Completes(Words(s[1..], space), y, space)
  }

  lemma {:induction false} BlankIsDropped(y: string, space: Spaces)
    requires space(' ')
    ensures DropSpaces(" " + y, space) == DropSpaces(y, space)
  {
    assert (" " + y)[1..] == y;
  }

  /** The rest behind a tag is shorter than what follows the gap in it. */
  lemma {:induction false} RestIsBehindTheGap(s: string, space: Spaces)
    requires Parse(s, space).Some?
    ensures var after := TakeRun(DropSpaces(s[1..], space), space).1;
      |Parse(s, space).value.rest| < |DropSpaces(after, space)|
  {
    var gap := DropSpaces(TakeRun(DropSpaces(s[1..], space), space).1, space);
    var (run, afterRun) := TakeRun(gap, space);
    assert gap == run + afterRun;
  }

  /** With no word behind the bracket yet, the whole tag has to come from y. */
  lemma {:induction false} AcrossNoWord(s: string, y: string, space: Spaces)
    requires space(' ') && s != "" && s[0] == '[' && DropSpaces(s[1..], space) == ""
    ensures Parse(s, space).None?
    ensures Parse(s + (" " + y), space).Some? <==> Completes(0, y, space)
    ensures Parse(s + (" " + y), space).Some? ==> |Parse(s + (" " + y), space).value.rest| <= |y|
  {
    var t := " " + y;
    assert (s + t)[1..] == s[1..] + t;
    DropAcross(s[1..], t, space);
    BlankIsDropped(y, space);
    ParseNeeds(s + t, space);
    var (docId, after) := TakeRun(DropSpaces(y, space), space);
    SectionNeeds(after, space);
    if Parse(s + t, space).Some? {
      RestIsBehindTheGap(s + t, space);
      assert |DropSpaces(after, space)| <= |after| <= |DropSpaces(y, space)| <= |y|;
    }
  }

  lemma {:induction false} SectionNeeds(y: string, space: Spaces)
    ensures ParsesSection(DropSpaces(y, space), space) <==> CompletesSection(y, space)
  {
    CutExactlyWhenHeld(TakeRun(DropSpaces(y, space), space).0);
  }

  /** With one word behind it, the section and the closing bracket have to. */
  lemma {:induction false} AcrossOneWord(s: string, y: string, space: Spaces)
    requires space(' ') && s != "" && s[0] == '[' && DropSpaces(s[1..], space) != ""
    requires DropSpaces(TakeRun(DropSpaces(s[1..], space), space).1, space) == ""
    ensures Parse(s, space).None?
    ensures Parse(s + (" " + y), space).Some? <==> Completes(1, y, space)
    ensures Parse(s + (" " + y), space).Some? ==> |Parse(s + (" " + y), space).value.rest| <= |y|
  {
    var t := " " + y;
    var word := DropSpaces(s[1..], space);
    assert (s + t)[1..] == s[1..] + t;
    DropAcross(s[1..], t, space);
    RunAcross(word, t, space);
    DropAcross(TakeRun(word, space).1, t, space);
    BlankIsDropped(y, space);
    RunTakesSome(s[1..], space);
    ParseNeeds(s + t, space);
    ParseNeeds(s, space);
    SectionNeeds(y, space);
    if Parse(s + t, space).Some? {
      RestIsBehindTheGap(s + t, space);
    }
  }

  /** A parsed tag with more text behind it. */
  function Longer(found: Option<Found>, t: string): Option<Found> {
    if found.None? then None else Some(Found(found.value.tag, found.value.rest + t))
  }

  /** With two words or more behind it, only a closing bracket behind the second word changes what is read. */
  lemma {:induction false} AcrossTwoWords(s: string, y: string, space: Spaces)
    requires space(' ') && s != "" && s[0] == '[' && DropSpaces(s[1..], space) != ""
    requires DropSpaces(TakeRun(DropSpaces(s[1..], space), space).1, space) != ""
    ensures var gap := DropSpaces(TakeRun(DropSpaces(s[1..], space), space).1, space);
      var open := DropSpaces(TakeRun(gap, space).1, space) == "" && StartsWithClose(y, space);
      if open then Parse(s + (" " + y), space).Some? && |Parse(s + (" " + y), space).value.rest| <= |y|
      else Parse(s + (" " + y), space) == Longer(Parse(s, space), " " + y)
  {
    var t := " " + y;
    var word := DropSpaces(s[1..], space);
    var afterDoc := TakeRun(word, space).1;
    var gap := DropSpaces(afterDoc, space);
    var (run, after) := TakeRun(gap, space);
    PartsAcross(s, y, word, afterDoc, gap, after, space);
    RunTakesSome(s[1..], space);
    RunTakesSome(afterDoc, space);
    EndingAcross(TakeRun(word, space).0, run, after, y, space);
  }

  /** What closes a tag, with a blank and y behind it. */
  lemma {:induction false} EndingAcross(docId: string, run: string, after: string, y: string, space: Spaces)
    requires space(' ')
    ensures var t := " " + y; var open := DropSpaces(after, space) == "" && StartsWithClose(y, space);
      if open then Ending(docId, run, after + t, space).Some?
        && |Ending(docId, run, after + t, space).value.rest| <= |y|
      else Ending(docId, run, after + t, space) == Longer(Ending(docId, run, after, space), t)
  {
    var t, close := " " + y, DropSpaces(after, space);
    DropAcross(after, t, space);
    BlankIsDropped(y, space);
    if close != "" {
      assert (close + t)[0] == close[0] && (close + t)[1..] == close[1..] + t;
    }
    TailAcross(run, after, t);
  }

  /** The parts of s, and those of s with a blank and y behind it. */
  lemma {:induction false} PartsAcross(s: string, y: string, word: string, afterDoc: string, gap: string,
                                       after: string, space: Spaces)
    requires space(' ') && s != "" && word == DropSpaces(s[1..], space) != "" && afterDoc == TakeRun(word, space).1
    requires gap == DropSpaces(afterDoc, space) != "" && after == TakeRun(gap, space).1
    ensures var t := " " + y;
      && DropSpaces((s + t)[1..], space) == word + t && TakeRun(word + t, space) ==
        (TakeRun(word, space).0, afterDoc + t)
      && DropSpaces(afterDoc + t, space) == gap + t && |gap| < |afterDoc|
      && TakeRun(gap + t, space) == (TakeRun(gap, space).0, after + t)
  {
    var t := " " + y;
    assert (s + t)[1..] == s[1..] + t;
    DropAcross(s[1..], t, space);
    RunAcross(word, t, space);
    DropAcross(afterDoc, t, space);
    RunAcross(gap, t, space);
    TakeRunSplits(word, space);
  }

  lemma {:induction false} TailAcross(run: string, after: string, t: string)
    ensures CutAtLastClose(run).Some? ==>
      CutAtLastClose(run).value.1 + (after + t) == (CutAtLastClose(run).value.1 + after) + t
  {
  }

  /** Across the seam s is read on as it was, unless the bracket at its start stands open and y completes it. */
  lemma {:induction false} NextAcross(s: string, y: string, space: Spaces)
    requires space(' ') && s != ""
    ensures var n := Next(s + (" " + y), space);
      if Opens(s, y, space) then n.tag.Some? && |n.rest| <= |y|
      else n == Read(Next(s, space).tag, Next(s, space).rest + (" " + y))
  {
    ParseAcross(s, y, space);
    assert (s + (" " + y))[1..] == s[1..] + (" " + y);
  }

  lemma {:induction false} ParseAcross(s: string, y: string, space: Spaces)
    requires space(' ') && s != ""
    ensures if Opens(s, y, space) then Parse(s + (" " + y), space).Some?
      && |Parse(s + (" " + y), space).value.rest| <= |y|
            else Parse(s + (" " + y), space) == Longer(Parse(s, space), " " + y)
  {
    if s[0] == '[' {
      var word := DropSpaces(s[1..], space);
      if word == "" {
        AcrossNoWord(s, y, space);
      } else {
        var gap := DropSpaces(TakeRun(word, space).1, space);
        if gap == "" {
          AcrossOneWord(s, y, space);
        } else {
          AcrossTwoWords(s, y, space);
        }
        CountTheWords(s[1..], space);
      }
    }
  }

  lemma {:induction false} CountTheWords(u: string, space: Spaces)
    requires DropSpaces(u, space) != ""
    ensures var gap := DropSpaces(TakeRun(DropSpaces(u, space), space).1, space);
      if gap == "" then Words(u, space) == 1
      else (Words(u, space) == 2 <==> DropSpaces(TakeRun(gap, space).1, space) == "") && Words(u, space) >= 2
  {
    var after := TakeRun(DropSpaces(u, space), space).1;
    var gap := DropSpaces(after, space);
    assert Words(u, space) == 1 + Words(after, space);
    if gap != "" {
      assert Words(after, space) == 1 + Words(TakeRun(gap, space).1, space);
    }
  }

  // ----- The seam -----

  /** With t behind it a text is read on as it was, unless it stands open: then a tag is read that ends within t. */
  ghost predicate ReadOn(next: Reads, opens: string -> bool, t: string) {
    forall s :: s != "" ==> ReadOnAt(next, opens, s, s + t, t)
  }

  ghost predicate ReadOnAt(next: Reads, opens: string -> bool, s: string, st: string, t: string) {
    if opens(s) then next(st).tag.Some? && |next(st).rest| < |t| else next(st) == Read(next(s).tag, next(s).rest + t)
  }

  /** Some text that reading x comes to stands open. */
  ghost predicate Reaches(x: string, next: Reads, opens: string -> bool)
    requires Shortens(next)
    decreases |x|
  {
    x != "" && (opens(x) || Reaches(next(x).rest, next, opens))
  }

  /** Some bracket of x that no earlier tag covers stands open at its end, and y completes a tag. */
  ghost predicate Bridged(x: string, y: string, space: Spaces) {
    Reaches(x, ReadsOf(space), (s: string) => Opens(s, y, space))
  }

  lemma {:induction false} ReadOnBehindABlank(y: string, space: Spaces)
    requires space(' ')
    ensures ReadOn(ReadsOf(space), (s: string) => Opens(s, y, space), " " + y)
  {
    forall s: string | s != "" ensures ReadOnAt(ReadsOf(space), (s: string) => Opens(s, y, space), s, s + (" " + y),
      " " + y) {
      NextAcross(s, y, space);
    }
  }

  lemma {:induction false} StretchesAcross(x: string, t: string, at: nat, next: Reads, opens: string -> bool)
    requires Shortens(next) && ReadOn(next, opens, t) && !Reaches(x, next, opens)
    ensures Stretches(x + t, at, next) == Stretches(x, at, next) + Stretches(t, at + |x|, next)
    decreases |x|
  {
    if x == "" {
      assert x + t == t;
    } else {
      var rest, xt := next(x).rest, x + t;
      var end := at + (|x| - |rest|);
      StretchesAcross(rest, t, end, next, opens);
      assert ReadOnAt(next, opens, x, xt, t);
      assert at + (|xt| - |rest + t|) == end;
    }
  }

  /** A stretch that begins before the position and ends behind it. */
  ghost predicate Crosses(shown: seq<Shown>, position: nat) {
    exists i :: 0 <= i < |shown| && shown[i].start < position < shown[i].end
  }

  lemma {:induction false} SomethingCrosses(x: string, t: string, at: nat, next: Reads, opens: string -> bool)
    requires Shortens(next) && ReadOn(next, opens, t) && Reaches(x, next, opens)
    ensures Crosses(Stretches(x + t, at, next), at + |x|)
    decreases |x|
  {
    var rest, xt := next(x).rest, x + t;
    assert ReadOnAt(next, opens, x, xt, t);
    if opens(x) {
      assert Stretches(xt, at, next)[0].start < at + |x| < Stretches(xt, at, next)[0].end;
    } else {
      var end := at + (|x| - |rest|);
      SomethingCrosses(rest, t, end, next, opens);
      assert at + (|xt| - |rest + t|) == end;
      CrossesBehind(if next(x).tag.Some? then [Shown(next(x).tag.value, at, end)]
        else [], Stretches(rest + t, end, next), at + |x|);
    }
  }

  lemma {:induction false} CrossesBehind(front: seq<Shown>, rest: seq<Shown>, position: nat)
    requires Crosses(rest, position)
    ensures Crosses(front + rest, position) && (front == [] ==> front + rest == rest)
  {
    var i :| 0 <= i < |rest| && rest[i].start < position < rest[i].end;
    assert (front + rest)[|front| + i] == rest[i];
  }

  lemma {:induction false} SameFront(a: seq<Shown>, b: seq<Shown>, c: seq<Shown>)
    ensures a + c == b + c <==> a == b
  {
    if a + c == b + c {
      assert |a| == |b|;
      assert forall i :: 0 <= i < |a| ==> (a + c)[i] == a[i] && (b + c)[i] == b[i];
    }
  }

  lemma {:induction false} NoneCrosses(a: seq<Shown>, b: seq<Shown>, position: nat)
    requires (forall i :: 0 <= i < |a| ==> a[i].end <= position) && forall i :: 0 <= i < |b| ==> b[i].start >= position
    ensures !Crosses(a + b, position)
  {
  }

  /** Joining t to x keeps what was laid out exactly when x showed that and nothing it left open is reached. */
  lemma {:induction false} OneTextMore(x: string, t: string, laid: seq<Shown>, next: Reads, opens: string -> bool)
    requires Shortens(next) && ReadOn(next, opens, t) && AllWithin(laid, 0, |x|)
    ensures Stretches(x + t, 0, next) == laid + Stretches(t, |x|, next) <==>
      Stretches(x, 0, next) == laid && !Reaches(x, next, opens)
  {
    if Reaches(x, next, opens) {
      SomethingCrosses(x, t, 0, next, opens);
      StretchesWithin(t, |x|, next);
      NoneCrosses(laid, Stretches(t, |x|, next), |x|);
    } else {
      StretchesAcross(x, t, 0, next, opens);
      SameFront(Stretches(x, 0, next), laid, Stretches(t, |x|, next));
    }
  }

  lemma {:induction false} ShownBehindABlank(y: string, at: nat, space: Spaces)
    requires space(' ')
    ensures ShownFrom(" " + y, at, space) == ShownFrom(y, at + 1, space)
  {
    var t := " " + y;
    assert t[1..] == y && Next(t, space) == Read(None, y);
  }

  /**
    * Two texts joined by a blank show exactly the tags of the first and then those of the second, each over its own
    * stretch, if and only if no bracket left open in the first is completed to a tag by the second.
    */
  lemma {:induction false} JoiningShowsTheSameExactly(x: string, y: string, laid: seq<Shown>, space: Spaces)
    requires space(' ') && AllWithin(laid, 0, |x|)
    ensures ShownFrom(x + (" " + y), 0, space) == laid + ShownFrom(y, |x| + 1, space) <==>
      ShownFrom(x, 0, space) == laid && !Bridged(x, y, space)
  {
    ReadOnBehindABlank(y, space);
    ShownBehindABlank(y, |x|, space);
    OneTextMore(x, " " + y, laid, ReadsOf(space), (s: string) => Opens(s, y, space));
  }

  // ----- A whole answer -----

  /** The tags of each text of an answer, over its stretch of the joined text. */
  ghost function Layout(texts: seq<string>, space: Spaces): seq<Shown> {
    if texts == [] then []
    else
      var before, last := texts[..|texts| - 1], texts[|texts| - 1];
      Layout(before, space) + ShownFrom(last, if before == [] then 0 else |Join(before, " ")| + 1, space)
  }

  /** No text completes a bracket that those before it have left open. */
  ghost predicate NoSeamBridged(texts: seq<string>, space: Spaces) {
    forall k :: 0 < k < |texts| ==> !Bridged(Join(texts[..k], " "), texts[k], space)
  }

  lemma {:induction false} LayoutWithin(texts: seq<string>, space: Spaces)
    ensures AllWithin(Layout(texts, space), 0, |Join(texts, " ")|)
  {
    if texts != [] {
      var before, last := texts[..|texts| - 1], texts[|texts| - 1];
      LayoutWithin(before, space);
      StretchesWithin(last, if before == [] then 0 else |Join(before, " ")| + 1, ReadsOf(space));
    }
  }

  /**
    * The joined text of an answer shows exactly the tags of its texts, each over its own stretch, iff no seam is
    * bridged.
    */
  lemma {:induction false} AnswerShowsItsTextsExactly(texts: seq<string>, space: Spaces)
    requires space(' ')
    ensures ShownFrom(Join(texts, " "), 0, space) == Layout(texts, space) <==> NoSeamBridged(texts, space)
  {
    if |texts| == 1 {
      assert Layout(texts[..0], space) == [] && [] + ShownFrom(texts[0], 0, space) == ShownFrom(texts[0], 0, space);
    } else if |texts| > 1 {
      var before, last := texts[..|texts| - 1], texts[|texts| - 1];
      var x := Join(before, " ");
      AnswerShowsItsTextsExactly(before, space);
      assert Join(texts, " ") == x + (" " + last);
      LayoutWithin(before, space);
      SeamsOfPrefix(texts, space);
      JoiningShowsTheSameExactly(x, last, Layout(before, space), space);
    }
  }

  lemma {:induction false} SeamsOfPrefix(texts: seq<string>, space: Spaces)
    requires |texts| > 1
    ensures var k := |texts| - 1;
      NoSeamBridged(texts, space) <==>
        NoSeamBridged(texts[..k], space) && !Bridged(Join(texts[..k], " "), texts[k], space)
  {
    var k := |texts| - 1;
    assert forall j :: 0 < j < k ==> texts[..k][..j] == texts[..j] && texts[..k][j] == texts[j];
  }

  /** The tags of each text, one text after the other. */
  function TagsOfAll(texts: seq<string>, space: Spaces): seq<Tag> {
    if texts == [] then [] else TagsOfAll(texts[..|texts| - 1], space) + Tags(texts[|texts| - 1], space)
  }

  lemma {:induction false} LayoutShowsAll(texts: seq<string>, space: Spaces)
    ensures TagsIn(Layout(texts, space)) == TagsOfAll(texts, space)
  {
    if texts != [] {
      var before, last := texts[..|texts| - 1], texts[|texts| - 1];
      var at := if before == [] then 0 else |Join(before, " ")| + 1;
      LayoutShowsAll(before, space);
      ShownAreTheTags(last, at, space);
      TagsInConcat(Layout(before, space), ShownFrom(last, at, space));
    }
  }
}
