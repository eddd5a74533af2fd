/**
 The turns of a replayed message. Replaying is grouping the parts into turns and
 writing each turn as its messages; grouping and flattening undo each other on
 exactly the lists of turns that grouping can give.
 */
module Turns {
  import opened Common
  import opened Transcripts

  /** One turn of the tool loop: what was said, the calls, and their results. */
  datatype Turn = Turn(text: Option<string>, calls: seq<Part>, results: seq<Part>)

  const EMPTY := Turn(None, [], [])

  datatype Grouping = Grouping(done: seq<Turn>, current: Turn)

  /** Text after a call begins another turn. */
  function GroupStep(g: Grouping, part: Part): Grouping {
    if part.Text? then
      if g.current.calls != [] then Grouping(g.done + [g.current], Turn(Some(part.text), [], []))
      else g.(current := g.current.(text := Some(g.current.text.UnwrapOr("") + part.text)))
    else if part.IsCall() then g.(current := g.current.(calls := g.current.calls + [part]))
    else if part.IsResult() then g.(current := g.current.(results := g.current.results + [part]))
    else g
  }

  function GroupFold(g: Grouping, parts: seq<Part>): Grouping {
    if parts == [] then g else GroupStep(GroupFold(g, parts[..|parts| - 1]), parts[|parts| - 1])
  }

  function Finished(g: Grouping): seq<Turn> {
    if g.current == EMPTY then g.done else g.done + [g.current]
  }

  function Group(parts: seq<Part>): seq<Turn> {
    Finished(GroupFold(Grouping([], EMPTY), parts))
  }

  // ---------------------------------------------------------------- messages

  predicate AllCalls(parts: seq<Part>) { forall k :: 0 <= k < |parts| ==> parts[k].IsCall() }

  predicate AllResults(parts: seq<Part>) { forall k :: 0 <= k < |parts| ==> parts[k].IsResult() }

  predicate WellTyped(t: Turn) { AllCalls(t.calls) && AllResults(t.results) }

  function CallsOf(parts: seq<Part>): (r: seq<AssistantContent>)
    requires AllCalls(parts)
    ensures |r| == |parts| && forall k :: 0 <= k < |parts| ==> r[k] == CallOf(parts[k])
  {
    seq(|parts|, k requires 0 <= k < |parts| => CallOf(parts[k]))
  }

  function ResultsOf(parts: seq<Part>, limited: bool): (r: seq<UserContent>)
    requires AllResults(parts)
    ensures |r| == |parts| && forall k :: 0 <= k < |parts| ==> r[k] == ResultOf(parts[k], limited)
  {
    seq(|parts|, k requires 0 <= k < |parts| => ResultOf(parts[k], limited))
  }

  function AssistantOf(t: Turn): seq<AssistantContent>
    requires WellTyped(t)
  {
    (if t.text.Some? then [AssistantText(t.text.value)] else []) + CallsOf(t.calls)
  }

  /** A turn's messages: the assistant's text and calls, then the results. */
  function TurnMessages(t: Turn, limited: bool): seq<Message>
    requires WellTyped(t)
  {
    (if AssistantOf(t) != [] then [Assistant(AssistantOf(t))] else []) +
    (if t.results != [] then [User(ResultsOf(t.results, limited))] else [])
  }

  function Messages(turns: seq<Turn>, limited: bool): seq<Message>
    requires forall k :: 0 <= k < |turns| ==> WellTyped(turns[k])
  {
    if turns == [] then [] else Messages(turns[..|turns| - 1], limited) + TurnMessages(turns[|turns| - 1], limited)
  }

  /** What grouping keeps: every finished turn ends in a call, every turn after
      the first begins with text, and none is empty. */
  ghost predicate Steady(g: Grouping) {
    && (forall k :: 0 <= k < |g.done| ==> WellTyped(g.done[k]) && g.done[k].calls != [])
    && (forall k :: 1 <= k < |g.done| ==> g.done[k].text.Some?)
    && (g.done != [] ==> g.current.text.Some?)
    && WellTyped(g.current)
  }

  lemma {:induction false} GroupSteady(parts: seq<Part>)
    ensures Steady(GroupFold(Grouping([], EMPTY), parts))
  {
    if parts != [] {
      GroupSteady(parts[..|parts| - 1]);
    }
  }

  /** The converter's state is the grouping, written as messages. */
  ghost predicate Matches(s: State, g: Grouping, limited: bool) {
    && Steady(g)
    && s.out == Messages(g.done, limited) && s.parts == AssistantOf(g.current)
    && s.results == ResultsOf(g.current.results, limited) && s.sawCall == (g.current.calls != [])
  }

  lemma {:induction false} CallsMore(parts: seq<Part>, part: Part)
    requires AllCalls(parts) && part.IsCall()
    ensures CallsOf(parts + [part]) == CallsOf(parts) + [CallOf(part)]
  {}

  lemma {:induction false} ResultsMore(parts: seq<Part>, part: Part, limited: bool)
    requires AllResults(parts) && part.IsResult()
    ensures ResultsOf(parts + [part], limited) == ResultsOf(parts, limited) + [ResultOf(part, limited)]
  {}

  lemma {:induction false} MessagesMore(done: seq<Turn>, t: Turn, limited: bool)
    requires (forall k :: 0 <= k < |done| ==> WellTyped(done[k])) && WellTyped(t)
    ensures Messages(done + [t], limited) == Messages(done, limited) + TurnMessages(t, limited)
  {
    assert (done + [t])[..|done|] == done;
  }

  lemma {:induction false} FlushMatches(s: State, g: Grouping, limited: bool)
    requires Matches(s, g, limited) && g.current.calls != []
    ensures Flushed(s) == State(Messages(g.done + [g.current], limited), [], [], s.sawCall)
  {
    MessagesMore(g.done, g.current, limited);
    assert AssistantOf(g.current) != [];
    assert s.results == [] <==> g.current.results == [];
  }

  /** Text after a call: the turn is over. */
  lemma {:induction false} NewTurnMatches(s: State, g: Grouping, text: string, limited: bool)
    requires Matches(s, g, limited) && g.current.calls != []
    ensures Matches(Step(s, Text(text), limited), GroupStep(g, Text(text)), limited)
  {
    FlushMatches(s, g, limited);
    SteadyNext(g, text);
    SpokenOf(Some(text), []);
    assert Step(s, Text(text), limited) == State(Messages(g.done + [g.current], limited), [AssistantText(text)], [], false);
  }

  lemma {:induction false} SteadyNext(g: Grouping, text: string)
    requires Steady(g) && g.current.calls != []
    ensures Steady(Grouping(g.done + [g.current], Turn(Some(text), [], [])))
  {}

  lemma {:induction false} SpokenOf(text: Option<string>, results: seq<Part>)
    requires AllResults(results)
    ensures AssistantOf(Turn(text, [], results)) == if text.Some? then [AssistantText(text.value)] else []
  {}

  /** Text before any call: it is said in the same turn. */
  lemma {:induction false} SameTurnMatches(s: State, g: Grouping, text: string, limited: bool)
    requires Matches(s, g, limited) && g.current.calls == []
    ensures Matches(Step(s, Text(text), limited), GroupStep(g, Text(text)), limited)
  {
    var t := g.current;
    SpokenOf(t.text, t.results);
    SpokenOf(Some(t.text.UnwrapOr("") + text), t.results);
    assert t.text.None? ==> "" + text == text;
  }

  lemma {:induction false} StepMatches(s: State, g: Grouping, part: Part, limited: bool)
    requires Matches(s, g, limited)
    ensures Matches(Step(s, part, limited), GroupStep(g, part), limited)
  {
    if part.Text? {
      if g.current.calls != [] { NewTurnMatches(s, g, part.text, limited); } else { SameTurnMatches(s, g, part.text, limited); }
    } else if part.IsCall() {
      CallsMore(g.current.calls, part);
    } else if part.IsResult() {
      ResultsMore(g.current.results, part, limited);
    }
  }

  lemma {:induction false} FoldMatches(parts: seq<Part>, limited: bool)
    ensures Matches(Fold(parts, limited), GroupFold(Grouping([], EMPTY), parts), limited)
  {
    if parts == [] {
      assert CallsOf([]) == [] && ResultsOf([], limited) == [];
    } else {
      var n := |parts| - 1;
      FoldMatches(parts[..n], limited);
      StepMatches(Fold(parts[..n], limited), GroupFold(Grouping([], EMPTY), parts[..n]), parts[n], limited);
    }
  }

  lemma {:induction false} GroupWellTyped(parts: seq<Part>)
    ensures forall k :: 0 <= k < |Group(parts)| ==> WellTyped(Group(parts)[k])
  {
    GroupSteady(parts);
  }

  /** Replaying writes out the turns, one after another. */
  lemma {:induction false} ConvertIsTurns(parts: seq<Part>, limited: bool)
    ensures forall k :: 0 <= k < |Group(parts)| ==> WellTyped(Group(parts)[k])
    ensures Convert(parts, limited) == Messages(Group(parts), limited)
  {
    GroupWellTyped(parts);
    FoldMatches(parts, limited);
    var s, g := Fold(parts, limited), GroupFold(Grouping([], EMPTY), parts);
    if g.current == EMPTY {
      assert AssistantOf(EMPTY) == [];
    } else {
      assert (g.done + [g.current])[..|g.done|] == g.done;
    }
  }

  // ------------------------------------------------------ flatten and regroup

  function FlatTurn(t: Turn): seq<Part> {
    (if t.text.Some? then [Text(t.text.value)] else []) + t.calls + t.results
  }

  function Flatten(turns: seq<Turn>): seq<Part> {
    if turns == [] then [] else Flatten(turns[..|turns| - 1]) + FlatTurn(turns[|turns| - 1])
  }

  /** Every turn but the last has a call, every turn after the first begins
      with text, and none is empty. */
  ghost predicate Canonical(turns: seq<Turn>) {
    && (forall k :: 0 <= k < |turns| ==> WellTyped(turns[k]) && turns[k] != EMPTY)
    && (forall k :: 0 <= k < |turns| - 1 ==> turns[k].calls != [])
    && (forall k :: 1 <= k < |turns| ==> turns[k].text.Some?)
  }

  lemma {:induction false} GroupIsCanonical(parts: seq<Part>)
    ensures Canonical(Group(parts))
  {
    GroupSteady(parts);
  }

  lemma {:induction false} FoldTwo(g: Grouping, a: seq<Part>, b: seq<Part>)
    ensures GroupFold(g, a + b) == GroupFold(GroupFold(g, a), b)
    decreases |b|
  {
    if b == [] {
      assert a + b == a;
    } else {
      var n := |b| - 1;
      assert (a + b)[..|a + b| - 1] == a + b[..n];
      FoldTwo(g, a, b[..n]);
    }
  }

  lemma {:induction false} FoldCalls(g: Grouping, calls: seq<Part>)
    requires AllCalls(calls)
    ensures GroupFold(g, calls) == g.(current := g.current.(calls := g.current.calls + calls))
  {
    var n := |calls| - 1;
    if n >= 0 {
      FoldCalls(g, calls[..n]);
      assert g.current.calls + calls[..n] + [calls[n]] == g.current.calls + calls;
    } else {
      assert g.current.calls + calls == g.current.calls;
    }
  }

  lemma {:induction false} FoldResults(g: Grouping, results: seq<Part>)
    requires AllResults(results)
    ensures GroupFold(g, results) == g.(current := g.current.(results := g.current.results + results))
  {
    var n := |results| - 1;
    if n >= 0 {
      FoldResults(g, results[..n]);
      assert g.current.results + results[..n] + [results[n]] == g.current.results + results;
    } else {
      assert g.current.results + results == g.current.results;
    }
  }

  /** A turn's parts make that turn, wherever a turn may begin. */
  lemma {:induction false} FoldTurn(g: Grouping, t: Turn)
    requires WellTyped(t)
    requires g == Grouping([], EMPTY) || (g.current.calls != [] && t.text.Some?)
    ensures GroupFold(g, FlatTurn(t)) == Grouping(if g.current.calls != [] then g.done + [g.current] else [], t)
  {
    var text := if t.text.Some? then [Text(t.text.value)] else [];
    var g1 := GroupFold(g, text);
    FoldText(g, t.text);
    FoldTwo(g, text + t.calls, t.results);
    FoldTwo(g, text, t.calls);
    FoldCalls(g1, t.calls);
    FoldResults(GroupFold(g1, t.calls), t.results);
    assert [] + t.calls == t.calls && [] + t.results == t.results;
  }

  lemma {:induction false} FoldText(g: Grouping, text: Option<string>)
    requires g == Grouping([], EMPTY) || (g.current.calls != [] && text.Some?)
    ensures var parts := if text.Some? then [Text(text.value)] else [];
            GroupFold(g, parts) == Grouping(if g.current.calls != [] then g.done + [g.current] else [], Turn(text, [], []))
  {
    if text.Some? {
      assert [Text(text.value)][..0] == [];
      assert "" + text.value == text.value;
    }
  }

  lemma {:induction false} FoldTurns(turns: seq<Turn>)
    requires Canonical(turns) && turns != []
    ensures GroupFold(Grouping([], EMPTY), Flatten(turns)) == Grouping(turns[..|turns| - 1], turns[|turns| - 1])
    decreases |turns|
  {
    var n := |turns| - 1;
    if n > 0 {
      FoldTurns(turns[..n]);
      FoldTwo(Grouping([], EMPTY), Flatten(turns[..n]), FlatTurn(turns[n]));
      assert turns[n - 1].calls != [] && turns[..n][..n - 1] + [turns[n - 1]] == turns[..n];
      FoldTurn(Grouping(turns[..n][..n - 1], turns[n - 1]), turns[n]);
    } else {
      assert turns[..0] == [] && [] + FlatTurn(turns[0]) == FlatTurn(turns[0]);
      FoldTurn(Grouping([], EMPTY), turns[0]);
    }
  }

  /** Flattening turns and grouping them again gives them back. */
  lemma {:induction false} GroupFlatten(turns: seq<Turn>)
    requires Canonical(turns)
    ensures Group(Flatten(turns)) == turns
  {
    if turns != [] {
      FoldTurns(turns);
      assert turns == turns[..|turns| - 1] + [turns[|turns| - 1]];
    }
  }

  /** The lists of turns that come back from flattening are exactly those. */
  lemma {:induction false} FlattenRoundTrip(turns: seq<Turn>)
    ensures Group(Flatten(turns)) == turns <==> Canonical(turns)
  {
    GroupIsCanonical(Flatten(turns));
    if Canonical(turns) { GroupFlatten(turns); }
  }

  /** Replaying flattened turns gives each turn's messages. */
  lemma {:induction false} ReplayTurns(turns: seq<Turn>, limited: bool)
    requires Canonical(turns)
    ensures Convert(Flatten(turns), limited) == Messages(turns, limited)
  {
    GroupFlatten(turns);
    ConvertIsTurns(Flatten(turns), limited);
  }
}
