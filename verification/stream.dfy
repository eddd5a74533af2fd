/**
 What every replay looks like, that nothing but thinking is lost, and the
 accumulator a stream is stored through.
 */
module Streams {
  import opened Common
  import opened Transcripts
  import opened Replays
  import opened Turns

  // ------------------------------------------------------------------ shape

  /** An assistant message is at most one text, first, and then calls only; a
      user message is results only; neither is empty. */
  ghost predicate WellShaped(m: Message) {
    match m
    case Assistant(parts) => parts != [] && forall k :: 1 <= k < |parts| ==> parts[k].Call?
    case User(results) => results != []
  }

  ghost predicate NoUsersInARow(out: seq<Message>) {
    forall k :: 1 <= k < |out| ==> !(out[k - 1].User? && out[k].User?)
  }

  lemma {:induction false} TurnShape(t: Turn, limited: bool)
    requires WellTyped(t)
    ensures forall k :: 0 <= k < |TurnMessages(t, limited)| ==> WellShaped(TurnMessages(t, limited)[k])
    ensures NoUsersInARow(TurnMessages(t, limited))
    ensures t.text.Some? || t.calls != [] ==> TurnMessages(t, limited) != [] && TurnMessages(t, limited)[0].Assistant?
  {}

  lemma {:induction false} MessagesShape(turns: seq<Turn>, limited: bool)
    requires Canonical(turns)
    ensures forall k :: 0 <= k < |Messages(turns, limited)| ==> WellShaped(Messages(turns, limited)[k])
    ensures NoUsersInARow(Messages(turns, limited))
    decreases |turns|
  {
    var n := |turns| - 1;
    if n >= 0 {
      MessagesShape(turns[..n], limited);
      TurnShape(turns[n], limited);
      if n == 0 { assert Messages(turns[..0], limited) == []; }
    }
  }

  /** Every replay of every message is well shaped, and never gives the
      provider two user messages in a row. */
  lemma {:induction false} ReplayShape(parts: seq<Part>, limited: bool)
    ensures forall k :: 0 <= k < |Convert(parts, limited)| ==> WellShaped(Convert(parts, limited)[k])
    ensures NoUsersInARow(Convert(parts, limited))
  {
    ConvertIsTurns(parts, limited);
    GroupIsCanonical(parts);
    MessagesShape(Group(parts), limited);
  }

  // ------------------------------------------------------------ conservation

  function TextOf(parts: seq<Part>): string {
    if parts == [] then "" else TextOf(parts[..|parts| - 1]) + if parts[|parts| - 1].Text? then parts[|parts| - 1].text else ""
  }

  function CallParts(parts: seq<Part>): (r: seq<Part>)
    ensures AllCalls(r)
  {
    if parts == [] then []
    else CallParts(parts[..|parts| - 1]) + if parts[|parts| - 1].IsCall() then [parts[|parts| - 1]] else []
  }

  function ResultParts(parts: seq<Part>): (r: seq<Part>)
    ensures AllResults(r)
  {
    if parts == [] then []
    else ResultParts(parts[..|parts| - 1]) + if parts[|parts| - 1].IsResult() then [parts[|parts| - 1]] else []
  }

  function Said(content: seq<AssistantContent>): string {
    if content == [] then "" else Said(content[..|content| - 1]) + if content[|content| - 1].AssistantText? then content[|content| - 1].text else ""
  }

  function Called(content: seq<AssistantContent>): seq<AssistantContent> {
    if content == [] then [] else Called(content[..|content| - 1]) + if content[|content| - 1].Call? then [content[|content| - 1]] else []
  }

  function SaidIn(out: seq<Message>): string {
    if out == [] then "" else SaidIn(out[..|out| - 1]) + if out[|out| - 1].Assistant? then Said(out[|out| - 1].parts) else ""
  }

  function CalledIn(out: seq<Message>): seq<AssistantContent> {
    if out == [] then [] else CalledIn(out[..|out| - 1]) + if out[|out| - 1].Assistant? then Called(out[|out| - 1].parts) else []
  }

  function ResultsIn(out: seq<Message>): seq<UserContent> {
    if out == [] then [] else ResultsIn(out[..|out| - 1]) + if out[|out| - 1].User? then out[|out| - 1].results else []
  }

  lemma {:induction false} SaidMore(content: seq<AssistantContent>, c: AssistantContent)
    ensures Said(content + [c]) == Said(content) + if c.AssistantText? then c.text else ""
    ensures Called(content + [c]) == Called(content) + if c.Call? then [c] else []
  {
    assert (content + [c])[..|content|] == content;
  }

  lemma {:induction false} InMore(out: seq<Message>, m: Message)
    ensures SaidIn(out + [m]) == SaidIn(out) + if m.Assistant? then Said(m.parts) else ""
    ensures CalledIn(out + [m]) == CalledIn(out) + if m.Assistant? then Called(m.parts) else []
    ensures ResultsIn(out + [m]) == ResultsIn(out) + if m.User? then m.results else []
  {
    assert (out + [m])[..|out|] == out;
  }

  /** What the converter has said, called and answered so far. */
  ghost predicate Carries(s: State, text: string, calls: seq<AssistantContent>, results: seq<UserContent>) {
    SaidIn(s.out) + Said(s.parts) == text && CalledIn(s.out) + Called(s.parts) == calls && ResultsIn(s.out) + s.results == results
  }

  lemma {:induction false} FlushCarries(s: State, text: string, calls: seq<AssistantContent>, results: seq<UserContent>)
    requires Carries(s, text, calls, results)
    ensures Carries(Flushed(s), text, calls, results)
  {
    var out := if s.parts != [] then s.out + [Assistant(s.parts)] else s.out;
    if s.parts != [] { InMore(s.out, Assistant(s.parts)); }
    assert SaidIn(out) == text && CalledIn(out) == calls && ResultsIn(out) == ResultsIn(s.out);
    if s.results != [] { InMore(out, User(s.results)); }
    assert Said([]) == "" && Called([]) == [];
  }

  lemma {:induction false} TextCarries(s: State, text: string, calls: seq<AssistantContent>, results: seq<UserContent>, more: string, limited: bool)
    requires Carries(s, text, calls, results)
    ensures Carries(Step(s, Text(more), limited), text + more, calls, results)
  {
    if s.sawCall { FlushCarries(s, text, calls, results); }
    var f := if s.sawCall then Flushed(s).(sawCall := false) else s;
    TextAdded(f, text, calls, results, more);
  }

  /** The same content saying `more` at its end. */
  function Saying(content: seq<AssistantContent>, more: string): seq<AssistantContent> {
    var n := |content| - 1;
    if n >= 0 && content[n].AssistantText? then content[n := AssistantText(content[n].text + more)]
    else content + [AssistantText(more)]
  }

  lemma {:induction false} SaidLast(content: seq<AssistantContent>, more: string)
    requires content != [] && content[|content| - 1].AssistantText?
    ensures Said(Saying(content, more)) == Said(content) + more
    ensures Called(Saying(content, more)) == Called(content)
  {
    var n := |content| - 1;
    var front := content[..n];
    var text := content[n].text;
    assert Saying(content, more) == front + [AssistantText(text + more)];
    SaidMore(front, AssistantText(text + more));
    assert Said(content) == Said(front) + text && Called(content) == Called(front) + [];
    assert Said(front) + (text + more) == Said(front) + text + more;
  }

  lemma {:induction false} SaidSaying(content: seq<AssistantContent>, more: string)
    ensures Said(Saying(content, more)) == Said(content) + more
    ensures Called(Saying(content, more)) == Called(content)
  {
    if content != [] && content[|content| - 1].AssistantText? {
      SaidLast(content, more);
    } else {
      SaidMore(content, AssistantText(more));
    }
  }

  lemma {:induction false} TextAdded(f: State, text: string, calls: seq<AssistantContent>, results: seq<UserContent>, more: string)
    requires Carries(f, text, calls, results)
    ensures Carries(f.(parts := Saying(f.parts, more)), text + more, calls, results)
  {
    SaidSaying(f.parts, more);
    assert SaidIn(f.out) + (Said(f.parts) + more) == text + more;
  }

  lemma {:induction false} FoldCarries(parts: seq<Part>, limited: bool)
    ensures Carries(Fold(parts, limited), TextOf(parts), CallsOf(CallParts(parts)), ResultsOf(ResultParts(parts), limited))
  {
    if parts == [] {
      assert CallsOf([]) == [] && ResultsOf([], limited) == [];
    } else {
      var n := |parts| - 1;
      FoldCarries(parts[..n], limited);
      StepCarries(Fold(parts[..n], limited), parts[..n], parts[n], limited);
    }
  }

  lemma {:induction false} CallCarries(s: State, text: string, calls: seq<AssistantContent>, results: seq<UserContent>, part: Part, limited: bool)
    requires Carries(s, text, calls, results) && part.IsCall()
    ensures Carries(Step(s, part, limited), text, calls + [CallOf(part)], results)
  {
    SaidMore(s.parts, CallOf(part));
    assert Said(s.parts) + "" == Said(s.parts);
    assert CalledIn(s.out) + (Called(s.parts) + [CallOf(part)]) == calls + [CallOf(part)];
  }

  lemma {:induction false} ResultCarries(s: State, text: string, calls: seq<AssistantContent>, results: seq<UserContent>, part: Part, limited: bool)
    requires Carries(s, text, calls, results) && part.IsResult()
    ensures Carries(Step(s, part, limited), text, calls, results + [ResultOf(part, limited)])
  {
    assert ResultsIn(s.out) + (s.results + [ResultOf(part, limited)]) == results + [ResultOf(part, limited)];
  }

  lemma {:induction false} StepCarries(s: State, before: seq<Part>, part: Part, limited: bool)
    requires Carries(s, TextOf(before), CallsOf(CallParts(before)), ResultsOf(ResultParts(before), limited))
    ensures Carries(Step(s, part, limited), TextOf(before) + (if part.Text? then part.text else ""),
                    CallsOf(CallParts(before) + (if part.IsCall() then [part] else [])),
                    ResultsOf(ResultParts(before) + (if part.IsResult() then [part] else []), limited))
  {
    var text, calls, results := TextOf(before), CallsOf(CallParts(before)), ResultsOf(ResultParts(before), limited);
    NothingMore(CallParts(before), ResultParts(before), text);
    if part.Text? {
      TextCarries(s, text, calls, results, part.text, limited);
    } else if part.IsCall() {
      CallCarries(s, text, calls, results, part, limited);
      CallsMore(CallParts(before), part);
    } else if part.IsResult() {
      ResultCarries(s, text, calls, results, part, limited);
      ResultsMore(ResultParts(before), part, limited);
    }
  }

  lemma NothingMore(calls: seq<Part>, results: seq<Part>, text: string)
    ensures calls + [] == calls && results + [] == results && text + "" == text
  {}

  /** Replaying loses nothing but thinking: all the text in order, every call in
      order, every result in order. */
  lemma {:induction false} ReplayKeepsEverything(parts: seq<Part>, limited: bool)
    ensures SaidIn(Convert(parts, limited)) == TextOf(parts)
    ensures CalledIn(Convert(parts, limited)) == CallsOf(CallParts(parts))
    ensures ResultsIn(Convert(parts, limited)) == ResultsOf(ResultParts(parts), limited)
  {
    FoldCarries(parts, limited);
    FlushCarries(Fold(parts, limited), TextOf(parts), CallsOf(CallParts(parts)), ResultsOf(ResultParts(parts), limited));
    assert Said([]) == "" && Called([]) == [];
  }

  // ------------------------------------------------------------ accumulating

  datatype Mcp = Mcp(tool: string, service: string, display: Option<string>)

  datatype StreamPart =
    | Content(text: string)
    | Thought(text: string)
    | CallMade(name: string, json: Json, id: string, mcp: Option<Mcp>)
    | Answered(name: string, json: Json, id: string)
    | Failed(name: string, description: string, id: string)
    | Usage

  /** What a stream part is stored as; usage and empty deltas are not. */
  function Stored(part: StreamPart): (r: Option<Part>)
    ensures r.None? <==> part.Usage? || ((part.Content? || part.Thought?) && part.text == "")
    ensures r.Some? ==> TokensOf(r.value) != []
  {
    match part
    case Content(text) => if text != "" then Some(Text(text)) else None
    case Thought(text) => if text != "" then Some(Thinking(text)) else None
    case CallMade(name, json, id, mcp) =>
      Some(if mcp.Some? then McpToolCall(mcp.value.tool, mcp.value.service, mcp.value.display, json, id) else ToolCall(name, json, id))
    case Answered(name, json, id) => Some(ToolResponse(name, json, id))
    case Failed(name, description, id) => Some(ToolError(name, description, id))
    case Usage => None
  }

  function AllStored(stream: seq<StreamPart>): seq<Part> {
    if stream == [] then []
    else
      var last := Stored(stream[|stream| - 1]);
      AllStored(stream[..|stream| - 1]) + if last.Some? then [last.value] else []
  }

  class StreamAccumulator {
    var parts: seq<Part>

    constructor ()
      ensures parts == []
    {
      parts := [];
    }

    /** Stores a part as it arrives and gives it back unmerged. */
    method Push(part: StreamPart) returns (stored: Option<Part>)
      modifies this
      ensures stored == Stored(part)
      ensures parts == old(parts) + if stored.Some? then [stored.value] else []
    {
      stored := Stored(part);
      if stored.Some? {
        parts := parts + [stored.value];
      }
    }

    method MergedParts() returns (merged: seq<Part>)
      ensures merged == Merge(parts)
    {
      merged := MergeConsecutiveParts(parts);
    }
  }

  method Accumulate(stream: seq<StreamPart>) returns (stored: seq<Part>)
    ensures stored == Merge(AllStored(stream))
  {
    var accumulator := new StreamAccumulator();
    for k := 0 to |stream|
      invariant accumulator.parts == AllStored(stream[..k])
    {
      assert stream[..k + 1][..k] == stream[..k];
      var part := accumulator.Push(stream[k]);
    }
    assert stream[..|stream|] == stream;
    stored := accumulator.MergedParts();
  }

  lemma {:induction false} StoredNonEmpty(stream: seq<StreamPart>)
    ensures NoneEmpty(AllStored(stream))
  {
    if stream != [] {
      StoredNonEmpty(stream[..|stream| - 1]);
    }
  }

  /** The stored message replays as the stream would have, and two streams are
      stored alike exactly when they say the same, however they were split. */
  lemma {:induction false} StoredReplaysTheStream(a: seq<StreamPart>, b: seq<StreamPart>, limited: bool)
    ensures Convert(Merge(AllStored(a)), limited) == Convert(AllStored(a), limited)
    ensures Merge(AllStored(a)) == Merge(AllStored(b)) <==> Tokens(AllStored(a)) == Tokens(AllStored(b))
  {
    ReplayIgnoresMerging(AllStored(a), limited);
    StoredNonEmpty(a);
    StoredNonEmpty(b);
    MergeIsCanonical(AllStored(a), AllStored(b));
  }
}
