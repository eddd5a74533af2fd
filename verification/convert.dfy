/**
 Replaying a stored assistant message: its parts, flat as they streamed in,
 become the messages a provider expects, one turn after another.
 */
module Transcripts {
  import opened Common
  import ToolResults

  /** A JSON value: whether it is an object, whether it holds media, and its
      serialisation. */
  datatype Json = Json(isObject: bool, hasMedia: bool, text: string)

  const EMPTY_OBJECT := Json(true, false, "{}")

  datatype Part =
    | Text(text: string)
    | ToolCall(name: string, json: Json, id: string)
    | McpToolCall(name: string, service: string, display: Option<string>, json: Json, id: string)
    | ToolResponse(name: string, json: Json, id: string)
    | ToolError(name: string, description: string, id: string)
    | Thinking(thinking: string)
  {
    predicate IsCall() { ToolCall? || McpToolCall? }
    predicate IsResult() { ToolResponse? || ToolError? }
  }

  datatype ResultContent = Media(json: Json) | Plain(text: string)

  datatype AssistantContent = AssistantText(text: string) | Call(itemId: string, callId: string, name: string, input: Json)

  datatype UserContent = ToolResult(itemId: string, callId: string, content: ResultContent)

  datatype Message = Assistant(parts: seq<AssistantContent>) | User(results: seq<UserContent>)

  // -------------------------------------------------------------------- ids

  predicate IsSeparator(c: char) { c == '_' || c == '-' }

  /** An id without its trailing separators. */
  function ReplayCallId(id: string): (r: string)
    ensures r <= id
    ensures r != "" ==> !IsSeparator(r[|r| - 1])
    ensures forall k :: |r| <= k < |id| ==> IsSeparator(id[k])
  {
    if id == "" || !IsSeparator(id[|id| - 1]) then id else ReplayCallId(id[..|id| - 1])
  }

  function ReplayItemId(id: string): string {
    "fc_" + ReplayCallId(id)
  }

  /** Trimming is decided by those three facts: there is one such prefix. */
  lemma TrimIsUnique(id: string, r: string)
    requires r <= id && (r != "" ==> !IsSeparator(r[|r| - 1])) && forall k :: |r| <= k < |id| ==> IsSeparator(id[k])
    ensures r == ReplayCallId(id)
  {
    var t := ReplayCallId(id);
    assert t != "" ==> !IsSeparator(id[|t| - 1]);
    assert r != "" ==> !IsSeparator(id[|r| - 1]);
  }

  /** A call and a result replay under one id exactly when their ids differ in
      nothing but trailing separators: the same id always pairs, and ids that
      differ only there are confused. */
  lemma ReplayPairs(a: string, b: string)
    ensures ReplayItemId(a) == ReplayItemId(b) <==> ReplayCallId(a) == ReplayCallId(b)
    ensures ReplayCallId(a) == ReplayCallId(b) <==>
            exists stem: string :: stem <= a && stem <= b && OnlySeparators(a[|stem|..]) && OnlySeparators(b[|stem|..])
  {
    assert ReplayItemId(a)[3..] == ReplayCallId(a) && ReplayItemId(b)[3..] == ReplayCallId(b);
    if ReplayCallId(a) == ReplayCallId(b) {
      var stem := ReplayCallId(a);
      assert OnlySeparators(a[|stem|..]) && OnlySeparators(b[|stem|..]);
    }
    if stem: string :| stem <= a && stem <= b && OnlySeparators(a[|stem|..]) && OnlySeparators(b[|stem|..]) {
      TrimStem(a, stem);
      TrimStem(b, stem);
    }
  }

  predicate OnlySeparators(s: string) {
    forall k :: 0 <= k < |s| ==> IsSeparator(s[k])
  }

  lemma TrimStem(id: string, stem: string)
    requires stem <= id && OnlySeparators(id[|stem|..])
    ensures ReplayCallId(id) == ReplayCallId(stem)
  {
    var r := ReplayCallId(stem);
    forall k | |r| <= k < |id|
      ensures IsSeparator(id[k])
    {
      if k >= |stem| { assert id[k] == id[|stem|..][k - |stem|]; } else { assert id[k] == stem[k]; }
    }
    TrimIsUnique(id, r);
  }

  // -------------------------------------------------------------- conversion

  /** A result as replayed: whole, or its preview when limited and too long. */
  function ModelView(limited: bool, id: string, text: string): string {
    if limited then ToolResults.Cut(id, text).UnwrapOr(text) else text
  }

  function CallOf(part: Part): AssistantContent
    requires part.IsCall()
  {
    Call(ReplayItemId(part.id), ReplayCallId(part.id), part.name, if part.json.isObject then part.json else EMPTY_OBJECT)
  }

  function ResultOf(part: Part, limited: bool): UserContent
    requires part.IsResult()
  {
    var content :=
      if part.ToolError? then Plain(ModelView(limited, part.id, part.description))
      else if part.json.hasMedia then Media(part.json)
      else Plain(ModelView(limited, part.id, part.json.text));
    ToolResult(ReplayItemId(part.id), ReplayCallId(part.id), content)
  }

  datatype State = State(out: seq<Message>, parts: seq<AssistantContent>, results: seq<UserContent>, sawCall: bool)

  const START := State([], [], [], false)

  function Flushed(s: State): State {
    var out := if s.parts != [] then s.out + [Assistant(s.parts)] else s.out;
    State(if s.results != [] then out + [User(s.results)] else out, [], [], s.sawCall)
  }

  function Step(s: State, part: Part, limited: bool): State {
    if part.Text? then
      var f := if s.sawCall then Flushed(s).(sawCall := false) else s;
      var n := |f.parts| - 1;
      if n >= 0 && f.parts[n].AssistantText? then f.(parts := f.parts[n := AssistantText(f.parts[n].text + part.text)])
      else f.(parts := f.parts + [AssistantText(part.text)])
    else if part.IsCall() then s.(sawCall := true, parts := s.parts + [CallOf(part)])
    else if part.IsResult() then s.(results := s.results + [ResultOf(part, limited)])
    else s
  }

  function Fold(parts: seq<Part>, limited: bool): State {
    if parts == [] then START else Step(Fold(parts[..|parts| - 1], limited), parts[|parts| - 1], limited)
  }

  /** The messages an assistant message's parts replay as. */
  function Convert(parts: seq<Part>, limited: bool): seq<Message> {
    Flushed(Fold(parts, limited)).out
  }

  /** An assistant message as stored: one text, or parts. */
  datatype Saved = WholeText(text: string) | InParts(parts: seq<Part>)

  function ConvertStored(content: Saved, limited: bool): seq<Message> {
    if content.WholeText? then [Assistant([AssistantText(content.text)])] else Convert(content.parts, limited)
  }

  /** The text of a result that limiting may cut. */
  function CuttableText(part: Part): Option<string> {
    if part.ToolError? then Some(part.description)
    else if part.ToolResponse? && !part.json.hasMedia then Some(part.json.text)
    else None
  }

  predicate IsCut(part: Part) {
    CuttableText(part).Some? && |CuttableText(part).value| > ToolResults.MAX_RESULT_CHARS
  }

  /** The results kept for reading once some parts have been replayed. */
  function KeptAfter(kept: map<string, string>, parts: seq<Part>): map<string, string> {
    if parts == [] then kept
    else
      var before := KeptAfter(kept, parts[..|parts| - 1]);
      var part := parts[|parts| - 1];
      if IsCut(part) then before[part.id := CuttableText(part).value] else before
  }

  method ConvertAssistant(content: Saved, limit: ToolResults.ToolResultLimit?) returns (out: seq<Message>)
    modifies limit
    ensures out == ConvertStored(content, limit != null)
    ensures limit != null ==> limit.kept == if content.InParts? then KeptAfter(old(limit.kept), content.parts) else old(limit.kept)
  {
    if content.WholeText? {
      return [Assistant([AssistantText(content.text)])];
    }
    var parts := content.parts;
    out := [];
    var assistantParts: seq<AssistantContent> := [];
    var toolResults: seq<UserContent> := [];
    var sawToolCall := false;
    for k := 0 to |parts|
      invariant State(out, assistantParts, toolResults, sawToolCall) == Fold(parts[..k], limit != null)
      invariant limit != null ==> limit.kept == KeptAfter(old(limit.kept), parts[..k])
    {
      assert parts[..k + 1][..k] == parts[..k];
      out, assistantParts, toolResults, sawToolCall := TakePart(parts[k], out, assistantParts, toolResults, sawToolCall, limit);
    }
    assert parts[..|parts|] == parts;
    out := Flush(out, assistantParts, toolResults);
  }

  method TakePart(part: Part, out: seq<Message>, parts: seq<AssistantContent>, results: seq<UserContent>, saw: bool,
                  limit: ToolResults.ToolResultLimit?)
    returns (out': seq<Message>, parts': seq<AssistantContent>, results': seq<UserContent>, saw': bool)
    modifies limit
    ensures State(out', parts', results', saw') == Step(State(out, parts, results, saw), part, limit != null)
    ensures limit != null ==>
              limit.kept == if IsCut(part) then old(limit.kept)[part.id := CuttableText(part).value] else old(limit.kept)
  {
    out', parts', results', saw' := out, parts, results, saw;
    match part {
      case Text(text) =>
        if saw {
          out' := Flush(out, parts, results);
          parts', results', saw' := [], [], false;
        }
        var n := |parts'| - 1;
        if n >= 0 && parts'[n].AssistantText? {
          parts' := parts'[n := AssistantText(parts'[n].text + text)];
        } else {
          parts' := parts' + [AssistantText(text)];
        }
      case ToolCall(_, _, _) =>
        parts', saw' := parts + [CallOf(part)], true;
      case McpToolCall(_, _, _, _, _) =>
        parts', saw' := parts + [CallOf(part)], true;
      case ToolResponse(_, json, id) =>
        var content := Media(json);
        if !json.hasMedia {
          var text := Viewed(limit, id, json.text);
          content := Plain(text);
        }
        results' := results + [ToolResult(ReplayItemId(id), ReplayCallId(id), content)];
      case ToolError(_, description, id) =>
        var text := Viewed(limit, id, description);
        results' := results + [ToolResult(ReplayItemId(id), ReplayCallId(id), Plain(text))];
      case Thinking(_) =>
    }
  }

  method Viewed(limit: ToolResults.ToolResultLimit?, id: string, text: string) returns (r: string)
    modifies limit
    ensures r == ModelView(limit != null, id, text)
    ensures limit != null ==>
              limit.kept == if |text| > ToolResults.MAX_RESULT_CHARS then old(limit.kept)[id := text] else old(limit.kept)
  {
    r := text;
    if limit != null {
      var cut := limit.View(id, text);
      r := cut.UnwrapOr(text);
    }
  }

  method Flush(out: seq<Message>, assistantParts: seq<AssistantContent>, toolResults: seq<UserContent>) returns (r: seq<Message>)
    ensures forall saw: bool :: r == Flushed(State(out, assistantParts, toolResults, saw)).out
  {
    r := out;
    if assistantParts != [] {
      r := r + [Assistant(assistantParts)];
    }
    if toolResults != [] {
      r := r + [User(toolResults)];
    }
  }
}
