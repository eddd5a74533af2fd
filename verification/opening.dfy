/**
 The race between a turn's own reply and its opening line, and what the consumer
 is sent of the two.
 */
module OpeningLines {
  import opened Common

  /** A part of the turn's stream. Thinking and usage pass while the race goes
      on; anything else (content, calls, an error) ends it. */
  datatype Part = Content(text: string) | Thinking(text: string) | Usage(tokens: nat) | Other(part: nat)

  predicate Passes(part: Part) {
    part.Thinking? || part.Usage?
  }

  /** What the opening line's model decides: nothing in time, nothing at all, to
      stay silent, or a line that begins with `head`. */
  datatype Verdict = TimedOut | NoVerdict | Silent | Line(complete: bool, head: string)

  /** The rest of the line as it comes, and whether it came to its end before
      the deadline. */
  datatype Rest = Rest(deltas: seq<string>, finished: bool)

  /** A schedule: after how many parts of the stream the verdict is taken, if it
      is taken before the turn speaks, the verdict, and the line. */
  datatype Schedule = Schedule(verdictAfter: Option<nat>, verdict: Verdict, rest: Rest)

  // ------------------------------------------------------------- white space

  predicate IsWhite(c: char) {
    var n := c as int;
    9 <= n <= 13 || n == 0x20 || n == 0x85 || n == 0xA0 || n == 0x1680 || 0x2000 <= n <= 0x200A ||
    n == 0x2028 || n == 0x2029 || n == 0x202F || n == 0x205F || n == 0x3000
  }

  function TrimStart(text: string): string {
    if text != "" && IsWhite(text[0]) then TrimStart(text[1..]) else text
  }

  predicate Blank(text: string) {
    forall k :: 0 <= k < |text| ==> IsWhite(text[k])
  }

  /** Trimming takes off exactly the white space a text begins with. */
  lemma {:induction false} TrimIsSuffix(text: string) returns (k: nat)
    ensures k <= |text| && TrimStart(text) == text[k..]
    ensures forall j :: 0 <= j < k ==> IsWhite(text[j])
    ensures k < |text| ==> !IsWhite(text[k])
  {
    if text != "" && IsWhite(text[0]) {
      var rest := TrimIsSuffix(text[1..]);
      k := rest + 1;
      assert text[1..][rest..] == text[k..];
      forall j | 0 <= j < k
        ensures IsWhite(text[j])
      {
        if j > 0 { assert text[1..][j - 1] == text[j]; }
      }
    } else {
      k := 0;
    }
  }

  /** A text without its white space. */
  function Words(text: string): string {
    if text == "" then ""
    else Words(text[..|text| - 1]) + if IsWhite(text[|text| - 1]) then "" else [text[|text| - 1]]
  }

  lemma {:induction false} WordsJoin(a: string, b: string)
    ensures Words(a + b) == Words(a) + Words(b)
  {
    if b == "" {
      assert a + b == a;
    } else {
      var n := |b| - 1;
      WordsJoin(a, b[..n]);
      assert (a + b)[..|a + b| - 1] == a + b[..n];
    }
  }

  lemma {:induction false} NoWords(text: string)
    requires Blank(text)
    ensures Words(text) == ""
  {
    if text != "" { NoWords(text[..|text| - 1]); }
  }

  /** Setting a text off says the same. */
  lemma SetOffSaysTheSame(text: string)
    ensures Words("\n\n" + TrimStart(text)) == Words(text)
  {
    var k := TrimIsSuffix(text);
    WordsJoin("\n\n", TrimStart(text));
    NoWords("\n\n");
    NoWords(text[..k]);
    WordsJoin(text[..k], text[k..]);
    assert text[..k] + text[k..] == text;
  }

  // ---------------------------------------------------------- what is sent

  /** How many parts pass before the turn speaks. */
  function Lead(stream: seq<Part>): (k: nat)
    ensures k <= |stream| && forall j :: 0 <= j < k ==> Passes(stream[j])
    ensures k < |stream| ==> !Passes(stream[k])
  {
    if stream == [] || !Passes(stream[0]) then 0 else 1 + Lead(stream[1..])
  }

  /** The opening line, as it is sent: its empty deltas are not. */
  function LineParts(texts: seq<string>): seq<Part> {
    if texts == [] then []
    else LineParts(texts[..|texts| - 1]) + if texts[|texts| - 1] != "" then [Content(texts[|texts| - 1])] else []
  }

  predicate NeedsBreak(part: Part) {
    part.Content? && !Blank(part.text)
  }

  /** The first prose set off from the line before it by a blank line. */
  function Separated(parts: seq<Part>): (r: seq<Part>)
    ensures |r| == |parts|
  {
    if parts == [] then []
    else if NeedsBreak(parts[0]) then [Content("\n\n" + TrimStart(parts[0].text))] + parts[1..]
    else [parts[0]] + Separated(parts[1..])
  }

  predicate LineWins(s: Schedule, stream: seq<Part>) {
    s.verdictAfter.Some? && s.verdictAfter.value <= Lead(stream) && s.verdict.Line?
  }

  function LineOf(s: Schedule): seq<Part>
    requires s.verdict.Line?
  {
    LineParts([s.verdict.head] + s.rest.deltas)
  }

  /** Nothing follows the line: it is complete, finished and not empty. */
  predicate StandsAlone(s: Schedule, stream: seq<Part>) {
    LineWins(s, stream) && s.verdict.complete && s.rest.finished && LineOf(s) != []
  }

  /** All that is forwarded to a consumer that stays. */
  function Forwarded(s: Schedule, stream: seq<Part>): seq<Part> {
    if !LineWins(s, stream) then stream
    else
      var n := s.verdictAfter.value;
      if StandsAlone(s, stream) then stream[..n] + LineOf(s)
      else stream[..n] + LineOf(s) + if LineOf(s) != [] then Separated(stream[n..]) else stream[n..]
  }

  /** What a consumer gets that takes so many parts and then leaves. */
  function Taken(parts: seq<Part>, room: Option<nat>): seq<Part> {
    if room.Some? && room.value < |parts| then parts[..room.value] else parts
  }

  // ------------------------------------------------------------- properties

  /** The same parts but for the one at `at`, the first with prose, which is set
      off by a blank line; `at` is past the end if there is no prose. */
  ghost predicate SetOff(parts: seq<Part>, rest: seq<Part>, at: nat) {
    && |rest| == |parts| && at <= |parts|
    && (forall k :: 0 <= k < |parts| && k != at ==> rest[k] == parts[k])
    && (forall k :: 0 <= k < at ==> !NeedsBreak(parts[k]))
    && (at < |parts| ==> NeedsBreak(parts[at]) && rest[at] == Content("\n\n" + TrimStart(parts[at].text)))
  }

  lemma {:induction false} SeparatedOnce(parts: seq<Part>) returns (at: nat)
    ensures SetOff(parts, Separated(parts), at)
  {
    at := 0;
    if parts != [] && !NeedsBreak(parts[0]) {
      var later := SeparatedOnce(parts[1..]);
      at := later + 1;
      assert forall k :: 0 < k < |parts| ==> parts[k] == parts[1..][k - 1] && Separated(parts)[k] == Separated(parts[1..])[k - 1];
    }
  }

  /** The line says what its deltas say, and is empty when they are. */
  function Joined(texts: seq<string>): string {
    if texts == [] then "" else Joined(texts[..|texts| - 1]) + texts[|texts| - 1]
  }

  function Prose(parts: seq<Part>): string {
    if parts == [] then "" else Prose(parts[..|parts| - 1]) + if parts[|parts| - 1].Content? then parts[|parts| - 1].text else ""
  }

  lemma {:induction false} LineSaysItsDeltas(texts: seq<string>)
    ensures Prose(LineParts(texts)) == Joined(texts)
    ensures LineParts(texts) == [] <==> Joined(texts) == ""
  {
    if texts != [] {
      var n := |texts| - 1;
      LineSaysItsDeltas(texts[..n]);
      var before := LineParts(texts[..n]);
      if texts[n] != "" {
        assert (before + [Content(texts[n])])[..|before|] == before;
      } else {
        assert before + [] == before;
      }
    }
  }

  /** What a turn can come to for a consumer that stays: its stream; or, once a
      verdict comes among the thinking it begins with, that much of it, the line,
      and the rest with its first prose set off; or nothing after the line. */
  ghost predicate Carries(s: Schedule, stream: seq<Part>, all: seq<Part>) {
    if !LineWins(s, stream) || LineOf(s) == [] then all == stream
    else
      var n := s.verdictAfter.value;
      if StandsAlone(s, stream) then all == stream[..n] + LineOf(s)
      else exists rest, at :: SetOff(stream[n..], rest, at) && all == stream[..n] + LineOf(s) + rest
  }

  lemma ForwardedCarries(s: Schedule, stream: seq<Part>)
    ensures Carries(s, stream, Forwarded(s, stream))
  {
    if LineWins(s, stream) {
      var n := s.verdictAfter.value;
      var at := SeparatedOnce(stream[n..]);
      assert stream[..n] + [] + stream[n..] == stream;
    }
  }

  /** What a consumer may have got when it leaves or the turn ends. */
  ghost predicate MaySee(s: Schedule, stream: seq<Part>, room: Option<nat>, sent: seq<Part>) {
    exists all :: Carries(s, stream, all) && sent == Taken(all, room)
  }

  lemma ForwardedMaySee(s: Schedule, stream: seq<Part>, room: Option<nat>)
    ensures MaySee(s, stream, room, Taken(Forwarded(s, stream), room))
  {
    ForwardedCarries(s, stream);
  }

  /** Everything but prose. */
  function Unspoken(parts: seq<Part>): seq<Part> {
    if parts == [] then []
    else Unspoken(parts[..|parts| - 1]) + if parts[|parts| - 1].Content? then [] else [parts[|parts| - 1]]
  }

  lemma {:induction false} ProseJoins(a: seq<Part>, b: seq<Part>)
    ensures Prose(a + b) == Prose(a) + Prose(b)
  {
    if b == [] {
      assert a + b == a;
    } else {
      var n := |b| - 1;
      ProseJoins(a, b[..n]);
      assert (a + b)[..|a + b| - 1] == a + b[..n];
    }
  }

  lemma {:induction false} UnspokenJoins(a: seq<Part>, b: seq<Part>)
    ensures Unspoken(a + b) == Unspoken(a) + Unspoken(b)
  {
    if b == [] {
      assert a + b == a;
    } else {
      var n := |b| - 1;
      UnspokenJoins(a, b[..n]);
      assert (a + b)[..|a + b| - 1] == a + b[..n];
    }
  }

  lemma PartsJoin(a: seq<Part>, b: seq<Part>)
    ensures Words(Prose(a + b)) == Words(Prose(a)) + Words(Prose(b))
    ensures Unspoken(a + b) == Unspoken(a) + Unspoken(b)
  {
    ProseJoins(a, b);
    WordsJoin(Prose(a), Prose(b));
    UnspokenJoins(a, b);
  }

  lemma {:induction false} LeadSaysNothing(stream: seq<Part>, n: nat)
    requires n <= Lead(stream)
    ensures Prose(stream[..n]) == "" && Unspoken(stream[..n]) == stream[..n]
    decreases n
  {
    if n > 0 {
      LeadSaysNothing(stream, n - 1);
      assert stream[..n][..n - 1] == stream[..n - 1];
      assert Passes(stream[n - 1]);
    }
  }

  lemma {:induction false} LineIsProse(texts: seq<string>)
    ensures Unspoken(LineParts(texts)) == []
  {
    if texts != [] {
      var (n, before) := (|texts| - 1, LineParts(texts[..|texts| - 1]));
      LineIsProse(texts[..n]);
      if texts[n] != "" {
        OneSays(Content(texts[n]));
        UnspokenJoins(before, [Content(texts[n])]);
      } else {
        assert before + [] == before;
      }
    }
  }

  lemma SettingOffKeeps(parts: seq<Part>, rest: seq<Part>, at: nat)
    requires SetOff(parts, rest, at)
    ensures Words(Prose(rest)) == Words(Prose(parts)) && Unspoken(rest) == Unspoken(parts)
  {
    if at == |parts| {
      assert rest == parts;
    } else {
      var (before, after) := (parts[..at], parts[at + 1..]);
      assert parts == before + [parts[at]] + after && rest == before + [rest[at]] + after;
      PartsJoin(before + [parts[at]], after);
      PartsJoin(before + [rest[at]], after);
      PartsJoin(before, [parts[at]]);
      PartsJoin(before, [rest[at]]);
      SetOffSaysTheSame(parts[at].text);
      OneSays(parts[at]);
      OneSays(rest[at]);
    }
  }

  lemma OneSays(part: Part)
    requires part.Content?
    ensures Prose([part]) == part.text && Unspoken([part]) == []
  {
    assert [part][..0] == [];
  }

  /** Nothing is lost and nothing changes places: a consumer that stays reads the
      line and then the turn's whole prose, up to white space, and gets every
      other part of the stream in order; only a line that stands alone takes the
      place of what would have come after it. */
  lemma NothingLostOrReordered(s: Schedule, stream: seq<Part>, all: seq<Part>)
    requires Carries(s, stream, all)
    ensures Words(Prose(all)) ==
            (if LineWins(s, stream) then Words(Joined([s.verdict.head] + s.rest.deltas)) else "") +
            (if StandsAlone(s, stream) then "" else Words(Prose(stream)))
    ensures Unspoken(all) == if StandsAlone(s, stream) then stream[..s.verdictAfter.value] else Unspoken(stream)
  {
    if LineWins(s, stream) {
      var (n, texts) := (s.verdictAfter.value, [s.verdict.head] + s.rest.deltas);
      LineSaysItsDeltas(texts);
      if LineOf(s) != [] {
        OpeningSays(stream, n, texts);
        if !StandsAlone(s, stream) {
          var rest, at :| SetOff(stream[n..], rest, at) && all == stream[..n] + LineOf(s) + rest;
          SettingOffKeeps(stream[n..], rest, at);
          PartsJoin(stream[..n] + LineOf(s), rest);
        }
      }
    }
  }

  /** Up to the end of the line nothing but the line is said. */
  lemma OpeningSays(stream: seq<Part>, n: nat, texts: seq<string>)
    requires n <= Lead(stream)
    ensures var opening := stream[..n] + LineParts(texts);
            && Words(Prose(opening)) == Words(Joined(texts)) && Unspoken(opening) == stream[..n]
            && Words(Prose(stream)) == Words(Prose(stream[n..])) && Unspoken(stream) == stream[..n] + Unspoken(stream[n..])
  {
    LineSaysItsDeltas(texts);
    LineIsProse(texts);
    LeadSaysNothing(stream, n);
    AfterSilence(stream[..n], LineParts(texts));
    AfterSilence(stream[..n], stream[n..]);
    assert stream[..n] + stream[n..] == stream;
  }

  lemma AfterSilence(a: seq<Part>, b: seq<Part>)
    requires Prose(a) == "" && Unspoken(a) == a
    ensures Words(Prose(a + b)) == Words(Prose(b))
    ensures Unspoken(a + b) == a + Unspoken(b)
    ensures Unspoken(b) == [] ==> Unspoken(a + b) == a
  {
    PartsJoin(a, b);
    assert Words("") == "";
    assert a + [] == a;
  }

  /** A consumer that leaves has read a beginning of it. */
  lemma LeavingLosesTheEnd(all: seq<Part>, room: Option<nat>)
    ensures Words(Prose(Taken(all, room))) <= Words(Prose(all))
    ensures Unspoken(Taken(all, room)) <= Unspoken(all)
  {
    var n := |Taken(all, room)|;
    PartsJoin(all[..n], all[n..]);
    assert all[..n] + all[n..] == all && Taken(all, room) == all[..n];
  }

  // ---------------------------------------------------------------- the turn

  class Turn {
    var sent: seq<Part>
    var cancelled: bool
    const room: Option<nat>

    constructor (room: Option<nat>)
      ensures this.room == room && sent == [] && !cancelled
    {
      this.room := room;
      sent, cancelled := [], false;
    }

    /** Sends a part; a consumer that has left takes none, and the loop is
        stopped. */
    method Send(part: Part) returns (ok: bool)
      modifies this
      ensures ok == (room.None? || |old(sent)| < room.value)
      ensures sent == if ok then old(sent) + [part] else old(sent)
      ensures cancelled == (old(cancelled) || !ok)
    {
      ok := room.None? || |sent| < room.value;
      if ok {
        sent := sent + [part];
      } else {
        cancelled := true;
      }
    }

    /** Whether the consumer has taken everything so far. */
    ghost predicate Sent(parts: seq<Part>)
      reads this
    {
      sent == parts && (room.Some? ==> |parts| <= room.value)
    }

    /** The race: parts pass until the verdict or until the turn speaks. */
    method Race(stream: seq<Part>, verdictAfter: Option<nat>) returns (ok: bool, taken: nat, verdict: bool)
      requires Sent([]) && !cancelled
      modifies this
      ensures taken <= |stream|
      ensures verdict == (verdictAfter.Some? && verdictAfter.value <= Lead(stream)) || !ok
      ensures ok ==> taken == (if verdict then verdictAfter.value else Lead(stream)) && Sent(stream[..taken]) && !cancelled
      ensures !ok ==> cancelled && taken < Lead(stream) && sent == stream[..taken] && room == Some(taken)
      ensures !ok ==> verdictAfter.Some? ==> taken < verdictAfter.value
    {
      taken, verdict, ok := 0, false, true;
      while taken < |stream| && Passes(stream[taken]) && verdictAfter != Some(taken)
        invariant taken <= Lead(stream) && Sent(stream[..taken]) && !cancelled
        invariant verdictAfter.Some? ==> taken <= verdictAfter.value
      {
        assert stream[..taken + 1] == stream[..taken] + [stream[taken]];
        LeadGoesOn(stream, taken);
        ok := Send(stream[taken]);
        if !ok {
          verdict := true;
          return;
        }
        taken := taken + 1;
      }
      verdict := verdictAfter == Some(taken);
    }

    /** The opening line, delta after delta, until it ends or stalls. */
    method SendLine(head: string, rest: Rest, ghost before: seq<Part>) returns (ok: bool, lineChars: nat)
      requires Sent(before) && !cancelled
      modifies this
      ensures ok ==> Sent(before + LineParts([head] + rest.deltas)) && !cancelled && (lineChars > 0 <==> LineParts([head] + rest.deltas) != [])
      ensures !ok ==> cancelled && room.Some? && sent == Taken(before + LineParts([head] + rest.deltas), room)
                      && room.value < |before + LineParts([head] + rest.deltas)|
    {
      var texts := [head] + rest.deltas;
      lineChars := 0;
      for k := 0 to |texts|
        invariant Sent(before + LineParts(texts[..k])) && !cancelled
        invariant lineChars > 0 <==> LineParts(texts[..k]) != []
      {
        LinePartsMore(texts, k);
        assert before + LineParts(texts[..k + 1]) == before + LineParts(texts[..k]) + if texts[k] != "" then [Content(texts[k])] else [];
        lineChars := lineChars + |texts[k]|;
        if texts[k] != "" {
          ok := Send(Content(texts[k]));
          if !ok {
            LinePrefix(texts, k + 1);
            assert before + LineParts(texts[..k + 1]) <= before + LineParts(texts);
            return;
          }
        }
      }
      assert texts[..|texts|] == texts;
      ok := true;
    }

    /** The rest of the turn's stream, its first prose set off if a line was
        sent. */
    method SendRest(parts: seq<Part>, separateFirst: bool, ghost before: seq<Part>)
      requires Sent(before) && !cancelled
      modifies this
      ensures var all := before + if separateFirst then Separated(parts) else parts;
              sent == Taken(all, room) && cancelled == (room.Some? && room.value < |all|)
    {
      ghost var whole := if separateFirst then Separated(parts) else parts;
      var separate := separateFirst;
      for k := 0 to |parts|
        invariant k <= |whole| == |parts| && Sent(before + whole[..k]) && !cancelled
        invariant whole[k..] == if separate then Separated(parts[k..]) else parts[k..]
      {
        var part := parts[k];
        assert parts[k..][0] == part && parts[k..][1..] == parts[k + 1..];
        if separate && NeedsBreak(part) {
          separate := false;
          part := Content("\n\n" + TrimStart(part.text));
        }
        assert whole[k] == whole[k..][0] == part && whole[k + 1..] == whole[k..][1..];
        assert before + whole[..k + 1] == before + whole[..k] + [part];
        var ok := Send(part);
        if !ok {
          assert (before + whole)[..|before| + k] == before + whole[..k];
          return;
        }
      }
      assert whole[..|parts|] == whole;
    }

    /** A whole turn. */
    method Drive(s: Schedule, stream: seq<Part>)
      requires sent == [] && !cancelled
      modifies this
      ensures MaySee(s, stream, room, sent)
      ensures sent == Taken(Forwarded(s, stream), room)
      ensures cancelled == ((room.Some? && room.value < |Forwarded(s, stream)|) || (StandsAlone(s, stream) && sent == Forwarded(s, stream)))
    {
      ForwardedMaySee(s, stream, room);
      var ok, taken, verdict := Race(stream, s.verdictAfter);
      if !ok {
        RaceCut(s, stream, taken);
        return;
      }
      var separate := false;
      ghost var before := stream[..taken];
      if verdict && s.verdict.Line? {
        var sentAll, lineChars := SendLine(s.verdict.head, s.rest, before);
        if !sentAll {
          LineCut(s, stream);
          return;
        }
        before := before + LineOf(s);
        if s.verdict.complete && s.rest.finished && lineChars > 0 {
          cancelled := true;
          return;
        }
        separate := lineChars > 0;
      }
      GoesOn(s, stream, taken);
      SendRest(stream[taken..], separate, before);
    }
  }

  lemma {:induction false} LeadGoesOn(stream: seq<Part>, k: nat)
    requires k < |stream| && k <= Lead(stream) && Passes(stream[k])
    ensures k < Lead(stream)
  {}

  lemma {:induction false} LinePartsMore(texts: seq<string>, k: nat)
    requires k < |texts|
    ensures LineParts(texts[..k + 1]) == LineParts(texts[..k]) + if texts[k] != "" then [Content(texts[k])] else []
  {
    assert texts[..k + 1][..k] == texts[..k];
  }

  lemma {:induction false} LinePrefix(texts: seq<string>, k: nat)
    requires k <= |texts|
    ensures LineParts(texts[..k]) <= LineParts(texts)
    decreases |texts| - k
  {
    if k < |texts| {
      LinePartsMore(texts, k);
      LinePrefix(texts, k + 1);
    } else {
      assert texts[..k] == texts;
    }
  }

  /** A consumer that leaves during the race has seen a beginning of what it
      would have seen. */
  lemma {:induction false} RaceCut(s: Schedule, stream: seq<Part>, taken: nat)
    requires taken < Lead(stream) && (s.verdictAfter.Some? ==> taken < s.verdictAfter.value)
    ensures taken < |Forwarded(s, stream)| && Forwarded(s, stream)[..taken] == stream[..taken]
  {}

  /** What is forwarded once the race and the line are over. */
  lemma {:induction false} GoesOn(s: Schedule, stream: seq<Part>, taken: nat)
    requires taken <= |stream| && !StandsAlone(s, stream) && (LineWins(s, stream) ==> taken == s.verdictAfter.value)
    ensures LineWins(s, stream) ==>
              Forwarded(s, stream) == stream[..taken] + LineOf(s) + if LineOf(s) != [] then Separated(stream[taken..]) else stream[taken..]
    ensures !LineWins(s, stream) ==> Forwarded(s, stream) == stream[..taken] + stream[taken..]
  {
    assert stream[..taken] + stream[taken..] == stream;
  }

  lemma {:induction false} LineCut(s: Schedule, stream: seq<Part>)
    requires LineWins(s, stream)
    ensures stream[..s.verdictAfter.value] + LineOf(s) <= Forwarded(s, stream)
  {}
}
