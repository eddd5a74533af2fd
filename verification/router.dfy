/**
 Routing recorded traffic to sessions. Requests name their session and responses
 do not; a response follows the request it answers.
 */
module Routers {
  import opened Common

  datatype Direction = ToServer | ToRuntime

  function Opposite(d: Direction): Direction {
    if d == ToServer then ToRuntime else ToServer
  }

  /** A JSON-RPC message as the router reads it: ids are numbered in the order of
      their text. */
  datatype Message = Message(direction: Direction, isCall: bool, id: Option<nat>, session: Option<string>, minted: Option<string>)

  /** A recorded line; one that does not parse has no message. */
  datatype Line = Line(text: string, message: Option<Message>)

  datatype Key = Key(direction: Direction, id: nat)

  datatype Pending = ForSession(session: string) | Unattributed(request: Line)

  datatype Append = Shared(line: Line) | ToSession(session: string, line: Line)

  type Requests = map<Key, Pending>

  /** What a line does: a request is remembered, a response looked up, and
      either goes to its session, to everyone, or waits. */
  function Route(pending: Requests, line: Line): (Requests, seq<Append>) {
    if line.message.None? then (pending, [Shared(line)])
    else
      var m := line.message.value;
      if m.isCall && m.id.Some? then
        var key := Key(m.direction, m.id.value);
        if m.session.Some? then (pending[key := ForSession(m.session.value)], [ToSession(m.session.value, line)])
        else (pending[key := Unattributed(line)], [])
      else if m.isCall then (pending, [if m.session.Some? then ToSession(m.session.value, line) else Shared(line)])
      else if m.id.Some? then
        var key := Key(Opposite(m.direction), m.id.value);
        if key !in pending then (pending, [Shared(line)])
        else (pending - {key}, Answer(pending[key], line, m.minted))
      else (pending, [Shared(line)])
  }

  function Answer(request: Pending, line: Line, minted: Option<string>): seq<Append> {
    if request.ForSession? then [ToSession(request.session, line)]
    else if minted.Some? then [ToSession(minted.value, request.request), ToSession(minted.value, line)]
    else [Shared(request.request), Shared(line)]
  }

  datatype Routing = Routing(pending: Requests, out: seq<Append>)

  function RouteAll(lines: seq<Line>): Routing {
    if lines == [] then Routing(map[], [])
    else
      var before := RouteAll(lines[..|lines| - 1]);
      var (pending, more) := Route(before.pending, lines[|lines| - 1]);
      Routing(pending, before.out + more)
  }

  // ------------------------------------------------------------- attribution

  predicate IsRequest(line: Line, key: Key) {
    line.message.Some? && line.message.value.isCall && line.message.value.id == Some(key.id) && line.message.value.direction == key.direction
  }

  predicate IsResponse(line: Line, key: Key) {
    line.message.Some? && !line.message.value.isCall && line.message.value.id == Some(key.id) &&
    Opposite(line.message.value.direction) == key.direction
  }

  /** The request a response would answer, from the history alone: the last one
      with its id the other way, unless it has been answered since. */
  function InFlight(lines: seq<Line>, key: Key): Option<Line> {
    if lines == [] then None
    else
      var last := lines[|lines| - 1];
      if IsRequest(last, key) then Some(last)
      else if IsResponse(last, key) then None
      else InFlight(lines[..|lines| - 1], key)
  }

  function Waiting(request: Line): Pending {
    if request.message.Some? && request.message.value.session.Some? then ForSession(request.message.value.session.value)
    else Unattributed(request)
  }

  /** The map of pending requests is the history, looked up. */
  lemma {:induction false} PendingIsHistory(lines: seq<Line>, key: Key)
    ensures var pending := RouteAll(lines).pending;
            && (key in pending <==> InFlight(lines, key).Some?)
            && (key in pending ==> pending[key] == Waiting(InFlight(lines, key).value))
  {
    if lines != [] {
      PendingIsHistory(lines[..|lines| - 1], key);
    }
  }

  /** A response goes where the request it answers went, or where it minted a
      session if that request waited, and to everyone without one. */
  lemma {:induction false} ResponsesAreAttributed(lines: seq<Line>, line: Line, key: Key)
    requires IsResponse(line, key)
    ensures var more := Route(RouteAll(lines).pending, line).1;
            match InFlight(lines, key)
            case None => more == [Shared(line)]
            case Some(request) => more == Answer(Waiting(request), line, line.message.value.minted)
  {
    PendingIsHistory(lines, key);
  }

  // ------------------------------------------------------------ conservation

  function LinesOf(out: seq<Append>): (r: seq<Line>)
    ensures |r| == |out| && forall k :: 0 <= k < |out| ==> r[k] == out[k].line
  {
    seq(|out|, k requires 0 <= k < |out| => out[k].line)
  }

  function HeldBy(p: Pending): multiset<Line> {
    if p.Unattributed? then multiset{p.request} else multiset{}
  }

  ghost function AnyKey(pending: Requests): (key: Key)
    requires pending != map[]
    ensures key in pending
  {
    var key :| key in pending;
    key
  }

  lemma {:induction false} OneFewer(pending: Requests, key: Key)
    requires key in pending
    ensures |pending - {key}| < |pending|
  {
    assert pending.Keys == (pending - {key}).Keys + {key};
  }

  /** The request lines waiting on their responses. */
  ghost function Held(pending: Requests): multiset<Line>
    decreases |pending|
  {
    if pending == map[] then multiset{}
    else
      var key := AnyKey(pending);
      OneFewer(pending, key);
      HeldBy(pending[key]) + Held(pending - {key})
  }

  lemma {:induction false} HeldWithout(pending: Requests, key: Key)
    requires key in pending
    ensures Held(pending) == HeldBy(pending[key]) + Held(pending - {key})
    decreases |pending|
  {
    var first := AnyKey(pending);
    if first != key {
      OneFewer(pending, first);
      OneFewer(pending, key);
      HeldWithout(pending - {first}, key);
      HeldWithout(pending - {key}, first);
      assert pending - {first} - {key} == pending - {key} - {first};
      Swap(HeldBy(pending[first]), HeldBy(pending[key]), Held(pending - {first} - {key}));
    }
  }

  lemma {:induction false} Swap(a: multiset<Line>, b: multiset<Line>, c: multiset<Line>)
    ensures a + (b + c) == b + (a + c)
  {}

  lemma {:induction false} HeldWith(pending: Requests, key: Key, p: Pending)
    ensures Held(pending[key := p]) == Held(pending - {key}) + HeldBy(p)
  {
    HeldWithout(pending[key := p], key);
    assert pending[key := p] - {key} == pending - {key};
  }

  /** The request line lost when its id is used again before it is answered. */
  function Dropped(pending: Requests, line: Line): multiset<Line> {
    if line.message.Some? && line.message.value.isCall && line.message.value.id.Some? then
      var key := Key(line.message.value.direction, line.message.value.id.value);
      if key in pending then HeldBy(pending[key]) else multiset{}
    else multiset{}
  }

  function DroppedIn(lines: seq<Line>): multiset<Line> {
    if lines == [] then multiset{}
    else DroppedIn(lines[..|lines| - 1]) + Dropped(RouteAll(lines[..|lines| - 1]).pending, lines[|lines| - 1])
  }

  lemma {:induction false} LinesMore(a: seq<Append>, b: seq<Append>)
    ensures multiset(LinesOf(a + b)) == multiset(LinesOf(a)) + multiset(LinesOf(b))
  {
    assert LinesOf(a + b) == LinesOf(a) + LinesOf(b);
  }

  /** One line in, and what is emitted, held and dropped balance. */
  lemma {:induction false} RouteConserves(pending: Requests, line: Line)
    ensures var (after, more) := Route(pending, line);
            Held(pending) + multiset{line} == multiset(LinesOf(more)) + Held(after) + Dropped(pending, line)
  {
    if line.message.Some? && line.message.value.id.Some? {
      var m := line.message.value;
      var key := Key(if m.isCall then m.direction else Opposite(m.direction), m.id.value);
      HeldOrAbsent(pending, key);
      if m.isCall {
        RequestConserves(pending, line, key);
      } else {
        ResponseConserves(pending, line, key);
      }
    } else {
      assert LinesOf(Route(pending, line).1) == [line];
    }
  }

  lemma {:induction false} HeldOrAbsent(pending: Requests, key: Key)
    ensures Held(pending) == Held(pending - {key}) + HeldAt(pending, key)
  {
    if key in pending {
      HeldWithout(pending, key);
    } else {
      assert pending - {key} == pending;
    }
  }

  function HeldAt(pending: Requests, key: Key): multiset<Line> {
    if key in pending then HeldBy(pending[key]) else multiset{}
  }

  /** A request is emitted or held, and what its id held before is dropped. */
  lemma {:induction false} RequestFacts(pending: Requests, line: Line, key: Key)
    requires IsRequest(line, key)
    ensures var (after, more) := Route(pending, line);
            && Held(after) == Held(pending - {key}) + HeldBy(Waiting(line))
            && multiset(LinesOf(more)) + HeldBy(Waiting(line)) == multiset{line}
            && Dropped(pending, line) == HeldAt(pending, key)
  {
    HeldWith(pending, key, Waiting(line));
    RouteRequest(pending, line, key);
    RequestLines(line);
  }

  /** What is emitted of a request at once. */
  function Emitted(line: Line): seq<Append> {
    var w := Waiting(line);
    if w.ForSession? then [ToSession(w.session, line)] else []
  }

  lemma {:induction false} RouteRequest(pending: Requests, line: Line, key: Key)
    requires IsRequest(line, key)
    ensures Route(pending, line) == (pending[key := Waiting(line)], Emitted(line))
    ensures Dropped(pending, line) == HeldAt(pending, key)
  {}

  lemma {:induction false} RequestLines(line: Line)
    requires line.message.Some?
    ensures multiset(LinesOf(Emitted(line))) + HeldBy(Waiting(line)) == multiset{line}
  {
    if Waiting(line).ForSession? {
      assert LinesOf(Emitted(line)) == [line];
    } else {
      assert LinesOf(Emitted(line)) == [];
    }
  }

  lemma {:induction false} RequestConserves(pending: Requests, line: Line, key: Key)
    requires IsRequest(line, key)
    requires Held(pending) == Held(pending - {key}) + HeldAt(pending, key)
    ensures var (after, more) := Route(pending, line);
            Held(pending) + multiset{line} == multiset(LinesOf(more)) + Held(after) + Dropped(pending, line)
  {
    RequestFacts(pending, line, key);
    Trade(Held(pending - {key}), HeldAt(pending, key), multiset{line}, multiset(LinesOf(Route(pending, line).1)), HeldBy(Waiting(line)));
  }

  lemma {:induction false} Trade(rest: multiset<Line>, gone: multiset<Line>, one: multiset<Line>, more: multiset<Line>, held: multiset<Line>)
    requires more + held == one
    ensures rest + gone + one == more + (rest + held) + gone
  {
    assert rest + gone + (more + held) == more + (rest + held) + gone;
  }

  /** A response is emitted together with the request that waited for it. */
  lemma {:induction false} ResponseFacts(pending: Requests, line: Line, key: Key)
    requires IsResponse(line, key)
    ensures var (after, more) := Route(pending, line);
            && after == pending - {key} && Dropped(pending, line) == multiset{}
            && multiset(LinesOf(more)) == HeldAt(pending, key) + multiset{line}
  {
    var (after, more) := Route(pending, line);
    if key !in pending { assert pending - {key} == pending; }
    if key in pending && pending[key].Unattributed? {
      assert LinesOf(more) == [pending[key].request, line];
    } else {
      assert LinesOf(more) == [line];
    }
  }

  lemma {:induction false} ResponseConserves(pending: Requests, line: Line, key: Key)
    requires IsResponse(line, key)
    requires Held(pending) == Held(pending - {key}) + HeldAt(pending, key)
    ensures var (after, more) := Route(pending, line);
            Held(pending) + multiset{line} == multiset(LinesOf(more)) + Held(after) + Dropped(pending, line)
  {
    ResponseFacts(pending, line, key);
    Reorder(Held(pending - {key}), HeldAt(pending, key), multiset{line});
  }

  lemma {:induction false} Reorder(rest: multiset<Line>, held: multiset<Line>, one: multiset<Line>)
    ensures rest + held + one == held + one + rest + multiset{}
  {}

  /** Over any traffic every line routed in is emitted, held or dropped, as
      often as it came. */
  lemma {:induction false} NothingVanishes(lines: seq<Line>)
    ensures var r := RouteAll(lines);
            multiset(lines) == multiset(LinesOf(r.out)) + Held(r.pending) + DroppedIn(lines)
  {
    if lines == [] {
      assert LinesOf([]) == [];
    } else {
      var n := |lines| - 1;
      NothingVanishes(lines[..n]);
      var before := RouteAll(lines[..n]);
      RouteConserves(before.pending, lines[n]);
      LinesMore(before.out, Route(before.pending, lines[n]).1);
      assert lines == lines[..n] + [lines[n]];
      Balance(multiset(lines[..n]), multiset{lines[n]}, multiset(LinesOf(before.out)), Held(before.pending), DroppedIn(lines[..n]),
              multiset(LinesOf(Route(before.pending, lines[n]).1)), Held(RouteAll(lines).pending), Dropped(before.pending, lines[n]));
    }
  }

  lemma {:induction false} Balance(all: multiset<Line>, one: multiset<Line>, out: multiset<Line>, held: multiset<Line>, lost: multiset<Line>,
                more: multiset<Line>, after: multiset<Line>, gone: multiset<Line>)
    requires all == out + held + lost && held + one == more + after + gone
    ensures all + one == out + more + after + (lost + gone)
  {
    assert all + one == out + lost + (held + one);
    assert out + lost + (more + after + gone) == out + more + after + (lost + gone);
  }

  /** No request uses an id again, in its direction, while an earlier one that
      named no session is still in flight. */
  ghost predicate IdsWait(lines: seq<Line>) {
    forall k, key :: 0 <= k < |lines| && IsRequest(lines[k], key) ==> IdFree(lines[..k], key)
  }

  predicate IdFree(lines: seq<Line>, key: Key) {
    var request := InFlight(lines, key);
    request.Some? ==> Waiting(request.value).ForSession?
  }

  lemma {:induction false} DroppedIffReused(lines: seq<Line>, line: Line)
    ensures Dropped(RouteAll(lines).pending, line) == multiset{} <==>
            forall key :: IsRequest(line, key) ==> IdFree(lines, key)
  {
    if line.message.Some? && line.message.value.isCall && line.message.value.id.Some? {
      var key := Key(line.message.value.direction, line.message.value.id.value);
      PendingIsHistory(lines, key);
      assert IsRequest(line, key);
      var pending := RouteAll(lines).pending;
      if key in pending && pending[key].Unattributed? {
        assert pending[key].request in Dropped(pending, line);
      }
    }
  }

  lemma {:induction false} IdsWaitPrefix(lines: seq<Line>)
    requires lines != []
    ensures var n := |lines| - 1;
            IdsWait(lines) <==> IdsWait(lines[..n]) && forall key :: IsRequest(lines[n], key) ==> IdFree(lines[..n], key)
  {
    var n := |lines| - 1;
    forall k, key | 0 <= k < n && IsRequest(lines[..n][k], key)
      ensures lines[..n][..k] == lines[..k]
    {}
    if IdsWait(lines[..n]) && forall key :: IsRequest(lines[n], key) ==> IdFree(lines[..n], key) {
      forall k, key | 0 <= k < |lines| && IsRequest(lines[k], key)
        ensures IdFree(lines[..k], key)
      {
        if k < n { assert IsRequest(lines[..n][k], key) && lines[..n][..k] == lines[..k]; }
      }
    }
    if IdsWait(lines) {
      forall k, key | 0 <= k < n && IsRequest(lines[..n][k], key)
        ensures IdFree(lines[..n][..k], key)
      {
        assert IsRequest(lines[k], key) && lines[..n][..k] == lines[..k];
      }
    }
  }

  /** Exactly then is no line lost: what came in is what is emitted and held. */
  lemma {:induction false} LosslessIffIdsWait(lines: seq<Line>)
    ensures DroppedIn(lines) == multiset{} <==> IdsWait(lines)
  {
    if lines != [] {
      var n := |lines| - 1;
      LosslessIffIdsWait(lines[..n]);
      DroppedIffReused(lines[..n], lines[n]);
      IdsWaitPrefix(lines);
      var more := Dropped(RouteAll(lines[..n]).pending, lines[n]);
      assert DroppedIn(lines) == DroppedIn(lines[..n]) + more;
      if more != multiset{} {
        var line :| line in more;
        assert line in DroppedIn(lines);
      }
      if DroppedIn(lines[..n]) != multiset{} {
        var line :| line in DroppedIn(lines[..n]);
        assert line in DroppedIn(lines);
      }
    }
  }

  lemma {:induction false} Conserved(lines: seq<Line>)
    ensures var r := RouteAll(lines);
            multiset(lines) == multiset(LinesOf(r.out)) + Held(r.pending) <==> IdsWait(lines)
  {
    NothingVanishes(lines);
    LosslessIffIdsWait(lines);
    var r := RouteAll(lines);
    if DroppedIn(lines) != multiset{} {
      assert |multiset(lines)| == |multiset(LinesOf(r.out))| + |Held(r.pending)| + |DroppedIn(lines)|;
    }
  }

  // ------------------------------------------------------------------- drain

  predicate Before(a: Key, b: Key) {
    (a.direction == ToRuntime && b.direction == ToServer) || (a.direction == b.direction && a.id < b.id)
  }

  /** The keys of some requests in order. */
  ghost predicate InOrder(keys: seq<Key>, pending: Requests) {
    && (forall j, k :: 0 <= j < k < |keys| ==> Before(keys[j], keys[k]))
    && (forall key :: key in keys <==> key in pending)
  }

  /** The lines still held, in the order of their keys, for everyone. */
  function Leftovers(keys: seq<Key>, pending: Requests): seq<Append>
    requires forall k :: 0 <= k < |keys| ==> keys[k] in pending
  {
    if keys == [] then []
    else Leftovers(keys[..|keys| - 1], pending) +
         var p := pending[keys[|keys| - 1]];
         if p.Unattributed? then [Shared(p.request)] else []
  }

  lemma {:induction false} LeftoversAreHeld(keys: seq<Key>, pending: Requests)
    requires InOrder(keys, pending)
    ensures multiset(LinesOf(Leftovers(keys, pending))) == Held(pending)
    decreases |keys|
  {
    if keys == [] {
      assert pending.Keys == {};
      assert pending == map[];
      assert LinesOf([]) == [];
    } else {
      var n := |keys| - 1;
      var key := keys[n];
      assert key in keys;
      RestInOrder(keys, pending);
      LeftoversAreHeld(keys[..n], pending - {key});
      SameLeftovers(keys[..n], pending, pending - {key});
      HeldWithout(pending, key);
      LastLeftover(Leftovers(keys[..n], pending), pending[key]);
    }
  }

  lemma {:induction false} LastLeftover(before: seq<Append>, p: Pending)
    ensures multiset(LinesOf(before + if p.Unattributed? then [Shared(p.request)] else [])) == HeldBy(p) + multiset(LinesOf(before))
  {
    if p.Unattributed? {
      LinesMore(before, [Shared(p.request)]);
      assert LinesOf([Shared(p.request)]) == [p.request];
    } else {
      assert before + [] == before;
    }
  }

  lemma {:induction false} RestInOrder(keys: seq<Key>, pending: Requests)
    requires InOrder(keys, pending) && keys != []
    ensures InOrder(keys[..|keys| - 1], pending - {keys[|keys| - 1]})
  {
    var n := |keys| - 1;
    forall key
      ensures key in keys[..n] <==> key in pending - {keys[n]}
    {
      if key in pending && key != keys[n] {
        var k :| 0 <= k < |keys| && keys[k] == key;
        assert keys[..n][k] == key;
      }
      if key in keys[..n] {
        var k :| 0 <= k < n && keys[..n][k] == key;
        assert Before(keys[k], keys[n]) && keys[k] in keys;
      }
    }
  }

  lemma {:induction false} SameLeftovers(keys: seq<Key>, a: Requests, b: Requests)
    requires forall k :: 0 <= k < |keys| ==> keys[k] in a && keys[k] in b && a[keys[k]] == b[keys[k]]
    ensures Leftovers(keys, a) == Leftovers(keys, b)
  {
    if keys != [] {
      SameLeftovers(keys[..|keys| - 1], a, b);
    }
  }
}
