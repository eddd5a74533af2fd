/**
 Writing routed lines to one recording a session. Every recording stands alone:
 it has all that was shared, in order, and its own session's lines.
 */
module Recorders {
  import opened Common
  import opened Routers

  /** An id as a file name: anything outside a conservative alphabet is '_'. */
  function SafeChar(c: char): char {
    if 'a' <= c <= 'z' || 'A' <= c <= 'Z' || '0' <= c <= '9' || c == '-' || c == '_' || c == '.' then c else '_'
  }

  function SafeName(session: string): (r: string)
    ensures |r| == |session| && forall k :: 0 <= k < |session| ==> r[k] == SafeChar(session[k])
  {
    seq(|session|, k requires 0 <= k < |session| => SafeChar(session[k]))
  }

  function PathOf(session: string): string {
    SafeName(session) + ".jsonl"
  }

  /** Two sessions record to one file exactly when their ids differ only in
      characters that file names do without. */
  lemma {:induction false} SameFile(a: string, b: string)
    ensures PathOf(a) == PathOf(b) <==> |a| == |b| && forall k :: 0 <= k < |a| ==> SafeChar(a[k]) == SafeChar(b[k])
  {
    assert PathOf(a)[..|a|] == SafeName(a) && PathOf(b)[..|b|] == SafeName(b);
    if |a| == |b| && forall k :: 0 <= k < |a| ==> SafeChar(a[k]) == SafeChar(b[k]) {
      assert SafeName(a) == SafeName(b);
    }
  }

  type Files = map<string, seq<Line>>

  function FileAt(files: Files, path: string): seq<Line> {
    if path in files then files[path] else []
  }

  /** The lines shared so far, the sessions whose recordings are open, and the
      files. */
  datatype Writer = Writer(shared: seq<Line>, open: seq<string>, files: Files)

  function WriteLines(files: Files, path: string, lines: seq<Line>): Files {
    files[path := FileAt(files, path) + lines]
  }

  /** One line to every open recording. */
  function WriteEverywhere(files: Files, open: seq<string>, line: Line): Files {
    if open == [] then files
    else WriteLines(WriteEverywhere(files, open[..|open| - 1], line), PathOf(open[|open| - 1]), [line])
  }

  function Apply(w: Writer, append: Append): Writer {
    match append
    case Shared(line) => w.(files := WriteEverywhere(w.files, w.open, line), shared := w.shared + [line])
    case ToSession(session, line) =>
      if session in w.open then w.(files := WriteLines(w.files, PathOf(session), [line]))
      else w.(files := WriteLines(WriteLines(w.files, PathOf(session), w.shared), PathOf(session), [line]), open := w.open + [session])
  }

  function ApplyAll(files: Files, out: seq<Append>): Writer {
    if out == [] then Writer([], [], files) else Apply(ApplyAll(files, out[..|out| - 1]), out[|out| - 1])
  }

  lemma {:induction false} ApplyMore(files: Files, out: seq<Append>, a: Append)
    ensures ApplyAll(files, out + [a]) == Apply(ApplyAll(files, out), a)
  {
    assert (out + [a])[..|out|] == out;
  }

  lemma {:induction false} ApplyNext(files: Files, before: seq<Append>, more: seq<Append>, k: nat)
    requires k < |more|
    ensures ApplyAll(files, before + more[..k + 1]) == Apply(ApplyAll(files, before + more[..k]), more[k])
  {
    assert before + more[..k] + [more[k]] == before + more[..k + 1];
    ApplyMore(files, before + more[..k], more[k]);
  }

  // -------------------------------------------------------------- recordings

  function SharedIn(out: seq<Append>): seq<Line> {
    if out == [] then [] else SharedIn(out[..|out| - 1]) + if out[|out| - 1].Shared? then [out[|out| - 1].line] else []
  }

  function OwnIn(out: seq<Append>, session: string): seq<Line> {
    if out == [] then []
    else
      var last := out[|out| - 1];
      OwnIn(out[..|out| - 1], session) + if last.ToSession? && last.session == session then [last.line] else []
  }

  predicate Opens(out: seq<Append>, session: string) {
    OwnIn(out, session) != []
  }

  function AllShared(lines: seq<Line>): (r: seq<Append>)
    ensures |r| == |lines| && forall k :: 0 <= k < |lines| ==> r[k] == Shared(lines[k])
  {
    seq(|lines|, k requires 0 <= k < |lines| => Shared(lines[k]))
  }

  /** What goes to a session's recording: what was shared before it opened, then
      its own lines and what is shared, as they come. */
  function Recording(out: seq<Append>, session: string): seq<Append> {
    if out == [] then []
    else
      var front, last := out[..|out| - 1], out[|out| - 1];
      if last.Shared? then if Opens(front, session) then Recording(front, session) + [last] else []
      else if last.session == session then
        (if Opens(front, session) then Recording(front, session) else AllShared(SharedIn(front))) + [last]
      else Recording(front, session)
  }

  lemma {:induction false} SharedMore(out: seq<Append>, a: Append)
    ensures SharedIn(out + [a]) == SharedIn(out) + if a.Shared? then [a.line] else []
  {
    assert (out + [a])[..|out|] == out;
  }

  lemma {:induction false} OwnMore(out: seq<Append>, a: Append, session: string)
    ensures OwnIn(out + [a], session) == OwnIn(out, session) + if a.ToSession? && a.session == session then [a.line] else []
  {
    assert (out + [a])[..|out|] == out;
  }

  lemma {:induction false} AllSharedIsShared(lines: seq<Line>, session: string)
    ensures SharedIn(AllShared(lines)) == lines && OwnIn(AllShared(lines), session) == []
  {
    if lines != [] {
      var n := |lines| - 1;
      AllSharedIsShared(lines[..n], session);
      assert AllShared(lines) == AllShared(lines[..n]) + [Shared(lines[n])];
      SharedMore(AllShared(lines[..n]), Shared(lines[n]));
      OwnMore(AllShared(lines[..n]), Shared(lines[n]), session);
    }
  }

  ghost predicate OnlyFor(recording: seq<Append>, session: string) {
    forall k :: 0 <= k < |recording| ==> recording[k].Shared? || recording[k].session == session
  }

  /** A recording that opens has every shared line and every line of its
      session, each in order, and nothing else. */
  lemma {:induction false} RecordingStandsAlone(out: seq<Append>, session: string)
    ensures Opens(out, session) ==> SharedIn(Recording(out, session)) == SharedIn(out)
    ensures OwnIn(Recording(out, session), session) == OwnIn(out, session)
    ensures OnlyFor(Recording(out, session), session)
    ensures Recording(out, session) == [] <==> !Opens(out, session)
  {
    if out != [] {
      var front, last := out[..|out| - 1], out[|out| - 1];
      RecordingStandsAlone(front, session);
      if last.ToSession? && last.session == session {
        OwnLineRecorded(out, session);
      } else if last.Shared? && Opens(front, session) {
        SharedMore(Recording(front, session), last);
        OwnMore(Recording(front, session), last, session);
      }
    }
  }

  /** A line of the session's own, opening its recording or not. */
  lemma {:induction false} OwnLineRecorded(out: seq<Append>, session: string)
    requires out != [] && out[|out| - 1].ToSession? && out[|out| - 1].session == session
    requires var front := out[..|out| - 1];
             && (Opens(front, session) ==> SharedIn(Recording(front, session)) == SharedIn(front))
             && OwnIn(Recording(front, session), session) == OwnIn(front, session) && OnlyFor(Recording(front, session), session)
    ensures SharedIn(Recording(out, session)) == SharedIn(out)
    ensures OwnIn(Recording(out, session), session) == OwnIn(out, session)
    ensures OnlyFor(Recording(out, session), session)
    ensures Recording(out, session) != [] && Opens(out, session)
  {
    var front, last := out[..|out| - 1], out[|out| - 1];
    AllSharedIsShared(SharedIn(front), session);
    var before := if Opens(front, session) then Recording(front, session) else AllShared(SharedIn(front));
    assert Recording(out, session) == before + [last];
    SharedMore(before, last);
    OwnMore(before, last, session);
    assert SharedIn(before) + [] == SharedIn(before) && SharedIn(front) + [] == SharedIn(front);
  }

  // ------------------------------------------------------------------- files

  lemma {:induction false} OpenSessions(files: Files, out: seq<Append>)
    ensures var w := ApplyAll(files, out);
            && w.shared == SharedIn(out)
            && (forall i, j :: 0 <= i < j < |w.open| ==> w.open[i] != w.open[j])
            && forall session :: session in w.open <==> Opens(out, session)
  {
    if out != [] {
      OpenSessions(files, out[..|out| - 1]);
    }
  }

  /** Nobody else who opens records to the same file. */
  ghost predicate Alone(out: seq<Append>, session: string) {
    forall other :: Opens(out, other) && PathOf(other) == PathOf(session) ==> other == session
  }

  lemma {:induction false} EverywhereElse(files: Files, open: seq<string>, line: Line, path: string)
    requires forall k :: 0 <= k < |open| ==> PathOf(open[k]) != path
    ensures FileAt(WriteEverywhere(files, open, line), path) == FileAt(files, path)
  {
    if open != [] {
      EverywhereElse(files, open[..|open| - 1], line, path);
    }
  }

  lemma {:induction false} EverywhereOnce(files: Files, open: seq<string>, line: Line, k: nat)
    requires k < |open| && forall j :: 0 <= j < |open| && j != k ==> PathOf(open[j]) != PathOf(open[k])
    ensures FileAt(WriteEverywhere(files, open, line), PathOf(open[k])) == FileAt(files, PathOf(open[k])) + [line]
  {
    var n := |open| - 1;
    if k == n {
      EverywhereElse(files, open[..n], line, PathOf(open[k]));
    } else {
      EverywhereOnce(files, open[..n], line, k);
    }
  }

  lemma {:induction false} AloneBefore(out: seq<Append>, session: string)
    requires Alone(out, session) && out != []
    ensures Alone(out[..|out| - 1], session)
  {
    forall other | Opens(out[..|out| - 1], other) && PathOf(other) == PathOf(session)
      ensures other == session
    {
      assert Opens(out, other);
    }
  }

  /** Whether or not its session has opened yet, a session's file gets its
      recording, line by line, if nobody shares the file. */
  lemma {:induction false} FileIsRecording(files: Files, out: seq<Append>, session: string)
    requires Alone(out, session)
    ensures FileAt(ApplyAll(files, out).files, PathOf(session)) == FileAt(files, PathOf(session)) + LinesOf(Recording(out, session))
  {
    if out == [] {
      assert LinesOf([]) == [];
    } else {
      var n := |out| - 1;
      AloneBefore(out, session);
      FileIsRecording(files, out[..n], session);
      OpenSessions(files, out[..n]);
      RecordingStandsAlone(out[..n], session);
      var w := ApplyAll(files, out[..n]);
      var more: seq<Line>;
      if out[n].Shared? {
        more := SharedToFile(w, out, session);
      } else {
        more := OwnToFile(w, out, session);
      }
      Grown(FileAt(files, PathOf(session)), LinesOf(Recording(out[..n], session)), more);
    }
  }

  lemma {:induction false} Grown(before: seq<Line>, lines: seq<Line>, more: seq<Line>)
    ensures before + lines + more == before + (lines + more)
  {}

  lemma {:induction false} RecordingOne(recording: seq<Append>, a: Append)
    ensures LinesOf(recording + [a]) == LinesOf(recording) + [a.line]
  {}

  lemma {:induction false} SharedToFile(w: Writer, out: seq<Append>, session: string) returns (more: seq<Line>)
    requires out != [] && out[|out| - 1].Shared? && Alone(out, session)
    requires (forall i, j :: 0 <= i < j < |w.open| ==> w.open[i] != w.open[j]) && forall s :: s in w.open <==> Opens(out[..|out| - 1], s)
    requires Recording(out[..|out| - 1], session) == [] <==> !Opens(out[..|out| - 1], session)
    ensures FileAt(Apply(w, out[|out| - 1]).files, PathOf(session)) == FileAt(w.files, PathOf(session)) + more
    ensures LinesOf(Recording(out, session)) == LinesOf(Recording(out[..|out| - 1], session)) + more
  {
    var front, last := out[..|out| - 1], out[|out| - 1];
    forall k | 0 <= k < |w.open| && PathOf(w.open[k]) == PathOf(session)
      ensures w.open[k] == session
    {
      assert w.open[k] in w.open && Opens(front, w.open[k]) && Opens(out, w.open[k]);
    }
    if Opens(front, session) {
      more := [last.line];
      assert session in w.open;
      var k :| 0 <= k < |w.open| && w.open[k] == session;
      EverywhereOnce(w.files, w.open, last.line, k);
      RecordingOne(Recording(front, session), last);
    } else {
      more := [];
      forall k | 0 <= k < |w.open|
        ensures PathOf(w.open[k]) != PathOf(session)
      {
        assert w.open[k] in w.open;
      }
      EverywhereElse(w.files, w.open, last.line, PathOf(session));
    }
  }

  lemma {:induction false} OwnToFile(w: Writer, out: seq<Append>, session: string) returns (more: seq<Line>)
    requires out != [] && out[|out| - 1].ToSession? && Alone(out, session)
    requires w.shared == SharedIn(out[..|out| - 1]) && forall s :: s in w.open <==> Opens(out[..|out| - 1], s)
    requires Recording(out[..|out| - 1], session) == [] <==> !Opens(out[..|out| - 1], session)
    ensures FileAt(Apply(w, out[|out| - 1]).files, PathOf(session)) == FileAt(w.files, PathOf(session)) + more
    ensures LinesOf(Recording(out, session)) == LinesOf(Recording(out[..|out| - 1], session)) + more
  {
    var front, last := out[..|out| - 1], out[|out| - 1];
    if last.session != session {
      more := [];
      assert Opens(out, last.session);
    } else if Opens(front, session) {
      more := [last.line];
      RecordingOne(Recording(front, session), last);
    } else {
      more := w.shared + [last.line];
      RecordingOne(AllShared(SharedIn(front)), last);
      assert LinesOf(AllShared(SharedIn(front))) == SharedIn(front) && LinesOf([]) == [];
      Grown(FileAt(w.files, PathOf(session)), w.shared, [last.line]);
    }
  }

  /** Two sessions that share a file both write all they have to it. */
  lemma {:induction false} FileOfTwo(files: Files, out: seq<Append>, a: string, b: string)
    requires a != b && PathOf(a) == PathOf(b)
    ensures |FileAt(ApplyAll(files, out).files, PathOf(a))| >=
            |FileAt(files, PathOf(a))| + |Recording(out, a)| + |Recording(out, b)|
  {
    if out != [] {
      var n := |out| - 1;
      FileOfTwo(files, out[..n], a, b);
      OpenSessions(files, out[..n]);
      RecordingStandsAlone(out[..n], a);
      RecordingStandsAlone(out[..n], b);
      var w := ApplyAll(files, out[..n]);
      if out[n].Shared? {
        EverywhereCount(w.files, w.open, out[n].line, PathOf(a));
        CountTwo(w.open, a, b);
      }
    }
  }

  ghost function Count(open: seq<string>, path: string): nat {
    if open == [] then 0 else Count(open[..|open| - 1], path) + if PathOf(open[|open| - 1]) == path then 1 else 0
  }

  lemma {:induction false} EverywhereCount(files: Files, open: seq<string>, line: Line, path: string)
    ensures |FileAt(WriteEverywhere(files, open, line), path)| == |FileAt(files, path)| + Count(open, path)
  {
    if open != [] {
      EverywhereCount(files, open[..|open| - 1], line, path);
    }
  }

  lemma {:induction false} CountTwo(open: seq<string>, a: string, b: string)
    requires a != b && PathOf(a) == PathOf(b)
    ensures Count(open, PathOf(a)) >= (if a in open then 1 else 0) + if b in open then 1 else 0
  {
    if open != [] {
      var n := |open| - 1;
      CountTwo(open[..n], a, b);
      assert open == open[..n] + [open[n]];
    }
  }

  /** A session's file is what it was before plus the session's recording exactly
      when no other session that opens is recorded to the same file. */
  lemma {:induction false} FileIsRecordingIffAlone(files: Files, out: seq<Append>, session: string)
    requires Opens(out, session)
    ensures FileAt(ApplyAll(files, out).files, PathOf(session)) == FileAt(files, PathOf(session)) + LinesOf(Recording(out, session))
            <==> Alone(out, session)
  {
    if Alone(out, session) {
      FileIsRecording(files, out, session);
    } else {
      var other :| Opens(out, other) && PathOf(other) == PathOf(session) && other != session;
      FileOfTwo(files, out, session, other);
      RecordingStandsAlone(out, other);
    }
  }

  // --------------------------------------------------------------- whole runs

  /** Everything a run emits: what is routed, then what is left over. */
  function RunOut(lines: seq<Line>, keys: seq<Key>): seq<Append>
    requires forall k :: 0 <= k < |keys| ==> keys[k] in RouteAll(lines).pending
  {
    RouteAll(lines).out + Leftovers(keys, RouteAll(lines).pending)
  }

  /** A finished run emits every line exactly as often as it came, exactly when
      no request reuses the id of one still waiting. */
  lemma {:induction false} RunConserves(lines: seq<Line>, keys: seq<Key>)
    requires InOrder(keys, RouteAll(lines).pending)
    ensures forall k :: 0 <= k < |keys| ==> keys[k] in RouteAll(lines).pending
    ensures multiset(LinesOf(RunOut(lines, keys))) == multiset(lines) <==> IdsWait(lines)
  {
    assert forall k :: 0 <= k < |keys| ==> keys[k] in keys;
    LeftoversAreHeld(keys, RouteAll(lines).pending);
    LinesMore(RouteAll(lines).out, Leftovers(keys, RouteAll(lines).pending));
    Conserved(lines);
  }

  // ---------------------------------------------------------------- in place

  class SessionRouter {
    var pending: Requests

    constructor ()
      ensures pending == map[]
    {
      pending := map[];
    }

    method RouteLine(line: Line) returns (out: seq<Append>)
      modifies this
      ensures (pending, out) == Route(old(pending), line)
    {
      if line.message.None? {
        return [Shared(line)];
      }
      var m := line.message.value;
      if m.isCall {
        if m.id.Some? {
          var key := Key(m.direction, m.id.value);
          if m.session.Some? {
            pending := pending[key := ForSession(m.session.value)];
            return [ToSession(m.session.value, line)];
          }
          pending := pending[key := Unattributed(line)];
          return [];
        }
        return [if m.session.Some? then ToSession(m.session.value, line) else Shared(line)];
      }
      if m.id.None? {
        return [Shared(line)];
      }
      var key := Key(Opposite(m.direction), m.id.value);
      if key !in pending {
        return [Shared(line)];
      }
      var request := pending[key];
      pending := pending - {key};
      out := Answer(request, line, m.minted);
    }

    /** Gives back the request lines still waiting, in the order of their
        keys. */
    method Drain() returns (out: seq<Append>, ghost keys: seq<Key>)
      modifies this
      ensures pending == map[] && InOrder(keys, old(pending))
      ensures forall k :: 0 <= k < |keys| ==> keys[k] in old(pending)
      ensures out == Leftovers(keys, old(pending))
    {
      out, keys := [], [];
      while pending != map[]
        invariant Draining(old(pending), pending, keys)
        invariant forall k :: 0 <= k < |keys| ==> keys[k] in old(pending)
        invariant out == Leftovers(keys, old(pending))
        decreases |pending|
      {
        ghost var least := LeastKey(pending);
        var key :| key in pending && forall other :: other in pending && other != key ==> Before(key, other);
        DrainingOne(old(pending), pending, keys, key);
        if pending[key].Unattributed? {
          out := out + [Shared(pending[key].request)];
        }
        keys := keys + [key];
        OneFewer(pending, key);
        pending := pending - {key};
      }
    }
  }

  /** Keys taken so far, in order, and all before what is left. */
  ghost predicate Draining(all: Requests, rest: Requests, keys: seq<Key>) {
    && (forall key :: key in all <==> key in rest || key in keys)
    && (forall key :: key in rest ==> rest[key] == all[key])
    && (forall j, k :: 0 <= j < k < |keys| ==> Before(keys[j], keys[k]))
    && (forall k, key :: 0 <= k < |keys| && key in rest ==> Before(keys[k], key))
  }

  lemma {:induction false} DrainingOne(all: Requests, rest: Requests, keys: seq<Key>, key: Key)
    requires Draining(all, rest, keys) && forall k :: 0 <= k < |keys| ==> keys[k] in all
    requires key in rest && forall other :: other in rest && other != key ==> Before(key, other)
    ensures Draining(all, rest - {key}, keys + [key])
    ensures forall k :: 0 <= k < |keys + [key]| ==> (keys + [key])[k] in all
    ensures Leftovers(keys + [key], all) == Leftovers(keys, all) + if rest[key].Unattributed? then [Shared(rest[key].request)] else []
  {
    var more := keys + [key];
    forall other
      ensures other in all <==> other in rest - {key} || other in more
    {}
    assert more[..|keys|] == keys;
  }

  lemma {:induction false} LeastKey(pending: Requests) returns (key: Key)
    requires pending != map[]
    ensures key in pending && forall other :: other in pending && other != key ==> Before(key, other)
    decreases |pending|
  {
    var some := AnyKey(pending);
    var rest := pending - {some};
    OneFewer(pending, some);
    if rest == map[] {
      key := some;
      assert forall other :: other in pending && other != some ==> other in rest;
    } else {
      var first := LeastKey(rest);
      key := if Before(first, some) then first else some;
      assert first != some && (Before(first, some) || Before(some, first));
      assert forall other :: other in pending && other != some ==> other in rest;
    }
  }

  class RunWriter {
    var shared: seq<Line>
    var open: seq<string>
    var files: Files

    ghost function View(): Writer
      reads this
    {
      Writer(shared, open, files)
    }

    constructor (files: Files)
      ensures View() == Writer([], [], files)
    {
      this.files := files;
      shared, open := [], [];
    }

    /** A recording opens on its session's first line, with a copy of what has
        been shared so far. */
    method AppendLine(append: Append)
      modifies this
      ensures View() == Apply(old(View()), append)
    {
      match append {
        case Shared(line) =>
          for k := 0 to |open|
            invariant open == old(open) && shared == old(shared)
            invariant files == WriteEverywhere(old(files), open[..k], line)
          {
            assert open[..k + 1][..k] == open[..k];
            files := WriteLines(files, PathOf(open[k]), [line]);
          }
          assert open[..|open|] == open;
          shared := shared + [line];
        case ToSession(session, line) =>
          if session !in open {
            files := WriteLines(files, PathOf(session), shared);
            open := open + [session];
          }
          files := WriteLines(files, PathOf(session), [line]);
      }
    }

    method AppendLines(appends: seq<Append>, ghost before: seq<Append>, ghost start: Files)
      requires View() == ApplyAll(start, before)
      modifies this
      ensures View() == ApplyAll(start, before + appends)
    {
      assert before + appends[..0] == before;
      for k := 0 to |appends|
        invariant View() == ApplyAll(start, before + appends[..k])
      {
        ApplyNext(start, before, appends, k);
        AppendLine(appends[k]);
      }
      assert appends[..|appends|] == appends;
    }
  }

  /** The files after a run: everything routed, then what was left waiting in the
      order of its keys. */
  ghost predicate Recorded(lines: seq<Line>, files: Files, recorded: Files, keys: seq<Key>) {
    && InOrder(keys, RouteAll(lines).pending) && (forall k :: 0 <= k < |keys| ==> keys[k] in RouteAll(lines).pending)
    && recorded == ApplyAll(files, RunOut(lines, keys)).files
  }

  /** After a run, what a session's file gained has every line that was shared, in
      order, and every line of the session, in order, and nothing else, if no
      other session recorded to it. */
  lemma {:induction false} RunRecordingsStandAlone(lines: seq<Line>, files: Files, recorded: Files, keys: seq<Key>, session: string)
    requires Recorded(lines, files, recorded, keys) && Opens(RunOut(lines, keys), session) && Alone(RunOut(lines, keys), session)
    ensures var out := RunOut(lines, keys);
            var recording := Recording(out, session);
            && FileAt(recorded, PathOf(session)) == FileAt(files, PathOf(session)) + LinesOf(recording)
            && SharedIn(recording) == SharedIn(out) && OwnIn(recording, session) == OwnIn(out, session) && OnlyFor(recording, session)
  {
    FileIsRecording(files, RunOut(lines, keys), session);
    RecordingStandsAlone(RunOut(lines, keys), session);
  }

  /** Records a connection's lines until it closes, then what it left
      waiting. */
  method RecordRun(lines: seq<Line>, files: Files) returns (recorded: Files)
    ensures exists keys :: Recorded(lines, files, recorded, keys)
  {
    var router := new SessionRouter();
    var writer := new RunWriter(files);
    for k := 0 to |lines|
      invariant router.pending == RouteAll(lines[..k]).pending
      invariant writer.View() == ApplyAll(files, RouteAll(lines[..k]).out)
    {
      assert lines[..k + 1][..k] == lines[..k];
      var out := router.RouteLine(lines[k]);
      writer.AppendLines(out, RouteAll(lines[..k]).out, files);
    }
    assert lines[..|lines|] == lines;
    var leftovers: seq<Append>;
    ghost var keys: seq<Key>;
    leftovers, keys := router.Drain();
    writer.AppendLines(leftovers, RouteAll(lines).out, files);
    recorded := writer.files;
    assert Recorded(lines, files, recorded, keys);
  }
}
