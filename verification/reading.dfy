/** Reading a session's log back: sorted by time and id, from its boundary on. */
module LogReads {
  import opened Common
  import opened Leases

  predicate Earlier(a: Row, b: Row) {
    a.createdAt < b.createdAt || (a.createdAt == b.createdAt && a.id < b.id)
  }

  function InsertRow(row: Row, sorted: seq<Row>): (r: seq<Row>)
    ensures |r| == |sorted| + 1
  {
    if sorted == [] || Earlier(row, sorted[0]) then [row] + sorted
    else [sorted[0]] + InsertRow(row, sorted[1..])
  }

  function InReadOrder(rows: seq<Row>): (r: seq<Row>)
    ensures |r| == |rows|
  {
    if rows == [] then [] else InsertRow(rows[|rows| - 1], InReadOrder(rows[..|rows| - 1]))
  }

  /** The first row with an id. */
  function Position(rows: seq<Row>, id: Uuid): (r: Option<nat>)
    ensures r.Some? ==> r.value < |rows| && rows[r.value].id == id && forall i :: 0 <= i < r.value ==> rows[i].id != id
    ensures r.None? ==> forall i :: 0 <= i < |rows| ==> rows[i].id != id
  {
    if rows == [] then None
    else if rows[0].id == id then Some(0)
    else
      var r := Position(rows[1..], id);
      if r.Some? then Some(r.value + 1) else None
  }

  predicate HasNotifications(rows: seq<Row>) {
    exists i :: 0 <= i < |rows| && rows[i].frame.notifies
  }

  function Start(rows: seq<Row>, boundary: Option<Uuid>): (k: nat)
    ensures k <= |rows|
  {
    if boundary.Some? then Position(rows, boundary.value).UnwrapOr(0) else 0
  }

  function BoundaryOf(s: Store, session: SessionId): Option<Uuid> {
    if session in s.boundaries then Some(s.boundaries[session]) else None
  }

  function ListBySession(s: Store, session: SessionId): seq<Row> {
    var rows := InReadOrder(LogOf(s, session));
    rows[if HasNotifications(rows) then 0 else Start(rows, BoundaryOf(s, session))..]
  }

  // --------------------------------------------------------------- order

  ghost predicate ReadSorted(rows: seq<Row>) {
    forall i, j :: 0 <= i < j < |rows| ==> !Earlier(rows[j], rows[i])
  }

  lemma {:induction false} InsertRowKeeps(row: Row, sorted: seq<Row>)
    requires ReadSorted(sorted)
    ensures ReadSorted(InsertRow(row, sorted))
    ensures multiset(InsertRow(row, sorted)) == multiset(sorted) + multiset{row}
  {
    var r := InsertRow(row, sorted);
    if sorted == [] || Earlier(row, sorted[0]) {
    } else {
      assert sorted == [sorted[0]] + sorted[1..];
      var rest := InsertRow(row, sorted[1..]);
      InsertRowKeeps(row, sorted[1..]);
      forall j | 0 <= j < |rest|
        ensures !Earlier(rest[j], sorted[0])
      {
        assert rest[j] in multiset(rest);
        if rest[j] != row { assert rest[j] in sorted[1..]; }
      }
    }
  }

  /** Reading sorts, and drops or adds nothing. */
  lemma {:induction false} ReadOrderSorts(rows: seq<Row>)
    ensures ReadSorted(InReadOrder(rows))
    ensures multiset(InReadOrder(rows)) == multiset(rows)
  {
    if rows != [] {
      var n := |rows| - 1;
      ReadOrderSorts(rows[..n]);
      InsertRowKeeps(rows[n], InReadOrder(rows[..n]));
      assert rows == rows[..n] + [rows[n]];
    }
  }

  lemma {:induction false} InsertLast(row: Row, sorted: seq<Row>)
    requires forall i :: 0 <= i < |sorted| ==> !Earlier(row, sorted[i])
    ensures InsertRow(row, sorted) == sorted + [row]
  {
    if sorted != [] {
      InsertLast(row, sorted[1..]);
      assert sorted == [sorted[0]] + sorted[1..];
    }
  }

  /** The log reads in store order exactly when it was stored in time order:
      rows under a later fence can be read before rows under an earlier one. */
  lemma {:induction false} ReadsInStoreOrder(rows: seq<Row>)
    ensures InReadOrder(rows) == rows <==> ReadSorted(rows)
  {
    if ReadSorted(rows) && rows != [] {
      var n := |rows| - 1;
      ReadsInStoreOrder(rows[..n]);
      InsertLast(rows[n], rows[..n]);
      assert rows == rows[..n] + [rows[n]];
    }
    ReadOrderSorts(rows);
  }

  // ------------------------------------------------ where each row is read

  /** A row and where it is stored. */
  datatype Stored = Stored(row: Row, at: nat)

  function InsertStored(x: Stored, sorted: seq<Stored>): (r: seq<Stored>)
    ensures |r| == |sorted| + 1
  {
    if sorted == [] || Earlier(x.row, sorted[0].row) then [x] + sorted
    else [sorted[0]] + InsertStored(x, sorted[1..])
  }

  /** A log in read order, each row with its place in the log. */
  function ReadLog(rows: seq<Row>): (r: seq<Stored>)
    ensures |r| == |rows|
  {
    if rows == [] then [] else InsertStored(Stored(rows[|rows| - 1], |rows| - 1), ReadLog(rows[..|rows| - 1]))
  }

  function RowsOf(read: seq<Stored>): (r: seq<Row>)
    ensures |r| == |read|
  {
    seq(|read|, k requires 0 <= k < |read| => read[k].row)
  }

  lemma {:induction false} InsertStoredRows(x: Stored, sorted: seq<Stored>)
    ensures RowsOf(InsertStored(x, sorted)) == InsertRow(x.row, RowsOf(sorted))
  {
    if sorted == [] || Earlier(x.row, sorted[0].row) {
      assert RowsOf([x] + sorted) == [x.row] + RowsOf(sorted);
    } else {
      InsertStoredRows(x, sorted[1..]);
      assert RowsOf(sorted)[1..] == RowsOf(sorted[1..]);
      assert RowsOf([sorted[0]] + InsertStored(x, sorted[1..])) == [sorted[0].row] + RowsOf(InsertStored(x, sorted[1..]));
    }
  }

  lemma {:induction false} ReadLogRows(rows: seq<Row>)
    ensures RowsOf(ReadLog(rows)) == InReadOrder(rows)
  {
    if rows != [] {
      var n := |rows| - 1;
      ReadLogRows(rows[..n]);
      InsertStoredRows(Stored(rows[n], n), ReadLog(rows[..n]));
    }
  }

  /** Read first: earlier, or neither is and it was stored first. */
  predicate Precedes(a: Stored, b: Stored) {
    Earlier(a.row, b.row) || (!Earlier(b.row, a.row) && a.at < b.at)
  }

  ghost predicate InOrder(read: seq<Stored>) {
    forall p, q :: 0 <= p < q < |read| ==> Precedes(read[p], read[q])
  }

  lemma {:induction false} InsertStoredKeeps(x: Stored, sorted: seq<Stored>)
    requires InOrder(sorted) && forall k :: 0 <= k < |sorted| ==> sorted[k].at < x.at
    ensures InOrder(InsertStored(x, sorted))
    ensures forall y :: y in InsertStored(x, sorted) <==> y == x || y in sorted
  {
    if sorted == [] || Earlier(x.row, sorted[0].row) {
      forall k | 0 <= k < |sorted|
        ensures Precedes(x, sorted[k])
      {}
    } else {
      var rest := InsertStored(x, sorted[1..]);
      InsertStoredKeeps(x, sorted[1..]);
      forall k | 0 <= k < |rest|
        ensures Precedes(sorted[0], rest[k])
      {
        assert rest[k] in rest;
      }
      assert sorted == [sorted[0]] + sorted[1..];
    }
  }

  /** Every row of the log is read once, in order. */
  lemma {:induction false} ReadLogSorts(rows: seq<Row>)
    ensures InOrder(ReadLog(rows))
    ensures forall y :: y in ReadLog(rows) <==> y.at < |rows| && y.row == rows[y.at]
  {
    if rows != [] {
      var n := |rows| - 1;
      ReadLogSorts(rows[..n]);
      forall k | 0 <= k < n
        ensures ReadLog(rows[..n])[k].at < n
      {
        assert ReadLog(rows[..n])[k] in ReadLog(rows[..n]);
      }
      InsertStoredKeeps(Stored(rows[n], n), ReadLog(rows[..n]));
    }
  }

  lemma ReadAt(rows: seq<Row>, i: nat) returns (p: nat)
    requires i < |rows|
    ensures p < |ReadLog(rows)| && ReadLog(rows)[p] == Stored(rows[i], i)
  {
    ReadLogSorts(rows);
    assert Stored(rows[i], i) in ReadLog(rows);
    p :| p < |ReadLog(rows)| && ReadLog(rows)[p] == Stored(rows[i], i);
  }

  lemma ReadBefore(rows: seq<Row>, p: nat, q: nat)
    requires p < |ReadLog(rows)| && q < |ReadLog(rows)| && Precedes(ReadLog(rows)[p], ReadLog(rows)[q])
    ensures p < q
  {
    ReadLogSorts(rows);
  }

  /** Wherever a batch is in a log, and whatever else is, its rows are read in the
      order they were appended. */
  lemma BatchReadsInOrder(rows: seq<Row>, m: nat, entries: seq<Row>, wall: int, i: nat, j: nat) returns (p: nat, q: nat)
    requires m + |entries| <= |rows| && rows[m..m + |entries|] == Stamped(entries, wall) && i < j < |entries|
    ensures p < q < |ReadLog(rows)| && ReadLog(rows)[p].at == m + i && ReadLog(rows)[q].at == m + j
    ensures RowsOf(ReadLog(rows)) == InReadOrder(rows)
  {
    p := ReadAt(rows, m + i);
    q := ReadAt(rows, m + j);
    assert rows[m + i] == rows[m..m + |entries|][i] && rows[m + j] == rows[m..m + |entries|][j];
    ReadBefore(rows, p, q);
    ReadLogRows(rows);
  }

  // ------------------------------------------------ fences in read order

  /** The fences of a log never go down as it is read. */
  ghost predicate ReadFencesRise(rows: seq<Row>, tags: seq<Option<nat>>)
    requires |tags| == |rows|
  {
    forall p, q :: 0 <= p < q < |ReadLog(rows)| ==>
      ReadLog(rows)[p].at < |tags| && ReadLog(rows)[q].at < |tags| && !Superseded(tags, ReadLog(rows)[q].at, ReadLog(rows)[p].at)
  }

  /** The one row is under an earlier fence than the other. */
  predicate Superseded(tags: seq<Option<nat>>, i: nat, j: nat)
    requires i < |tags| && j < |tags|
  {
    tags[i].Some? && tags[j].Some? && tags[i].value < tags[j].value
  }

  /** In every reachable store fences rise in read order exactly when no row under
      a later fence has an earlier time than one under an earlier fence. */
  lemma FencesRiseInReadOrder(run: seq<Timed>, session: SessionId)
    requires Runs(EMPTY, run)
    ensures var s := After(EMPTY, run);
            var (rows, tags) := (LogOf(s, session), TagsOf(s, session));
            && |tags| == |rows|
            && (ReadFencesRise(rows, tags) <==>
                forall i, j :: 0 <= i < |rows| && 0 <= j < |rows| && Superseded(tags, i, j) ==> !Earlier(rows[j], rows[i]))
  {
    RunKeeps(EMPTY, run);
    var s := After(EMPTY, run);
    assert |TagsOf(s, session)| == |LogOf(s, session)| && Rising(TagsOf(s, session), LeaseOf(s, session).fence);
    RisingInReadOrder(LogOf(s, session), TagsOf(s, session), LeaseOf(s, session).fence);
  }

  lemma RisingInReadOrder(rows: seq<Row>, tags: seq<Option<nat>>, limit: nat)
    requires |tags| == |rows| && Rising(tags, limit)
    ensures ReadFencesRise(rows, tags) <==>
            forall i, j :: 0 <= i < |rows| && 0 <= j < |rows| && Superseded(tags, i, j) ==> !Earlier(rows[j], rows[i])
  {
    var read := ReadLog(rows);
    ReadLogSorts(rows);
    forall p | 0 <= p < |read|
      ensures read[p].at < |rows| && read[p].row == rows[read[p].at]
    {
      assert read[p] in read;
    }
    if ReadFencesRise(rows, tags) {
      forall i, j | 0 <= i < |rows| && 0 <= j < |rows| && Superseded(tags, i, j)
        ensures !Earlier(rows[j], rows[i])
      {
        var p := ReadAt(rows, i);
        var q := ReadAt(rows, j);
        if Earlier(rows[j], rows[i]) { ReadBefore(rows, q, p); }
      }
    } else {
      var p, q :| 0 <= p < q < |read| && Superseded(tags, read[q].at, read[p].at);
      assert Precedes(read[p], read[q]);
      assert Earlier(rows[read[p].at], rows[read[q].at]);
    }
  }

  /** And they can go down: a batch of two rows whose holder is superseded while
      they are pushed, and a row of the new holder with the time of the first. */
  lemma ReadFencesCanGoDown() returns (run: seq<Timed>)
    ensures Runs(EMPTY, run)
    ensures var s := After(EMPTY, run);
            |TagsOf(s, 0)| == |LogOf(s, 0)| && !ReadFencesRise(LogOf(s, 0), TagsOf(s, 0))
  {
    run := BatchCanBeSuperseded();
    var s := After(EMPTY, run);
    FencesRiseInReadOrder(run, 0);
    assert Superseded(TagsOf(s, 0), 1, 2) && Earlier(LogOf(s, 0)[2], LogOf(s, 0)[1]);
  }

  // ------------------------------------------------------------ boundaries

  lemma HasRowInReadOrder(rows: seq<Row>, id: Uuid)
    ensures HasRow(rows, id) <==> HasRow(InReadOrder(rows), id)
  {
    ReadOrderSorts(rows);
    var sorted := InReadOrder(rows);
    if HasRow(rows, id) {
      var i :| 0 <= i < |rows| && rows[i].id == id;
      assert rows[i] in multiset(sorted);
      var k :| 0 <= k < |sorted| && sorted[k] == rows[i];
    }
    if HasRow(sorted, id) {
      var i :| 0 <= i < |sorted| && sorted[i].id == id;
      assert sorted[i] in multiset(rows);
      var k :| 0 <= k < |rows| && rows[k] == sorted[i];
    }
  }

  /** In every reachable store a log without notifications is read from its
      boundary row on, when it has one, and otherwise whole: a boundary never
      goes missing. */
  lemma ReadsFromBoundary(run: seq<Timed>, session: SessionId)
    requires Runs(EMPTY, run)
    ensures var s := After(EMPTY, run);
            var all := InReadOrder(LogOf(s, session));
            var read := ListBySession(s, session);
            && (HasNotifications(all) || session !in s.boundaries ==> read == all)
            && (!HasNotifications(all) && session in s.boundaries ==>
                  && read != [] && read[0].id == s.boundaries[session]
                  && read == all[|all| - |read|..]
                  && forall i :: 0 <= i < |all| - |read| ==> all[i].id != s.boundaries[session])
  {
    RunKeeps(EMPTY, run);
    var s := After(EMPTY, run);
    if session in s.boundaries {
      HasRowInReadOrder(LogOf(s, session), s.boundaries[session]);
    }
  }
}
