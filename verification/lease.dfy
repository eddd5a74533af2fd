/**
 Session ownership and the fenced log as a state machine: replicas claim,
 release, heartbeat and drain, and append under the fence of a claim.

 Appending one entry is atomic. A batch checks its lease once and then pushes its
 rows while only other log writers are shut out, so claims may land in between.
 */
module Leases {
  import opened Common

  type SessionId = nat
  type ReplicaId = nat
  type Uuid = nat

  /** Microseconds without a heartbeat after which a replica is not live. */
  const STALE_AFTER: nat := 30_000_000

  datatype Lease = Lease(holder: Option<ReplicaId>, fence: nat)

  datatype ReplicaRow = ReplicaRow(beat: nat, address: Option<nat>, draining: bool)

  datatype SessionClaim = SessionClaim(session: SessionId, replica: ReplicaId, fence: nat)

  /** A log entry before it is stored: whose it is, whether reading it back
      counts as a notification, and its content. */
  datatype Frame = Frame(session: SessionId, notifies: bool, content: nat)

  datatype Row = Row(id: Uuid, createdAt: int, frame: Frame)

  datatype Error = Unknown(session: SessionId) | FencedOut(session: SessionId) | Handshake

  datatype ClaimOutcome = Claimed(claim: SessionClaim) | ManagedElsewhere(holder: ReplicaId)

  datatype SessionManager = SessionManager(replica: ReplicaId, address: Option<nat>, draining: bool)

  datatype LeaseView = LeaseView(holder: Option<SessionManager>, askingReplicaDraining: bool)

  /** A batch whose lease has been checked and whose rows are being pushed. */
  datatype Batch = Batch(claim: SessionClaim, rest: seq<Row>)

  /** The store. `tags` says under which fence each row was appended and
      `issued` lists every claim ever given out; neither is stored, both are
      there to state what holds. */
  datatype Store = Store(
    sessions: set<SessionId>,
    replicas: map<ReplicaId, ReplicaRow>,
    leases: map<SessionId, Lease>,
    logs: map<SessionId, seq<Row>>,
    boundaries: map<SessionId, Uuid>,
    turnStates: map<SessionId, nat>,
    batch: Option<Batch>,
    tags: map<SessionId, seq<Option<nat>>>,
    issued: seq<SessionClaim>)

  const EMPTY := Store({}, map[], map[], map[], map[], map[], None, map[], [])

  // ------------------------------------------------------------- ownership

  function RowOf(s: Store, replica: ReplicaId, now: nat): ReplicaRow {
    if replica in s.replicas then s.replicas[replica] else ReplicaRow(now, None, false)
  }

  function LeaseOf(s: Store, session: SessionId): Lease {
    if session in s.leases then s.leases[session] else Lease(None, 0)
  }

  predicate Fresh(row: ReplicaRow, now: nat) {
    now < row.beat + STALE_AFTER
  }

  predicate Serving(s: Store, replica: ReplicaId, now: nat) {
    replica in s.replicas && Fresh(s.replicas[replica], now) && !s.replicas[replica].draining
  }

  function Beat(s: Store, replica: ReplicaId, address: Option<nat>, now: nat): Store {
    var row := RowOf(s, replica, now);
    s.(replicas := s.replicas[replica := row.(beat := now, address := if address.Some? then address else row.address)])
  }

  function Claim(s: Store, session: SessionId, replica: ReplicaId, now: nat): (Store, Result<ClaimOutcome, Error>) {
    if session !in s.sessions then (s, Err(Unknown(session)))
    else
      var b := Beat(s, replica, None, now);
      var lease := LeaseOf(s, session);
      if lease.holder.Some? && lease.holder.value != replica && Serving(b, lease.holder.value, now) then
        (b.(leases := b.leases[session := lease]), Ok(ManagedElsewhere(lease.holder.value)))
      else
        var claim := SessionClaim(session, replica, lease.fence + 1);
        (b.(leases := b.leases[session := Lease(Some(replica), lease.fence + 1)], issued := b.issued + [claim]), Ok(Claimed(claim)))
  }

  /** Whether a claim is the session's current one. */
  predicate Valid(s: Store, claim: SessionClaim) {
    claim.session in s.leases && s.leases[claim.session] == Lease(Some(claim.replica), claim.fence)
  }

  function Release(s: Store, claim: SessionClaim): Store {
    if Valid(s, claim) then s.(leases := s.leases[claim.session := Lease(None, claim.fence)]) else s
  }

  function BeginDraining(s: Store, replica: ReplicaId, now: nat): Store {
    s.(replicas := s.replicas[replica := RowOf(s, replica, now).(draining := true)])
  }

  function View(s: Store, session: SessionId, replica: ReplicaId, now: nat): LeaseView {
    var holder := LeaseOf(s, session).holder;
    LeaseView(
      if holder.Some? && holder.value in s.replicas && Fresh(s.replicas[holder.value], now)
      then Some(SessionManager(holder.value, s.replicas[holder.value].address, s.replicas[holder.value].draining))
      else None,
      replica in s.replicas && s.replicas[replica].draining)
  }

  // ------------------------------------------------------------- appending

  function LogOf(s: Store, session: SessionId): seq<Row> {
    if session in s.logs then s.logs[session] else []
  }

  function TagsOf(s: Store, session: SessionId): seq<Option<nat>> {
    if session in s.tags then s.tags[session] else []
  }

  function Push(s: Store, row: Row, tag: Option<nat>): Store {
    var session := row.frame.session;
    s.(logs := s.logs[session := LogOf(s, session) + [row]],
       tags := s.tags[session := TagsOf(s, session) + [tag]])
  }

  predicate HasRow(rows: seq<Row>, id: Uuid) {
    exists i :: 0 <= i < |rows| && rows[i].id == id
  }

  /** An append that comes with a claim, a history boundary and a turn state,
      each if any; check and append are one step. */
  datatype Append = Append(row: Row, claim: Option<SessionClaim>, boundary: Option<Uuid>, turnState: Option<nat>)

  function AppendError(s: Store, a: Append): Option<Error> {
    var session := a.row.frame.session;
    if a.boundary.Some? && a.claim.None? then Some(FencedOut(session))
    else if a.claim.Some? && (a.claim.value.session != session || !Valid(s, a.claim.value)) then Some(FencedOut(session))
    else if session !in s.sessions then Some(FencedOut(session))
    else if a.boundary.Some? && !HasRow(LogOf(s, session), a.boundary.value) then Some(Handshake)
    else None
  }

  function CreateProjected(s: Store, a: Append): (Store, Result<Row, Error>) {
    var session := a.row.frame.session;
    if AppendError(s, a).Some? then (s, Err(AppendError(s, a).value))
    else
      var p := Push(s, a.row, if a.claim.Some? then Some(a.claim.value.fence) else None);
      var b := if a.boundary.Some? then p.(boundaries := p.boundaries[session := a.boundary.value]) else p;
      (if a.turnState.Some? then b.(turnStates := b.turnStates[session := a.turnState.value]) else b, Ok(a.row))
  }

  /** The rows of a batch as they are stored: microseconds apart from one
      instant. */
  function Stamped(entries: seq<Row>, wall: int): (r: seq<Row>)
    ensures |r| == |entries|
    ensures forall k :: 0 <= k < |entries| ==> r[k] == entries[k].(createdAt := wall + k)
  {
    seq(|entries|, k requires 0 <= k < |entries| => entries[k].(createdAt := wall + k))
  }

  predicate ForSession(entries: seq<Row>, session: SessionId) {
    forall k :: 0 <= k < |entries| ==> entries[k].frame.session == session
  }

  /** The first half of a batch: the lease is checked and the log writers'
      lock stays held. */
  function BeginBatch(s: Store, entries: seq<Row>, claim: SessionClaim, wall: int): (Store, Result<seq<Row>, Error>) {
    if entries == [] then (s, Ok([]))
    else if !ForSession(entries, claim.session) then (s, Err(FencedOut(claim.session)))
    else if !Valid(s, claim) || claim.session !in s.sessions then (s, Err(FencedOut(claim.session)))
    else (s.(batch := Some(Batch(claim, Stamped(entries, wall)))), Ok(Stamped(entries, wall)))
  }

  /** The second half, one row at a time; the last one lets go of the lock. */
  function PushNext(s: Store): Store
    requires s.batch.Some? && s.batch.value.rest != []
  {
    var b := s.batch.value;
    var p := Push(s, b.rest[0], Some(b.claim.fence));
    p.(batch := if |b.rest| == 1 then None else Some(Batch(b.claim, b.rest[1..])))
  }

  /** All the rows still to push. */
  function PushAll(s: Store): Store
    decreases if s.batch.Some? then |s.batch.value.rest| else 0
  {
    if s.batch.None? || s.batch.value.rest == [] then s else PushAll(PushNext(s))
  }

  /** The store with some rows of a batch still to push. */
  ghost function Pushing(s: Store, claim: SessionClaim, rest: seq<Row>): Store {
    s.(batch := if rest == [] then None else Some(Batch(claim, rest)))
  }

  /** The store after pushing some rows, one after another. */
  ghost function Pushed(s: Store, claim: SessionClaim, rows: seq<Row>): Store {
    if rows == [] then s
    else Push(Pushed(s, claim, rows[..|rows| - 1]), rows[|rows| - 1], Some(claim.fence))
  }

  lemma PushedMore(s: Store, claim: SessionClaim, rows: seq<Row>, k: nat)
    requires k < |rows|
    ensures Pushed(s, claim, rows[..k + 1]) == Push(Pushed(s, claim, rows[..k]), rows[k], Some(claim.fence))
  {
    assert rows[..k + 1][..k] == rows[..k];
  }

  lemma {:induction false} PushedFirst(s: Store, claim: SessionClaim, rows: seq<Row>)
    requires rows != []
    ensures Pushed(s, claim, rows) == Pushed(Push(s, rows[0], Some(claim.fence)), claim, rows[1..])
  {
    var n := |rows| - 1;
    if n > 0 {
      PushedFirst(s, claim, rows[..n]);
      assert rows[..n][1..] == rows[1..][..n - 1];
    } else {
      assert rows[..0] == [];
    }
  }

  /** With nothing in between, the second half of a batch appends its rows. */
  lemma {:induction false} PushAllPushes(s: Store, claim: SessionClaim, rows: seq<Row>)
    requires s.batch.None?
    ensures PushAll(Pushing(s, claim, rows)) == Pushed(s, claim, rows)
    decreases |rows|
  {
    if rows != [] {
      var p := Push(s, rows[0], Some(claim.fence));
      assert PushNext(Pushing(s, claim, rows)) == Pushing(p, claim, rows[1..]);
      PushAllPushes(p, claim, rows[1..]);
      PushedFirst(s, claim, rows);
    }
  }

  function Delete(s: Store, session: SessionId): Store {
    s.(sessions := s.sessions - {session}, boundaries := s.boundaries - {session}, turnStates := s.turnStates - {session},
       logs := s.logs - {session}, tags := s.tags - {session})
  }

  // ----------------------------------------------------------------- steps

  datatype Step =
    | DoCreate(session: SessionId)
    | DoClaim(session: SessionId, replica: ReplicaId)
    | DoRelease(claim: SessionClaim)
    | DoHeartbeat(replica: ReplicaId, address: Option<nat>)
    | DoDrain(replica: ReplicaId)
    | DoAppend(append: Append)
    | DoBeginBatch(entries: seq<Row>, claim: SessionClaim, wall: int)
    | DoPush
    | DoDelete(session: SessionId)

  /** Log writers exclude one another; everything else may always happen. */
  predicate Enabled(s: Store, step: Step) {
    match step
    case DoAppend(_) => s.batch.None?
    case DoBeginBatch(_, _, _) => s.batch.None?
    case DoDelete(_) => s.batch.None?
    case DoPush => s.batch.Some? && s.batch.value.rest != []
    case _ => true
  }

  function Next(s: Store, step: Step, now: nat): Store
    requires Enabled(s, step)
  {
    match step
    case DoCreate(session) => s.(sessions := s.sessions + {session})
    case DoClaim(session, replica) => Claim(s, session, replica, now).0
    case DoRelease(claim) => Release(s, claim)
    case DoHeartbeat(replica, address) => Beat(s, replica, address, now)
    case DoDrain(replica) => BeginDraining(s, replica, now)
    case DoAppend(append) => CreateProjected(s, append).0
    case DoBeginBatch(entries, claim, wall) => BeginBatch(s, entries, claim, wall).0
    case DoPush => PushNext(s)
    case DoDelete(session) => Delete(s, session)
  }

  /** A schedule: steps of any replicas, each with the time it happens. */
  datatype Timed = Timed(step: Step, now: nat)

  ghost predicate Runs(s: Store, run: seq<Timed>)
    decreases |run|
  {
    run == [] || (Enabled(s, run[0].step) && Runs(Next(s, run[0].step, run[0].now), run[1..]))
  }

  ghost function After(s: Store, run: seq<Timed>): Store
    requires Runs(s, run)
    decreases |run|
  {
    if run == [] then s else After(Next(s, run[0].step, run[0].now), run[1..])
  }

  // ------------------------------------------------------------- invariant

  /** Fences in a log never go down, and none is past `limit`. */
  ghost predicate Rising(tags: seq<Option<nat>>, limit: nat) {
    (forall i :: 0 <= i < |tags| && tags[i].Some? ==> tags[i].value <= limit) &&
    forall i, j :: 0 <= i < j < |tags| && tags[i].Some? && tags[j].Some? ==> tags[i].value <= tags[j].value
  }

  ghost predicate TagsRise(s: Store) {
    forall session :: |TagsOf(s, session)| == |LogOf(s, session)| && Rising(TagsOf(s, session), LeaseOf(s, session).fence)
  }

  /** The batch being pushed was valid when it began, so nothing in its log has
      a later fence. */
  ghost predicate BatchIsLatest(s: Store) {
    s.batch.Some? ==>
      var b := s.batch.value;
      && ForSession(b.rest, b.claim.session)
      && b.claim.fence <= LeaseOf(s, b.claim.session).fence
      && Rising(TagsOf(s, b.claim.session), b.claim.fence)
  }

  /** Claims are issued with ever higher fences, up to the present one. */
  ghost predicate FencesGrow(s: Store) {
    (forall i :: 0 <= i < |s.issued| ==> s.issued[i].fence <= LeaseOf(s, s.issued[i].session).fence) &&
    forall i, j :: 0 <= i < j < |s.issued| && s.issued[i].session == s.issued[j].session ==> s.issued[i].fence < s.issued[j].fence
  }

  ghost predicate HoldersHaveClaims(s: Store) {
    forall session :: session in s.leases && s.leases[session].holder.Some? ==>
      SessionClaim(session, s.leases[session].holder.value, s.leases[session].fence) in s.issued
  }

  ghost predicate BoundariesNameRows(s: Store) {
    forall session :: session in s.boundaries ==> HasRow(LogOf(s, session), s.boundaries[session])
  }

  ghost predicate Inv(s: Store) {
    TagsRise(s) && BatchIsLatest(s) && FencesGrow(s) && HoldersHaveClaims(s) && BoundariesNameRows(s)
  }

  lemma RisingMore(tags: seq<Option<nat>>, limit: nat, tag: Option<nat>)
    requires Rising(tags, limit) && (tag.Some? ==> tag.value == limit)
    ensures Rising(tags + [tag], limit)
  {}

  lemma RisingHigher(tags: seq<Option<nat>>, low: nat, high: nat)
    requires Rising(tags, low) && low <= high
    ensures Rising(tags, high)
  {}

  lemma HasRowMore(rows: seq<Row>, row: Row, id: Uuid)
    requires HasRow(rows, id)
    ensures HasRow(rows + [row], id)
  {
    var i :| 0 <= i < |rows| && rows[i].id == id;
    assert (rows + [row])[i].id == id;
  }

  lemma PushTagsRise(s: Store, row: Row, tag: Option<nat>)
    requires TagsRise(s)
    requires tag.Some? ==> Rising(TagsOf(s, row.frame.session), tag.value) && tag.value <= LeaseOf(s, row.frame.session).fence
    ensures TagsRise(Push(s, row, tag))
    ensures tag.Some? ==> Rising(TagsOf(Push(s, row, tag), row.frame.session), tag.value)
  {
    var (session, t) := (row.frame.session, Push(s, row, tag));
    var limit := LeaseOf(s, session).fence;
    if tag.Some? {
      RisingMore(TagsOf(s, session), tag.value, tag);
      RisingHigher(TagsOf(t, session), tag.value, limit);
    } else {
      RisingMore(TagsOf(s, session), limit, tag);
    }
    forall x
      ensures |TagsOf(t, x)| == |LogOf(t, x)| && Rising(TagsOf(t, x), LeaseOf(t, x).fence)
    {
      assert |TagsOf(s, x)| == |LogOf(s, x)|;
    }
  }

  lemma PushBoundaries(s: Store, row: Row, tag: Option<nat>)
    requires BoundariesNameRows(s)
    ensures BoundariesNameRows(Push(s, row, tag))
  {
    var t := Push(s, row, tag);
    forall x | x in t.boundaries
      ensures HasRow(LogOf(t, x), t.boundaries[x])
    {
      if x == row.frame.session { HasRowMore(LogOf(s, x), row, s.boundaries[x]); }
    }
  }

  // -------------------------------------------------- steps keep the invariant

  /** Raising a session's fence or changing its holder leaves the log alone. */
  lemma FenceRaised(s: Store, t: Store, session: SessionId)
    requires TagsRise(s) && BatchIsLatest(s) && BoundariesNameRows(s)
    requires t.logs == s.logs && t.tags == s.tags && t.batch == s.batch && t.boundaries == s.boundaries
    requires LeaseOf(s, session).fence <= LeaseOf(t, session).fence
    requires forall x :: x != session ==> LeaseOf(t, x) == LeaseOf(s, x)
    ensures TagsRise(t) && BatchIsLatest(t) && BoundariesNameRows(t)
  {
    forall x
      ensures |TagsOf(t, x)| == |LogOf(t, x)| && Rising(TagsOf(t, x), LeaseOf(t, x).fence)
    {
      assert |TagsOf(s, x)| == |LogOf(s, x)| && Rising(TagsOf(s, x), LeaseOf(s, x).fence);
      RisingHigher(TagsOf(s, x), LeaseOf(s, x).fence, LeaseOf(t, x).fence);
    }
    forall x | x in t.boundaries
      ensures HasRow(LogOf(t, x), t.boundaries[x])
    {
      assert HasRow(LogOf(s, x), s.boundaries[x]);
    }
  }

  /** Everything but the replicas' rows, the leases and the claims given out. */
  predicate SameLog(s: Store, t: Store) {
    t.sessions == s.sessions && t.logs == s.logs && t.boundaries == s.boundaries && t.turnStates == s.turnStates &&
    t.batch == s.batch && t.tags == s.tags
  }

  /** A claim is refused, or given out under the session's next fence. */
  lemma ClaimOutcomes(s: Store, session: SessionId, replica: ReplicaId, now: nat)
    ensures var (t, r) := Claim(s, session, replica, now);
            var claim := SessionClaim(session, replica, LeaseOf(s, session).fence + 1);
            && SameLog(s, t)
            && (r == Ok(Claimed(claim)) ==>
                  t.issued == s.issued + [claim] && t.leases == s.leases[session := Lease(Some(replica), claim.fence)])
            && (r != Ok(Claimed(claim)) ==>
                  t.issued == s.issued && (t.leases == s.leases || t.leases == s.leases[session := LeaseOf(s, session)]))
  {}

  lemma ClaimKeeps(s: Store, session: SessionId, replica: ReplicaId, now: nat)
    requires Inv(s)
    ensures Inv(Claim(s, session, replica, now).0)
  {
    ClaimOutcomes(s, session, replica, now);
    var (t, r) := Claim(s, session, replica, now);
    var claim := SessionClaim(session, replica, LeaseOf(s, session).fence + 1);
    if r == Ok(Claimed(claim)) {
      GrantedKeeps(s, t, claim);
    } else {
      RefusedKeeps(s, t, session);
    }
  }

  lemma GrantedKeeps(s: Store, t: Store, claim: SessionClaim)
    requires Inv(s) && SameLog(s, t) && claim.fence == LeaseOf(s, claim.session).fence + 1
    requires t.issued == s.issued + [claim] && t.leases == s.leases[claim.session := Lease(Some(claim.replica), claim.fence)]
    ensures Inv(t)
  {
    FenceRaised(s, t, claim.session);
    NewClaimIsHighest(s, t, claim);
  }

  lemma RefusedKeeps(s: Store, t: Store, session: SessionId)
    requires Inv(s) && SameLog(s, t) && t.issued == s.issued
    requires t.leases == s.leases || t.leases == s.leases[session := LeaseOf(s, session)]
    ensures Inv(t)
  {
    FenceRaised(s, t, session);
    SameClaims(s, t);
  }

  lemma SameClaims(s: Store, t: Store)
    requires FencesGrow(s) && HoldersHaveClaims(s)
    requires t.issued == s.issued && forall x :: LeaseOf(t, x) == LeaseOf(s, x)
    ensures FencesGrow(t) && HoldersHaveClaims(t)
  {
    forall x | x in t.leases && t.leases[x].holder.Some?
      ensures SessionClaim(x, t.leases[x].holder.value, t.leases[x].fence) in t.issued
    {
      assert LeaseOf(t, x) == LeaseOf(s, x) && x in s.leases;
    }
  }

  lemma NewClaimIsHighest(s: Store, t: Store, claim: SessionClaim)
    requires FencesGrow(s) && HoldersHaveClaims(s)
    requires t.issued == s.issued + [claim] && claim.fence == LeaseOf(s, claim.session).fence + 1
    requires t.leases == s.leases[claim.session := Lease(Some(claim.replica), claim.fence)]
    ensures FencesGrow(t) && HoldersHaveClaims(t)
  {
    assert t.issued[|s.issued|] == claim;
    forall x | x in t.leases && t.leases[x].holder.Some?
      ensures SessionClaim(x, t.leases[x].holder.value, t.leases[x].fence) in t.issued
    {
      if x == claim.session {
        assert claim in t.issued;
      } else {
        assert SessionClaim(x, s.leases[x].holder.value, s.leases[x].fence) in s.issued;
      }
    }
  }

  lemma ReleaseKeeps(s: Store, claim: SessionClaim)
    requires Inv(s)
    ensures Inv(Release(s, claim))
  {
    FenceRaised(s, Release(s, claim), claim.session);
  }

  lemma AppendKeeps(s: Store, a: Append)
    requires Inv(s) && s.batch.None?
    ensures Inv(CreateProjected(s, a).0)
  {
    if AppendError(s, a).None? {
      var tag := if a.claim.Some? then Some(a.claim.value.fence) else None;
      assert |TagsOf(s, a.row.frame.session)| == |LogOf(s, a.row.frame.session)|;
      PushTagsRise(s, a.row, tag);
      PushBoundaries(s, a.row, tag);
      AppendedBoundary(s, Push(s, a.row, tag), a);
      AppendedKeeps(s, Push(s, a.row, tag), CreateProjected(s, a).0);
    }
  }

  lemma AppendedKeeps(s: Store, p: Store, t: Store)
    requires Inv(s) && TagsRise(p) && p.leases == s.leases && p.issued == s.issued
    requires t.logs == p.logs && t.tags == p.tags && t.leases == p.leases && t.issued == p.issued && t.batch == None
    requires BoundariesNameRows(t)
    ensures Inv(t)
  {
    SameLogs(p, t);
    SameClaims(s, t);
  }

  lemma AppendedBoundary(s: Store, p: Store, a: Append)
    requires AppendError(s, a).None? && BoundariesNameRows(p)
    requires p == Push(s, a.row, if a.claim.Some? then Some(a.claim.value.fence) else None)
    ensures BoundariesNameRows(CreateProjected(s, a).0)
  {
    var t := CreateProjected(s, a).0;
    if a.boundary.Some? { HasRowMore(LogOf(s, a.row.frame.session), a.row, a.boundary.value); }
    forall x | x in t.boundaries
      ensures HasRow(LogOf(t, x), t.boundaries[x])
    {
      assert LogOf(t, x) == LogOf(p, x);
    }
  }

  lemma SameLogs(p: Store, t: Store)
    requires TagsRise(p) && t.logs == p.logs && t.tags == p.tags && t.leases == p.leases
    ensures TagsRise(t)
  {
    forall x
      ensures |TagsOf(t, x)| == |LogOf(t, x)| && Rising(TagsOf(t, x), LeaseOf(t, x).fence)
    {
      assert |TagsOf(p, x)| == |LogOf(p, x)|;
    }
  }

  lemma PushNextKeeps(s: Store)
    requires Inv(s) && s.batch.Some? && s.batch.value.rest != []
    ensures Inv(PushNext(s))
  {
    var b := s.batch.value;
    PushTagsRise(s, b.rest[0], Some(b.claim.fence));
    PushBoundaries(s, b.rest[0], Some(b.claim.fence));
    SameLogs(Push(s, b.rest[0], Some(b.claim.fence)), PushNext(s));
  }

  lemma BatchTaken(s: Store, batch: Batch)
    requires Inv(s) && s.batch.None? && ForSession(batch.rest, batch.claim.session)
    requires batch.claim.fence <= LeaseOf(s, batch.claim.session).fence && Rising(TagsOf(s, batch.claim.session), batch.claim.fence)
    ensures Inv(s.(batch := Some(batch)))
  {
    SameLogs(s, s.(batch := Some(batch)));
    SameClaims(s, s.(batch := Some(batch)));
  }

  lemma BeginKeeps(s: Store, entries: seq<Row>, claim: SessionClaim, wall: int)
    requires Inv(s) && s.batch.None?
    ensures Inv(BeginBatch(s, entries, claim, wall).0)
  {
    if BeginBatch(s, entries, claim, wall).1.Ok? && entries != [] {
      var batch := Batch(claim, Stamped(entries, wall));
      assert ForSession(batch.rest, claim.session);
      assert |TagsOf(s, claim.session)| == |LogOf(s, claim.session)|;
      BatchTaken(s, batch);
    }
  }

  lemma DeleteKeeps(s: Store, session: SessionId)
    requires Inv(s) && s.batch.None?
    ensures Inv(Delete(s, session))
  {
    var t := Delete(s, session);
    forall x
      ensures |TagsOf(t, x)| == |LogOf(t, x)| && Rising(TagsOf(t, x), LeaseOf(t, x).fence)
    {
      assert |TagsOf(s, x)| == |LogOf(s, x)|;
    }
    forall x | x in t.boundaries
      ensures HasRow(LogOf(t, x), t.boundaries[x])
    {
      assert HasRow(LogOf(s, x), s.boundaries[x]);
    }
  }

  lemma StepKeeps(s: Store, step: Step, now: nat)
    requires Inv(s) && Enabled(s, step)
    ensures Inv(Next(s, step, now))
  {
    match step {
      case DoClaim(session, replica) => ClaimKeeps(s, session, replica, now);
      case DoRelease(claim) => ReleaseKeeps(s, claim);
      case DoAppend(append) => AppendKeeps(s, append);
      case DoBeginBatch(entries, claim, wall) => BeginKeeps(s, entries, claim, wall);
      case DoPush => PushNextKeeps(s);
      case DoDelete(session) => DeleteKeeps(s, session);
      case _ => FenceRaised(s, Next(s, step, now), 0);
    }
  }

  lemma {:induction false} RunKeeps(s: Store, run: seq<Timed>)
    requires Inv(s) && Runs(s, run)
    ensures Inv(After(s, run))
    decreases |run|
  {
    if run != [] {
      StepKeeps(s, run[0].step, run[0].now);
      RunKeeps(Next(s, run[0].step, run[0].now), run[1..]);
    }
  }

  // ---------------------------------------------------------- whole runs

  /** In every reachable store the fences tagging a session's rows never go
      down in store order, whatever claims land while a batch is pushed. */
  lemma FencesNeverGoDown(run: seq<Timed>, session: SessionId, i: nat, j: nat)
    requires Runs(EMPTY, run)
    ensures var s := After(EMPTY, run);
            var tags := TagsOf(s, session);
            |tags| == |LogOf(s, session)|
            && (i < j < |tags| && tags[i].Some? && tags[j].Some? ==> tags[i].value <= tags[j].value)
  {
    RunKeeps(EMPTY, run);
    var s := After(EMPTY, run);
    assert |TagsOf(s, session)| == |LogOf(s, session)|;
  }

  /** Of all the claims ever issued on a session at most one is valid. */
  lemma AtMostOneClaimIsValid(run: seq<Timed>, i: nat, j: nat)
    requires Runs(EMPTY, run)
    requires var s := After(EMPTY, run);
             i < |s.issued| && j < |s.issued| && s.issued[i].session == s.issued[j].session
             && Valid(s, s.issued[i]) && Valid(s, s.issued[j])
    ensures i == j
  {
    RunKeeps(EMPTY, run);
  }

  /** A claim with a fence the session has reached: issued at some time, or
      made up. */
  predicate Reached(s: Store, claim: SessionClaim) {
    claim.fence <= LeaseOf(s, claim.session).fence
  }

  lemma OneStepDeadForGood(s: Store, step: Step, now: nat, claim: SessionClaim)
    requires Enabled(s, step) && Reached(s, claim) && !Valid(s, claim)
    ensures Reached(Next(s, step, now), claim) && !Valid(Next(s, step, now), claim)
  {
    OneStepLeases(s, step, now, claim.session);
  }

  /** A step leaves a lease alone, claims it under the next fence or lets go of
      it. */
  lemma OneStepLeases(s: Store, step: Step, now: nat, session: SessionId)
    requires Enabled(s, step)
    ensures var (a, b) := (LeaseOf(s, session), LeaseOf(Next(s, step, now), session));
            || b == a
            || (b.fence == a.fence + 1 && step.DoClaim? && step.session == session && b.holder == Some(step.replica))
            || (b == Lease(None, a.fence) && step.DoRelease? && step.claim.session == session && Valid(s, step.claim))
    ensures session in s.leases ==> session in Next(s, step, now).leases
  {
    match step {
      case DoClaim(x, replica) => ClaimOutcomes(s, x, replica, now);
      case DoRelease(claim) =>
      case _ => OtherStepsKeepLeases(s, step, now);
    }
  }

  lemma OtherStepsKeepLeases(s: Store, step: Step, now: nat)
    requires Enabled(s, step) && !step.DoClaim? && !step.DoRelease?
    ensures Next(s, step, now).leases == s.leases
  {
    match step {
      case DoAppend(a) =>
      case DoPush =>
      case _ =>
    }
  }

  /** A claim that is no longer valid never becomes valid again. */
  lemma {:induction false} DeadForGood(s: Store, run: seq<Timed>, claim: SessionClaim)
    requires Runs(s, run) && Reached(s, claim) && !Valid(s, claim)
    ensures !Valid(After(s, run), claim)
    decreases |run|
  {
    if run != [] {
      OneStepDeadForGood(s, run[0].step, run[0].now, claim);
      DeadForGood(Next(s, run[0].step, run[0].now), run[1..], claim);
    }
  }

  // ------------------------------------------------------ stable and visible

  /** What ends a valid claim: its release, its replica claiming again, or
      another replica claiming when the holder is stale, draining or unknown. */
  predicate Ends(s: Store, step: Step, now: nat, claim: SessionClaim) {
    match step
    case DoRelease(c) => c == claim
    case DoClaim(session, replica) =>
      session == claim.session && session in s.sessions && (replica == claim.replica || !Serving(s, claim.replica, now))
    case _ => false
  }

  /** A valid claim survives a step exactly when the step is not one of those. */
  lemma ClaimIsStable(s: Store, step: Step, now: nat, claim: SessionClaim)
    requires Enabled(s, step) && Valid(s, claim)
    ensures Valid(Next(s, step, now), claim) <==> !Ends(s, step, now, claim)
  {
    match step {
      case DoClaim(session, replica) => ClaimEnds(s, session, replica, now, claim);
      case DoRelease(c) =>
      case _ => OtherStepsKeepLeases(s, step, now);
    }
  }

  lemma ClaimEnds(s: Store, session: SessionId, replica: ReplicaId, now: nat, claim: SessionClaim)
    requires Valid(s, claim)
    ensures Valid(Claim(s, session, replica, now).0, claim) <==> !Ends(s, DoClaim(session, replica), now, claim)
  {}

  ghost predicate NeverEnds(s: Store, run: seq<Timed>, claim: SessionClaim)
    requires Runs(s, run)
    decreases |run|
  {
    run == [] || (!Ends(s, run[0].step, run[0].now, claim) && NeverEnds(Next(s, run[0].step, run[0].now), run[1..], claim))
  }

  /** Over a whole run a claim is still valid exactly when nothing ended it. */
  lemma {:induction false} ClaimLasts(s: Store, run: seq<Timed>, claim: SessionClaim)
    requires Runs(s, run) && Valid(s, claim)
    ensures Valid(After(s, run), claim) <==> NeverEnds(s, run, claim)
    decreases |run|
  {
    if run != [] {
      var t := Next(s, run[0].step, run[0].now);
      ClaimIsStable(s, run[0].step, run[0].now, claim);
      if Valid(t, claim) {
        ClaimLasts(t, run[1..], claim);
      } else {
        OneStepReached(s, run[0].step, run[0].now, claim);
        DeadForGood(t, run[1..], claim);
      }
    }
  }

  lemma OneStepReached(s: Store, step: Step, now: nat, claim: SessionClaim)
    requires Enabled(s, step) && Reached(s, claim)
    ensures Reached(Next(s, step, now), claim)
  {
    OneStepLeases(s, step, now, claim.session);
  }

  /** Claiming is refused in favour of a holder exactly when the lease, looked
      at then, shows that other holder live and not draining. */
  lemma RefusalMatchesView(s: Store, session: SessionId, replica: ReplicaId, now: nat, h: ReplicaId)
    requires session in s.sessions
    ensures Claim(s, session, replica, now).1 == Ok(ManagedElsewhere(h)) <==>
            var holder := View(s, session, replica, now).holder;
            h != replica && holder.Some? && holder.value.replica == h && !holder.value.draining
  {}

  // ------------------------------------------------- claims during a batch

  /** Whether a step gives out a claim on the session. */
  predicate Grants(s: Store, step: Step, now: nat, session: SessionId) {
    step.DoClaim? && step.session == session && session in s.sessions && Claim(s, session, step.replica, now).1.value.Claimed?
  }

  ghost function GrantsIn(s: Store, run: seq<Timed>, session: SessionId): nat
    requires Runs(s, run)
    decreases |run|
  {
    if run == [] then 0
    else (if Grants(s, run[0].step, run[0].now, session) then 1 else 0) + GrantsIn(Next(s, run[0].step, run[0].now), run[1..], session)
  }

  lemma OneStepFence(s: Store, step: Step, now: nat, session: SessionId)
    requires Enabled(s, step)
    ensures LeaseOf(Next(s, step, now), session).fence == LeaseOf(s, session).fence + if Grants(s, step, now, session) then 1 else 0
  {
    OneStepLeases(s, step, now, session);
    if step.DoClaim? { ClaimOutcomes(s, step.session, step.replica, now); }
  }

  /** A session's fence counts the claims given out on it. */
  lemma {:induction false} FenceCountsGrants(s: Store, run: seq<Timed>, session: SessionId)
    requires Runs(s, run)
    ensures LeaseOf(After(s, run), session).fence == LeaseOf(s, session).fence + GrantsIn(s, run, session)
    decreases |run|
  {
    if run != [] {
      OneStepFence(s, run[0].step, run[0].now, session);
      FenceCountsGrants(Next(s, run[0].step, run[0].now), run[1..], session);
    }
  }

  lemma BegunBatch(s: Store, entries: seq<Row>, claim: SessionClaim, wall: int)
    requires Inv(s) && s.batch.None? && entries != [] && BeginBatch(s, entries, claim, wall).1.Ok?
    ensures var t := BeginBatch(s, entries, claim, wall).0; Inv(t) && LeaseOf(t, claim.session).fence == claim.fence
  {
    BeginKeeps(s, entries, claim, wall);
  }

  lemma PushedTag(u: Store)
    requires Inv(u) && u.batch.Some? && u.batch.value.rest != []
    ensures var claim := u.batch.value.claim;
            && TagsOf(PushNext(u), claim.session) == TagsOf(u, claim.session) + [Some(claim.fence)]
            && LeaseOf(PushNext(u), claim.session) == LeaseOf(u, claim.session)
  {}

  /** A row of a batch is stored under the fence that is then current exactly when
      no claim on the session was given out since the batch's lease check. */
  lemma BatchFenceIsCurrent(s: Store, entries: seq<Row>, claim: SessionClaim, wall: int, run: seq<Timed>)
    requires Inv(s) && s.batch.None? && entries != [] && BeginBatch(s, entries, claim, wall).1.Ok?
    requires var t := BeginBatch(s, entries, claim, wall).0;
             Runs(t, run) && After(t, run).batch.Some? && After(t, run).batch.value.claim == claim && After(t, run).batch.value.rest != []
    ensures var t := BeginBatch(s, entries, claim, wall).0;
            var pushed := PushNext(After(t, run));
            && TagsOf(pushed, claim.session) == TagsOf(After(t, run), claim.session) + [Some(claim.fence)]
            && (claim.fence == LeaseOf(pushed, claim.session).fence <==> GrantsIn(t, run, claim.session) == 0)
  {
    var t := BeginBatch(s, entries, claim, wall).0;
    BegunBatch(s, entries, claim, wall);
    RunKeeps(t, run);
    FenceCountsGrants(t, run, claim.session);
    PushedTag(After(t, run));
  }

  /** A row appended on its own is always under the fence that is current when it
      is stored. */
  lemma AppendedUnderCurrentFence(s: Store, a: Append)
    requires AppendError(s, a).None? && a.claim.Some?
    ensures Valid(CreateProjected(s, a).0, a.claim.value)
    ensures TagsOf(CreateProjected(s, a).0, a.row.frame.session) ==
            TagsOf(s, a.row.frame.session) + [Some(LeaseOf(s, a.row.frame.session).fence)]
  {}

  // ------------------------------------------------- a run that supersedes

  /** One more step at the end of a run. */
  lemma {:induction false} RunMore(s: Store, run: seq<Timed>, more: Timed)
    requires Runs(s, run) && Enabled(After(s, run), more.step)
    ensures Runs(s, run + [more]) && After(s, run + [more]) == Next(After(s, run), more.step, more.now)
    decreases |run|
  {
    if run == [] {
      assert run + [more] == [more] && [more][1..] == [];
    } else {
      RunMore(Next(s, run[0].step, run[0].now), run[1..], more);
      assert (run + [more])[1..] == run[1..] + [more];
    }
  }

  const FIRST := SessionClaim(0, 1, 1)

  const SECOND := SessionClaim(0, 2, 2)

  function Written(id: Uuid): Row {
    Row(id, 0, Frame(0, false, id))
  }

  /** A session with a claim on it, and a batch of two rows begun under the claim;
      then the holder is silent until another replica claims. */
  const HELD := EMPTY.(sessions := {0}, replicas := map[1 := ReplicaRow(0, None, false)], leases := map[0 := Lease(Some(1), 1)], issued := [FIRST])

  const BEGUN := HELD.(batch := Some(Batch(FIRST, Stamped([Written(1), Written(2)], 0))))

  const RECLAIMED := BEGUN.(replicas := map[1 := ReplicaRow(0, None, false), 2 := ReplicaRow(STALE_AFTER, None, false)],
                            leases := map[0 := Lease(Some(2), 2)], issued := [FIRST, SECOND])

  lemma HeldIsReachable() returns (run: seq<Timed>)
    ensures Runs(EMPTY, run) && After(EMPTY, run) == HELD
  {
    run := [];
    RunMore(EMPTY, run, Timed(DoCreate(0), 0));
    run := run + [Timed(DoCreate(0), 0)];
    RunMore(EMPTY, run, Timed(DoClaim(0, 1), 0));
    run := run + [Timed(DoClaim(0, 1), 0)];
    assert After(EMPTY, run) == HELD;
  }

  lemma ReclaimedIsReachable() returns (run: seq<Timed>)
    ensures Runs(EMPTY, run) && After(EMPTY, run) == RECLAIMED
  {
    run := HeldIsReachable();
    var begin := Timed(DoBeginBatch([Written(1), Written(2)], FIRST, 0), 0);
    RunMore(EMPTY, run, begin);
    run := run + [begin];
    assert After(EMPTY, run) == BEGUN;
    RunMore(EMPTY, run, Timed(DoClaim(0, 2), STALE_AFTER));
    run := run + [Timed(DoClaim(0, 2), STALE_AFTER)];
    assert After(EMPTY, run) == RECLAIMED;
  }

  /** The log writers' lock alone does not keep claims out: a run in which another
      replica claims between a batch's lease check and its rows, which are then
      stored under a fence already superseded; a row of the new holder follows. */
  lemma BatchCanBeSuperseded() returns (run: seq<Timed>)
    ensures Runs(EMPTY, run)
    ensures var s := After(EMPTY, run);
            && LogOf(s, 0) == [Written(1), Written(2).(createdAt := 1), Written(3)]
            && TagsOf(s, 0) == [Some(1), Some(1), Some(2)]
    ensures exists k: nat :: k <= |run| && Runs(EMPTY, run[..k]) &&
              LeaseOf(After(EMPTY, run[..k]), 0).fence == 2 && TagsOf(After(EMPTY, run[..k]), 0) == []
  {
    run := ReclaimedIsReachable();
    var (k, before) := (|run|, run);
    var push := Timed(DoPush, STALE_AFTER);
    var last := Timed(DoAppend(Append(Written(3), Some(SECOND), None, None)), STALE_AFTER);
    PushingOnReclaimed();
    RunMore(EMPTY, run, push);
    run := run + [push];
    RunMore(EMPTY, run, push);
    run := run + [push];
    RunMore(EMPTY, run, last);
    run := run + [last];
    AppendedUnderCurrentFence(ALL_PUSHED, last.step.append);
    assert run[..k] == before;
  }

  const LATE := Written(2).(createdAt := 1)

  const HALF_PUSHED := RECLAIMED.(logs := map[0 := [Written(1)]], tags := map[0 := [Some(1)]], batch := Some(Batch(FIRST, [LATE])))

  const ALL_PUSHED := RECLAIMED.(logs := map[0 := [Written(1), LATE]], tags := map[0 := [Some(1), Some(1)]], batch := None)

  lemma PushingOnReclaimed()
    ensures RECLAIMED.batch.value.rest != [] && PushNext(RECLAIMED) == HALF_PUSHED && PushNext(HALF_PUSHED) == ALL_PUSHED
  {
    var rest := Stamped([Written(1), Written(2)], 0);
    assert rest == [Written(1), LATE] && rest[1..] == [LATE];
    FirstPush(RECLAIMED);
    SecondPush(HALF_PUSHED);
    assert PushNext(RECLAIMED).batch == Some(Batch(FIRST, [LATE]));
  }

  lemma FirstPush(s: Store)
    requires s.logs == map[] && s.tags == map[]
    ensures var p := Push(s, Written(1), Some(1)); p.logs == map[0 := [Written(1)]] && p.tags == map[0 := [Some(1)]]
  {
    assert [] + [Written(1)] == [Written(1)];
    var none: seq<Option<nat>> := [];
    assert none + [Some(1)] == [Some(1)];
  }

  lemma SecondPush(s: Store)
    requires s.logs == map[0 := [Written(1)]] && s.tags == map[0 := [Some(1)]]
    ensures var p := Push(s, LATE, Some(1)); p.logs == map[0 := [Written(1), LATE]] && p.tags == map[0 := [Some(1), Some(1)]]
  {
    assert [Written(1)] + [LATE] == [Written(1), LATE];
    var one: seq<Option<nat>> := [Some(1)];
    assert one + [Some(1)] == [Some(1), Some(1)];
  }
}
