/**
 The in-memory store, its maps updated in place. Every method is one step of the
 state machine; a batch is its two halves with nothing in between.
 */
module SessionStores {
  import opened Common
  import Leases
  import LogReads

  type SessionId = Leases.SessionId
  type ReplicaId = Leases.ReplicaId
  type Row = Leases.Row
  type Error = Leases.Error

  class SessionStore {
    var sessions: set<SessionId>
    var replicas: map<ReplicaId, Leases.ReplicaRow>
    var leases: map<SessionId, Leases.Lease>
    var logs: map<SessionId, seq<Row>>
    var boundaries: map<SessionId, Leases.Uuid>
    var turnStates: map<SessionId, nat>
    ghost var tags: map<SessionId, seq<Option<nat>>>
    ghost var issued: seq<Leases.SessionClaim>

    ghost function View(): Leases.Store
      reads this
    {
      Leases.Store(sessions, replicas, leases, logs, boundaries, turnStates, None, tags, issued)
    }

    constructor ()
      ensures View() == Leases.EMPTY
    {
      sessions, replicas, leases, logs, boundaries, turnStates := {}, map[], map[], map[], map[], map[];
      tags, issued := map[], [];
    }

    /** The holder of a session's lease gives way only when it is not live, is
        draining, or is the claimer itself. */
    method Claim(session: SessionId, replica: ReplicaId, now: nat) returns (r: Result<Leases.ClaimOutcome, Error>)
      modifies this
      ensures (View(), r) == Leases.Claim(old(View()), session, replica, now)
    {
      if session !in sessions {
        return Err(Leases.Unknown(session));
      }
      var row := if replica in replicas then replicas[replica] else Leases.ReplicaRow(now, None, false);
      replicas := replicas[replica := row.(beat := now)];
      var lease := if session in leases then leases[session] else Leases.Lease(None, 0);
      leases := leases[session := lease];
      if lease.holder.Some? && lease.holder.value != replica && lease.holder.value in replicas {
        var other := replicas[lease.holder.value];
        if now < other.beat + Leases.STALE_AFTER && !other.draining {
          return Ok(Leases.ManagedElsewhere(lease.holder.value));
        }
      }
      assert leases[session := Leases.Lease(Some(replica), lease.fence + 1)] ==
             old(leases)[session := Leases.Lease(Some(replica), lease.fence + 1)];
      leases := leases[session := Leases.Lease(Some(replica), lease.fence + 1)];
      var claim := Leases.SessionClaim(session, replica, lease.fence + 1);
      issued := issued + [claim];
      r := Ok(Leases.Claimed(claim));
    }

    /** A superseded claim releases nothing. */
    method Release(claim: Leases.SessionClaim)
      modifies this`leases
      ensures View() == Leases.Release(old(View()), claim)
    {
      if claim.session in leases {
        var lease := leases[claim.session];
        if lease.holder == Some(claim.replica) && lease.fence == claim.fence {
          leases := leases[claim.session := lease.(holder := None)];
        }
      }
    }

    /** The beat is noted; the address changes only to one that is given. */
    method Heartbeat(replica: ReplicaId, address: Option<nat>, now: nat)
      modifies this`replicas
      ensures View() == Leases.Beat(old(View()), replica, address, now)
    {
      var row := if replica in replicas then replicas[replica] else Leases.ReplicaRow(now, None, false);
      row := row.(beat := now);
      if address.Some? {
        row := row.(address := address);
      }
      replicas := replicas[replica := row];
    }

    method LeaseView(session: SessionId, replica: ReplicaId, now: nat) returns (v: Leases.LeaseView)
      ensures v == Leases.View(View(), session, replica, now)
    {
      var holder: Option<Leases.SessionManager> := None;
      if session in leases && leases[session].holder.Some? {
        var h := leases[session].holder.value;
        if h in replicas && now < replicas[h].beat + Leases.STALE_AFTER {
          holder := Some(Leases.SessionManager(h, replicas[h].address, replicas[h].draining));
        }
      }
      v := Leases.LeaseView(holder, replica in replicas && replicas[replica].draining);
    }

    /** A replica never un-drains. */
    method BeginDraining(replica: ReplicaId, now: nat)
      modifies this`replicas
      ensures View() == Leases.BeginDraining(old(View()), replica, now)
    {
      var row := if replica in replicas then replicas[replica] else Leases.ReplicaRow(now, None, false);
      replicas := replicas[replica := row.(draining := true)];
    }

    method CreateLog(row: Row, ghost tag: Option<nat>)
      modifies this`logs, this`tags
      ensures View() == Leases.Push(old(View()), row, tag)
    {
      var session := row.frame.session;
      var rows := if session in logs then logs[session] else [];
      logs := logs[session := rows + [row]];
      tags := tags[session := Leases.TagsOf(old(View()), session) + [tag]];
    }

    /** Appends one entry under a claim, if any, with its boundary and turn
        state. */
    method CreateProjected(a: Leases.Append) returns (r: Result<Row, Error>)
      modifies this`logs, this`tags, this`boundaries, this`turnStates
      ensures (View(), r) == Leases.CreateProjected(old(View()), a)
    {
      var session := a.row.frame.session;
      if a.boundary.Some? && a.claim.None? {
        return Err(Leases.FencedOut(session));
      }
      if a.claim.Some? {
        var claim := a.claim.value;
        if claim.session != session || session !in leases || leases[session] != Leases.Lease(Some(claim.replica), claim.fence) {
          return Err(Leases.FencedOut(session));
        }
      }
      if session !in sessions {
        return Err(Leases.FencedOut(session));
      }
      if a.boundary.Some? {
        var known := FindRow(if session in logs then logs[session] else [], a.boundary.value);
        if !known {
          return Err(Leases.Handshake);
        }
      }
      CreateLog(a.row, if a.claim.Some? then Some(a.claim.value.fence) else None);
      if a.boundary.Some? {
        boundaries := boundaries[session := a.boundary.value];
      }
      if a.turnState.Some? {
        turnStates := turnStates[session := a.turnState.value];
      }
      r := Ok(a.row);
    }

    method FindRow(rows: seq<Row>, id: Leases.Uuid) returns (found: bool)
      ensures found <==> Leases.HasRow(rows, id)
    {
      for k := 0 to |rows|
        invariant forall i :: 0 <= i < k ==> rows[i].id != id
      {
        if rows[k].id == id {
          return true;
        }
      }
      found := false;
    }

    /** Appends a run of entries under one claim. Each is pushed with an id and
        a time of its own and then overwritten by the row the batch carries. */
    method CreateBatchFenced(entries: seq<Row>, claim: Leases.SessionClaim, wall: int, minted: Leases.Uuid)
      returns (r: Result<seq<Row>, Error>)
      modifies this`logs, this`tags
      ensures r == Leases.BeginBatch(old(View()), entries, claim, wall).1
      ensures View() == Leases.PushAll(Leases.BeginBatch(old(View()), entries, claim, wall).0)
    {
      if entries == [] {
        return Ok([]);
      }
      var ours := AllFor(entries, claim.session);
      if !ours {
        return Err(Leases.FencedOut(claim.session));
      }
      if claim.session !in leases || leases[claim.session] != Leases.Lease(Some(claim.replica), claim.fence) || claim.session !in sessions {
        return Err(Leases.FencedOut(claim.session));
      }
      Leases.PushAllPushes(View(), claim, Leases.Stamped(entries, wall));
      var stored := PushRows(entries, claim, wall, minted);
      r := Ok(stored);
    }

    method AllFor(entries: seq<Row>, session: SessionId) returns (all: bool)
      ensures all <==> Leases.ForSession(entries, session)
    {
      for k := 0 to |entries|
        invariant forall i :: 0 <= i < k ==> entries[i].frame.session == session
      {
        if entries[k].frame.session != session {
          return false;
        }
      }
      all := true;
    }

    method PushRows(entries: seq<Row>, claim: Leases.SessionClaim, wall: int, minted: Leases.Uuid) returns (stored: seq<Row>)
      requires entries != [] && Leases.ForSession(entries, claim.session)
      modifies this`logs, this`tags
      ensures stored == Leases.Stamped(entries, wall)
      ensures View() == Leases.Pushed(old(View()), claim, stored)
    {
      ghost var start := View();
      ghost var rows := Leases.Stamped(entries, wall);
      stored := [];
      for k := 0 to |entries|
        invariant stored == rows[..k]
        invariant View() == Leases.Pushed(start, claim, rows[..k])
      {
        var created := entries[k].(createdAt := wall + k);
        assert created == rows[k];
        Leases.PushedMore(start, claim, rows, k);
        PushRow(created, claim, wall, minted);
        stored := stored + [created];
      }
      assert rows[..|entries|] == rows;
    }

    /** Pushes a row and then overwrites it. */
    method PushRow(created: Row, claim: Leases.SessionClaim, wall: int, minted: Leases.Uuid)
      requires created.frame.session == claim.session
      modifies this`logs, this`tags
      ensures View() == Leases.Push(old(View()), created, Some(claim.fence))
    {
      CreateLog(created.(id := minted, createdAt := wall), Some(claim.fence));
      var rows := logs[claim.session];
      assert rows[|rows| - 1 := created] == Leases.LogOf(old(View()), claim.session) + [created];
      assert logs[claim.session := rows[|rows| - 1 := created]] == old(logs)[claim.session := rows[|rows| - 1 := created]];
      logs := logs[claim.session := rows[|rows| - 1 := created]];
    }

    /** Leases outlive their session. */
    method Delete(session: SessionId)
      modifies this
      ensures View() == Leases.Delete(old(View()), session)
    {
      boundaries := boundaries - {session};
      turnStates := turnStates - {session};
      sessions := sessions - {session};
      logs := logs - {session};
      tags := tags - {session};
    }

    method ListBySession(session: SessionId) returns (rows: seq<Row>)
      ensures rows == LogReads.ListBySession(View(), session)
    {
      rows := LogReads.InReadOrder(if session in logs then logs[session] else []);
      var start := if session in boundaries then LogReads.Position(rows, boundaries[session]).UnwrapOr(0) else 0;
      var hasNotifications := false;
      for k := 0 to |rows|
        invariant hasNotifications <==> exists i :: 0 <= i < k && rows[i].frame.notifies
      {
        if rows[k].frame.notifies {
          hasNotifications := true;
        }
      }
      rows := rows[if hasNotifications then 0 else start..];
    }
  }
}
