/**
 Replicas that start from one document and take in the same entries agree, in
 whatever order and batches the entries come, exactly when each new node arrives
 with its content at both.
 */
module Convergence {
  import opened Common
  import opened Positions
  import opened Documents
  import opened Replicas

  /** The stored document everyone opened. */
  datatype Base = Base(nodes: seq<Node>, positions: map<Id, Key>)

  ghost predicate ValidBase(base: Base) {
    UniqueIds(base.nodes) && ParentsInArena(base.nodes)
  }

  predicate HasId(nodes: seq<Node>, id: Id) {
    Find(nodes, id).Some?
  }

  // ------------------------------------------------------------- invariant

  /** The node reads as its state says. */
  predicate Reads(r: Replica, n: Node, s: NodeState) {
    n.name == s.name && n.hidden == s.hidden && n.locked == s.locked && n.opacity == s.opacity &&
    n.blend == s.blend && n.transform == s.transform && n.artboard == s.artboard && n.removed == s.removed &&
    KeyOf(r.positions, n.id) == s.position
  }

  /** The node is under its state's parent, or waits for exactly that parent. */
  predicate Linked(r: Replica, n: Node, s: NodeState) {
    if s.parent.None? then n.parent.None? && n.id !in r.unlinked
    else if HasId(r.nodes, s.parent.value) then n.parent == Find(r.nodes, s.parent.value) && n.id !in r.unlinked
    else Waits(r, n, s.parent.value)
  }

  predicate Waits(r: Replica, n: Node, parent: Id) {
    n.parent.None? && n.id in r.unlinked && r.unlinked[n.id] == parent
  }

  /** While a batch is being merged a node may still wait for a parent that has
      just arrived. */
  predicate LinkedOrWaits(r: Replica, n: Node, s: NodeState) {
    Linked(r, n, s) || (s.parent.Some? && Waits(r, n, s.parent.value))
  }

  /** A node nobody has shared is as the document was opened. */
  predicate AsOpened(base: Base, r: Replica, i: nat)
    requires i < |r.nodes|
  {
    i < |base.nodes| &&
    var (n, b) := (r.nodes[i], base.nodes[i]);
    n.id == b.id && n.name == b.name && n.hidden == b.hidden && n.locked == b.locked && n.opacity == b.opacity &&
    n.blend == b.blend && n.transform == b.transform && n.artboard == b.artboard && n.removed == b.removed &&
    n.parent == b.parent && KeyOf(r.positions, n.id) == KeyOf(base.positions, n.id) && n.id !in r.unlinked
  }

  ghost predicate Extends(base: Base, nodes: seq<Node>) {
    |base.nodes| <= |nodes| && forall i :: 0 <= i < |base.nodes| ==> nodes[i].id == base.nodes[i].id
  }

  predicate Settled(base: Base, r: Replica, i: nat)
    requires i < |r.nodes|
  {
    var n := r.nodes[i];
    if n.id in r.states then Reads(r, n, r.states[n.id]) && Linked(r, n, r.states[n.id]) else AsOpened(base, r, i)
  }

  predicate SettledOrWaits(base: Base, r: Replica, i: nat)
    requires i < |r.nodes|
  {
    var n := r.nodes[i];
    if n.id in r.states then Reads(r, n, r.states[n.id]) && LinkedOrWaits(r, n, r.states[n.id]) else AsOpened(base, r, i)
  }

  /** What was recorded with its content is there; a state without content may
      be recorded of a node that is not. */
  ghost predicate ContentArrived(r: Replica, todo: set<Id>) {
    forall id :: id in r.states && id !in todo && r.states[id].kind.Some? ==> HasId(r.nodes, id)
  }

  /** Every node but those still to be merged is as its state says. */
  ghost predicate Merging(base: Base, r: Replica, todo: set<Id>) {
    && UniqueIds(r.nodes)
    && Extends(base, r.nodes)
    && (forall i :: 0 <= i < |r.nodes| && r.nodes[i].id !in todo ==> SettledOrWaits(base, r, i))
    && ContentArrived(r, todo)
  }

  /** The invariant between steps. */
  ghost predicate Inv(base: Base, r: Replica) {
    && UniqueIds(r.nodes)
    && Extends(base, r.nodes)
    && (forall i :: 0 <= i < |r.nodes| ==> Settled(base, r, i))
    && ContentArrived(r, {})
  }

  // ---------------------------------------------------------------- intake

  /** The last state of each node in a sequence of entries. */
  function LastStates(known: map<Id, NodeState>, batch: seq<Entry>): map<Id, NodeState>
    decreases |batch|
  {
    if batch == [] then known
    else if IsState(batch[0]) then LastStates(known[batch[0].key.value := batch[0].value.value.state], batch[1..])
    else LastStates(known, batch[1..])
  }

  /** Skipping repeated entries still leaves the last state of every node. */
  lemma {:induction false} TakeInKeepsLast(t: Intake, batch: seq<Entry>)
    ensures TakeIn(t, batch).states == LastStates(t.states, batch)
    decreases |batch|
  {
    if batch != [] {
      var e := batch[0];
      if IsState(e) && e.key.value in t.states && t.states[e.key.value] == e.value.value.state {
        assert t.states[e.key.value := e.value.value.state] == t.states;
      }
      TakeInKeepsLast(TakeEntry(t, e), batch[1..]);
    }
  }

  lemma {:induction false} LastStatesConcat(known: map<Id, NodeState>, a: seq<Entry>, b: seq<Entry>)
    ensures LastStates(known, a + b) == LastStates(LastStates(known, a), b)
    decreases |a|
  {
    if a == [] {
      assert a + b == b;
    } else {
      assert (a + b)[1..] == a[1..] + b;
      var next := if IsState(a[0]) then known[a[0].key.value := a[0].value.value.state] else known;
      LastStatesConcat(next, a[1..], b);
    }
  }

  /** What an intake relates: the newest states are the recorded ones, and
      nothing else was touched. */
  ghost predicate IntakeFrom(known: map<Id, NodeState>, t: Intake) {
    t.states.Keys == known.Keys + t.newest.Keys &&
    (forall id :: id in t.newest ==> t.states[id] == t.newest[id]) &&
    (forall id :: id in known && id !in t.newest ==> t.states[id] == known[id])
  }

  lemma {:induction false} TakeInRelates(known: map<Id, NodeState>, t: Intake, batch: seq<Entry>)
    requires IntakeFrom(known, t)
    ensures IntakeFrom(known, TakeIn(t, batch))
    decreases |batch|
  {
    if batch != [] { TakeInRelates(known, TakeEntry(t, batch[0]), batch[1..]); }
  }

  lemma {:induction false} LastStatesOverlay(known: map<Id, NodeState>, batch: seq<Entry>)
    ensures LastStates(known, batch) == known + LastStates(map[], batch)
    decreases |batch|
  {
    if batch != [] {
      var (e, rest) := (batch[0], batch[1..]);
      if IsState(e) {
        var (id, state) := (e.key.value, e.value.value.state);
        LastStatesOverlay(known[id := state], rest);
        LastStatesOverlay(map[id := state], rest);
        assert known[id := state] + LastStates(map[], rest) == known + (map[id := state] + LastStates(map[], rest));
      } else {
        LastStatesOverlay(known, rest);
      }
    }
  }

  lemma {:induction false} NewestAreEntered(t: Intake, seen: map<Id, NodeState>, batch: seq<Entry>)
    requires t.newest.Keys <= seen.Keys
    ensures TakeIn(t, batch).newest.Keys <= LastStates(seen, batch).Keys
    decreases |batch|
  {
    if batch != [] {
      var e := batch[0];
      NewestAreEntered(TakeEntry(t, e), if IsState(e) then seen[e.key.value := e.value.value.state] else seen, batch[1..]);
    }
  }

  /** The newest states are the last ones of the batch, but for those that only
      repeat what is recorded. */
  lemma NewestAreLast(known: map<Id, NodeState>, batch: seq<Entry>)
    ensures var (newest, last) := (TakeIn(Intake(known, map[]), batch).newest, LastStates(map[], batch));
            && (forall id :: id in newest ==> id in last && newest[id] == last[id])
            && (forall id :: id in last && id !in newest ==> id in known && known[id] == last[id])
  {
    var t := Intake(known, map[]);
    TakeInKeepsLast(t, batch);
    TakeInRelates(known, t, batch);
    NewestAreEntered(t, map[], batch);
    LastStatesOverlay(known, batch);
  }

  /** The batch's last state of the node has its content. */
  predicate Brings(batch: seq<Entry>, id: Id) {
    var last := LastStates(map[], batch);
    id in last && last[id].kind.Some?
  }

  // --------------------------------------------------------------- merging

  lemma BaseIdsStay(base: Base, nodes: seq<Node>, id: Id)
    requires Extends(base, nodes) && HasId(base.nodes, id)
    ensures HasId(nodes, id)
  {
    var i := Find(base.nodes, id).value;
    assert nodes[i].id == id;
  }

  /** Adding a node keeps what was found before. */
  lemma WithNodeFinds(nodes: seq<Node>, id: Id, s: NodeState)
    requires UniqueIds(nodes) && (Find(nodes, id).Some? || s.kind.Some?)
    ensures UniqueIds(WithNode(nodes, id, s))
    ensures forall x :: Find(nodes, x).Some? ==> Find(WithNode(nodes, id, s), x) == Find(nodes, x)
    ensures forall x :: Find(WithNode(nodes, id, s), x).Some? <==> Find(nodes, x).Some? || x == id
    ensures forall i :: 0 <= i < |nodes| ==> WithNode(nodes, id, s)[i] == nodes[i]
    ensures |nodes| <= |WithNode(nodes, id, s)| <= |nodes| + 1
    ensures forall i :: |nodes| <= i < |WithNode(nodes, id, s)| ==> WithNode(nodes, id, s)[i].id == id
  {
    if Find(nodes, id).None? {
      var n := NewNode(id, s.kind.value).(removed := true);
      forall x
        ensures Find(nodes + [n], x) == if Find(nodes, x).Some? then Find(nodes, x) else if id == x then Some(|nodes|) else None
      {
        FindAfterPush(nodes, n, x);
      }
    }
  }

  lemma FindsAlike(a: seq<Node>, b: seq<Node>)
    requires SameIds(a, b)
    ensures forall x :: Find(a, x) == Find(b, x)
  {
    forall x
      ensures Find(a, x) == Find(b, x)
    {
      FindDependsOnIds(a, b, x);
    }
  }

  /** Changing one node leaves the others, and what is found, alone. */
  ghost predicate OtherNodesStay(a: seq<Node>, b: seq<Node>, id: Id) {
    && |a| <= |b|
    && (forall x :: HasId(a, x) ==> Find(b, x) == Find(a, x))
    && (forall x :: HasId(b, x) <==> HasId(a, x) || x == id)
    && (forall i :: 0 <= i < |b| && b[i].id != id ==> i < |a| && b[i] == a[i])
    && (forall i :: 0 <= i < |a| ==> b[i].id == a[i].id)
  }

  ghost predicate OthersStay(a: Replica, b: Replica, id: Id) {
    && OtherNodesStay(a.nodes, b.nodes, id)
    && (forall x :: x != id ==> KeyOf(b.positions, x) == KeyOf(a.positions, x))
    && (forall x :: x != id ==> (x in b.unlinked <==> x in a.unlinked) && (x in b.unlinked ==> b.unlinked[x] == a.unlinked[x]))
  }

  lemma WritingKeepsOthers(nodes: seq<Node>, id: Id, s: NodeState, n: Node)
    requires UniqueIds(nodes) && (HasId(nodes, id) || s.kind.Some?) && n.id == id
    ensures var w := WithNode(nodes, id, s);
            var b := w[Find(w, id).value := n];
            UniqueIds(b) && OtherNodesStay(nodes, b, id) && forall x :: Find(b, x) == Find(w, x)
  {
    var w := WithNode(nodes, id, s);
    WithNodeFinds(nodes, id, s);
    FindsAlike(w, w[Find(w, id).value := n]);
  }

  lemma MergeKeepsOthers(p: Progress, id: Id, s: NodeState)
    requires UniqueIds(p.r.nodes) && (HasId(p.r.nodes, id) || s.kind.Some?)
    ensures var q := Merge(p, id, s).r;
            q.states == p.r.states && UniqueIds(q.nodes) && OthersStay(p.r, q, id)
            && (forall x :: Find(q.nodes, x) == Find(WithNode(p.r.nodes, id, s), x))
  {
    var w := WithNode(p.r.nodes, id, s);
    var n := w[Find(w, id).value];
    WritingKeepsOthers(p.r.nodes, id, s, Rewritten(n, s, ParentOf(w, s.parent), SourceOf(w, s.source)));
  }

  lemma MergedNodeReads(p: Progress, id: Id, s: NodeState, i: nat)
    requires UniqueIds(p.r.nodes) && (HasId(p.r.nodes, id) || s.kind.Some?)
    requires i < |Merge(p, id, s).r.nodes| && Merge(p, id, s).r.nodes[i].id == id
    ensures var q := Merge(p, id, s).r; Reads(q, q.nodes[i], s) && Linked(q, q.nodes[i], s)
  {
    var q := Merge(p, id, s).r;
    var nodes := WithNode(p.r.nodes, id, s);
    MergeKeepsOthers(p, id, s);
    FindIsUnique(q.nodes, i);
    assert q.nodes[i] == Rewritten(nodes[i], s, ParentOf(nodes, s.parent), SourceOf(nodes, s.source));
    assert ParentOf(nodes, s.parent) == ParentOf(q.nodes, s.parent);
  }

  /** A state without content is skipped while its node is missing. */
  lemma SkippingStep(base: Base, p: Progress, id: Id, s: NodeState, todo: set<Id>)
    requires Merging(base, p.r, todo) && id in todo && id in p.r.states && s == p.r.states[id]
    requires !HasId(p.r.nodes, id) && s.kind.None?
    ensures Merging(base, Merge(p, id, s).r, todo - {id})
  {
    forall i | 0 <= i < |p.r.nodes| && p.r.nodes[i].id !in todo - {id}
      ensures SettledOrWaits(base, p.r, i)
    {
      assert p.r.nodes[i].id != id;
    }
  }

  lemma MergeStep(base: Base, p: Progress, id: Id, s: NodeState, todo: set<Id>)
    requires Merging(base, p.r, todo) && id in todo && id in p.r.states && s == p.r.states[id]
    requires HasId(p.r.nodes, id) || s.kind.Some?
    ensures Merging(base, Merge(p, id, s).r, todo - {id})
  {
    var q := Merge(p, id, s).r;
    MergeKeepsOthers(p, id, s);
    forall i | 0 <= i < |q.nodes| && q.nodes[i].id !in todo - {id}
      ensures SettledOrWaits(base, q, i)
    {
      if q.nodes[i].id == id {
        MergedNodeReads(p, id, s, i);
      } else {
        assert SettledOrWaits(base, p.r, i);
        OtherNodeKeeps(base, p.r, q, id, i);
      }
    }
  }

  lemma OtherNodeKeeps(base: Base, a: Replica, b: Replica, id: Id, i: nat)
    requires OthersStay(a, b, id) && a.states == b.states
    requires i < |b.nodes| && b.nodes[i].id != id && i < |a.nodes| && SettledOrWaits(base, a, i)
    ensures SettledOrWaits(base, b, i)
  {
    assert b.nodes[i] == a.nodes[i];
  }

  lemma {:induction false} MergeAllKeeps(base: Base, p: Progress, todo: set<Id>, newest: map<Id, NodeState>)
    requires Merging(base, p.r, todo) && todo <= newest.Keys
    requires forall id :: id in todo ==> id in p.r.states && p.r.states[id] == newest[id]
    ensures Merging(base, MergeAll(p, todo, newest).r, {})
    ensures MergeAll(p, todo, newest).r.states == p.r.states
    decreases |todo|
  {
    if todo != {} {
      var id := Least(todo);
      if HasId(p.r.nodes, id) || newest[id].kind.Some? {
        MergeStep(base, p, id, newest[id], todo);
      } else {
        SkippingStep(base, p, id, newest[id], todo);
      }
      MergeAllKeeps(base, Merge(p, id, newest[id]), todo - {id}, newest);
    } else {
      assert todo == {};
    }
  }

  /** Merging adds exactly the nodes whose newest state has their content. */
  lemma {:induction false} MergeAllAdds(p: Progress, todo: set<Id>, newest: map<Id, NodeState>, x: Id)
    requires UniqueIds(p.r.nodes) && todo <= newest.Keys
    ensures HasId(MergeAll(p, todo, newest).r.nodes, x) <==> HasId(p.r.nodes, x) || (x in todo && newest[x].kind.Some?)
    decreases |todo|
  {
    if todo != {} {
      var id := Least(todo);
      if HasId(p.r.nodes, id) || newest[id].kind.Some? { MergeKeepsOthers(p, id, newest[id]); }
      MergeAllAdds(Merge(p, id, newest[id]), todo - {id}, newest, x);
    }
  }

  /** Once everything is merged, linking leaves only truly missing parents. */
  lemma LinkingCompletes(base: Base, p: Progress)
    requires Merging(base, p.r, {})
    ensures Inv(base, LinkWaiting(p).r)
    ensures LinkWaiting(p).r.states == p.r.states
  {
    var q := LinkWaiting(p).r;
    LinkingKeepsIds(p);
    forall i | 0 <= i < |q.nodes|
      ensures Settled(base, q, i)
    {
      FindIsUnique(p.r.nodes, i);
      LinkedNode(base, p, i);
    }
    FindsAlike(p.r.nodes, q.nodes);
  }

  lemma LinkedNode(base: Base, p: Progress, i: nat)
    requires i < |p.r.nodes| && SettledOrWaits(base, p.r, i) && Find(p.r.nodes, p.r.nodes[i].id) == Some(i)
    ensures Settled(base, LinkWaiting(p).r, i)
  {
    var (n, q) := (p.r.nodes[i], LinkWaiting(p).r);
    assert q.nodes[i] == if Linkable(p.r.nodes, p.r.unlinked, n.id) then n.(parent := Find(p.r.nodes, p.r.unlinked[n.id])) else n;
    assert n.id in q.unlinked <==> n.id in p.r.unlinked && !Linkable(p.r.nodes, p.r.unlinked, n.id);
    if n.id in p.r.states && p.r.states[n.id].parent.Some? {
      assert SameIds(p.r.nodes, q.nodes);
      FindDependsOnIds(p.r.nodes, q.nodes, p.r.states[n.id].parent.value);
    }
  }

  lemma RelinkKeeps(base: Base, r: Replica, parents: set<Option<nat>>)
    requires Inv(base, r)
    ensures Inv(base, Relink(r, parents))
  {
    var q := Relink(r, parents);
    assert SameIds(r.nodes, q.nodes);
    forall i | 0 <= i < |q.nodes|
      ensures Settled(base, q, i)
    {
      RelinkedNode(base, r, parents, i);
    }
    FindsAlike(r.nodes, q.nodes);
  }

  lemma RelinkedNode(base: Base, r: Replica, parents: set<Option<nat>>, i: nat)
    requires i < |r.nodes| && Settled(base, r, i)
    ensures Settled(base, Relink(r, parents), i)
  {
    var (n, q) := (r.nodes[i], Relink(r, parents));
    assert q.nodes[i] == n.(children := q.nodes[i].children);
    if n.id in r.states && r.states[n.id].parent.Some? {
      assert SameIds(r.nodes, q.nodes);
      FindDependsOnIds(r.nodes, q.nodes, r.states[n.id].parent.value);
    }
  }

  /** Applying a batch keeps the invariant, and records the last state of every
      node in it. */
  lemma ApplyKeeps(base: Base, r: Replica, batch: seq<Entry>)
    requires Inv(base, r)
    ensures Inv(base, Apply(r, batch).r)
    ensures Apply(r, batch).r.states == LastStates(r.states, batch)
  {
    MergedKeeps(base, r, batch);
    var m := Merged(r, batch);
    LinkingCompletes(base, m);
    RelinkKeeps(base, LinkWaiting(m).r, LinkWaiting(m).parents);
  }

  lemma MergedKeeps(base: Base, r: Replica, batch: seq<Entry>)
    requires Inv(base, r)
    ensures Merging(base, Merged(r, batch).r, {})
    ensures Merged(r, batch).r.states == LastStates(r.states, batch)
  {
    var t := TakeIn(Intake(r.states, map[]), batch);
    TakeInKeepsLast(Intake(r.states, map[]), batch);
    TakeInRelates(r.states, Intake(r.states, map[]), batch);
    var p := Progress(r.(states := t.states), {}, [], false);
    forall i | 0 <= i < |p.r.nodes| && p.r.nodes[i].id !in t.newest.Keys
      ensures SettledOrWaits(base, p.r, i)
    {
      assert Settled(base, r, i);
    }
    assert Merging(base, p.r, t.newest.Keys);
    MergeAllKeeps(base, p, t.newest.Keys, t.newest);
  }

  /** A batch adds exactly the nodes it brings the content of. */
  lemma ApplyAdds(base: Base, r: Replica, batch: seq<Entry>, x: Id)
    requires Inv(base, r)
    ensures HasId(Apply(r, batch).r.nodes, x) <==> HasId(r.nodes, x) || Brings(batch, x)
  {
    MergedAdds(base, r, batch, x);
    FinishingKeepsIds(Merged(r, batch), x);
  }

  lemma MergedAdds(base: Base, r: Replica, batch: seq<Entry>, x: Id)
    requires Inv(base, r)
    ensures HasId(Merged(r, batch).r.nodes, x) <==> HasId(r.nodes, x) || Brings(batch, x)
  {
    var t := TakeIn(Intake(r.states, map[]), batch);
    var p := Progress(r.(states := t.states), {}, [], false);
    NewestAreLast(r.states, batch);
    MergeAllAdds(p, t.newest.Keys, t.newest, x);
    assert Merged(r, batch) == MergeAll(p, t.newest.Keys, t.newest);
  }

  lemma FinishingKeepsIds(p: Progress, x: Id)
    ensures var l := LinkWaiting(p); Find(Relink(l.r, l.parents).nodes, x) == Find(p.r.nodes, x)
  {
    var l := LinkWaiting(p);
    LinkingKeepsIds(p);
    RelinkingKeepsIds(l.r, l.parents);
    FindDependsOnIds(p.r.nodes, l.r.nodes, x);
    FindDependsOnIds(l.r.nodes, Relink(l.r, l.parents).nodes, x);
  }

  lemma LinkingKeepsIds(p: Progress)
    ensures SameIds(p.r.nodes, LinkWaiting(p).r.nodes)
  {}

  lemma RelinkingKeepsIds(r: Replica, parents: set<Option<nat>>)
    ensures SameIds(r.nodes, Relink(r, parents).nodes)
  {}

  // ------------------------------------------------------------- agreement

  function ParentId(nodes: seq<Node>, n: Node): Option<Id> {
    if n.parent.Some? && n.parent.value < |nodes| then Some(nodes[n.parent.value].id) else None
  }

  /** Two copies of one node agree, parents compared by id. */
  predicate Agree(a: Replica, m: Node, b: Replica, n: Node) {
    m.id == n.id && m.name == n.name && m.hidden == n.hidden && m.locked == n.locked && m.opacity == n.opacity &&
    m.blend == n.blend && m.transform == n.transform && m.artboard == n.artboard && m.removed == n.removed &&
    KeyOf(a.positions, m.id) == KeyOf(b.positions, n.id) && ParentId(a.nodes, m) == ParentId(b.nodes, n)
  }

  ghost predicate SameNodes(a: Replica, b: Replica) {
    forall id :: HasId(a.nodes, id) <==> HasId(b.nodes, id)
  }

  ghost predicate Converged(a: Replica, b: Replica) {
    SameNodes(a, b) &&
    forall id :: HasId(a.nodes, id) ==>
      Agree(a, a.nodes[Find(a.nodes, id).value], b, b.nodes[Find(b.nodes, id).value])
  }

  /** The invariant, the recorded states and which nodes there are determine the
      copy. */
  lemma SameStatesConverge(base: Base, a: Replica, b: Replica)
    requires ValidBase(base) && Inv(base, a) && Inv(base, b) && a.states == b.states
    ensures Converged(a, b) <==> SameNodes(a, b)
  {
    if SameNodes(a, b) {
      forall id | HasId(a.nodes, id)
        ensures Agree(a, a.nodes[Find(a.nodes, id).value], b, b.nodes[Find(b.nodes, id).value])
      {
        var (i, j) := (Find(a.nodes, id).value, Find(b.nodes, id).value);
        assert a.nodes[i].id == b.nodes[j].id == id;
        assert Settled(base, a, i) && Settled(base, b, j);
        if id in a.states {
          StatedPlace(base, a, i, j, b);
        } else {
          OpenedPlace(base, a, i, j, b);
        }
      }
    }
  }

  lemma StatedPlace(base: Base, a: Replica, i: nat, j: nat, b: Replica)
    requires a.states == b.states && SameNodes(a, b)
    requires i < |a.nodes| && j < |b.nodes| && a.nodes[i].id == b.nodes[j].id && a.nodes[i].id in a.states
    requires Settled(base, a, i) && Settled(base, b, j)
    ensures Agree(a, a.nodes[i], b, b.nodes[j])
  {}

  lemma OpenedPlace(base: Base, a: Replica, i: nat, j: nat, b: Replica)
    requires ValidBase(base) && Inv(base, a) && Inv(base, b)
    requires i < |a.nodes| && j < |b.nodes| && a.nodes[i].id == b.nodes[j].id
    requires a.nodes[i].id !in a.states && b.nodes[j].id !in b.states
    ensures Agree(a, a.nodes[i], b, b.nodes[j])
  {
    assert Settled(base, a, i) && Settled(base, b, j);
    assert base.nodes[i].id == base.nodes[j].id;
    assert i == j;
    if base.nodes[i].parent.Some? {
      var p := base.nodes[i].parent.value;
      assert a.nodes[p].id == base.nodes[p].id == b.nodes[p].id;
    }
  }

  // ------------------------------------------------------------------ runs

  ghost function ApplyAll(r: Replica, batches: seq<seq<Entry>>): Replica
    decreases |batches|
  {
    if batches == [] then r else ApplyAll(Apply(r, batches[0]).r, batches[1..])
  }

  function Flatten(batches: seq<seq<Entry>>): seq<Entry> {
    if batches == [] then [] else batches[0] + Flatten(batches[1..])
  }

  /** A freshly opened document: nothing shared, nothing waiting. */
  ghost predicate Opened(base: Base, r: Replica) {
    r.nodes == base.nodes && r.positions == base.positions && r.states == map[] && r.unlinked == map[]
  }

  lemma OpenedHolds(base: Base, r: Replica)
    requires ValidBase(base) && Opened(base, r)
    ensures Inv(base, r)
  {}

  lemma {:induction false} RunKeeps(base: Base, r: Replica, batches: seq<seq<Entry>>)
    requires Inv(base, r)
    ensures Inv(base, ApplyAll(r, batches))
    ensures ApplyAll(r, batches).states == LastStates(r.states, Flatten(batches))
    decreases |batches|
  {
    if batches != [] {
      var (first, rest) := (batches[0], Flatten(batches[1..]));
      assert forall e :: e in first || e in rest ==> e in first + rest;
      ApplyKeeps(base, r, first);
      RunKeeps(base, Apply(r, first).r, batches[1..]);
      LastStatesConcat(r.states, first, rest);
    }
  }

  /** Some batch brings the node's content. */
  ghost predicate Arrives(batches: seq<seq<Entry>>, id: Id) {
    exists k :: 0 <= k < |batches| && Brings(batches[k], id)
  }

  lemma ArrivesFirstOrLater(batches: seq<seq<Entry>>, id: Id)
    requires batches != []
    ensures Arrives(batches, id) <==> Brings(batches[0], id) || Arrives(batches[1..], id)
  {
    if Arrives(batches, id) {
      var k :| 0 <= k < |batches| && Brings(batches[k], id);
      assert k > 0 ==> batches[1..][k - 1] == batches[k];
    }
    if Arrives(batches[1..], id) {
      var k :| 0 <= k < |batches[1..]| && Brings(batches[1..][k], id);
      assert batches[k + 1] == batches[1..][k];
    }
  }

  lemma {:induction false} RunAdds(base: Base, r: Replica, batches: seq<seq<Entry>>, x: Id)
    requires Inv(base, r)
    ensures HasId(ApplyAll(r, batches).nodes, x) <==> HasId(r.nodes, x) || Arrives(batches, x)
    decreases |batches|
  {
    if batches != [] {
      ApplyKeeps(base, r, batches[0]);
      ApplyAdds(base, r, batches[0], x);
      RunAdds(base, Apply(r, batches[0]).r, batches[1..], x);
      ArrivesFirstOrLater(batches, x);
    }
  }

  /** Every new node arrives at both or at neither. */
  ghost predicate ArriveAlike(base: Base, left: seq<seq<Entry>>, right: seq<seq<Entry>>) {
    forall id :: !HasId(base.nodes, id) ==> (Arrives(left, id) <==> Arrives(right, id))
  }

  /** Order and batching do not matter: whatever two replicas took in, if the
      last state of every node is the same they hold the same document, exactly
      when each new node's content arrives at both or at neither. */
  lemma OrderDoesNotMatter(base: Base, a: Replica, b: Replica, left: seq<seq<Entry>>, right: seq<seq<Entry>>)
    requires ValidBase(base) && Opened(base, a) && Opened(base, b)
    requires LastStates(map[], Flatten(left)) == LastStates(map[], Flatten(right))
    ensures Converged(ApplyAll(a, left), ApplyAll(b, right)) <==> ArriveAlike(base, left, right)
  {
    var (x, y) := (ApplyAll(a, left), ApplyAll(b, right));
    OpenedHolds(base, a);
    OpenedHolds(base, b);
    RunKeeps(base, a, left);
    RunKeeps(base, b, right);
    SameStatesConverge(base, x, y);
    forall id
      ensures HasId(x.nodes, id) <==> HasId(base.nodes, id) || Arrives(left, id)
      ensures HasId(y.nodes, id) <==> HasId(base.nodes, id) || Arrives(right, id)
    {
      RunAdds(base, a, left, id);
      RunAdds(base, b, right, id);
    }
  }

  // ------------------------------------------------- states with content

  predicate Carried(base: Base, id: Id, s: NodeState) {
    HasId(base.nodes, id) || s.kind.Some?
  }

  /** Every state of a node outside the stored document carries its content. */
  ghost predicate CarriesContent(base: Base, batch: seq<Entry>) {
    forall e :: e in batch && IsState(e) ==> Carried(base, e.key.value, e.value.value.state)
  }

  lemma {:induction false} LastStatesCarry(base: Base, known: map<Id, NodeState>, batch: seq<Entry>)
    requires CarriesContent(base, batch) && forall id :: id in known ==> Carried(base, id, known[id])
    ensures var last := LastStates(known, batch); forall id :: id in last ==> Carried(base, id, last[id])
    decreases |batch|
  {
    if batch != [] {
      var e := batch[0];
      assert e in batch;
      var next := if IsState(e) then known[e.key.value := e.value.value.state] else known;
      LastStatesCarry(base, next, batch[1..]);
      assert LastStates(known, batch) == LastStates(next, batch[1..]);
    }
  }

  lemma {:induction false} CarriedNodesArrive(base: Base, batches: seq<seq<Entry>>, id: Id)
    requires CarriesContent(base, Flatten(batches)) && !HasId(base.nodes, id)
    ensures Arrives(batches, id) <==> id in LastStates(map[], Flatten(batches))
    decreases |batches|
  {
    if batches == [] {
      assert !Arrives(batches, id);
      assert LastStates(map[], Flatten(batches)) == map[];
    } else {
      var (first, rest) := (batches[0], Flatten(batches[1..]));
      assert forall e :: e in first || e in rest ==> e in first + rest;
      CarriedNodesArrive(base, batches[1..], id);
      LastStatesCarry(base, map[], first);
      LastStatesConcat(map[], first, rest);
      LastStatesOverlay(LastStates(map[], first), rest);
      ArrivesFirstOrLater(batches, id);
    }
  }

  /** With its content in every state of a new node, the last states alone
      settle the document. */
  lemma ContentMakesBatchingFree(base: Base, a: Replica, b: Replica, left: seq<seq<Entry>>, right: seq<seq<Entry>>)
    requires ValidBase(base) && Opened(base, a) && Opened(base, b)
    requires CarriesContent(base, Flatten(left)) && CarriesContent(base, Flatten(right))
    requires LastStates(map[], Flatten(left)) == LastStates(map[], Flatten(right))
    ensures Converged(ApplyAll(a, left), ApplyAll(b, right))
  {
    OrderDoesNotMatter(base, a, b, left, right);
    forall id | !HasId(base.nodes, id)
      ensures Arrives(left, id) <==> Arrives(right, id)
    {
      CarriedNodesArrive(base, left, id);
      CarriedNodesArrive(base, right, id);
    }
  }
}
