/**
 The stacks of a replica: after a batch a stack is right exactly when one of the
 batch's last states relocates a node into or out of it, or their positions leave
 it in order.
 */
module Stacking {
  import opened Common
  import opened Positions
  import opened Documents
  import opened Replicas
  import opened Convergence

  function StackOf(r: Replica, parent: Option<nat>): seq<nat> {
    match parent
    case None => r.layers
    case Some(i) => if i < |r.nodes| then r.nodes[i].children else []
  }

  ghost predicate IsExact(r: Replica, parent: Option<nat>) {
    IsStack(r.nodes, r.positions, parent, StackOf(r, parent))
  }

  ghost predicate Exact(r: Replica) {
    forall parent: Option<nat> :: (parent.Some? ==> parent.value < |r.nodes|) ==> IsExact(r, parent)
  }

  /** Rebuilding some stacks does not change what the others should be. */
  lemma StackAfterRelinks(nodes: seq<Node>, now: seq<Node>, positions: map<Id, Key>, parent: Option<nat>)
    requires |now| == |nodes| && forall i :: 0 <= i < |nodes| ==> now[i] == nodes[i].(children := now[i].children)
    ensures Stack(now, positions, parent) == Stack(nodes, positions, parent)
  {
    StackDependsOnPlaces(now, nodes, positions, parent);
  }

  // Which nodes are layers is settled by their ids: no entry turns a layer into
  // something else or back, and layers have no parent.

  ghost predicate TypedNodes(layers: set<Id>, nodes: seq<Node>) {
    forall i :: 0 <= i < |nodes| ==> (nodes[i].kind.Layer? <==> nodes[i].id in layers)
  }

  predicate TypedState(layers: set<Id>, id: Id, s: NodeState) {
    (s.kind.Some? ==> (s.kind.value.Layer? <==> id in layers)) && (id in layers ==> s.parent.None?)
  }

  ghost predicate TypedStates(layers: set<Id>, states: map<Id, NodeState>) {
    forall id :: id in states ==> TypedState(layers, id, states[id])
  }

  ghost predicate TypedEntries(layers: set<Id>, batch: seq<Entry>) {
    forall e :: e in batch && IsState(e) ==> TypedState(layers, e.key.value, e.value.value.state)
  }

  lemma {:induction false} TakeInTyped(layers: set<Id>, t: Intake, batch: seq<Entry>)
    requires TypedEntries(layers, batch) && TypedStates(layers, t.states) && TypedStates(layers, t.newest)
    ensures TypedStates(layers, TakeIn(t, batch).states) && TypedStates(layers, TakeIn(t, batch).newest)
    decreases |batch|
  {
    if batch != [] {
      assert batch[0] in batch;
      TakeInTyped(layers, TakeEntry(t, batch[0]), batch[1..]);
    }
  }

  // -------------------------------------------------- following the members

  /** Stacks not waiting to be rebuilt have the members they started with. */
  ghost predicate MembersKept(before: seq<Node>, nodes: seq<Node>, parents: set<Option<nat>>) {
    forall i, parent :: 0 <= i < |nodes| && parent !in parents ==>
      (Member(nodes[i], parent) <==> i < |before| && Member(before[i], parent))
  }

  ghost predicate Following(layers: set<Id>, r0: Replica, p: Progress, todo: set<Id>) {
    && |r0.nodes| <= |p.r.nodes|
    && UniqueIds(p.r.nodes)
    && TypedNodes(layers, p.r.nodes)
    && p.r.layers == r0.layers
    && MembersKept(r0.nodes, p.r.nodes, p.parents)
    && ChildrenKept(r0.nodes, p.r.nodes)
    && Untouched(r0.nodes, p.r.nodes, todo)
  }

  lemma MergeFollows(layers: set<Id>, r0: Replica, p: Progress, id: Id, s: NodeState, todo: set<Id>)
    requires Following(layers, r0, p, todo) && id in todo && TypedState(layers, id, s)
    requires HasId(p.r.nodes, id) || s.kind.Some?
    ensures Following(layers, r0, Merge(p, id, s), todo - {id})
  {
    MergeKeepsOthers(p, id, s);
    MergedTyped(layers, p, id, s);
    MergedChildren(r0.nodes, p, id, s);
    MergedUntouched(r0.nodes, p, Merge(p, id, s).r, id, todo);
    MergedMembers(layers, r0, p, id, s, todo);
  }

  lemma MergedMembers(layers: set<Id>, r0: Replica, p: Progress, id: Id, s: NodeState, todo: set<Id>)
    requires Following(layers, r0, p, todo) && id in todo && TypedState(layers, id, s)
    requires HasId(p.r.nodes, id) || s.kind.Some?
    ensures MembersKept(r0.nodes, Merge(p, id, s).r.nodes, Merge(p, id, s).parents)
  {
    var q := Merge(p, id, s);
    var k := Find(WithNode(p.r.nodes, id, s), id).value;
    WithNodeFinds(p.r.nodes, id, s);
    forall i, parent | 0 <= i < |q.r.nodes| && parent !in q.parents
      ensures Member(q.r.nodes[i], parent) <==> i < |r0.nodes| && Member(r0.nodes[i], parent)
    {
      if i == k {
        MergedMember(r0, p, id, s, parent);
      } else {
        assert q.r.nodes[i] == p.r.nodes[i];
      }
    }
  }

  lemma MergedTyped(layers: set<Id>, p: Progress, id: Id, s: NodeState)
    requires TypedNodes(layers, p.r.nodes) && UniqueIds(p.r.nodes) && TypedState(layers, id, s)
    requires HasId(p.r.nodes, id) || s.kind.Some?
    ensures TypedNodes(layers, Merge(p, id, s).r.nodes)
  {
    WithNodeFinds(p.r.nodes, id, s);
  }

  ghost predicate ChildrenKept(before: seq<Node>, nodes: seq<Node>) {
    forall i :: 0 <= i < |nodes| ==> nodes[i].children == if i < |before| then before[i].children else []
  }

  lemma MergedChildren(before: seq<Node>, p: Progress, id: Id, s: NodeState)
    requires ChildrenKept(before, p.r.nodes) && |before| <= |p.r.nodes| && UniqueIds(p.r.nodes)
    requires HasId(p.r.nodes, id) || s.kind.Some?
    ensures ChildrenKept(before, Merge(p, id, s).r.nodes)
  {
    WithNodeFinds(p.r.nodes, id, s);
  }

  ghost predicate Untouched(before: seq<Node>, nodes: seq<Node>, todo: set<Id>) {
    forall i :: 0 <= i < |nodes| && nodes[i].id in todo ==> i < |before| && nodes[i] == before[i]
  }

  lemma MergedUntouched(before: seq<Node>, p: Progress, q: Replica, id: Id, todo: set<Id>)
    requires Untouched(before, p.r.nodes, todo) && OthersStay(p.r, q, id)
    ensures Untouched(before, q.nodes, todo - {id})
  {}

  lemma MergedMember(r0: Replica, p: Progress, id: Id, s: NodeState, parent: Option<nat>)
    requires HasId(p.r.nodes, id) || s.kind.Some?
    requires UniqueIds(p.r.nodes)
    requires var w := WithNode(p.r.nodes, id, s);
             var k := Find(w, id).value;
             && parent !in Merge(p, id, s).parents
             && |r0.nodes| <= |p.r.nodes|
             && (k < |p.r.nodes| ==> k < |r0.nodes| && w[k] == r0.nodes[k])
             && (s.kind.Some? ==> (s.kind.value.Layer? <==> w[k].kind.Layer?))
    ensures var k := Find(WithNode(p.r.nodes, id, s), id).value;
            Member(Merge(p, id, s).r.nodes[k], parent) <==> k < |r0.nodes| && Member(r0.nodes[k], parent)
  {
    WithNodeFinds(p.r.nodes, id, s);
  }

  lemma {:induction false} MergeAllFollows(layers: set<Id>, r0: Replica, p: Progress, todo: set<Id>, newest: map<Id, NodeState>)
    requires Following(layers, r0, p, todo) && todo <= newest.Keys && TypedStates(layers, newest)
    ensures Following(layers, r0, MergeAll(p, todo, newest), {})
    decreases |todo|
  {
    if todo == {} {
    } else {
      var id := Least(todo);
      if HasId(p.r.nodes, id) || newest[id].kind.Some? {
        MergeFollows(layers, r0, p, id, newest[id], todo);
      }
      MergeAllFollows(layers, r0, Merge(p, id, newest[id]), todo - {id}, newest);
    }
  }

  /** Nodes that wait have a parent to wait for, so they are not layers. */
  lemma LinkFollows(base: Base, layers: set<Id>, r0: Replica, p: Progress)
    requires Following(layers, r0, p, {}) && Merging(base, p.r, {}) && TypedStates(layers, p.r.states)
    ensures Following(layers, r0, LinkWaiting(p), {})
  {
    LinkedMembers(base, layers, r0, p);
    LinkedShape(layers, r0, p);
  }

  lemma LinkedShape(layers: set<Id>, r0: Replica, p: Progress)
    requires UniqueIds(p.r.nodes) && TypedNodes(layers, p.r.nodes) && ChildrenKept(r0.nodes, p.r.nodes)
    ensures var q := LinkWaiting(p).r; UniqueIds(q.nodes) && TypedNodes(layers, q.nodes) && ChildrenKept(r0.nodes, q.nodes)
  {}

  lemma LinkedMembers(base: Base, layers: set<Id>, r0: Replica, p: Progress)
    requires MembersKept(r0.nodes, p.r.nodes, p.parents) && TypedNodes(layers, p.r.nodes) && TypedStates(layers, p.r.states)
    requires Merging(base, p.r, {})
    ensures MembersKept(r0.nodes, LinkWaiting(p).r.nodes, LinkWaiting(p).parents)
  {
    var q := LinkWaiting(p);
    forall i, parent | 0 <= i < |q.r.nodes| && parent !in q.parents
      ensures Member(q.r.nodes[i], parent) <==> i < |r0.nodes| && Member(r0.nodes[i], parent)
    {
      assert SettledOrWaits(base, p.r, i);
      assert p.r.nodes[i].id in p.r.states ==> TypedState(layers, p.r.nodes[i].id, p.r.states[p.r.nodes[i].id]);
      LinkedMember(base, p, i, parent);
    }
  }

  lemma LinkedMember(base: Base, p: Progress, i: nat, parent: Option<nat>)
    requires i < |p.r.nodes| && parent !in LinkWaiting(p).parents && SettledOrWaits(base, p.r, i)
    requires var n := p.r.nodes[i]; n.id in p.r.states && p.r.states[n.id].parent.Some? ==> !n.kind.Layer?
    ensures Member(LinkWaiting(p).r.nodes[i], parent) <==> Member(p.r.nodes[i], parent)
  {
    var n := p.r.nodes[i];
    if Linkable(p.r.nodes, p.r.unlinked, n.id) {
      assert n.parent.None? && !n.kind.Layer?;
      assert Find(p.r.nodes, p.r.unlinked[n.id]) in LinkWaiting(p).parents;
    }
  }

  lemma ApplyFollows(base: Base, layers: set<Id>, r: Replica, batch: seq<Entry>)
    requires Inv(base, r)
    requires TypedNodes(layers, r.nodes) && TypedStates(layers, r.states) && TypedEntries(layers, batch)
    ensures Following(layers, r, LinkWaiting(Merged(r, batch)), {})
    ensures TypedStates(layers, LinkWaiting(Merged(r, batch)).r.states)
  {
    var t0 := Intake(r.states, map[]);
    var t := TakeIn(t0, batch);
    TakeInTyped(layers, t0, batch);
    TakeInKeepsLast(t0, batch);
    var p := Progress(r.(states := t.states), {}, [], false);
    MergeAllFollows(layers, r, p, t.newest.Keys, t.newest);
    MergedKeeps(base, r, batch);
    LinkFollows(base, layers, r, Merged(r, batch));
  }

  // ----------------------------------------------------------- the stacks

  lemma ParentsStayInArena(base: Base, r: Replica)
    requires ValidBase(base) && Inv(base, r)
    ensures ParentsInArena(r.nodes)
  {
    forall i | 0 <= i < |r.nodes| && r.nodes[i].parent.Some?
      ensures r.nodes[i].parent.value < |r.nodes|
    {
      assert Settled(base, r, i);
    }
  }

  lemma UntouchedStack(layers: set<Id>, r: Replica, l: Progress, parent: Option<nat>)
    requires Following(layers, r, l, {}) && Exact(r) && ParentsInArena(r.nodes) && parent !in l.parents
    requires parent.Some? ==> parent.value < |l.r.nodes|
    ensures var q := Relink(l.r, l.parents);
            && StackOf(q, parent) == StackOf(r, parent)
            && (IsExact(q, parent) <==> Sorted(q.nodes, q.positions, StackOf(r, parent)))
  {
    var q := Relink(l.r, l.parents);
    var stack := StackOf(r, parent);
    assert StackOf(q, parent) == stack;
    forall i: nat
      ensures i in stack <==> i < |q.nodes| && Member(q.nodes[i], parent)
    {
      ListedMember(r, parent, i);
      UntouchedMember(layers, r, l, parent, i);
    }
  }

  /** What is not yet in the arena lists nobody and is nobody's parent. */
  lemma ListedMember(r: Replica, parent: Option<nat>, i: nat)
    requires Exact(r) && ParentsInArena(r.nodes)
    ensures i in StackOf(r, parent) <==> i < |r.nodes| && Member(r.nodes[i], parent)
  {
    if parent.None? || parent.value < |r.nodes| {
      assert IsExact(r, parent);
    }
  }

  lemma UntouchedMember(layers: set<Id>, r: Replica, l: Progress, parent: Option<nat>, i: nat)
    requires Following(layers, r, l, {}) && parent !in l.parents
    ensures var q := Relink(l.r, l.parents);
            i < |q.nodes| && Member(q.nodes[i], parent) <==> i < |r.nodes| && Member(r.nodes[i], parent)
  {
    RelinkedMember(l.r, l.parents, parent, i);
  }

  lemma RelinkedMember(r: Replica, parents: set<Option<nat>>, parent: Option<nat>, i: nat)
    ensures var q := Relink(r, parents);
            |q.nodes| == |r.nodes| && (i < |r.nodes| ==> (Member(q.nodes[i], parent) <==> Member(r.nodes[i], parent)))
  {}

  // ------------------------------------------------- which stacks are rebuilt

  /** Whether merging a state re-parents, removes, restores or adds its node. */
  predicate Relocates(r: Replica, id: Id, s: NodeState) {
    var i := Find(r.nodes, id);
    i.None? || !r.nodes[i.value].removed == s.removed || r.nodes[i.value].parent != ParentOf(r.nodes, s.parent)
  }

  /** Whether merging a state relocates its node out of or into a stack. */
  predicate Involves(r: Replica, id: Id, s: NodeState, parent: Option<nat>) {
    var i := Find(r.nodes, id);
    && (i.Some? || s.kind.Some?)
    && Relocates(r, id, s)
    && (parent == ParentOf(r.nodes, s.parent) || parent == if i.Some? then r.nodes[i.value].parent else None)
  }

  predicate InReplica(r: Replica, parent: Option<nat>) {
    parent.Some? ==> parent.value < |r.nodes|
  }

  /** A merge under way: the nodes of before are where they were, those still to
      merge as they were, and a new node has had the layers rebuilt. */
  ghost predicate Gathering(r0: Replica, p: Progress, todo: set<Id>) {
    && UniqueIds(r0.nodes) && UniqueIds(p.r.nodes) && ParentsInArena(r0.nodes)
    && |r0.nodes| <= |p.r.nodes|
    && (forall i :: 0 <= i < |r0.nodes| ==> p.r.nodes[i].id == r0.nodes[i].id)
    && Untouched(r0.nodes, p.r.nodes, todo)
    && (|r0.nodes| < |p.r.nodes| ==> None in p.parents)
    && WaitsForNew(r0, p.r)
  }

  /** Whoever waits does not wait for a node of before. */
  ghost predicate WaitsForNew(r0: Replica, r: Replica) {
    forall id :: id in r.unlinked && HasId(r.nodes, id) ==> !HasId(r0.nodes, r.unlinked[id])
  }

  /** A node of before is found where it was, and any other further up. */
  lemma FoundBefore(r0: Replica, p: Progress, todo: set<Id>, x: Id)
    requires Gathering(r0, p, todo)
    ensures if HasId(r0.nodes, x) then Find(p.r.nodes, x) == Find(r0.nodes, x)
            else Find(p.r.nodes, x).Some? ==> Find(p.r.nodes, x).value >= |r0.nodes|
  {
    if HasId(r0.nodes, x) {
      FindIsUnique(p.r.nodes, Find(r0.nodes, x).value);
    }
  }

  lemma ParentBefore(r0: Replica, p: Progress, todo: set<Id>, id: Id, s: NodeState)
    requires Gathering(r0, p, todo) && (HasId(p.r.nodes, id) || s.kind.Some?)
    ensures var now := ParentOf(WithNode(p.r.nodes, id, s), s.parent);
            var was := ParentOf(r0.nodes, s.parent);
            now == was || (was.None? && now.Some? && now.value >= |r0.nodes|)
  {
    WithNodeFinds(p.r.nodes, id, s);
    if s.parent.Some? { FoundBefore(r0, p, todo, s.parent.value); }
  }

  /** Merging a state has a stack of before rebuilt exactly if it relocates its
      node out of or into it, unless a new node has the layers rebuilt anyway. */
  lemma MergeRebuilds(r0: Replica, p: Progress, id: Id, s: NodeState, todo: set<Id>, parent: Option<nat>)
    requires Gathering(r0, p, todo) && id in todo && InReplica(r0, parent)
    requires HasId(p.r.nodes, id) || s.kind.Some?
    ensures parent in Merge(p, id, s).parents <==> parent in p.parents || Involves(r0, id, s, parent)
  {
    FoundBefore(r0, p, todo, id);
    ParentBefore(r0, p, todo, id, s);
    WithNodeFinds(p.r.nodes, id, s);
    var w := WithNode(p.r.nodes, id, s);
    var now := ParentOf(w, s.parent);
    var i := Find(p.r.nodes, id);
    if i.Some? {
      assert p.r.nodes[i.value] == r0.nodes[i.value];
      OldNodeRebuilds(p, id, s, parent);
    } else {
      NewNodeRebuilds(p, id, s, parent);
    }
    if now.Some? && now.value >= |r0.nodes| && i.Some? {
      assert s.parent.value != id;
      assert HasId(p.r.nodes, s.parent.value);
    }
  }

  lemma OldNodeRebuilds(p: Progress, id: Id, s: NodeState, parent: Option<nat>)
    requires HasId(p.r.nodes, id)
    ensures var n := p.r.nodes[Find(p.r.nodes, id).value];
            var now := ParentOf(p.r.nodes, s.parent);
            parent in Merge(p, id, s).parents <==>
              parent in p.parents || ((n.parent != now || !n.removed == s.removed) && (parent == n.parent || parent == now))
  {}

  lemma NewNodeRebuilds(p: Progress, id: Id, s: NodeState, parent: Option<nat>)
    requires !HasId(p.r.nodes, id) && s.kind.Some?
    ensures var now := ParentOf(WithNode(p.r.nodes, id, s), s.parent);
            parent in Merge(p, id, s).parents <==> parent in p.parents || parent == None || parent == now
  {
    var w := WithNode(p.r.nodes, id, s);
    FindAfterPush(p.r.nodes, NewNode(id, s.kind.value).(removed := true), id);
    assert w[Find(w, id).value].parent == None;
  }

  lemma MergeGathers(r0: Replica, p: Progress, id: Id, s: NodeState, todo: set<Id>)
    requires Gathering(r0, p, todo) && id in todo
    requires HasId(p.r.nodes, id) || s.kind.Some?
    ensures Gathering(r0, Merge(p, id, s), todo - {id})
  {
    var q := Merge(p, id, s);
    MergeKeepsOthers(p, id, s);
    MergedUntouched(r0.nodes, p, q.r, id, todo);
    MergedWaits(r0, p, id, s, todo);
    if !HasId(p.r.nodes, id) { NewNodeRebuilds(p, id, s, None); }
  }

  lemma MergedWaits(r0: Replica, p: Progress, id: Id, s: NodeState, todo: set<Id>)
    requires Gathering(r0, p, todo) && (HasId(p.r.nodes, id) || s.kind.Some?)
    ensures WaitsForNew(r0, Merge(p, id, s).r)
  {
    var q := Merge(p, id, s).r;
    MergeKeepsOthers(p, id, s);
    ParentBefore(r0, p, todo, id, s);
    forall x | x in q.unlinked && HasId(q.nodes, x)
      ensures !HasId(r0.nodes, q.unlinked[x])
    {
      if x != id { assert q.unlinked[x] == p.r.unlinked[x]; }
    }
  }

  ghost predicate AnyInvolves(r: Replica, todo: set<Id>, newest: map<Id, NodeState>, parent: Option<nat>)
    requires todo <= newest.Keys
  {
    exists id :: id in todo && Involves(r, id, newest[id], parent)
  }

  lemma {:induction false} MergeAllRebuilds(r0: Replica, p: Progress, todo: set<Id>, newest: map<Id, NodeState>, parent: Option<nat>)
    requires Gathering(r0, p, todo) && todo <= newest.Keys && InReplica(r0, parent)
    ensures var m := MergeAll(p, todo, newest);
            && WaitsForNew(r0, m.r) && |r0.nodes| <= |m.r.nodes|
            && (forall i :: 0 <= i < |r0.nodes| ==> m.r.nodes[i].id == r0.nodes[i].id)
            && (parent in m.parents <==> parent in p.parents || AnyInvolves(r0, todo, newest, parent))
    decreases |todo|
  {
    if todo != {} {
      var id := Least(todo);
      if HasId(p.r.nodes, id) || newest[id].kind.Some? {
        MergeRebuilds(r0, p, id, newest[id], todo, parent);
        MergeGathers(r0, p, id, newest[id], todo);
      } else {
        FoundBefore(r0, p, todo, id);
      }
      MergeAllRebuilds(r0, Merge(p, id, newest[id]), todo - {id}, newest, parent);
      assert AnyInvolves(r0, todo, newest, parent) <==>
             Involves(r0, id, newest[id], parent) || AnyInvolves(r0, todo - {id}, newest, parent);
    }
  }

  /** Nobody who waits is linked to a node that was there before. */
  lemma LinkingRebuildsNew(r0: Replica, p: Progress, parent: Option<nat>)
    requires WaitsForNew(r0, p.r) && |r0.nodes| <= |p.r.nodes| && InReplica(r0, parent)
    requires forall i :: 0 <= i < |r0.nodes| ==> p.r.nodes[i].id == r0.nodes[i].id
    ensures parent in LinkWaiting(p).parents <==> parent in p.parents
  {
    forall id | id in LinkableIds(p.r.nodes, p.r.unlinked)
      ensures Find(p.r.nodes, p.r.unlinked[id]) != parent
    {
      assert HasId(p.r.nodes, id) && !HasId(r0.nodes, p.r.unlinked[id]);
      assert forall i :: 0 <= i < |r0.nodes| ==> r0.nodes[i].id != p.r.unlinked[id];
    }
  }

  lemma SettledWaitForMissing(base: Base, r: Replica)
    requires Inv(base, r)
    ensures WaitsForNew(r, r)
  {
    forall id | id in r.unlinked && HasId(r.nodes, id)
      ensures !HasId(r.nodes, r.unlinked[id])
    {
      assert Settled(base, r, Find(r.nodes, id).value);
    }
  }

  /** Some last state of the batch relocates a node out of or into the stack. */
  ghost predicate Relocated(r: Replica, last: map<Id, NodeState>, parent: Option<nat>) {
    AnyInvolves(r, last.Keys, last, parent)
  }

  /** A state that only repeats what is recorded relocates nothing. */
  lemma RecordedStateStays(base: Base, r: Replica, id: Id, parent: Option<nat>)
    requires Inv(base, r) && id in r.states
    ensures !Involves(r, id, r.states[id], parent)
    ensures HasId(r.nodes, id) ==> r.states[id].position == KeyOf(r.positions, id)
  {
    if HasId(r.nodes, id) {
      assert Settled(base, r, Find(r.nodes, id).value);
    }
  }

  lemma RelocatedByNewest(base: Base, r: Replica, batch: seq<Entry>, parent: Option<nat>)
    requires Inv(base, r)
    ensures var newest := TakeIn(Intake(r.states, map[]), batch).newest;
            AnyInvolves(r, newest.Keys, newest, parent) <==> Relocated(r, LastStates(map[], batch), parent)
  {
    var (newest, last) := (TakeIn(Intake(r.states, map[]), batch).newest, LastStates(map[], batch));
    NewestAreLast(r.states, batch);
    if Relocated(r, last, parent) {
      var id :| id in last.Keys && Involves(r, id, last[id], parent);
      if id !in newest { RecordedStateStays(base, r, id, parent); }
    }
  }

  /** A batch rebuilds, of the stacks there were, exactly those its last states
      relocate a node out of or into. */
  lemma RebuiltStacks(base: Base, r: Replica, batch: seq<Entry>, parent: Option<nat>)
    requires ValidBase(base) && Inv(base, r) && InReplica(r, parent)
    ensures parent in Apply(r, batch).parents <==> Relocated(r, LastStates(map[], batch), parent)
    ensures |r.nodes| <= |Merged(r, batch).r.nodes|
    ensures forall i :: 0 <= i < |r.nodes| ==> Merged(r, batch).r.nodes[i].id == r.nodes[i].id
  {
    var t := TakeIn(Intake(r.states, map[]), batch);
    var p := Progress(r.(states := t.states), {}, [], false);
    ParentsStayInArena(base, r);
    SettledWaitForMissing(base, r);
    MergeAllRebuilds(r, p, t.newest.Keys, t.newest, parent);
    LinkingRebuildsNew(r, Merged(r, batch), parent);
    RelocatedByNewest(base, r, batch, parent);
  }

  // ------------------------------------------------------------ the new keys

  /** The positions with those of some states written over them. */
  function Overlaid(positions: map<Id, Key>, last: map<Id, NodeState>): map<Id, Key> {
    positions + map id | id in last :: last[id].position
  }

  lemma {:induction false} MergeAllKeys(p: Progress, todo: set<Id>, newest: map<Id, NodeState>, x: Id)
    requires UniqueIds(p.r.nodes) && todo <= newest.Keys && HasId(p.r.nodes, x)
    ensures KeyOf(MergeAll(p, todo, newest).r.positions, x) == if x in todo then newest[x].position else KeyOf(p.r.positions, x)
    decreases |todo|
  {
    if todo != {} {
      var id := Least(todo);
      if HasId(p.r.nodes, id) || newest[id].kind.Some? { MergeKeepsOthers(p, id, newest[id]); }
      MergeAllKeys(Merge(p, id, newest[id]), todo - {id}, newest, x);
    }
  }

  lemma NewestKeys(base: Base, r: Replica, batch: seq<Entry>, x: Id)
    requires Inv(base, r) && HasId(r.nodes, x)
    ensures var newest := TakeIn(Intake(r.states, map[]), batch).newest;
            KeyOf(Overlaid(r.positions, LastStates(map[], batch)), x) == if x in newest then newest[x].position else KeyOf(r.positions, x)
  {
    NewestAreLast(r.states, batch);
    if x in r.states { RecordedStateStays(base, r, x, None); }
  }

  lemma KeysAfterApply(base: Base, r: Replica, batch: seq<Entry>, x: Id)
    requires Inv(base, r) && HasId(r.nodes, x)
    ensures KeyOf(Apply(r, batch).r.positions, x) == KeyOf(Overlaid(r.positions, LastStates(map[], batch)), x)
  {
    var t := TakeIn(Intake(r.states, map[]), batch);
    var p := Progress(r.(states := t.states), {}, [], false);
    NewestKeys(base, r, batch, x);
    MergeAllKeys(p, t.newest.Keys, t.newest, x);
    assert Merged(r, batch) == MergeAll(p, t.newest.Keys, t.newest);
    assert Apply(r, batch).r.positions == Merged(r, batch).r.positions;
  }

  lemma SameKeysSorted(a: seq<Node>, pa: map<Id, Key>, b: seq<Node>, pb: map<Id, Key>, stack: seq<nat>)
    requires InArena(a, stack) && |a| <= |b| && forall i :: 0 <= i < |a| ==> a[i].id == b[i].id && KeyOf(pa, a[i].id) == KeyOf(pb, a[i].id)
    ensures Sorted(a, pa, stack) <==> Sorted(b, pb, stack)
  {
    forall x, y | 0 <= x < y < |stack|
      ensures Before(a, pa, stack[x], stack[y]) <==> Before(b, pb, stack[x], stack[y])
    {}
  }

  lemma SortedAfterApply(base: Base, r: Replica, batch: seq<Entry>, parent: Option<nat>)
    requires ValidBase(base) && Inv(base, r) && Exact(r) && InReplica(r, parent)
    ensures var q := Apply(r, batch).r;
            Sorted(q.nodes, q.positions, StackOf(r, parent)) <==>
              Sorted(r.nodes, Overlaid(r.positions, LastStates(map[], batch)), StackOf(r, parent))
  {
    var (m, q) := (Merged(r, batch), Apply(r, batch).r);
    assert IsExact(r, parent);
    RebuiltStacks(base, r, batch, parent);
    FinishingKeepsPlaces(m);
    forall i | 0 <= i < |r.nodes|
      ensures r.nodes[i].id == q.nodes[i].id
      ensures KeyOf(Overlaid(r.positions, LastStates(map[], batch)), r.nodes[i].id) == KeyOf(q.positions, r.nodes[i].id)
    {
      assert Find(r.nodes, r.nodes[i].id).Some?;
      KeysAfterApply(base, r, batch, r.nodes[i].id);
    }
    SameKeysSorted(r.nodes, Overlaid(r.positions, LastStates(map[], batch)), q.nodes, q.positions, StackOf(r, parent));
  }

  lemma FinishingKeepsPlaces(p: Progress)
    ensures var l := LinkWaiting(p);
            var q := Relink(l.r, l.parents);
            |q.nodes| == |p.r.nodes| && forall i :: 0 <= i < |q.nodes| ==> q.nodes[i].id == p.r.nodes[i].id
  {
    var l := LinkWaiting(p);
    LinkingKeepsIds(p);
    RelinkingKeepsIds(l.r, l.parents);
  }

  // --------------------------------------------------------- after a batch

  lemma RebuiltOrKept(base: Base, layers: set<Id>, r: Replica, batch: seq<Entry>, parent: Option<nat>)
    requires ValidBase(base) && Inv(base, r) && Exact(r)
    requires TypedNodes(layers, r.nodes) && TypedStates(layers, r.states) && TypedEntries(layers, batch)
    requires parent.Some? ==> parent.value < |Apply(r, batch).r.nodes|
    ensures var p := Apply(r, batch);
            IsExact(p.r, parent) <==> parent in p.parents || Sorted(p.r.nodes, p.r.positions, StackOf(r, parent))
  {
    ApplyFollows(base, layers, r, batch);
    var l := LinkWaiting(Merged(r, batch));
    var q := Apply(r, batch).r;
    assert SamePlaces(l.r.nodes, q.nodes);
    if parent in l.parents {
      StackDependsOnPlaces(l.r.nodes, q.nodes, q.positions, parent);
      StackIsStack(q.nodes, q.positions, parent);
    } else {
      ParentsStayInArena(base, r);
      UntouchedStack(layers, r, l, parent);
    }
  }

  /** After a batch a stack is right exactly when a last state of the batch
      relocates a node out of or into it, or their positions leave it in order. */
  lemma StacksAfterApply(base: Base, layers: set<Id>, r: Replica, batch: seq<Entry>, parent: Option<nat>)
    requires ValidBase(base) && Inv(base, r) && Exact(r) && InReplica(r, parent)
    requires TypedNodes(layers, r.nodes) && TypedStates(layers, r.states) && TypedEntries(layers, batch)
    ensures var last := LastStates(map[], batch);
            IsExact(Apply(r, batch).r, parent) <==>
              Relocated(r, last, parent) || Sorted(r.nodes, Overlaid(r.positions, last), StackOf(r, parent))
  {
    RebuiltStacks(base, r, batch, parent);
    FinishingKeepsPlaces(Merged(r, batch));
    RebuiltOrKept(base, layers, r, batch, parent);
    SortedAfterApply(base, r, batch, parent);
  }

  /** The stack of a node that was added is always right. */
  lemma NewStacksAreExact(base: Base, layers: set<Id>, r: Replica, batch: seq<Entry>, i: nat)
    requires ValidBase(base) && Inv(base, r) && Exact(r) && |r.nodes| <= i < |Apply(r, batch).r.nodes|
    requires TypedNodes(layers, r.nodes) && TypedStates(layers, r.states) && TypedEntries(layers, batch)
    ensures IsExact(Apply(r, batch).r, Some(i))
  {
    RebuiltOrKept(base, layers, r, batch, Some(i));
  }

  /** The last states relocate a node out of or into every stack their positions
      put out of order. */
  ghost predicate StaysOrdered(r: Replica, last: map<Id, NodeState>) {
    forall parent: Option<nat> :: InReplica(r, parent) ==>
      Relocated(r, last, parent) || Sorted(r.nodes, Overlaid(r.positions, last), StackOf(r, parent))
  }

  /** Every stack stays right exactly when that holds of the batch. */
  lemma StacksStayExact(base: Base, layers: set<Id>, r: Replica, batch: seq<Entry>)
    requires ValidBase(base) && Inv(base, r) && Exact(r)
    requires TypedNodes(layers, r.nodes) && TypedStates(layers, r.states) && TypedEntries(layers, batch)
    ensures Exact(Apply(r, batch).r) <==> StaysOrdered(r, LastStates(map[], batch))
    ensures TypedNodes(layers, Apply(r, batch).r.nodes) && TypedStates(layers, Apply(r, batch).r.states)
  {
    var (q, last) := (Apply(r, batch).r, LastStates(map[], batch));
    ApplyFollows(base, layers, r, batch);
    RebuiltStacks(base, r, batch, None);
    FinishingKeepsPlaces(Merged(r, batch));
    forall parent: Option<nat> | InReplica(r, parent)
      ensures IsExact(q, parent) <==> Relocated(r, last, parent) || Sorted(r.nodes, Overlaid(r.positions, last), StackOf(r, parent))
    {
      StacksAfterApply(base, layers, r, batch, parent);
    }
    forall parent: Option<nat> | parent.Some? && |r.nodes| <= parent.value < |q.nodes|
      ensures IsExact(q, parent)
    {
      NewStacksAreExact(base, layers, r, batch, parent.value);
    }
  }

  // ------------------------------------------------ entries that relocate

  /** Every last state relocates its node or leaves its position. */
  ghost predicate KeepsOrder(r: Replica, last: map<Id, NodeState>) {
    forall id :: id in last ==> Relocates(r, id, last[id]) || last[id].position == KeyOf(r.positions, id)
  }

  /** Such entries leave every stack right. */
  lemma RelocatingKeepsOrder(r: Replica, last: map<Id, NodeState>)
    requires Exact(r) && UniqueIds(r.nodes) && KeepsOrder(r, last)
    ensures StaysOrdered(r, last)
  {
    forall parent: Option<nat> | InReplica(r, parent) && !Relocated(r, last, parent)
      ensures Sorted(r.nodes, Overlaid(r.positions, last), StackOf(r, parent))
    {
      assert IsExact(r, parent);
      UnmovedKeepsOrder(r, last, parent, StackOf(r, parent));
    }
  }

  lemma UnmovedKeepsOrder(r: Replica, last: map<Id, NodeState>, parent: Option<nat>, stack: seq<nat>)
    requires UniqueIds(r.nodes) && KeepsOrder(r, last) && !Relocated(r, last, parent)
    requires Sorted(r.nodes, r.positions, stack) && forall i :: i in stack ==> Member(r.nodes[i], parent)
    ensures Sorted(r.nodes, Overlaid(r.positions, last), stack)
  {
    forall k | 0 <= k < |stack|
      ensures KeyOf(Overlaid(r.positions, last), r.nodes[stack[k]].id) == KeyOf(r.positions, r.nodes[stack[k]].id)
    {
      assert stack[k] in stack;
      UnmovedKeepsKey(r, last, parent, stack[k]);
    }
    assert forall x, y :: 0 <= x < y < |stack| ==> Before(r.nodes, r.positions, stack[x], stack[y]);
  }

  lemma UnmovedKeepsKey(r: Replica, last: map<Id, NodeState>, parent: Option<nat>, i: nat)
    requires UniqueIds(r.nodes) && KeepsOrder(r, last) && !Relocated(r, last, parent)
    requires i < |r.nodes| && Member(r.nodes[i], parent)
    ensures KeyOf(Overlaid(r.positions, last), r.nodes[i].id) == KeyOf(r.positions, r.nodes[i].id)
  {
    var id := r.nodes[i].id;
    FindIsUnique(r.nodes, i);
    if id in last {
      assert id in last.Keys && !Involves(r, id, last[id], parent);
    }
  }

  // ------------------------------------------------------ stacks converge

  /** The ids of a parent's stack, bottom to top. */
  ghost function StackIds(r: Replica, parent: Option<Id>): seq<Id>
    requires Exact(r) && (parent.Some? ==> HasId(r.nodes, parent.value))
  {
    var q := ParentOf(r.nodes, parent);
    assert IsExact(r, q);
    IdsAt(r.nodes, StackOf(r, q))
  }

  lemma StackIdsMember(r: Replica, parent: Option<Id>, id: Id)
    requires Exact(r) && UniqueIds(r.nodes) && ParentsInArena(r.nodes) && (parent.Some? ==> HasId(r.nodes, parent.value))
    ensures id in StackIds(r, parent) <==>
            HasId(r.nodes, id) &&
            var n := r.nodes[Find(r.nodes, id).value];
            ParentId(r.nodes, n) == parent && !n.removed && (parent.Some? || n.kind.Layer?)
  {
    var q := ParentOf(r.nodes, parent);
    assert IsExact(r, q);
    var stack := StackOf(r, q);
    if id in StackIds(r, parent) {
      var k :| 0 <= k < |stack| && IdsAt(r.nodes, stack)[k] == id;
      assert stack[k] in stack;
      FindIsUnique(r.nodes, stack[k]);
    }
    if HasId(r.nodes, id) {
      var i := Find(r.nodes, id).value;
      var n := r.nodes[i];
      if n.parent.Some? { FindIsUnique(r.nodes, n.parent.value); }
      assert ParentId(r.nodes, n) == parent <==> n.parent == q;
      if Member(n, q) {
        assert i in stack;
        var k :| 0 <= k < |stack| && stack[k] == i;
        assert IdsAt(r.nodes, stack)[k] == id;
      }
    }
  }

  /** Converged replicas with right stacks list every stack alike. */
  lemma StacksConverge(layers: set<Id>, a: Replica, b: Replica, parent: Option<Id>)
    requires Converged(a, b) && Exact(a) && Exact(b) && UniqueIds(a.nodes) && UniqueIds(b.nodes)
    requires ParentsInArena(a.nodes) && ParentsInArena(b.nodes)
    requires TypedNodes(layers, a.nodes) && TypedNodes(layers, b.nodes)
    requires parent.Some? ==> HasId(a.nodes, parent.value)
    ensures parent.Some? ==> HasId(b.nodes, parent.value)
    ensures StackIds(a, parent) == StackIds(b, parent)
  {
    SameStackIds(layers, a, b, parent);
    var (p, q) := (ParentOf(a.nodes, parent), ParentOf(b.nodes, parent));
    assert IsExact(a, p) && IsExact(b, q);
    SameStackOrder(a, p, StackIds(a, parent), b, q, StackIds(b, parent));
  }

  lemma SameStackOrder(a: Replica, p: Option<nat>, x: seq<Id>, b: Replica, q: Option<nat>, y: seq<Id>)
    requires UniqueIds(a.nodes) && UniqueIds(b.nodes) && IsExact(a, p) && IsExact(b, q)
    requires x == IdsAt(a.nodes, StackOf(a, p)) && y == IdsAt(b.nodes, StackOf(b, q))
    requires forall id: Id :: id in x <==> id in y
    requires forall id: Id :: id in x ==> KeyOf(a.positions, id) == KeyOf(b.positions, id)
    ensures x == y
  {
    SameIdOrder(a.nodes, a.positions, StackOf(a, p), b.nodes, b.positions, StackOf(b, q));
  }

  lemma SameStackIds(layers: set<Id>, a: Replica, b: Replica, parent: Option<Id>)
    requires Converged(a, b) && Exact(a) && Exact(b) && UniqueIds(a.nodes) && UniqueIds(b.nodes)
    requires ParentsInArena(a.nodes) && ParentsInArena(b.nodes)
    requires TypedNodes(layers, a.nodes) && TypedNodes(layers, b.nodes)
    requires parent.Some? ==> HasId(a.nodes, parent.value) && HasId(b.nodes, parent.value)
    ensures forall id: Id :: id in StackIds(a, parent) <==> id in StackIds(b, parent)
    ensures forall id: Id :: id in StackIds(a, parent) ==> KeyOf(a.positions, id) == KeyOf(b.positions, id)
  {
    forall id: Id
      ensures id in StackIds(a, parent) <==> id in StackIds(b, parent)
      ensures id in StackIds(a, parent) ==> KeyOf(a.positions, id) == KeyOf(b.positions, id)
    {
      StackIdsMember(a, parent, id);
      StackIdsMember(b, parent, id);
      if HasId(a.nodes, id) {
        assert Agree(a, a.nodes[Find(a.nodes, id).value], b, b.nodes[Find(b.nodes, id).value]);
      }
    }
  }

  /** Every batch of a run leaves the stacks right. */
  ghost predicate RunStaysOrdered(r: Replica, batches: seq<seq<Entry>>)
    decreases |batches|
  {
    batches == [] || (StaysOrdered(r, LastStates(map[], batches[0])) && RunStaysOrdered(Apply(r, batches[0]).r, batches[1..]))
  }

  lemma {:induction false} RunStaysExact(base: Base, layers: set<Id>, r: Replica, batches: seq<seq<Entry>>)
    requires ValidBase(base) && Inv(base, r) && Exact(r)
    requires TypedNodes(layers, r.nodes) && TypedStates(layers, r.states) && TypedEntries(layers, Flatten(batches))
    requires RunStaysOrdered(r, batches)
    ensures Exact(ApplyAll(r, batches)) && TypedNodes(layers, ApplyAll(r, batches).nodes)
    decreases |batches|
  {
    if batches != [] {
      var (first, rest) := (batches[0], Flatten(batches[1..]));
      assert forall e :: e in first || e in rest ==> e in first + rest;
      ApplyKeeps(base, r, first);
      StacksStayExact(base, layers, r, first);
      RunStaysExact(base, layers, Apply(r, first).r, batches[1..]);
    }
  }

  /** Order and batching do not matter to the stacks either. */
  lemma OrderDoesNotMatterToStacks(base: Base, layers: set<Id>, a: Replica, b: Replica,
                                   left: seq<seq<Entry>>, right: seq<seq<Entry>>, parent: Option<Id>)
    requires ValidBase(base) && Opened(base, a) && Opened(base, b) && Exact(a) && Exact(b) && TypedNodes(layers, base.nodes)
    requires TypedEntries(layers, Flatten(left)) && TypedEntries(layers, Flatten(right))
    requires RunStaysOrdered(a, left) && RunStaysOrdered(b, right)
    requires LastStates(map[], Flatten(left)) == LastStates(map[], Flatten(right)) && ArriveAlike(base, left, right)
    ensures var (x, y) := (ApplyAll(a, left), ApplyAll(b, right));
            && Exact(x) && Exact(y)
            && (parent.Some? ==> (HasId(x.nodes, parent.value) <==> HasId(y.nodes, parent.value)))
            && (parent.None? || HasId(x.nodes, parent.value) ==> StackIds(x, parent) == StackIds(y, parent))
  {
    var (x, y) := (ApplyAll(a, left), ApplyAll(b, right));
    OpenedHolds(base, a);
    OpenedHolds(base, b);
    OrderDoesNotMatter(base, a, b, left, right);
    RunKeeps(base, a, left);
    RunKeeps(base, b, right);
    RunStaysExact(base, layers, a, left);
    RunStaysExact(base, layers, b, right);
    ParentsStayInArena(base, x);
    ParentsStayInArena(base, y);
    if parent.None? || HasId(x.nodes, parent.value) {
      StacksConverge(layers, x, y, parent);
    }
  }
}
