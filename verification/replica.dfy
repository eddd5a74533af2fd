/**
 One person's copy of a shared document as a value, and what sharing does to it.

 A node state is absolute. Taking in entries keeps the newest state of each node,
 merging writes it into the arena, a node whose parent is missing waits in
 `unlinked`, and the stacks of every parent involved are rebuilt.
 */
module Replicas {
  import opened Common
  import opened Positions
  import opened Documents

  datatype NodeState = NodeState(
    id: Id,
    parent: Option<Id>,
    position: Key,
    removed: bool,
    edits: Flags,
    name: string,
    hidden: bool,
    locked: bool,
    opacity: real,
    blend: nat,
    transform: Affine,
    artboard: nat,
    kind: Option<NodeKind>,
    source: Option<Id>)

  /** An entry's text: a node state, or something that is not one. */
  datatype Value = State(state: NodeState) | Malformed(text: nat)

  /** One key of the shared map, read as an id if it is one, and the value it now
      has, if any. */
  datatype Entry = Entry(key: Option<Id>, value: Option<Value>)

  datatype Replica = Replica(
    nodes: seq<Node>,
    layers: seq<nat>,
    positions: map<Id, Key>,
    states: map<Id, NodeState>,
    dirty: set<Id>,
    flags: map<Id, Flags>,
    unlinked: map<Id, Id>)

  /** A node with none of these flags is sent without its kind. */
  const CONTENT: Flags := {Created, Geometry, Fill, Stroke, Text, Clip}

  function FlagsOf(flags: map<Id, Flags>, id: Id): Flags {
    if id in flags then flags[id] else {}
  }

  // ------------------------------------------------------- ascending order

  lemma {:induction false} LeastExists(s: set<Id>) returns (least: Id)
    requires s != {}
    ensures least in s && forall x :: x in s ==> least <= x
  {
    var m :| m in s;
    if s == {m} {
      least := m;
    } else {
      var k := LeastExists(s - {m});
      least := if m < k then m else k;
      assert forall x :: x in s ==> x == m || x in s - {m};
    }
  }

  ghost function Least(s: set<Id>): (m: Id)
    requires s != {}
    ensures m in s && forall x :: x in s ==> m <= x
  {
    assert exists m :: m in s && forall x :: x in s ==> m <= x by { var _ := LeastExists(s); }
    var m :| m in s && forall x :: x in s ==> m <= x;
    m
  }

  // --------------------------------------------------------------- sharing

  predicate ParentsInArena(nodes: seq<Node>) {
    forall i :: 0 <= i < |nodes| ==> nodes[i].parent.Some? ==> nodes[i].parent.value < |nodes|
  }

  /** A node's whole state, as it is shared. */
  function StateOf(r: Replica, i: nat): NodeState
    requires i < |r.nodes| && ParentsInArena(r.nodes)
  {
    var n := r.nodes[i];
    var edits := n.edits + FlagsOf(r.flags, n.id);
    NodeState(
      n.id,
      if n.parent.Some? then Some(r.nodes[n.parent.value].id) else None,
      KeyOf(r.positions, n.id),
      n.removed, edits, n.name, n.hidden, n.locked, n.opacity, n.blend, n.transform, n.artboard,
      if edits * CONTENT != {} then Some(n.kind) else None,
      if n.source.Some? then Some(n.source.value.origin) else None)
  }

  datatype Outbox = Outbox(r: Replica, out: seq<Entry>)

  /** Shares one changed node, unless its state is the one last shared. */
  function ShareNode(s: Outbox, id: Id): (t: Outbox)
    requires ParentsInArena(s.r.nodes)
    ensures t.r.nodes == s.r.nodes
  {
    var i := Find(s.r.nodes, id);
    if i.None? then s
    else
      var state := StateOf(s.r, i.value);
      if id in s.r.states && s.r.states[id] == state then s
      else Outbox(s.r.(states := s.r.states[id := state]), s.out + [Entry(Some(id), Some(State(state)))])
  }

  ghost function ShareAll(s: Outbox, todo: set<Id>): (t: Outbox)
    requires ParentsInArena(s.r.nodes)
    ensures t.r.nodes == s.r.nodes
    decreases |todo|
  {
    if todo == {} then s
    else
      var id := Least(todo);
      ShareAll(ShareNode(s, id), todo - {id})
  }

  /** The entries for every step since the last call. */
  ghost function Changes(r: Replica): Outbox
    requires ParentsInArena(r.nodes)
  {
    ShareAll(Outbox(r.(dirty := {}), []), r.dirty)
  }

  // ------------------------------------------------------------- taking in

  datatype Intake = Intake(states: map<Id, NodeState>, newest: map<Id, NodeState>)

  predicate IsState(e: Entry) {
    e.key.Some? && e.value.Some? && e.value.value.State?
  }

  /** Notes an entry unless it repeats what was last written or applied. */
  function TakeEntry(t: Intake, e: Entry): Intake {
    if !IsState(e) then t
    else
      var (id, state) := (e.key.value, e.value.value.state);
      if id in t.states && t.states[id] == state then t
      else Intake(t.states[id := state], t.newest[id := state])
  }

  function TakeIn(t: Intake, batch: seq<Entry>): Intake
    decreases |batch|
  {
    if batch == [] then t else TakeIn(TakeEntry(t, batch[0]), batch[1..])
  }

  // --------------------------------------------------------------- merging

  /** A merge under way: the replica, the parents whose stacks to rebuild, and
      what to report. */
  datatype Progress = Progress(r: Replica, parents: set<Option<nat>>, touched: seq<nat>, structure: bool)

  function ParentOf(nodes: seq<Node>, parent: Option<Id>): Option<nat> {
    if parent.Some? then Find(nodes, parent.value) else None
  }

  function SourceOf(nodes: seq<Node>, source: Option<Id>): Option<Source> {
    if source.None? then None
    else
      var o := Find(nodes, source.value);
      if o.Some? then nodes[o.value].source else None
  }

  /** The node rewritten from its state. */
  function Rewritten(n: Node, s: NodeState, parent: Option<nat>, source: Option<Source>): Node {
    n.(kind := s.kind.UnwrapOr(n.kind),
       name := s.name, hidden := s.hidden, locked := s.locked, opacity := s.opacity, blend := s.blend,
       transform := s.transform, artboard := s.artboard,
       edits := n.edits + s.edits, removed := s.removed, parent := parent,
       source := if n.source.None? then source else n.source)
  }

  /** The arena with the node of `id` in it, made from the state's content when
      it is new. */
  function WithNode(nodes: seq<Node>, id: Id, s: NodeState): (r: seq<Node>)
    requires Find(nodes, id).Some? || s.kind.Some?
    ensures Find(r, id).Some?
  {
    if Find(nodes, id).Some? then nodes
    else
      var n := NewNode(id, s.kind.value).(removed := true);
      FindAfterPush(nodes, n, id);
      nodes + [n]
  }

  function Merge(p: Progress, id: Id, s: NodeState): Progress {
    if Find(p.r.nodes, id).None? && s.kind.None? then p
    else
      var nodes := WithNode(p.r.nodes, id, s);
      var i := Find(nodes, id).value;
      var was := nodes[i];
      var parent := ParentOf(nodes, s.parent);
      var unlinked := if s.parent.Some? && parent.None? then p.r.unlinked[id := s.parent.value] else p.r.unlinked - {id};
      var moved := was.parent != parent || !was.removed == s.removed || Find(p.r.nodes, id).None?;
      Progress(
        p.r.(nodes := nodes[i := Rewritten(was, s, parent, SourceOf(nodes, s.source))],
             positions := p.r.positions[id := s.position],
             flags := p.r.flags[id := FlagsOf(p.r.flags, id) + s.edits],
             unlinked := unlinked),
        if moved then p.parents + {was.parent, parent} else p.parents,
        p.touched + [i],
        p.structure || moved)
  }

  ghost function MergeAll(p: Progress, todo: set<Id>, newest: map<Id, NodeState>): Progress
    requires todo <= newest.Keys
    decreases |todo|
  {
    if todo == {} then p
    else
      var id := Least(todo);
      MergeAll(Merge(p, id, newest[id]), todo - {id}, newest)
  }

  // --------------------------------------------------------------- linking

  predicate Linkable(nodes: seq<Node>, unlinked: map<Id, Id>, id: Id) {
    id in unlinked && Find(nodes, id).Some? && Find(nodes, unlinked[id]).Some?
  }

  /** Gives the waiting nodes among `done` the parents that have arrived. */
  function LinkSome(nodes: seq<Node>, unlinked: map<Id, Id>, done: set<Id>): (r: seq<Node>)
    ensures |r| == |nodes|
    ensures forall i {:trigger r[i]} :: 0 <= i < |nodes| ==>
              r[i] == if nodes[i].id in done && Linkable(nodes, unlinked, nodes[i].id) && Find(nodes, nodes[i].id) == Some(i)
                      then nodes[i].(parent := Find(nodes, unlinked[nodes[i].id]))
                      else nodes[i]
  {
    seq(|nodes|, i requires 0 <= i < |nodes| =>
      if nodes[i].id in done && Linkable(nodes, unlinked, nodes[i].id) && Find(nodes, nodes[i].id) == Some(i)
      then nodes[i].(parent := Find(nodes, unlinked[nodes[i].id]))
      else nodes[i])
  }

  function LinkableIds(nodes: seq<Node>, unlinked: map<Id, Id>): set<Id> {
    set id | id in unlinked && Linkable(nodes, unlinked, id)
  }

  function LinkWaiting(p: Progress): Progress {
    var arrived := LinkableIds(p.r.nodes, p.r.unlinked);
    Progress(
      p.r.(nodes := LinkSome(p.r.nodes, p.r.unlinked, arrived), unlinked := p.r.unlinked - arrived),
      p.parents + (set id | id in arrived :: Find(p.r.nodes, p.r.unlinked[id])),
      p.touched,
      p.structure || arrived != {})
  }

  // -------------------------------------------------------------- rebuilding

  function WithStacks(nodes: seq<Node>, places: seq<Node>, positions: map<Id, Key>, parents: set<Option<nat>>): (r: seq<Node>)
    ensures |r| == |nodes|
    ensures forall i {:trigger r[i]} :: 0 <= i < |nodes| ==>
              r[i] == if Some(i) in parents then nodes[i].(children := Stack(places, positions, Some(i))) else nodes[i]
  {
    seq(|nodes|, i requires 0 <= i < |nodes| =>
      if Some(i) in parents then nodes[i].(children := Stack(places, positions, Some(i))) else nodes[i])
  }

  function Relink(r: Replica, parents: set<Option<nat>>): Replica {
    r.(nodes := WithStacks(r.nodes, r.nodes, r.positions, parents),
       layers := if None in parents then Stack(r.nodes, r.positions, None) else r.layers)
  }

  // ---------------------------------------------------------------- applying

  ghost function Merged(r: Replica, batch: seq<Entry>): Progress {
    var t := TakeIn(Intake(r.states, map[]), batch);
    MergeAll(Progress(r.(states := t.states), {}, [], false), t.newest.Keys, t.newest)
  }

  /** Applying a batch of other people's changes. */
  ghost function Apply(r: Replica, batch: seq<Entry>): Progress {
    var p := LinkWaiting(Merged(r, batch));
    p.(r := Relink(p.r, p.parents))
  }
}
