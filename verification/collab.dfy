/**
 The collaboration object and the document it works on, updated in place. Each
 method does what the value-level description of it says.
 */
module Collaboration {
  import opened Common
  import opened Positions
  import opened Documents
  import opened Replicas
  import Repositioning
  import Stacking

  function SpreadOver(positions: map<Id, Key>, ids: seq<Id>, k: nat): map<Id, Key>
    requires k <= |ids|
  {
    if k == 0 then positions
    else SpreadOver(positions, ids, k - 1)[ids[k - 1] := FourDigits(SpreadValue(|ids|, k))]
  }

  /** Positions once the layers and the stacks inside the first `k` nodes have
      been spread. */
  function Opening(r: Replica, k: nat): map<Id, Key>
    requires Repositioning.StacksInArena(r) && k <= |r.nodes|
  {
    if k == 0 then SpreadOver(map[], IdsAt(r.nodes, r.layers), |r.layers|)
    else if r.nodes[k - 1].IsContainer() then
      var ids := IdsAt(r.nodes, r.nodes[k - 1].children);
      SpreadOver(Opening(r, k - 1), ids, |ids|)
    else Opening(r, k - 1)
  }

  // ------------------------------------------------------ opening order

  lemma {:induction false} SpreadOverKeys(positions: map<Id, Key>, ids: seq<Id>, k: nat)
    requires k <= |ids| && Repositioning.Distinct(ids)
    ensures var q := SpreadOver(positions, ids, k);
            && (forall j :: 0 <= j < k ==> ids[j] in q && q[ids[j]] == FourDigits(SpreadValue(|ids|, j + 1)))
            && (forall id :: id !in ids ==> Repositioning.Known(q, id) == Repositioning.Known(positions, id))
  {
    if k > 0 { SpreadOverKeys(positions, ids, k - 1); }
  }

  /** A stack spread over is in order exactly when it is not too long for the
      four-digit keys. */
  lemma SpreadOverOrders(positions: map<Id, Key>, ids: seq<Id>)
    requires Repositioning.Distinct(ids)
    ensures Repositioning.KeysIncrease(SpreadOver(positions, ids, |ids|), ids, |ids|) <==> 2 * (|ids| + 1) <= SPAN
  {
    var n := |ids|;
    var q := SpreadOver(positions, ids, n);
    SpreadOverKeys(positions, ids, n);
    if 2 * (n + 1) <= SPAN {
      forall i | 0 < i < n
        ensures Less(KeyOf(q, ids[i - 1]), KeyOf(q, ids[i]))
      {
        SpreadValueGrows(n, i, i + 1);
        NumeralOrder(SpreadValue(n, i), SpreadValue(n, i + 1), 4);
        assert KeyOf(q, ids[i - 1]) == FourDigits(SpreadValue(n, (i - 1) + 1));
      }
    } else {
      CrowdedSpreadRepeats(n);
      assert KeyOf(q, ids[61]) == FourDigits(SpreadValue(n, 61 + 1)) && KeyOf(q, ids[62]) == FourDigits(SpreadValue(n, 62 + 1));
      LessIrreflexive(KeyOf(q, ids[61]));
    }
  }

  class Document {
    var nodes: seq<Node>
    var layers: seq<nat>

    constructor (nodes: seq<Node>, layers: seq<nat>)
      ensures this.nodes == nodes && this.layers == layers
    {
      this.nodes, this.layers := nodes, layers;
    }

    /** The node gets the next index and is in no stack yet. */
    method Push(n: Node) returns (i: nat)
      modifies this`nodes
      ensures nodes == old(nodes) + [n] && i == |old(nodes)|
    {
      i := |nodes|;
      nodes := nodes + [n];
    }

    method SetChildren(i: nat, stack: seq<nat>)
      requires i < |nodes|
      modifies this`nodes
      ensures nodes == old(nodes)[i := old(nodes)[i].(children := stack)]
    {
      nodes := nodes[i := nodes[i].(children := stack)];
    }
  }

  class Collab {
    var positions: map<Id, Key>
    var states: map<Id, NodeState>
    var dirty: set<Id>
    var flags: map<Id, Flags>
    var unlinked: map<Id, Id>

    function View(doc: Document): Replica
      reads this, doc
    {
      Replica(doc.nodes, doc.layers, positions, states, dirty, flags, unlinked)
    }

    /** Nothing is shared or waiting, and every node in a stack has a position. */
    constructor (doc: Document)
      requires Repositioning.StacksInArena(Replica(doc.nodes, doc.layers, map[], map[], {}, map[], map[]))
      ensures var r := Replica(doc.nodes, doc.layers, map[], map[], {}, map[], map[]);
              View(doc) == r.(positions := Opening(r, |doc.nodes|))
    {
      positions, states, dirty, flags, unlinked := map[], map[], {}, map[], map[];
      new;
      SpreadAll(doc);
    }

    /** Gives every stack of the document its opening positions. */
    method SpreadAll(doc: Document)
      requires Repositioning.StacksInArena(View(doc)) && positions == map[]
      modifies this`positions
      ensures positions == Opening(old(View(doc)), |doc.nodes|)
    {
      ghost var r := View(doc);
      SpreadStack(doc, doc.layers);
      for k := 0 to |doc.nodes|
        invariant positions == Opening(r, k)
      {
        if doc.nodes[k].IsContainer() {
          SpreadStack(doc, doc.nodes[k].children);
        }
      }
    }

    /** Spreads positions evenly over a stack. */
    method SpreadStack(doc: Document, stack: seq<nat>)
      requires InArena(doc.nodes, stack)
      modifies this`positions
      ensures positions == SpreadOver(old(positions), IdsAt(doc.nodes, stack), |stack|)
    {
      var keys := Spread(|stack|);
      for j := 0 to |stack|
        invariant positions == SpreadOver(old(positions), IdsAt(doc.nodes, stack), j)
      {
        assert keys[(j + 1) - 1] == FourDigits(SpreadValue(|stack|, j + 1));
        positions := positions[doc.nodes[stack[j]].id := keys[j]];
      }
    }

    // ------------------------------------------------------ local steps

    /** Notes what a local step changed, so the next `Changes` shares it. */
    method Record(doc: Document, touched: seq<nat>, structure: bool)
      requires Repositioning.StacksInArena(View(doc)) && InArena(doc.nodes, touched)
      modifies this`flags, this`dirty, this`positions
      ensures View(doc) == Repositioning.Record(old(View(doc)), touched, structure)
    {
      for k := 0 to |touched|
        invariant doc.nodes == old(doc.nodes) && doc.layers == old(doc.layers)
        invariant positions == old(positions) && states == old(states) && unlinked == old(unlinked)
        invariant Repositioning.NoteAll(View(doc), touched[k..]) == Repositioning.NoteAll(old(View(doc)), touched)
      {
        var n := doc.nodes[touched[k]];
        flags := flags[n.id := FlagsOf(flags, n.id) + n.edits];
        dirty := dirty + {n.id};
        assert touched[k..][1..] == touched[k + 1..];
      }
      Repositioning.NotingKeepsNodes(old(View(doc)), touched);
      if structure {
        Reposition(doc, touched);
      }
    }

    /** Walks every stack a touched node is in or has; positions and the ids to
        share become those of the repair on values. */
    method Reposition(doc: Document, touched: seq<nat>)
      requires Repositioning.StacksInArena(View(doc)) && InArena(doc.nodes, touched)
      modifies this`positions, this`dirty
      ensures Repositioning.Placing(positions, dirty) == Repositioning.Reposition(old(View(doc)), touched)
    {
      var stacks := StacksTouched(doc, touched);
      ghost var r := View(doc);
      for k := 0 to |stacks|
        invariant Repositioning.PlaceStacks(Repositioning.Placing(positions, dirty), r, stacks[k..]) == Repositioning.Reposition(r, touched)
      {
        assert stacks[k..][1..] == stacks[k + 1..];
        var stack := if stacks[k].None? then doc.layers else if stacks[k].value < |doc.nodes| then doc.nodes[stacks[k].value].children else [];
        RepairStack(IdsAt(doc.nodes, stack));
      }
    }

    /** The layers, and the stacks of and inside the touched nodes. */
    method StacksTouched(doc: Document, touched: seq<nat>) returns (stacks: seq<Option<nat>>)
      requires InArena(doc.nodes, touched)
      ensures stacks == Repositioning.TouchedStacks(doc.nodes, touched, [None])
    {
      stacks := [None];
      for k := 0 to |touched|
        invariant Repositioning.TouchedStacks(doc.nodes, touched[k..], stacks) == Repositioning.TouchedStacks(doc.nodes, touched, [None])
      {
        var i := touched[k];
        assert touched[k..][1..] == touched[k + 1..];
        if doc.nodes[i].parent !in stacks {
          stacks := stacks + [doc.nodes[i].parent];
        }
        if doc.nodes[i].IsContainer() && Some(i) !in stacks {
          stacks := stacks + [Some(i)];
        }
      }
    }

    /** Walks one stack from the bottom. */
    method RepairStack(ids: seq<Id>)
      modifies this`positions, this`dirty
      ensures Repositioning.Placing(positions, dirty) == Repositioning.PlaceStack(Repositioning.Placing(old(positions), old(dirty)), ids)
    {
      for k := 0 to |ids|
        invariant Repositioning.PlaceFrom(Repositioning.Placing(positions, dirty), ids, k)
               == Repositioning.PlaceStack(Repositioning.Placing(old(positions), old(dirty)), ids)
      {
        var below := if k > 0 then Repositioning.Known(positions, ids[k - 1]) else None;
        var above := Repositioning.FirstKnown(positions, ids[k + 1..]);
        if above.Some? && below.Some? && !Less(below.value, above.value) {
          above := None;
        }
        var current := Repositioning.Known(positions, ids[k]);
        var fits := current.Some? && (below.None? || Less(below.value, current.value)) && (above.None? || Less(current.value, above.value));
        if !fits {
          var key := FindMidpoint(below.UnwrapOr([]), UpperEnd(below, above), 0);
          positions := positions[ids[k] := key];
          dirty := dirty + {ids[k]};
        }
      }
    }

    /** Shares the noted ids in ascending order and forgets them. */
    method Changes(doc: Document) returns (out: seq<Entry>)
      requires ParentsInArena(doc.nodes)
      modifies this`dirty, this`states
      ensures Outbox(View(doc), out) == Replicas.Changes(old(View(doc)))
    {
      out := [];
      var todo := dirty;
      dirty := {};
      while todo != {}
        invariant doc.nodes == old(doc.nodes)
        invariant ShareAll(Outbox(View(doc), out), todo) == Replicas.Changes(old(View(doc)))
      {
        var id :| id in todo && forall x :: x in todo ==> id <= x;
        assert id == Least(todo);
        todo := todo - {id};
        var i := Find(doc.nodes, id);
        if i.Some? {
          var state := StateOf(View(doc), i.value);
          if !(id in states && states[id] == state) {
            states := states[id := state];
            out := out + [Entry(Some(id), Some(State(state)))];
          }
        }
      }
    }

    // ---------------------------------------------------- remote changes

    /** Merges a batch: the copy, the nodes written and whether any stack was
        rebuilt are those of the merge on values. */
    method Apply(doc: Document, batch: seq<Entry>) returns (touched: seq<nat>, structure: bool)
      requires ParentsInArena(doc.nodes)
      modifies this`states, this`positions, this`flags, this`unlinked, doc
      ensures View(doc) == Replicas.Apply(old(View(doc)), batch).r
      ensures touched == Replicas.Apply(old(View(doc)), batch).touched
      ensures structure == Replicas.Apply(old(View(doc)), batch).structure
    {
      var newest := TakeIn(batch);
      var parents: set<Option<nat>>;
      touched, structure, parents := MergeStates(doc, newest);
      var linked, arrived := LinkArrived(doc, Progress(View(doc), parents, touched, structure));
      parents := parents + linked;
      structure := structure || arrived;
      if parents != {} {
        Relink(doc, parents);
      } else {
        assert WithStacks(doc.nodes, doc.nodes, positions, {}) == doc.nodes;
      }
    }

    /** Notes the newest state of each node. */
    method TakeIn(batch: seq<Entry>) returns (newest: map<Id, NodeState>)
      modifies this`states
      ensures Intake(states, newest) == Replicas.TakeIn(Intake(old(states), map[]), batch)
    {
      newest := map[];
      for k := 0 to |batch|
        invariant Replicas.TakeIn(Intake(states, newest), batch[k..]) == Replicas.TakeIn(Intake(old(states), map[]), batch)
      {
        var e := batch[k];
        assert batch[k..][1..] == batch[k + 1..];
        if IsState(e) {
          var id, state := e.key.value, e.value.value.state;
          if !(id in states && states[id] == state) {
            states := states[id := state];
            newest := newest[id := state];
          }
        }
      }
    }

    method MergeStates(doc: Document, newest: map<Id, NodeState>)
      returns (touched: seq<nat>, structure: bool, parents: set<Option<nat>>)
      requires ParentsInArena(doc.nodes)
      modifies this`positions, this`flags, this`unlinked, doc`nodes
      ensures Progress(View(doc), parents, touched, structure)
           == MergeAll(Progress(old(View(doc)), {}, [], false), newest.Keys, newest)
      ensures InRange(parents, |doc.nodes|)
    {
      touched, structure, parents := [], false, {};
      var todo := newest.Keys;
      while todo != {}
        invariant todo <= newest.Keys
        invariant ParentsInArena(doc.nodes) && InRange(parents, |doc.nodes|)
        invariant MergeAll(Progress(View(doc), parents, touched, structure), todo, newest)
               == MergeAll(Progress(old(View(doc)), {}, [], false), newest.Keys, newest)
      {
        var id :| id in todo && forall x :: x in todo ==> id <= x;
        assert id == Least(todo);
        todo := todo - {id};
        MergeStaysInArena(Progress(View(doc), parents, touched, structure), id, newest[id]);
        touched, structure, parents := MergeNode(doc, id, newest[id], touched, structure, parents);
      }
    }

    /** Writes one state into the arena. */
    method MergeNode(doc: Document, id: Id, s: NodeState, touched: seq<nat>, structure: bool, parents: set<Option<nat>>)
      returns (touched': seq<nat>, structure': bool, parents': set<Option<nat>>)
      modifies this`positions, this`flags, this`unlinked, doc`nodes
      ensures Progress(View(doc), parents', touched', structure')
           == Merge(Progress(old(View(doc)), parents, touched, structure), id, s)
    {
      touched', structure', parents' := touched, structure, parents;
      var existing := Find(doc.nodes, id);
      if existing.None? && s.kind.None? {
        return;
      }
      var i := FindOrAdd(doc, id, s);
      ghost var w := doc.nodes;
      var was, wasListed := doc.nodes[i].parent, !doc.nodes[i].removed;
      flags := flags[id := FlagsOf(flags, id) + s.edits];
      var parent := ParentOf(doc.nodes, s.parent);
      if s.parent.Some? && parent.None? {
        unlinked := unlinked[id := s.parent.value];
      } else {
        unlinked := unlinked - {id};
      }
      positions := positions[id := s.position];
      var source := SourceOf(doc.nodes, s.source);
      var n := Rewrite(doc.nodes[i], s, parent, source);
      doc.nodes := doc.nodes[i := n];
      if was != parent || wasListed == s.removed || existing.None? {
        parents' := parents' + {was, parent};
        structure' := true;
      }
      touched' := touched' + [i];
    }

    /** The node with an id, added from its content when it is new. */
    method FindOrAdd(doc: Document, id: Id, s: NodeState) returns (i: nat)
      requires Find(doc.nodes, id).Some? || s.kind.Some?
      modifies doc`nodes
      ensures doc.nodes == WithNode(old(doc.nodes), id, s) && Find(doc.nodes, id) == Some(i)
    {
      var existing := Find(doc.nodes, id);
      if existing.Some? {
        i := existing.value;
      } else {
        i := doc.Push(NewNode(id, s.kind.value).(removed := true));
        FindAfterPush(old(doc.nodes), doc.nodes[i], id);
      }
    }

    /** Sets a node's fields from its state. */
    method Rewrite(node: Node, s: NodeState, parent: Option<nat>, source: Option<Source>) returns (n: Node)
      ensures n == Rewritten(node, s, parent, source)
    {
      n := node;
      if s.kind.Some? {
        n := n.(kind := s.kind.value);
      }
      n := n.(name := s.name, hidden := s.hidden, locked := s.locked, opacity := s.opacity, blend := s.blend);
      n := n.(transform := s.transform, artboard := s.artboard, edits := n.edits + s.edits);
      n := n.(removed := s.removed, parent := parent);
      if n.source.None? {
        n := n.(source := source);
      }
    }

    /** Links the nodes whose parents have arrived. */
    method LinkArrived(doc: Document, ghost p: Progress) returns (parents: set<Option<nat>>, arrived: bool)
      requires p.r == View(doc)
      modifies this`unlinked, doc`nodes
      ensures LinkWaiting(p) == Progress(View(doc), p.parents + parents, p.touched, p.structure || arrived)
      ensures |doc.nodes| == |old(doc.nodes)| && InRange(parents, |doc.nodes|)
    {
      parents, arrived := {}, false;
      var waiting := unlinked;
      var todo := waiting.Keys;
      ghost var nodes, done := doc.nodes, {};
      LinkedNone(nodes, waiting);
      while todo != {}
        invariant done + todo == waiting.Keys && done !! todo
        invariant LinkedSoFar(nodes, waiting, done, Linking(doc.nodes, unlinked, parents, arrived))
      {
        var id :| id in todo;
        LinkedOneMore(nodes, waiting, done, Linking(doc.nodes, unlinked, parents, arrived), id);
        todo := todo - {id};
        done := done + {id};
        var found := LinkNode(doc, id, waiting[id]);
        if found.Some? {
          parents := parents + {found};
          arrived := true;
        }
      }
      LinkedAll(p, done, Linking(doc.nodes, unlinked, parents, arrived));
    }

    /** Links one waiting node, if it and its parent are there. */
    method LinkNode(doc: Document, id: Id, parent: Id) returns (found: Option<nat>)
      modifies this`unlinked, doc`nodes
      ensures var (i, p) := (Find(old(doc.nodes), id), Find(old(doc.nodes), parent));
              if i.Some? && p.Some?
              then found == p && unlinked == old(unlinked) - {id}
                   && doc.nodes == old(doc.nodes)[i.value := old(doc.nodes)[i.value].(parent := p)]
              else found == None && unlinked == old(unlinked) && doc.nodes == old(doc.nodes)
    {
      var i, p := Find(doc.nodes, id), Find(doc.nodes, parent);
      if i.None? || p.None? {
        return None;
      }
      doc.nodes := doc.nodes[i.value := doc.nodes[i.value].(parent := p)];
      unlinked := unlinked - {id};
      found := p;
    }

    /** Writes over exactly the stacks of `parents`. */
    method Relink(doc: Document, parents: set<Option<nat>>)
      requires InRange(parents, |doc.nodes|)
      modifies doc
      ensures View(doc) == Replicas.Relink(old(View(doc)), parents)
    {
      var todo := parents;
      ghost var nodes, layers, done := doc.nodes, doc.layers, {};
      assert WithStacks(nodes, nodes, positions, {}) == nodes;
      while todo != {}
        invariant done + todo == parents && done !! todo
        invariant doc.nodes == WithStacks(nodes, nodes, positions, done)
        invariant doc.layers == if None in done then Stack(nodes, positions, None) else layers
      {
        var parent :| parent in todo;
        var stack := Rebuild(doc, parent);
        Stacking.StackAfterRelinks(nodes, doc.nodes, positions, parent);
        todo := todo - {parent};
        done := done + {parent};
        match parent {
          case Some(i) => doc.SetChildren(i, stack);
          case None => doc.layers := stack;
        }
      }
      assert done == parents;
    }

    /** A parent's live members, sorted. */
    method Rebuild(doc: Document, parent: Option<nat>) returns (stack: seq<nat>)
      ensures stack == Stack(doc.nodes, positions, parent)
    {
      stack := [];
      for k := 0 to |doc.nodes|
        invariant stack == StackUpTo(doc.nodes, positions, parent, k)
      {
        if doc.nodes[k].parent == parent && !doc.nodes[k].removed {
          if parent.Some? || doc.nodes[k].kind.Layer? {
            stack := Insert(doc.nodes, positions, stack, k);
          }
        }
      }
    }
  }

  predicate InRange(parents: set<Option<nat>>, n: nat) {
    forall q :: q in parents && q.Some? ==> q.value < n
  }

  function ArrivedParents(nodes: seq<Node>, waiting: map<Id, Id>, done: set<Id>): set<Option<nat>> {
    set id | id in waiting && Linkable(nodes, waiting, id) && id in done :: Find(nodes, waiting[id])
  }

  /** The linking of waiting nodes under way. */
  datatype Linking = Linking(nodes: seq<Node>, unlinked: map<Id, Id>, parents: set<Option<nat>>, arrived: bool)

  ghost predicate LinkedSoFar(nodes: seq<Node>, waiting: map<Id, Id>, done: set<Id>, l: Linking) {
    && l.nodes == LinkSome(nodes, waiting, done)
    && l.unlinked == waiting - (LinkableIds(nodes, waiting) * done)
    && l.parents == ArrivedParents(nodes, waiting, done)
    && (l.arrived <==> LinkableIds(nodes, waiting) * done != {})
  }

  lemma LinkedNone(nodes: seq<Node>, waiting: map<Id, Id>)
    ensures LinkedSoFar(nodes, waiting, {}, Linking(nodes, waiting, {}, false))
  {
    assert LinkSome(nodes, waiting, {}) == nodes;
    assert LinkableIds(nodes, waiting) * {} == {};
  }

  /** One node more, found in the arena as it is by now. */
  function LinkNext(l: Linking, id: Id, parent: Id): Linking {
    var (i, p) := (Find(l.nodes, id), Find(l.nodes, parent));
    if i.Some? && p.Some?
    then Linking(l.nodes[i.value := l.nodes[i.value].(parent := p)], l.unlinked - {id}, l.parents + {p}, true)
    else l
  }

  lemma LinkedOneMore(nodes: seq<Node>, waiting: map<Id, Id>, done: set<Id>, l: Linking, id: Id)
    requires LinkedSoFar(nodes, waiting, done, l) && id in waiting && id !in done
    ensures LinkedSoFar(nodes, waiting, done + {id}, LinkNext(l, id, waiting[id]))
  {
    LinkOne(nodes, waiting, done, id);
    NextArrived(nodes, waiting, done, id);
    WithOneMore(waiting, LinkableIds(nodes, waiting) * done, l.parents, id);
  }

  lemma WithOneMore(m: map<Id, Id>, a: set<Id>, parents: set<Option<nat>>, x: Id)
    ensures m - (a + {x}) == (m - a) - {x} && m - (a + {}) == m - a
    ensures a + {x} != {} && a + {} == a && parents + {} == parents
  {
    assert x in a + {x};
  }

  lemma LinkOne(nodes: seq<Node>, waiting: map<Id, Id>, done: set<Id>, id: Id)
    requires id in waiting && id !in done
    ensures var (a, b) := (LinkSome(nodes, waiting, done), LinkSome(nodes, waiting, done + {id}));
            && Find(a, id) == Find(nodes, id) && Find(a, waiting[id]) == Find(nodes, waiting[id])
            && b == if Linkable(nodes, waiting, id)
                    then a[Find(nodes, id).value := a[Find(nodes, id).value].(parent := Find(nodes, waiting[id]))]
                    else a
  {
    var a := LinkSome(nodes, waiting, done);
    assert SameIds(nodes, a);
    FindDependsOnIds(nodes, a, id);
    FindDependsOnIds(nodes, a, waiting[id]);
    LinkOneNode(nodes, waiting, done, id);
  }

  lemma LinkOneNode(nodes: seq<Node>, waiting: map<Id, Id>, done: set<Id>, id: Id)
    requires id in waiting && id !in done
    ensures var (a, b) := (LinkSome(nodes, waiting, done), LinkSome(nodes, waiting, done + {id}));
            b == if Linkable(nodes, waiting, id)
                 then a[Find(nodes, id).value := a[Find(nodes, id).value].(parent := Find(nodes, waiting[id]))]
                 else a
  {
    var (a, b) := (LinkSome(nodes, waiting, done), LinkSome(nodes, waiting, done + {id}));
    forall i | 0 <= i < |nodes|
      ensures b[i] == if Linkable(nodes, waiting, id) && i == Find(nodes, id).value then a[i].(parent := Find(nodes, waiting[id])) else a[i]
    {}
  }

  lemma NextArrived(nodes: seq<Node>, waiting: map<Id, Id>, done: set<Id>, id: Id)
    requires id in waiting && id !in done
    ensures ArrivedParents(nodes, waiting, done + {id}) ==
            ArrivedParents(nodes, waiting, done) + if Linkable(nodes, waiting, id) then {Find(nodes, waiting[id])} else {}
    ensures LinkableIds(nodes, waiting) * (done + {id}) ==
            LinkableIds(nodes, waiting) * done + if Linkable(nodes, waiting, id) then {id} else {}
  {
    var (a, b) := (ArrivedParents(nodes, waiting, done), ArrivedParents(nodes, waiting, done + {id}));
    forall q | q in b
      ensures q in a || (Linkable(nodes, waiting, id) && q == Find(nodes, waiting[id]))
    {
      var x :| x in waiting && Linkable(nodes, waiting, x) && x in done + {id} && q == Find(nodes, waiting[x]);
      if x != id { assert x in done; }
    }
    forall q | q in a
      ensures q in b
    {
      var x :| x in waiting && Linkable(nodes, waiting, x) && x in done && q == Find(nodes, waiting[x]);
      assert x in done + {id};
    }
    if Linkable(nodes, waiting, id) { assert id in done + {id}; }
  }

  lemma AllAreDone(nodes: seq<Node>, waiting: map<Id, Id>)
    ensures LinkableIds(nodes, waiting) * waiting.Keys == LinkableIds(nodes, waiting)
    ensures LinkSome(nodes, waiting, waiting.Keys) == LinkSome(nodes, waiting, LinkableIds(nodes, waiting))
  {
    var (a, b) := (LinkSome(nodes, waiting, waiting.Keys), LinkSome(nodes, waiting, LinkableIds(nodes, waiting)));
    forall i | 0 <= i < |nodes|
      ensures a[i] == b[i]
    {}
  }

  lemma AllHaveArrived(nodes: seq<Node>, waiting: map<Id, Id>)
    ensures ArrivedParents(nodes, waiting, waiting.Keys) == set id | id in LinkableIds(nodes, waiting) :: Find(nodes, waiting[id])
    ensures InRange(ArrivedParents(nodes, waiting, waiting.Keys), |nodes|)
  {}

  lemma LinkedAll(p: Progress, done: set<Id>, l: Linking)
    requires done == p.r.unlinked.Keys && LinkedSoFar(p.r.nodes, p.r.unlinked, done, l)
    ensures LinkWaiting(p) == Progress(p.r.(nodes := l.nodes, unlinked := l.unlinked), p.parents + l.parents, p.touched, p.structure || l.arrived)
    ensures |l.nodes| == |p.r.nodes| && InRange(l.parents, |p.r.nodes|)
  {
    AllAreDone(p.r.nodes, p.r.unlinked);
    AllHaveArrived(p.r.nodes, p.r.unlinked);
  }

  lemma MergeStaysInArena(p: Progress, id: Id, s: NodeState)
    requires ParentsInArena(p.r.nodes) && InRange(p.parents, |p.r.nodes|)
    ensures ParentsInArena(Merge(p, id, s).r.nodes) && InRange(Merge(p, id, s).parents, |Merge(p, id, s).r.nodes|)
  {
    if Find(p.r.nodes, id).Some? || s.kind.Some? {
      var w := WithNode(p.r.nodes, id, s);
      assert |p.r.nodes| <= |w| && forall i :: 0 <= i < |w| && w[i].parent.Some? ==> w[i].parent.value < |w|;
    }
  }
}
