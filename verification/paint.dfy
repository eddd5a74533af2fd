/**
 The tree read left to right is what was painted, in order: every operation of
 the builder keeps, layer by layer, the leaves of the tree equal to the log of
 what was added.
 */
module PaintOrder {
  import opened Common
  import opened Arenas
  import opened Tips
  import opened Builds

  /** The leaves added to a layer, in the order they were added. */
  ghost function DrawnIn(log: seq<Drawn>, layer: nat): seq<nat> {
    if log == [] then []
    else DrawnIn(log[..|log| - 1], layer) + if log[|log| - 1].layer == layer then [log[|log| - 1].node] else []
  }

  ghost predicate IsLayer(nodes: seq<Node>, i: nat) {
    i < |nodes| && nodes[i].kind.Layer?
  }

  ghost predicate KeepsLayers(nodes: seq<Node>, t: seq<Node>) {
    forall i: nat :: IsLayer(nodes, i) ==> IsLayer(t, i)
  }

  ghost predicate Painted(nodes: seq<Node>, log: seq<Drawn>) {
    forall layer: nat :: IsLayer(nodes, layer) ==> Leaves(nodes, layer) == DrawnIn(log, layer)
  }

  ghost predicate LogInArena(nodes: seq<Node>, log: seq<Drawn>) {
    forall k :: 0 <= k < |log| ==> IsLayer(nodes, log[k].layer)
  }

  /** An arena being filled at the tip of `path`; `low` is a path in another
      layer that is waiting. */
  ghost predicate Filling(nodes: seq<Node>, path: seq<nat>, low: seq<nat>, log: seq<Drawn>) {
    && Tree(nodes) && Painted(nodes, log) && LogInArena(nodes, log)
    && path != [] && Descends(nodes, path) && Descends(nodes, low) && (low != [] ==> low[0] != path[0])
  }

  lemma FillingShorter(nodes: seq<Node>, path: seq<nat>, low: seq<nat>, log: seq<Drawn>, k: nat)
    requires Filling(nodes, path, low, log) && 0 < k <= |path|
    ensures Filling(nodes, path[..k], low, log)
  {
    PathPrefix(nodes, path, k);
  }

  /** Something changed at the tip, adding `more` leaves there. */
  lemma TipPainted(nodes: seq<Node>, t: seq<Node>, path: seq<nat>, log: seq<Drawn>, more: seq<Drawn>)
    requires Tree(nodes) && Descends(nodes, path) && path != [] && Painted(nodes, log)
    requires |t| >= |nodes| && AlikeOutside(nodes, t, Last(path))
    requires KeepsLayers(t, nodes)
    requires |more| <= 1 && forall k :: 0 <= k < |more| ==> more[k].layer == path[0]
    requires Leaves(t, Last(path)) == Leaves(nodes, Last(path)) + seq(|more|, k requires 0 <= k < |more| => more[k].node)
    ensures Painted(t, log + more)
  {
    var extra := seq(|more|, k requires 0 <= k < |more| => more[k].node);
    forall layer: nat | IsLayer(t, layer)
      ensures Leaves(t, layer) == DrawnIn(log + more, layer)
    {
      DrawnMore(log, more, layer);
      assert IsLayer(nodes, layer);
      if layer == path[0] {
        TipLeaves(nodes, t, path, 0, extra);
        if more != [] { assert extra == [more[0].node]; } else { assert extra == []; }
      } else {
        OtherLayersSame(nodes, t, path, layer);
        if more != [] { assert more[0].layer == path[0]; }
      }
    }
  }

  lemma DrawnMore(log: seq<Drawn>, more: seq<Drawn>, layer: nat)
    requires |more| <= 1
    ensures DrawnIn(log + more, layer) ==
            DrawnIn(log, layer) + if more != [] && more[0].layer == layer then [more[0].node] else []
  {
    if more == [] {
      assert log + more == log;
    } else {
      assert (log + more)[..|log|] == log;
    }
  }

  lemma LogKept(nodes: seq<Node>, t: seq<Node>, log: seq<Drawn>)
    requires LogInArena(nodes, log) && KeepsLayers(nodes, t)
    ensures LogInArena(t, log)
  {}

  /** A change at the tip that neither adds nor loses a leaf. */
  lemma TipChanged(nodes: seq<Node>, t: seq<Node>, path: seq<nat>, low: seq<nat>, log: seq<Drawn>)
    requires Filling(nodes, path, low, log) && Tree(t) && Descends(t, path) && |t| >= |nodes|
    requires AlikeOutside(nodes, t, Last(path)) && Leaves(t, Last(path)) == Leaves(nodes, Last(path))
    requires KeepsLayers(t, nodes) && KeepsLayers(nodes, t)
    ensures Filling(t, path, low, log)
  {
    OtherPath(nodes, t, path, low);
    TipPainted(nodes, t, path, log, []);
    assert log + [] == log;
    LogKept(nodes, t, log);
  }

  /** Opening a group at the tip. */
  lemma AddGroup(nodes: seq<Node>, node: Node, path: seq<nat>, low: seq<nat>, log: seq<Drawn>)
    requires Filling(nodes, path, low, log)
    requires node.kind.Group? && node.children == [] && !node.removed
    ensures Filling(Append(nodes, node, Last(path)), path + [|nodes|], low, log)
  {
    var t := Append(nodes, node, Last(path));
    assert Holds(nodes, Last(path));
    AppendTree(nodes, node, Last(path));
    AppendOutside(nodes, node, Last(path));
    AppendLeaves(nodes, node, Last(path));
    AppendPath(nodes, node, path);
    AppendLayers(nodes, node, Last(path));
    TipChanged(nodes, t, path, low, log);
  }

  lemma AppendLayers(nodes: seq<Node>, node: Node, tip: nat)
    requires !node.kind.Layer?
    ensures KeepsLayers(Append(nodes, node, tip), nodes) && KeepsLayers(nodes, Append(nodes, node, tip))
  {}

  /** Adding a leaf at the tip. */
  lemma {:induction false} AddLeaf(nodes: seq<Node>, node: Node, path: seq<nat>, low: seq<nat>, log: seq<Drawn>, drawn: Drawn)
    requires Filling(nodes, path, low, log)
    requires node.kind.Leaf? && node.children == [] && !node.removed
    requires drawn.node == |nodes| && drawn.layer == path[0]
    ensures Filling(Append(nodes, node, Last(path)), path, low, log + [drawn])
  {
    var t := Append(nodes, node, Last(path));
    assert Holds(nodes, Last(path)) && Holds(nodes, path[0]);
    AppendTree(nodes, node, Last(path));
    AppendOutside(nodes, node, Last(path));
    AppendLeaves(nodes, node, Last(path));
    AppendPath(nodes, node, path);
    OtherPath(nodes, t, path, low);
    AppendLayers(nodes, node, Last(path));
    OneDrawn(nodes, t, path, log, drawn);
  }

  lemma {:induction false} OneDrawn(nodes: seq<Node>, t: seq<Node>, path: seq<nat>, log: seq<Drawn>, drawn: Drawn)
    requires Tree(nodes) && Descends(nodes, path) && path != [] && Painted(nodes, log) && LogInArena(nodes, log)
    requires |t| >= |nodes| && AlikeOutside(nodes, t, Last(path)) && KeepsLayers(t, nodes) && KeepsLayers(nodes, t)
    requires drawn.layer == path[0] && Leaves(t, Last(path)) == Leaves(nodes, Last(path)) + [drawn.node]
    ensures Painted(t, log + [drawn]) && LogInArena(t, log + [drawn])
  {
    assert Holds(nodes, path[0]);
    assert seq(1, k requires 0 <= k < 1 => [drawn][k].node) == [drawn.node];
    TipPainted(nodes, t, path, log, [drawn]);
    LogKept(nodes, t, log);
  }

  /** Tidying the group at the end of the path. */
  lemma TidyGroup(nodes: seq<Node>, path: seq<nat>, g: nat, low: seq<nat>, log: seq<Drawn>, named: bool)
    requires Filling(nodes, path, low, log)
    requires g < |nodes| && nodes[g].kind.Group? && LastChild(nodes, Last(path), g)
    ensures Filling(Tidied(nodes, g, named), path, low, log)
  {
    var t := Tidied(nodes, g, named);
    assert Holds(nodes, Last(path));
    TidyKeeps(nodes, Last(path), g, named);
    TidyPath(nodes, path, g, named);
    TidyLayers(nodes, g, named);
    TipChanged(nodes, t, path, low, log);
  }

  lemma TidyLayers(nodes: seq<Node>, g: nat, named: bool)
    ensures |Tidied(nodes, g, named)| == |nodes|
    ensures KeepsLayers(Tidied(nodes, g, named), nodes) && KeepsLayers(nodes, Tidied(nodes, g, named))
  {}

  /** Setting or dropping the clip of a group. */
  lemma Reclip(nodes: seq<Node>, g: nat, node: Node, path: seq<nat>, low: seq<nat>, log: seq<Drawn>)
    requires Filling(nodes, path, low, log) && g < |nodes| && nodes[g].kind.Group?
    requires node.kind.Group? && node == nodes[g].(kind := node.kind, name := node.name)
    ensures Filling(Put(nodes, g, node), path, low, log)
  {
    var t := Put(nodes, g, node);
    RegroupTree(nodes, g, node);
    AlikePath(nodes, t, path);
    AlikePath(nodes, t, low);
    forall layer: nat | IsLayer(t, layer)
      ensures Leaves(t, layer) == DrawnIn(log, layer)
    {
      assert IsLayer(nodes, layer);
      SameLeaves(nodes, t, layer);
    }
  }

  /** A new layer, empty. */
  lemma AddLayer(nodes: seq<Node>, node: Node, log: seq<Drawn>)
    requires Tree(nodes) && Painted(nodes, log) && LogInArena(nodes, log)
    requires node.kind.Layer? && node.children == [] && !node.removed && node.parent.None?
    ensures var t := nodes + [node];
            Tree(t) && Painted(t, log) && LogInArena(t, log) && Descends(t, [|nodes|])
  {
    var t := nodes + [node];
    LayerTree(nodes, node);
    forall layer: nat | IsLayer(t, layer)
      ensures Leaves(t, layer) == DrawnIn(log, layer)
    {
      if layer < |nodes| {
        assert IsLayer(nodes, layer);
        SameLeaves(nodes, t, layer);
      } else {
        NothingDrawn(log, layer);
      }
    }
  }

  lemma {:induction false} NothingDrawn(log: seq<Drawn>, layer: nat)
    requires forall k :: 0 <= k < |log| ==> log[k].layer != layer
    ensures DrawnIn(log, layer) == []
  {
    if log != [] {
      NothingDrawn(log[..|log| - 1], layer);
    }
  }

  lemma PathInLonger(nodes: seq<Node>, t: seq<Node>, path: seq<nat>)
    requires Descends(nodes, path) && |nodes| <= |t| && forall i :: 0 <= i < |nodes| ==> t[i] == nodes[i]
    ensures Descends(t, path)
  {
    forall j | 0 <= j < |path|
      ensures Alike(nodes, t, path[j])
    {
      assert Holds(nodes, path[j]);
    }
    AlikePath(nodes, t, path);
  }
}
