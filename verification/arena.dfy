/**
 The arena a page is read into: nodes refer to one another by index, parents to
 children and children to parents. Content is added and tidied only at the tip
 of a path that always takes the last child.
 */
module Arenas {
  import opened Common

  datatype Rect = Rect(x0: real, y0: real, x1: real, y1: real) {
    predicate IsEmpty() { !(x1 - x0 > 0.0 && y1 - y0 > 0.0) }
    predicate Contains(o: Rect) { o.x0 >= x0 && o.y0 >= y0 && o.x1 <= x1 && o.y1 <= y1 }
    function Union(o: Rect): Rect { Rect(Min(x0, o.x0), Min(y0, o.y0), Max(x1, o.x1), Max(y1, o.y1)) }
    function Intersect(o: Rect): Rect { Rect(Max(x0, o.x0), Max(y0, o.y0), Min(x1, o.x1), Min(y1, o.y1)) }
    function Outset(d: real): Rect { Rect(x0 - d, y0 - d, x1 + d, y1 + d) }
  }

  function Min(a: real, b: real): real { if a <= b then a else b }

  function Max(a: real, b: real): real { if a <= b then b else a }

  datatype Clip = Clip(path: nat, evenOdd: bool, bounds: Option<Rect>)

  datatype Kind = Layer | Group(clip: Option<Clip>, isolated: bool, knockout: bool) | Leaf(content: nat, bounds: Option<Rect>)

  datatype Node = Node(
    kind: Kind,
    parent: Option<nat>,
    children: seq<nat>,
    name: string,
    hidden: bool,
    opacity: real,
    blend: nat,
    removed: bool)

  function NewNode(kind: Kind): Node {
    Node(kind, None, [], "", false, 1.0, 0, false)
  }

  /** The node at an index; the arenas built here are never asked past their
      end. */
  function At(nodes: seq<Node>, i: nat): Node {
    if i < |nodes| then nodes[i] else NewNode(Layer)
  }

  function Put(nodes: seq<Node>, i: nat, node: Node): (r: seq<Node>)
    ensures |r| == |nodes|
    ensures forall j :: 0 <= j < |nodes| ==> r[j] == if j == i then node else nodes[j]
  {
    if i < |nodes| then nodes[i := node] else nodes
  }

  // ------------------------------------------------------------ operations

  /** Adds a node as the last child of `parent`; its index is the old length. */
  function Append(nodes: seq<Node>, node: Node, parent: nat): (r: seq<Node>)
    ensures |r| == |nodes| + 1
  {
    var at := At(nodes, parent);
    Put(nodes, parent, at.(children := at.children + [|nodes|])) + [node.(parent := Some(parent))]
  }

  function Without(list: seq<nat>, x: nat): seq<nat> {
    if list == [] then []
    else Without(list[..|list| - 1], x) + if list[|list| - 1] == x then [] else [list[|list| - 1]]
  }

  /** Replaces the first occurrence. */
  function Replaced(list: seq<nat>, x: nat, y: nat): seq<nat> {
    if list == [] then []
    else if list[0] == x then [y] + list[1..]
    else [list[0]] + Replaced(list[1..], x, y)
  }

  lemma {:induction false} ReplacedAt(list: seq<nat>, k: nat, x: nat, y: nat)
    requires k < |list| && list[k] == x && forall j :: 0 <= j < k ==> list[j] != x
    ensures Replaced(list, x, y) == list[k := y]
  {
    if k > 0 {
      ReplacedAt(list[1..], k - 1, x, y);
      assert list[k := y] == [list[0]] + list[1..][k - 1 := y];
    } else {
      assert list[0 := y] == [y] + list[1..];
    }
  }

  lemma {:induction false} ReplacedNone(list: seq<nat>, x: nat, y: nat)
    requires forall j :: 0 <= j < |list| ==> list[j] != x
    ensures Replaced(list, x, y) == list
  {
    if list != [] {
      ReplacedNone(list[1..], x, y);
    }
  }

  /** The node is in no list of children any more but keeps its index, removed. */
  function Detach(nodes: seq<Node>, i: nat): seq<Node> {
    var parent := At(nodes, i).parent;
    var out := if parent.None? then nodes
               else Put(nodes, parent.value, At(nodes, parent.value).(children := Without(At(nodes, parent.value).children, i)));
    Put(out, i, At(out, i).(removed := true))
  }

  /** Puts the only child of a group where the group was. */
  function Hoist(nodes: seq<Node>, g: nat, child: nat, parent: nat): seq<Node> {
    var a := Put(nodes, parent, At(nodes, parent).(children := Replaced(At(nodes, parent).children, g, child)));
    var b := Put(a, child, At(a, child).(parent := Some(parent)));
    Put(b, g, At(b, g).(children := [], removed := true))
  }

  /** A node's bounds, those of its live content for a container. Children come
      after their parents in the arena, which is why this ends. */
  function NodeBounds(nodes: seq<Node>, i: nat): Option<Rect>
    decreases if i < |nodes| then |nodes| - i else 0, 1, 0
  {
    if i >= |nodes| || nodes[i].removed then None
    else match nodes[i].kind
      case Leaf(_, bounds) => bounds
      case Layer => BoundsOf(nodes, i, nodes[i].children)
      case Group(clip, _, _) =>
        var inner := BoundsOf(nodes, i, nodes[i].children);
        if inner.None? || clip.None? then inner
        else if clip.value.bounds.None? then None
        else
          var r := clip.value.bounds.value.Intersect(inner.value);
          if r.IsEmpty() then None else Some(r)
  }

  function BoundsOf(nodes: seq<Node>, parent: nat, list: seq<nat>): Option<Rect>
    requires parent < |nodes|
    decreases |nodes| - parent, 0, |list|
  {
    if list == [] then None
    else
      var rest := BoundsOf(nodes, parent, list[..|list| - 1]);
      var last := if parent < list[|list| - 1] then NodeBounds(nodes, list[|list| - 1]) else None;
      if rest.Some? && last.Some? then Some(rest.value.Union(last.value))
      else if rest.Some? then rest else last
  }

  /** The box clip of a form's group clips nothing: its content is inside it. */
  predicate ClipsNothing(nodes: seq<Node>, g: nat) {
    g < |nodes| && nodes[g].kind.Group? && nodes[g].kind.clip.Some? &&
    var content := BoundsOf(nodes, g, nodes[g].children);
    var box := nodes[g].kind.clip.value.bounds;
    content.Some? && box.Some? && box.value.Outset(0.5).Contains(content.value)
  }

  predicate Trivial(node: Node) {
    node.kind == Group(None, false, false) && node.opacity >= 1.0 && node.blend == 0
  }

  function Unclipped(node: Node): Node {
    if node.kind.Group? then node.(kind := node.kind.(clip := None)) else node
  }

  /** What becomes of the group a form was drawn into. A named one stays; another
      is detached if nothing is in it, and otherwise loses a clip all its content
      is inside of and gives way to an only child when nothing else is left of it. */
  function Tidied(nodes: seq<Node>, g: nat, named: bool): seq<Node> {
    var children := At(nodes, g).children;
    var parent := At(nodes, g).parent;
    if children == [] && !named then Detach(nodes, g)
    else if named then nodes
    else
      var a := if ClipsNothing(nodes, g) then Put(nodes, g, Unclipped(At(nodes, g))) else nodes;
      if Trivial(At(a, g)) && |children| == 1 && parent.Some? then Hoist(a, g, children[0], parent.value) else a
  }

  // ------------------------------------------------------------------ tree

  ghost predicate ChildOf(nodes: seq<Node>, parent: nat, child: nat) {
    parent < child < |nodes| && nodes[child].parent == Some(parent) && !nodes[child].removed
  }

  ghost predicate Increasing(list: seq<nat>) {
    forall j, k :: 0 <= j < k < |list| ==> list[j] < list[k]
  }

  /** Links go both ways between a node and its children, and children come
      later in the arena; layers, and only layers, have no parent. */
  ghost predicate NodeOk(nodes: seq<Node>, i: nat)
    requires i < |nodes|
  {
    var node := nodes[i];
    && (forall k :: 0 <= k < |node.children| ==> ChildOf(nodes, i, node.children[k]))
    && Increasing(node.children)
    && (node.parent.Some? ==> node.parent.value < i)
    && (node.parent.Some? && !node.removed ==> i in nodes[node.parent.value].children)
    && (node.removed || node.kind.Leaf? ==> node.children == [])
    && (node.kind.Layer? <==> node.parent.None?)
    && (node.kind.Layer? ==> !node.removed)
  }

  ghost predicate Tree(nodes: seq<Node>) {
    forall i: nat :: i < |nodes| ==> NodeOk(nodes, i)
  }

  /** A live node that can hold others. */
  ghost predicate Holds(nodes: seq<Node>, i: nat) {
    i < |nodes| && !nodes[i].removed && !nodes[i].kind.Leaf?
  }

  lemma AppendTree(nodes: seq<Node>, node: Node, parent: nat)
    requires Tree(nodes) && Holds(nodes, parent)
    requires node.children == [] && !node.removed && !node.kind.Layer?
    ensures Tree(Append(nodes, node, parent))
  {
    var t := Append(nodes, node, parent);
    forall i: nat | i < |t|
      ensures NodeOk(t, i)
    {
      assert i < |nodes| ==> NodeOk(nodes, i);
      assert NodeOk(nodes, parent);
      if i == |nodes| {
        assert t[parent].children[|nodes[parent].children|] == |nodes|;
      } else if i != parent {
        assert t[i] == nodes[i];
        assert nodes[i].parent == Some(parent) && !nodes[i].removed ==> i in t[parent].children;
      }
    }
  }

  /** A layer added to the arena, outside every other. */
  lemma LayerTree(nodes: seq<Node>, node: Node)
    requires Tree(nodes) && node.children == [] && !node.removed && node.kind.Layer? && node.parent.None?
    ensures Tree(nodes + [node])
  {
    var t := nodes + [node];
    forall i: nat | i < |t|
      ensures NodeOk(t, i)
    {
      if i < |nodes| {
        assert NodeOk(nodes, i);
      }
    }
  }

  // ------------------------------------------------------- paths and roots

  /** Whether `a` is `i` or holds it. */
  ghost predicate Under(nodes: seq<Node>, i: nat, a: nat)
    decreases i
  {
    i == a || (i < |nodes| && nodes[i].parent.Some? && nodes[i].parent.value < i && Under(nodes, nodes[i].parent.value, a))
  }

  lemma {:induction false} UnderIsLater(nodes: seq<Node>, i: nat, a: nat)
    requires Under(nodes, i, a)
    ensures a <= i
    decreases i
  {
    if i != a { UnderIsLater(nodes, nodes[i].parent.value, a); }
  }

  lemma {:induction false} UnderParent(nodes: seq<Node>, i: nat, a: nat, p: nat)
    requires Under(nodes, i, a) && a < |nodes| && nodes[a].parent == Some(p) && p < a
    ensures Under(nodes, i, p)
    decreases i
  {
    if i == a {
      assert Under(nodes, p, p);
    } else {
      UnderParent(nodes, nodes[i].parent.value, a, p);
    }
  }

  /** No node is under two children of one parent. */
  lemma {:induction false} SiblingsApart(nodes: seq<Node>, i: nat, p: nat, c: nat, d: nat)
    requires ChildOf(nodes, p, c) && ChildOf(nodes, p, d) && c != d
    requires Under(nodes, i, c)
    ensures !Under(nodes, i, d)
    decreases i
  {
    if Under(nodes, i, d) {
      if i == c {
        UnderIsLater(nodes, p, d);
      } else if i == d {
        UnderIsLater(nodes, p, c);
      } else {
        SiblingsApart(nodes, nodes[i].parent.value, p, c, d);
      }
    }
  }

  /** No node is under two layers. */
  lemma {:induction false} LayersApart(nodes: seq<Node>, i: nat, a: nat, b: nat)
    requires a < |nodes| && b < |nodes| && nodes[a].parent.None? && nodes[b].parent.None? && a != b
    requires Under(nodes, i, a)
    ensures !Under(nodes, i, b)
    decreases i
  {
    if i != a && Under(nodes, i, b) {
      LayersApart(nodes, nodes[i].parent.value, a, b);
    }
  }

  /** A path from a layer down, always to the last child. */
  ghost predicate Descends(nodes: seq<Node>, path: seq<nat>) {
    && (forall j :: 0 <= j < |path| ==> Holds(nodes, path[j]))
    && (path != [] ==> nodes[path[0]].kind.Layer?)
    && (forall j :: 0 <= j < |path| - 1 ==> LastChild(nodes, path[j], path[j + 1]))
  }

  ghost predicate LastChild(nodes: seq<Node>, p: nat, c: nat) {
    p < |nodes| && c < |nodes| && nodes[p].children != [] && nodes[p].children[|nodes[p].children| - 1] == c
  }

  lemma LastChildIsChild(nodes: seq<Node>, p: nat, c: nat)
    requires Tree(nodes) && LastChild(nodes, p, c)
    ensures ChildOf(nodes, p, c)
  {
    assert NodeOk(nodes, p);
  }

  lemma {:induction false} PathIsUnder(nodes: seq<Node>, path: seq<nat>, i: nat, j: nat)
    requires Tree(nodes) && Descends(nodes, path) && i <= j < |path|
    ensures Under(nodes, path[j], path[i])
    ensures i < j ==> path[i] < path[j]
    decreases j
  {
    if i < j {
      PathIsUnder(nodes, path, i, j - 1);
      LastChildIsChild(nodes, path[j - 1], path[j]);
    }
  }

  // ---------------------------------------------------------------- leaves

  /** The leaves below a node, left to right. */
  ghost function Leaves(nodes: seq<Node>, i: nat): seq<nat>
    decreases if i < |nodes| then |nodes| - i else 0, 1, 0
  {
    if i >= |nodes| || nodes[i].removed then []
    else if nodes[i].kind.Leaf? then [i]
    else LeavesOf(nodes, i, nodes[i].children)
  }

  ghost function LeavesOf(nodes: seq<Node>, parent: nat, list: seq<nat>): seq<nat>
    requires parent < |nodes|
    decreases |nodes| - parent, 0, |list|
  {
    if list == [] then []
    else LeavesOf(nodes, parent, list[..|list| - 1]) +
         if parent < list[|list| - 1] then Leaves(nodes, list[|list| - 1]) else []
  }

  /** What the leaves below a node depend on. */
  ghost predicate Alike(nodes: seq<Node>, t: seq<Node>, i: nat) {
    i < |nodes| && i < |t| &&
    t[i].children == nodes[i].children && t[i].removed == nodes[i].removed &&
    t[i].kind.Leaf? == nodes[i].kind.Leaf? && t[i].kind.Layer? == nodes[i].kind.Layer?
  }

  ghost predicate AlikeUnder(nodes: seq<Node>, t: seq<Node>, a: nat) {
    forall i: nat :: i < |nodes| && Under(nodes, i, a) ==> Alike(nodes, t, i)
  }

  lemma AlikeChild(nodes: seq<Node>, t: seq<Node>, p: nat, c: nat)
    requires AlikeUnder(nodes, t, p) && ChildOf(nodes, p, c)
    ensures AlikeUnder(nodes, t, c)
  {
    forall i: nat | i < |nodes| && Under(nodes, i, c)
      ensures Alike(nodes, t, i)
    {
      UnderParent(nodes, i, c, p);
    }
  }

  lemma {:induction false} SameLeaves(nodes: seq<Node>, t: seq<Node>, i: nat)
    requires Tree(nodes) && i < |nodes| && AlikeUnder(nodes, t, i)
    ensures Leaves(t, i) == Leaves(nodes, i)
    decreases |nodes| - i, 1, 0
  {
    assert Under(nodes, i, i) && Alike(nodes, t, i);
    assert NodeOk(nodes, i);
    if !nodes[i].removed && !nodes[i].kind.Leaf? {
      forall k | 0 <= k < |nodes[i].children|
        ensures AlikeUnder(nodes, t, nodes[i].children[k])
      {
        AlikeChild(nodes, t, i, nodes[i].children[k]);
      }
      SameLeavesOf(nodes, t, i, nodes[i].children);
    }
  }

  lemma {:induction false} SameLeavesOf(nodes: seq<Node>, t: seq<Node>, p: nat, list: seq<nat>)
    requires Tree(nodes) && p < |nodes| && p < |t|
    requires forall k :: 0 <= k < |list| ==> p < list[k] < |nodes| && AlikeUnder(nodes, t, list[k])
    ensures LeavesOf(t, p, list) == LeavesOf(nodes, p, list)
    decreases |nodes| - p, 0, |list|
  {
    if list != [] {
      SameLeavesOf(nodes, t, p, list[..|list| - 1]);
      SameLeaves(nodes, t, list[|list| - 1]);
    }
  }

  /** Everything outside what `tip` holds is as before. */
  ghost predicate AlikeOutside(nodes: seq<Node>, t: seq<Node>, tip: nat) {
    forall i: nat :: i < |nodes| && !Under(nodes, i, tip) ==> Alike(nodes, t, i)
  }

  /** What changes at the tip of a path changes the leaves of everything on the
      path in the same way: at the end. */
  lemma {:induction false} TipLeaves(nodes: seq<Node>, t: seq<Node>, path: seq<nat>, j: nat, more: seq<nat>)
    requires Tree(nodes) && Descends(nodes, path) && j < |path|
    requires AlikeOutside(nodes, t, path[|path| - 1])
    requires Leaves(t, path[|path| - 1]) == Leaves(nodes, path[|path| - 1]) + more
    ensures Leaves(t, path[j]) == Leaves(nodes, path[j]) + more
    decreases |path| - j
  {
    if j < |path| - 1 {
      TipLeaves(nodes, t, path, j + 1, more);
      PathIsUnder(nodes, path, j + 1, |path| - 1);
      assert Holds(nodes, path[j]) && LastChild(nodes, path[j], path[j + 1]);
      TipLeavesUp(nodes, t, path[j], path[j + 1], path[|path| - 1], more);
    }
  }

  lemma TipLeavesUp(nodes: seq<Node>, t: seq<Node>, p: nat, c: nat, tip: nat, more: seq<nat>)
    requires Tree(nodes) && Holds(nodes, p) && LastChild(nodes, p, c) && Under(nodes, tip, c) && AlikeOutside(nodes, t, tip)
    requires Leaves(t, c) == Leaves(nodes, c) + more
    ensures Leaves(t, p) == Leaves(nodes, p) + more
  {
    LastChildIsChild(nodes, p, c);
    UnderIsLater(nodes, tip, c);
    assert Alike(nodes, t, p) by { if Under(nodes, p, tip) { UnderIsLater(nodes, p, tip); } }
    FrontAlike(nodes, t, p, c, tip);
    var front := nodes[p].children[..|nodes[p].children| - 1];
    SameLeavesOf(nodes, t, p, front);
    assert LeavesOf(t, p, nodes[p].children) == LeavesOf(t, p, front) + Leaves(t, c);
    assert LeavesOf(nodes, p, nodes[p].children) == LeavesOf(nodes, p, front) + Leaves(nodes, c);
  }

  lemma FrontAlike(nodes: seq<Node>, t: seq<Node>, p: nat, c: nat, tip: nat)
    requires Tree(nodes) && LastChild(nodes, p, c) && Under(nodes, tip, c) && AlikeOutside(nodes, t, tip)
    ensures forall k :: 0 <= k < |nodes[p].children| - 1 ==>
              p < nodes[p].children[k] < |nodes| && AlikeUnder(nodes, t, nodes[p].children[k])
  {
    assert NodeOk(nodes, p);
    forall k | 0 <= k < |nodes[p].children| - 1
      ensures AlikeUnder(nodes, t, nodes[p].children[k])
    {
      var d := nodes[p].children[k];
      forall i: nat | i < |nodes| && Under(nodes, i, d)
        ensures Alike(nodes, t, i)
      {
        if Under(nodes, i, tip) {
          UnderTrans(nodes, i, tip, c);
          SiblingsApart(nodes, i, p, d, c);
        }
      }
    }
  }

  lemma {:induction false} UnderTrans(nodes: seq<Node>, i: nat, a: nat, b: nat)
    requires Under(nodes, i, a) && Under(nodes, a, b)
    ensures Under(nodes, i, b)
    decreases i
  {
    if i != a {
      UnderTrans(nodes, nodes[i].parent.value, a, b);
    }
  }

  /** What changes at the tip of a path changes no other layer. */
  lemma OtherLayersSame(nodes: seq<Node>, t: seq<Node>, path: seq<nat>, layer: nat)
    requires Tree(nodes) && Descends(nodes, path) && path != []
    requires AlikeOutside(nodes, t, path[|path| - 1])
    requires layer < |nodes| && nodes[layer].kind.Layer? && layer != path[0]
    ensures Leaves(t, layer) == Leaves(nodes, layer)
  {
    var tip := path[|path| - 1];
    PathIsUnder(nodes, path, 0, |path| - 1);
    assert NodeOk(nodes, layer) && NodeOk(nodes, path[0]);
    forall i: nat | i < |nodes| && Under(nodes, i, layer)
      ensures Alike(nodes, t, i)
    {
      if Under(nodes, i, tip) {
        UnderTrans(nodes, i, tip, path[0]);
        LayersApart(nodes, i, layer, path[0]);
      }
    }
    SameLeaves(nodes, t, layer);
  }
}
