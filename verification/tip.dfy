/**
 What happens at the tip of a path: a node is added, or the group at the tip is
 tidied away. The tree stays a tree and what is drawn keeps its order.
 */
module Tips {
  import opened Common
  import opened Arenas

  function Last<T>(list: seq<T>): T
    requires list != []
  {
    list[|list| - 1]
  }

  lemma PathPrefix(nodes: seq<Node>, path: seq<nat>, k: nat)
    requires Descends(nodes, path) && k <= |path|
    ensures Descends(nodes, path[..k])
  {
    forall j | 0 <= j < k - 1
      ensures LastChild(nodes, path[..k][j], path[..k][j + 1])
    {
      assert LastChild(nodes, path[j], path[j + 1]);
    }
  }

  // ---------------------------------------------------------------- adding

  lemma AppendOutside(nodes: seq<Node>, node: Node, tip: nat)
    ensures AlikeOutside(nodes, Append(nodes, node, tip), tip)
  {
    forall i: nat | i < |nodes| && !Under(nodes, i, tip)
      ensures Alike(nodes, Append(nodes, node, tip), i)
    {
      assert Under(nodes, tip, tip);
    }
  }

  lemma AppendLeaves(nodes: seq<Node>, node: Node, tip: nat)
    requires Tree(nodes) && Holds(nodes, tip) && node.children == [] && !node.removed
    ensures var t := Append(nodes, node, tip);
            Leaves(t, tip) == Leaves(nodes, tip) + if node.kind.Leaf? then [|nodes|] else []
  {
    var t := Append(nodes, node, tip);
    var list := nodes[tip].children;
    assert NodeOk(nodes, tip);
    forall k | 0 <= k < |list|
      ensures AlikeUnder(nodes, t, list[k])
    {
      forall i: nat | i < |nodes| && Under(nodes, i, list[k])
        ensures Alike(nodes, t, i)
      {
        UnderIsLater(nodes, i, list[k]);
      }
    }
    SameLeavesOf(nodes, t, tip, list);
    assert t[tip].children == list + [|nodes|] && (list + [|nodes|])[..|list|] == list;
    assert t[|nodes|] == node.(parent := Some(tip));
    assert Leaves(t, |nodes|) == if node.kind.Leaf? then [|nodes|] else [];
  }

  /** What changes at the tip of a path leaves it a path. */
  lemma PathAbove(nodes: seq<Node>, t: seq<Node>, path: seq<nat>)
    requires Tree(nodes) && Descends(nodes, path) && path != []
    requires AlikeOutside(nodes, t, Last(path)) && Holds(t, Last(path)) && Last(path) < |nodes|
    requires t[Last(path)].kind.Layer? == nodes[Last(path)].kind.Layer?
    ensures Descends(t, path)
  {
    var front := path[..|path| - 1];
    forall j | 0 <= j < |front|
      ensures Alike(nodes, t, path[j])
    {
      PathIsUnder(nodes, path, j, |path| - 1);
      if Under(nodes, path[j], Last(path)) { UnderIsLater(nodes, path[j], Last(path)); }
    }
    forall j | 0 <= j < |front|
      ensures LastChild(t, path[j], path[j + 1])
    {
      assert LastChild(nodes, path[j], path[j + 1]) && Alike(nodes, t, path[j]);
    }
    forall j | 0 <= j < |path|
      ensures Holds(t, path[j])
    {
      assert Holds(nodes, path[j]);
    }
  }

  lemma AppendPath(nodes: seq<Node>, node: Node, path: seq<nat>)
    requires Tree(nodes) && Descends(nodes, path) && path != []
    ensures Descends(Append(nodes, node, Last(path)), path)
    ensures !node.removed && !node.kind.Leaf? ==> Descends(Append(nodes, node, Last(path)), path + [|nodes|])
  {
    var t := Append(nodes, node, Last(path));
    assert Holds(nodes, Last(path));
    AppendOutside(nodes, node, Last(path));
    PathAbove(nodes, t, path);
    if !node.removed && !node.kind.Leaf? {
      assert LastChild(t, Last(path), |nodes|);
      PathLonger(t, path, |nodes|);
    }
  }

  lemma PathLonger(nodes: seq<Node>, path: seq<nat>, c: nat)
    requires Descends(nodes, path) && path != [] && LastChild(nodes, Last(path), c) && Holds(nodes, c)
    ensures Descends(nodes, path + [c])
  {
    var more := path + [c];
    forall j | 0 <= j < |more| - 1
      ensures LastChild(nodes, more[j], more[j + 1])
    {
      assert j < |path| - 1 ==> LastChild(nodes, path[j], path[j + 1]);
    }
  }

  /** A path from another layer. */
  lemma OtherPath(nodes: seq<Node>, t: seq<Node>, path: seq<nat>, low: seq<nat>)
    requires Tree(nodes) && Descends(nodes, path) && path != [] && Descends(nodes, low)
    requires AlikeOutside(nodes, t, Last(path)) && (low != [] ==> low[0] != path[0])
    ensures Descends(t, low)
  {
    if low != [] {
      PathIsUnder(nodes, path, 0, |path| - 1);
      forall j | 0 <= j < |low|
        ensures Alike(nodes, t, low[j])
      {
        PathIsUnder(nodes, low, 0, j);
        if Under(nodes, low[j], Last(path)) {
          UnderTrans(nodes, low[j], Last(path), path[0]);
          assert NodeOk(nodes, low[0]) && NodeOk(nodes, path[0]);
          LayersApart(nodes, low[j], low[0], path[0]);
        }
      }
      AlikePath(nodes, t, low);
    }
  }

  lemma AlikePath(nodes: seq<Node>, t: seq<Node>, path: seq<nat>)
    requires Descends(nodes, path) && forall j :: 0 <= j < |path| ==> Alike(nodes, t, path[j])
    ensures Descends(t, path)
  {
    forall j | 0 <= j < |path| - 1
      ensures LastChild(t, path[j], path[j + 1])
    {
      assert LastChild(nodes, path[j], path[j + 1]) && Alike(nodes, t, path[j]);
    }
  }

  // ---------------------------------------------------------------- tidying

  lemma {:induction false} WithoutAbsent(list: seq<nat>, x: nat)
    requires x !in list
    ensures Without(list, x) == list
  {
    if list != [] {
      WithoutAbsent(list[..|list| - 1], x);
      assert list[|list| - 1] in list;
    }
  }

  lemma WithoutLast(list: seq<nat>)
    requires Increasing(list) && list != []
    ensures Without(list, Last(list)) == list[..|list| - 1]
  {
    WithoutAbsent(list[..|list| - 1], Last(list));
  }

  lemma {:induction false} ReplacedLast(list: seq<nat>, y: nat)
    requires Increasing(list) && list != []
    ensures Replaced(list, Last(list), y) == list[..|list| - 1] + [y]
  {
    if |list| > 1 {
      assert Last(list[1..]) == Last(list) && list[0] < Last(list);
      ReplacedLast(list[1..], y);
      assert list[..|list| - 1] == [list[0]] + list[1..][..|list| - 2];
    }
  }

  /** A group's clip and name matter neither to the tree nor to its leaves. */
  lemma RegroupTree(nodes: seq<Node>, g: nat, node: Node)
    requires Tree(nodes) && g < |nodes| && nodes[g].kind.Group? && node.kind.Group?
    requires node == nodes[g].(kind := node.kind, name := node.name)
    ensures Tree(Put(nodes, g, node))
    ensures forall i: nat :: i < |nodes| ==> Alike(nodes, Put(nodes, g, node), i)
  {
    var t := Put(nodes, g, node);
    forall i: nat | i < |t|
      ensures NodeOk(t, i)
    {
      assert NodeOk(nodes, i);
    }
  }

  /** The group at the end of the path `path + [g]` being taken out. */
  lemma DetachTree(nodes: seq<Node>, p: nat, g: nat)
    requires Tree(nodes) && LastChild(nodes, p, g) && nodes[g].children == []
    ensures var t := Detach(nodes, g);
            && |t| == |nodes| && Tree(t) && t[p] == nodes[p].(children := nodes[p].children[..|nodes[p].children| - 1])
            && t[g] == nodes[g].(removed := true)
            && forall i: nat :: i < |nodes| && i != p && i != g ==> t[i] == nodes[i]
  {
    LastChildIsChild(nodes, p, g);
    assert NodeOk(nodes, p) && NodeOk(nodes, g);
    WithoutLast(nodes[p].children);
    var t := Detach(nodes, g);
    forall i: nat | i < |t|
      ensures NodeOk(t, i)
    {
      DetachNode(nodes, t, p, g, i);
    }
  }

  lemma DetachNode(nodes: seq<Node>, t: seq<Node>, p: nat, g: nat, i: nat)
    requires Tree(nodes) && LastChild(nodes, p, g) && ChildOf(nodes, p, g) && nodes[g].children == [] && i < |nodes|
    requires |t| == |nodes| && t[p] == nodes[p].(children := nodes[p].children[..|nodes[p].children| - 1])
    requires t[g] == nodes[g].(removed := true)
    requires forall i: nat :: i < |nodes| && i != p && i != g ==> t[i] == nodes[i]
    ensures NodeOk(t, i)
  {
    assert NodeOk(nodes, i) && NodeOk(nodes, g);
    forall k | 0 <= k < |t[i].children|
      ensures ChildOf(t, i, t[i].children[k])
    {
      assert ChildOf(nodes, i, nodes[i].children[k]);
      assert i == p ==> nodes[p].children[k] < g;
    }
    if i != g && nodes[i].parent.Some? && !nodes[i].removed && nodes[i].parent.value == p {
      var k :| 0 <= k < |nodes[p].children| && nodes[p].children[k] == i;
      assert t[p].children[k] == i;
    }
  }

  lemma HoistTree(nodes: seq<Node>, p: nat, g: nat, c: nat)
    requires Tree(nodes) && LastChild(nodes, p, g) && nodes[g].children == [c]
    ensures var t := Hoist(nodes, g, c, p);
            && |t| == |nodes| && Tree(t)
            && t[p] == nodes[p].(children := nodes[p].children[..|nodes[p].children| - 1] + [c])
            && p < g < c < |nodes| && t[g] == nodes[g].(children := [], removed := true) && t[c] == nodes[c].(parent := Some(p))
            && forall i: nat :: i < |nodes| && i != p && i != g && i != c ==> t[i] == nodes[i]
  {
    LastChildIsChild(nodes, p, g);
    assert NodeOk(nodes, p) && NodeOk(nodes, g);
    assert ChildOf(nodes, g, nodes[g].children[0]);
    ReplacedLast(nodes[p].children, c);
    var t := Hoist(nodes, g, c, p);
    forall i: nat | i < |t|
      ensures NodeOk(t, i)
    {
      HoistNode(nodes, t, p, g, c, i);
    }
  }

  lemma HoistNode(nodes: seq<Node>, t: seq<Node>, p: nat, g: nat, c: nat, i: nat)
    requires Tree(nodes) && LastChild(nodes, p, g) && ChildOf(nodes, p, g) && nodes[g].children == [c] && ChildOf(nodes, g, c)
    requires i < |nodes| && |t| == |nodes|
    requires t[p] == nodes[p].(children := nodes[p].children[..|nodes[p].children| - 1] + [c])
    requires t[g] == nodes[g].(children := [], removed := true) && t[c] == nodes[c].(parent := Some(p))
    requires forall i: nat :: i < |nodes| && i != p && i != g && i != c ==> t[i] == nodes[i]
    ensures NodeOk(t, i)
  {
    assert NodeOk(nodes, i) && NodeOk(nodes, g) && NodeOk(nodes, c) && NodeOk(nodes, p);
    var n := |nodes[p].children| - 1;
    assert t[p].children[n] == c;
    forall k | 0 <= k < |t[i].children|
      ensures ChildOf(t, i, t[i].children[k])
    {
      assert !(i == p && k == n) ==> ChildOf(nodes, i, nodes[i].children[k]);
      assert i == p && k < n ==> nodes[p].children[k] < g;
    }
    if i != c && i != g && nodes[i].parent.Some? && !nodes[i].removed && nodes[i].parent.value == p {
      var k :| 0 <= k < |nodes[p].children| && nodes[p].children[k] == i;
      assert t[p].children[k] == i;
    }
  }

  /** Only the tip's children and what it holds may differ. */
  lemma ChangedUnderTip(nodes: seq<Node>, t: seq<Node>, p: nat, g: nat)
    requires Tree(nodes) && ChildOf(nodes, p, g) && |t| == |nodes|
    requires forall i: nat :: i < |nodes| && i != p && i != g ==> Alike(nodes, t, i)
    ensures AlikeOutside(nodes, t, p)
  {
    assert Under(nodes, p, p) && Under(nodes, g, p);
    forall i: nat | i < |nodes| && !Under(nodes, i, p)
      ensures Alike(nodes, t, i)
    {}
  }

  /** The tip's other children, with the last one changed or gone. */
  lemma FrontLeaves(nodes: seq<Node>, t: seq<Node>, p: nat, g: nat)
    requires Tree(nodes) && LastChild(nodes, p, g) && ChildOf(nodes, p, g) && |t| == |nodes|
    requires forall i: nat :: i < |nodes| && i != p && i != g ==> Alike(nodes, t, i)
    ensures var front := nodes[p].children[..|nodes[p].children| - 1];
            LeavesOf(t, p, front) == LeavesOf(nodes, p, front)
  {
    var front := nodes[p].children[..|nodes[p].children| - 1];
    assert NodeOk(nodes, p);
    forall k | 0 <= k < |front|
      ensures p < front[k] < |nodes| && AlikeUnder(nodes, t, front[k])
    {
      var d := front[k];
      assert d == nodes[p].children[k] && ChildOf(nodes, p, d);
      forall i: nat | i < |nodes| && Under(nodes, i, d)
        ensures Alike(nodes, t, i)
      {
        UnderIsLater(nodes, i, d);
        if i == g { SiblingsApart(nodes, g, p, d, g); }
      }
    }
    SameLeavesOf(nodes, t, p, front);
  }

  lemma DetachLeaves(nodes: seq<Node>, p: nat, g: nat)
    requires Tree(nodes) && Holds(nodes, p) && LastChild(nodes, p, g) && nodes[g].children == [] && !nodes[g].kind.Leaf?
    ensures var t := Detach(nodes, g);
            AlikeOutside(nodes, t, p) && Leaves(t, p) == Leaves(nodes, p)
  {
    DetachTree(nodes, p, g);
    LastChildIsChild(nodes, p, g);
    var t := Detach(nodes, g);
    ChangedUnderTip(nodes, t, p, g);
    FrontLeaves(nodes, t, p, g);
    assert Leaves(nodes, g) == [];
  }

  lemma HoistLeaves(nodes: seq<Node>, p: nat, g: nat, c: nat)
    requires Tree(nodes) && Holds(nodes, p) && LastChild(nodes, p, g) && nodes[g].children == [c] && !nodes[g].kind.Leaf?
    ensures var t := Hoist(nodes, g, c, p);
            AlikeOutside(nodes, t, p) && Leaves(t, p) == Leaves(nodes, p)
  {
    HoistTree(nodes, p, g, c);
    LastChildIsChild(nodes, p, g);
    var t := Hoist(nodes, g, c, p);
    ChangedUnderTip(nodes, t, p, g);
    FrontLeaves(nodes, t, p, g);
    HoistedChild(nodes, t, p, g, c);
    var n := |nodes[p].children| - 1;
    assert (nodes[p].children[..n] + [c])[..n] == nodes[p].children[..n];
  }

  lemma HoistedChild(nodes: seq<Node>, t: seq<Node>, p: nat, g: nat, c: nat)
    requires Tree(nodes) && |t| == |nodes| && p < g < c < |nodes| && nodes[g].children == [c] && !nodes[g].kind.Leaf? && !nodes[g].removed
    requires forall i: nat :: i < |nodes| && i != p && i != g ==> Alike(nodes, t, i)
    ensures Leaves(t, c) == Leaves(nodes, c) == Leaves(nodes, g)
  {
    forall i: nat | i < |nodes| && Under(nodes, i, c)
      ensures Alike(nodes, t, i)
    {
      UnderIsLater(nodes, i, c);
    }
    SameLeaves(nodes, t, c);
    assert [c][..0] == [];
    assert LeavesOf(nodes, g, [c]) == LeavesOf(nodes, g, []) + Leaves(nodes, c);
  }

  /** Tidying the group that ends a path: the tree stays one, and the tip above
      keeps its leaves in their order. */
  lemma TidyKeeps(nodes: seq<Node>, p: nat, g: nat, named: bool)
    requires Tree(nodes) && Holds(nodes, p) && LastChild(nodes, p, g) && nodes[g].kind.Group?
    ensures var t := Tidied(nodes, g, named);
            Tree(t) && |t| == |nodes| && AlikeOutside(nodes, t, p) && Leaves(t, p) == Leaves(nodes, p)
            && Holds(t, p) && t[p].kind == nodes[p].kind
  {
    LastChildIsChild(nodes, p, g);
    var children := nodes[g].children;
    if children == [] && !named {
      DetachTree(nodes, p, g);
      DetachLeaves(nodes, p, g);
    } else if !named {
      var a := if ClipsNothing(nodes, g) then Put(nodes, g, Unclipped(At(nodes, g))) else nodes;
      UnclipKeeps(nodes, a, p, g);
      if Trivial(a[g]) && |children| == 1 {
        assert children == [children[0]];
        HoistTree(a, p, g, children[0]);
        HoistLeaves(a, p, g, children[0]);
        OutsideTwice(nodes, a, Hoist(a, g, children[0], p), p);
      }
    }
  }

  lemma UnclipKeeps(nodes: seq<Node>, a: seq<Node>, p: nat, g: nat)
    requires Tree(nodes) && Holds(nodes, p) && LastChild(nodes, p, g) && ChildOf(nodes, p, g) && nodes[g].kind.Group?
    requires a == nodes || a == Put(nodes, g, Unclipped(At(nodes, g)))
    ensures Tree(a) && |a| == |nodes| && Holds(a, p) && a[p] == nodes[p] && LastChild(a, p, g) && ChildOf(a, p, g)
    ensures a[g].kind.Group? && a[g].children == nodes[g].children && !a[g].removed && a[g].parent == Some(p)
    ensures forall i: nat :: i < |nodes| ==> Alike(nodes, a, i) && a[i].parent == nodes[i].parent
    ensures Leaves(a, p) == Leaves(nodes, p)
  {
    if a != nodes {
      RegroupTree(nodes, g, Unclipped(nodes[g]));
    }
    SameLeaves(nodes, a, p);
  }

  lemma {:induction false} SameUnder(nodes: seq<Node>, a: seq<Node>, i: nat, x: nat)
    requires |a| >= |nodes| && i < |nodes| && forall j: nat :: j < |nodes| ==> a[j].parent == nodes[j].parent
    ensures Under(a, i, x) <==> Under(nodes, i, x)
    decreases i
  {
    if nodes[i].parent.Some? && nodes[i].parent.value < i {
      SameUnder(nodes, a, nodes[i].parent.value, x);
    }
  }

  lemma OutsideTwice(nodes: seq<Node>, a: seq<Node>, t: seq<Node>, p: nat)
    requires |a| == |nodes| && forall i: nat :: i < |nodes| ==> Alike(nodes, a, i) && a[i].parent == nodes[i].parent
    requires AlikeOutside(a, t, p)
    ensures AlikeOutside(nodes, t, p)
  {
    forall i: nat | i < |nodes| && !Under(nodes, i, p)
      ensures Alike(nodes, t, i)
    {
      SameUnder(nodes, a, i, p);
      assert Alike(nodes, a, i) && Alike(a, t, i);
    }
  }

  /** After tidying, the path above is a path still. */
  lemma TidyPath(nodes: seq<Node>, path: seq<nat>, g: nat, named: bool)
    requires Tree(nodes) && g < |nodes| && nodes[g].kind.Group?
    requires Descends(nodes, path) && path != [] && LastChild(nodes, Last(path), g)
    ensures Descends(Tidied(nodes, g, named), path)
  {
    assert Holds(nodes, Last(path));
    TidyKeeps(nodes, Last(path), g, named);
    PathAbove(nodes, Tidied(nodes, g, named), path);
  }
}
