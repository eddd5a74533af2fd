/**
 The shared document: an arena of nodes forming a tree of stacks, and the order
 of a stack by position.
 */
module Documents {
  import opened Common
  import opened Positions

  type Id = nat

  datatype NodeKind = Layer(content: nat) | Group(content: nat) | Shape(content: nat)

  datatype Affine = Affine(a: real, b: real, c: real, d: real, e: real, f: real)

  datatype Flag = Created | Geometry | Fill | Stroke | Appearance | Name | Visibility | Parent | Text | Clip | Artboard | Transform

  /** Edit flags; joining two words of flags is set union. */
  type Flags = set<Flag>

  /** The stored file's drawing of a node, and the node it was read as. */
  datatype Source = Source(origin: Id, drawing: nat)

  datatype Node = Node(
    id: Id,
    kind: NodeKind,
    parent: Option<nat>,
    children: seq<nat>,
    name: string,
    hidden: bool,
    locked: bool,
    opacity: real,
    blend: nat,
    transform: Affine,
    artboard: nat,
    source: Option<Source>,
    edits: Flags,
    removed: bool)
  {
    predicate IsContainer() { kind.Layer? || kind.Group? }
  }

  const IDENTITY := Affine(1.0, 0.0, 0.0, 1.0, 0.0, 0.0)

  function NewNode(id: Id, kind: NodeKind): Node {
    Node(id, kind, None, [], "", false, false, 1.0, 0, IDENTITY, 0, None, {Created}, false)
  }

  // ------------------------------------------------------------------ find

  /** The first node with an id. */
  function Find(nodes: seq<Node>, id: Id): (r: Option<nat>)
    ensures r.Some? ==> r.value < |nodes| && nodes[r.value].id == id
    ensures r.Some? ==> forall i :: 0 <= i < r.value ==> nodes[i].id != id
    ensures r.None? ==> forall i :: 0 <= i < |nodes| ==> nodes[i].id != id
  {
    if nodes == [] then None
    else if nodes[0].id == id then Some(0)
    else
      var r := Find(nodes[1..], id);
      if r.Some? then Some(r.value + 1) else None
  }

  ghost predicate UniqueIds(nodes: seq<Node>) {
    forall i, j :: 0 <= i < j < |nodes| ==> nodes[i].id != nodes[j].id
  }

  predicate SameIds(a: seq<Node>, b: seq<Node>) {
    |a| == |b| && forall i {:trigger b[i]} :: 0 <= i < |a| ==> a[i].id == b[i].id
  }

  lemma FindIsUnique(nodes: seq<Node>, i: nat)
    requires UniqueIds(nodes) && i < |nodes|
    ensures Find(nodes, nodes[i].id) == Some(i)
  {}

  lemma FindDependsOnIds(a: seq<Node>, b: seq<Node>, id: Id)
    requires SameIds(a, b)
    ensures Find(a, id) == Find(b, id)
  {
    var (x, y) := (Find(a, id), Find(b, id));
    if x.Some? { assert b[x.value].id == id; }
    if y.Some? { assert a[y.value].id == id; }
  }

  /** A node added at the end is found only when none had its id. */
  lemma FindAfterPush(nodes: seq<Node>, n: Node, id: Id)
    ensures Find(nodes + [n], id) ==
            if Find(nodes, id).Some? then Find(nodes, id)
            else if id == n.id then Some(|nodes|)
            else None
  {
    var (x, y) := (Find(nodes, id), Find(nodes + [n], id));
    if x.Some? { assert (nodes + [n])[x.value].id == id; }
    if id == n.id { assert (nodes + [n])[|nodes|].id == id; }
    if y.Some? && y.value < |nodes| { assert nodes[y.value].id == id; }
  }

  // ---------------------------------------------------------------- stacks

  function KeyOf(positions: map<Id, Key>, id: Id): Key {
    if id in positions then positions[id] else []
  }

  /** The order of a stack: by position, then id, then place in the arena. */
  predicate Before(nodes: seq<Node>, positions: map<Id, Key>, i: nat, j: nat)
    requires i < |nodes| && j < |nodes|
  {
    var (a, b) := (nodes[i].id, nodes[j].id);
    var (p, q) := (KeyOf(positions, a), KeyOf(positions, b));
    Less(p, q) || (p == q && (a < b || (a == b && i < j)))
  }

  predicate Member(n: Node, parent: Option<nat>) {
    n.parent == parent && !n.removed && (parent.Some? || n.kind.Layer?)
  }

  predicate InArena(nodes: seq<Node>, stack: seq<nat>) {
    forall k :: 0 <= k < |stack| ==> stack[k] < |nodes|
  }

  function Insert(nodes: seq<Node>, positions: map<Id, Key>, stack: seq<nat>, i: nat): (r: seq<nat>)
    requires i < |nodes| && InArena(nodes, stack)
    ensures InArena(nodes, r)
    ensures forall j: nat {:trigger j in r} :: j in r <==> j == i || j in stack
  {
    if stack == [] then [i]
    else if Before(nodes, positions, i, stack[0]) then [i] + stack
    else [stack[0]] + Insert(nodes, positions, stack[1..], i)
  }

  /** The members of a parent among the first `k` nodes, in stack order. */
  function StackUpTo(nodes: seq<Node>, positions: map<Id, Key>, parent: Option<nat>, k: nat): (r: seq<nat>)
    requires k <= |nodes|
    ensures InArena(nodes, r)
    ensures forall i: nat {:trigger i in r} :: i in r <==> i < k && Member(nodes[i], parent)
  {
    if k == 0 then []
    else
      var below := StackUpTo(nodes, positions, parent, k - 1);
      if Member(nodes[k - 1], parent) then Insert(nodes, positions, below, k - 1) else below
  }

  function Stack(nodes: seq<Node>, positions: map<Id, Key>, parent: Option<nat>): (r: seq<nat>)
    ensures InArena(nodes, r)
    ensures forall i: nat :: i in r <==> i < |nodes| && Member(nodes[i], parent)
  {
    StackUpTo(nodes, positions, parent, |nodes|)
  }

  ghost predicate Sorted(nodes: seq<Node>, positions: map<Id, Key>, stack: seq<nat>) {
    InArena(nodes, stack) &&
    forall a, b :: 0 <= a < b < |stack| ==> Before(nodes, positions, stack[a], stack[b])
  }

  /** What a stack should be: exactly the live members, in order. */
  ghost predicate IsStack(nodes: seq<Node>, positions: map<Id, Key>, parent: Option<nat>, stack: seq<nat>) {
    Sorted(nodes, positions, stack) && forall i: nat :: i in stack <==> i < |nodes| && Member(nodes[i], parent)
  }

  lemma BeforeIsStrictTotal(nodes: seq<Node>, positions: map<Id, Key>, i: nat, j: nat)
    requires i < |nodes| && j < |nodes|
    ensures i == j ==> !Before(nodes, positions, i, j)
    ensures i != j ==> Before(nodes, positions, i, j) != Before(nodes, positions, j, i)
  {
    var (p, q) := (KeyOf(positions, nodes[i].id), KeyOf(positions, nodes[j].id));
    LessTotal(p, q);
    LessIrreflexive(p);
    if Less(p, q) && Less(q, p) { LessTransitive(p, q, p); }
  }

  lemma BeforeIsTransitive(nodes: seq<Node>, positions: map<Id, Key>, i: nat, j: nat, k: nat)
    requires i < |nodes| && j < |nodes| && k < |nodes|
    requires Before(nodes, positions, i, j) && Before(nodes, positions, j, k)
    ensures Before(nodes, positions, i, k)
  {
    var (p, q, r) := (KeyOf(positions, nodes[i].id), KeyOf(positions, nodes[j].id), KeyOf(positions, nodes[k].id));
    if Less(p, q) && Less(q, r) { LessTransitive(p, q, r); }
  }

  lemma {:induction false} InsertKeepsSorted(nodes: seq<Node>, positions: map<Id, Key>, stack: seq<nat>, i: nat)
    requires i < |nodes| && Sorted(nodes, positions, stack) && i !in stack
    ensures Sorted(nodes, positions, Insert(nodes, positions, stack, i))
  {
    if stack == [] {
    } else if Before(nodes, positions, i, stack[0]) {
      forall b | 0 <= b < |stack|
        ensures Before(nodes, positions, i, stack[b])
      {
        if b > 0 { BeforeIsTransitive(nodes, positions, i, stack[0], stack[b]); }
      }
    } else {
      InsertKeepsSorted(nodes, positions, stack[1..], i);
      BeforeIsStrictTotal(nodes, positions, i, stack[0]);
      var rest := Insert(nodes, positions, stack[1..], i);
      forall b | 0 <= b < |rest|
        ensures Before(nodes, positions, stack[0], rest[b])
      {
        assert rest[b] in rest;
        if rest[b] != i {
          var c :| 0 <= c < |stack[1..]| && stack[1..][c] == rest[b];
          assert stack[c + 1] == rest[b];
        }
      }
    }
  }

  lemma {:induction false} StackUpToIsSorted(nodes: seq<Node>, positions: map<Id, Key>, parent: Option<nat>, k: nat)
    requires k <= |nodes|
    ensures Sorted(nodes, positions, StackUpTo(nodes, positions, parent, k))
  {
    if k > 0 {
      var below := StackUpTo(nodes, positions, parent, k - 1);
      StackUpToIsSorted(nodes, positions, parent, k - 1);
      SortedStep(nodes, positions, parent, below, k - 1);
    }
  }

  lemma {:induction false} SortedStep(nodes: seq<Node>, positions: map<Id, Key>, parent: Option<nat>, below: seq<nat>, i: nat)
    requires i < |nodes| && Sorted(nodes, positions, below) && i !in below && InArena(nodes, below)
    ensures Sorted(nodes, positions, if Member(nodes[i], parent) then Insert(nodes, positions, below, i) else below)
  {
    if Member(nodes[i], parent) {
      InsertKeepsSorted(nodes, positions, below, i);
    }
  }

  lemma StackIsStack(nodes: seq<Node>, positions: map<Id, Key>, parent: Option<nat>)
    ensures IsStack(nodes, positions, parent, Stack(nodes, positions, parent))
  {
    StackUpToIsSorted(nodes, positions, parent, |nodes|);
  }

  /** There is only one way to put a set of nodes in order. */
  lemma {:induction false} SortedIsUnique(nodes: seq<Node>, positions: map<Id, Key>, s: seq<nat>, t: seq<nat>)
    requires Sorted(nodes, positions, s) && Sorted(nodes, positions, t)
    requires forall i: nat :: i in s <==> i in t
    ensures s == t
  {
    assert t != [] ==> t[0] in s;
    if s != [] {
      assert s[0] in t;
      assert t[0] in s;
      FirstIsLeast(nodes, positions, s, t[0]);
      FirstIsLeast(nodes, positions, t, s[0]);
      if s[0] != t[0] { BeforeIsStrictTotal(nodes, positions, s[0], t[0]); }
      TailsAgree(nodes, positions, s, t);
      SortedIsUnique(nodes, positions, s[1..], t[1..]);
      assert s == [s[0]] + s[1..] && t == [t[0]] + t[1..];
    }
  }

  lemma FirstIsLeast(nodes: seq<Node>, positions: map<Id, Key>, s: seq<nat>, i: nat)
    requires Sorted(nodes, positions, s) && i in s
    ensures i == s[0] || Before(nodes, positions, s[0], i)
  {
    var k :| 0 <= k < |s| && s[k] == i;
  }

  lemma TailsAgree(nodes: seq<Node>, positions: map<Id, Key>, s: seq<nat>, t: seq<nat>)
    requires Sorted(nodes, positions, s) && Sorted(nodes, positions, t)
    requires s != [] && t != [] && s[0] == t[0]
    requires forall i: nat :: i in s <==> i in t
    ensures Sorted(nodes, positions, s[1..]) && Sorted(nodes, positions, t[1..])
    ensures forall i: nat :: i in s[1..] <==> i in t[1..]
  {
    HeadIsNotInTail(nodes, positions, s);
    HeadIsNotInTail(nodes, positions, t);
    assert forall i: nat :: i in s <==> i == s[0] || i in s[1..];
    assert forall i: nat :: i in t <==> i == t[0] || i in t[1..];
  }

  lemma HeadIsNotInTail(nodes: seq<Node>, positions: map<Id, Key>, s: seq<nat>)
    requires Sorted(nodes, positions, s) && s != []
    ensures s[0] !in s[1..]
  {
    BeforeIsStrictTotal(nodes, positions, s[0], s[0]);
    forall k | 0 <= k < |s[1..]|
      ensures s[1..][k] != s[0]
    {
      assert Before(nodes, positions, s[0], s[k + 1]);
    }
  }

  /** The rebuilt stack is the stack, whenever that is already right. */
  lemma StackIsUnique(nodes: seq<Node>, positions: map<Id, Key>, parent: Option<nat>, stack: seq<nat>)
    requires IsStack(nodes, positions, parent, stack)
    ensures Stack(nodes, positions, parent) == stack
  {
    StackIsStack(nodes, positions, parent);
    SortedIsUnique(nodes, positions, Stack(nodes, positions, parent), stack);
  }

  // ------------------------------------------- what a stack depends on

  ghost predicate SamePlaces(a: seq<Node>, b: seq<Node>) {
    |a| == |b| &&
    forall i :: 0 <= i < |a| ==>
      a[i].id == b[i].id && a[i].parent == b[i].parent && a[i].removed == b[i].removed && a[i].kind == b[i].kind
  }

  lemma {:induction false} StackDependsOnPlaces(a: seq<Node>, b: seq<Node>, positions: map<Id, Key>, parent: Option<nat>)
    requires SamePlaces(a, b)
    ensures Stack(a, positions, parent) == Stack(b, positions, parent)
  {
    StackIsStack(a, positions, parent);
    var s := Stack(a, positions, parent);
    assert Sorted(b, positions, s);
    StackIsUnique(b, positions, parent, s);
  }

  // --------------------------------------------------- stacks seen by id

  function IdsAt(nodes: seq<Node>, stack: seq<nat>): (ids: seq<Id>)
    requires InArena(nodes, stack)
    ensures |ids| == |stack| && forall k :: 0 <= k < |stack| ==> ids[k] == nodes[stack[k]].id
  {
    if stack == [] then [] else [nodes[stack[0]].id] + IdsAt(nodes, stack[1..])
  }

  /** Two replicas' stacks with the same ids and keys list the ids alike. */
  lemma {:induction false} SameIdOrder(a: seq<Node>, pa: map<Id, Key>, s: seq<nat>, b: seq<Node>, pb: map<Id, Key>, t: seq<nat>)
    requires UniqueIds(a) && UniqueIds(b) && Sorted(a, pa, s) && Sorted(b, pb, t)
    requires forall id: Id :: id in IdsAt(a, s) <==> id in IdsAt(b, t)
    requires forall id: Id :: id in IdsAt(a, s) ==> KeyOf(pa, id) == KeyOf(pb, id)
    ensures IdsAt(a, s) == IdsAt(b, t)
  {
    var (x, y) := (IdsAt(a, s), IdsAt(b, t));
    assert t != [] ==> y[0] in x;
    if s != [] {
      assert x[0] in y && y[0] in x;
      LeastId(a, pa, s, y[0]);
      LeastId(b, pb, t, x[0]);
      LessIrreflexive(KeyOf(pa, x[0]));
      if Less(KeyOf(pa, x[0]), KeyOf(pa, y[0])) && Less(KeyOf(pa, y[0]), KeyOf(pa, x[0])) {
        LessTransitive(KeyOf(pa, x[0]), KeyOf(pa, y[0]), KeyOf(pa, x[0]));
      }
      assert x[0] == y[0];
      IdTail(a, pa, s);
      IdTail(b, pb, t);
      assert forall id: Id :: id in x <==> id == x[0] || id in IdsAt(a, s[1..]);
      assert forall id: Id :: id in y <==> id == y[0] || id in IdsAt(b, t[1..]);
      SameIdOrder(a, pa, s[1..], b, pb, t[1..]);
      assert x == [x[0]] + IdsAt(a, s[1..]) && y == [y[0]] + IdsAt(b, t[1..]);
    }
  }

  lemma LeastId(a: seq<Node>, pa: map<Id, Key>, s: seq<nat>, id: Id)
    requires Sorted(a, pa, s) && UniqueIds(a) && id in IdsAt(a, s)
    ensures var least := IdsAt(a, s)[0];
            id == least || Less(KeyOf(pa, least), KeyOf(pa, id)) || (KeyOf(pa, least) == KeyOf(pa, id) && least < id)
  {
    var k :| 0 <= k < |s| && IdsAt(a, s)[k] == id;
    assert k > 0 ==> Before(a, pa, s[0], s[k]);
  }

  lemma IdTail(a: seq<Node>, pa: map<Id, Key>, s: seq<nat>)
    requires Sorted(a, pa, s) && UniqueIds(a) && s != []
    ensures Sorted(a, pa, s[1..])
    ensures IdsAt(a, s) == [IdsAt(a, s)[0]] + IdsAt(a, s[1..])
    ensures IdsAt(a, s)[0] !in IdsAt(a, s[1..])
  {
    HeadIsNotInTail(a, pa, s);
    IdIsNotListed(a, s[0], s[1..]);
  }

  lemma IdIsNotListed(a: seq<Node>, i: nat, s: seq<nat>)
    requires InArena(a, s) && UniqueIds(a) && i < |a| && i !in s
    ensures a[i].id !in IdsAt(a, s)
  {
    forall k | 0 <= k < |s|
      ensures a[s[k]].id != a[i].id
    {
      assert s[k] in s;
    }
  }
}
