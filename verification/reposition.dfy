/**
 Giving nodes positions again after a local step, so that positions sort in
 stack order.
 */
module Repositioning {
  import opened Common
  import opened Positions
  import opened Documents
  import opened Replicas
  import opened Convergence
  import opened Stacking
  import opened Sharing

  /** Positions while they are repaired, and the nodes to share. */
  datatype Placing = Placing(positions: map<Id, Key>, dirty: set<Id>)

  function Known(positions: map<Id, Key>, id: Id): Option<Key> {
    if id in positions then Some(positions[id]) else None
  }

  /** The first position among the ids above. */
  function FirstKnown(positions: map<Id, Key>, ids: seq<Id>): Option<Key> {
    if ids == [] then None
    else if ids[0] in positions then Some(positions[ids[0]])
    else FirstKnown(positions, ids[1..])
  }

  function BelowAt(positions: map<Id, Key>, ids: seq<Id>, k: nat): Option<Key>
    requires k < |ids|
  {
    if k > 0 then Known(positions, ids[k - 1]) else None
  }

  function AboveAt(positions: map<Id, Key>, ids: seq<Id>, k: nat): Option<Key>
    requires k < |ids|
  {
    var above := FirstKnown(positions, ids[k + 1..]);
    var below := BelowAt(positions, ids, k);
    if above.Some? && (below.None? || Less(below.value, above.value)) then above else None
  }

  predicate Fits(positions: map<Id, Key>, ids: seq<Id>, k: nat)
    requires k < |ids|
  {
    var (below, above) := (BelowAt(positions, ids, k), AboveAt(positions, ids, k));
    ids[k] in positions &&
    (below.None? || Less(below.value, positions[ids[k]])) &&
    (above.None? || Less(positions[ids[k]], above.value))
  }

  function PlaceOne(p: Placing, ids: seq<Id>, k: nat): Placing
    requires k < |ids|
  {
    if Fits(p.positions, ids, k) then p
    else
      var key := Between(BelowAt(p.positions, ids, k), AboveAt(p.positions, ids, k));
      Placing(p.positions[ids[k] := key], p.dirty + {ids[k]})
  }

  /** Repairs a stack from its `k`-th node up. */
  function PlaceFrom(p: Placing, ids: seq<Id>, k: nat): Placing
    requires k <= |ids|
    decreases |ids| - k
  {
    if k == |ids| then p else PlaceFrom(PlaceOne(p, ids, k), ids, k + 1)
  }

  function PlaceStack(p: Placing, ids: seq<Id>): Placing {
    PlaceFrom(p, ids, 0)
  }

  // ------------------------------------------------------------- one stack

  predicate Distinct(ids: seq<Id>) {
    forall i, j :: 0 <= i < j < |ids| ==> ids[i] != ids[j]
  }

  ghost predicate KeysIncrease(positions: map<Id, Key>, ids: seq<Id>, n: nat)
    requires n <= |ids|
  {
    (forall i :: 0 <= i < n ==> ids[i] in positions) &&
    forall i :: 0 < i < n ==> Less(KeyOf(positions, ids[i - 1]), KeyOf(positions, ids[i]))
  }

  ghost predicate DigitKeys(positions: map<Id, Key>, ids: seq<Id>) {
    forall i :: 0 <= i < |ids| ==> Digits(KeyOf(positions, ids[i]))
  }

  /** Whether repairing the stack ever asks for a key the search gives up on. */
  ghost predicate GivesUpFrom(p: Placing, ids: seq<Id>, k: nat)
    requires k <= |ids|
    decreases |ids| - k
  {
    k < |ids| && (StepFails(p.positions, ids, k) || GivesUpFrom(PlaceOne(p, ids, k), ids, k + 1))
  }

  /** A new key is needed and the search for it gives up (which it never does
      with nothing below). */
  predicate StepFails(positions: map<Id, Key>, ids: seq<Id>, k: nat)
    requires k < |ids|
  {
    k > 0 && !Fits(positions, ids, k) &&
    var (below, above) := (BelowAt(positions, ids, k), AboveAt(positions, ids, k));
    GivesUp(below.UnwrapOr([]), UpperEnd(below, above))
  }

  lemma {:induction false} FirstKnownIsDigits(positions: map<Id, Key>, ids: seq<Id>)
    requires DigitKeys(positions, ids)
    ensures FirstKnown(positions, ids).Some? ==> Digits(FirstKnown(positions, ids).value)
  {
    if ids != [] {
      assert DigitKeys(positions, ids[1..]);
      assert Digits(KeyOf(positions, ids[0]));
      FirstKnownIsDigits(positions, ids[1..]);
    }
  }

  lemma NeighboursAreDigits(positions: map<Id, Key>, ids: seq<Id>, k: nat)
    requires DigitKeys(positions, ids) && k < |ids|
    ensures Digits(BelowAt(positions, ids, k).UnwrapOr([])) && Digits(AboveAt(positions, ids, k).UnwrapOr([]))
  {
    var rest := ids[k + 1..];
    assert DigitKeys(positions, rest) by { assert forall i :: 0 <= i < |rest| ==> rest[i] == ids[k + 1 + i]; }
    FirstKnownIsDigits(positions, ids[k + 1..]);
    if k > 0 { assert Digits(KeyOf(positions, ids[k - 1])); }
  }

  lemma PlaceOneKeepsDigits(p: Placing, ids: seq<Id>, k: nat)
    requires DigitKeys(p.positions, ids) && k < |ids|
    ensures DigitKeys(PlaceOne(p, ids, k).positions, ids)
  {
    NeighboursAreDigits(p.positions, ids, k);
    var (below, above) := (BelowAt(p.positions, ids, k), AboveAt(p.positions, ids, k));
    MidpointIsDigits(below.UnwrapOr([]), UpperEnd(below, above), 0);
  }

  /** One repaired node: in order above the one below, unless the search gave up. */
  lemma PlaceOneOrders(p: Placing, ids: seq<Id>, k: nat)
    requires Distinct(ids) && DigitKeys(p.positions, ids) && k < |ids| && KeysIncrease(p.positions, ids, k)
    ensures var q := PlaceOne(p, ids, k).positions;
            && (forall i :: 0 <= i < |ids| && i != k ==> Known(q, ids[i]) == Known(p.positions, ids[i]))
            && ids[k] in q
            && (KeysIncrease(q, ids, k + 1) <==> !StepFails(p.positions, ids, k))
  {
    var q := PlaceOne(p, ids, k).positions;
    NeighboursAreDigits(p.positions, ids, k);
    forall i | 0 <= i < |ids| && i != k
      ensures Known(q, ids[i]) == Known(p.positions, ids[i])
    {
      assert ids[i] != ids[k];
    }
    if k > 0 {
      var (below, above) := (BelowAt(p.positions, ids, k), AboveAt(p.positions, ids, k));
      BetweenIsAbove(below, above);
      assert Known(q, ids[k - 1]) == Known(p.positions, ids[k - 1]) == below;
      KeysIncreaseStep(p.positions, q, ids, k);
    }
  }

  lemma KeysIncreaseStep(p: map<Id, Key>, q: map<Id, Key>, ids: seq<Id>, k: nat)
    requires 0 < k < |ids| && KeysIncrease(p, ids, k) && ids[k] in q
    requires forall i :: 0 <= i < k ==> Known(q, ids[i]) == Known(p, ids[i])
    ensures KeysIncrease(q, ids, k + 1) <==> Less(KeyOf(q, ids[k - 1]), KeyOf(q, ids[k]))
  {
    assert forall i :: 0 <= i < k ==> KeyOf(q, ids[i]) == KeyOf(p, ids[i]) && ids[i] in q;
  }

  /** What repairing does to everything else: nothing, and each id whose key
      changed is noted for sharing. */
  ghost predicate Confined(p: Placing, q: Placing, ids: seq<Id>, k: nat)
    requires k <= |ids|
  {
    && (forall id :: id !in ids[k..] ==> Known(q.positions, id) == Known(p.positions, id))
    && p.dirty <= q.dirty
    && (forall id :: Known(q.positions, id) != Known(p.positions, id) ==> id in q.dirty)
    && (forall id :: id in q.dirty ==> id in p.dirty || id in ids[k..])
  }

  lemma {:induction false} PlaceFromIsConfined(p: Placing, ids: seq<Id>, k: nat)
    requires k <= |ids|
    ensures Confined(p, PlaceFrom(p, ids, k), ids, k)
    decreases |ids| - k
  {
    if k < |ids| {
      var m := PlaceOne(p, ids, k);
      PlaceFromIsConfined(m, ids, k + 1);
      assert ids[k..] == [ids[k]] + ids[k + 1..];
    }
  }

  lemma PlaceFromKeepsBelow(p: Placing, ids: seq<Id>, k: nat)
    requires Distinct(ids) && k <= |ids|
    ensures forall i :: 0 <= i < k ==> Known(PlaceFrom(p, ids, k).positions, ids[i]) == Known(p.positions, ids[i])
  {
    PlaceFromIsConfined(p, ids, k);
    forall i | 0 <= i < k
      ensures ids[i] !in ids[k..]
    {}
  }

  lemma DisorderStays(q: Placing, ids: seq<Id>, k: nat)
    requires Distinct(ids) && k <= |ids|
    ensures !KeysIncrease(q.positions, ids, k) ==> !KeysIncrease(PlaceFrom(q, ids, k).positions, ids, |ids|)
  {
    PlaceFromKeepsBelow(q, ids, k);
    if !KeysIncrease(q.positions, ids, k) {
      StaysOutOfOrder(q.positions, PlaceFrom(q, ids, k).positions, ids, k);
    }
  }

  /** A repaired stack is in order exactly when the search never gave up. */
  lemma {:induction false} PlaceFromOrders(p: Placing, ids: seq<Id>, k: nat)
    requires Distinct(ids) && DigitKeys(p.positions, ids) && k <= |ids| && KeysIncrease(p.positions, ids, k)
    ensures KeysIncrease(PlaceFrom(p, ids, k).positions, ids, |ids|) <==> !GivesUpFrom(p, ids, k)
    decreases |ids| - k
  {
    if k < |ids| {
      var q := PlaceOne(p, ids, k);
      PlaceOneOrders(p, ids, k);
      PlaceOneKeepsDigits(p, ids, k);
      DisorderStays(q, ids, k + 1);
      if KeysIncrease(q.positions, ids, k + 1) {
        PlaceFromOrders(q, ids, k + 1);
      }
    }
  }

  lemma StaysOutOfOrder(p: map<Id, Key>, q: map<Id, Key>, ids: seq<Id>, k: nat)
    requires k <= |ids| && !KeysIncrease(p, ids, k) && forall i :: 0 <= i < k ==> Known(q, ids[i]) == Known(p, ids[i])
    ensures !KeysIncrease(q, ids, |ids|)
  {
    assert forall i :: 0 <= i < k ==> KeyOf(q, ids[i]) == KeyOf(p, ids[i]) && (ids[i] in q <==> Known(p, ids[i]).Some?);
  }

  lemma StackOrdered(p: Placing, ids: seq<Id>)
    requires Distinct(ids) && DigitKeys(p.positions, ids)
    ensures KeysIncrease(PlaceStack(p, ids).positions, ids, |ids|) <==> !GivesUpFrom(p, ids, 0)
  {
    PlaceFromOrders(p, ids, 0);
  }

  /** A stack already in order is left as it is. */
  lemma {:induction false} OrderedStackUntouched(p: Placing, ids: seq<Id>, k: nat)
    requires k <= |ids| && KeysIncrease(p.positions, ids, |ids|)
    ensures PlaceFrom(p, ids, k) == p
    decreases |ids| - k
  {
    if k < |ids| {
      if k + 1 < |ids| { assert ids[k + 1..][0] == ids[k + 1]; }
      assert FirstKnown(p.positions, ids[k + 1..]) == if k + 1 < |ids| then Some(p.positions[ids[k + 1]]) else None;
      assert Fits(p.positions, ids, k);
      OrderedStackUntouched(p, ids, k + 1);
    }
  }

  // ------------------------------------------------------------ short keys

  ghost predicate ShortKeys(positions: map<Id, Key>, ids: seq<Id>, limit: nat) {
    forall i :: 0 <= i < |ids| ==> |KeyOf(positions, ids[i])| <= limit
  }

  lemma {:induction false} FirstKnownIsShort(positions: map<Id, Key>, ids: seq<Id>, limit: nat)
    requires ShortKeys(positions, ids, limit)
    ensures |FirstKnown(positions, ids).UnwrapOr([])| <= limit
  {
    if ids != [] {
      assert ShortKeys(positions, ids[1..], limit);
      assert |KeyOf(positions, ids[0])| <= limit;
      FirstKnownIsShort(positions, ids[1..], limit);
    }
  }

  /** Repairing a stack of short keys never gives up: each new key is at most
      one digit longer. */
  lemma {:induction false} ShortStacksAreRepaired(p: Placing, ids: seq<Id>, k: nat, limit: nat)
    requires k <= |ids| && ShortKeys(p.positions, ids, limit) && limit + (|ids| - k) < MAX_DEPTH
    ensures !GivesUpFrom(p, ids, k)
    decreases |ids| - k
  {
    if k < |ids| {
      var (below, above) := (BelowAt(p.positions, ids, k), AboveAt(p.positions, ids, k));
      var rest := ids[k + 1..];
      assert ShortKeys(p.positions, rest, limit) by { assert forall i :: 0 <= i < |rest| ==> rest[i] == ids[k + 1 + i]; }
      FirstKnownIsShort(p.positions, rest, limit);
      assert |below.UnwrapOr([])| <= limit by {
        if k > 0 { assert |KeyOf(p.positions, ids[k - 1])| <= limit; }
      }
      ShortKeysNeverGiveUp(below.UnwrapOr([]), UpperEnd(below, above));
      MidpointLength(below.UnwrapOr([]), UpperEnd(below, above), 0);
      ShortStacksAreRepaired(PlaceOne(p, ids, k), ids, k + 1, limit + 1);
    }
  }

  // -------------------------------------------------------- several stacks

  function AddParent(stacks: seq<Option<nat>>, parent: Option<nat>): (r: seq<Option<nat>>)
    ensures forall q :: q in r <==> q in stacks || q == parent
  {
    if parent in stacks then stacks else stacks + [parent]
  }

  /** The stacks a step touched: the layers, the stacks of the nodes it changed
      and those inside them. */
  function TouchedStacks(nodes: seq<Node>, touched: seq<nat>, stacks: seq<Option<nat>>): (r: seq<Option<nat>>)
    requires InArena(nodes, touched)
    ensures forall q :: q in stacks ==> q in r
    ensures forall k :: 0 <= k < |touched| ==> nodes[touched[k]].parent in r
    decreases |touched|
  {
    if touched == [] then stacks
    else
      var n := nodes[touched[0]];
      var s := AddParent(stacks, n.parent);
      TouchedStacks(nodes, touched[1..], if n.IsContainer() then AddParent(s, Some(touched[0])) else s)
  }

  ghost predicate StacksInArena(r: Replica) {
    InArena(r.nodes, r.layers) && forall i :: 0 <= i < |r.nodes| ==> InArena(r.nodes, r.nodes[i].children)
  }

  function IdsOf(r: Replica, parent: Option<nat>): seq<Id>
    requires StacksInArena(r)
  {
    IdsAt(r.nodes, StackOf(r, parent))
  }

  function PlaceStacks(p: Placing, r: Replica, stacks: seq<Option<nat>>): Placing
    requires StacksInArena(r)
    decreases |stacks|
  {
    if stacks == [] then p else PlaceStacks(PlaceStack(p, IdsOf(r, stacks[0])), r, stacks[1..])
  }

  function Reposition(r: Replica, touched: seq<nat>): Placing
    requires StacksInArena(r) && InArena(r.nodes, touched)
  {
    PlaceStacks(Placing(r.positions, r.dirty), r, TouchedStacks(r.nodes, touched, [None]))
  }

  ghost predicate SameKeys(p: map<Id, Key>, q: map<Id, Key>, ids: seq<Id>) {
    forall i :: 0 <= i < |ids| ==> Known(p, ids[i]) == Known(q, ids[i])
  }

  lemma {:induction false} FirstKnownAgrees(p: map<Id, Key>, q: map<Id, Key>, ids: seq<Id>)
    requires SameKeys(p, q, ids)
    ensures FirstKnown(p, ids) == FirstKnown(q, ids)
  {
    if ids != [] {
      assert Known(p, ids[0]) == Known(q, ids[0]);
      FirstKnownAgrees(p, q, ids[1..]);
    }
  }

  lemma NeighboursAgree(p: map<Id, Key>, q: map<Id, Key>, ids: seq<Id>, k: nat)
    requires k < |ids| && SameKeys(p, q, ids)
    ensures BelowAt(p, ids, k) == BelowAt(q, ids, k) && AboveAt(p, ids, k) == AboveAt(q, ids, k)
    ensures Known(p, ids[k]) == Known(q, ids[k])
  {
    var rest := ids[k + 1..];
    assert SameKeys(p, q, rest) by { assert forall i :: 0 <= i < |rest| ==> rest[i] == ids[k + 1 + i]; }
    FirstKnownAgrees(p, q, rest);
    if k > 0 { assert Known(p, ids[k - 1]) == Known(q, ids[k - 1]); }
  }

  lemma FitsAgrees(p: map<Id, Key>, q: map<Id, Key>, ids: seq<Id>, k: nat)
    requires k < |ids| && SameKeys(p, q, ids)
    ensures Fits(p, ids, k) == Fits(q, ids, k) && StepFails(p, ids, k) == StepFails(q, ids, k)
  {
    NeighboursAgree(p, q, ids, k);
  }

  lemma PlaceOneAgrees(p: Placing, q: Placing, ids: seq<Id>, k: nat)
    requires k < |ids| && SameKeys(p.positions, q.positions, ids)
    ensures SameKeys(PlaceOne(p, ids, k).positions, PlaceOne(q, ids, k).positions, ids)
  {
    FitsAgrees(p.positions, q.positions, ids, k);
    NeighboursAgree(p.positions, q.positions, ids, k);
  }

  /** Repairing a stack depends only on the keys of its own nodes. */
  lemma {:induction false} PlaceFromAgrees(p: Placing, q: Placing, ids: seq<Id>, k: nat)
    requires k <= |ids| && SameKeys(p.positions, q.positions, ids)
    ensures GivesUpFrom(p, ids, k) == GivesUpFrom(q, ids, k)
    ensures SameKeys(PlaceFrom(p, ids, k).positions, PlaceFrom(q, ids, k).positions, ids)
    decreases |ids| - k
  {
    if k < |ids| {
      FitsAgrees(p.positions, q.positions, ids, k);
      PlaceOneAgrees(p, q, ids, k);
      PlaceFromAgrees(PlaceOne(p, ids, k), PlaceOne(q, ids, k), ids, k + 1);
    }
  }

  predicate Apart(a: seq<Id>, b: seq<Id>) {
    forall id :: id in a ==> id !in b
  }

  lemma OtherStackKeeps(p: Placing, ids: seq<Id>, other: seq<Id>)
    requires Apart(other, ids)
    ensures SameKeys(PlaceStack(p, ids).positions, p.positions, other)
  {
    PlaceFromIsConfined(p, ids, 0);
    assert ids[0..] == ids;
  }

  /** A node sits in one place of one stack. */
  ghost predicate OnePlaceEach(r: Replica, stacks: seq<Option<nat>>)
    requires StacksInArena(r)
  {
    (forall k :: 0 <= k < |stacks| ==> Distinct(IdsOf(r, stacks[k]))) &&
    forall j, k :: 0 <= j < |stacks| && 0 <= k < |stacks| && stacks[j] != stacks[k] ==> Apart(IdsOf(r, stacks[j]), IdsOf(r, stacks[k]))
  }

  lemma {:induction false} PlaceStacksInTwo(p: Placing, r: Replica, a: seq<Option<nat>>, b: seq<Option<nat>>)
    requires StacksInArena(r)
    ensures PlaceStacks(p, r, a + b) == PlaceStacks(PlaceStacks(p, r, a), r, b)
    decreases |a|
  {
    if a == [] {
      assert a + b == b;
    } else {
      assert (a + b)[1..] == a[1..] + b;
      PlaceStacksInTwo(PlaceStack(p, IdsOf(r, a[0])), r, a[1..], b);
    }
  }

  lemma OthersAreApart(r: Replica, stacks: seq<Option<nat>>, at: nat)
    requires StacksInArena(r) && OnePlaceEach(r, stacks) && NoRepeats(stacks) && at < |stacks|
    ensures forall k :: 0 <= k < at ==> Apart(IdsOf(r, stacks[at]), IdsOf(r, stacks[..at][k]))
    ensures forall k :: 0 < k < |stacks| - at ==> Apart(IdsOf(r, stacks[at]), IdsOf(r, stacks[at..][k]))
  {}

  /** Among several stacks, each repaired once, every one ends up in order
      exactly when its own repair never gave up. */
  lemma StacksOrdered(p: Placing, r: Replica, stacks: seq<Option<nat>>, at: nat)
    requires StacksInArena(r) && OnePlaceEach(r, stacks) && at < |stacks| && NoRepeats(stacks)
    requires DigitKeys(p.positions, IdsOf(r, stacks[at]))
    ensures var ids := IdsOf(r, stacks[at]);
            KeysIncrease(PlaceStacks(p, r, stacks).positions, ids, |ids|) <==> !GivesUpFrom(p, ids, 0)
  {
    OthersAreApart(r, stacks, at);
    assert stacks == stacks[..at] + stacks[at..];
    StackAmong(p, r, stacks[..at], stacks[at..]);
  }

  lemma StackAmong(p: Placing, r: Replica, pre: seq<Option<nat>>, post: seq<Option<nat>>)
    requires StacksInArena(r) && post != []
    requires Distinct(IdsOf(r, post[0])) && DigitKeys(p.positions, IdsOf(r, post[0]))
    requires forall k :: 0 <= k < |pre| ==> Apart(IdsOf(r, post[0]), IdsOf(r, pre[k]))
    requires forall k :: 0 < k < |post| ==> Apart(IdsOf(r, post[0]), IdsOf(r, post[k]))
    ensures var ids := IdsOf(r, post[0]);
            KeysIncrease(PlaceStacks(p, r, pre + post).positions, ids, |ids|) <==> !GivesUpFrom(p, ids, 0)
  {
    var q := PlaceStacks(p, r, pre);
    PlaceStacksInTwo(p, r, pre, post);
    LaterStacksKeep(p, r, pre, IdsOf(r, post[0]));
    SameKeysSameRepair(p, q, IdsOf(r, post[0]));
    FirstStackOrdered(q, r, post);
  }

  lemma SameKeysSameRepair(p: Placing, q: Placing, ids: seq<Id>)
    requires SameKeys(p.positions, q.positions, ids) && DigitKeys(p.positions, ids)
    ensures DigitKeys(q.positions, ids) && (GivesUpFrom(p, ids, 0) <==> GivesUpFrom(q, ids, 0))
  {
    PlaceFromAgrees(p, q, ids, 0);
    assert forall i :: 0 <= i < |ids| ==> Known(q.positions, ids[i]) == Known(p.positions, ids[i]) && Digits(KeyOf(p.positions, ids[i]));
  }

  lemma FirstStackOrdered(p: Placing, r: Replica, stacks: seq<Option<nat>>)
    requires StacksInArena(r) && stacks != []
    requires Distinct(IdsOf(r, stacks[0])) && DigitKeys(p.positions, IdsOf(r, stacks[0]))
    requires forall k :: 0 < k < |stacks| ==> Apart(IdsOf(r, stacks[0]), IdsOf(r, stacks[k]))
    ensures var ids := IdsOf(r, stacks[0]);
            KeysIncrease(PlaceStacks(p, r, stacks).positions, ids, |ids|) <==> !GivesUpFrom(p, ids, 0)
  {
    var ids := IdsOf(r, stacks[0]);
    var q := PlaceStack(p, ids);
    StackOrdered(p, ids);
    var rest := stacks[1..];
    forall k | 0 <= k < |rest|
      ensures Apart(ids, IdsOf(r, rest[k]))
    {
      assert rest[k] == stacks[k + 1];
    }
    LaterStacksKeep(q, r, rest, ids);
    SameKeysSameOrder(q.positions, PlaceStacks(q, r, rest).positions, ids);
  }

  lemma SameKeysSameOrder(p: map<Id, Key>, q: map<Id, Key>, ids: seq<Id>)
    requires SameKeys(p, q, ids)
    ensures KeysIncrease(p, ids, |ids|) <==> KeysIncrease(q, ids, |ids|)
  {
    assert forall i :: 0 <= i < |ids| ==> Known(p, ids[i]) == Known(q, ids[i]) && KeyOf(p, ids[i]) == KeyOf(q, ids[i]);
  }

  lemma {:induction false} LaterStacksKeep(p: Placing, r: Replica, stacks: seq<Option<nat>>, ids: seq<Id>)
    requires StacksInArena(r)
    requires forall k :: 0 <= k < |stacks| ==> Apart(ids, IdsOf(r, stacks[k]))
    ensures SameKeys(p.positions, PlaceStacks(p, r, stacks).positions, ids)
    decreases |stacks|
  {
    if stacks != [] {
      var q := PlaceStack(p, IdsOf(r, stacks[0]));
      OtherStackKeeps(p, IdsOf(r, stacks[0]), ids);
      LaterStacksKeep(q, r, stacks[1..], ids);
    }
  }

  predicate InSome(r: Replica, stacks: seq<Option<nat>>, id: Id)
    requires StacksInArena(r)
    decreases |stacks|
  {
    stacks != [] && (id in IdsOf(r, stacks[0]) || InSome(r, stacks[1..], id))
  }

  /** Every id whose key changed is noted, and nothing outside the stacks is. */
  lemma {:induction false} RepairsAreNoted(p: Placing, r: Replica, stacks: seq<Option<nat>>)
    requires StacksInArena(r)
    ensures var q := PlaceStacks(p, r, stacks);
            && p.dirty <= q.dirty
            && (forall id :: Known(q.positions, id) != Known(p.positions, id) ==> id in q.dirty)
            && (forall id :: id in q.dirty ==> id in p.dirty || InSome(r, stacks, id))
    decreases |stacks|
  {
    if stacks != [] {
      var ids := IdsOf(r, stacks[0]);
      PlaceFromIsConfined(p, ids, 0);
      assert ids[0..] == ids;
      RepairsAreNoted(PlaceStack(p, ids), r, stacks[1..]);
    }
  }

  /** Stacks in order are all left as they are. */
  lemma {:induction false} OrderedStacksUntouched(p: Placing, r: Replica, stacks: seq<Option<nat>>)
    requires StacksInArena(r)
    requires forall k :: 0 <= k < |stacks| ==> KeysIncrease(p.positions, IdsOf(r, stacks[k]), |IdsOf(r, stacks[k])|)
    ensures PlaceStacks(p, r, stacks) == p
    decreases |stacks|
  {
    if stacks != [] {
      OrderedStackUntouched(p, IdsOf(r, stacks[0]), 0);
      OrderedStacksUntouched(p, r, stacks[1..]);
    }
  }

  // ---------------------------------------------------- repair and rebuild

  lemma {:induction false} IncreasingKeysSort(positions: map<Id, Key>, ids: seq<Id>, i: nat, j: nat)
    requires KeysIncrease(positions, ids, |ids|) && i < j < |ids|
    ensures Less(KeyOf(positions, ids[i]), KeyOf(positions, ids[j]))
    decreases j
  {
    if i + 1 < j {
      IncreasingKeysSort(positions, ids, i, j - 1);
      LessTransitive(KeyOf(positions, ids[i]), KeyOf(positions, ids[j - 1]), KeyOf(positions, ids[j]));
    }
  }

  /** A stack of the live members of a parent, once its keys increase, is just
      what rebuilding it from parents and positions gives. */
  lemma RebuildAgrees(r: Replica, positions: map<Id, Key>, parent: Option<nat>)
    requires StacksInArena(r)
    requires forall i: nat :: i in StackOf(r, parent) <==> i < |r.nodes| && Member(r.nodes[i], parent)
    requires KeysIncrease(positions, IdsOf(r, parent), |IdsOf(r, parent)|)
    ensures Stack(r.nodes, positions, parent) == StackOf(r, parent)
  {
    var stack := StackOf(r, parent);
    forall a, b | 0 <= a < b < |stack|
      ensures Before(r.nodes, positions, stack[a], stack[b])
    {
      IncreasingKeysSort(positions, IdsOf(r, parent), a, b);
    }
    StackIsUnique(r.nodes, positions, parent, stack);
  }

  ghost predicate StacksListMembers(r: Replica) {
    forall parent: Option<nat>, i: nat ::
      i in StackOf(r, parent) <==> i < |r.nodes| && Member(r.nodes[i], parent)
  }

  /** After a local step's positions are repaired without giving up, rebuilding
      the stacks it touched from the positions changes nothing. */
  lemma RepairThenRebuild(r: Replica, touched: seq<nat>)
    requires StacksInArena(r) && InArena(r.nodes, touched) && StacksListMembers(r)
    requires var stacks := TouchedStacks(r.nodes, touched, [None]);
             && OnePlaceEach(r, stacks)
             && forall k :: 0 <= k < |stacks| ==>
                  DigitKeys(r.positions, IdsOf(r, stacks[k])) && !GivesUpFrom(Placing(r.positions, r.dirty), IdsOf(r, stacks[k]), 0)
    ensures var q := Reposition(r, touched);
            var stacks := TouchedStacks(r.nodes, touched, [None]);
            Relink(r.(positions := q.positions), set s | s in stacks) == r.(positions := q.positions)
  {
    TouchedStacksDistinct(r.nodes, touched, [None]);
    RepairStacksThenRebuild(r, TouchedStacks(r.nodes, touched, [None]));
  }

  lemma RepairStacksThenRebuild(r: Replica, stacks: seq<Option<nat>>)
    requires StacksInArena(r) && StacksListMembers(r) && OnePlaceEach(r, stacks) && NoRepeats(stacks)
    requires forall k :: 0 <= k < |stacks| ==>
               DigitKeys(r.positions, IdsOf(r, stacks[k])) && !GivesUpFrom(Placing(r.positions, r.dirty), IdsOf(r, stacks[k]), 0)
    ensures var q := PlaceStacks(Placing(r.positions, r.dirty), r, stacks);
            Relink(r.(positions := q.positions), set s | s in stacks) == r.(positions := q.positions)
  {
    var q := PlaceStacks(Placing(r.positions, r.dirty), r, stacks);
    forall k | 0 <= k < |stacks|
      ensures Stack(r.nodes, q.positions, stacks[k]) == StackOf(r, stacks[k])
    {
      StackRebuilt(r, stacks, k);
    }
    RelinkSame(r.(positions := q.positions), stacks);
  }

  lemma StackRebuilt(r: Replica, stacks: seq<Option<nat>>, k: nat)
    requires StacksInArena(r) && StacksListMembers(r) && OnePlaceEach(r, stacks) && NoRepeats(stacks) && k < |stacks|
    requires DigitKeys(r.positions, IdsOf(r, stacks[k])) && !GivesUpFrom(Placing(r.positions, r.dirty), IdsOf(r, stacks[k]), 0)
    ensures Stack(r.nodes, PlaceStacks(Placing(r.positions, r.dirty), r, stacks).positions, stacks[k]) == StackOf(r, stacks[k])
  {
    StacksOrdered(Placing(r.positions, r.dirty), r, stacks, k);
    RebuildAgrees(r, PlaceStacks(Placing(r.positions, r.dirty), r, stacks).positions, stacks[k]);
  }

  lemma RelinkSame(r: Replica, stacks: seq<Option<nat>>)
    requires forall k :: 0 <= k < |stacks| ==> Stack(r.nodes, r.positions, stacks[k]) == StackOf(r, stacks[k])
    ensures Relink(r, set s | s in stacks) == r
  {
    var t := Relink(r, set s | s in stacks);
    forall i | 0 <= i < |r.nodes|
      ensures t.nodes[i] == r.nodes[i]
    {
      if Some(i) in stacks {
        var k :| 0 <= k < |stacks| && stacks[k] == Some(i);
        assert Stack(r.nodes, r.positions, stacks[k]) == StackOf(r, stacks[k]);
      }
    }
    assert t.nodes == r.nodes;
    if None in stacks {
      var k :| 0 <= k < |stacks| && stacks[k] == None;
      assert Stack(r.nodes, r.positions, stacks[k]) == StackOf(r, stacks[k]);
    }
  }

  ghost predicate NoRepeats(stacks: seq<Option<nat>>) {
    forall j, k :: 0 <= j < k < |stacks| ==> stacks[j] != stacks[k]
  }

  lemma AddParentDistinct(stacks: seq<Option<nat>>, parent: Option<nat>)
    requires NoRepeats(stacks)
    ensures NoRepeats(AddParent(stacks, parent))
  {}

  lemma {:induction false} TouchedStacksDistinct(nodes: seq<Node>, touched: seq<nat>, stacks: seq<Option<nat>>)
    requires InArena(nodes, touched) && NoRepeats(stacks)
    ensures NoRepeats(TouchedStacks(nodes, touched, stacks))
    decreases |touched|
  {
    if touched != [] {
      var n := nodes[touched[0]];
      var s := AddParent(stacks, n.parent);
      AddParentDistinct(stacks, n.parent);
      AddParentDistinct(s, Some(touched[0]));
      var t := if n.IsContainer() then AddParent(s, Some(touched[0])) else s;
      TouchedStacksDistinct(nodes, touched[1..], t);
      assert TouchedStacks(nodes, touched, stacks) == TouchedStacks(nodes, touched[1..], t);
    }
  }

  // --------------------------------------------------------------- recording

  function NoteAll(r: Replica, touched: seq<nat>): Replica
    requires InArena(r.nodes, touched)
    decreases |touched|
  {
    if touched == [] then r
    else
      var n := r.nodes[touched[0]];
      NoteAll(r.(flags := r.flags[n.id := FlagsOf(r.flags, n.id) + n.edits], dirty := r.dirty + {n.id}), touched[1..])
  }

  /** Noting what a local step changed. */
  function Record(r: Replica, touched: seq<nat>, structure: bool): Replica
    requires StacksInArena(r) && InArena(r.nodes, touched)
  {
    var noted := NoteAll(r, touched);
    NotingKeepsNodes(r, touched);
    if structure then
      var p := Reposition(noted, touched);
      noted.(positions := p.positions, dirty := p.dirty)
    else noted
  }

  lemma {:induction false} NotingKeepsNodes(r: Replica, touched: seq<nat>)
    requires InArena(r.nodes, touched)
    ensures var q := NoteAll(r, touched);
            && q == r.(flags := q.flags, dirty := q.dirty)
            && r.dirty <= q.dirty
            && (forall k :: 0 <= k < |touched| ==> r.nodes[touched[k]].id in q.dirty)
            && (forall id :: id in q.dirty ==> id in r.dirty || exists k :: 0 <= k < |touched| && r.nodes[touched[k]].id == id)
    decreases |touched|
  {
    if touched != [] {
      var n := r.nodes[touched[0]];
      NotingKeepsNodes(r.(flags := r.flags[n.id := FlagsOf(r.flags, n.id) + n.edits], dirty := r.dirty + {n.id}), touched[1..]);
    }
  }

  /** An edit of the document: it changes touched nodes and stacks, and adds
      nodes nobody waits for. */
  ghost predicate Edits(a: Replica, b: Replica, touched: seq<nat>) {
    && b == a.(nodes := b.nodes, layers := b.layers)
    && |a.nodes| <= |b.nodes| && UniqueIds(b.nodes) && ParentsInArena(b.nodes)
    && (forall i :: 0 <= i < |b.nodes| && i !in touched ==> i < |a.nodes| && b.nodes[i] == a.nodes[i].(children := b.nodes[i].children))
    && (forall i :: 0 <= i < |a.nodes| ==> b.nodes[i].id == a.nodes[i].id)
    && (forall id, other :: id in a.unlinked && other == a.unlinked[id] ==> (HasId(b.nodes, other) ==> HasId(a.nodes, other)))
    && (forall i :: 0 <= i < |b.nodes| && (i in touched || i >= |a.nodes|) ==> b.nodes[i].id !in a.unlinked)
  }

  /** Nodes that wait are in no stack. */
  ghost predicate WaitersUnlisted(r: Replica, stacks: seq<Option<nat>>)
    requires StacksInArena(r)
  {
    forall id :: id in r.unlinked ==> !InSome(r, stacks, id)
  }

  lemma EditedNodeStaysSettled(base: Base, a: Replica, b: Replica, touched: seq<nat>, i: nat)
    requires Edits(a, b, touched) && UniqueIds(a.nodes) && i < |b.nodes| && i !in touched && Settled(base, a, i)
    requires forall x :: HasId(a.nodes, x) ==> Find(b.nodes, x) == Find(a.nodes, x)
    ensures Settled(base, b, i)
  {
    var n := b.nodes[i];
    assert n == a.nodes[i].(children := n.children);
    if n.id in a.states && a.states[n.id].parent.Some? {
      var p := a.states[n.id].parent.value;
      if !HasId(a.nodes, p) {
        assert a.unlinked[n.id] == p;
      }
    }
  }

  lemma FoundStays(a: Replica, b: Replica, touched: seq<nat>)
    requires Edits(a, b, touched)
    ensures forall x :: HasId(a.nodes, x) ==> Find(b.nodes, x) == Find(a.nodes, x)
  {
    forall x | HasId(a.nodes, x)
      ensures Find(b.nodes, x) == Find(a.nodes, x)
    {
      FindIsUnique(b.nodes, Find(a.nodes, x).value);
    }
  }

  /** Recording an edit leaves the invariant broken only at nodes it notes, so
      sharing them restores it. */
  lemma RecordKeeps(base: Base, a: Replica, b: Replica, touched: seq<nat>, structure: bool)
    requires InvExcept(base, a, a.dirty) && Edits(a, b, touched) && StacksInArena(b) && InArena(b.nodes, touched)
    requires WaitersUnlisted(b, TouchedStacks(b.nodes, touched, [None]))
    ensures var r := Record(b, touched, structure); InvExcept(base, r, r.dirty) && r.states == a.states && KeepsNodes(a, r)
  {
    var r := Record(b, touched, structure);
    var noted := NoteAll(b, touched);
    NotingKeepsNodes(b, touched);
    RepairsAreNoted(Placing(noted.positions, noted.dirty), noted, TouchedStacks(b.nodes, touched, [None]));
    FoundStays(a, b, touched);
    forall i | 0 <= i < |r.nodes| && r.nodes[i].id !in r.dirty
      ensures Settled(base, r, i)
    {
      assert i !in touched;
      assert Settled(base, a, i);
      EditedNodeStaysSettled(base, a, b, touched, i);
      assert Known(r.positions, r.nodes[i].id) == Known(b.positions, r.nodes[i].id);
    }
    NotedDoNotWait(base, a, b, touched, structure);
  }

  lemma NotedDoNotWait(base: Base, a: Replica, b: Replica, touched: seq<nat>, structure: bool)
    requires InvExcept(base, a, a.dirty) && Edits(a, b, touched) && StacksInArena(b) && InArena(b.nodes, touched)
    requires WaitersUnlisted(b, TouchedStacks(b.nodes, touched, [None]))
    ensures var r := Record(b, touched, structure); forall id :: id in r.dirty ==> id !in r.unlinked
  {
    var noted := NoteAll(b, touched);
    var stacks := TouchedStacks(b.nodes, touched, [None]);
    NotingKeepsNodes(b, touched);
    RepairsAreNoted(Placing(noted.positions, noted.dirty), noted, stacks);
    forall id
      ensures InSome(noted, stacks, id) == InSome(b, stacks, id)
    {
      SameStacksSameIds(noted, b, stacks, id);
    }
  }

  lemma {:induction false} SameStacksSameIds(a: Replica, b: Replica, stacks: seq<Option<nat>>, id: Id)
    requires a.nodes == b.nodes && a.layers == b.layers && StacksInArena(a) && StacksInArena(b)
    ensures InSome(a, stacks, id) == InSome(b, stacks, id)
    decreases |stacks|
  {
    if stacks != [] { SameStacksSameIds(a, b, stacks[1..], id); }
  }

  // ------------------------------------------------------ steps, then sharing

  /** A local step: the document as edited, what the edit touched, and whether
      it changed the structure. */
  datatype LocalStep = LocalStep(edited: Replica, touched: seq<nat>, structure: bool)

  ghost predicate CanStep(a: Replica, step: LocalStep) {
    && Edits(a, step.edited, step.touched) && StacksInArena(step.edited) && InArena(step.edited.nodes, step.touched)
    && WaitersUnlisted(step.edited, TouchedStacks(step.edited.nodes, step.touched, [None]))
  }

  ghost function Stepped(a: Replica, step: LocalStep): Replica
    requires CanStep(a, step)
  {
    Record(step.edited, step.touched, step.structure)
  }

  ghost predicate CanStepAll(a: Replica, steps: seq<LocalStep>)
    decreases |steps|
  {
    steps == [] || (CanStep(a, steps[0]) && CanStepAll(Stepped(a, steps[0]), steps[1..]))
  }

  ghost function SteppedAll(a: Replica, steps: seq<LocalStep>): Replica
    requires CanStepAll(a, steps)
    decreases |steps|
  {
    if steps == [] then a else SteppedAll(Stepped(a, steps[0]), steps[1..])
  }

  lemma {:induction false} StepsKeep(base: Base, a: Replica, steps: seq<LocalStep>)
    requires InvExcept(base, a, a.dirty) && CanStepAll(a, steps)
    ensures var r := SteppedAll(a, steps);
            InvExcept(base, r, r.dirty) && r.states == a.states && KeepsNodes(a, r)
    decreases |steps|
  {
    if steps != [] {
      RecordKeeps(base, a, steps[0].edited, steps[0].touched, steps[0].structure);
      StepsKeep(base, Stepped(a, steps[0]), steps[1..]);
    }
  }

  /** However many steps someone records before sharing, sharing restores the
      invariant, and is a legal part of a run. */
  lemma StepsThenShare(base: Base, a: Replica, steps: seq<LocalStep>)
    requires ValidBase(base) && Inv(base, a) && a.dirty == {} && CanStepAll(a, steps)
    ensures var r := SteppedAll(a, steps); Legal(base, a, Share(r)) && Inv(base, Changes(r).r)
  {
    ParentsStayInArena(base, a);
    StepsKeep(base, a, steps);
    ChangesKeeps(base, SteppedAll(a, steps));
  }
}
