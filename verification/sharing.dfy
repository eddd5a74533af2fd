/**
 Sharing one's own steps: what `changes` sends comes back as nothing new, keeps
 the invariant of replicas, and carries what others need.
 */
module Sharing {
  import opened Common
  import opened Positions
  import opened Documents
  import opened Replicas
  import opened Convergence
  import opened Stacking

  // ------------------------------------------------------ what was shared

  /** Every entry of `out` is the present state of its node, and recorded. */
  ghost predicate Recorded(s: Outbox)
    requires ParentsInArena(s.r.nodes)
  {
    forall e :: e in s.out ==>
      IsState(e) && HasId(s.r.nodes, e.key.value) && e.key.value in s.r.states &&
      s.r.states[e.key.value] == e.value.value.state == StateOf(s.r, Find(s.r.nodes, e.key.value).value)
  }

  /** Sharing changes only what is recorded as shared. */
  ghost predicate SameButStates(a: Replica, b: Replica) {
    b == a.(states := b.states)
  }

  lemma StateOfIgnoresStates(a: Replica, b: Replica, i: nat)
    requires SameButStates(a, b) && i < |a.nodes| && ParentsInArena(a.nodes)
    ensures StateOf(a, i) == StateOf(b, i)
  {}

  lemma {:induction false} ShareAllRecords(s: Outbox, todo: set<Id>)
    requires ParentsInArena(s.r.nodes) && Recorded(s)
    ensures Recorded(ShareAll(s, todo)) && SameButStates(s.r, ShareAll(s, todo).r)
    ensures var t := ShareAll(s, todo);
            forall id :: id in todo && HasId(s.r.nodes, id) ==> id in t.r.states && t.r.states[id] == StateOf(s.r, Find(s.r.nodes, id).value)
    decreases |todo|
  {
    if todo != {} {
      var id := Least(todo);
      var m := ShareNode(s, id);
      ShareOneRecords(s, id);
      ShareAllRecords(m, todo - {id});
      ShareAllKeepsOthers(m, todo - {id});
      forall x | x in todo && HasId(s.r.nodes, x)
        ensures x in ShareAll(s, todo).r.states && ShareAll(s, todo).r.states[x] == StateOf(s.r, Find(s.r.nodes, x).value)
      {
        StateOfIgnoresStates(s.r, m.r, Find(s.r.nodes, x).value);
      }
    }
  }

  lemma {:induction false} ShareAllKeepsOthers(s: Outbox, todo: set<Id>)
    requires ParentsInArena(s.r.nodes)
    ensures var t := ShareAll(s, todo);
            && (forall id :: id in s.r.states ==> id in t.r.states)
            && (forall id :: id !in todo || !HasId(s.r.nodes, id) ==> (id in t.r.states <==> id in s.r.states) && (id in s.r.states ==> t.r.states[id] == s.r.states[id]))
            && (forall id :: id in t.r.states && id !in s.r.states ==> HasId(s.r.nodes, id))
    decreases |todo|
  {
    if todo != {} {
      var id := Least(todo);
      ShareAllKeepsOthers(ShareNode(s, id), todo - {id});
    }
  }

  lemma ShareOneRecords(s: Outbox, id: Id)
    requires ParentsInArena(s.r.nodes) && Recorded(s)
    ensures Recorded(ShareNode(s, id)) && SameButStates(s.r, ShareNode(s, id).r)
    ensures HasId(s.r.nodes, id) ==>
              id in ShareNode(s, id).r.states && ShareNode(s, id).r.states[id] == StateOf(s.r, Find(s.r.nodes, id).value)
  {
    var t := ShareNode(s, id);
    forall e | e in t.out
      ensures IsState(e) && HasId(t.r.nodes, e.key.value) && e.key.value in t.r.states
      ensures t.r.states[e.key.value] == e.value.value.state == StateOf(t.r, Find(t.r.nodes, e.key.value).value)
    {
      if e in s.out {
        StateOfIgnoresStates(s.r, t.r, Find(s.r.nodes, e.key.value).value);
      } else {
        StateOfIgnoresStates(s.r, t.r, Find(s.r.nodes, id).value);
      }
    }
  }

  /** What `Changes` sends, and what it records. */
  lemma ChangesRecords(r: Replica)
    requires ParentsInArena(r.nodes)
    ensures var t := Changes(r);
            && Recorded(t) && t.r == r.(dirty := {}, states := t.r.states)
            && (forall id :: id in r.dirty && HasId(r.nodes, id) ==> id in t.r.states && t.r.states[id] == StateOf(r, Find(r.nodes, id).value))
            && (forall id :: id in r.states ==> id in t.r.states)
            && (forall id :: id !in r.dirty || !HasId(r.nodes, id) ==> (id in t.r.states <==> id in r.states) && (id in r.states ==> t.r.states[id] == r.states[id]))
            && (forall id :: id in t.r.states && id !in r.states ==> HasId(r.nodes, id))
  {
    var s := Outbox(r.(dirty := {}), []);
    ShareAllRecords(s, r.dirty);
    ShareAllKeepsOthers(s, r.dirty);
    forall id | id in r.dirty && HasId(r.nodes, id)
      ensures StateOf(s.r, Find(r.nodes, id).value) == StateOf(r, Find(r.nodes, id).value)
    {}
  }

  // ------------------------------------------------------- nothing comes back

  /** Every entry repeats what is recorded. */
  ghost predicate Known(states: map<Id, NodeState>, batch: seq<Entry>) {
    forall e :: e in batch && IsState(e) ==> e.key.value in states && states[e.key.value] == e.value.value.state
  }

  lemma {:induction false} KnownEntriesAreSkipped(t: Intake, batch: seq<Entry>)
    requires Known(t.states, batch)
    ensures TakeIn(t, batch) == t
    decreases |batch|
  {
    if batch != [] {
      assert batch[0] in batch;
      KnownEntriesAreSkipped(TakeEntry(t, batch[0]), batch[1..]);
    }
  }

  /** Nobody waits for a parent that is there. */
  ghost predicate NoneLinkable(r: Replica) {
    LinkableIds(r.nodes, r.unlinked) == {}
  }

  ghost predicate NoChange(r: Replica, p: Progress) {
    p.r == r && p.parents == {} && p.touched == [] && !p.structure
  }

  lemma LinkingNobody(r: Replica)
    requires NoneLinkable(r)
    ensures NoChange(r, LinkWaiting(Progress(r, {}, [], false)))
  {
    var q := LinkWaiting(Progress(r, {}, [], false));
    assert q.r.nodes == r.nodes;
    assert q.r.unlinked == r.unlinked;
    assert q.parents == {};
  }

  lemma ApplyKnown(r: Replica, batch: seq<Entry>)
    requires NoneLinkable(r) && Known(r.states, batch)
    ensures NoChange(r, Apply(r, batch))
  {
    KnownEntriesAreSkipped(Intake(r.states, map[]), batch);
    assert Merged(r, batch) == Progress(r, {}, [], false);
    LinkingNobody(r);
    assert Relink(r, {}).nodes == r.nodes;
  }

  /** Linking leaves nobody to link, so a replica settles with every batch. */
  lemma ApplySettles(r: Replica, batch: seq<Entry>)
    ensures NoneLinkable(Apply(r, batch).r)
  {
    var m := Merged(r, batch);
    var (l, q) := (LinkWaiting(m), Apply(r, batch).r);
    assert SameIds(m.r.nodes, q.nodes);
    FindsAlike(m.r.nodes, q.nodes);
    assert q.unlinked == m.r.unlinked - LinkableIds(m.r.nodes, m.r.unlinked);
  }

  /** One's own changes, coming back, change nothing and report nothing. */
  lemma EchoIsSilent(r: Replica)
    requires ParentsInArena(r.nodes) && NoneLinkable(r)
    ensures NoChange(Changes(r).r, Apply(Changes(r).r, Changes(r).out))
  {
    ChangesRecords(r);
    ApplyKnown(Changes(r).r, Changes(r).out);
  }

  /** Without a new step there is nothing more to send, even if nodes already
      shared are noted again. */
  lemma NothingMoreToShare(r: Replica, again: set<Id>)
    requires ParentsInArena(r.nodes) && again <= r.dirty
    ensures Changes(Changes(r).r).out == []
    ensures Changes(Changes(r).r.(dirty := again)).out == []
  {
    ChangesRecords(r);
    var t := Changes(r).r;
    forall id | id in again && HasId(t.nodes, id)
      ensures id in t.states && t.states[id] == StateOf(t, Find(t.nodes, id).value)
    {
      assert StateOf(t, Find(t.nodes, id).value) == StateOf(r, Find(r.nodes, id).value);
    }
    SharedStatesAreSkipped(Outbox(t, []), again);
  }

  lemma {:induction false} SharedStatesAreSkipped(s: Outbox, todo: set<Id>)
    requires ParentsInArena(s.r.nodes)
    requires forall id :: id in todo && HasId(s.r.nodes, id) ==> id in s.r.states && s.r.states[id] == StateOf(s.r, Find(s.r.nodes, id).value)
    ensures ShareAll(s, todo) == s
    decreases |todo|
  {
    if todo != {} { SharedStatesAreSkipped(s, todo - {Least(todo)}); }
  }

  // -------------------------------------------------------- the same again

  /** At most one state of each node. */
  ghost predicate SingleStates(batch: seq<Entry>) {
    forall e, f :: e in batch && f in batch && IsState(e) && IsState(f) && e.key == f.key ==> e.value == f.value
  }

  lemma {:induction false} SingleStatesAreRecorded(known: map<Id, NodeState>, batch: seq<Entry>, e: Entry)
    requires SingleStates(batch) && e in batch && IsState(e)
    ensures var last := LastStates(known, batch); e.key.value in last && last[e.key.value] == e.value.value.state
    decreases |batch|
  {
    var next := if IsState(batch[0]) then known[batch[0].key.value := batch[0].value.value.state] else known;
    assert forall x :: x in batch[1..] ==> x in batch;
    if exists f :: f in batch[1..] && IsState(f) && f.key == e.key {
      var f :| f in batch[1..] && IsState(f) && f.key == e.key;
      SingleStatesAreRecorded(next, batch[1..], f);
    } else {
      assert e == batch[0];
      OtherStatesKeep(next, batch[1..], e.key.value);
    }
  }

  lemma {:induction false} OtherStatesKeep(known: map<Id, NodeState>, batch: seq<Entry>, id: Id)
    requires id in known && forall f :: f in batch && IsState(f) ==> f.key.value != id
    ensures id in LastStates(known, batch) && LastStates(known, batch)[id] == known[id]
    decreases |batch|
  {
    if batch != [] {
      assert batch[0] in batch;
      var next := if IsState(batch[0]) then known[batch[0].key.value := batch[0].value.value.state] else known;
      OtherStatesKeep(next, batch[1..], id);
    }
  }

  lemma {:induction false} MergeAllKeepsStates(p: Progress, todo: set<Id>, newest: map<Id, NodeState>)
    requires todo <= newest.Keys
    ensures MergeAll(p, todo, newest).r.states == p.r.states
    decreases |todo|
  {
    if todo != {} {
      var id := Least(todo);
      MergeAllKeepsStates(Merge(p, id, newest[id]), todo - {id}, newest);
    }
  }

  lemma ApplyRecords(r: Replica, batch: seq<Entry>)
    ensures Apply(r, batch).r.states == LastStates(r.states, batch)
  {
    var t := TakeIn(Intake(r.states, map[]), batch);
    TakeInKeepsLast(Intake(r.states, map[]), batch);
    MergeAllKeepsStates(Progress(r.(states := t.states), {}, [], false), t.newest.Keys, t.newest);
  }

  /** A batch with one state per node, received again, changes nothing at all. */
  lemma ApplyAgain(r: Replica, batch: seq<Entry>)
    requires SingleStates(batch)
    ensures NoChange(Apply(r, batch).r, Apply(Apply(r, batch).r, batch))
  {
    ApplySettles(r, batch);
    ApplyRecords(r, batch);
    forall e | e in batch && IsState(e)
      ensures e.key.value in Apply(r, batch).r.states && Apply(r, batch).r.states[e.key.value] == e.value.value.state
    {
      SingleStatesAreRecorded(r.states, batch, e);
    }
    ApplyKnown(Apply(r, batch).r, batch);
  }

  lemma LastStatesAgain(known: map<Id, NodeState>, batch: seq<Entry>)
    ensures LastStates(LastStates(known, batch), batch) == LastStates(known, batch)
  {
    var last := LastStates(map[], batch);
    LastStatesOverlay(known, batch);
    LastStatesOverlay(known + last, batch);
    assert known + last + last == known + last;
  }

  /** Any batch, received again, leaves the same document. */
  lemma ApplyAgainConverges(base: Base, r: Replica, batch: seq<Entry>)
    requires ValidBase(base) && Inv(base, r)
    ensures Converged(Apply(r, batch).r, Apply(Apply(r, batch).r, batch).r)
  {
    var once := Apply(r, batch).r;
    ApplyKeeps(base, r, batch);
    ApplyKeeps(base, once, batch);
    LastStatesAgain(r.states, batch);
    forall id
      ensures HasId(once.nodes, id) <==> HasId(Apply(once, batch).r.nodes, id)
    {
      ApplyAdds(base, r, batch, id);
      ApplyAdds(base, once, batch, id);
    }
    SameStatesConverge(base, once, Apply(once, batch).r);
  }

  // ----------------------------------------------------------- local steps

  /** The invariant but for nodes changed here and not yet shared. */
  ghost predicate InvExcept(base: Base, r: Replica, changed: set<Id>) {
    && UniqueIds(r.nodes) && Extends(base, r.nodes) && ParentsInArena(r.nodes)
    && (forall i :: 0 <= i < |r.nodes| && r.nodes[i].id !in changed ==> Settled(base, r, i))
    && (forall id :: id in changed ==> id !in r.unlinked)
    && ContentArrived(r, {})
  }

  /** Nodes outside the stored document are marked as created. */
  ghost predicate MarkedCreated(base: Base, r: Replica) {
    forall i :: 0 <= i < |r.nodes| && !HasId(base.nodes, r.nodes[i].id) ==> Created in r.nodes[i].edits
  }

  lemma SharedNodeSettles(base: Base, r: Replica, q: Replica, i: nat)
    requires UniqueIds(r.nodes) && ParentsInArena(r.nodes) && i < |r.nodes| && r.nodes[i].id !in r.unlinked
    requires q == r.(dirty := {}, states := q.states)
    requires r.nodes[i].id in q.states && q.states[r.nodes[i].id] == StateOf(r, i)
    ensures Settled(base, q, i)
  {
    var n := r.nodes[i];
    if n.parent.Some? { FindIsUnique(r.nodes, n.parent.value); }
  }

  /** Sharing local steps restores the invariant, and what it sends can be
      merged by anyone. */
  lemma ChangesKeeps(base: Base, r: Replica)
    requires InvExcept(base, r, r.dirty)
    ensures Inv(base, Changes(r).r)
    ensures Known(Changes(r).r.states, Changes(r).out)
    ensures MarkedCreated(base, r) ==> CarriesContent(base, Changes(r).out)
  {
    ChangesRecords(r);
    var t := Changes(r);
    forall i | 0 <= i < |t.r.nodes|
      ensures Settled(base, t.r, i)
    {
      FindIsUnique(r.nodes, i);
      if r.nodes[i].id in r.dirty {
        SharedNodeSettles(base, r, t.r, i);
      } else {
        assert Settled(base, r, i);
      }
    }
    if MarkedCreated(base, r) {
      SentStatesCarry(base, r);
    }
  }

  lemma SentStatesCarry(base: Base, r: Replica)
    requires ParentsInArena(r.nodes) && MarkedCreated(base, r)
    ensures CarriesContent(base, Changes(r).out)
  {
    ChangesRecords(r);
    forall e | e in Changes(r).out && IsState(e)
      ensures Carried(base, e.key.value, e.value.value.state)
    {
      var n := r.nodes[Find(r.nodes, e.key.value).value];
      assert !HasId(base.nodes, n.id) ==> Created in (n.edits + FlagsOf(r.flags, n.id)) * CONTENT;
    }
  }

  /** Between steps nobody waits for a parent that is there. */
  lemma NobodyToLink(base: Base, r: Replica, changed: set<Id>)
    requires InvExcept(base, r, changed)
    ensures NoneLinkable(r)
  {
    forall id | id in r.unlinked
      ensures !Linkable(r.nodes, r.unlinked, id)
    {
      if HasId(r.nodes, id) {
        assert Settled(base, r, Find(r.nodes, id).value);
      }
    }
  }

  // ------------------------------------------------------------ mixed runs

  /** One thing a person's copy goes through: other people's entries arrive, or
      local steps (leading to `edited`) are shared. */
  datatype Activity = Receive(batch: seq<Entry>) | Share(edited: Replica)

  /** Local steps take no node out of the arena. */
  ghost predicate KeepsNodes(a: Replica, b: Replica) {
    forall id :: HasId(a.nodes, id) ==> HasId(b.nodes, id)
  }

  ghost predicate Legal(base: Base, r: Replica, step: Activity) {
    step.Share? ==>
      step.edited.states == r.states && KeepsNodes(r, step.edited) && InvExcept(base, step.edited, step.edited.dirty)
  }

  ghost function After(r: Replica, step: Activity): Replica
    requires step.Share? ==> ParentsInArena(step.edited.nodes)
  {
    match step
    case Receive(batch) => Apply(r, batch).r
    case Share(edited) => Changes(edited).r
  }

  ghost predicate LegalRun(base: Base, r: Replica, steps: seq<Activity>)
    decreases |steps|
  {
    steps == [] || (Legal(base, r, steps[0]) && LegalRun(base, After(r, steps[0]), steps[1..]))
  }

  ghost function AfterAll(base: Base, r: Replica, steps: seq<Activity>): Replica
    requires LegalRun(base, r, steps)
    decreases |steps|
  {
    if steps == [] then r else AfterAll(base, After(r, steps[0]), steps[1..])
  }

  lemma StepKeeps(base: Base, r: Replica, step: Activity)
    requires Inv(base, r) && Legal(base, r, step)
    ensures Inv(base, After(r, step))
  {
    match step {
      case Receive(batch) => ApplyKeeps(base, r, batch);
      case Share(edited) => ChangesKeeps(base, edited);
    }
  }

  lemma {:induction false} RunsKeepInvariant(base: Base, r: Replica, steps: seq<Activity>)
    requires Inv(base, r) && LegalRun(base, r, steps)
    ensures Inv(base, AfterAll(base, r, steps))
    decreases |steps|
  {
    if steps != [] {
      StepKeeps(base, r, steps[0]);
      RunsKeepInvariant(base, After(r, steps[0]), steps[1..]);
    }
  }

  /** From any state people get to, what they share next comes back as nothing
      new. */
  lemma EchoIsSilentAlways(base: Base, r: Replica, steps: seq<Activity>, edited: Replica)
    requires ValidBase(base) && Opened(base, r)
    requires LegalRun(base, r, steps) && Legal(base, AfterAll(base, r, steps), Share(edited))
    ensures Inv(base, AfterAll(base, r, steps))
    ensures NoChange(Changes(edited).r, Apply(Changes(edited).r, Changes(edited).out))
  {
    OpenedHolds(base, r);
    RunsKeepInvariant(base, r, steps);
    NobodyToLink(base, edited, edited.dirty);
    EchoIsSilent(edited);
  }

  /** How a node gets into somebody's copy: with its content, or by their own
      hand. */
  predicate Adds(step: Activity, id: Id) {
    match step
    case Receive(batch) => Brings(batch, id)
    case Share(edited) => HasId(edited.nodes, id)
  }

  ghost predicate AddedBy(steps: seq<Activity>, id: Id) {
    exists k :: 0 <= k < |steps| && Adds(steps[k], id)
  }

  lemma AddedFirstOrLater(steps: seq<Activity>, id: Id)
    requires steps != []
    ensures AddedBy(steps, id) <==> Adds(steps[0], id) || AddedBy(steps[1..], id)
  {
    if AddedBy(steps, id) {
      var k :| 0 <= k < |steps| && Adds(steps[k], id);
      assert k > 0 ==> steps[1..][k - 1] == steps[k];
    }
    if AddedBy(steps[1..], id) {
      var k :| 0 <= k < |steps[1..]| && Adds(steps[1..][k], id);
      assert steps[k + 1] == steps[1..][k];
    }
  }

  lemma StepAdds(base: Base, r: Replica, step: Activity, id: Id)
    requires Inv(base, r) && Legal(base, r, step)
    ensures HasId(After(r, step).nodes, id) <==> HasId(r.nodes, id) || Adds(step, id)
  {
    match step {
      case Receive(batch) => ApplyAdds(base, r, batch, id);
      case Share(edited) => ChangesRecords(edited);
    }
  }

  lemma {:induction false} RunAddsNodes(base: Base, r: Replica, steps: seq<Activity>, id: Id)
    requires Inv(base, r) && LegalRun(base, r, steps)
    ensures HasId(AfterAll(base, r, steps).nodes, id) <==> HasId(r.nodes, id) || AddedBy(steps, id)
    decreases |steps|
  {
    if steps != [] {
      StepKeeps(base, r, steps[0]);
      StepAdds(base, r, steps[0], id);
      RunAddsNodes(base, After(r, steps[0]), steps[1..], id);
      AddedFirstOrLater(steps, id);
    }
  }

  /** Whatever two people received and shared in between, once the last state
      they know of every node is the same they hold the same document, exactly
      when every new node got to both or to neither. */
  lemma PeopleConverge(base: Base, a: Replica, b: Replica, left: seq<Activity>, right: seq<Activity>)
    requires ValidBase(base) && Opened(base, a) && Opened(base, b)
    requires LegalRun(base, a, left) && LegalRun(base, b, right)
    requires AfterAll(base, a, left).states == AfterAll(base, b, right).states
    ensures Converged(AfterAll(base, a, left), AfterAll(base, b, right)) <==>
              forall id :: !HasId(base.nodes, id) ==> (AddedBy(left, id) <==> AddedBy(right, id))
  {
    OpenedHolds(base, a);
    OpenedHolds(base, b);
    RunsKeepInvariant(base, a, left);
    RunsKeepInvariant(base, b, right);
    SameStatesConverge(base, AfterAll(base, a, left), AfterAll(base, b, right));
    forall id
      ensures HasId(AfterAll(base, a, left).nodes, id) <==> HasId(base.nodes, id) || AddedBy(left, id)
      ensures HasId(AfterAll(base, b, right).nodes, id) <==> HasId(base.nodes, id) || AddedBy(right, id)
    {
      RunAddsNodes(base, a, left, id);
      RunAddsNodes(base, b, right, id);
    }
  }

  // ------------------------------------------------------ whole new nodes

  /** New nodes are received with their content; everyone's edits mark them as
      created, so that is how they are sent. */
  ghost predicate ReceivesContent(base: Base, steps: seq<Activity>) {
    forall k :: 0 <= k < |steps| && steps[k].Receive? ==> CarriesContent(base, steps[k].batch)
  }

  ghost predicate StatedArePresent(r: Replica) {
    forall id :: id in r.states ==> HasId(r.nodes, id)
  }

  lemma StepKeepsStatedPresent(base: Base, r: Replica, step: Activity)
    requires Inv(base, r) && Legal(base, r, step) && StatedArePresent(r)
    requires step.Receive? ==> CarriesContent(base, step.batch)
    ensures StatedArePresent(After(r, step))
  {
    match step {
      case Receive(batch) =>
        ApplyRecords(r, batch);
        LastStatesOverlay(r.states, batch);
        LastStatesCarry(base, map[], batch);
        forall id | id in Apply(r, batch).r.states
          ensures HasId(Apply(r, batch).r.nodes, id)
        {
          ApplyAdds(base, r, batch, id);
          if HasId(base.nodes, id) { BaseIdsStay(base, r.nodes, id); }
        }
      case Share(edited) => ChangesRecords(edited);
    }
  }

  lemma {:induction false} RunKeepsStatedPresent(base: Base, r: Replica, steps: seq<Activity>)
    requires Inv(base, r) && LegalRun(base, r, steps) && StatedArePresent(r) && ReceivesContent(base, steps)
    ensures StatedArePresent(AfterAll(base, r, steps))
    decreases |steps|
  {
    if steps != [] {
      StepKeeps(base, r, steps[0]);
      StepKeepsStatedPresent(base, r, steps[0]);
      assert forall k :: 0 <= k < |steps[1..]| ==> steps[1..][k] == steps[k + 1];
      RunKeepsStatedPresent(base, After(r, steps[0]), steps[1..]);
    }
  }

  lemma PresentAreStated(base: Base, r: Replica, id: Id)
    requires Inv(base, r) && StatedArePresent(r)
    ensures HasId(r.nodes, id) <==> HasId(base.nodes, id) || id in r.states
  {
    if HasId(base.nodes, id) {
      BaseIdsStay(base, r.nodes, id);
    } else if HasId(r.nodes, id) {
      var i := Find(r.nodes, id).value;
      assert Settled(base, r, i);
      assert i < |base.nodes| ==> base.nodes[i].id == id;
    }
  }

  /** So among people who send new nodes whole, the last states settle the
      document. */
  lemma SendingWholeConverges(base: Base, a: Replica, b: Replica, left: seq<Activity>, right: seq<Activity>)
    requires ValidBase(base) && Opened(base, a) && Opened(base, b)
    requires LegalRun(base, a, left) && LegalRun(base, b, right)
    requires ReceivesContent(base, left) && ReceivesContent(base, right)
    requires AfterAll(base, a, left).states == AfterAll(base, b, right).states
    ensures Converged(AfterAll(base, a, left), AfterAll(base, b, right))
  {
    var (x, y) := (AfterAll(base, a, left), AfterAll(base, b, right));
    OpenedHolds(base, a);
    OpenedHolds(base, b);
    RunsKeepInvariant(base, a, left);
    RunsKeepInvariant(base, b, right);
    RunKeepsStatedPresent(base, a, left);
    RunKeepsStatedPresent(base, b, right);
    forall id
      ensures HasId(x.nodes, id) <==> HasId(y.nodes, id)
    {
      PresentAreStated(base, x, id);
      PresentAreStated(base, y, id);
    }
    SameStatesConverge(base, x, y);
  }

  // ------------------------------------------------- what does not hold

  function PlainState(id: Id, parent: Option<Id>, position: Key, kind: Option<NodeKind>): NodeState {
    NodeState(id, parent, position, false, {}, "", false, false, 1.0, 0, IDENTITY, 0, kind, None)
  }

  lemma LeastOfOne(id: Id)
    ensures Least({id}) == id && {id} - {id} == {}
  {}

  lemma MergeOnlyOne(p: Progress, id: Id, newest: map<Id, NodeState>)
    requires newest.Keys == {id}
    ensures MergeAll(p, newest.Keys, newest) == Merge(p, id, newest[id])
  {
    LeastOfOne(id);
    var q := Merge(p, id, newest[id]);
    assert MergeAll(q, {}, newest) == q;
  }

  /** Without its content, a later state keeps an earlier one of the same batch
      from adding the node: the same entries then leave different documents. */
  lemma ContentlessStateLosesNode(r: Replica, full: NodeState, bare: NodeState)
    requires r.nodes == [] && r.states == map[] && r.unlinked == map[]
    requires full == PlainState(1, None, "V", Some(Layer(0))) && bare == full.(kind := None)
    ensures var (e, f) := (Entry(Some(1), Some(State(full))), Entry(Some(1), Some(State(bare))));
            && Flatten([[e, f]]) == Flatten([[e], [f]])
            && !HasId(ApplyAll(r, [[e, f]]).nodes, 1)
            && HasId(ApplyAll(r, [[e], [f]]).nodes, 1)
            && !Converged(ApplyAll(r, [[e, f]]), ApplyAll(r, [[e], [f]]))
  {
    var (e, f) := (Entry(Some(1), Some(State(full))), Entry(Some(1), Some(State(bare))));
    FlattenTwo(e, f);
    NoEarlierContent(e, f);
    var base := Base([], r.positions);
    OpenedHolds(base, r);
    RunAdds(base, r, [[e, f]], 1);
    RunAdds(base, r, [[e], [f]], 1);
  }

  lemma FlattenTwo(e: Entry, f: Entry)
    ensures Flatten([[e, f]]) == Flatten([[e], [f]]) == [e, f]
  {
    assert [[e, f]][1..] == [] && [[e], [f]][1..] == [[f]] && [[f]][1..] == [];
  }

  lemma LastStateOfOne(known: map<Id, NodeState>, e: Entry)
    requires IsState(e)
    ensures LastStates(known, [e]) == known[e.key.value := e.value.value.state]
  {
    assert [e][1..] == [];
    assert LastStates(known, [e]) == LastStates(known[e.key.value := e.value.value.state], []);
  }

  lemma NoEarlierContent(e: Entry, f: Entry)
    requires IsState(e) && IsState(f) && e.key == f.key && e.value.value.state.kind.Some? && f.value.value.state.kind.None?
    ensures !Arrives([[e, f]], e.key.value) && Arrives([[e], [f]], e.key.value)
  {
    assert [e] + [f] == [e, f];
    LastStatesConcat(map[], [e], [f]);
    LastStateOfOne(map[], e);
    LastStateOfOne(LastStates(map[], [e]), f);
    assert Brings([[e], [f]][0], e.key.value);
  }

  lemma TakeInOne(t: Intake, e: Entry)
    ensures TakeIn(t, [e]) == TakeEntry(t, e)
  {
    assert [e][1..] == [];
    assert TakeIn(TakeEntry(t, e), []) == TakeEntry(t, e);
  }

  // A state that only moves its node within a stack does not get the stack
  // rebuilt.

  lemma ApplyingOne(r: Replica, id: Id, s: NodeState)
    requires !(id in r.states && r.states[id] == s)
    ensures var q := r.(states := r.states[id := s]);
            Merged(r, [Entry(Some(id), Some(State(s)))]) == Merge(Progress(q, {}, [], false), id, s)
  {
    var t0 := Intake(r.states, map[]);
    var e := Entry(Some(id), Some(State(s)));
    TakeInOne(t0, e);
    MergeOnlyOne(Progress(r.(states := r.states[id := s]), {}, [], false), id, map[id := s]);
  }

  /** The state keeps its node under the same parent, and listed. */
  ghost predicate StaysPut(r: Replica, id: Id, s: NodeState) {
    && !(id in r.states && r.states[id] == s) && id !in r.unlinked
    && HasId(r.nodes, id) && (s.parent.Some? ==> HasId(r.nodes, s.parent.value))
    && var n := r.nodes[Find(r.nodes, id).value]; !n.removed && !s.removed && n.parent == ParentOf(r.nodes, s.parent)
  }

  lemma StayingPutRebuildsNothing(r: Replica, id: Id, s: NodeState)
    requires NoneLinkable(r) && StaysPut(r, id, s)
    ensures var p := Apply(r, [Entry(Some(id), Some(State(s)))]);
            && p.parents == {} && p.r.positions == r.positions[id := s.position] && p.r.layers == r.layers
            && |p.r.nodes| == |r.nodes|
            && forall k :: 0 <= k < |r.nodes| ==> p.r.nodes[k].id == r.nodes[k].id && p.r.nodes[k].children == r.nodes[k].children
  {
    ApplyingOne(r, id, s);
    MergingInPlace(r, id, s);
    NothingToLink(Merge(Progress(r.(states := r.states[id := s]), {}, [], false), id, s));
  }

  lemma MergingInPlace(r: Replica, id: Id, s: NodeState)
    requires NoneLinkable(r) && StaysPut(r, id, s)
    ensures var m := Merge(Progress(r.(states := r.states[id := s]), {}, [], false), id, s);
            && m.parents == {} && NoneLinkable(m.r) && m.r.positions == r.positions[id := s.position] && m.r.layers == r.layers
            && |m.r.nodes| == |r.nodes|
            && forall k :: 0 <= k < |r.nodes| ==> m.r.nodes[k].id == r.nodes[k].id && m.r.nodes[k].children == r.nodes[k].children
  {
    var m := Merge(Progress(r.(states := r.states[id := s]), {}, [], false), id, s);
    assert m.r.unlinked == r.unlinked;
    SameIdsSameLinkable(r.nodes, m.r.nodes, r.unlinked);
  }

  lemma SameIdsSameLinkable(a: seq<Node>, b: seq<Node>, unlinked: map<Id, Id>)
    requires SameIds(a, b)
    ensures LinkableIds(a, unlinked) == LinkableIds(b, unlinked)
  {
    FindsAlike(a, b);
  }

  lemma NothingToLink(m: Progress)
    requires NoneLinkable(m.r) && m.parents == {}
    ensures var l := LinkWaiting(m); l.parents == {} && Relink(l.r, l.parents) == m.r
  {
    var l := LinkWaiting(m);
    assert l.r.nodes == m.r.nodes;
    assert l.r.unlinked == m.r.unlinked;
    assert l.parents == {};
    assert Relink(l.r, {}).nodes == l.r.nodes;
  }

  /** Moved past a stack-mate by its position alone, a node stays where it was
      listed: the stack is out of order. */
  lemma PositionAloneGoesStale(r: Replica, id: Id, s: NodeState, i: nat, j: nat)
    requires NoneLinkable(r) && StaysPut(r, id, s) && i < |r.nodes| && j < |r.nodes| && UniqueIds(r.nodes)
    requires r.nodes[i].id == id && i != j && Before(r.nodes, r.positions, i, j)
    requires IsExact(r, ParentOf(r.nodes, s.parent))
    requires Member(r.nodes[i], ParentOf(r.nodes, s.parent)) && Member(r.nodes[j], ParentOf(r.nodes, s.parent))
    requires Less(KeyOf(r.positions, r.nodes[j].id), s.position)
    ensures !IsExact(Apply(r, [Entry(Some(id), Some(State(s)))]).r, ParentOf(r.nodes, s.parent))
  {
    var q := ParentOf(r.nodes, s.parent);
    StayingPutRebuildsNothing(r, id, s);
    PassedOver(r, Apply(r, [Entry(Some(id), Some(State(s)))]).r, StackOf(r, q), i, j);
  }

  lemma PassedOver(a: Replica, b: Replica, stack: seq<nat>, i: nat, j: nat)
    requires Sorted(a.nodes, a.positions, stack) && i in stack && j in stack && i != j && Before(a.nodes, a.positions, i, j)
    requires i < |b.nodes| && j < |b.nodes| && Less(KeyOf(b.positions, b.nodes[j].id), KeyOf(b.positions, b.nodes[i].id))
    ensures !Sorted(b.nodes, b.positions, stack)
  {
    var x, y := InOrder(a, stack, i, j);
    var (p, q) := (KeyOf(b.positions, b.nodes[j].id), KeyOf(b.positions, b.nodes[i].id));
    LessIrreflexive(p);
    if Less(q, p) { LessTransitive(p, q, p); }
    assert !Before(b.nodes, b.positions, stack[x], stack[y]);
  }

  lemma InOrder(r: Replica, stack: seq<nat>, i: nat, j: nat) returns (a: nat, b: nat)
    requires Sorted(r.nodes, r.positions, stack) && i in stack && j in stack && i != j && Before(r.nodes, r.positions, i, j)
    ensures a < b < |stack| && stack[a] == i && stack[b] == j
  {
    a :| a < |stack| && stack[a] == i;
    b :| b < |stack| && stack[b] == j;
    BeforeIsStrictTotal(r.nodes, r.positions, i, j);
  }
}
