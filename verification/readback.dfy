/**
 Whole documents. The log the tree is compared with is itself what the events
 say, brackets aside: so reading the tree back gives the page's own order.
 */
module ReadBacks {
  import opened Common
  import opened Arenas
  import opened Tips
  import opened Builds
  import opened Pages
  import opened PaintOrder
  import opened BuildTrees
  import opened BuildRuns

  /** Something painted, whether it is among hidden objects, and the clips it is
      painted under. */
  datatype Seen = Seen(shape: Shape, hidden: bool, clips: seq<ClipPath>)

  /** What events paint, in order: brackets count only for what they hide, draw
      in their content's place, or draw whole. */
  function Flat(events: seq<Event>, hidden: bool): seq<Seen>
    decreases events
  {
    if events == [] then [] else FlatOne(events[0], hidden) + Flat(events[1..], hidden)
  }

  function FlatOne(event: Event, hidden: bool): seq<Seen>
    decreases event
  {
    match event
    case Paint(shape, clips) => [Seen(shape, hidden, clips)]
    case Form(form, clips, inner) => if form.masked then FlatOption(form.drawing, hidden, clips) else Flat(inner, hidden)
    case Mark(tag, clips, inner) =>
      if tag.DrawnTag? then FlatOption(tag.content, hidden, clips)
      else Flat(inner, hidden || (tag.OptionalContent? && tag.hides))
  }

  function FlatOption(shape: Option<Shape>, hidden: bool, clips: seq<ClipPath>): seq<Seen> {
    if shape.Some? then [Seen(shape.value, hidden, clips)] else []
  }

  // -------------------------------------------------- leaves keep their shape

  ghost function SeenAt(nodes: seq<Node>, i: nat, clips: seq<ClipPath>): Seen {
    var node := At(nodes, i);
    if node.kind.Leaf? then Seen(Shape(node.kind.content, node.kind.bounds, node.opacity, node.blend), node.hidden, clips)
    else Seen(Shape(0, None, 0.0, 0), false, clips)
  }

  ghost function SeenIn(nodes: seq<Node>, log: seq<Drawn>): (r: seq<Seen>)
    ensures |r| == |log|
  {
    seq(|log|, k requires 0 <= k < |log| => SeenAt(nodes, log[k].node, log[k].clips))
  }

  ghost predicate LogOfLeaves(nodes: seq<Node>, log: seq<Drawn>) {
    && (forall k :: 0 <= k < |log| ==> log[k].node < |nodes| && nodes[log[k].node].kind.Leaf?)
    && (forall j, k :: 0 <= j < k < |log| ==> log[j].node < log[k].node)
  }

  /** Leaves keep what they show. */
  ghost predicate KeepsSeen(nodes: seq<Node>, t: seq<Node>) {
    |nodes| <= |t| && forall i: nat :: i < |nodes| && nodes[i].kind.Leaf? ==> t[i].kind.Leaf? && SeenAt(t, i, []) == SeenAt(nodes, i, [])
  }

  lemma KeepsSeenTrans(a: seq<Node>, b: seq<Node>, c: seq<Node>)
    requires KeepsSeen(a, b) && KeepsSeen(b, c)
    ensures KeepsSeen(a, c)
  {}

  lemma SeenKept(nodes: seq<Node>, t: seq<Node>, log: seq<Drawn>)
    requires KeepsSeen(nodes, t) && LogOfLeaves(nodes, log)
    ensures LogOfLeaves(t, log) && SeenIn(t, log) == SeenIn(nodes, log)
  {}

  lemma AppendKeepsSeen(nodes: seq<Node>, node: Node, parent: nat)
    ensures KeepsSeen(nodes, Append(nodes, node, parent))
  {}

  lemma {:induction false} OpenGroupsKeepSeen(b: Build, open: seq<OpenClip>, parent: nat, wanted: seq<ClipPath>)
    ensures KeepsSeen(b.nodes, OpenGroups(b, open, parent, wanted).0.nodes)
    decreases |wanted|
  {
    if wanted != [] {
      var (c, g) := Insert(b, ClipGroup(wanted[0]), parent);
      OpenGroupsKeepSeen(c, open + [OpenClip(wanted[0].serial, g)], g, wanted[1..]);
      KeepsSeenTrans(b.nodes, c.nodes, OpenGroups(b, open, parent, wanted).0.nodes);
    }
  }

  lemma SwitchKeepsSeen(b: Build, k: nat, wanted: seq<ClipPath>)
    requires b.frames != [] && k <= |Top(b).open|
    ensures KeepsSeen(b.nodes, Switch(b, k, wanted).0.nodes) && Switch(b, k, wanted).0.log == b.log
  {
    var open := Top(b).open[..k];
    var (c, parent) := if open == [] then FrameContainer(b) else (b, open[k - 1].group);
    assert KeepsSeen(b.nodes, c.nodes);
    OpenGroupsKeepSeen(c, open, parent, wanted);
    KeepsSeenTrans(b.nodes, c.nodes, OpenGroups(c, open, parent, wanted).0.nodes);
  }

  lemma ContainerKeepsSeen(b: Build, clips: seq<ClipPath>)
    requires b.frames != []
    ensures KeepsSeen(b.nodes, Container(b, clips).0.nodes) && Container(b, clips).0.log == b.log
  {
    var own := TakeOwnClip(b, clips);
    assert KeepsSeen(b.nodes, own.nodes);
    var wanted := Wanted(clips, Top(own).base);
    var k := Keep(Top(own).open, wanted);
    SwitchKeepsSeen(own, k, wanted[k..]);
    KeepsSeenTrans(b.nodes, own.nodes, Container(b, clips).0.nodes);
  }

  lemma PopKeepsSeen(b: Build)
    requires b.frames != []
    ensures KeepsSeen(b.nodes, PopFrame(b).nodes)
  {
    var f := Top(b);
    if f.kind.FormFrame? && f.container.Some? {
      TidyKeepsSeen(b.nodes, f.container.value, f.kind.named);
    }
  }

  lemma TidyKeepsSeen(nodes: seq<Node>, g: nat, named: bool)
    ensures KeepsSeen(nodes, Tidied(nodes, g, named))
  {
    var node := At(nodes, g);
    if node.children == [] && !named {
      DetachKeepsSeen(nodes, g);
    } else if !named {
      var a := if ClipsNothing(nodes, g) then Put(nodes, g, Unclipped(node)) else nodes;
      if Trivial(At(a, g)) && |node.children| == 1 && node.parent.Some? {
        HoistKeepsSeen(a, g, node.children[0], node.parent.value);
        KeepsSeenTrans(nodes, a, Hoist(a, g, node.children[0], node.parent.value));
      }
    }
  }

  lemma DetachKeepsSeen(nodes: seq<Node>, g: nat)
    ensures KeepsSeen(nodes, Detach(nodes, g))
  {}

  lemma HoistKeepsSeen(nodes: seq<Node>, g: nat, child: nat, parent: nat)
    ensures KeepsSeen(nodes, Hoist(nodes, g, child, parent))
  {}

  // ----------------------------------------------------- the log is the page

  /** A run that has painted `seen`. */
  ghost predicate Paints(b: Build, c: Build, seen: seq<Seen>) {
    LogOfLeaves(b.nodes, b.log) ==> LogOfLeaves(c.nodes, c.log) && SeenIn(c.nodes, c.log) == SeenIn(b.nodes, b.log) + seen
  }

  lemma PaintsTrans(a: Build, b: Build, c: Build, first: seq<Seen>, second: seq<Seen>)
    requires Paints(a, b, first) && Paints(b, c, second)
    ensures Paints(a, c, first + second)
  {
    assert SeenIn(a.nodes, a.log) + first + second == SeenIn(a.nodes, a.log) + (first + second);
  }

  lemma PaintsNothing(b: Build, c: Build)
    requires KeepsSeen(b.nodes, c.nodes) && c.log == b.log
    ensures Paints(b, c, [])
  {
    if LogOfLeaves(b.nodes, b.log) { SeenKept(b.nodes, c.nodes, b.log); }
  }

  lemma AddLeafPaints(b: Build, shape: Shape, clips: seq<ClipPath>)
    requires b.frames != []
    ensures Paints(b, Add(b, LeafNode(shape), clips).0, [Seen(shape, b.hidden > 0, clips)])
  {
    ContainerKeepsSeen(b, clips);
    ContainerFrames(b, clips);
    var (c, parent) := Container(b, clips);
    InsertLeafPaints(c, shape, parent, Add(b, LeafNode(shape), clips).0);
    PaintsNothing(b, c);
    PaintsTrans(b, c, Add(b, LeafNode(shape), clips).0, [], [Seen(shape, b.hidden > 0, clips)]);
    assert [] + [Seen(shape, b.hidden > 0, clips)] == [Seen(shape, b.hidden > 0, clips)];
  }

  lemma InsertLeafPaints(c: Build, shape: Shape, parent: nat, r: Build)
    requires var (d, i) := Insert(c, LeafNode(shape), parent);
             && r.nodes == d.nodes && |r.log| == |c.log| + 1 && r.log[..|c.log|] == c.log && r.log[|c.log|].node == i
    ensures Paints(c, r, [Seen(shape, c.hidden > 0, r.log[|c.log|].clips)])
  {
    AppendKeepsSeen(c.nodes, r.nodes[|c.nodes|], parent);
    assert SeenAt(r.nodes, |c.nodes|, r.log[|c.log|].clips) == Seen(shape, c.hidden > 0, r.log[|c.log|].clips);
    if LogOfLeaves(c.nodes, c.log) {
      SeenKept(c.nodes, r.nodes, c.log);
      assert SeenIn(r.nodes, r.log) == SeenIn(r.nodes, c.log) + [SeenAt(r.nodes, |c.nodes|, r.log[|c.log|].clips)];
    }
  }

  lemma AddGroupPaints(b: Build, node: Node, clips: seq<ClipPath>)
    requires b.frames != [] && node.kind.Group?
    ensures KeepsSeen(b.nodes, Add(b, node, clips).0.nodes) && Add(b, node, clips).0.log == b.log
  {
    ContainerKeepsSeen(b, clips);
    var (c, parent) := Container(b, clips);
    KeepsSeenTrans(b.nodes, c.nodes, Add(b, node, clips).0.nodes);
  }

  lemma BeginGroupPaints(b: Build, form: FormData, clips: seq<ClipPath>)
    requires b.frames != []
    ensures Paints(b, BeginGroup(b, form, clips), if b.skip == 0 && form.masked then FlatOption(form.drawing, b.hidden > 0, clips) else [])
  {
    if b.skip > 0 || (form.masked && form.drawing.None?) {
      PaintsNothing(b, b);
    } else if form.masked {
      AddLeafPaints(b, form.drawing.value, clips);
    } else {
      AddGroupPaints(b, FormGroup(form), clips);
      PaintsNothing(b, BeginGroup(b, form, clips));
    }
  }

  lemma BeginMarkedPaints(b: Build, tag: Tag, clips: seq<ClipPath>)
    requires b.frames != []
    ensures Paints(b, BeginMarked(b, tag, clips), if b.skip == 0 && tag.DrawnTag? then FlatOption(tag.content, b.hidden > 0, clips) else [])
  {
    var c := BeginMarked(b, tag, clips);
    if b.skip == 0 && tag.DrawnTag? && tag.content.Some? {
      AddLeafPaints(b, tag.content.value, clips);
    } else {
      if b.skip == 0 && tag.GroupTag? && !NamesForm(b) {
        AddGroupPaints(b, NewNode(Group(None, false, false)).(name := tag.name), clips);
      }
      PaintsNothing(b, c);
    }
  }

  lemma EndMarkedPaints(b: Build, c: Build, d: Build)
    requires b.frames != [] && c.frames != [] && MarkedAs(b, c) && SameFrames(c, d) && SameMarks(c, d)
    ensures Paints(d, EndMarked(d), [])
  {
    var mark := c.marked[|b.marked|];
    var e := d.(marked := b.marked);
    if mark.MarkedLayer? || mark.MarkedGroup? {
      assert PopTo(e, |b.frames|) == PopFrame(e);
      PopKeepsSeen(e);
    }
    PaintsNothing(d, EndMarked(d));
  }

  /** Running events paints exactly what they say, in order; nothing while
      drawing is skipped. */
  lemma {:induction false} ProcessPaints(b: Build, events: seq<Event>)
    requires b.frames != []
    ensures Paints(b, Process(b, events), if b.skip > 0 then [] else Flat(events, b.hidden > 0))
    decreases events
  {
    if events == [] {
      PaintsNothing(b, b);
    } else {
      var c := ProcessOne(b, events[0]);
      ProcessOnePaints(b, events[0]);
      ProcessPaints(c, events[1..]);
      PaintsTrans(b, c, Process(b, events),
                  if b.skip > 0 then [] else FlatOne(events[0], b.hidden > 0), if b.skip > 0 then [] else Flat(events[1..], b.hidden > 0));
    }
  }

  lemma {:induction false} ProcessOnePaints(b: Build, event: Event)
    requires b.frames != []
    ensures Paints(b, ProcessOne(b, event), if b.skip > 0 then [] else FlatOne(event, b.hidden > 0))
    decreases event
  {
    match event {
      case Paint(shape, clips) =>
        if b.skip > 0 { PaintsNothing(b, b); } else { AddLeafPaints(b, shape, clips); }
      case Form(form, clips, inner) =>
        BeginGroupPaints(b, form, clips);
        if Enters(b, form) {
          BeginGroupFrames(b, form, clips);
          ProcessPaints(BeginGroup(b, form, clips), inner);
          FormPaints(b, form, clips, inner);
        }
      case Mark(tag, clips, inner) =>
        BeginMarkedPaints(b, tag, clips);
        BeginMarkedFrames(b, tag, clips);
        ProcessPaints(BeginMarked(b, tag, clips), inner);
        MarkPaints(b, tag, clips, inner);
    }
  }

  lemma FormPaints(b: Build, form: FormData, clips: seq<ClipPath>, inner: seq<Event>)
    requires b.frames != [] && Enters(b, form) && BeginGroup(b, form, clips).frames != []
    requires var c := BeginGroup(b, form, clips);
             Paints(b, c, []) && Paints(c, Process(c, inner), Flat(inner, b.hidden > 0))
    ensures Paints(b, ProcessOne(b, Form(form, clips, inner)), Flat(inner, b.hidden > 0))
  {
    BeginGroupFrames(b, form, clips);
    PopPaints(b, BeginGroup(b, form, clips), Process(BeginGroup(b, form, clips), inner), Flat(inner, b.hidden > 0));
  }

  lemma PopPaints(b: Build, c: Build, d: Build, seen: seq<Seen>)
    requires Paints(b, c, []) && Paints(c, d, seen) && d.frames != []
    ensures Paints(b, PopFrame(d), seen)
  {
    PopKeepsSeen(d);
    PaintsNothing(d, PopFrame(d));
    PaintsTrans(b, c, d, [], seen);
    PaintsTrans(b, d, PopFrame(d), [] + seen, []);
    assert [] + seen + [] == seen;
  }

  lemma MarkPaints(b: Build, tag: Tag, clips: seq<ClipPath>, inner: seq<Event>)
    requires b.frames != [] && BeginMarked(b, tag, clips).frames != []
    requires var c := BeginMarked(b, tag, clips);
             && Paints(b, c, if b.skip == 0 && tag.DrawnTag? then FlatOption(tag.content, b.hidden > 0, clips) else [])
             && Paints(c, Process(c, inner), if c.skip > 0 then [] else Flat(inner, c.hidden > 0))
    ensures Paints(b, ProcessOne(b, Mark(tag, clips, inner)), if b.skip > 0 then [] else FlatOne(Mark(tag, clips, inner), b.hidden > 0))
  {
    BeginMarkedFrames(b, tag, clips);
    var c := BeginMarked(b, tag, clips);
    var d := Process(c, inner);
    EndMarkedPaints(b, c, d);
    var before := if b.skip == 0 && tag.DrawnTag? then FlatOption(tag.content, b.hidden > 0, clips) else [];
    var inside := if c.skip > 0 then [] else Flat(inner, c.hidden > 0);
    PaintsTrans(b, c, d, before, inside);
    PaintsTrans(b, d, EndMarked(d), before + inside, []);
    MarkCounts(b, tag, clips);
    assert before + inside + [] == if b.skip > 0 then [] else FlatOne(Mark(tag, clips, inner), b.hidden > 0);
  }

  lemma MarkCounts(b: Build, tag: Tag, clips: seq<ClipPath>)
    requires b.frames != []
    ensures var c := BeginMarked(b, tag, clips);
            && (c.skip > 0 <==> b.skip > 0 || tag.DrawnTag?)
            && (b.skip == 0 && !tag.DrawnTag? ==> (c.hidden > 0 <==> b.hidden > 0 || (tag.OptionalContent? && tag.hides)))
  {
    if b.skip == 0 {
      match tag {
        case GroupTag(name, clip) =>
          if !NamesForm(b) { AddFrames(b, NewNode(Group(None, false, false)).(name := name), clips); }
        case DrawnTag(content) =>
          if content.Some? { AddFrames(b, LeafNode(content.value), clips); }
        case _ =>
      }
    }
  }

  // --------------------------------------------------------------- documents

  /** Reading pages one after another. */
  function Read(b: Build, pages: seq<seq<Event>>): Build
    decreases |pages|
  {
    if pages == [] then b else Read(Finish(Process(Opened(b), pages[0])), pages[1..])
  }

  function FlatPages(pages: seq<seq<Event>>): seq<Seen> {
    if pages == [] then [] else Flat(pages[0], false) + FlatPages(pages[1..])
  }

  /** At the end of a page only the page's own frame is left. */
  lemma FinishIdle(b: Build, events: seq<Event>)
    ensures Finish(Process(Opened(b), events)) == Process(Opened(b), events)
    ensures |Process(Opened(b), events).frames| == 1 && Top(Process(Opened(b), events)).kind.PageFrame?
  {}

  lemma OpensOk(b: Build)
    requires LayersOk(b) && Idle(b)
    ensures BuildOk(Opened(b))
  {
    var c := Opened(b);
    assert Trunk(c.frames) == [] by { assert c.frames[..0] == [] && Spine(c.frames[0]) == []; }
  }

  lemma {:induction false} ReadOk(b: Build, pages: seq<seq<Event>>)
    requires LayersOk(b) && Idle(b)
    ensures LayersOk(Read(b, pages)) && Idle(Read(b, pages))
    ensures Paints(b, Read(b, pages), FlatPages(pages))
    decreases |pages|
  {
    if pages == [] {
      PaintsNothing(b, b);
    } else {
      var o := Opened(b);
      var c := Process(o, pages[0]);
      OpensOk(b);
      ProcessOk(o, pages[0]);
      ProcessPaints(o, pages[0]);
      FinishIdle(b, pages[0]);
      ReadOk(c, pages[1..]);
      PaintsNothing(b, o);
      PaintsTrans(b, o, c, [], Flat(pages[0], false));
      PaintsTrans(b, c, Read(c, pages[1..]), [] + Flat(pages[0], false), FlatPages(pages[1..]));
      assert [] + Flat(pages[0], false) == Flat(pages[0], false);
    }
  }

  /** Any document, whatever its forms, marks and clips: the arena is a tree,
      the leaves of every layer are the objects drawn in it in the order they
      were drawn, and what was drawn is what the pages paint, in order. */
  lemma DocumentReadsBack(pages: seq<seq<Event>>)
    ensures var b := Read(EMPTY, pages);
            && Tree(b.nodes)
            && (forall layer: nat :: IsLayer(b.nodes, layer) ==> Leaves(b.nodes, layer) == DrawnIn(b.log, layer))
            && LogOfLeaves(b.nodes, b.log) && SeenIn(b.nodes, b.log) == FlatPages(pages)
  {
    ReadOk(EMPTY, pages);
    assert SeenIn(EMPTY.nodes, EMPTY.log) + FlatPages(pages) == FlatPages(pages);
  }

  lemma {:induction false} DrawnIsIn(log: seq<Drawn>, k: nat)
    requires k < |log|
    ensures log[k].node in DrawnIn(log, log[k].layer)
  {
    var n := |log| - 1;
    if k < n { DrawnIsIn(log[..n], k); }
  }

  /** Nothing drawn is lost: it is a live leaf of the layer it was drawn in. */
  lemma NothingDrawnIsLost(pages: seq<seq<Event>>, k: nat)
    requires k < |Read(EMPTY, pages).log|
    ensures var b := Read(EMPTY, pages);
            IsLayer(b.nodes, b.log[k].layer) && b.log[k].node in Leaves(b.nodes, b.log[k].layer)
  {
    ReadOk(EMPTY, pages);
    DrawnIsIn(Read(EMPTY, pages).log, k);
  }
}
