/**
 Every event keeps the builder in order, and so does every page: what it
 describes ends up in the tree once, where it was drawn, in the order it was
 drawn.
 */
module BuildRuns {
  import opened Common
  import opened Arenas
  import opened Tips
  import opened Builds
  import opened Pages
  import opened PaintOrder
  import opened BuildTrees

  lemma {:induction false} LayerIsRoot(frames: seq<Frame>)
    requires Stacked(frames) && Trunk(frames) != []
    ensures Trunk(frames)[0] == LayerOf(frames)
    decreases |frames|
  {
    var n := |frames| - 1;
    if n > 0 && !frames[n].kind.LayerFrame? {
      BelowExists(frames);
      LayerIsRoot(frames[..n]);
      assert LayerOf(frames[..n]) == LayerOf(frames);
    }
  }

  // ----------------------------------------------------------------- adding

  lemma InsertedOk(b: Build, nodes: seq<Node>, log: seq<Drawn>, name: Option<string>)
    requires BuildOk(b) && Filling(nodes, Trunk(b.frames), Low(b.frames), log) && KeepsLayers(b.nodes, nodes)
    ensures BuildOk(b.(nodes := nodes, log := log, name := name))
  {
    var c := b.(nodes := nodes, log := log, name := name);
    TableKept(b, c);
    BuildOkFrom(c);
  }

  lemma AddLeafOk(b: Build, shape: Shape, clips: seq<ClipPath>)
    requires BuildOk(b)
    ensures BuildOk(Add(b, LeafNode(shape), clips).0)
  {
    ContainerOk(b, clips);
    var (c, parent) := Container(b, clips);
    var (d, i) := Insert(c, LeafNode(shape), parent);
    var hidden := if c.hidden > 0 then LeafNode(shape).(hidden := true) else LeafNode(shape);
    var named := if c.name.Some? then hidden.(name := c.name.value) else hidden;
    var drawn := Drawn(i, LayerOf(d.frames), clips, Top(d).fates, ClipsOn(d.nodes, i));
    LayerIsRoot(c.frames);
    AddLeaf(c.nodes, named, Trunk(c.frames), Low(c.frames), c.log, drawn);
    AppendLayers(c.nodes, named, parent);
    InsertedOk(c, d.nodes, c.log + [drawn], None);
  }

  lemma AddGroupOk(b: Build, node: Node, clips: seq<ClipPath>)
    requires BuildOk(b) && node.kind.Group? && node.children == [] && !node.removed
    ensures var (c, g) := Add(b, node, clips);
            BuildOk(c) && Trunk(c.frames) != [] && Filling(c.nodes, Trunk(c.frames) + [g], Low(c.frames), c.log)
  {
    ContainerOk(b, clips);
    var (c, parent) := Container(b, clips);
    InsertGroupOk(c, node, Trunk(c.frames), Low(c.frames));
    var (d, g) := Insert(c, node, parent);
    FillingShorter(d.nodes, Trunk(c.frames) + [g], Low(c.frames), c.log, |Trunk(c.frames)|);
    assert (Trunk(c.frames) + [g])[..|Trunk(c.frames)|] == Trunk(c.frames);
    InsertedOk(c, d.nodes, c.log, c.name);
    assert Trunk(d.frames) == Trunk(c.frames) && Low(d.frames) == Low(c.frames);
  }

  // ----------------------------------------------------------------- frames

  lemma PushFrameOk(b: Build, f: Frame, c: Build)
    requires BuildOk(b) && Trunk(b.frames) != [] && f.container.Some? && f.open == [] && (f.kind.FormFrame? || f.kind.GroupFrame?)
    requires Filling(b.nodes, Trunk(b.frames) + [f.container.value], Low(b.frames), b.log)
    requires c == b.(frames := b.frames + [f], marked := c.marked)
    ensures BuildOk(c)
  {
    assert c.frames[..|b.frames|] == b.frames;
    PushStacked(b.frames, f);
    assert Spine(f) == [f.container.value];
    TableKept(b, c);
    BuildOkFrom(c);
  }

  lemma PushStacked(frames: seq<Frame>, f: Frame)
    requires Stacked(frames) && Trunk(frames) != [] && f.container.Some? && (f.kind.FormFrame? || f.kind.GroupFrame?)
    ensures Stacked(frames + [f]) && Low(frames + [f]) == Low(frames)
    ensures HasLayer(frames + [f]) == HasLayer(frames)
  {
    if |frames| == 1 {
      BottomExists(frames);
    }
  }

  lemma BottomExists(frames: seq<Frame>)
    requires Stacked(frames) && |frames| == 1 && Trunk(frames) != []
    ensures frames[0].container.Some?
  {
    assert frames[..0] == [];
  }

  lemma PopStacked(frames: seq<Frame>)
    requires Stacked(frames) && |frames| > 1
    ensures Stacked(frames[..|frames| - 1])
  {}

  /** The group of the top frame is the last child of what is below it. */
  lemma TopGroup(b: Build)
    requires BuildOk(b) && |b.frames| > 1 && !Top(b).kind.LayerFrame?
    ensures var g := Top(b).container.value;
            && Below(b.frames) != [] && Filling(b.nodes, Below(b.frames), Low(b.frames), b.log)
            && g < |b.nodes| && b.nodes[g].kind.Group? && LastChild(b.nodes, Last(Below(b.frames)), g)
  {
    BelowExists(b.frames);
    var path := Trunk(b.frames);
    var m := |Below(b.frames)|;
    assert path == Below(b.frames) + Spine(Top(b));
    assert path[..m] == Below(b.frames) && path[m] == Top(b).container.value;
    FillingShorter(b.nodes, path, Low(b.frames), b.log, m);
    PathGroup(b.nodes, path, m);
  }

  lemma PathGroup(nodes: seq<Node>, path: seq<nat>, m: nat)
    requires Tree(nodes) && Descends(nodes, path) && 0 < m < |path|
    ensures path[m] < |nodes| && nodes[path[m]].kind.Group? && LastChild(nodes, path[m - 1], path[m])
  {
    assert LastChild(nodes, path[m - 1], path[m]);
    LastChildIsChild(nodes, path[m - 1], path[m]);
    assert Holds(nodes, path[m]) && NodeOk(nodes, path[m]);
  }

  lemma PopFrameOk(b: Build)
    requires BuildOk(b) && |b.frames| > 1
    ensures BuildOk(PopFrame(b))
  {
    if Top(b).kind.LayerFrame? {
      PopLayerOk(b);
    } else {
      var c := PopFrame(b);
      BelowExists(b.frames);
      TopGroup(b);
      PopTable(b, c);
      if Top(b).kind.FormFrame? {
        TidyGroup(b.nodes, Below(b.frames), Top(b).container.value, Low(b.frames), b.log, Top(b).kind.named);
      }
      BuildOkFrom(c);
    }
  }

  /** The page's own path is filled again. */
  lemma PopLayerOk(b: Build)
    requires BuildOk(b) && |b.frames| > 1 && Top(b).kind.LayerFrame?
    ensures BuildOk(PopFrame(b))
  {
    PopStacked(b.frames);
    var page := b.frames[0];
    assert PopFrame(b).frames == [page] && Low(b.frames) == Spine(page);
    LayerPopped(page);
    LowWaits(b);
    assert LayersOk(PopFrame(b));
  }

  lemma LowWaits(b: Build)
    requires BuildOk(b) && HasLayer(b.frames)
    ensures Low(b.frames) != [] ==> Filling(b.nodes, Low(b.frames), [], b.log)
  {
    TrunkTip(b.frames);
  }

  lemma LayerPopped(page: Frame)
    requires !page.kind.LayerFrame?
    ensures Trunk([page]) == Spine(page) && Low([page]) == []
  {
    assert [page][..0] == [];
  }

  lemma PopTable(b: Build, c: Build)
    requires LayersOk(b) && Stacked(b.frames) && |b.frames| > 1 && c == PopFrame(b) && !Top(b).kind.LayerFrame?
    requires Top(b).container.Some? && Top(b).container.value < |b.nodes| && b.nodes[Top(b).container.value].kind.Group?
    ensures LayersOk(c)
  {
    if Top(b).kind.FormFrame? {
      TidyLayers(b.nodes, Top(b).container.value, Top(b).kind.named);
    }
    TableKept(b, c);
  }

  // ----------------------------------------------------------------- events

  lemma BeginGroupOk(b: Build, form: FormData, clips: seq<ClipPath>)
    requires BuildOk(b)
    ensures BuildOk(BeginGroup(b, form, clips))
  {
    if b.skip > 0 {
    } else if form.masked {
      if form.drawing.Some? { AddLeafOk(b, form.drawing.value, clips); }
    } else {
      AddGroupOk(b, FormGroup(form), clips);
      var (c, g) := Add(b, FormGroup(form), clips);
      PushFrameOk(c, Top(BeginGroup(b, form, clips)), BeginGroup(b, form, clips));
    }
  }

  lemma BeginMarkedGroupOk(b: Build, name: string, clip: bool, clips: seq<ClipPath>)
    requires BuildOk(b)
    ensures BuildOk(BeginMarkedGroup(b, name, clip, clips))
  {
    var node := NewNode(Group(None, false, false)).(name := name);
    AddGroupOk(b, node, clips);
    var (c, g) := Add(b, node, clips);
    PushFrameOk(c, Top(BeginMarkedGroup(b, name, clip, clips)), BeginMarkedGroup(b, name, clip, clips));
  }

  lemma NameFormOk(b: Build, name: string, clip: bool)
    requires BuildOk(b) && NamesForm(b)
    ensures BuildOk(NameForm(b, name, clip))
  {
    TopGroup(b);
    NamedOk(b, NameForm(b, name, clip), name);
  }

  lemma NamedOk(b: Build, c: Build, name: string)
    requires BuildOk(b) && Top(b).container.Some? && Top(b).container.value < |b.nodes| && b.nodes[Top(b).container.value].kind.Group?
    requires c.frames != [] && c.frames == WithTop(b, Top(c)).frames && SameKind(Top(b), Top(c))
    requires Top(c).container == Top(b).container && Top(c).open == Top(b).open
    requires var g := Top(b).container.value;
             c == b.(frames := c.frames, marked := c.marked, nodes := Put(b.nodes, g, Unclipped(b.nodes[g]).(name := name)))
    ensures BuildOk(c)
  {
    var g := Top(b).container.value;
    SameTrunk(b, c);
    TrunkTip(b.frames);
    Reclip(b.nodes, g, Unclipped(b.nodes[g]).(name := name), Trunk(b.frames), Low(b.frames), b.log);
    TableKept(b, c);
    BuildOkFrom(c);
  }

  /** A layer apart from the one being filled. */
  ghost predicate Apart(b: Build, c: Build, layer: nat) {
    && BuildOk(c) && c.frames == b.frames && IsLayer(c.nodes, layer) && Some(layer) != c.defaultLayer
    && Descends(c.nodes, [layer]) && (Trunk(b.frames) != [] ==> Trunk(b.frames)[0] != layer)
  }

  lemma LayerForOk(b: Build, ref: LayerRef)
    requires BuildOk(b) && |b.frames| == 1
    ensures var (c, layer) := LayerFor(b, ref);
            Apart(b, c, layer)
  {
    if ref.number.Some? && ref.number.value in b.byGroup {
      KnownLayerOk(b, b.byGroup[ref.number.value]);
    } else {
      NewLayerOk(b, ref.name, LayerFor(b, ref).0);
    }
  }

  lemma KnownLayerOk(b: Build, layer: nat)
    requires BuildOk(b) && |b.frames| == 1 && IsLayer(b.nodes, layer) && Some(layer) != b.defaultLayer
    ensures Apart(b, b, layer)
  {
    if Trunk(b.frames) != [] { LayerIsRoot(b.frames); }
    assert NodeOk(b.nodes, layer);
  }

  lemma NewLayerOk(b: Build, name: string, c: Build)
    requires BuildOk(b) && |b.frames| == 1
    requires c == NewLayer(b, name, false).0.(byGroup := c.byGroup)
    requires forall n :: n in c.byGroup ==> c.byGroup[n] == |b.nodes| || (n in b.byGroup && c.byGroup[n] == b.byGroup[n])
    ensures Apart(b, c, |b.nodes|)
  {
    AddLayer(b.nodes, NewNode(Layer).(name := name), b.log);
    PathInLonger(b.nodes, c.nodes, Trunk(b.frames));
    assert Trunk(b.frames) != [] ==> Holds(b.nodes, Trunk(b.frames)[0]);
    NewLayerTable(b, c, |b.nodes|);
  }

  lemma NewLayerTable(b: Build, c: Build, layer: nat)
    requires LayersOk(b) && layer == |b.nodes| && |c.nodes| == |b.nodes| + 1 && IsLayer(c.nodes, layer)
    requires c == b.(nodes := c.nodes, layers := c.layers, byGroup := c.byGroup)
    requires forall i :: 0 <= i < |b.nodes| ==> c.nodes[i] == b.nodes[i]
    requires forall n :: n in c.byGroup ==> c.byGroup[n] == layer || (n in b.byGroup && c.byGroup[n] == b.byGroup[n])
    ensures LayersOk(c)
  {}

  lemma BeginLayerOk(b: Build, ref: LayerRef)
    requires BuildOk(b) && |b.frames| == 1
    ensures BuildOk(BeginLayer(b, ref))
  {
    LayerForOk(b, ref);
    var (c, layer) := LayerFor(b, ref);
    PushLayerOk(b, c, layer, BeginLayer(b, ref));
  }

  lemma PushLayerOk(b: Build, c: Build, layer: nat, d: Build)
    requires |b.frames| == 1 && Apart(b, c, layer)
    requires d == c.(seenLayer := true, frames := c.frames + [NewFrame(LayerFrame, Some(layer), [], [])], marked := d.marked)
    ensures BuildOk(d)
  {
    var f := NewFrame(LayerFrame, Some(layer), [], []);
    assert d.frames == [c.frames[0], f] && c.frames == [c.frames[0]];
    LayerPushed(c.frames[0], f, layer);
    LayersStillOk(c, d, layer);
    FillingLayer(c, layer);
    BuildOkFrom(d);
  }

  lemma FillingLayer(c: Build, layer: nat)
    requires BuildOk(c) && Descends(c.nodes, [layer])
    requires Trunk(c.frames) != [] ==> Trunk(c.frames)[0] != layer
    ensures Filling(c.nodes, [layer], Trunk(c.frames), c.log)
  {}

  lemma LayerPushed(page: Frame, f: Frame, layer: nat)
    requires f == NewFrame(LayerFrame, Some(layer), [], []) && Stacked([page])
    ensures Stacked([page, f]) && Trunk([page, f]) == [layer] && Low([page, f]) == Spine(page) == Trunk([page])
  {
    assert [page][..0] == [];
    assert Spine(f) == [layer];
  }

  lemma LayersStillOk(c: Build, d: Build, layer: nat)
    requires LayersOk(c) && |c.frames| == 1 && d == c.(frames := d.frames, marked := d.marked, seenLayer := true)
    requires |d.frames| == 2 && d.frames[0] == c.frames[0] && d.frames[1].container == Some(layer) && Some(layer) != c.defaultLayer
    ensures LayersOk(d)
  {}

  lemma BeginMarkedOk(b: Build, tag: Tag, clips: seq<ClipPath>)
    requires BuildOk(b)
    ensures BuildOk(BeginMarked(b, tag, clips))
  {
    if b.skip == 0 {
      match tag {
        case OptionalContent(hides, layer) =>
          if !hides && |b.frames| == 1 && layer.Some? {
            BeginLayerOk(b, layer.value);
          } else {
            SameStateOk(b, BeginMarked(b, tag, clips));
          }
        case GroupTag(name, clip) =>
          if NamesForm(b) { NameFormOk(b, name, clip); } else { BeginMarkedGroupOk(b, name, clip, clips); }
        case DrawnTag(content) =>
          if content.Some? { AddLeafOk(b, content.value, clips); }
          SameStateOk(if content.Some? then Add(b, LeafNode(content.value), clips).0 else b, BeginMarked(b, tag, clips));
        case _ =>
          SameStateOk(b, BeginMarked(b, tag, clips));
      }
    }
  }

  lemma SameStateOk(b: Build, c: Build)
    requires BuildOk(b)
    requires c == b.(marked := c.marked, skip := c.skip, hidden := c.hidden, name := c.name)
    ensures BuildOk(c)
  {}

  lemma EndMarkedOk(b: Build, c: Build, d: Build)
    requires b.frames != [] && c.frames != [] && MarkedAs(b, c) && SameFrames(c, d) && SameMarks(c, d) && BuildOk(d)
    ensures BuildOk(EndMarked(d))
  {
    var e := d.(marked := b.marked);
    SameStateOk(d, e);
    var mark := c.marked[|b.marked|];
    if mark.MarkedLayer? || mark.MarkedGroup? {
      assert PopTo(e, |b.frames|) == PopFrame(e);
      PopFrameOk(e);
    } else {
      SameStateOk(e, EndMarked(d));
    }
  }

  lemma {:induction false} ProcessOk(b: Build, events: seq<Event>)
    requires BuildOk(b)
    ensures BuildOk(Process(b, events))
    decreases events
  {
    if events != [] {
      ProcessOneOk(b, events[0]);
      ProcessOk(ProcessOne(b, events[0]), events[1..]);
    }
  }

  lemma {:induction false} ProcessOneOk(b: Build, event: Event)
    requires BuildOk(b)
    ensures BuildOk(ProcessOne(b, event))
    decreases event
  {
    match event {
      case Paint(shape, clips) =>
        if b.skip == 0 { AddLeafOk(b, shape, clips); }
      case Form(form, clips, inner) =>
        BeginGroupOk(b, form, clips);
        if Enters(b, form) {
          ProcessOk(BeginGroup(b, form, clips), inner);
        }
        FormEnds(b, form, clips, inner);
      case Mark(tag, clips, inner) =>
        BeginMarkedOk(b, tag, clips);
        ProcessOk(BeginMarked(b, tag, clips), inner);
        MarkEnds(b, tag, clips, inner);
    }
  }

  lemma MarkEnds(b: Build, tag: Tag, clips: seq<ClipPath>, inner: seq<Event>)
    requires BuildOk(b) && BuildOk(BeginMarked(b, tag, clips)) && BuildOk(Process(BeginMarked(b, tag, clips), inner))
    ensures BuildOk(ProcessOne(b, Mark(tag, clips, inner)))
  {
    BeginMarkedFrames(b, tag, clips);
    EndMarkedOk(b, BeginMarked(b, tag, clips), Process(BeginMarked(b, tag, clips), inner));
  }

  /** The form's own frame is on top when it ends, so closing it closes that
      frame and no other. */
  lemma FormEnds(b: Build, form: FormData, clips: seq<ClipPath>, inner: seq<Event>)
    requires BuildOk(b) && BuildOk(BeginGroup(b, form, clips))
    requires Enters(b, form) ==> BuildOk(Process(BeginGroup(b, form, clips), inner))
    ensures BuildOk(ProcessOne(b, Form(form, clips, inner)))
    ensures Enters(b, form) ==> ProcessOne(b, Form(form, clips, inner)) == PopFrame(Process(BeginGroup(b, form, clips), inner))
  {
    BeginGroupFrames(b, form, clips);
    if Enters(b, form) {
      PopFrameOk(Process(BeginGroup(b, form, clips), inner));
    }
  }
}
