/**
 A builder whose arena, frames and marks are fields. Every method leaves them as
 the operation of its name on values says.
 */
module PageBuilder {
  import opened Common
  import opened Arenas
  import opened Builds
  import Pages

  type Layers = seq<nat>

  class Builder {
    var nodes: seq<Node>
    var layers: Layers
    var byGroup: map<nat, nat>
    var defaultLayer: Option<nat>
    var frames: seq<Frame>
    var marked: seq<Marked>
    var skip: nat
    var hidden: nat
    var name: Option<string>
    var seenLayer: bool
    ghost var log: seq<Drawn>

    ghost function View(): Build
      reads this
    {
      Build(nodes, layers, byGroup, defaultLayer, frames, marked, skip, hidden, name, seenLayer, log)
    }

    /** A page's builder on the document read so far. */
    constructor (nodes: seq<Node>, layers: Layers, byGroup: map<nat, nat>, defaultLayer: Option<nat>, ghost log: seq<Drawn>)
      ensures View() == Opened(View())
      ensures this.nodes == nodes && this.layers == layers && this.byGroup == byGroup && this.defaultLayer == defaultLayer && this.log == log
    {
      this.nodes, this.layers, this.byGroup, this.defaultLayer, this.log := nodes, layers, byGroup, defaultLayer, log;
      frames := [NewFrame(PageFrame, None, [], [])];
      marked, skip, hidden, name, seenLayer := [], 0, 0, None, false;
    }

    // ----------------------------------------------------------- containers

    method OwnClip(clips: seq<ClipPath>)
      requires frames != []
      modifies this`frames, this`nodes
      ensures View() == TakeOwnClip(old(View()), clips) && frames != []
    {
      var top := frames[|frames| - 1];
      if top.ownClip && top.base < |clips| && top.container.Some? {
        var own := clips[top.base];
        var g := At(nodes, top.container.value);
        if g.kind.Group? {
          nodes := Put(nodes, top.container.value, g.(kind := g.kind.(clip := Some(own.clip))));
        }
        frames := frames[|frames| - 1 :=
          top.(ownClip := false, base := top.base + 1, prefix := clips[..top.base + 1], fates := top.fates + [Own])];
      }
    }

    method WantedClips(clips: seq<ClipPath>, base: nat) returns (wanted: seq<ClipPath>)
      ensures wanted == Wanted(clips, base)
    {
      wanted := [];
      for k := 0 to |clips|
        invariant wanted == Wanted(clips[..k], base)
      {
        assert clips[..k + 1][..k] == clips[..k];
        if k >= base && !IsPageClip(clips[k]) {
          wanted := wanted + [clips[k]];
        }
      }
      assert clips[..|clips|] == clips;
    }

    method KeepOpen(open: seq<OpenClip>, wanted: seq<ClipPath>) returns (keep: nat)
      ensures keep == Keep(open, wanted)
    {
      keep := 0;
      while keep < |open| && keep < |wanted| && open[keep].serial == wanted[keep].serial
        invariant keep <= |open| && keep <= |wanted|
        invariant keep + Keep(open[keep..], wanted[keep..]) == Keep(open, wanted)
      {
        assert open[keep..][1..] == open[keep + 1..] && wanted[keep..][1..] == wanted[keep + 1..];
        keep := keep + 1;
      }
    }

    method MakeContainer() returns (i: nat)
      requires frames != []
      modifies this`frames, this`nodes, this`layers, this`defaultLayer
      ensures (View(), i) == FrameContainer(old(View())) && frames != []
    {
      var top := frames[|frames| - 1];
      if top.container.Some? {
        return top.container.value;
      }
      if defaultLayer.Some? {
        i := defaultLayer.value;
      } else {
        i := |nodes|;
        nodes := nodes + [NewNode(Layer).(name := "Layer")];
        layers := if !seenLayer then [i] + layers else layers + [i];
        defaultLayer := Some(i);
      }
      frames := frames[|frames| - 1 := top.(container := Some(i))];
    }

    method InsertNode(node: Node, parent: nat) returns (i: nat)
      modifies this`nodes, this`name
      ensures (View(), i) == Insert(old(View()), node, parent)
    {
      var n := node;
      if hidden > 0 {
        n := n.(hidden := true);
      }
      if node.kind.Leaf? {
        if name.Some? {
          n := n.(name := name.value);
        }
        name := None;
      }
      i := |nodes|;
      nodes := Append(nodes, n, parent);
    }

    /** The container for something painted under some clips. */
    method GetContainer(clips: seq<ClipPath>) returns (parent: nat)
      requires frames != []
      modifies this`frames, this`nodes, this`layers, this`defaultLayer, this`name
      ensures (View(), parent) == Container(old(View()), clips) && frames != []
    {
      OwnClip(clips);
      var top := frames[|frames| - 1];
      var wanted := WantedClips(clips, top.base);
      var keep := KeepOpen(top.open, wanted);
      parent := SwitchTo(keep, wanted[keep..]);
    }

    method SwitchTo(keep: nat, wanted: seq<ClipPath>) returns (parent: nat)
      requires frames != [] && keep <= |Top(View()).open|
      modifies this`frames, this`nodes, this`layers, this`defaultLayer, this`name
      ensures (View(), parent) == Switch(old(View()), keep, wanted) && frames != []
    {
      var open := frames[|frames| - 1].open[..keep];
      if open == [] {
        parent := MakeContainer();
      } else {
        parent := open[keep - 1].group;
      }
      ghost var before := View();
      ghost var result := OpenGroups(before, open, parent, wanted);
      for k := 0 to |wanted|
        invariant frames == before.frames
        invariant OpenGroups(View(), open, parent, wanted[k..]) == result
      {
        var g := InsertNode(ClipGroup(wanted[k]), parent);
        assert wanted[k..][1..] == wanted[k + 1..];
        open := open + [OpenClip(wanted[k].serial, g)];
        parent := g;
      }
      var top := frames[|frames| - 1];
      frames := frames[|frames| - 1 := top.(open := open, untouched := false)];
    }

    method AddNode(node: Node, clips: seq<ClipPath>) returns (i: nat)
      requires frames != []
      modifies this`frames, this`nodes, this`layers, this`defaultLayer, this`name, this`log
      ensures (View(), i) == Add(old(View()), node, clips) && frames != []
    {
      var parent := GetContainer(clips);
      i := InsertNode(node, parent);
      if node.kind.Leaf? {
        log := log + [Drawn(i, LayerOf(frames), clips, Top(View()).fates, ClipsOn(nodes, i))];
      }
    }

    // ---------------------------------------------------------------- tidying

    method Retain(list: seq<nat>, x: nat) returns (kept: seq<nat>)
      ensures kept == Without(list, x)
    {
      kept := [];
      for k := 0 to |list|
        invariant kept == Without(list[..k], x)
      {
        assert list[..k + 1][..k] == list[..k];
        if list[k] != x {
          kept := kept + [list[k]];
        }
      }
      assert list[..|list|] == list;
    }

    method TakeOut(i: nat)
      modifies this`nodes
      ensures nodes == Detach(old(nodes), i)
    {
      var parent := At(nodes, i).parent;
      if parent.Some? {
        var p := At(nodes, parent.value);
        var kept := Retain(p.children, i);
        nodes := Put(nodes, parent.value, p.(children := kept));
      }
      nodes := Put(nodes, i, At(nodes, i).(removed := true));
    }

    /** The bounds of what a group holds. */
    method ContentBounds(g: nat) returns (content: Option<Rect>)
      requires g < |nodes|
      ensures content == BoundsOf(nodes, g, nodes[g].children)
    {
      var children := nodes[g].children;
      content := None;
      for k := 0 to |children|
        invariant content == BoundsOf(nodes, g, children[..k])
      {
        assert children[..k + 1][..k] == children[..k];
        var b := if g < children[k] then NodeBounds(nodes, children[k]) else None;
        if b.Some? {
          content := if content.Some? then Some(content.value.Union(b.value)) else b;
        }
      }
      assert children[..|children|] == children;
    }

    method PutInPlace(list: seq<nat>, x: nat, y: nat) returns (r: seq<nat>)
      ensures r == Replaced(list, x, y)
    {
      for k := 0 to |list|
        invariant forall j :: 0 <= j < k ==> list[j] != x
      {
        if list[k] == x {
          ReplacedAt(list, k, x, y);
          return list[k := y];
        }
      }
      ReplacedNone(list, x, y);
      r := list;
    }

    method TidyFormGroup(g: nat, named: bool)
      modifies this`nodes
      ensures nodes == Tidied(old(nodes), g, named)
    {
      var children := At(nodes, g).children;
      var parent := At(nodes, g).parent;
      if children == [] && !named {
        TakeOut(g);
        return;
      }
      if named {
        return;
      }
      if g < |nodes| && nodes[g].kind.Group? && nodes[g].kind.clip.Some? {
        var content := ContentBounds(g);
        var box := nodes[g].kind.clip.value.bounds;
        if content.Some? && box.Some? && box.value.Outset(0.5).Contains(content.value) {
          nodes := Put(nodes, g, Unclipped(nodes[g]));
        }
      }
      if Trivial(At(nodes, g)) && |children| == 1 && parent.Some? {
        ReplaceByChild(g, children[0], parent.value);
      }
    }

    method ReplaceByChild(g: nat, child: nat, parent: nat)
      modifies this`nodes
      ensures nodes == Hoist(old(nodes), g, child, parent)
    {
      var p := At(nodes, parent);
      var stack := PutInPlace(p.children, g, child);
      nodes := Put(nodes, parent, p.(children := stack));
      nodes := Put(nodes, child, At(nodes, child).(parent := Some(parent)));
      nodes := Put(nodes, g, At(nodes, g).(children := [], removed := true));
    }

    method Pop()
      requires frames != []
      modifies this`frames, this`nodes
      ensures View() == PopFrame(old(View()))
    {
      var f := frames[|frames| - 1];
      frames := frames[..|frames| - 1];
      if f.kind.FormFrame? && f.container.Some? {
        TidyFormGroup(f.container.value, f.kind.named);
      }
    }

    method PopDownTo(depth: nat)
      requires depth > 0
      modifies this`frames, this`nodes
      ensures View() == PopTo(old(View()), depth)
    {
      while |frames| > depth
        invariant PopTo(View(), depth) == PopTo(old(View()), depth)
        invariant View() == old(View()).(frames := frames, nodes := nodes)
        decreases |frames|
      {
        Pop();
      }
    }

    /** Closes the page's frames. */
    method FinishPage()
      modifies this`frames, this`nodes
      ensures View() == Finish(old(View()))
    {
      PopDownTo(1);
    }

    // ----------------------------------------------------------------- events

    method Painted(shape: Shape, clips: seq<ClipPath>)
      requires frames != []
      modifies this
      ensures View() == PaintShape(old(View()), shape, clips)
    {
      if skip > 0 {
        return;
      }
      var i := AddNode(LeafNode(shape), clips);
    }

    /** A form starts; `into` is whether its content is run. */
    method BeginForm(form: FormData, clips: seq<ClipPath>) returns (into: bool)
      requires frames != []
      modifies this
      ensures View() == BeginGroup(old(View()), form, clips) && into == Enters(old(View()), form)
    {
      if skip > 0 {
        return false;
      }
      if form.masked {
        if form.drawing.Some? {
          var i := AddNode(LeafNode(form.drawing.value), clips);
        }
        return false;
      }
      var g := AddNode(FormGroup(form), clips);
      var frame := NewFrame(FormFrame(false), Some(g), clips + BoxOf(form), Pad(frames[|frames| - 1].fates, |clips + BoxOf(form)|));
      frames := frames + [frame];
      into := true;
    }

    method EndForm()
      modifies this`frames, this`nodes
      ensures View() == EndGroup(old(View()))
    {
      var done := false;
      while !done && frames != []
        invariant View() == old(View()).(frames := frames, nodes := nodes)
        invariant if done then View() == EndGroup(old(View())) else EndGroup(View()) == EndGroup(old(View()))
        decreases !done, |frames|
      {
        var isForm := frames[|frames| - 1].kind.FormFrame?;
        Pop();
        done := isForm || |frames| <= 1;
      }
    }

    method BeginLayerMark(ref: LayerRef)
      modifies this
      ensures View() == BeginLayer(old(View()), ref)
    {
      var layer: nat;
      if ref.number.Some? && ref.number.value in byGroup {
        layer := byGroup[ref.number.value];
      } else {
        layer := |nodes|;
        nodes := nodes + [NewNode(Layer).(name := ref.name)];
        layers := layers + [layer];
        if ref.number.Some? {
          byGroup := byGroup[ref.number.value := layer];
        }
      }
      seenLayer := true;
      var depth := |frames|;
      frames := frames + [NewFrame(LayerFrame, Some(layer), [], [])];
      marked := marked + [MarkedLayer(depth)];
    }

    /** The form on top takes the mark's name. */
    method NameTopForm(groupName: string, clip: bool)
      requires frames != [] && NamesForm(View())
      modifies this`frames, this`nodes, this`marked
      ensures View() == NameForm(old(View()), groupName, clip)
    {
      var top := frames[|frames| - 1];
      var g := At(nodes, top.container.value);
      var fates := if OwnClips(g) != [] && top.fates != [] then top.fates[..|top.fates| - 1] + [Dropped] else top.fates;
      frames := frames[|frames| - 1 := top.(kind := FormFrame(true), ownClip := clip, fates := fates)];
      nodes := Put(nodes, top.container.value, Unclipped(g).(name := groupName));
      marked := marked + [MarkedNamed];
    }

    method OpenMarkedGroup(groupName: string, clip: bool, clips: seq<ClipPath>)
      requires frames != []
      modifies this
      ensures View() == BeginMarkedGroup(old(View()), groupName, clip, clips)
    {
      var g := AddNode(NewNode(Group(None, false, false)).(name := groupName), clips);
      var depth := |frames|;
      var frame := NewFrame(GroupFrame, Some(g), clips, Pad(frames[|frames| - 1].fates, |clips|));
      frames := frames + [frame.(ownClip := clip)];
      marked := marked + [MarkedGroup(depth)];
    }

    method BeginGroupMark(groupName: string, clip: bool, clips: seq<ClipPath>)
      requires frames != []
      modifies this
      ensures View() == if NamesForm(old(View())) then NameForm(old(View()), groupName, clip)
                        else BeginMarkedGroup(old(View()), groupName, clip, clips)
    {
      var top := frames[|frames| - 1];
      if top.kind == FormFrame(false) && top.untouched && top.container.Some? {
        NameTopForm(groupName, clip);
      } else {
        OpenMarkedGroup(groupName, clip, clips);
      }
    }

    method BeginContentMark(hides: bool, layer: Option<LayerRef>)
      requires frames != [] && skip == 0
      modifies this
      ensures View() == BeginMarked(old(View()), OptionalContent(hides, layer), [])
    {
      if hides {
        hidden := hidden + 1;
        marked := marked + [MarkedHidden];
      } else if |frames| == 1 && layer.Some? {
        BeginLayerMark(layer.value);
      } else {
        marked := marked + [MarkedOther];
      }
    }

    method BeginDrawnMark(content: Option<Shape>, clips: seq<ClipPath>)
      requires frames != []
      modifies this
      ensures View() == BeginDrawn(old(View()), content, clips)
    {
      if content.Some? {
        var i := AddNode(LeafNode(content.value), clips);
      }
      skip := skip + 1;
      marked := marked + [MarkedSkipped];
    }

    method BeginMark(tag: Tag, clips: seq<ClipPath>)
      requires frames != []
      modifies this
      ensures View() == BeginMarked(old(View()), tag, clips)
    {
      if skip > 0 {
        marked := marked + [MarkedOther];
        return;
      }
      match tag {
        case OptionalContent(hides, layer) =>
          BeginContentMark(hides, layer);
        case GroupTag(groupName, clip) =>
          BeginGroupMark(groupName, clip, clips);
        case DrawnTag(content) =>
          BeginDrawnMark(content, clips);
        case NameTag(given) =>
          name := given;
          marked := marked + [MarkedName];
        case OtherTag =>
          marked := marked + [MarkedOther];
      }
    }

    method EndMark()
      modifies this
      ensures View() == EndMarked(old(View()))
    {
      if marked == [] {
        return;
      }
      var mark := marked[|marked| - 1];
      marked := marked[..|marked| - 1];
      match mark {
        case MarkedLayer(depth) => PopDownTo(MaxNat(depth, 1));
        case MarkedGroup(depth) => PopDownTo(MaxNat(depth, 1));
        case MarkedHidden => hidden := if hidden > 0 then hidden - 1 else 0;
        case MarkedSkipped => skip := if skip > 0 then skip - 1 else 0;
        case MarkedName => name := None;
        case _ =>
      }
    }

    // ------------------------------------------------------- the interpreter

    /** What the interpreter tells the sink: a form's content between its begin
        and its end, and marked content likewise. */
    method Run(events: seq<Event>)
      requires frames != []
      modifies this
      ensures View() == Pages.Process(old(View()), events) && frames != []
      decreases events
    {
      if events != [] {
        RunOne(events[0]);
        Run(events[1..]);
      }
    }

    method RunOne(event: Event)
      requires frames != []
      modifies this
      ensures View() == Pages.ProcessOne(old(View()), event) && frames != []
      decreases event
    {
      match event {
        case Paint(shape, clips) =>
          Painted(shape, clips);
        case Form(form, clips, inner) =>
          Pages.BeginGroupFrames(View(), form, clips);
          var into := BeginForm(form, clips);
          if into {
            Run(inner);
            EndForm();
          }
        case Mark(tag, clips, inner) =>
          Pages.BeginMarkedFrames(View(), tag, clips);
          BeginMark(tag, clips);
          Run(inner);
          EndMark();
      }
    }
  }
}
