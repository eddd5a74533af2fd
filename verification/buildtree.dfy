/**
 What holds of the builder between any two events, however clips nest: the arena
 is a tree, the frames follow a path of last children, and the leaves of every
 layer are what was painted in it, in order.
 */
module BuildTrees {
  import opened Common
  import opened Arenas
  import opened Tips
  import opened Builds
  import opened Pages
  import opened PaintOrder

  // ------------------------------------------------------------------ paths

  ghost function Groups(open: seq<OpenClip>): (r: seq<nat>)
    ensures |r| == |open| && forall j :: 0 <= j < |open| ==> r[j] == open[j].group
  {
    seq(|open|, j requires 0 <= j < |open| => open[j].group)
  }

  ghost function Spine(f: Frame): seq<nat> {
    if f.container.None? then [] else [f.container.value] + Groups(f.open)
  }

  /** The containers and open clip groups of the frames, from the layer being
      filled to the tip. */
  ghost function Trunk(frames: seq<Frame>): seq<nat> {
    if frames == [] then []
    else
      var top := frames[|frames| - 1];
      (if top.kind.LayerFrame? then [] else Trunk(frames[..|frames| - 1])) + Spine(top)
  }

  /** The part of the trunk in the frames below the top one. */
  ghost function Below(frames: seq<Frame>): seq<nat> {
    if frames == [] || frames[|frames| - 1].kind.LayerFrame? then [] else Trunk(frames[..|frames| - 1])
  }

  ghost predicate HasLayer(frames: seq<Frame>) {
    |frames| > 1 && frames[1].kind.LayerFrame?
  }

  /** The page's own path, waiting while a layer is filled. */
  ghost function Low(frames: seq<Frame>): seq<nat> {
    if HasLayer(frames) then Spine(frames[0]) else []
  }

  ghost predicate Stacked(frames: seq<Frame>) {
    && frames != [] && frames[0].kind.PageFrame?
    && (forall k :: 1 <= k < |frames| ==> !frames[k].kind.PageFrame? && frames[k].container.Some?)
    && (forall k :: 2 <= k < |frames| ==> !frames[k].kind.LayerFrame?)
    && (frames[0].container.None? ==> frames[0].open == [])
    && (|frames| > 1 && frames[0].container.None? ==> HasLayer(frames))
  }

  /** The default layer is none of the others. */
  ghost predicate LayersOk(b: Build) {
    && (b.defaultLayer.Some? ==> IsLayer(b.nodes, b.defaultLayer.value))
    && (forall n :: n in b.byGroup ==> IsLayer(b.nodes, b.byGroup[n]) && Some(b.byGroup[n]) != b.defaultLayer)
    && (b.frames != [] && b.frames[0].container.Some? ==> b.frames[0].container == b.defaultLayer)
    && (HasLayer(b.frames) ==> b.frames[1].container != b.defaultLayer)
  }

  ghost predicate Idle(b: Build) {
    Tree(b.nodes) && Painted(b.nodes, b.log) && LogInArena(b.nodes, b.log)
  }

  ghost predicate BuildOk(b: Build) {
    && Stacked(b.frames) && LayersOk(b) && Idle(b)
    && (Trunk(b.frames) != [] ==> Filling(b.nodes, Trunk(b.frames), Low(b.frames), b.log))
  }

  /** The top frame replaced by one of the same kind. */
  lemma TrunkOfTop(b: Build, f: Frame)
    requires Stacked(b.frames) && SameKind(Top(b), f)
    requires Top(b).container.Some? ==> f.container == Top(b).container
    requires f.container.None? ==> f.open == []
    requires f.container.Some? || |b.frames| == 1
    ensures var c := WithTop(b, f);
            && Stacked(c.frames) && Trunk(c.frames) == Below(b.frames) + Spine(f) && Low(c.frames) == Low(b.frames)
            && HasLayer(c.frames) == HasLayer(b.frames) && (HasLayer(c.frames) ==> c.frames[1].container == b.frames[1].container)
            && c.frames[0].container == if |b.frames| == 1 then f.container else b.frames[0].container
  {
    var c := WithTop(b, f);
    assert c.frames[..|c.frames| - 1] == b.frames[..|b.frames| - 1];
    assert HasLayer(b.frames) && |b.frames| > 2 ==> c.frames[1] == b.frames[1];
  }

  /** Above the bottom frame the trunk goes through something below. */
  lemma BelowExists(frames: seq<Frame>)
    requires Stacked(frames) && |frames| > 1 && !frames[|frames| - 1].kind.LayerFrame?
    ensures Below(frames) != [] && Stacked(frames[..|frames| - 1]) && Trunk(frames[..|frames| - 1]) == Below(frames)
    ensures Low(frames[..|frames| - 1]) == Low(frames)
  {
    var front := frames[..|frames| - 1];
    assert front[|front| - 1].container.Some?;
  }

  /** What the layers' table depends on, kept. */
  ghost predicate SameTable(b: Build, c: Build) {
    && c.defaultLayer == b.defaultLayer && c.byGroup == b.byGroup
    && b.frames != [] && c.frames != [] && c.frames[0].container == b.frames[0].container
    && HasLayer(c.frames) == HasLayer(b.frames) && (HasLayer(c.frames) ==> c.frames[1].container == b.frames[1].container)
  }

  lemma TableKept(b: Build, c: Build)
    requires LayersOk(b) && SameTable(b, c) && KeepsLayers(b.nodes, c.nodes)
    ensures LayersOk(c)
  {
    forall n | n in c.byGroup
      ensures IsLayer(c.nodes, c.byGroup[n]) && Some(c.byGroup[n]) != c.defaultLayer
    {
      assert IsLayer(b.nodes, b.byGroup[n]);
    }
  }

  lemma BuildOkFrom(c: Build)
    requires Stacked(c.frames) && LayersOk(c) && Filling(c.nodes, Trunk(c.frames), Low(c.frames), c.log)
    ensures BuildOk(c) && Trunk(c.frames) != []
  {}

  /** The top frame changed in nothing the trunk goes through. */
  lemma SameTrunk(b: Build, c: Build)
    requires Stacked(b.frames) && c.frames != [] && c.frames == WithTop(b, Top(c)).frames
    requires SameKind(Top(b), Top(c)) && Top(c).container == Top(b).container && Top(c).open == Top(b).open && Top(b).container.Some?
    ensures Stacked(c.frames) && Trunk(c.frames) == Trunk(b.frames) && Low(c.frames) == Low(b.frames)
    ensures c.defaultLayer == b.defaultLayer && c.byGroup == b.byGroup ==> SameTable(b, c)
  {
    TrunkOfTop(b, Top(c));
    assert Spine(Top(c)) == Spine(Top(b));
  }

  // -------------------------------------------------------------- containers

  lemma OwnClipOk(b: Build, clips: seq<ClipPath>)
    requires BuildOk(b)
    ensures var c := TakeOwnClip(b, clips);
            BuildOk(c) && Trunk(c.frames) == Trunk(b.frames) && c.log == b.log && Top(c).open == Top(b).open && Top(c).container == Top(b).container
  {
    var top := Top(b);
    if top.ownClip && top.base < |clips| && top.container.Some? {
      OwnClipTaken(b, TakeOwnClip(b, clips), clips[top.base]);
    }
  }

  lemma OwnClipTaken(b: Build, c: Build, own: ClipPath)
    requires BuildOk(b) && Top(b).container.Some? && c.frames != [] && c.frames == WithTop(b, Top(c)).frames
    requires Top(c).kind == Top(b).kind && Top(c).container == Top(b).container && Top(c).open == Top(b).open
    requires var at := At(b.nodes, Top(b).container.value);
             c == b.(frames := c.frames, nodes := if at.kind.Group? then Put(b.nodes, Top(b).container.value, at.(kind := at.kind.(clip := Some(own.clip)))) else b.nodes)
    ensures BuildOk(c) && Trunk(c.frames) == Trunk(b.frames)
  {
    SameTrunk(b, c);
    TrunkTip(b.frames);
    ReclipFrame(b, Top(b).container.value, own);
    TableKept(b, c);
    BuildOkFrom(c);
  }

  lemma ReclipFrame(b: Build, g: nat, own: ClipPath)
    requires Filling(b.nodes, Trunk(b.frames), Low(b.frames), b.log)
    ensures var at := At(b.nodes, g);
            var t := if at.kind.Group? then Put(b.nodes, g, at.(kind := at.kind.(clip := Some(own.clip)))) else b.nodes;
            Filling(t, Trunk(b.frames), Low(b.frames), b.log) && KeepsLayers(b.nodes, t)
  {
    var at := At(b.nodes, g);
    if at.kind.Group? {
      Reclip(b.nodes, g, at.(kind := at.kind.(clip := Some(own.clip))), Trunk(b.frames), Low(b.frames), b.log);
    }
  }

  lemma SpineShorter(below: seq<nat>, f: Frame, k: nat)
    requires f.container.Some? && k <= |f.open|
    ensures (below + Spine(f))[..|below| + 1 + k] == below + Spine(f.(open := f.open[..k]))
  {}

  /** Closing the clip groups past the first `k`. */
  lemma ShortenOk(b: Build, k: nat)
    requires BuildOk(b) && k <= |Top(b).open|
    ensures var c := WithTop(b, Top(b).(open := Top(b).open[..k]));
            BuildOk(c) && Low(c.frames) == Low(b.frames)
  {
    var f := Top(b).(open := Top(b).open[..k]);
    var c := WithTop(b, f);
    TrunkOfTop(b, f);
    TableKept(b, c);
    if f.container.Some? {
      SpineShorter(Below(b.frames), Top(b), k);
      FillingShorter(b.nodes, Trunk(b.frames), Low(b.frames), b.log, |Below(b.frames)| + 1 + k);
      BuildOkFrom(c);
    } else {
      assert f == Top(b) && c == b;
    }
  }

  lemma FrameContainerOk(b: Build)
    requires BuildOk(b)
    ensures var (c, parent) := FrameContainer(b);
            && BuildOk(c) && Trunk(c.frames) != [] && c.log == b.log && Top(c).container == Some(parent) && Top(c).open == Top(b).open
            && c.hidden == b.hidden
  {
    if Top(b).container.None? {
      var (c, i) := DefaultLayer(b, !b.seenLayer);
      DefaultLayerOk(b, !b.seenLayer);
      BottomFilled(b, c, i);
    } else {
      TrunkTip(b.frames);
    }
  }

  lemma DefaultLayerOk(b: Build, bottom: bool)
    requires BuildOk(b)
    ensures var (c, i) := DefaultLayer(b, bottom);
            Idle(c) && Descends(c.nodes, [i]) && KeepsLayers(b.nodes, c.nodes) && IsLayer(c.nodes, i)
  {
    if b.defaultLayer.None? {
      AddLayer(b.nodes, NewNode(Layer).(name := "Layer"), b.log);
    } else {
      assert NodeOk(b.nodes, b.defaultLayer.value);
    }
  }

  lemma BottomFilled(b: Build, c: Build, i: nat)
    requires BuildOk(b) && Top(b).container.None? && c == b.(nodes := c.nodes, layers := c.layers, defaultLayer := Some(i))
    requires b.defaultLayer.Some? ==> b.defaultLayer == Some(i)
    requires b.defaultLayer.None? ==> i == |b.nodes|
    requires Idle(c) && Descends(c.nodes, [i]) && KeepsLayers(b.nodes, c.nodes) && IsLayer(c.nodes, i)
    ensures var f := Top(b).(container := Some(i));
            BuildOk(WithTop(c, f)) && Trunk(WithTop(c, f).frames) != []
  {
    var f := Top(b).(container := Some(i));
    assert |b.frames| == 1;
    TrunkOfTop(b, f);
    assert Below(b.frames) + Spine(f) == [i];
    assert WithTop(c, f).frames == WithTop(b, f).frames;
    BottomTable(b, WithTop(c, f), i);
    BuildOkFrom(WithTop(c, f));
  }

  lemma BottomTable(b: Build, r: Build, i: nat)
    requires LayersOk(b) && KeepsLayers(b.nodes, r.nodes) && IsLayer(r.nodes, i) && |r.frames| == 1
    requires r.byGroup == b.byGroup && r.defaultLayer == Some(i) && r.frames[0].container == Some(i)
    requires b.defaultLayer.Some? ==> b.defaultLayer == Some(i)
    requires b.defaultLayer.None? ==> i == |b.nodes|
    ensures LayersOk(r)
  {
    forall n | n in r.byGroup
      ensures IsLayer(r.nodes, r.byGroup[n]) && Some(r.byGroup[n]) != r.defaultLayer
    {
      assert IsLayer(b.nodes, b.byGroup[n]);
    }
  }

  lemma {:induction false} OpenGroupsOk(b: Build, open: seq<OpenClip>, parent: nat, wanted: seq<ClipPath>, path: seq<nat>, low: seq<nat>)
    requires Filling(b.nodes, path, low, b.log) && parent == Last(path)
    ensures var (c, all, tip) := OpenGroups(b, open, parent, wanted);
            && |all| == |open| + |wanted| && all[..|open|] == open
            && Filling(c.nodes, path + Groups(all[|open|..]), low, b.log) && tip == Last(path + Groups(all[|open|..]))
            && KeepsLayers(b.nodes, c.nodes)
    decreases |wanted|
  {
    if wanted == [] {
      assert path + Groups(open[|open|..]) == path;
    } else {
      var (c, g) := Insert(b, ClipGroup(wanted[0]), parent);
      var more := open + [OpenClip(wanted[0].serial, g)];
      InsertGroupOk(b, ClipGroup(wanted[0]), path, low);
      OpenGroupsOk(c, more, g, wanted[1..], path + [g], low);
      var (d, all, tip) := OpenGroups(c, more, g, wanted[1..]);
      GroupsFrom(path, open, OpenClip(wanted[0].serial, g), all);
    }
  }

  lemma GroupsFrom(path: seq<nat>, open: seq<OpenClip>, next: OpenClip, all: seq<OpenClip>)
    requires |open| < |all| && all[..|open| + 1] == open + [next]
    ensures all[..|open|] == open
    ensures path + Groups(all[|open|..]) == path + [next.group] + Groups(all[|open| + 1..])
  {
    assert all[..|open|] == (open + [next])[..|open|];
    assert all[|open|] == (open + [next])[|open|];
    assert Groups(all[|open|..]) == [next.group] + Groups(all[|open| + 1..]);
  }

  lemma InsertGroupOk(b: Build, node: Node, path: seq<nat>, low: seq<nat>)
    requires Filling(b.nodes, path, low, b.log) && node.kind.Group? && node.children == [] && !node.removed
    ensures var (c, g) := Insert(b, node, Last(path));
            && Filling(c.nodes, path + [g], low, b.log) && c == b.(nodes := c.nodes) && g == |b.nodes|
            && KeepsLayers(b.nodes, c.nodes)
  {
    var hidden := if b.hidden > 0 then node.(hidden := true) else node;
    AddGroup(b.nodes, hidden, path, low, b.log);
    AppendLayers(b.nodes, hidden, Last(path));
  }

  /** The container for something painted is the tip of the trunk. */
  lemma ContainerOk(b: Build, clips: seq<ClipPath>)
    requires BuildOk(b)
    ensures var (c, tip) := Container(b, clips);
            BuildOk(c) && Trunk(c.frames) != [] && tip == Last(Trunk(c.frames)) && c.log == b.log
  {
    var own := TakeOwnClip(b, clips);
    OwnClipOk(b, clips);
    var wanted := Wanted(clips, Top(own).base);
    var k := Keep(Top(own).open, wanted);
    SwitchOk(own, k, wanted[k..]);
  }

  /** The builder with all but the first `k` clip groups closed, and a container
      to go on in. */
  ghost function Closed(b: Build, k: nat): Build
    requires b.frames != [] && k <= |Top(b).open|
  {
    FrameContainer(WithTop(b, Top(b).(open := Top(b).open[..k]))).0
  }

  lemma ClosedOk(b: Build, k: nat)
    requires BuildOk(b) && k <= |Top(b).open|
    ensures var s := Closed(b, k);
            BuildOk(s) && Trunk(s.frames) != [] && s.log == b.log && Top(s).container.Some? && Top(s).open == Top(b).open[..k]
  {
    ShortenOk(b, k);
    FrameContainerOk(WithTop(b, Top(b).(open := Top(b).open[..k])));
  }

  /** What closing and opening starts from: the builder to open groups in, and
      the group to open them under. */
  ghost function Start(b: Build, k: nat): (Build, nat)
    requires b.frames != [] && k <= |Top(b).open|
  {
    var open := Top(b).open[..k];
    if open == [] then FrameContainer(b) else (b, open[k - 1].group)
  }

  ghost function Reopened(s: Build, nodes: seq<Node>, all: seq<OpenClip>): Build
    requires s.frames != []
  {
    WithTop(s, Top(s).(open := all, untouched := false)).(nodes := nodes)
  }

  /** Closing all but the first `k` clip groups and opening others. */
  lemma SwitchOk(b: Build, k: nat, wanted: seq<ClipPath>)
    requires BuildOk(b) && k <= |Top(b).open|
    ensures var (r, tip) := Switch(b, k, wanted);
            BuildOk(r) && Trunk(r.frames) != [] && tip == Last(Trunk(r.frames)) && r.log == b.log
  {
    ClosedOk(b, k);
    var s := Closed(b, k);
    var (c, parent) := Start(b, k);
    SameSwitch(b, s, c, parent, k);
    SwitchOpens(s, c, Top(b).open[..k], parent, wanted);
    SwitchIs(b, k, wanted, s, c, parent);
  }

  lemma SwitchIs(b: Build, k: nat, wanted: seq<ClipPath>, s: Build, c: Build, parent: nat)
    requires b.frames != [] && k <= |Top(b).open| && (c, parent) == Start(b, k)
    requires c == s.(frames := c.frames) && c.frames != [] && s.frames != [] && Top(s) == Top(c).(open := Top(s).open)
    requires s.frames == c.frames[|c.frames| - 1 := Top(s)]
    ensures var (d, all, tip) := OpenGroups(c, Top(b).open[..k], parent, wanted);
            Switch(b, k, wanted) == (Reopened(s, d.nodes, all), tip)
  {
    var (d, all, tip) := OpenGroups(c, Top(b).open[..k], parent, wanted);
    SameEnd(s, c, d, all);
  }

  lemma SwitchOpens(s: Build, c: Build, open: seq<OpenClip>, parent: nat, wanted: seq<ClipPath>)
    requires BuildOk(s) && Top(s).container.Some? && Top(s).open == open && c == s.(frames := c.frames)
    requires parent == if open == [] then Top(s).container.value else open[|open| - 1].group
    ensures var (d, all, tip) := OpenGroups(c, open, parent, wanted);
            var r := Reopened(s, d.nodes, all);
            BuildOk(r) && Trunk(r.frames) != [] && tip == Last(Trunk(r.frames))
  {
    SwitchFills(s, c, open, parent, wanted);
    var (d, all, tip) := OpenGroups(c, open, parent, wanted);
    OpenedOk(s, d.nodes, all);
  }

  lemma SwitchFills(s: Build, c: Build, open: seq<OpenClip>, parent: nat, wanted: seq<ClipPath>)
    requires BuildOk(s) && Top(s).container.Some? && Top(s).open == open && c.nodes == s.nodes && c.log == s.log
    requires parent == if open == [] then Top(s).container.value else open[|open| - 1].group
    ensures var (d, all, tip) := OpenGroups(c, open, parent, wanted);
            && |open| <= |all| && all[..|open|] == open && KeepsLayers(s.nodes, d.nodes)
            && Filling(d.nodes, Trunk(s.frames) + Groups(all[|open|..]), Low(s.frames), s.log)
            && tip == Last(Trunk(s.frames) + Groups(all[|open|..]))
  {
    TrunkTip(s.frames);
    OpenGroupsOk(c, open, parent, wanted, Trunk(s.frames), Low(s.frames));
  }

  /** Making the container and closing groups may be done in either order. */
  lemma SameSwitch(b: Build, s: Build, c: Build, parent: nat, k: nat)
    requires b.frames != [] && k <= |Top(b).open| && (Top(b).container.None? ==> Top(b).open == [])
    requires s == Closed(b, k)
    requires (c, parent) == Start(b, k)
    ensures c == s.(frames := c.frames) && c.frames != [] && Top(s) == Top(c).(open := Top(b).open[..k])
    ensures s.frames == c.frames[|c.frames| - 1 := Top(s)]
    ensures Top(s).container.Some?
    ensures parent == if Top(s).open == [] then Top(s).container.value else Top(s).open[|Top(s).open| - 1].group
  {
    var short := WithTop(b, Top(b).(open := Top(b).open[..k]));
    if Top(b).container.None? {
      assert Top(short) == Top(b) && short.frames == b.frames;
    } else {
      assert s == short;
    }
  }

  lemma TrunkTip(frames: seq<Frame>)
    requires frames != [] && frames[|frames| - 1].container.Some?
    ensures Trunk(frames) != []
    ensures var f := frames[|frames| - 1];
            Last(Trunk(frames)) == if f.open == [] then f.container.value else f.open[|f.open| - 1].group
  {
    var f := frames[|frames| - 1];
    assert Trunk(frames) == Below(frames) + Spine(f);
  }

  lemma OpenedOk(s: Build, nodes: seq<Node>, all: seq<OpenClip>)
    requires BuildOk(s) && Top(s).container.Some? && KeepsLayers(s.nodes, nodes)
    requires |Top(s).open| <= |all| && all[..|Top(s).open|] == Top(s).open
    requires Filling(nodes, Trunk(s.frames) + Groups(all[|Top(s).open|..]), Low(s.frames), s.log)
    ensures var r := Reopened(s, nodes, all);
            BuildOk(r) && Trunk(r.frames) != [] && Trunk(r.frames) == Trunk(s.frames) + Groups(all[|Top(s).open|..])
  {
    var r := Reopened(s, nodes, all);
    OpenedTrunk(s, Top(r));
    TableKept(s, r);
    BuildOkFrom(r);
  }

  lemma SameEnd(s: Build, c: Build, d: Build, all: seq<OpenClip>)
    requires c == s.(frames := c.frames) && c.frames != [] && s.frames != []
    requires Top(s) == Top(c).(open := Top(s).open) && s.frames == c.frames[|c.frames| - 1 := Top(s)]
    requires d == c.(nodes := d.nodes)
    ensures WithTop(d, Top(d).(open := all, untouched := false)) == Reopened(s, d.nodes, all)
  {
    var f := Top(s).(open := all, untouched := false);
    assert c.frames[|c.frames| - 1 := f] == s.frames[|s.frames| - 1 := f];
  }

  /** The top frame with more clip groups open. */
  lemma OpenedTrunk(s: Build, f: Frame)
    requires Stacked(s.frames) && Top(s).container.Some? && |Top(s).open| <= |f.open|
    requires f == Top(s).(open := f.open, untouched := false) && f.open[..|Top(s).open|] == Top(s).open
    ensures var r := WithTop(s, f);
            && Stacked(r.frames) && Low(r.frames) == Low(s.frames) && SameTable(s, r)
            && Trunk(r.frames) == Trunk(s.frames) + Groups(f.open[|Top(s).open|..])
  {
    TrunkOfTop(s, f);
    SpineLonger(Below(s.frames), Top(s), f);
  }

  lemma SpineLonger(below: seq<nat>, f: Frame, g: Frame)
    requires f.container.Some? && g.container == f.container && |f.open| <= |g.open| && g.open[..|f.open|] == f.open
    ensures below + Spine(g) == below + Spine(f) + Groups(g.open[|f.open|..])
  {
    assert Spine(g) == Spine(f) + Groups(g.open[|f.open|..]);
  }
}
