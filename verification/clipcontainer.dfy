/**
 Clips keep their meaning: each object ends up under groups that clip it exactly
 as the page does.
 */
module ClipContainers {
  import opened Common
  import opened Arenas
  import opened Tips
  import opened Builds
  import opened Pages
  import opened PaintOrder
  import opened BuildTrees
  import opened BuildRuns
  import opened ClipChains
  import opened ClipGroups

  lemma ChainsGrow(b: Build, c: Build, serials: Serials)
    requires ChainsOk(b, serials) && Grows(b.nodes, c.nodes) && c.frames == b.frames
    ensures ChainsOk(c, serials)
  {
    forall k | 0 <= k < |c.frames|
      ensures FrameSpells(c.nodes, c.frames[k], serials)
    {
      FrameGrows(b.nodes, c.nodes, b.frames[k], serials);
    }
  }

  /** A builder with another top frame. */
  lemma ChainsTop(b: Build, c: Build, serials: Serials)
    requires c.frames != [] && |c.frames| == |b.frames| && c.frames[..|c.frames| - 1] == b.frames[..|b.frames| - 1]
    requires FrameSpells(c.nodes, Top(c), serials)
    requires forall k :: 0 <= k < |b.frames| - 1 ==> FrameSpells(c.nodes, b.frames[k], serials)
    ensures ChainsOk(c, serials)
  {
    forall k | 0 <= k < |c.frames|
      ensures FrameSpells(c.nodes, c.frames[k], serials)
    {
      if k < |c.frames| - 1 {
        assert c.frames[k] == c.frames[..|c.frames| - 1][k] == b.frames[k];
      }
    }
  }

  /** Lower frames do not see what changes in the top frame's group. */
  lemma LowerKept(b: Build, t: seq<Node>, serials: Serials)
    requires BuildOk(b) && ChainsOk(b, serials) && |b.frames| > 1 && !Top(b).kind.LayerFrame? && |t| >= |b.nodes|
    requires forall a: nat :: !Under(b.nodes, a, Top(b).container.value) ==> ClipAlike(b.nodes, t, a)
    ensures forall k :: 0 <= k < |b.frames| - 1 ==> FrameSpells(t, b.frames[k], serials)
  {
    var g := Top(b).container.value;
    forall k | 0 <= k < |b.frames| - 1
      ensures FrameSpells(t, b.frames[k], serials)
    {
      forall i: nat | InFrame(b.frames[k], i)
        ensures ClipsOn(t, i) == ClipsOn(b.nodes, i) && OwnClips(At(t, i)) == OwnClips(At(b.nodes, i))
      {
        LowerApart(b, k, i);
        ClipsOutside(b.nodes, t, g, i);
        assert ClipAlike(b.nodes, t, i);
      }
      FrameKept(b.nodes, t, b.frames[k], serials);
    }
  }

  // -------------------------------------------------------------- own clips

  /** Setting or dropping the clip of the top frame's group. */
  lemma ReclipSpells(nodes: seq<Node>, g: nat, node: Node)
    requires Tree(nodes) && g < |nodes| && nodes[g].kind.Group? && node.parent == nodes[g].parent
    ensures var t := Put(nodes, g, node);
            && (forall a: nat :: !Under(nodes, a, g) ==> ClipAlike(nodes, t, a))
            && (OwnClips(nodes[g]) == [] ==> ClipsOn(t, g) == ClipsOn(nodes, g) + OwnClips(node))
            && (OwnClips(node) == [] ==> ClipsOn(nodes, g) == ClipsOn(t, g) + OwnClips(nodes[g]))
  {
    var t := Put(nodes, g, node);
    forall a: nat | !Under(nodes, a, g)
      ensures ClipAlike(nodes, t, a)
    {
      assert Under(nodes, g, g);
    }
    assert NodeOk(nodes, g);
    var p := nodes[g].parent.value;
    if Under(nodes, p, g) { UnderIsLater(nodes, p, g); }
    ClipsOutside(nodes, t, g, p);
    assert ClipsOn(nodes, g) == ClipsOn(nodes, p) + OwnClips(nodes[g]) && ClipsOn(t, g) == ClipsOn(nodes, p) + OwnClips(node);
  }

  /** The top frame once its own clip is set. */
  function Taken(f: Frame, own: ClipPath): Frame {
    f.(ownClip := false, base := f.base + 1, prefix := f.prefix + [own], fates := f.fates + [Own])
  }

  lemma TakenSpells(nodes: seq<Node>, t: seq<Node>, f: Frame, own: ClipPath, serials: Serials)
    requires FrameSpells(nodes, f, serials) && f.ownClip && |t| == |nodes|
    requires ClipsOn(t, f.container.value) == ClipsOn(nodes, f.container.value) + [own.clip]
    ensures FrameSpells(t, Taken(f, own), serials)
  {
    SpelledMore(f.prefix, f.fates, own, Own);
  }

  lemma OwnClipTakenSpells(b: Build, c: Build, own: ClipPath, serials: Serials)
    requires BuildOk(b) && ChainsOk(b, serials) && Top(b).ownClip && |b.frames| > 1 && !Top(b).kind.LayerFrame?
    requires Top(b).container.Some? && Top(b).container.value < |b.nodes| && b.nodes[Top(b).container.value].kind.Group?
    requires c.frames != [] && c.frames == WithTop(b, Taken(Top(b), own)).frames
    requires var g := Top(b).container.value;
             c.nodes == Put(b.nodes, g, b.nodes[g].(kind := b.nodes[g].kind.(clip := Some(own.clip))))
    ensures ChainsOk(c, serials)
  {
    var g := Top(b).container.value;
    assert FrameSpells(b.nodes, Top(b), serials);
    assert At(b.nodes, g) == b.nodes[g];
    ReclipSpells(b.nodes, g, c.nodes[g]);
    TakenSpells(b.nodes, c.nodes, Top(b), own, serials);
    LowerKept(b, c.nodes, serials);
    ChainsTop(b, c, serials);
  }

  lemma TopLengths(b: Build, serials: Serials)
    requires b.frames != [] && ChainsOk(b, serials)
    ensures Top(b).base == |Top(b).prefix| == |Top(b).fates|
    ensures Top(b).ownClip ==> (Top(b).kind == FormFrame(true) || Top(b).kind.GroupFrame?) && Top(b).container.Some?
    ensures Top(b).container.None? ==> Top(b).open == []
    ensures Top(b).ownClip ==> Top(b).open == []
  {
    assert FrameSpells(b.nodes, Top(b), serials);
  }

  lemma TakeOwnClipIs(b: Build, clips: seq<ClipPath>)
    requires b.frames != [] && Top(b).ownClip && Top(b).base == |Top(b).prefix| < |clips| && Top(b).prefix <= clips
    requires Top(b).container.Some? && Top(b).container.value < |b.nodes| && b.nodes[Top(b).container.value].kind.Group?
    ensures var c := TakeOwnClip(b, clips);
            var own := clips[Top(b).base];
            var g := Top(b).container.value;
            && c.frames == WithTop(b, Taken(Top(b), own)).frames && Top(c).prefix <= clips && !Top(c).ownClip
            && c.nodes == Put(b.nodes, g, b.nodes[g].(kind := b.nodes[g].kind.(clip := Some(own.clip))))
  {
    assert clips[..Top(b).base + 1] == Top(b).prefix + [clips[Top(b).base]];
  }

  lemma OwnClipSpells(b: Build, clips: seq<ClipPath>, serials: Serials)
    requires BuildOk(b) && ChainsOk(b, serials) && Top(b).prefix <= clips
    ensures var c := TakeOwnClip(b, clips);
            && ChainsOk(c, serials) && Top(c).prefix <= clips && c.log == b.log
            && (Top(c).ownClip ==> |clips| <= Top(c).base)
  {
    TopLengths(b, serials);
    if Top(b).ownClip && Top(b).base < |clips| {
      TopGroup(b);
      TakeOwnClipIs(b, clips);
      OwnClipTakenSpells(b, TakeOwnClip(b, clips), clips[Top(b).base], serials);
    }
  }

  // -------------------------------------------------------------- containers

  lemma FrameContainerSpells(b: Build, serials: Serials)
    requires BuildOk(b) && ChainsOk(b, serials)
    ensures var (c, i) := FrameContainer(b);
            Grows(b.nodes, c.nodes) && FrameSpells(c.nodes, Top(c), serials)
  {
    assert FrameSpells(b.nodes, Top(b), serials);
    if Top(b).container.None? {
      if b.defaultLayer.None? {
        LayerGrows(b.nodes, NewNode(Layer).(name := "Layer"));
      } else {
        assert NodeOk(b.nodes, b.defaultLayer.value);
      }
    }
  }

  /** Which open groups are kept, and which clips the others are for. */
  ghost predicate Matches(f: Frame, k: nat, wanted: seq<ClipPath>) {
    && k <= |f.open| && k <= |wanted| && (forall j :: 0 <= j < k ==> f.open[j].serial == wanted[j].serial)
    && (f.ownClip ==> wanted == [])
  }

  lemma FrameOpenOk(nodes: seq<Node>, f: Frame, serials: Serials)
    requires FrameSpells(nodes, f, serials) && f.container.Some?
    ensures OpenOk(nodes, f, serials)
  {}

  lemma StartIs(b: Build, k: nat)
    requires b.frames != [] && k <= |Top(b).open| && (Top(b).container.None? ==> Top(b).open == [])
    ensures var (c, parent) := Start(b, k);
            && (c == b || c == FrameContainer(b).0) && c.log == b.log && c.frames != [] && |c.frames| == |b.frames|
            && c.frames[..|c.frames| - 1] == b.frames[..|b.frames| - 1]
            && Top(c) == Top(b).(container := Top(c).container) && Top(c).container.Some?
            && parent == Before(Top(c).(open := Top(b).open[..k]), k)
  {}

  /** What closing and opening groups starts from. */
  lemma StartSpells(b: Build, k: nat, serials: Serials)
    requires BuildOk(b) && ChainsOk(b, serials) && k <= |Top(b).open|
    ensures var (c, parent) := Start(b, k);
            && Grows(b.nodes, c.nodes) && c.log == b.log && c.frames != [] && |c.frames| == |b.frames|
            && c.frames[..|c.frames| - 1] == b.frames[..|b.frames| - 1]
            && Top(c) == Top(b).(container := Top(c).container) && FrameSpells(c.nodes, Top(c), serials)
            && var short := Top(c).(open := Top(b).open[..k]);
               OpenOk(c.nodes, short, serials) && parent == Before(short, k)
  {
    TopLengths(b, serials);
    StartIs(b, k);
    FrameContainerSpells(b, serials);
    var (c, parent) := Start(b, k);
    assert FrameSpells(c.nodes, Top(c), serials) by { assert FrameSpells(b.nodes, Top(b), serials); }
    FrameOpenOk(c.nodes, Top(c), serials);
    ShorterOpen(c.nodes, Top(c), serials, k);
  }

  lemma SwitchSpells(b: Build, k: nat, wanted: seq<ClipPath>, serials: Serials)
    requires BuildOk(b) && ChainsOk(b, serials) && Known(wanted, serials) && Matches(Top(b), k, wanted)
    ensures var (r, tip) := Switch(b, k, wanted[k..]);
            && ChainsOk(r, serials) && r.log == b.log && tip < |r.nodes|
            && Top(r).prefix == Top(b).prefix && Top(r).fates == Top(b).fates
            && ClipsOn(r.nodes, tip) == Spelled(Top(b).prefix, Top(b).fates) + ClipsOf(wanted)
  {
    StartSpells(b, k, serials);
    var (c, parent) := Start(b, k);
    OpenFrom(b, c, parent, k, wanted, serials);
  }

  lemma OpenFrom(b: Build, c: Build, parent: nat, k: nat, wanted: seq<ClipPath>, serials: Serials)
    requires b.frames != [] && ChainsOk(b, serials) && Known(wanted, serials) && Matches(Top(b), k, wanted)
    requires Grows(b.nodes, c.nodes) && c.frames != [] && |c.frames| == |b.frames|
    requires c.frames[..|c.frames| - 1] == b.frames[..|b.frames| - 1]
    requires Top(c) == Top(b).(container := Top(c).container) && FrameSpells(c.nodes, Top(c), serials)
    requires var short := Top(c).(open := Top(b).open[..k]);
             OpenOk(c.nodes, short, serials) && parent == Before(short, k)
    ensures var (d, all, tip) := OpenGroups(c, Top(b).open[..k], parent, wanted[k..]);
            var r := WithTop(d, Top(d).(open := all, untouched := false));
            && ChainsOk(r, serials) && tip < |r.nodes| && r.log == c.log
            && Top(r).prefix == Top(b).prefix && Top(r).fates == Top(b).fates
            && ClipsOn(r.nodes, tip) == Spelled(Top(b).prefix, Top(b).fates) + ClipsOf(wanted)
  {
    var short := Top(c).(open := Top(b).open[..k]);
    KnownFrom(wanted, k, serials);
    OpenGroupsSpell(c, short, parent, wanted[k..], serials);
    var (d, all, tip) := OpenGroups(c, short.open, parent, wanted[k..]);
    AllSerials(Top(b), k, wanted, all);
    assert short.(open := all) == Top(c).(open := all);
    SwitchEnds(b, c, d, all, wanted, serials);
  }

  lemma KnownFrom(wanted: seq<ClipPath>, k: nat, serials: Serials)
    requires Known(wanted, serials) && k <= |wanted|
    ensures Known(wanted[k..], serials)
  {}

  lemma AllSerials(f: Frame, k: nat, wanted: seq<ClipPath>, all: seq<OpenClip>)
    requires Matches(f, k, wanted) && |all| == |wanted| && all[..k] == f.open[..k] && SameSerials(all[k..], wanted[k..])
    ensures SameSerials(all, wanted)
  {
    forall j | 0 <= j < |wanted|
      ensures all[j].serial == wanted[j].serial
    {
      if j < k {
        assert all[..k][j] == f.open[..k][j];
      } else {
        assert all[k..][j - k].serial == wanted[k..][j - k].serial;
      }
    }
  }

  lemma SwitchEnds(b: Build, c: Build, d: Build, all: seq<OpenClip>, wanted: seq<ClipPath>, serials: Serials)
    requires ChainsOk(b, serials) && b.frames != [] && c.frames != [] && Known(wanted, serials)
    requires |c.frames| == |b.frames| && c.frames[..|c.frames| - 1] == b.frames[..|b.frames| - 1]
    requires FrameSpells(c.nodes, Top(c), serials) && Top(c) == Top(b).(container := Top(c).container)
    requires Grows(b.nodes, c.nodes) && Grows(c.nodes, d.nodes) && d == c.(nodes := d.nodes)
    requires OpenOk(d.nodes, Top(c).(open := all), serials) && SameSerials(all, wanted) && (Top(b).ownClip ==> wanted == [])
    ensures var r := WithTop(d, Top(d).(open := all, untouched := false));
            && ChainsOk(r, serials) && Before(Top(r), |all|) < |r.nodes|
            && ClipsOn(r.nodes, Before(Top(r), |all|)) == Spelled(Top(b).prefix, Top(b).fates) + ClipsOf(wanted)
  {
    var r := WithTop(d, Top(d).(open := all, untouched := false));
    var f := Top(c).(open := all);
    GrowsTrans(b.nodes, c.nodes, d.nodes);
    OpenChain(d.nodes, f, serials, wanted);
    BeforeInArena(d.nodes, f, serials, |all|);
    FrameGrows(c.nodes, d.nodes, Top(c), serials);
    forall j | 0 <= j < |all|
      ensures OpenSpells(d.nodes, Top(r), serials, j)
    {
      assert OpenSpells(d.nodes, f, serials, j) && Before(Top(r), j) == Before(f, j);
    }
    forall k | 0 <= k < |b.frames| - 1
      ensures FrameSpells(r.nodes, b.frames[k], serials)
    {
      FrameGrows(b.nodes, d.nodes, b.frames[k], serials);
    }
    ChainsTop(b, r, serials);
  }

  lemma {:induction false} WantedKnown(clips: seq<ClipPath>, base: nat, serials: Serials)
    requires Known(clips, serials)
    ensures Known(Wanted(clips, base), serials)
    decreases |clips|
  {
    if |clips| > base {
      assert Known(clips[..|clips| - 1], serials);
      WantedKnown(clips[..|clips| - 1], base, serials);
      var c := clips[|clips| - 1];
      assert Known([c], serials);
    }
  }

  /** The groups wanted for some clips, on a frame whose own they extend. */
  lemma SwitchAll(b: Build, clips: seq<ClipPath>, serials: Serials)
    requires BuildOk(b) && ChainsOk(b, serials) && Top(b).prefix <= clips && Known(clips, serials)
    requires Top(b).ownClip ==> |clips| <= Top(b).base
    ensures var wanted := Wanted(clips, Top(b).base);
            var k := Keep(Top(b).open, wanted);
            var (c, tip) := Switch(b, k, wanted[k..]);
            && ChainsOk(c, serials) && c.log == b.log && tip < |c.nodes| && Top(c).prefix <= clips
            && |Top(c).fates| <= |clips| && ClipsOn(c.nodes, tip) == Spelled(clips, Top(c).fates)
  {
    TopLengths(b, serials);
    var f := Top(b);
    var wanted := Wanted(clips, f.base);
    WantedKnown(clips, f.base, serials);
    SwitchSpells(b, Keep(f.open, wanted), wanted, serials);
    SpelledPrefix(f.prefix, f.fates, clips);
  }

  lemma SpelledPrefix(prefix: seq<ClipPath>, fates: seq<Fate>, clips: seq<ClipPath>)
    requires prefix <= clips && |fates| == |prefix|
    ensures Spelled(clips, fates) == Spelled(prefix, fates) + ClipsOf(Wanted(clips, |prefix|))
  {
    SpelledWanted(clips, |prefix|, fates);
    assert clips[..|prefix|] == prefix;
  }

  /** The container for something painted is under groups that spell its
      clips. */
  lemma ContainerSpells(b: Build, clips: seq<ClipPath>, serials: Serials)
    requires BuildOk(b) && ChainsOk(b, serials) && Top(b).prefix <= clips && Known(clips, serials)
    ensures var (c, tip) := Container(b, clips);
            && ChainsOk(c, serials) && c.log == b.log && tip < |c.nodes| && Top(c).prefix <= clips
            && |Top(c).fates| <= |clips| && ClipsOn(c.nodes, tip) == Spelled(clips, Top(c).fates)
  {
    OwnClipOk(b, clips);
    OwnClipSpells(b, clips, serials);
    SwitchAll(TakeOwnClip(b, clips), clips, serials);
  }
}
