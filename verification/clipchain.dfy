/**
 What the clip groups above a node spell: the clips in effect when it was added,
 in order, without the page's own box, the boxes of named forms, and with the
 clips that marks give to groups.
 */
module ClipChains {
  import opened Common
  import opened Arenas
  import opened Tips
  import opened Builds
  import opened Pages
  import opened PaintOrder
  import opened BuildTrees
  import opened BuildRuns

  predicate Kept(c: ClipPath, fate: Fate) {
    fate == Own || (fate == Plain && !IsPageClip(c))
  }

  function FateOf(fates: seq<Fate>, k: nat): Fate {
    if k < |fates| then fates[k] else Plain
  }

  /** The clips that clip: those past the known fates are plain. */
  function Spelled(clips: seq<ClipPath>, fates: seq<Fate>): seq<Clip> {
    if clips == [] then []
    else
      var n := |clips| - 1;
      Spelled(clips[..n], fates) + if Kept(clips[n], FateOf(fates, n)) then [clips[n].clip] else []
  }

  lemma {:induction false} SpelledSame(clips: seq<ClipPath>, fates: seq<Fate>, others: seq<Fate>)
    requires forall k :: 0 <= k < |clips| ==> FateOf(fates, k) == FateOf(others, k)
    ensures Spelled(clips, fates) == Spelled(clips, others)
  {
    if clips != [] {
      SpelledSame(clips[..|clips| - 1], fates, others);
    }
  }

  lemma SpelledPad(clips: seq<ClipPath>, fates: seq<Fate>, n: nat)
    ensures Spelled(clips, Pad(fates, n)) == Spelled(clips, fates)
  {
    forall k | 0 <= k < |clips|
      ensures FateOf(Pad(fates, n), k) == FateOf(fates, k)
    {
      if k < |fates| { assert Pad(fates, n)[k] == fates[k]; }
    }
    SpelledSame(clips, Pad(fates, n), fates);
  }

  lemma SpelledMore(clips: seq<ClipPath>, fates: seq<Fate>, c: ClipPath, fate: Fate)
    requires |fates| == |clips|
    ensures Spelled(clips + [c], fates + [fate]) == Spelled(clips, fates) + if Kept(c, fate) then [c.clip] else []
  {
    assert (clips + [c])[..|clips|] == clips;
    SpelledSame(clips, fates + [fate], fates);
  }

  function ClipsOf(paths: seq<ClipPath>): (r: seq<Clip>)
    ensures |r| == |paths|
    ensures forall j :: 0 <= j < |paths| ==> r[j] == paths[j].clip
  {
    seq(|paths|, j requires 0 <= j < |paths| => paths[j].clip)
  }

  /** The clips past a frame's own are spelled by the groups it wants. */
  lemma {:induction false} SpelledWanted(clips: seq<ClipPath>, base: nat, fates: seq<Fate>)
    requires base <= |clips| && |fates| == base
    ensures Spelled(clips, fates) == Spelled(clips[..base], fates) + ClipsOf(Wanted(clips, base))
    decreases |clips|
  {
    var n := |clips| - 1;
    if |clips| == base {
      assert clips[..base] == clips;
    } else {
      SpelledWanted(clips[..n], base, fates);
      assert clips[..n][..base] == clips[..base];
      SpelledLast(clips, base, fates);
    }
  }

  lemma SpelledLast(clips: seq<ClipPath>, base: nat, fates: seq<Fate>)
    requires base < |clips| && |fates| == base
    requires var n := |clips| - 1;
             Spelled(clips[..n], fates) == Spelled(clips[..base], fates) + ClipsOf(Wanted(clips[..n], base))
    ensures Spelled(clips, fates) == Spelled(clips[..base], fates) + ClipsOf(Wanted(clips, base))
  {
    var n := |clips| - 1;
    ClipsOfMore(Wanted(clips[..n], base), if IsPageClip(clips[n]) then [] else [clips[n]]);
  }

  lemma ClipsOfMore(paths: seq<ClipPath>, more: seq<ClipPath>)
    ensures ClipsOf(paths + more) == ClipsOf(paths) + ClipsOf(more)
  {}

  // ------------------------------------------------------------ clip chains

  /** What the clips of a node depend on, apart from what holds it. */
  ghost predicate ClipAlike(nodes: seq<Node>, t: seq<Node>, i: nat) {
    At(t, i).parent == At(nodes, i).parent && OwnClips(At(t, i)) == OwnClips(At(nodes, i))
  }

  lemma {:induction false} SameClips(nodes: seq<Node>, t: seq<Node>, i: nat)
    requires forall a: nat :: Under(nodes, i, a) ==> ClipAlike(nodes, t, a)
    ensures ClipsOn(t, i) == ClipsOn(nodes, i)
    decreases i
  {
    assert Under(nodes, i, i) && ClipAlike(nodes, t, i);
    var p := At(nodes, i).parent;
    if p.Some? && p.value < i {
      SameClips(nodes, t, p.value);
    }
  }

  /** A change to what a node holds, or to its own clip, matters to nothing
      outside it. */
  lemma ClipsOutside(nodes: seq<Node>, t: seq<Node>, g: nat, i: nat)
    requires forall a: nat :: !Under(nodes, a, g) ==> ClipAlike(nodes, t, a)
    requires !Under(nodes, i, g)
    ensures ClipsOn(t, i) == ClipsOn(nodes, i)
  {
    forall a: nat | Under(nodes, i, a)
      ensures ClipAlike(nodes, t, a)
    {
      if Under(nodes, a, g) { UnderTrans(nodes, i, a, g); }
    }
    SameClips(nodes, t, i);
  }

  lemma ClipsInLonger(nodes: seq<Node>, t: seq<Node>, i: nat)
    requires i < |nodes| <= |t| && forall a: nat :: a < |nodes| ==> ClipAlike(nodes, t, a)
    ensures ClipsOn(t, i) == ClipsOn(nodes, i)
  {
    forall a: nat | Under(nodes, i, a)
      ensures ClipAlike(nodes, t, a)
    {
      UnderIsLater(nodes, i, a);
    }
    SameClips(nodes, t, i);
  }

  lemma AppendClips(nodes: seq<Node>, node: Node, parent: nat, i: nat)
    requires parent < |nodes| && i < |nodes|
    ensures var t := Append(nodes, node, parent);
            && ClipsOn(t, i) == ClipsOn(nodes, i)
            && ClipsOn(t, |nodes|) == ClipsOn(nodes, parent) + OwnClips(node)
  {
    var t := Append(nodes, node, parent);
    ClipsInLonger(nodes, t, i);
    ClipsInLonger(nodes, t, parent);
  }

  lemma TidyAlike(nodes: seq<Node>, g: nat, named: bool, a: nat)
    requires Tree(nodes) && g < |nodes| && !Under(nodes, a, g)
    ensures ClipAlike(nodes, Tidied(nodes, g, named), a)
  {
    assert NodeOk(nodes, g);
    if nodes[g].children != [] {
      var c := nodes[g].children[0];
      assert ChildOf(nodes, g, c);
      assert Under(nodes, c, g) by { assert Under(nodes, g, g); }
      assert a != c;
    }
  }

  // --------------------------------------------------------------- frames

  /** Every clip by its serial. */
  type Serials = map<nat, ClipPath>

  ghost predicate Known(clips: seq<ClipPath>, serials: Serials) {
    forall k :: 0 <= k < |clips| ==> clips[k].serial in serials && serials[clips[k].serial] == clips[k]
  }

  /** The group before the `j`-th open one. */
  function Before(f: Frame, j: nat): nat
    requires f.container.Some? && j <= |f.open|
  {
    if j == 0 then f.container.value else f.open[j - 1].group
  }

  ghost predicate OpenSpells(nodes: seq<Node>, f: Frame, serials: Serials, j: nat)
    requires f.container.Some? && j < |f.open|
  {
    && f.open[j].serial in serials && f.open[j].group < |nodes|
    && ClipsOn(nodes, f.open[j].group) == ClipsOn(nodes, Before(f, j)) + [serials[f.open[j].serial].clip]
  }

  /** The box of a form that nothing has been added to yet is its last clip. */
  ghost predicate BoxIsLast(nodes: seq<Node>, f: Frame)
    requires f.container.Some?
  {
    f.kind == FormFrame(false) && f.untouched && OwnClips(At(nodes, f.container.value)) != [] ==>
      |f.fates| == |f.prefix| > 0 && f.fates[|f.fates| - 1] == Plain && !IsPageClip(f.prefix[|f.prefix| - 1])
  }

  ghost predicate FrameSpells(nodes: seq<Node>, f: Frame, serials: Serials) {
    && f.base == |f.prefix| == |f.fates|
    && (f.container.None? ==> f.prefix == [] && f.open == [])
    && (f.ownClip || f.untouched ==> f.open == [])
    && (f.kind.LayerFrame? || f.kind.PageFrame? ==> f.prefix == [])
    && (f.ownClip ==> (f.kind == FormFrame(true) || f.kind.GroupFrame?) && f.container.Some? && OwnClips(At(nodes, f.container.value)) == [])
    && (f.container.Some? ==>
          && f.container.value < |nodes|
          && ClipsOn(nodes, f.container.value) == Spelled(f.prefix, f.fates)
          && BoxIsLast(nodes, f)
          && forall j :: 0 <= j < |f.open| ==> OpenSpells(nodes, f, serials, j))
  }

  ghost predicate ChainsOk(b: Build, serials: Serials) {
    forall k :: 0 <= k < |b.frames| ==> FrameSpells(b.nodes, b.frames[k], serials)
  }

  /** Every leaf was added under groups that spell its clips. */
  ghost predicate LogSpells(log: seq<Drawn>) {
    forall k :: 0 <= k < |log| ==> log[k].chain == Spelled(log[k].clips, log[k].fates)
  }

  ghost predicate Spells(b: Build, serials: Serials) {
    BuildOk(b) && ChainsOk(b, serials) && LogSpells(b.log)
  }

  ghost predicate InFrame(f: Frame, i: nat) {
    f.container == Some(i) || (f.container.Some? && exists j :: 0 <= j < |f.open| && f.open[j].group == i)
  }

  /** Nodes change, but not the clips of what a frame records. */
  ghost predicate ClipsKept(nodes: seq<Node>, t: seq<Node>, f: Frame) {
    |nodes| <= |t| &&
    forall i: nat :: InFrame(f, i) ==> ClipsOn(t, i) == ClipsOn(nodes, i) && OwnClips(At(t, i)) == OwnClips(At(nodes, i))
  }

  lemma FrameKept(nodes: seq<Node>, t: seq<Node>, f: Frame, serials: Serials)
    requires FrameSpells(nodes, f, serials) && ClipsKept(nodes, t, f)
    ensures FrameSpells(t, f, serials)
  {
    if f.container.Some? {
      assert InFrame(f, f.container.value);
      forall j | 0 <= j < |f.open|
        ensures OpenSpells(t, f, serials, j)
      {
        assert OpenSpells(nodes, f, serials, j);
        OpenKept(nodes, t, f, serials, j);
      }
    }
  }

  lemma OpenKept(nodes: seq<Node>, t: seq<Node>, f: Frame, serials: Serials, j: nat)
    requires f.container.Some? && j < |f.open| && OpenSpells(nodes, f, serials, j) && ClipsKept(nodes, t, f)
    ensures OpenSpells(t, f, serials, j)
  {
    assert InFrame(f, f.open[j].group);
    assert InFrame(f, Before(f, j));
  }

  lemma InSpine(f: Frame, i: nat)
    requires InFrame(f, i)
    ensures i in Spine(f)
  {
    if f.container == Some(i) {
      assert Spine(f)[0] == i;
    } else {
      var j :| 0 <= j < |f.open| && f.open[j].group == i;
      assert Spine(f)[j + 1] == i;
    }
  }

  /** On the trunk or on the page's waiting path. */
  ghost predicate OnPath(frames: seq<Frame>, i: nat) {
    i in Trunk(frames) || i in Low(frames)
  }

  /** What a frame records is on one of the paths. */
  lemma {:induction false} RecordedOnPath(frames: seq<Frame>, k: nat, i: nat)
    requires Stacked(frames) && k < |frames| && InFrame(frames[k], i)
    ensures OnPath(frames, i)
    decreases |frames|
  {
    var n := |frames| - 1;
    if k == n {
      TopOnPath(frames, i);
    } else if frames[n].kind.LayerFrame? {
      PageOnPath(frames, k, i);
    } else {
      OnPathAbove(frames, i);
      RecordedOnPath(frames[..n], k, i);
    }
  }

  /** Below a layer's frame there is only the page's. */
  lemma PageOnPath(frames: seq<Frame>, k: nat, i: nat)
    requires Stacked(frames) && frames[|frames| - 1].kind.LayerFrame? && k < |frames| - 1 && InFrame(frames[k], i)
    ensures OnPath(frames, i)
  {
    LayerAlone(frames);
    InSpine(frames[0], i);
  }

  lemma TopOnPath(frames: seq<Frame>, i: nat)
    requires frames != [] && InFrame(frames[|frames| - 1], i)
    ensures OnPath(frames, i)
  {
    InSpine(frames[|frames| - 1], i);
    TrunkParts(frames, i);
  }

  lemma OnPathAbove(frames: seq<Frame>, i: nat)
    requires Stacked(frames) && |frames| > 1 && !frames[|frames| - 1].kind.LayerFrame?
    ensures Stacked(frames[..|frames| - 1])
    ensures OnPath(frames[..|frames| - 1], i) ==> OnPath(frames, i)
  {
    BelowExists(frames);
    TrunkParts(frames, i);
  }

  lemma LayerAlone(frames: seq<Frame>)
    requires Stacked(frames) && frames[|frames| - 1].kind.LayerFrame?
    ensures |frames| == 2 && Low(frames) == Spine(frames[0])
  {}

  lemma TrunkParts(frames: seq<Frame>, i: nat)
    requires frames != []
    ensures i in Trunk(frames) <==> i in Below(frames) || i in Spine(frames[|frames| - 1])
  {
    assert Trunk(frames) == Below(frames) + Spine(frames[|frames| - 1]);
  }

  /** What the frames record - their containers and open clip groups - is never
      a removed node. */
  lemma FramesAreLive(b: Build, k: nat, i: nat)
    requires BuildOk(b) && k < |b.frames| && InFrame(b.frames[k], i)
    ensures Holds(b.nodes, i)
  {
    RecordedOnPath(b.frames, k, i);
  }

  /** The top frame's group holds nothing that lower frames record. */
  lemma LowerApart(b: Build, k: nat, i: nat)
    requires BuildOk(b) && |b.frames| > 1 && !Top(b).kind.LayerFrame?
    requires k < |b.frames| - 1 && InFrame(b.frames[k], i)
    ensures i < |b.nodes| && !Under(b.nodes, i, Top(b).container.value)
  {
    BelowExists(b.frames);
    var front := b.frames[..|b.frames| - 1];
    RecordedOnPath(front, k, i);
    TrunkTip(b.frames);
    PathApart(b.nodes, Below(b.frames), Top(b).container.value, Low(b.frames), i, Trunk(b.frames));
  }

  lemma PathApart(nodes: seq<Node>, below: seq<nat>, g: nat, low: seq<nat>, i: nat, path: seq<nat>)
    requires Tree(nodes) && Descends(nodes, path) && Descends(nodes, low) && (low != [] && path != [] ==> low[0] != path[0])
    requires below != [] && |path| > |below| && path[..|below|] == below && path[|below|] == g
    requires i in below || i in low
    ensures i < |nodes| && !Under(nodes, i, g)
  {
    if i in below {
      var j :| 0 <= j < |below| && below[j] == i;
      assert path[..|below|][j] == i;
      PathIsUnder(nodes, path, j, |below|);
      if Under(nodes, i, g) { UnderIsLater(nodes, i, g); }
    } else {
      var j :| 0 <= j < |low| && low[j] == i;
      PathIsUnder(nodes, low, 0, j);
      PathIsUnder(nodes, path, 0, |below|);
      assert NodeOk(nodes, low[0]) && NodeOk(nodes, path[0]) && Holds(nodes, low[0]) && Holds(nodes, path[0]);
      if Under(nodes, i, g) {
        UnderTrans(nodes, i, g, path[0]);
        LayersApart(nodes, i, low[0], path[0]);
      }
    }
  }
}
