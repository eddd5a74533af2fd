/**
 Whole pages: every object drawn sits under groups that spell the clips it was
 drawn under.
 */
module ClipFrames {
  import opened Common
  import opened Arenas
  import opened Tips
  import opened Builds
  import opened Pages
  import opened PaintOrder
  import opened BuildTrees
  import opened BuildRuns
  import opened ReadBacks
  import opened ClipChains
  import opened ClipGroups
  import opened ClipContainers

  // ----------------------------------------------------------------- adding

  lemma AddLeafSpells(b: Build, shape: Shape, clips: seq<ClipPath>, serials: Serials)
    requires Spells(b, serials) && Top(b).prefix <= clips && Known(clips, serials)
    ensures Spells(Add(b, LeafNode(shape), clips).0, serials)
  {
    AddLeafOk(b, shape, clips);
    ContainerSpells(b, clips, serials);
    var (c, parent) := Container(b, clips);
    LeafSpells(c, shape, clips, parent, serials);
    LeafLogged(Insert(c, LeafNode(shape), parent).0, Add(b, LeafNode(shape), clips).0, serials);
  }

  lemma LeafLogged(d: Build, r: Build, serials: Serials)
    requires ChainsOk(d, serials) && LogSpells(d.log) && r == d.(log := r.log) && BuildOk(r)
    requires |r.log| == |d.log| + 1 && r.log[..|d.log|] == d.log
    requires var e := r.log[|d.log|]; e.chain == Spelled(e.clips, e.fates)
    ensures Spells(r, serials)
  {
    forall k | 0 <= k < |r.log|
      ensures r.log[k].chain == Spelled(r.log[k].clips, r.log[k].fates)
    {
      assert k < |d.log| ==> r.log[k] == r.log[..|d.log|][k] == d.log[k];
    }
  }

  lemma LeafSpells(c: Build, shape: Shape, clips: seq<ClipPath>, parent: nat, serials: Serials)
    requires ChainsOk(c, serials) && LogSpells(c.log) && c.frames != [] && parent < |c.nodes|
    requires ClipsOn(c.nodes, parent) == Spelled(clips, Top(c).fates)
    ensures var (d, i) := Insert(c, LeafNode(shape), parent);
            && ChainsOk(d, serials) && ClipsOn(d.nodes, i) == Spelled(clips, Top(d).fates)
  {
    var (d, i) := Insert(c, LeafNode(shape), parent);
    InsertGrows(c, LeafNode(shape), parent);
    ChainsGrow(c, d, serials);
  }

  lemma InsertGrows(c: Build, node: Node, parent: nat)
    requires parent < |c.nodes|
    ensures var (d, i) := Insert(c, node, parent);
            && Grows(c.nodes, d.nodes) && d == c.(nodes := d.nodes, name := d.name) && i == |c.nodes| < |d.nodes|
            && ClipsOn(d.nodes, i) == ClipsOn(c.nodes, parent) + OwnClips(node) && OwnClips(At(d.nodes, i)) == OwnClips(node)
  {
    var (d, i) := Insert(c, node, parent);
    var hidden := if c.hidden > 0 then node.(hidden := true) else node;
    var named := if node.kind.Leaf? && c.name.Some? then hidden.(name := c.name.value) else hidden;
    AppendGrows(c.nodes, named, parent);
  }

  lemma AddGroupSpells(b: Build, node: Node, clips: seq<ClipPath>, serials: Serials)
    requires Spells(b, serials) && Top(b).prefix <= clips && Known(clips, serials)
    requires node.kind.Group? && node.children == [] && !node.removed
    ensures var (c, g) := Add(b, node, clips);
            && ChainsOk(c, serials) && c.log == b.log && g < |c.nodes| && c.frames != []
            && |Top(c).fates| <= |clips| && OwnClips(At(c.nodes, g)) == OwnClips(node)
            && ClipsOn(c.nodes, g) == Spelled(clips, Top(c).fates) + OwnClips(node)
  {
    ContainerSpells(b, clips, serials);
    var (c, parent) := Container(b, clips);
    InsertGrows(c, node, parent);
    ChainsGrow(c, Insert(c, node, parent).0, serials);
  }

  // ----------------------------------------------------------------- frames

  lemma PushSpells(b: Build, c: Build, f: Frame, serials: Serials)
    requires ChainsOk(b, serials) && FrameSpells(b.nodes, f, serials) && c.nodes == b.nodes && c.frames == b.frames + [f]
    ensures ChainsOk(c, serials)
  {}

  /** A form's frame: the clips it is painted under, and its box. */
  lemma {:induction false} FormFrameSpells(nodes: seq<Node>, g: nat, form: FormData, clips: seq<ClipPath>, fates: seq<Fate>, serials: Serials)
    requires g < |nodes| && OwnClips(At(nodes, g)) == OwnClips(FormGroup(form)) && |fates| <= |clips|
    requires ClipsOn(nodes, g) == Spelled(clips, fates) + OwnClips(FormGroup(form))
    requires form.box.Some? ==> form.box.value.formBox
    ensures var prefix := clips + BoxOf(form);
            FrameSpells(nodes, NewFrame(FormFrame(false), Some(g), prefix, Pad(fates, |prefix|)), serials)
  {
    BoxSpelled(clips, fates, form);
  }

  lemma BoxSpelled(clips: seq<ClipPath>, fates: seq<Fate>, form: FormData)
    requires |fates| <= |clips| && (form.box.Some? ==> form.box.value.formBox)
    ensures var prefix := clips + BoxOf(form);
            Spelled(prefix, Pad(fates, |prefix|)) == Spelled(clips, fates) + OwnClips(FormGroup(form))
  {
    var prefix := clips + BoxOf(form);
    SpelledPad(prefix, fates, |prefix|);
    if form.box.Some? {
      assert prefix[..|clips|] == clips;
    } else {
      assert prefix == clips;
    }
  }

  lemma BeginGroupSpells(b: Build, form: FormData, clips: seq<ClipPath>, serials: Serials)
    requires Spells(b, serials) && Known(clips, serials) && (form.box.Some? ==> form.box.value.formBox)
    requires b.skip == 0 ==> Top(b).prefix <= clips
    ensures Spells(BeginGroup(b, form, clips), serials)
  {
    BeginGroupOk(b, form, clips);
    if b.skip > 0 {
    } else if form.masked {
      if form.drawing.Some? { AddLeafSpells(b, form.drawing.value, clips, serials); }
    } else {
      AddGroupSpells(b, FormGroup(form), clips, serials);
      var (c, g) := Add(b, FormGroup(form), clips);
      FormFrameSpells(c.nodes, g, form, clips, Top(c).fates, serials);
      var d := BeginGroup(b, form, clips);
      PushSpells(c, d, Top(d), serials);
    }
  }

  /** A marked group's frame: the clips it is painted under. */
  lemma GroupFrameSpells(nodes: seq<Node>, g: nat, own: bool, clips: seq<ClipPath>, fates: seq<Fate>, serials: Serials)
    requires g < |nodes| && OwnClips(At(nodes, g)) == [] && |fates| <= |clips| && ClipsOn(nodes, g) == Spelled(clips, fates)
    ensures FrameSpells(nodes, NewFrame(GroupFrame, Some(g), clips, Pad(fates, |clips|)).(ownClip := own), serials)
  {
    SpelledPad(clips, fates, |clips|);
  }

  lemma BeginMarkedGroupSpells(b: Build, name: string, clip: bool, clips: seq<ClipPath>, serials: Serials)
    requires Spells(b, serials) && Known(clips, serials) && Top(b).prefix <= clips
    ensures Spells(BeginMarkedGroup(b, name, clip, clips), serials)
  {
    BeginMarkedGroupOk(b, name, clip, clips);
    var node := NewNode(Group(None, false, false)).(name := name);
    AddGroupSpells(b, node, clips, serials);
    var (c, g) := Add(b, node, clips);
    assert Spelled(clips, Top(c).fates) + [] == Spelled(clips, Top(c).fates);
    GroupFrameSpells(c.nodes, g, clip, clips, Top(c).fates, serials);
    var d := BeginMarkedGroup(b, name, clip, clips);
    PushSpells(c, d, Top(d), serials);
  }

  lemma BeginLayerSpells(b: Build, ref: LayerRef, serials: Serials)
    requires Spells(b, serials) && |b.frames| == 1
    ensures Spells(BeginLayer(b, ref), serials)
  {
    BeginLayerOk(b, ref);
    LayerForOk(b, ref);
    var (c, layer) := LayerFor(b, ref);
    LayerForGrows(b, ref);
    ChainsGrow(b, c, serials);
    var d := BeginLayer(b, ref);
    assert FrameSpells(c.nodes, NewFrame(LayerFrame, Some(layer), [], []), serials);
    PushSpells(c, d, NewFrame(LayerFrame, Some(layer), [], []), serials);
  }

  lemma LayerForGrows(b: Build, ref: LayerRef)
    requires BuildOk(b)
    ensures var (c, layer) := LayerFor(b, ref);
            Grows(b.nodes, c.nodes) && layer < |c.nodes| && ClipsOn(c.nodes, layer) == [] && c.log == b.log && c.frames == b.frames
  {
    if ref.number.Some? && ref.number.value in b.byGroup {
      assert NodeOk(b.nodes, b.byGroup[ref.number.value]);
    } else {
      LayerGrows(b.nodes, NewNode(Layer).(name := ref.name));
    }
  }

  // ----------------------------------------------------------------- naming

  /** What a named form spells without its box. */
  lemma {:induction false} BoxDropped(prefix: seq<ClipPath>, fates: seq<Fate>, above: seq<Clip>, own: Clip)
    requires |fates| == |prefix| > 0 && fates[|fates| - 1] == Plain && !IsPageClip(prefix[|prefix| - 1])
    requires Spelled(prefix, fates) == above + [own]
    ensures Spelled(prefix, fates[..|fates| - 1] + [Dropped]) == above
  {
    var n := |fates| - 1;
    var front := prefix[..n];
    var last := prefix[n].clip;
    assert Spelled(prefix, fates) == Spelled(front, fates) + [last];
    assert Spelled(front, fates) == (Spelled(front, fates) + [last])[..|above|] == above;
    SpelledSame(front, fates, fates[..n]);
    SpelledMore(front, fates[..n], prefix[n], Dropped);
    assert prefix == front + [prefix[n]];
  }

  /** The form's frame once a mark has named it. */
  function Named(f: Frame, boxed: bool, clip: bool): Frame {
    f.(kind := FormFrame(true), ownClip := clip,
       fates := if boxed && f.fates != [] then f.fates[..|f.fates| - 1] + [Dropped] else f.fates)
  }

  lemma NamedTopSpells(nodes: seq<Node>, t: seq<Node>, f: Frame, clip: bool, serials: Serials)
    requires FrameSpells(nodes, f, serials) && f.kind == FormFrame(false) && f.untouched && f.container.Some? && |t| == |nodes|
    requires OwnClips(At(t, f.container.value)) == []
    requires ClipsOn(nodes, f.container.value) == ClipsOn(t, f.container.value) + OwnClips(At(nodes, f.container.value))
    ensures FrameSpells(t, Named(f, OwnClips(At(nodes, f.container.value)) != [], clip), serials)
  {
    var own := OwnClips(At(nodes, f.container.value));
    assert BoxIsLast(nodes, f);
    if own != [] {
      BoxDropped(f.prefix, f.fates, ClipsOn(t, f.container.value), own[0]);
    } else {
      assert ClipsOn(t, f.container.value) + [] == ClipsOn(t, f.container.value);
    }
  }

  lemma NameFormSpells(b: Build, name: string, clip: bool, serials: Serials)
    requires Spells(b, serials) && NamesForm(b)
    ensures Spells(NameForm(b, name, clip), serials)
  {
    NameFormOk(b, name, clip);
    TopGroup(b);
    NamedIs(b, name, clip);
    NamedSpells(b, NameForm(b, name, clip), name, clip, serials);
  }

  lemma NamedSpells(b: Build, c: Build, name: string, clip: bool, serials: Serials)
    requires BuildOk(b) && ChainsOk(b, serials) && NamesForm(b) && |b.frames| > 1 && c.frames != []
    requires Top(b).container.value < |b.nodes| && b.nodes[Top(b).container.value].kind.Group?
    requires |c.frames| == |b.frames| && c.frames[..|c.frames| - 1] == b.frames[..|b.frames| - 1]
    requires var g := Top(b).container.value;
             && c.nodes == Put(b.nodes, g, Unclipped(b.nodes[g]).(name := name))
             && Top(c) == Named(Top(b), OwnClips(At(b.nodes, g)) != [], clip)
    ensures ChainsOk(c, serials)
  {
    var g := Top(b).container.value;
    ReclipSpells(b.nodes, g, Unclipped(b.nodes[g]).(name := name));
    assert FrameSpells(b.nodes, Top(b), serials);
    NamedTopSpells(b.nodes, c.nodes, Top(b), clip, serials);
    LowerKept(b, c.nodes, serials);
    ChainsTop(b, c, serials);
  }

  lemma NamedIs(b: Build, name: string, clip: bool)
    requires b.frames != [] && NamesForm(b)
    ensures var c := NameForm(b, name, clip);
            var g := Top(b).container.value;
            && |c.frames| == |b.frames| && c.frames[..|c.frames| - 1] == b.frames[..|b.frames| - 1] && c.log == b.log
            && c.nodes == Put(b.nodes, g, Unclipped(At(b.nodes, g)).(name := name))
            && Top(c) == Named(Top(b), OwnClips(At(b.nodes, g)) != [], clip)
  {}

  // ---------------------------------------------------------------- closing

  lemma PopSpells(b: Build, serials: Serials)
    requires Spells(b, serials) && |b.frames| > 1
    ensures Spells(PopFrame(b), serials)
  {
    PopFrameOk(b);
    var c := PopFrame(b);
    if Top(b).kind.FormFrame? {
      PopFormKept(b, serials);
      LowerChains(b, c, serials);
    } else {
      LowerChains(b, c, serials);
    }
  }

  lemma TidyAlikeOutside(nodes: seq<Node>, g: nat, named: bool)
    requires Tree(nodes) && g < |nodes|
    ensures |Tidied(nodes, g, named)| == |nodes|
    ensures forall a: nat :: !Under(nodes, a, g) ==> ClipAlike(nodes, Tidied(nodes, g, named), a)
  {
    TidyLayers(nodes, g, named);
    forall a: nat | !Under(nodes, a, g)
      ensures ClipAlike(nodes, Tidied(nodes, g, named), a)
    {
      TidyAlike(nodes, g, named, a);
    }
  }

  lemma {:induction false} PopFormKept(b: Build, serials: Serials)
    requires Spells(b, serials) && |b.frames| > 1 && Top(b).kind.FormFrame?
    ensures forall k :: 0 <= k < |b.frames| - 1 ==> FrameSpells(PopFrame(b).nodes, b.frames[k], serials)
  {
    TopGroup(b);
    var g := Top(b).container.value;
    TidyAlikeOutside(b.nodes, g, Top(b).kind.named);
    LowerKept(b, Tidied(b.nodes, g, Top(b).kind.named), serials);
  }

  lemma LowerChains(b: Build, c: Build, serials: Serials)
    requires |c.frames| == |b.frames| - 1 && c.frames == b.frames[..|c.frames|]
    requires forall k :: 0 <= k < |b.frames| - 1 ==> FrameSpells(c.nodes, b.frames[k], serials)
    ensures ChainsOk(c, serials)
  {
    forall k | 0 <= k < |c.frames|
      ensures FrameSpells(c.nodes, c.frames[k], serials)
    {
      assert c.frames[k] == b.frames[k];
    }
  }
}
