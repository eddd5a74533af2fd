/**
 Building the document a page describes: the builder as a value, what it does on
 each event, and what the interpreter tells it.

 The interpreter reports forms and marked content as brackets that always match,
 so what it reports is a list of trees of events.
 */
module Builds {
  import opened Common
  import opened Arenas

  /** A clip in effect, told from others by its serial alone; `coversPage` is
      whether the path is a rectangle around a page box. */
  datatype ClipPath = ClipPath(clip: Clip, serial: nat, formBox: bool, coversPage: bool)

  /** The page's own box clips nothing on the artboard. */
  predicate IsPageClip(c: ClipPath) {
    !c.formBox && c.coversPage
  }

  datatype FrameKind = PageFrame | LayerFrame | FormFrame(named: bool) | GroupFrame

  datatype OpenClip = OpenClip(serial: nat, group: nat)

  /** What becomes of a clip that belongs to an outer frame: it clips unless it
      is the page's own (Plain), it is a marked group's own clip (Own), or it is
      the box of a form that a mark has named (Dropped). */
  datatype Fate = Plain | Own | Dropped

  /** A container being filled. The clips of `prefix`, with their fates, are
      those that belong to outer frames; the builder keeps only how many there
      are, in `base`. */
  datatype Frame = Frame(
    kind: FrameKind,
    container: Option<nat>,
    base: nat,
    open: seq<OpenClip>,
    ownClip: bool,
    untouched: bool,
    prefix: seq<ClipPath>,
    fates: seq<Fate>)

  function NewFrame(kind: FrameKind, container: Option<nat>, prefix: seq<ClipPath>, fates: seq<Fate>): Frame {
    Frame(kind, container, |prefix|, [], false, true, prefix, fates)
  }

  datatype Marked = MarkedLayer(depth: nat) | MarkedHidden | MarkedGroup(depth: nat) | MarkedNamed | MarkedSkipped | MarkedName | MarkedOther

  /** A leaf as it was added: its layer, the clips in effect and their fates,
      and the clips of the groups it was added under. */
  datatype Drawn = Drawn(node: nat, layer: nat, clips: seq<ClipPath>, fates: seq<Fate>, chain: seq<Clip>)

  /** The builder. `log` lists the leaves added; it is not stored, it is there
      to state what holds. */
  datatype Build = Build(
    nodes: seq<Node>,
    layers: seq<nat>,
    byGroup: map<nat, nat>,
    defaultLayer: Option<nat>,
    frames: seq<Frame>,
    marked: seq<Marked>,
    skip: nat,
    hidden: nat,
    name: Option<string>,
    seenLayer: bool,
    log: seq<Drawn>)

  /** Where a page starts, after the pages before it. */
  function Opened(b: Build): Build {
    b.(frames := [NewFrame(PageFrame, None, [], [])], marked := [], skip := 0, hidden := 0, name := None, seenLayer := false)
  }

  const EMPTY := Opened(Build([], [], map[], None, [], [], 0, 0, None, false, []))

  function Top(b: Build): Frame
    requires b.frames != []
  {
    b.frames[|b.frames| - 1]
  }

  function WithTop(b: Build, f: Frame): (r: Build)
    requires b.frames != []
    ensures r.frames != [] && Top(r) == f && |r.frames| == |b.frames|
    ensures r == b.(frames := r.frames) && r.frames[..|b.frames| - 1] == b.frames[..|b.frames| - 1]
  {
    b.(frames := b.frames[|b.frames| - 1 := f])
  }

  // ------------------------------------------------------------- containers

  /** Consumes a marked group's own clip: the next one set. */
  function TakeOwnClip(b: Build, clips: seq<ClipPath>): Build
    requires b.frames != []
  {
    var top := Top(b);
    if top.ownClip && top.base < |clips| && top.container.Some? then
      var g := At(b.nodes, top.container.value);
      var own := clips[top.base];
      var nodes := if g.kind.Group? then Put(b.nodes, top.container.value, g.(kind := g.kind.(clip := Some(own.clip)))) else b.nodes;
      WithTop(b, top.(ownClip := false, base := top.base + 1, prefix := clips[..top.base + 1], fates := top.fates + [Own])).(nodes := nodes)
    else b
  }

  /** The clips past the first `base` that are not the page's own. */
  function Wanted(clips: seq<ClipPath>, base: nat): seq<ClipPath> {
    if |clips| <= base then []
    else
      var c := clips[|clips| - 1];
      Wanted(clips[..|clips| - 1], base) + if IsPageClip(c) then [] else [c]
  }

  /** How many of the open clip groups are the wanted clips' own. */
  function Keep(open: seq<OpenClip>, wanted: seq<ClipPath>): (k: nat)
    ensures k <= |open| && k <= |wanted|
    ensures forall j :: 0 <= j < k ==> open[j].serial == wanted[j].serial
    ensures k < |open| && k < |wanted| ==> open[k].serial != wanted[k].serial
  {
    if open == [] || wanted == [] || open[0].serial != wanted[0].serial then 0
    else 1 + Keep(open[1..], wanted[1..])
  }

  /** The arena with an empty layer more, listed first or last. */
  function NewLayer(b: Build, name: string, bottom: bool): (Build, nat) {
    var layer := NewNode(Layer).(name := name);
    (b.(nodes := b.nodes + [layer], layers := if bottom then [|b.nodes|] + b.layers else b.layers + [|b.nodes|]), |b.nodes|)
  }

  /** Where content without a layer of its own goes; asking again gives the same. */
  function DefaultLayer(b: Build, bottom: bool): (Build, nat) {
    if b.defaultLayer.Some? then (b, b.defaultLayer.value)
    else
      var (c, i) := NewLayer(b, "Layer", bottom);
      (c.(defaultLayer := Some(i)), i)
  }

  /** The top frame's container, made when needed. */
  function FrameContainer(b: Build): (Build, nat)
    requires b.frames != []
  {
    if Top(b).container.Some? then (b, Top(b).container.value)
    else
      var (c, i) := DefaultLayer(b, !b.seenLayer);
      (WithTop(c, Top(b).(container := Some(i))), i)
  }

  /** Adds a node under a parent; a leaf takes the name a mark has given. */
  function Insert(b: Build, node: Node, parent: nat): (Build, nat) {
    var hidden := if b.hidden > 0 then node.(hidden := true) else node;
    var named := if node.kind.Leaf? && b.name.Some? then hidden.(name := b.name.value) else hidden;
    (b.(nodes := Append(b.nodes, named, parent), name := if node.kind.Leaf? then None else b.name), |b.nodes|)
  }

  function ClipGroup(c: ClipPath): Node {
    NewNode(Group(Some(c.clip), false, false))
  }

  /** Opens a group for each clip, each inside the one before. */
  function OpenGroups(b: Build, open: seq<OpenClip>, parent: nat, wanted: seq<ClipPath>): (r: (Build, seq<OpenClip>, nat))
    ensures r.0 == b.(nodes := r.0.nodes)
    decreases |wanted|
  {
    if wanted == [] then (b, open, parent)
    else
      var (c, g) := Insert(b, ClipGroup(wanted[0]), parent);
      OpenGroups(c, open + [OpenClip(wanted[0].serial, g)], g, wanted[1..])
  }

  /** Closes the clip groups past the first `k` and opens others. */
  function Switch(b: Build, k: nat, wanted: seq<ClipPath>): (Build, nat)
    requires b.frames != [] && k <= |Top(b).open|
  {
    var open := Top(b).open[..k];
    var (c, parent) := if open == [] then FrameContainer(b) else (b, open[k - 1].group);
    var (d, all, tip) := OpenGroups(c, open, parent, wanted);
    (WithTop(d, Top(d).(open := all, untouched := false)), tip)
  }

  /** The container for something painted under some clips: of the open groups
      the longest part the clips agree with stays, and the rest are opened in it. */
  function Container(b: Build, clips: seq<ClipPath>): (Build, nat)
    requires b.frames != []
  {
    var own := TakeOwnClip(b, clips);
    var wanted := Wanted(clips, Top(own).base);
    var k := Keep(Top(own).open, wanted);
    Switch(own, k, wanted[k..])
  }

  /** The layer being filled. */
  function LayerOf(frames: seq<Frame>): nat {
    if |frames| > 1 && frames[1].kind.LayerFrame? then frames[1].container.UnwrapOr(0)
    else if frames != [] then frames[0].container.UnwrapOr(0) else 0
  }

  /** The clips of a node and of everything that holds it, outermost first. */
  function ClipsOn(nodes: seq<Node>, i: nat): seq<Clip>
    decreases i
  {
    var node := At(nodes, i);
    (if node.parent.Some? && node.parent.value < i then ClipsOn(nodes, node.parent.value) else []) + OwnClips(node)
  }

  function OwnClips(node: Node): seq<Clip> {
    if node.kind.Group? && node.kind.clip.Some? then [node.kind.clip.value] else []
  }

  /** Adds something painted under some clips. */
  function Add(b: Build, node: Node, clips: seq<ClipPath>): (Build, nat)
    requires b.frames != []
  {
    var (c, parent) := Container(b, clips);
    var (d, i) := Insert(c, node, parent);
    if node.kind.Leaf? then (d.(log := d.log + [Drawn(i, LayerOf(d.frames), clips, Top(d).fates, ClipsOn(d.nodes, i))]), i)
    else (d, i)
  }

  // ------------------------------------------------------------------ frames

  /** One frame less; a form's group goes through `Tidied`. */
  function PopFrame(b: Build): Build
    requires b.frames != []
  {
    var f := Top(b);
    var nodes := if f.kind.FormFrame? && f.container.Some? then Tidied(b.nodes, f.container.value, f.kind.named) else b.nodes;
    b.(frames := b.frames[..|b.frames| - 1], nodes := nodes)
  }

  /** Closes frames until only `depth` are left. */
  function PopTo(b: Build, depth: nat): Build
    requires depth > 0
    decreases |b.frames|
  {
    if |b.frames| <= depth then b else PopTo(PopFrame(b), depth)
  }

  /** Closes frames down to and with a form's, or down to the page's. */
  function EndGroup(b: Build): Build
    decreases |b.frames|
  {
    if b.frames == [] then b
    else
      var p := PopFrame(b);
      if Top(b).kind.FormFrame? || |p.frames| <= 1 then p else EndGroup(p)
  }

  function Finish(b: Build): Build {
    PopTo(b, 1)
  }

  // ------------------------------------------------------------------ events

  /** What is painted: a path, text, an image or raw content. */
  datatype Shape = Shape(content: nat, bounds: Option<Rect>, opacity: real, blend: nat)

  function LeafNode(shape: Shape): Node {
    NewNode(Leaf(shape.content, shape.bounds)).(opacity := shape.opacity, blend := shape.blend)
  }

  /** A form: the box it is clipped to, if not empty, and how it is painted.
      Under a soft mask it is drawn whole, as `drawing`, if that shows. */
  datatype FormData = FormData(box: Option<ClipPath>, isolated: bool, knockout: bool, opacity: real, blend: nat,
                               masked: bool, drawing: Option<Shape>)

  /** An optional content group, by its number if it has one. */
  datatype LayerRef = LayerRef(number: Option<nat>, name: string)

  /** What marked content says: optional content (hidden, or a layer if it
      names one), a group, an object drawn from its properties, a name, or
      nothing read here. */
  datatype Tag =
    | OptionalContent(hides: bool, layer: Option<LayerRef>)
    | GroupTag(name: string, clip: bool)
    | DrawnTag(content: Option<Shape>)
    | NameTag(given: Option<string>)
    | OtherTag

  datatype Event =
    | Paint(shape: Shape, clips: seq<ClipPath>)
    | Form(form: FormData, clips: seq<ClipPath>, inner: seq<Event>)
    | Mark(tag: Tag, clips: seq<ClipPath>, inner: seq<Event>)

  function Pad(fates: seq<Fate>, n: nat): (r: seq<Fate>)
    ensures |r| == if |fates| <= n then n else |fates|
    ensures fates <= r && forall j :: |fates| <= j < |r| ==> r[j] == Plain
    decreases n
  {
    if n <= |fates| then fates else Pad(fates, n - 1) + [Plain]
  }

  function BoxOf(form: FormData): seq<ClipPath> {
    if form.box.Some? then [form.box.value] else []
  }

  function FormGroup(form: FormData): Node {
    var clip := if form.box.Some? then Some(form.box.value.clip) else None;
    NewNode(Group(clip, form.isolated, form.knockout)).(opacity := form.opacity, blend := form.blend)
  }

  /** Whether the form's content is run. */
  predicate Enters(b: Build, form: FormData) {
    b.skip == 0 && !form.masked
  }

  function BeginGroup(b: Build, form: FormData, clips: seq<ClipPath>): Build
    requires b.frames != []
  {
    if b.skip > 0 then b
    else if form.masked then if form.drawing.Some? then Add(b, LeafNode(form.drawing.value), clips).0 else b
    else
      var (c, g) := Add(b, FormGroup(form), clips);
      var prefix := clips + BoxOf(form);
      c.(frames := c.frames + [NewFrame(FormFrame(false), Some(g), prefix, Pad(Top(c).fates, |prefix|))])
  }

  /** The layer for an optional content group. */
  function LayerFor(b: Build, ref: LayerRef): (Build, nat) {
    if ref.number.Some? && ref.number.value in b.byGroup then (b, b.byGroup[ref.number.value])
    else
      var (c, i) := NewLayer(b, ref.name, false);
      (if ref.number.Some? then c.(byGroup := c.byGroup[ref.number.value := i]) else c, i)
  }

  function BeginLayer(b: Build, ref: LayerRef): Build {
    var (c, layer) := LayerFor(b, ref);
    c.(seenLayer := true, frames := c.frames + [NewFrame(LayerFrame, Some(layer), [], [])], marked := c.marked + [MarkedLayer(|c.frames|)])
  }

  /** The form on top takes the mark's name: its box is no clip of it. */
  predicate NamesForm(b: Build)
    requires b.frames != []
  {
    Top(b).kind == FormFrame(false) && Top(b).untouched && Top(b).container.Some?
  }

  function NameForm(b: Build, name: string, clip: bool): Build
    requires b.frames != [] && NamesForm(b)
  {
    var top := Top(b);
    var g := At(b.nodes, top.container.value);
    var fates := if OwnClips(g) != [] && top.fates != [] then top.fates[..|top.fates| - 1] + [Dropped] else top.fates;
    WithTop(b, top.(kind := FormFrame(true), ownClip := clip, fates := fates)).(
      nodes := Put(b.nodes, top.container.value, Unclipped(g).(name := name)), marked := b.marked + [MarkedNamed])
  }

  function BeginMarkedGroup(b: Build, name: string, clip: bool, clips: seq<ClipPath>): Build
    requires b.frames != []
  {
    var (c, g) := Add(b, NewNode(Group(None, false, false)).(name := name), clips);
    var frame := NewFrame(GroupFrame, Some(g), clips, Pad(Top(c).fates, |clips|));
    c.(frames := c.frames + [frame.(ownClip := clip)], marked := c.marked + [MarkedGroup(|c.frames|)])
  }

  /** An object drawn from its properties; its own drawing is skipped. */
  function BeginDrawn(b: Build, content: Option<Shape>, clips: seq<ClipPath>): Build
    requires b.frames != []
  {
    var c := if content.Some? then Add(b, LeafNode(content.value), clips).0 else b;
    c.(skip := c.skip + 1, marked := c.marked + [MarkedSkipped])
  }

  function BeginMarked(b: Build, tag: Tag, clips: seq<ClipPath>): Build
    requires b.frames != []
  {
    if b.skip > 0 then b.(marked := b.marked + [MarkedOther])
    else match tag
      case OptionalContent(hides, layer) =>
        if hides then b.(hidden := b.hidden + 1, marked := b.marked + [MarkedHidden])
        else if |b.frames| == 1 && layer.Some? then BeginLayer(b, layer.value)
        else b.(marked := b.marked + [MarkedOther])
      case GroupTag(name, clip) =>
        if NamesForm(b) then NameForm(b, name, clip) else BeginMarkedGroup(b, name, clip, clips)
      case DrawnTag(content) => BeginDrawn(b, content, clips)
      case NameTag(given) => b.(name := given, marked := b.marked + [MarkedName])
      case OtherTag => b.(marked := b.marked + [MarkedOther])
  }

  function EndMarked(b: Build): Build {
    if b.marked == [] then b
    else
      var c := b.(marked := b.marked[..|b.marked| - 1]);
      match b.marked[|b.marked| - 1]
      case MarkedLayer(depth) => PopTo(c, MaxNat(depth, 1))
      case MarkedGroup(depth) => PopTo(c, MaxNat(depth, 1))
      case MarkedHidden => c.(hidden := if c.hidden > 0 then c.hidden - 1 else 0)
      case MarkedSkipped => c.(skip := if c.skip > 0 then c.skip - 1 else 0)
      case MarkedName => c.(name := None)
      case _ => c
  }

  function PaintShape(b: Build, shape: Shape, clips: seq<ClipPath>): Build
    requires b.frames != []
  {
    if b.skip > 0 then b else Add(b, LeafNode(shape), clips).0
  }

  // --------------------------------------------------------------- brackets

  ghost predicate SameKind(f: Frame, g: Frame) {
    f.kind == g.kind || (f.kind.FormFrame? && g.kind.FormFrame?)
  }

  /** What whole brackets leave alone: the frames below the top one, and what
      the top one is. */
  ghost predicate SameFrames(b: Build, r: Build) {
    b.frames != [] && |r.frames| == |b.frames| && r.frames[..|b.frames| - 1] == b.frames[..|b.frames| - 1] && SameKind(Top(b), Top(r))
  }

  /** Every event but a bracket leaves these alone as well. */
  ghost predicate SameMarks(b: Build, r: Build) {
    r.marked == b.marked && r.skip == b.skip && r.hidden == b.hidden
  }

  lemma SameFramesTrans(a: Build, b: Build, c: Build)
    requires SameFrames(a, b) && SameFrames(b, c)
    ensures SameFrames(a, c)
  {}
}
