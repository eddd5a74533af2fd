/**
 Running a page's events: whatever they are, brackets are undone exactly. After
 a form or marked content ends, the frames, the marks, the skipping and the
 hiding are what they were before it began.
 */
module Pages {
  import opened Common
  import opened Arenas
  import opened Builds

  lemma ContainerFrames(b: Build, clips: seq<ClipPath>)
    requires b.frames != []
    ensures SameFrames(b, Container(b, clips).0) && SameMarks(b, Container(b, clips).0)
    ensures Top(Container(b, clips).0).kind == Top(b).kind
  {
    var own := TakeOwnClip(b, clips);
    assert SameFrames(b, own) && SameMarks(b, own) && Top(own).kind == Top(b).kind;
    var wanted := Wanted(clips, Top(own).base);
    SwitchFrames(own, Keep(Top(own).open, wanted), wanted[Keep(Top(own).open, wanted)..]);
  }

  lemma SwitchFrames(b: Build, k: nat, wanted: seq<ClipPath>)
    requires b.frames != [] && k <= |Top(b).open|
    ensures SameFrames(b, Switch(b, k, wanted).0) && SameMarks(b, Switch(b, k, wanted).0)
    ensures Top(Switch(b, k, wanted).0).kind == Top(b).kind
  {
    FrameContainerFrames(b);
    var c := if k == 0 then FrameContainer(b).0 else b;
    assert SameFrames(b, c) && SameMarks(b, c) && Top(c).kind == Top(b).kind;
  }

  lemma FrameContainerFrames(b: Build)
    requires b.frames != []
    ensures SameFrames(b, FrameContainer(b).0) && SameMarks(b, FrameContainer(b).0)
    ensures Top(FrameContainer(b).0).kind == Top(b).kind
  {}

  lemma AddFrames(b: Build, node: Node, clips: seq<ClipPath>)
    requires b.frames != []
    ensures SameFrames(b, Add(b, node, clips).0) && SameMarks(b, Add(b, node, clips).0)
    ensures Top(Add(b, node, clips).0).kind == Top(b).kind
  {
    ContainerFrames(b, clips);
  }

  /** A form that is entered pushes a frame for it. */
  lemma BeginGroupFrames(b: Build, form: FormData, clips: seq<ClipPath>)
    requires b.frames != []
    ensures var c := BeginGroup(b, form, clips);
            && SameMarks(b, c)
            && (!Enters(b, form) ==> SameFrames(b, c))
            && (Enters(b, form) ==> |c.frames| == |b.frames| + 1 && Top(c).kind == FormFrame(false)
                                    && SameFrames(b, c.(frames := c.frames[..|b.frames|])))
  {
    if b.skip == 0 && form.masked && form.drawing.Some? {
      AddFrames(b, LeafNode(form.drawing.value), clips);
    }
    if Enters(b, form) {
      AddFrames(b, FormGroup(form), clips);
      assert BeginGroup(b, form, clips).frames[..|b.frames|] == Add(b, FormGroup(form), clips).0.frames;
    }
  }

  /** The frame a mark pushes, if any. */
  ghost predicate Pushes(b: Build, c: Build) {
    b.frames != [] && |c.frames| == |b.frames| + 1 && !Top(c).kind.FormFrame? && SameFrames(b, c.(frames := c.frames[..|b.frames|]))
  }

  /** The mark is noted with all it takes to undo it. */
  ghost predicate MarkedAs(b: Build, c: Build) {
    && |c.marked| == |b.marked| + 1 && c.marked[..|b.marked|] == b.marked
    && match c.marked[|b.marked|]
       case MarkedLayer(depth) => Pushes(b, c) && depth == |b.frames| && c.skip == b.skip && c.hidden == b.hidden
       case MarkedGroup(depth) => Pushes(b, c) && depth == |b.frames| && c.skip == b.skip && c.hidden == b.hidden
       case MarkedHidden => SameFrames(b, c) && c.skip == b.skip && c.hidden == b.hidden + 1
       case MarkedSkipped => SameFrames(b, c) && c.skip == b.skip + 1 && c.hidden == b.hidden
       case _ => SameFrames(b, c) && c.skip == b.skip && c.hidden == b.hidden
  }

  lemma BeginMarkedFrames(b: Build, tag: Tag, clips: seq<ClipPath>)
    requires b.frames != []
    ensures MarkedAs(b, BeginMarked(b, tag, clips))
  {
    if b.skip == 0 {
      match tag {
        case OptionalContent(hides, layer) =>
          if !hides && |b.frames| == 1 && layer.Some? { BeginLayerFrames(b, layer.value); }
        case GroupTag(name, clip) =>
          if NamesForm(b) { NameFormFrames(b, name, clip); } else { BeginMarkedGroupFrames(b, name, clip, clips); }
        case DrawnTag(content) =>
          BeginDrawnFrames(b, content, clips);
        case _ =>
      }
    }
  }

  lemma BeginDrawnFrames(b: Build, content: Option<Shape>, clips: seq<ClipPath>)
    requires b.frames != []
    ensures MarkedAs(b, BeginDrawn(b, content, clips))
  {
    if content.Some? { AddFrames(b, LeafNode(content.value), clips); }
  }

  lemma NameFormFrames(b: Build, name: string, clip: bool)
    requires b.frames != [] && NamesForm(b)
    ensures MarkedAs(b, NameForm(b, name, clip))
  {}

  lemma BeginLayerFrames(b: Build, ref: LayerRef)
    requires b.frames != []
    ensures var c := BeginLayer(b, ref);
            MarkedAs(b, c) && c.marked == b.marked + [MarkedLayer(|b.frames|)]
  {
    var c := BeginLayer(b, ref);
    assert c.frames[..|b.frames|] == b.frames;
  }

  lemma BeginMarkedGroupFrames(b: Build, name: string, clip: bool, clips: seq<ClipPath>)
    requires b.frames != []
    ensures var c := BeginMarkedGroup(b, name, clip, clips);
            MarkedAs(b, c) && c.marked == b.marked + [MarkedGroup(|b.frames|)]
  {
    var node := NewNode(Group(None, false, false)).(name := name);
    AddFrames(b, node, clips);
    assert BeginMarkedGroup(b, name, clip, clips).frames[..|b.frames|] == Add(b, node, clips).0.frames;
  }

  /** A bracket's inside leaves the frames below its own alone, so that closing
      it takes away exactly its own frame. */
  lemma PopInner(b: Build, c: Build, d: Build)
    requires b.frames != [] && |c.frames| == |b.frames| + 1 && SameFrames(b, c.(frames := c.frames[..|b.frames|]))
    requires SameFrames(c, d)
    ensures SameFrames(b, PopFrame(d)) && SameMarks(d, PopFrame(d))
  {
    assert PopFrame(d).frames == c.frames[..|b.frames|];
  }

  /** Running events. Whatever they are, the frames below the top one, the open
      marks, the skipping and the hiding end as they began. */
  function Process(b: Build, events: seq<Event>): (r: Build)
    requires b.frames != []
    ensures SameFrames(b, r) && SameMarks(b, r)
    decreases events
  {
    if events == [] then b
    else
      var c := ProcessOne(b, events[0]);
      var r := Process(c, events[1..]);
      SameFramesTrans(b, c, r);
      r
  }

  function ProcessOne(b: Build, event: Event): (r: Build)
    requires b.frames != []
    ensures SameFrames(b, r) && SameMarks(b, r)
    decreases event
  {
    match event
    case Paint(shape, clips) =>
      AddFrames(b, LeafNode(shape), clips);
      PaintShape(b, shape, clips)
    case Form(form, clips, inner) =>
      BeginGroupFrames(b, form, clips);
      var c := BeginGroup(b, form, clips);
      if !Enters(b, form) then c
      else
        var d := Process(c, inner);
        PopInner(b, c, d);
        EndGroup(d)
    case Mark(tag, clips, inner) =>
      BeginMarkedFrames(b, tag, clips);
      var c := BeginMarked(b, tag, clips);
      var d := Process(c, inner);
      EndMarkedFrames(b, c, d);
      EndMarked(d)
  }

  lemma EndMarkedFrames(b: Build, c: Build, d: Build)
    requires b.frames != [] && c.frames != [] && MarkedAs(b, c) && SameFrames(c, d) && SameMarks(c, d)
    ensures SameFrames(b, EndMarked(d)) && SameMarks(b, EndMarked(d))
  {
    var mark := c.marked[|b.marked|];
    var e := d.(marked := b.marked);
    if mark.MarkedLayer? || mark.MarkedGroup? {
      PopInner(b, c, e);
      assert PopTo(e, |b.frames|) == PopFrame(e);
    } else {
      SameFramesTrans(b, c, e);
    }
  }
}
