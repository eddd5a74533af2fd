/**
 Running a page keeps its clips: every object drawn, whatever forms, layers,
 groups and clips came before it, is under groups that spell the clips in effect.
 */
module ClipMeaning {
  import opened Common
  import opened Arenas
  import opened Builds
  import opened Pages
  import opened PaintOrder
  import opened BuildTrees
  import opened BuildRuns
  import opened ReadBacks
  import opened ClipChains
  import opened ClipGroups
  import opened ClipContainers
  import opened ClipFrames

  /** The clips events name, each serial naming one clip, and boxes being boxes:
      what the interpreter guarantees. */
  ghost predicate Proper(events: seq<Event>, serials: Serials)
    decreases events
  {
    events == [] || (ProperOne(events[0], serials) && Proper(events[1..], serials))
  }

  ghost predicate ProperOne(event: Event, serials: Serials)
    decreases event
  {
    match event
    case Paint(_, clips) => Known(clips, serials)
    case Form(form, clips, inner) => Known(clips, serials) && (form.box.Some? ==> form.box.value.formBox) && Proper(inner, serials)
    case Mark(_, clips, inner) => Known(clips, serials) && Proper(inner, serials)
  }

  /** Whatever draws or opens a group does so under the clips that the frame on
      top was opened under, and more. */
  ghost predicate Nested(b: Build, events: seq<Event>)
    requires b.frames != []
    decreases events
  {
    events == [] || (NestedOne(b, events[0]) && Nested(ProcessOne(b, events[0]), events[1..]))
  }

  ghost predicate NestedOne(b: Build, event: Event)
    requires b.frames != []
    decreases event
  {
    match event
    case Paint(_, clips) => b.skip == 0 ==> Top(b).prefix <= clips
    case Form(form, clips, inner) =>
      (b.skip == 0 ==> Top(b).prefix <= clips) &&
      (Enters(b, form) ==> BeginGroup(b, form, clips).frames != [] && Nested(BeginGroup(b, form, clips), inner))
    case Mark(tag, clips, inner) =>
      (b.skip == 0 && (tag.GroupTag? || tag.DrawnTag?) ==> Top(b).prefix <= clips) &&
      BeginMarked(b, tag, clips).frames != [] && Nested(BeginMarked(b, tag, clips), inner)
  }

  lemma BeginMarkedSpells(b: Build, tag: Tag, clips: seq<ClipPath>, serials: Serials)
    requires Spells(b, serials) && Known(clips, serials)
    requires b.skip == 0 && (tag.GroupTag? || tag.DrawnTag?) ==> Top(b).prefix <= clips
    ensures Spells(BeginMarked(b, tag, clips), serials)
  {
    if b.skip == 0 {
      match tag {
        case OptionalContent(hides, layer) =>
          if !hides && |b.frames| == 1 && layer.Some? {
            BeginLayerSpells(b, layer.value, serials);
          } else {
            SameFramesSpell(b, BeginMarked(b, tag, clips), serials);
          }
        case GroupTag(name, clip) =>
          if NamesForm(b) { NameFormSpells(b, name, clip, serials); } else { BeginMarkedGroupSpells(b, name, clip, clips, serials); }
        case DrawnTag(content) =>
          BeginDrawnSpells(b, content, clips, serials);
        case _ =>
          SameFramesSpell(b, BeginMarked(b, tag, clips), serials);
      }
    } else {
      SameFramesSpell(b, BeginMarked(b, tag, clips), serials);
    }
  }

  lemma BeginDrawnSpells(b: Build, content: Option<Shape>, clips: seq<ClipPath>, serials: Serials)
    requires Spells(b, serials) && Known(clips, serials) && Top(b).prefix <= clips
    ensures Spells(BeginDrawn(b, content, clips), serials)
  {
    var c := if content.Some? then Add(b, LeafNode(content.value), clips).0 else b;
    if content.Some? { AddLeafSpells(b, content.value, clips, serials); }
    SameFramesSpell(c, BeginDrawn(b, content, clips), serials);
  }

  lemma SameFramesSpell(b: Build, c: Build, serials: Serials)
    requires Spells(b, serials) && c == b.(marked := c.marked, skip := c.skip, hidden := c.hidden, name := c.name)
    ensures Spells(c, serials)
  {
    SameStateOk(b, c);
  }

  lemma EndMarkedSpells(b: Build, c: Build, d: Build, serials: Serials)
    requires b.frames != [] && c.frames != [] && MarkedAs(b, c) && SameFrames(c, d) && SameMarks(c, d) && Spells(d, serials)
    ensures Spells(EndMarked(d), serials)
  {
    var mark := c.marked[|b.marked|];
    var e := d.(marked := b.marked);
    SameFramesSpell(d, e, serials);
    if mark.MarkedLayer? || mark.MarkedGroup? {
      assert PopTo(e, |b.frames|) == PopFrame(e);
      PopSpells(e, serials);
    } else {
      SameFramesSpell(e, EndMarked(d), serials);
    }
  }

  lemma {:induction false} ProcessSpells(b: Build, events: seq<Event>, serials: Serials)
    requires Spells(b, serials) && Proper(events, serials) && Nested(b, events)
    ensures Spells(Process(b, events), serials)
    decreases events
  {
    if events != [] {
      ProcessOneSpells(b, events[0], serials);
      ProcessSpells(ProcessOne(b, events[0]), events[1..], serials);
    }
  }

  lemma {:induction false} ProcessOneSpells(b: Build, event: Event, serials: Serials)
    requires Spells(b, serials) && ProperOne(event, serials) && NestedOne(b, event)
    ensures Spells(ProcessOne(b, event), serials)
    decreases event
  {
    match event {
      case Paint(shape, clips) =>
        if b.skip == 0 { AddLeafSpells(b, shape, clips, serials); }
      case Form(form, clips, inner) =>
        BeginGroupSpells(b, form, clips, serials);
        if Enters(b, form) {
          ProcessSpells(BeginGroup(b, form, clips), inner, serials);
          FormEndSpells(b, form, clips, inner, serials);
        }
      case Mark(tag, clips, inner) =>
        BeginMarkedSpells(b, tag, clips, serials);
        ProcessSpells(BeginMarked(b, tag, clips), inner, serials);
        MarkEndSpells(b, tag, clips, inner, serials);
    }
  }

  lemma {:induction false} FormEndSpells(b: Build, form: FormData, clips: seq<ClipPath>, inner: seq<Event>, serials: Serials)
    requires Spells(b, serials) && Enters(b, form) && Spells(BeginGroup(b, form, clips), serials)
    requires Spells(Process(BeginGroup(b, form, clips), inner), serials)
    ensures Spells(ProcessOne(b, Form(form, clips, inner)), serials)
  {
    FormEnds(b, form, clips, inner);
    BeginGroupFrames(b, form, clips);
    PopSpells(Process(BeginGroup(b, form, clips), inner), serials);
  }

  lemma {:induction false} MarkEndSpells(b: Build, tag: Tag, clips: seq<ClipPath>, inner: seq<Event>, serials: Serials)
    requires Spells(b, serials) && Spells(BeginMarked(b, tag, clips), serials)
    requires Spells(Process(BeginMarked(b, tag, clips), inner), serials)
    ensures Spells(ProcessOne(b, Mark(tag, clips, inner)), serials)
  {
    BeginMarkedFrames(b, tag, clips);
    EndMarkedSpells(b, BeginMarked(b, tag, clips), Process(BeginMarked(b, tag, clips), inner), serials);
  }

  /** A page read after others: whatever it draws is under groups that spell the
      clips it is drawn under, if its clips nest. */
  lemma ClipsKeepTheirMeaning(b: Build, events: seq<Event>, serials: Serials)
    requires LayersOk(b) && Idle(b) && LogSpells(b.log)
    requires Proper(events, serials) && Nested(Opened(b), events)
    ensures var r := Process(Opened(b), events);
            forall k :: 0 <= k < |r.log| ==> r.log[k].chain == Spelled(r.log[k].clips, r.log[k].fates)
  {
    OpensOk(b);
    ProcessSpells(Opened(b), events, serials);
  }

  // ------------------------------------------------- pages told by their events

  /** What is inside a form extends its clips and its box, and what is inside a
      marked group its clips; such a group takes no clip of its own and is not
      the name of a form it stands in. */
  ghost predicate Plainly(events: seq<Event>, floor: seq<ClipPath>, inForm: bool)
    decreases events
  {
    events == [] || (PlainlyOne(events[0], floor, inForm) && Plainly(events[1..], floor, inForm))
  }

  ghost predicate PlainlyOne(event: Event, floor: seq<ClipPath>, inForm: bool)
    decreases event
  {
    match event
    case Paint(_, clips) => floor <= clips
    case Form(form, clips, inner) => floor <= clips && Plainly(inner, clips + BoxOf(form), true)
    case Mark(tag, clips, inner) =>
      floor <= clips && if tag.GroupTag? then !tag.clip && !inForm && Plainly(inner, clips, false) else Plainly(inner, floor, inForm)
  }

  ghost predicate AllPlain(fates: seq<Fate>) {
    forall k :: 0 <= k < |fates| ==> fates[k] == Plain
  }

  ghost predicate FramesPlain(frames: seq<Frame>) {
    forall k :: 0 <= k < |frames| ==> !frames[k].ownClip && AllPlain(frames[k].fates)
  }

  ghost predicate LogPlain(log: seq<Drawn>) {
    forall k :: 0 <= k < |log| ==> AllPlain(log[k].fates)
  }

  ghost predicate IsPlain(b: Build) {
    b.frames != [] && FramesPlain(b.frames) && LogPlain(b.log)
  }

  /** Filling a frame changes neither what it was opened under nor what becomes
      of that. */
  lemma SwitchPlain(b: Build, k: nat, wanted: seq<ClipPath>)
    requires b.frames != [] && k <= |Top(b).open|
    ensures var c := Switch(b, k, wanted).0;
            && c.frames != [] && c.log == b.log && Top(c).prefix == Top(b).prefix && Top(c).fates == Top(b).fates && Top(c).ownClip == Top(b).ownClip
  {}

  lemma ContainerPlain(b: Build, clips: seq<ClipPath>)
    requires IsPlain(b)
    ensures IsPlain(Container(b, clips).0) && Top(Container(b, clips).0).prefix == Top(b).prefix
  {
    ContainerFrames(b, clips);
    assert !Top(b).ownClip && AllPlain(Top(b).fates) && TakeOwnClip(b, clips) == b;
    var wanted := Wanted(clips, Top(b).base);
    var k := Keep(Top(b).open, wanted);
    SwitchPlain(b, k, wanted[k..]);
    TopPlain(b, Container(b, clips).0);
  }

  lemma TopPlain(b: Build, c: Build)
    requires IsPlain(b) && SameFrames(b, c) && c.log == b.log && !Top(c).ownClip && AllPlain(Top(c).fates)
    ensures IsPlain(c)
  {
    forall k | 0 <= k < |c.frames|
      ensures !c.frames[k].ownClip && AllPlain(c.frames[k].fates)
    {
      if k < |c.frames| - 1 {
        assert c.frames[k] == c.frames[..|c.frames| - 1][k] == b.frames[k];
      }
    }
  }

  lemma AddPlain(b: Build, node: Node, clips: seq<ClipPath>)
    requires IsPlain(b)
    ensures IsPlain(Add(b, node, clips).0) && Top(Add(b, node, clips).0).prefix == Top(b).prefix
  {
    ContainerPlain(b, clips);
    var c := Add(b, node, clips).0;
    assert AllPlain(Top(c).fates);
  }

  lemma PushPlain(b: Build, f: Frame, c: Build)
    requires IsPlain(b) && !f.ownClip && AllPlain(f.fates) && c.frames == b.frames + [f] && c.log == b.log
    ensures IsPlain(c)
  {}

  lemma BeginGroupPlain(b: Build, form: FormData, clips: seq<ClipPath>)
    requires IsPlain(b)
    ensures IsPlain(BeginGroup(b, form, clips))
    ensures !Enters(b, form) ==> Top(BeginGroup(b, form, clips)).prefix == Top(b).prefix
    ensures Enters(b, form) ==> Top(BeginGroup(b, form, clips)).prefix == clips + BoxOf(form)
    ensures Enters(b, form) ==> PrefixBelow(BeginGroup(b, form, clips), |b.frames|) == Top(b).prefix
  {
    if b.skip > 0 {
    } else if form.masked {
      if form.drawing.Some? { AddPlain(b, LeafNode(form.drawing.value), clips); }
    } else {
      AddPlain(b, FormGroup(form), clips);
      AddFrames(b, FormGroup(form), clips);
      var c := Add(b, FormGroup(form), clips).0;
      assert AllPlain(Top(c).fates);
      PushPlain(c, Top(BeginGroup(b, form, clips)), BeginGroup(b, form, clips));
    }
  }

  /** What the frame on top of `n` others was opened under. */
  ghost function PrefixBelow(b: Build, n: nat): seq<ClipPath> {
    if 0 < n <= |b.frames| then b.frames[n - 1].prefix else []
  }

  lemma BeginMarkedPlain(b: Build, tag: Tag, clips: seq<ClipPath>)
    requires IsPlain(b) && (tag.GroupTag? ==> !tag.clip && !Top(b).kind.FormFrame?)
    ensures var c := BeginMarked(b, tag, clips);
            && IsPlain(c) && PrefixBelow(c, |b.frames|) == Top(b).prefix
            && (Top(c).prefix == Top(b).prefix || Top(c).prefix == [] || (tag.GroupTag? && Top(c).prefix == clips))
            && (!Top(b).kind.FormFrame? ==> !Top(c).kind.FormFrame?)
  {
    var c := BeginMarked(b, tag, clips);
    if b.skip == 0 {
      match tag {
        case OptionalContent(hides, layer) =>
          if !hides && |b.frames| == 1 && layer.Some? {
            PushPlain(b, NewFrame(LayerFrame, Some(LayerFor(b, layer.value).1), [], []), c);
          }
        case DrawnTag(content) =>
          if content.Some? {
            AddPlain(b, LeafNode(content.value), clips);
            AddFrames(b, LeafNode(content.value), clips);
          }
        case GroupTag(name, _) => MarkedGroupPlain(b, name, clips);
        case _ =>
      }
    }
  }

  lemma MarkedGroupPlain(b: Build, name: string, clips: seq<ClipPath>)
    requires IsPlain(b)
    ensures var c := BeginMarkedGroup(b, name, false, clips);
            IsPlain(c) && PrefixBelow(c, |b.frames|) == Top(b).prefix && Top(c).prefix == clips && Top(c).kind == GroupFrame
  {
    var node := NewNode(Group(None, false, false)).(name := name);
    AddPlain(b, node, clips);
    AddFrames(b, node, clips);
    var (c, r) := (Add(b, node, clips).0, BeginMarkedGroup(b, name, false, clips));
    assert AllPlain(Top(c).fates) && r.frames[..|c.frames|] == c.frames;
    PushPlain(c, Top(r), r);
  }

  lemma PopPlain(b: Build)
    requires IsPlain(b) && |b.frames| > 1
    ensures IsPlain(PopFrame(b)) && Top(PopFrame(b)).prefix == PrefixBelow(b, |b.frames| - 1)
  {}

  /** On such pages clips nest at every step, and nothing becomes of a clip but
      that it clips unless it is the page's. */
  lemma {:induction false} PlainPages(b: Build, events: seq<Event>, floor: seq<ClipPath>, inForm: bool)
    requires IsPlain(b) && Top(b).prefix <= floor && Plainly(events, floor, inForm) && (Top(b).kind.FormFrame? ==> inForm)
    ensures Nested(b, events) && IsPlain(Process(b, events)) && Top(Process(b, events)).prefix == Top(b).prefix
    decreases events
  {
    if events != [] {
      PlainPagesOne(b, events[0], floor, inForm);
      PlainPages(ProcessOne(b, events[0]), events[1..], floor, inForm);
    }
  }

  lemma {:induction false} PlainPagesOne(b: Build, event: Event, floor: seq<ClipPath>, inForm: bool)
    requires IsPlain(b) && Top(b).prefix <= floor && PlainlyOne(event, floor, inForm) && (Top(b).kind.FormFrame? ==> inForm)
    ensures NestedOne(b, event) && IsPlain(ProcessOne(b, event)) && Top(ProcessOne(b, event)).prefix == Top(b).prefix
    decreases event
  {
    match event {
      case Paint(shape, clips) =>
        AddPlain(b, LeafNode(shape), clips);
      case Form(form, clips, inner) =>
        BeginGroupPlain(b, form, clips);
        if Enters(b, form) {
          PlainPages(BeginGroup(b, form, clips), inner, clips + BoxOf(form), true);
          FormPlain(b, form, clips, inner);
        }
      case Mark(tag, clips, inner) =>
        BeginMarkedPlain(b, tag, clips);
        PlainPages(BeginMarked(b, tag, clips), inner, if tag.GroupTag? then clips else floor, if tag.GroupTag? then false else inForm);
        MarkPlain(b, tag, clips, inner);
    }
  }

  lemma {:induction false} FormPlain(b: Build, form: FormData, clips: seq<ClipPath>, inner: seq<Event>)
    requires b.frames != [] && Enters(b, form) && BeginGroup(b, form, clips).frames != []
    requires PrefixBelow(BeginGroup(b, form, clips), |b.frames|) == Top(b).prefix
    requires IsPlain(Process(BeginGroup(b, form, clips), inner))
    ensures var r := ProcessOne(b, Form(form, clips, inner));
            IsPlain(r) && Top(r).prefix == Top(b).prefix
  {
    BeginGroupFrames(b, form, clips);
    var c := BeginGroup(b, form, clips);
    var d := Process(c, inner);
    assert d.frames[..|b.frames|] == c.frames[..|b.frames|];
    assert d.frames[|b.frames| - 1] == d.frames[..|b.frames|][|b.frames| - 1] == c.frames[|b.frames| - 1];
    PopPlain(d);
  }

  lemma {:induction false} MarkPlain(b: Build, tag: Tag, clips: seq<ClipPath>, inner: seq<Event>)
    requires b.frames != [] && BeginMarked(b, tag, clips).frames != []
    requires var c := BeginMarked(b, tag, clips);
             PrefixBelow(c, |b.frames|) == Top(b).prefix && IsPlain(Process(c, inner)) && Top(Process(c, inner)).prefix == Top(c).prefix
    ensures var r := ProcessOne(b, Mark(tag, clips, inner));
            IsPlain(r) && Top(r).prefix == Top(b).prefix
  {
    BeginMarkedFrames(b, tag, clips);
    EndPlain(b, BeginMarked(b, tag, clips), Process(BeginMarked(b, tag, clips), inner));
  }

  lemma {:induction false} EndPlain(b: Build, c: Build, d: Build)
    requires b.frames != [] && c.frames != [] && MarkedAs(b, c) && SameFrames(c, d) && SameMarks(c, d)
    requires PrefixBelow(c, |b.frames|) == Top(b).prefix && IsPlain(d) && Top(d).prefix == Top(c).prefix
    ensures IsPlain(EndMarked(d)) && Top(EndMarked(d)).prefix == Top(b).prefix
  {
    var mark := c.marked[|b.marked|];
    var e := d.(marked := b.marked);
    if mark.MarkedLayer? || mark.MarkedGroup? {
      assert PopTo(e, |b.frames|) == PopFrame(e);
      assert e.frames[|b.frames| - 1] == d.frames[..|b.frames|][|b.frames| - 1] == c.frames[..|b.frames|][|b.frames| - 1];
      PopPlain(e);
    }
  }

  lemma {:induction false} PlainSpelled(clips: seq<ClipPath>, fates: seq<Fate>)
    requires AllPlain(fates)
    ensures Spelled(clips, fates) == ClipsOf(Wanted(clips, 0))
  {
    SpelledSame(clips, fates, []);
    SpelledWanted(clips, 0, []);
    assert clips[..0] == [];
  }

  /** On a page told by its events to nest its clips, the groups above each object
      carry exactly the clips in effect when it was drawn that are not the page's
      own box, in order. */
  lemma ClipsInEffect(events: seq<Event>, serials: Serials, k: nat)
    requires Proper(events, serials) && Plainly(events, [], false)
    requires k < |Process(EMPTY, events).log|
    ensures var e := Process(EMPTY, events).log[k];
            e.chain == ClipsOf(Wanted(e.clips, 0))
  {
    PlainPages(EMPTY, events, [], false);
    assert Opened(EMPTY) == EMPTY;
    ClipsKeepTheirMeaning(EMPTY, events, serials);
    var e := Process(EMPTY, events).log[k];
    PlainSpelled(e.clips, e.fates);
  }
}
