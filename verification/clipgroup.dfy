/**
 Every event keeps the clip chains spelled, as long as the clips of what is
 inside extend the clips of what it is inside of.
 */
module ClipGroups {
  import opened Common
  import opened Arenas
  import opened Tips
  import opened Builds
  import opened Pages
  import opened PaintOrder
  import opened BuildTrees
  import opened BuildRuns
  import opened ClipChains

  /** The clips of every node so far stay as they are. */
  ghost predicate Grows(nodes: seq<Node>, t: seq<Node>) {
    |nodes| <= |t| &&
    forall i: nat :: i < |nodes| ==> ClipsOn(t, i) == ClipsOn(nodes, i) && OwnClips(At(t, i)) == OwnClips(At(nodes, i))
  }

  lemma GrowsTrans(a: seq<Node>, b: seq<Node>, c: seq<Node>)
    requires Grows(a, b) && Grows(b, c)
    ensures Grows(a, c)
  {
    forall i: nat | i < |a|
      ensures ClipsOn(c, i) == ClipsOn(a, i) && OwnClips(At(c, i)) == OwnClips(At(a, i))
    {
      assert ClipsOn(b, i) == ClipsOn(a, i) && ClipsOn(c, i) == ClipsOn(b, i);
    }
  }

  lemma FrameGrows(nodes: seq<Node>, t: seq<Node>, f: Frame, serials: Serials)
    requires FrameSpells(nodes, f, serials) && Grows(nodes, t)
    ensures FrameSpells(t, f, serials)
  {
    forall i: nat | InFrame(f, i)
      ensures ClipsOn(t, i) == ClipsOn(nodes, i) && OwnClips(At(t, i)) == OwnClips(At(nodes, i))
    {
      assert i < |nodes| by {
        if f.container != Some(i) {
          var j :| 0 <= j < |f.open| && f.open[j].group == i;
          assert OpenSpells(nodes, f, serials, j);
        }
      }
    }
    FrameKept(nodes, t, f, serials);
  }

  lemma AppendGrows(nodes: seq<Node>, node: Node, parent: nat)
    requires parent < |nodes|
    ensures var t := Append(nodes, node, parent);
            Grows(nodes, t) && ClipsOn(t, |nodes|) == ClipsOn(nodes, parent) + OwnClips(node)
  {
    var t := Append(nodes, node, parent);
    AppendClips(nodes, node, parent, parent);
    forall i: nat | i < |nodes|
      ensures ClipsOn(t, i) == ClipsOn(nodes, i)
    {
      AppendClips(nodes, node, parent, i);
    }
  }

  lemma LayerGrows(nodes: seq<Node>, layer: Node)
    requires layer.kind.Layer? && layer.parent.None?
    ensures Grows(nodes, nodes + [layer]) && ClipsOn(nodes + [layer], |nodes|) == []
  {
    forall i: nat | i < |nodes|
      ensures ClipsOn(nodes + [layer], i) == ClipsOn(nodes, i)
    {
      ClipsInLonger(nodes, nodes + [layer], i);
    }
  }

  // ------------------------------------------------------------ clip groups

  ghost predicate OpenOk(nodes: seq<Node>, f: Frame, serials: Serials) {
    f.container.Some? && f.container.value < |nodes| && forall j :: 0 <= j < |f.open| ==> OpenSpells(nodes, f, serials, j)
  }

  lemma OpenGrows(nodes: seq<Node>, t: seq<Node>, f: Frame, serials: Serials)
    requires OpenOk(nodes, f, serials) && Grows(nodes, t)
    ensures OpenOk(t, f, serials)
  {
    forall j | 0 <= j < |f.open|
      ensures OpenSpells(t, f, serials, j)
    {
      BeforeInArena(nodes, f, serials, j);
      assert OpenSpells(nodes, f, serials, j);
    }
  }

  lemma BeforeInArena(nodes: seq<Node>, f: Frame, serials: Serials, j: nat)
    requires OpenOk(nodes, f, serials) && j <= |f.open|
    ensures Before(f, j) < |nodes|
  {
    if j > 0 { assert OpenSpells(nodes, f, serials, j - 1); }
  }

  /** A group for one more clip. */
  lemma OpenOneSpells(nodes: seq<Node>, f: Frame, serials: Serials, c: ClipPath, node: Node)
    requires OpenOk(nodes, f, serials) && Known([c], serials) && OwnClips(node) == [c.clip]
    ensures var t := Append(nodes, node, Before(f, |f.open|));
            Grows(nodes, t) && OpenOk(t, f.(open := f.open + [OpenClip(c.serial, |nodes|)]), serials)
  {
    var t := Append(nodes, node, Before(f, |f.open|));
    var g := f.(open := f.open + [OpenClip(c.serial, |nodes|)]);
    BeforeInArena(nodes, f, serials, |f.open|);
    AppendGrows(nodes, node, Before(f, |f.open|));
    OpenGrows(nodes, t, f, serials);
    forall j | 0 <= j < |g.open|
      ensures OpenSpells(t, g, serials, j)
    {
      assert j < |f.open| ==> OpenSpells(t, f, serials, j) && Before(g, j) == Before(f, j);
      assert [c][0] == c;
    }
  }

  ghost predicate SameSerials(open: seq<OpenClip>, wanted: seq<ClipPath>) {
    |open| == |wanted| && forall j :: 0 <= j < |open| ==> open[j].serial == wanted[j].serial
  }

  lemma {:induction false} OpenGroupsSpell(b: Build, f: Frame, parent: nat, wanted: seq<ClipPath>, serials: Serials)
    requires OpenOk(b.nodes, f, serials) && parent == Before(f, |f.open|) && Known(wanted, serials)
    ensures var (c, all, tip) := OpenGroups(b, f.open, parent, wanted);
            && Grows(b.nodes, c.nodes) && OpenOk(c.nodes, f.(open := all), serials)
            && |all| == |f.open| + |wanted| && all[..|f.open|] == f.open && SameSerials(all[|f.open|..], wanted)
            && tip == Before(f.(open := all), |all|)
    decreases |wanted|
  {
    if wanted != [] {
      var (c, g) := Insert(b, ClipGroup(wanted[0]), parent);
      var more := f.(open := f.open + [OpenClip(wanted[0].serial, g)]);
      InsertOneSpells(b, f, serials, wanted[0]);
      assert Known(wanted[1..], serials);
      OpenGroupsSpell(c, more, g, wanted[1..], serials);
      var (d, all, tip) := OpenGroups(c, more.open, g, wanted[1..]);
      GrowsTrans(b.nodes, c.nodes, d.nodes);
      SerialsStep(f.open, OpenClip(wanted[0].serial, g), all, wanted);
      assert more.(open := all) == f.(open := all);
    }
  }

  lemma InsertOneSpells(b: Build, f: Frame, serials: Serials, c: ClipPath)
    requires OpenOk(b.nodes, f, serials) && c.serial in serials && serials[c.serial] == c
    ensures var (d, g) := Insert(b, ClipGroup(c), Before(f, |f.open|));
            Grows(b.nodes, d.nodes) && OpenOk(d.nodes, f.(open := f.open + [OpenClip(c.serial, g)]), serials)
  {
    var node := if b.hidden > 0 then ClipGroup(c).(hidden := true) else ClipGroup(c);
    OpenOneSpells(b.nodes, f, serials, c, node);
  }

  lemma SerialsStep(open: seq<OpenClip>, next: OpenClip, all: seq<OpenClip>, wanted: seq<ClipPath>)
    requires wanted != [] && next.serial == wanted[0].serial && |all| == |open| + |wanted|
    requires all[..|open| + 1] == open + [next] && SameSerials(all[|open| + 1..], wanted[1..])
    ensures all[..|open|] == open && SameSerials(all[|open|..], wanted)
  {
    assert all[..|open|] == (open + [next])[..|open|];
    forall j | 0 <= j < |wanted|
      ensures all[|open|..][j].serial == wanted[j].serial
    {
      if j == 0 {
        assert all[|open|] == (open + [next])[|open|];
      } else {
        assert all[|open| + 1..][j - 1].serial == wanted[1..][j - 1].serial;
      }
    }
  }

  /** The open groups spell their clips, one after another. */
  lemma {:induction false} OpenChain(nodes: seq<Node>, f: Frame, serials: Serials, wanted: seq<ClipPath>)
    requires OpenOk(nodes, f, serials) && Known(wanted, serials) && SameSerials(f.open, wanted)
    ensures ClipsOn(nodes, Before(f, |f.open|)) == ClipsOn(nodes, f.container.value) + ClipsOf(wanted)
    decreases |wanted|
  {
    var n := |wanted| - 1;
    if wanted != [] {
      var g := f.(open := f.open[..n]);
      ShorterOpen(nodes, f, serials, n);
      OpenChain(nodes, g, serials, wanted[..n]);
      assert OpenSpells(nodes, f, serials, n) && Before(f, n) == Before(g, n);
      assert ClipsOf(wanted) == ClipsOf(wanted[..n]) + [wanted[n].clip];
    }
  }

  lemma ShorterOpen(nodes: seq<Node>, f: Frame, serials: Serials, n: nat)
    requires OpenOk(nodes, f, serials) && n <= |f.open|
    ensures OpenOk(nodes, f.(open := f.open[..n]), serials)
  {
    var g := f.(open := f.open[..n]);
    forall j | 0 <= j < |g.open|
      ensures OpenSpells(nodes, g, serials, j)
    {
      assert OpenSpells(nodes, f, serials, j) && Before(f, j) == Before(g, j);
    }
  }
}
