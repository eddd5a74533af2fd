/**
 What replaying gives, and what it does not depend on: how the stream was split
 into deltas. The messages are the turns of the conversation, and flattening
 turns and replaying them undo each other.
 */
module Replays {
  import opened Common
  import opened Transcripts
  import ToolResults

  // ---------------------------------------------------------------- merging

  /** The parts with one more, run into the last where both are text or both
      thinking. */
  function MergeInto(out: seq<Part>, part: Part): seq<Part> {
    var n := |out| - 1;
    if n >= 0 && out[n].Text? && part.Text? then out[n := Text(out[n].text + part.text)]
    else if n >= 0 && out[n].Thinking? && part.Thinking? then out[n := Thinking(out[n].thinking + part.thinking)]
    else out + [part]
  }

  function Merge(parts: seq<Part>): seq<Part> {
    if parts == [] then [] else MergeInto(Merge(parts[..|parts| - 1]), parts[|parts| - 1])
  }

  method MergeConsecutiveParts(parts: seq<Part>) returns (out: seq<Part>)
    ensures out == Merge(parts)
  {
    out := [];
    for k := 0 to |parts|
      invariant out == Merge(parts[..k])
    {
      assert parts[..k + 1][..k] == parts[..k];
      var part, n := parts[k], |out| - 1;
      if n >= 0 && out[n].Text? && part.Text? {
        out := out[n := Text(out[n].text + part.text)];
      } else if n >= 0 && out[n].Thinking? && part.Thinking? {
        out := out[n := Thinking(out[n].thinking + part.thinking)];
      } else {
        out := out + [part];
      }
    }
    assert parts[..|parts|] == parts;
  }

  predicate Mergeable(a: Part, b: Part) {
    (a.Text? && b.Text?) || (a.Thinking? && b.Thinking?)
  }

  ghost predicate NoneMergeable(parts: seq<Part>) {
    forall k :: 0 < k < |parts| ==> !Mergeable(parts[k - 1], parts[k])
  }

  lemma {:induction false} MergeLeavesNone(parts: seq<Part>)
    ensures NoneMergeable(Merge(parts))
  {
    if parts != [] {
      MergeLeavesNone(parts[..|parts| - 1]);
    }
  }

  /** Merging changes exactly the lists with something to merge; twice is
      once. */
  lemma {:induction false} MergeFixes(parts: seq<Part>)
    ensures Merge(parts) == parts <==> NoneMergeable(parts)
    ensures Merge(Merge(parts)) == Merge(parts)
  {
    MergeLeavesNone(parts);
    if NoneMergeable(parts) { MergedAlready(parts); }
    MergedAlready(Merge(parts));
  }

  lemma {:induction false} MergedAlready(parts: seq<Part>)
    requires NoneMergeable(parts)
    ensures Merge(parts) == parts
  {
    var n := |parts| - 1;
    if n >= 0 {
      MergedAlready(parts[..n]);
      assert n > 0 ==> !Mergeable(parts[n - 1], parts[n]);
      assert parts[..n] + [parts[n]] == parts;
    }
  }

  /** What a stream says, character by character. */
  datatype Token = TextChar(c: char) | ThinkingChar(c: char) | Whole(part: Part)

  function TextTokens(text: string): (r: seq<Token>)
    ensures |r| == |text| && forall k :: 0 <= k < |text| ==> r[k] == TextChar(text[k])
  {
    seq(|text|, k requires 0 <= k < |text| => TextChar(text[k]))
  }

  function ThinkingTokens(text: string): (r: seq<Token>)
    ensures |r| == |text| && forall k :: 0 <= k < |text| ==> r[k] == ThinkingChar(text[k])
  {
    seq(|text|, k requires 0 <= k < |text| => ThinkingChar(text[k]))
  }

  function TokensOf(part: Part): seq<Token> {
    match part
    case Text(text) => TextTokens(text)
    case Thinking(thinking) => ThinkingTokens(thinking)
    case _ => [Whole(part)]
  }

  function Tokens(parts: seq<Part>): seq<Token> {
    if parts == [] then [] else Tokens(parts[..|parts| - 1]) + TokensOf(parts[|parts| - 1])
  }

  lemma {:induction false} TokensMore(parts: seq<Part>, part: Part)
    ensures Tokens(parts + [part]) == Tokens(parts) + TokensOf(part)
  {
    assert (parts + [part])[..|parts|] == parts;
  }

  lemma {:induction false} TextJoin(a: string, b: string)
    ensures TextTokens(a + b) == TextTokens(a) + TextTokens(b)
  {}

  lemma {:induction false} ThinkingJoin(a: string, b: string)
    ensures ThinkingTokens(a + b) == ThinkingTokens(a) + ThinkingTokens(b)
  {}

  lemma {:induction false} LastReplaced(out: seq<Part>, part: Part)
    requires out != []
    ensures Tokens(out[|out| - 1 := part]) == Tokens(out[..|out| - 1]) + TokensOf(part)
  {
    assert out[|out| - 1 := part] == out[..|out| - 1] + [part];
    TokensMore(out[..|out| - 1], part);
  }

  lemma {:induction false} MergeTextSays(out: seq<Part>, a: string, b: string)
    requires out != [] && out[|out| - 1] == Text(a)
    ensures Tokens(out[|out| - 1 := Text(a + b)]) == Tokens(out) + TextTokens(b)
  {
    LastReplaced(out, Text(a + b));
    TextJoin(a, b);
    TokensAssoc(Tokens(out[..|out| - 1]), TextTokens(a), TextTokens(b));
  }

  lemma {:induction false} MergeThinkingSays(out: seq<Part>, a: string, b: string)
    requires out != [] && out[|out| - 1] == Thinking(a)
    ensures Tokens(out[|out| - 1 := Thinking(a + b)]) == Tokens(out) + ThinkingTokens(b)
  {
    LastReplaced(out, Thinking(a + b));
    ThinkingJoin(a, b);
    TokensAssoc(Tokens(out[..|out| - 1]), ThinkingTokens(a), ThinkingTokens(b));
  }

  lemma {:induction false} TokensAssoc(a: seq<Token>, b: seq<Token>, c: seq<Token>)
    ensures a + (b + c) == a + b + c
  {}

  lemma {:induction false} MergeIntoSays(out: seq<Part>, part: Part)
    ensures Tokens(MergeInto(out, part)) == Tokens(out) + TokensOf(part)
  {
    var n := |out| - 1;
    if n >= 0 && out[n].Text? && part.Text? {
      MergeTextSays(out, out[n].text, part.text);
    } else if n >= 0 && out[n].Thinking? && part.Thinking? {
      MergeThinkingSays(out, out[n].thinking, part.thinking);
    } else {
      TokensMore(out, part);
    }
  }

  /** Merging says the same: no character of text or thinking, and no other
      part, is lost, added or moved. */
  lemma {:induction false} MergeSaysTheSame(parts: seq<Part>)
    ensures Tokens(Merge(parts)) == Tokens(parts)
  {
    if parts != [] {
      var n := |parts| - 1;
      MergeSaysTheSame(parts[..n]);
      MergeIntoSays(Merge(parts[..n]), parts[n]);
    }
  }

  ghost predicate NoneEmpty(parts: seq<Part>) {
    forall k :: 0 <= k < |parts| ==> TokensOf(parts[k]) != []
  }

  predicate SameSort(a: Token, b: Token) {
    (a.TextChar? && b.TextChar?) || (a.ThinkingChar? && b.ThinkingChar?)
  }

  /** Where the last of some merged parts begins is to be read off the
      tokens. */
  lemma {:induction false} LastRun(parts: seq<Part>)
    requires parts != [] && NoneMergeable(parts) && NoneEmpty(parts)
    ensures var n := |parts| - 1;
            var before := Tokens(parts[..n]);
            var last := TokensOf(parts[n]);
            && Tokens(parts) == before + last && last != []
            && (forall k :: 0 < k < |last| ==> SameSort(last[k - 1], last[k]))
            && (before != [] ==> !SameSort(before[|before| - 1], last[0]))
  {
    var n := |parts| - 1;
    if n > 0 {
      assert !Mergeable(parts[n - 1], parts[n]);
      assert parts[..n][..n - 1] == parts[..n - 1];
      assert TokensOf(parts[n - 1]) != [];
      var before := Tokens(parts[..n]);
      assert before == Tokens(parts[..n - 1]) + TokensOf(parts[n - 1]);
    }
  }

  lemma TokensDecide(a: Part, b: Part)
    requires TokensOf(a) == TokensOf(b) && TokensOf(a) != []
    ensures a == b
  {
    if a.Text? {
      assert b.Text? by { assert TokensOf(a)[0] == TokensOf(b)[0]; }
      TextDecides(a.text, b.text);
    } else if a.Thinking? {
      assert b.Thinking? by { assert TokensOf(a)[0] == TokensOf(b)[0]; }
      ThinkingDecides(a.thinking, b.thinking);
    } else {
      assert TokensOf(a)[0] == TokensOf(b)[0];
    }
  }

  lemma TextDecides(a: string, b: string)
    requires TextTokens(a) == TextTokens(b)
    ensures a == b
  {
    assert |a| == |b|;
    forall k | 0 <= k < |a|
      ensures a[k] == b[k]
    {
      assert TextTokens(a)[k] == TextTokens(b)[k];
    }
  }

  lemma ThinkingDecides(a: string, b: string)
    requires ThinkingTokens(a) == ThinkingTokens(b)
    ensures a == b
  {
    assert |a| == |b|;
    forall k | 0 <= k < |a|
      ensures a[k] == b[k]
    {
      assert ThinkingTokens(a)[k] == ThinkingTokens(b)[k];
    }
  }

  /** A run of one sort that ends a sequence and what is before it are decided
      by the sequence. */
  lemma {:induction false} RunsAgree(a: seq<Token>, x: seq<Token>, b: seq<Token>, y: seq<Token>)
    requires a + x == b + y && x != [] && y != []
    requires forall k :: 0 < k < |x| ==> SameSort(x[k - 1], x[k])
    requires forall k :: 0 < k < |y| ==> SameSort(y[k - 1], y[k])
    requires a != [] ==> !SameSort(a[|a| - 1], x[0])
    requires b != [] ==> !SameSort(b[|b| - 1], y[0])
    ensures a == b && x == y
  {
    var all := a + x;
    RunInside(a, x);
    RunInside(b, y);
    assert a != [] ==> all[|a| - 1] == a[|a| - 1] && all[|a|] == x[0];
    assert b != [] ==> all[|b| - 1] == b[|b| - 1] && all[|b|] == y[0];
    assert |a| == |b|;
    assert a == all[..|a|] && b == all[..|b|] && x == all[|a|..] && y == all[|b|..];
  }

  lemma {:induction false} RunInside(a: seq<Token>, x: seq<Token>)
    requires forall k :: 0 < k < |x| ==> SameSort(x[k - 1], x[k])
    ensures forall i :: |a| < i < |a + x| ==> SameSort((a + x)[i - 1], (a + x)[i])
  {
    forall i | |a| < i < |a + x|
      ensures SameSort((a + x)[i - 1], (a + x)[i])
    {
      assert SameSort(x[i - |a| - 1], x[i - |a|]);
    }
  }

  /** The last of some merged parts is decided by the tokens, and so are the
      tokens before it. */
  lemma {:induction false} LastSaidOnce(p: seq<Part>, q: seq<Part>)
    requires NoneMergeable(p) && NoneMergeable(q) && NoneEmpty(p) && NoneEmpty(q) && Tokens(p) == Tokens(q)
    requires p != [] && q != []
    ensures p[|p| - 1] == q[|q| - 1] && Tokens(p[..|p| - 1]) == Tokens(q[..|q| - 1])
  {
    LastRun(p);
    LastRun(q);
    var m, n := |p| - 1, |q| - 1;
    RunsAgree(Tokens(p[..m]), TokensOf(p[m]), Tokens(q[..n]), TokensOf(q[n]));
    TokensDecide(p[m], q[n]);
  }

  lemma {:induction false} SomethingSaid(parts: seq<Part>)
    requires NoneEmpty(parts)
    ensures Tokens(parts) == [] <==> parts == []
  {
    if parts != [] {
      assert TokensOf(parts[|parts| - 1]) != [];
    }
  }

  lemma {:induction false} SaidOnce(p: seq<Part>, q: seq<Part>)
    requires NoneMergeable(p) && NoneMergeable(q) && NoneEmpty(p) && NoneEmpty(q) && Tokens(p) == Tokens(q)
    ensures p == q
    decreases |p|
  {
    SomethingSaid(p);
    SomethingSaid(q);
    if p != [] {
      LastSaidOnce(p, q);
      SaidOnce(p[..|p| - 1], q[..|q| - 1]);
      SameEnds(p, q);
    }
  }

  lemma {:induction false} SameEnds(p: seq<Part>, q: seq<Part>)
    requires p != [] && q != [] && p[|p| - 1] == q[|q| - 1] && p[..|p| - 1] == q[..|q| - 1]
    ensures p == q
  {
    assert p == p[..|p| - 1] + [p[|p| - 1]] && q == q[..|q| - 1] + [q[|q| - 1]];
  }

  lemma {:induction false} MergeKeepsNonEmpty(parts: seq<Part>)
    requires NoneEmpty(parts)
    ensures NoneEmpty(Merge(parts))
  {
    if parts != [] {
      var n := |parts| - 1;
      MergeKeepsNonEmpty(parts[..n]);
      assert TokensOf(parts[n]) != [];
    }
  }

  /** What is stored depends only on what was said, not on how it was split into
      deltas: two streams of non-empty parts merge alike exactly when they say
      the same. */
  lemma MergeIsCanonical(p: seq<Part>, q: seq<Part>)
    requires NoneEmpty(p) && NoneEmpty(q)
    ensures Merge(p) == Merge(q) <==> Tokens(p) == Tokens(q)
  {
    MergeSaysTheSame(p);
    MergeSaysTheSame(q);
    MergeLeavesNone(p);
    MergeLeavesNone(q);
    MergeKeepsNonEmpty(p);
    MergeKeepsNonEmpty(q);
    if Tokens(p) == Tokens(q) { SaidOnce(Merge(p), Merge(q)); }
  }

  // ---------------------------------------------------- replay ignores merging

  lemma {:induction false} FoldMore(parts: seq<Part>, part: Part, limited: bool)
    ensures Fold(parts + [part], limited) == Step(Fold(parts, limited), part, limited)
  {
    assert (parts + [part])[..|parts|] == parts;
  }

  lemma StepTwice(s: State, a: Part, b: Part, limited: bool)
    requires Mergeable(a, b)
    ensures Step(Step(s, a, limited), b, limited) ==
            Step(s, if a.Text? then Text(a.text + b.text) else Thinking(a.thinking + b.thinking), limited)
  {
    if a.Text? {
      var f := if s.sawCall then Flushed(s).(sawCall := false) else s;
      var n := |f.parts| - 1;
      if n >= 0 && f.parts[n].AssistantText? {
        assert f.parts[n].text + a.text + b.text == f.parts[n].text + (a.text + b.text);
      }
    }
  }

  lemma {:induction false} FoldMergeInto(out: seq<Part>, part: Part, limited: bool)
    ensures Fold(MergeInto(out, part), limited) == Step(Fold(out, limited), part, limited)
  {
    var n := |out| - 1;
    var r := MergeInto(out, part);
    if n >= 0 && Mergeable(out[n], part) {
      assert out == out[..n] + [out[n]] && r == out[..n] + [r[n]];
      FoldMore(out[..n], out[n], limited);
      FoldMore(out[..n], r[n], limited);
      StepTwice(Fold(out[..n], limited), out[n], part, limited);
    } else {
      FoldMore(out, part, limited);
    }
  }

  lemma {:induction false} FoldMerge(parts: seq<Part>, limited: bool)
    ensures Fold(Merge(parts), limited) == Fold(parts, limited)
  {
    if parts != [] {
      var n := |parts| - 1;
      FoldMerge(parts[..n], limited);
      FoldMergeInto(Merge(parts[..n]), parts[n], limited);
    }
  }

  /** Replaying what was stored is replaying the stream it was stored from. */
  lemma ReplayIgnoresMerging(parts: seq<Part>, limited: bool)
    ensures Convert(Merge(parts), limited) == Convert(parts, limited)
  {
    FoldMerge(parts, limited);
  }

  lemma {:induction false} KeptMore(kept: map<string, string>, parts: seq<Part>, part: Part)
    ensures var before := KeptAfter(kept, parts);
            KeptAfter(kept, parts + [part]) == if IsCut(part) then before[part.id := CuttableText(part).value] else before
  {
    assert (parts + [part])[..|parts|] == parts;
  }

  lemma {:induction false} KeptMergeInto(kept: map<string, string>, out: seq<Part>, part: Part)
    ensures KeptAfter(kept, MergeInto(out, part)) == KeptAfter(kept, out + [part])
  {
    var n := |out| - 1;
    var r := MergeInto(out, part);
    KeptMore(kept, out, part);
    if n >= 0 && Mergeable(out[n], part) {
      assert out == out[..n] + [out[n]] && r == out[..n] + [r[n]];
      KeptMore(kept, out[..n], out[n]);
      KeptMore(kept, out[..n], r[n]);
    }
  }

  /** Nor do the results kept for reading depend on merging. */
  lemma {:induction false} KeptIgnoresMerging(kept: map<string, string>, parts: seq<Part>)
    ensures KeptAfter(kept, Merge(parts)) == KeptAfter(kept, parts)
  {
    if parts != [] {
      var n := |parts| - 1;
      KeptIgnoresMerging(kept, parts[..n]);
      KeptMergeInto(kept, Merge(parts[..n]), parts[n]);
      KeptMore(kept, Merge(parts[..n]), parts[n]);
    }
  }

  /** After a replay the last result cut under an id can be read whole. */
  lemma {:induction false} LastCutIsKept(kept: map<string, string>, parts: seq<Part>, k: nat)
    requires k < |parts| && IsCut(parts[k])
    requires forall j :: k < j < |parts| && IsCut(parts[j]) ==> parts[j].id != parts[k].id
    ensures parts[k].id in KeptAfter(kept, parts)
    ensures KeptAfter(kept, parts)[parts[k].id] == CuttableText(parts[k]).value
  {
    var n := |parts| - 1;
    if k < n {
      LastCutIsKept(kept, parts[..n], k);
    }
  }
}
