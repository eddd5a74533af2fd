/**
 Cutting long tool results to a preview, and reading the rest of one page by
 page.
 */
module ToolResults {
  import opened Common

  const MAX_RESULT_CHARS: nat := 80_000
  const PREVIEW_CHARS: nat := 16_000

  /** The largest offset there is (64 bits). */
  const MAX_OFFSET: nat := 0xFFFF_FFFF_FFFF_FFFF

  function Decimal(n: nat): string {
    (if n < 10 then "" else Decimal(n / 10)) + ["0123456789"[n % 10]]
  }

  function Note(id: string, total: nat): string {
    "\n\n[Truncated: this result is " + Decimal(total) + " characters and only the first 16000 are shown. " +
    "Call ReadToolResult with tool_call_id \"" + id + "\" and offset 16000 to read on.]"
  }

  /** The preview with its note, for a result that does not fit. */
  function Cut(id: string, text: string): (r: Option<string>)
    ensures r.None? <==> |text| <= MAX_RESULT_CHARS
    ensures r.Some? ==> text[..PREVIEW_CHARS] <= r.value
  {
    if |text| <= MAX_RESULT_CHARS then None else Some(text[..PREVIEW_CHARS] + Note(id, |text|))
  }

  datatype Page = Page(content: string, total: nat, next: Option<nat>)

  function PageAt(text: string, offset: nat, limit: nat): Page {
    var from := MinNat(offset, |text|);
    var content := text[from..MinNat(from + limit, |text|)];
    var end := MinNat(offset + |content|, MAX_OFFSET);
    Page(content, |text|, if end < |text| then Some(end) else None)
  }

  /** Reading on from an offset, one page for each limit, until a page says
      there is no next one. */
  function Pages(text: string, offset: nat, limits: seq<nat>): seq<Page>
    decreases |limits|
  {
    if limits == [] then []
    else
      var page := PageAt(text, offset, limits[0]);
      [page] + if page.next.Some? then Pages(text, page.next.value, limits[1..]) else []
  }

  function Joined(pages: seq<Page>): string {
    if pages == [] then "" else pages[0].content + Joined(pages[1..])
  }

  /** Pages read one after another are the text, without gap or overlap. */
  lemma {:induction false} PagesFollow(text: string, offset: nat, limits: seq<nat>)
    requires offset <= |text| <= MAX_OFFSET
    ensures var pages := Pages(text, offset, limits);
            offset + |Joined(pages)| <= |text| && Joined(pages) == text[offset..offset + |Joined(pages)|]
    decreases |limits|
  {
    if limits != [] {
      var page := PageAt(text, offset, limits[0]);
      var pages := Pages(text, offset, limits);
      assert pages[0] == page;
      if page.next.Some? {
        PagesFollow(text, page.next.value, limits[1..]);
        assert pages[1..] == Pages(text, page.next.value, limits[1..]);
      } else {
        assert pages[1..] == [];
      }
    }
  }

  /** Asking for at least one character each time, the end is reached: the last
      page says so and the pages are everything from the offset on. */
  lemma {:induction false} PagesReachTheEnd(text: string, offset: nat, limits: seq<nat>)
    requires offset <= |text| <= MAX_OFFSET
    requires limits != [] && |limits| >= |text| - offset && forall k :: 0 <= k < |limits| ==> limits[k] > 0
    ensures var pages := Pages(text, offset, limits);
            pages[|pages| - 1].next.None? && Joined(pages) == text[offset..]
    decreases |limits|
  {
    var page := PageAt(text, offset, limits[0]);
    var pages := Pages(text, offset, limits);
    assert pages[0] == page;
    if page.next.Some? {
      PagesReachTheEnd(text, page.next.value, limits[1..]);
      assert pages[1..] == Pages(text, page.next.value, limits[1..]);
    } else {
      assert pages == [page] && pages[1..] == [];
    }
  }

  /** Asking for none gets nowhere: the same offset comes back until the end. */
  lemma NoCharactersNoProgress(text: string, offset: nat)
    requires |text| <= MAX_OFFSET
    ensures PageAt(text, offset, 0) == Page("", |text|, if offset < |text| then Some(offset) else None)
  {}

  /** A page leaves off before the end, or makes progress, exactly when at least
      one character is asked for. */
  lemma ProgressIffAsked(text: string, offset: nat, limit: nat)
    requires offset < |text| <= MAX_OFFSET
    ensures var next := PageAt(text, offset, limit).next;
            (next.None? || offset < next.value) <==> limit > 0
  {}

  /** The model's view of a cut result and the pages it is told to read make up
      the whole result. */
  lemma PreviewAndPagesAreWhole(id: string, text: string, limits: seq<nat>)
    requires Cut(id, text).Some? && |text| <= MAX_OFFSET
    requires |limits| >= |text| - PREVIEW_CHARS && forall k :: 0 <= k < |limits| ==> limits[k] > 0
    ensures Cut(id, text).value[..PREVIEW_CHARS] + Joined(Pages(text, PREVIEW_CHARS, limits)) == text
  {
    PagesReachTheEnd(text, PREVIEW_CHARS, limits);
  }

  class ToolResultLimit {
    var kept: map<string, string>

    constructor ()
      ensures kept == map[]
    {
      kept := map[];
    }

    /** Keeps the whole result when the model's view of it is cut. */
    method View(id: string, text: string) returns (r: Option<string>)
      modifies this
      ensures r == Cut(id, text)
      ensures kept == if r.Some? then old(kept)[id := text] else old(kept)
    {
      if |text| <= MAX_RESULT_CHARS {
        return None;
      }
      kept := kept[id := text];
      r := Some(text[..PREVIEW_CHARS] + Note(id, |text|));
    }

    method Read(id: string, offset: nat, limit: nat) returns (r: Option<Page>)
      ensures r == if id in kept then Some(PageAt(kept[id], offset, limit)) else None
    {
      if id !in kept {
        return None;
      }
      var text := kept[id];
      var from := MinNat(offset, |text|);
      var content := text[from..MinNat(from + limit, |text|)];
      var end := MinNat(offset + |content|, MAX_OFFSET);
      r := Some(Page(content, |text|, if end < |text| then Some(end) else None));
    }
  }
}
