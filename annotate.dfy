/**
 * `update_pdf`: writing each table row next to one "Aperture Size" label of
 * the sheet.  The PDF itself is not modelled: the rectangles that the label
 * search finds on each page are the input, and the text items the function
 * would insert, in the order it inserts them, are the output.
 */
module Annotate {
  import opened Wrappers
  import opened Text
  import opened Extraction

  /** `base_offset_x`, `base_offset_y`, `spacing1`, `spacing2`. */
  const BaseOffsetX: int := 40
  const BaseOffsetY: int := 10
  const Spacing1: int := 120
  const Spacing2: int := 80

  /** The largest difference in mm that still counts as a match. */
  const Tolerance: int := 75

  /** A rectangle found on a page, in the page's coordinates. */
  datatype Rect = Rect(x0: int, y0: int, x1: int, y1: int)

  /** An occurrence of the label: its page number and its rectangle. */
  datatype Anchor = Anchor(page: nat, rect: Rect)

  /** `(0, 0, 1)` and `(1, 0, 0)`. */
  datatype Colour = Blue | Red

  /**
   * The text of an inserted item.  `SizeText` stands for the rendering of
   * `f"{input_w} x {input_h}"`, whose exact digits are not modelled.
   */
  datatype Label = SizeText(width: Option<int>, height: Option<int>) | PlainText(text: string)

  /** One `page.insert_text` call: page, position, text and colour. */
  datatype TextItem = TextItem(page: nat, x: int, y: int, content: Label, colour: Colour)

  // ---------------------------------------------------------------------
  // The anchors, in page order and occurrence order
  // ---------------------------------------------------------------------

  /** The anchors of one page, in the order the search returns them. */
  function PageAnchors(page: nat, rects: seq<Rect>): (r: seq<Anchor>)
    ensures |r| == |rects|
    ensures forall k :: 0 <= k < |r| ==> r[k] == Anchor(page, rects[k])
  {
    seq(|rects|, k requires 0 <= k < |rects| => Anchor(page, rects[k]))
  }

  /** `aperture_positions`: every page's anchors, page after page. */
  function AnchorsOf(pages: seq<seq<Rect>>): seq<Anchor> {
    if pages == [] then []
    else AnchorsOf(pages[..|pages| - 1]) + PageAnchors(|pages| - 1, pages[|pages| - 1])
  }

  /** How many anchors the pages before page `p` hold. */
  function Offset(pages: seq<seq<Rect>>, p: nat): nat
    requires p <= |pages|
  {
    if p == 0 then 0 else Offset(pages, p - 1) + |pages[p - 1]|
  }

  lemma OffsetPrefix(pages: seq<seq<Rect>>, p: nat, q: nat)
    requires p <= q <= |pages|
    ensures Offset(pages[..q], p) == Offset(pages, p)
    decreases p
  {
    if p > 0 {
      OffsetPrefix(pages, p - 1, q);
    }
  }

  lemma OffsetMonotone(pages: seq<seq<Rect>>, p: nat, q: nat)
    requires p <= q <= |pages|
    ensures Offset(pages, p) <= Offset(pages, q)
    decreases q
  {
    if p < q {
      OffsetMonotone(pages, p, q - 1);
    }
  }

  /**
   * The `k`-th occurrence on page `p` is anchor number `Offset(pages, p) + k`:
   * the anchors are ordered by page first and by occurrence within a page.
   */
  lemma {:induction false} AnchorsOrder(pages: seq<seq<Rect>>, p: nat, k: nat)
    requires p < |pages| && k < |pages[p]|
    ensures |AnchorsOf(pages)| == Offset(pages, |pages|)
    ensures Offset(pages, p) + k < |AnchorsOf(pages)|
    ensures AnchorsOf(pages)[Offset(pages, p) + k] == Anchor(p, pages[p][k])
    decreases |pages|
  {
    var n := |pages| - 1;
    var init := pages[..n];
    AnchorsCount(pages);
    AnchorsCount(init);
    OffsetPrefix(pages, n, n);
    if p < n {
      AnchorsOrder(init, p, k);
      OffsetPrefix(pages, p, n);
      OffsetPrefix(pages, p + 1, n);
      assert init[p] == pages[p];
      OffsetMonotone(init, p + 1, n);
    }
  }

  lemma {:induction false} AnchorsCount(pages: seq<seq<Rect>>)
    ensures |AnchorsOf(pages)| == Offset(pages, |pages|)
    decreases |pages|
  {
    if pages != [] {
      var n := |pages| - 1;
      AnchorsCount(pages[..n]);
      OffsetPrefix(pages, n, n);
    }
  }

  /** The nested loops that collect the label occurrences, page after page (app.py lines 73-76). */
  method CollectAnchors(pages: seq<seq<Rect>>) returns (anchors: seq<Anchor>)
    ensures anchors == AnchorsOf(pages)
  {
    anchors := [];
    var p := 0;
    while p < |pages|
      invariant p <= |pages|
      invariant anchors == AnchorsOf(pages[..p])
    {
      var rects := pages[p];
      var k := 0;
      while k < |rects|
        invariant k <= |rects|
        invariant anchors == AnchorsOf(pages[..p]) + PageAnchors(p, rects[..k])
      {
        assert PageAnchors(p, rects[..k + 1]) == PageAnchors(p, rects[..k]) + [Anchor(p, rects[k])];
        anchors := anchors + [Anchor(p, rects[k])];
        k := k + 1;
      }
      assert rects[..k] == rects;
      assert pages[..p + 1][..p] == pages[..p];
      p := p + 1;
    }
    assert pages[..p] == pages;
  }

  // ---------------------------------------------------------------------
  // The colour rule
  // ---------------------------------------------------------------------

  function Abs(x: int): int {
    if x < 0 then -x else x
  }

  /**
   * One dimension is out of tolerance: the order value and the input are both
   * present and non-zero (Python truth) and differ by more than `Tolerance`.
   */
  predicate Mismatch(order: int, input: Option<int>) {
    order != 0 && input.Some? && input.value != 0 && Abs(order - input.value) > Tolerance
  }

  /** An input is within tolerance exactly when it lies in `[order - 75, order + 75]`. */
  lemma MismatchInterval(order: int, input: Option<int>)
    ensures Mismatch(order, input) <==>
              && order != 0 && input.Some? && input.value != 0
              && !(order - Tolerance <= input.value <= order + Tolerance)
  {
  }

  /** The colour of all the text of one entry. */
  function EntryColour(e: SalesBlock): (c: Colour)
    ensures c == Red <==> Mismatch(e.orderWidth, e.width) || Mismatch(e.orderHeight, e.height)
  {
    if Mismatch(e.orderWidth, e.width) || Mismatch(e.orderHeight, e.height) then Red else Blue
  }

  /** A dimension that is missing or zero never turns an entry red. */
  lemma UncheckedDimension(e: SalesBlock)
    requires e.width.None? || e.width == Some(0) || e.orderWidth == 0
    ensures EntryColour(e) == Red <==> Mismatch(e.orderHeight, e.height)
  {
  }

  /** A difference of exactly `Tolerance` stays blue. */
  lemma ToleranceBoundaryIsBlue(e: SalesBlock)
    requires e.width.Some? && Abs(e.orderWidth - e.width.value) <= Tolerance
    requires e.height.Some? && Abs(e.orderHeight - e.height.value) <= Tolerance
    ensures EntryColour(e) == Blue
  {
  }

  // ---------------------------------------------------------------------
  // The layout plan
  // ---------------------------------------------------------------------

  /** `f"({entry['location_input']})"`. */
  function LocationText(e: SalesBlock): string {
    "(" + e.locationInput + ")"
  }

  /** The two or three items written for entry `e` at anchor `a`. */
  function MarksFor(a: Anchor, e: SalesBlock): seq<TextItem> {
    var c := EntryColour(e);
    var x := a.rect.x1 + BaseOffsetX;
    var y := a.rect.y0 + BaseOffsetY;
    var size := TextItem(a.page, x, y, SizeText(e.width, e.height), c);
    var location := TextItem(a.page, x + Spacing1, y, PlainText(LocationText(e)), c);
    if e.remarks != "" then
      [size, location, TextItem(a.page, x + Spacing1 + Spacing2, y, PlainText(e.remarks), c)]
    else
      [size, location]
  }

  /**
   * The size text sits 40 right of the label's right edge and 10 below its
   * top; the location text 120 further right; the remarks, present only when
   * non-empty, 80 further right again.  All share the page, the line and the
   * entry's colour.
   */
  lemma MarksForLayout(a: Anchor, e: SalesBlock)
    ensures var r := MarksFor(a, e);
            && |r| == (if e.remarks == "" then 2 else 3)
            && r[0].x == a.rect.x1 + 40 && r[0].y == a.rect.y0 + 10
            && r[0].content == SizeText(e.width, e.height)
            && r[1].x == r[0].x + 120 && r[1].content == PlainText(LocationText(e))
            && (|r| == 3 ==> r[2].x == r[1].x + 80 && r[2].content == PlainText(e.remarks))
            && forall i :: 0 <= i < |r| ==>
                 r[i].page == a.page && r[i].y == r[0].y && r[i].colour == EntryColour(e)
  {
  }

  /** Entries and anchors paired up in order; the longer list's tail is dropped. */
  function Placements(anchors: seq<Anchor>, entries: seq<SalesBlock>): seq<seq<TextItem>>
    decreases |entries|
  {
    if anchors == [] || entries == [] then []
    else [MarksFor(anchors[0], entries[0])] + Placements(anchors[1..], entries[1..])
  }

  lemma {:induction false} PlacementsLength(anchors: seq<Anchor>, entries: seq<SalesBlock>)
    ensures |Placements(anchors, entries)| == Min(|anchors|, |entries|)
    decreases |entries|
  {
    if anchors != [] && entries != [] {
      PlacementsLength(anchors[1..], entries[1..]);
    }
  }

  lemma {:induction false} PlacementsAt(anchors: seq<Anchor>, entries: seq<SalesBlock>, i: nat)
    requires i < |anchors| && i < |entries|
    ensures |Placements(anchors, entries)| == Min(|anchors|, |entries|)
    ensures Placements(anchors, entries)[i] == MarksFor(anchors[i], entries[i])
    decreases i
  {
    PlacementsLength(anchors, entries);
    if i > 0 {
      PlacementsAt(anchors[1..], entries[1..], i - 1);
    }
  }

  /**
   * Exactly `min(#entries, #anchors)` entries are placed, entry `i` at
   * anchor `i`.
   */
  lemma PlacementsPairing(anchors: seq<Anchor>, entries: seq<SalesBlock>)
    ensures |Placements(anchors, entries)| == Min(|anchors|, |entries|)
    ensures forall i :: 0 <= i < |Placements(anchors, entries)| ==>
              Placements(anchors, entries)[i] == MarksFor(anchors[i], entries[i])
  {
    PlacementsLength(anchors, entries);
    forall i | 0 <= i < |Placements(anchors, entries)|
      ensures Placements(anchors, entries)[i] == MarksFor(anchors[i], entries[i])
    {
      PlacementsAt(anchors, entries, i);
    }
  }

  /** All the items of a list of groups, group after group. */
  function Flatten<T>(groups: seq<seq<T>>): seq<T> {
    if groups == [] then [] else Flatten(groups[..|groups| - 1]) + groups[|groups| - 1]
  }

  lemma FlattenSnoc<T>(groups: seq<seq<T>>, k: nat)
    requires k < |groups|
    ensures Flatten(groups[..k + 1]) == Flatten(groups[..k]) + groups[k]
  {
    assert groups[..k + 1][..k] == groups[..k];
  }

  /** An item is in the flattened list exactly when some group holds it. */
  lemma {:induction false} FlattenMember<T>(groups: seq<seq<T>>, x: T)
    ensures x in Flatten(groups) <==> exists i :: 0 <= i < |groups| && x in groups[i]
    decreases |groups|
  {
    if groups != [] {
      var n := |groups| - 1;
      FlattenMember(groups[..n], x);
      if x in groups[n] {
        assert 0 <= n < |groups| && x in groups[n];
      }
      if exists i :: 0 <= i < |groups| && x in groups[i] {
        var i :| 0 <= i < |groups| && x in groups[i];
        if i < n {
          assert groups[..n][i] == groups[i];
        }
      }
    }
  }

  /**
   * An item is inserted exactly when it is one of the marks of some placed
   * entry `i` at anchor `i`: nothing is written for an entry without an
   * anchor, and nothing else is written.
   */
  lemma InsertedItems(anchors: seq<Anchor>, entries: seq<SalesBlock>, x: TextItem)
    ensures x in Flatten(Placements(anchors, entries)) <==>
              exists i :: 0 <= i < Min(|anchors|, |entries|) && x in MarksFor(anchors[i], entries[i])
  {
    var plan := Placements(anchors, entries);
    PlacementsPairing(anchors, entries);
    FlattenMember(plan, x);
    if x in Flatten(plan) {
      var i :| 0 <= i < |plan| && x in plan[i];
      assert x in MarksFor(anchors[i], entries[i]);
    }
    if exists i :: 0 <= i < Min(|anchors|, |entries|) && x in MarksFor(anchors[i], entries[i]) {
      var i :| 0 <= i < Min(|anchors|, |entries|) && x in MarksFor(anchors[i], entries[i]);
      assert x in plan[i];
    }
  }

  /**
   * `update_pdf` over the anchors the label search finds on each page: the
   * items it inserts, call after call.
   */
  method UpdatePdf(pages: seq<seq<Rect>>, entries: seq<SalesBlock>) returns (inserted: seq<TextItem>)
    ensures inserted == Flatten(Placements(AnchorsOf(pages), entries))
  {
    var anchors := CollectAnchors(pages);
    ghost var plan := Placements(anchors, entries);
    PlacementsLength(anchors, entries);
    inserted := [];
    var idx := 0;
    while idx < |entries|
      invariant idx <= |entries| && idx <= |plan|
      invariant inserted == Flatten(plan[..idx])
    {
      if idx >= |anchors| {
        break;
      }
      var anchor, entry := anchors[idx], entries[idx];
      var colour := Blue;
      if Mismatch(entry.orderWidth, entry.width) {
        colour := Red;
      }
      if Mismatch(entry.orderHeight, entry.height) {
        colour := Red;
      }
      var insertX := anchor.rect.x1 + BaseOffsetX;
      var insertY := anchor.rect.y0 + BaseOffsetY;
      var items := [TextItem(anchor.page, insertX, insertY, SizeText(entry.width, entry.height), colour)];
      var locX := insertX + Spacing1;
      items := items + [TextItem(anchor.page, locX, insertY, PlainText(LocationText(entry)), colour)];
      if entry.remarks != "" {
        items := items + [TextItem(anchor.page, locX + Spacing2, insertY, PlainText(entry.remarks), colour)];
      }
      assert colour == EntryColour(entry);
      assert items == MarksFor(anchor, entry);
      PlacementsAt(anchors, entries, idx);
      FlattenSnoc(plan, idx);
      inserted := inserted + items;
      idx := idx + 1;
    }
    assert idx == |plan|;
    assert plan[..idx] == plan;
  }
}
