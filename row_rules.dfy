/**
 * The layout rules of one hierarchy row: the guideline walk up the parent
 * chain, the line and background rectangles, the odd/even row band, the
 * 18-unit icon slots, the component filter, and the right-aligned layer
 * and tag labels.
 */
module RowRules {
  import opened Wrappers
  import opened Engine
  import opened Scene
  import opened SettingsData

  // -----------------------------------------------------------------------
  // Guidelines

  datatype Guides = Guides(depth: nat, isLastChild: bool, hasChildren: bool, middleLines: seq<bool>)

  /** The walk up the parent chain: it counts the ancestors and, with
      guidelines on, puts a "not the last child" flag in front for each level. */
  method GuideLines(item: Transform, guideLinesEnabled: bool) returns (g: Guides)
    requires item.Valid()
    ensures g.depth == |Ancestors(item)|
    ensures g.isLastChild <==> item.parent != null && item.siblingIndex == item.parent.childCount - 1
    ensures g.hasChildren <==> item.childCount > 0
    ensures g.middleLines == if guideLinesEnabled then PathNotLast(item) else []
  {
    var t: Transform := item;
    var p := t.parent;
    var hasParent := p != null;
    var isLastChild := hasParent && t.siblingIndex == p.childCount - 1;
    var hasChildren := t.childCount > 0;
    var middleLines: seq<bool> := [];
    var depth := 0;
    if guideLinesEnabled {
      while p != null
        invariant t.Valid() && p == t.parent
        invariant depth + t.depth == item.depth
        invariant PathNotLast(t) + middleLines == PathNotLast(item)
        decreases t.depth
      {
        assert PathNotLast(t) == PathNotLast(p) + [t.siblingIndex != p.childCount - 1];
        middleLines := [t.siblingIndex != p.childCount - 1] + middleLines;
        depth := depth + 1;
        t := p;
        p := p.parent;
      }
    } else {
      while p != null
        invariant t.Valid() && p == t.parent
        invariant depth + t.depth == item.depth
        decreases t.depth
      {
        depth := depth + 1;
        t := p;
        p := p.parent;
      }
    }
    g := Guides(depth, isLastChild, hasChildren, middleLines);
  }

  /** With guidelines on there is one flag per ancestor, and element i is
      about the node i + 1 levels below the root, the row's own item last. */
  lemma GuideLinesShape(item: Transform, g: Guides)
    requires item.Valid() && g.depth == |Ancestors(item)| && g.middleLines == PathNotLast(item)
    ensures |g.middleLines| == g.depth == item.depth
    ensures forall k :: 1 <= k <= g.depth ==>
              PathNode(item, k).parent != null && g.middleLines[k - 1] == NotLastChild(PathNode(item, k))
    ensures g.depth > 0 ==> g.middleLines[g.depth - 1] == NotLastChild(item)
  {
    PathNotLastMeaning(item);
    if g.depth > 0 {
      assert PathNode(item, g.depth) == item;
    }
  }

  function MarginWidth(hasChildren: bool): int {
    if hasChildren then 14 else 2
  }

  /** 14 units per level plus the 34 the first level takes. */
  function LineWidth(depth: nat): int {
    14 * depth + 34
  }

  /** The strip left of the row that holds the guidelines; it stops
      `MarginWidth` short of the row. */
  function LineRect(rect: Rect, depth: nat, hasChildren: bool): (r: Rect)
    ensures r.XMax() == rect.x - MarginWidth(hasChildren)
    ensures r.x == rect.x - LineWidth(depth) && r.y == rect.y && r.height == rect.height
  {
    Rect(rect.x - LineWidth(depth), rect.y, LineWidth(depth) - MarginWidth(hasChildren), rect.height)
  }

  /** The row band: the line strip widened over the row, shifted right by 5. */
  function BackgroundRect(rect: Rect, depth: nat, hasChildren: bool): (r: Rect)
    ensures r.x == rect.x - LineWidth(depth) + 5
    ensures r.XMax() == rect.XMax() + 17
    ensures r.y == rect.y && r.height == rect.height
  {
    var line := LineRect(rect, depth, hasChildren);
    var widened := line.(width := line.width + rect.width + MarginWidth(hasChildren) + 12);
    widened.(x := widened.x + 5)
  }

  // -----------------------------------------------------------------------
  // Row band

  /** The float remainder: it takes the sign of the dividend. */
  function TruncatedRemainder(a: int, b: int): (r: int)
    requires b > 0
    ensures a >= 0 ==> 0 <= r < b
    ensures a < 0 ==> -b < r <= 0
  {
    if a >= 0 then a % b else -((-a) % b)
  }

  predicate IsOddBand(y: int) {
    TruncatedRemainder(y, 32) > 15
  }

  datatype Band = Odd | Even

  /** Which band colour the row is filled with, if any. */
  function RowBand(s: Settings, y: int, repaint: bool): (r: Option<Band>)
    ensures r == Some(Odd) <==> repaint && s.Bool(RowColoringOddEnabled) && IsOddBand(y)
    ensures r == Some(Even) <==> repaint && s.Bool(RowColoringEvenEnabled) && !IsOddBand(y)
  {
    if !(s.GetRowColoringEnabled() && repaint) then None
    else if IsOddBand(y) then (if s.Bool(RowColoringOddEnabled) then Some(Odd) else None)
    else if s.Bool(RowColoringEvenEnabled) then Some(Even)
    else None
  }

  function BandColor(s: Settings, b: Band): Color {
    match b
    case Odd => s.ColorOf(RowOddColor)
    case Even => s.ColorOf(RowEvenColor)
  }

  /** Bands repeat every 32 units below the origin. */
  lemma BandPeriodic(y: int)
    requires y >= 0
    ensures IsOddBand(y + 32) == IsOddBand(y)
  {
    assert (y + 32) % 32 == y % 32;
  }

  /** 16-unit rows alternate, starting with an even row at the top. */
  lemma SixteenUnitRowsAlternate(k: nat)
    ensures IsOddBand(16 * k) <==> k % 2 == 1
  {
    var q := k / 2;
    assert k == 2 * q + k % 2;
    assert 16 * k == 32 * q + 16 * (k % 2);
    assert (16 * k) % 32 == 16 * (k % 2);
  }

  /** Above the origin the remainder is never positive: every row is even. */
  lemma NegativeRowsEven(y: int)
    requires y < 0
    ensures !IsOddBand(y)
  {
  }

  // -----------------------------------------------------------------------
  // Icon slots

  /** What one CanDrawIcon call decides for the width left before it. */
  datatype Slot = Slot(drawIcon: bool, drawBackground: bool, ellipsis: bool)

  function SlotFor(s: Settings, width: int): (r: Slot)
    ensures r.drawIcon <==> s.Bool(AlwaysShowIcons) || width >= 36
    ensures r.drawBackground <==>
              r.drawIcon && s.Bool(ColorsEnabled) && s.Bool(IconBackgroundColorEnabled)
              && (width < 18 || !s.Bool(IconBackgroundOverlapOnly))
    ensures r.ellipsis <==> !r.drawIcon
  {
    var dotsOnly := width < 36;
    var overlapping := width < 18;
    var drawIcon := s.Bool(AlwaysShowIcons) || (!dotsOnly && !overlapping);
    var drawBackground := drawIcon && s.Bool(ColorsEnabled) && s.Bool(IconBackgroundColorEnabled)
                          && (overlapping || !s.Bool(IconBackgroundOverlapOnly));
    Slot(drawIcon, drawBackground, !drawIcon && dotsOnly)
  }

  /** A background swatch with overlap-only set means the icon overlaps. */
  lemma BackgroundOnlyWhenOverlapping(s: Settings, width: int)
    requires s.Bool(IconBackgroundOverlapOnly) && SlotFor(s, width).drawBackground
    ensures width < 18 && s.Bool(AlwaysShowIcons)
  {
  }

  // -----------------------------------------------------------------------
  // Component filter

  /** Whether the component loop goes on to CanDrawIcon for c; `first` is
      true until the first non-null component has been seen. */
  predicate Passes(s: Settings, c: Component?, first: bool) {
    c == null ||
    ((if first then s.Bool(ShowTransformIcon)
      else s.Bool(ShowNonBehaviourIcons) || IsComponentToggleable(c))
     && c.componentType.name !in s.hiddenIconTypes)
  }

  /** No non-null component before index i. */
  predicate AllNullBefore(comps: seq<Component?>, i: nat)
    requires i <= |comps|
  {
    forall k :: 0 <= k < i ==> comps[k] == null
  }

  /** The indices, in order, of the components that get a CanDrawIcon call. */
  function Candidates(s: Settings, comps: seq<Component?>, from: nat, first: bool): (r: seq<nat>)
    requires from <= |comps|
    ensures forall k :: 0 <= k < |r| ==> from <= r[k] < |comps|
    ensures forall a, b :: 0 <= a < b < |r| ==> r[a] < r[b]
    decreases |comps| - from
  {
    if from == |comps| then []
    else
      var c := comps[from];
      var rest := Candidates(s, comps, from + 1, first && c == null);
      if Passes(s, c, first) then [from] + rest else rest
  }

  /** An index is a candidate exactly when its component passes the filter
      for its position: missing components always do, the first real one
      only with the transform icon shown, later ones unless hidden by kind
      or by name. */
  lemma {:induction false} CandidatesMeaning(s: Settings, comps: seq<Component?>, from: nat, first: bool, i: nat)
    requires from <= i < |comps|
    requires first <==> AllNullBefore(comps, from)
    ensures i in Candidates(s, comps, from, first) <==> Passes(s, comps[i], AllNullBefore(comps, i))
    decreases |comps| - from
  {
    var c := comps[from];
    var next := first && c == null;
    assert next <==> AllNullBefore(comps, from + 1);
    if i == from {
      var rest := Candidates(s, comps, from + 1, next);
      assert from !in rest;
    } else {
      CandidatesMeaning(s, comps, from + 1, next, i);
    }
  }

  /** The filter rules one by one. */
  lemma FilterRules(s: Settings, comps: seq<Component?>, i: nat)
    requires i < |comps|
    ensures comps[i] == null ==> i in Candidates(s, comps, 0, true)
    ensures (comps[i] != null && AllNullBefore(comps, i) && !s.Bool(ShowTransformIcon))
              ==> i !in Candidates(s, comps, 0, true)
    ensures (comps[i] != null && !AllNullBefore(comps, i) && !s.Bool(ShowNonBehaviourIcons)
             && !IsComponentToggleable(comps[i]))
              ==> i !in Candidates(s, comps, 0, true)
    ensures (comps[i] != null && comps[i].componentType.name in s.hiddenIconTypes)
              ==> i !in Candidates(s, comps, 0, true)
  {
    CandidatesMeaning(s, comps, 0, true, i);
  }

  // -----------------------------------------------------------------------
  // Labels

  datatype Split = Split(rest: Rect, slice: Rect)

  /** UseRectEnd: takes `width` off the right end of the rectangle. */
  function UseRectEnd(rect: Rect, width: int): (r: Split)
    ensures r.rest.x == rect.x && r.rest.y == rect.y && r.rest.height == rect.height
    ensures r.rest.width == rect.width - width
    ensures r.slice.x == r.rest.XMax() && r.slice.width == width && r.slice.XMax() == rect.XMax()
    ensures r.slice.y == rect.y && r.slice.height == rect.height
  {
    var rest := rect.(width := rect.width - width);
    Split(rest, rect.(x := rest.XMax(), width := width))
  }

  function Max(a: int, b: int): int {
    if a >= b then a else b
  }

  /** Mathf.Clamp */
  function Clamp(v: int, lo: int, hi: int): (r: int)
    ensures lo <= hi ==> lo <= r <= hi
    ensures lo <= v <= hi ==> r == v
  {
    if v < lo then lo else if v > hi then hi else v
  }

  /** One label slot: the slice taken, its width clamped to what was left,
      moved right by what the clamp removed. */
  function LabelSlot(area: Rect, labelWidth: int): (r: Split)
    ensures r.rest == UseRectEnd(area, labelWidth).rest
    ensures r.slice.width == Clamp(labelWidth, 0, Max(0, area.width))
    ensures 0 <= r.slice.width <= labelWidth || labelWidth < 0
    ensures r.slice.XMax() == area.XMax() && r.slice.y == area.y && r.slice.height == area.height
  {
    var cut := UseRectEnd(area, labelWidth);
    var clamped := cut.slice.(width := Clamp(cut.slice.width, 0, Max(0, area.width)));
    Split(cut.rest, clamped.(x := clamped.x + labelWidth - clamped.width))
  }

  datatype Labels = Labels(layer: Option<Rect>, tag: Option<Rect>)

  /** The area the labels share: the row after the name, less one slot per
      icon of the widest row of the previous frame and one more. */
  function LabelsArea(baseRect: Rect, lastMaxIconCount: nat): Rect {
    baseRect.(width := baseRect.width - 18 * (lastMaxIconCount + 1))
  }

  predicate ShowsLayer(s: Settings, layer: int) {
    s.GetLabelsEnabled() && s.Bool(LayerLabelEnabled) && (s.Bool(DisplayDefaultLayerLabel) || layer != 0)
  }

  predicate ShowsTag(s: Settings, untagged: bool) {
    s.GetLabelsEnabled() && s.Bool(TagLabelEnabled) && (s.Bool(DisplayUntaggedLabel) || !untagged)
  }

  /** Where the layer and tag labels go. The layer slot is taken whether or
      not the label shows; the tag slot lies 18 units left of it. A label
      narrower than 11 units is not drawn. */
  function LabelLayout(s: Settings, area: Rect, layer: int, untagged: bool): (r: Labels)
    ensures var layerSlot := LabelSlot(area, s.Number(LayerLabelWidth)).slice;
      r.layer == (if ShowsLayer(s, layer) && layerSlot.width > 10 then Some(layerSlot) else None)
    ensures var left := UseRectEnd(UseRectEnd(area, s.Number(LayerLabelWidth)).rest, 18).rest;
            var tagSlot := LabelSlot(left, s.Number(TagLabelWidth)).slice;
      r.tag == (if ShowsTag(s, untagged) && tagSlot.width > 10 then Some(tagSlot) else None)
  {
    if !s.GetLabelsEnabled() then Labels(None, None)
    else
      var layerCut := LabelSlot(area, s.Number(LayerLabelWidth));
      var layerRect := if ShowsLayer(s, layer) && layerCut.slice.width > 10 then Some(layerCut.slice) else None;
      if !ShowsTag(s, untagged) then Labels(layerRect, None)
      else
        var gap := UseRectEnd(layerCut.rest, 18);
        var tagCut := LabelSlot(gap.rest, s.Number(TagLabelWidth));
        Labels(layerRect, if tagCut.slice.width > 10 then Some(tagCut.slice) else None)
  }

  /** Both labels are right-aligned in their slots, never wider than their
      setting nor than the room left, and the tag ends 18 units before the
      layer slot begins. */
  lemma LabelsPlacement(s: Settings, area: Rect, layer: int, untagged: bool)
    ensures var r := LabelLayout(s, area, layer, untagged);
      && (r.layer.Some? ==>
            (r.layer.value.XMax() == area.XMax()
             && 10 < r.layer.value.width <= s.Number(LayerLabelWidth) && r.layer.value.width <= area.width))
      && (r.tag.Some? ==>
            (r.tag.value.XMax() == area.XMax() - s.Number(LayerLabelWidth) - 18
             && 10 < r.tag.value.width <= s.Number(TagLabelWidth)
             && r.tag.value.width <= area.width - s.Number(LayerLabelWidth) - 18))
  {
  }

  // -----------------------------------------------------------------------
  // Frame counters

  /** `_ranOnceThisFrame`, `_lastMaxIconCount` and `_maxIconCount`. */
  datatype Counters = Counters(ranOnce: bool, lastMax: nat, max: nat)

  /** OnCustomUpdate, once per editor update. */
  function UpdateStep(c: Counters): Counters {
    c.(ranOnce := false)
  }

  /** The first row after an update moves the running maximum to lastMax. */
  function RowStartStep(c: Counters): (r: Counters)
    ensures r.ranOnce
    ensures !c.ranOnce ==> r.lastMax == c.max && r.max == 0
    ensures c.ranOnce ==> r == c
  {
    if !c.ranOnce then Counters(true, c.max, 0) else c
  }

  /** A row that drew `count` icon slots. */
  function RowEndStep(c: Counters, count: nat): (r: Counters)
    ensures r.max == Max(c.max, count) && r.ranOnce == c.ranOnce && r.lastMax == c.lastMax
  {
    if count > c.max then c.(max := count) else c
  }

  function RowStep(c: Counters, count: nat): Counters {
    RowEndStep(RowStartStep(c), count)
  }

  function Rows(c: Counters, counts: seq<nat>): Counters
    decreases |counts|
  {
    if counts == [] then c else Rows(RowStep(c, counts[0]), counts[1..])
  }

  function MaxOf(counts: seq<nat>): nat
    decreases |counts|
  {
    if counts == [] then 0 else Max(counts[0], MaxOf(counts[1..]))
  }

  lemma {:induction false} RowsWithinFrame(c: Counters, counts: seq<nat>)
    requires c.ranOnce
    ensures Rows(c, counts) == c.(max := Max(c.max, MaxOf(counts)))
    decreases |counts|
  {
    if counts != [] {
      RowsWithinFrame(RowStep(c, counts[0]), counts[1..]);
    }
  }

  /** Rows drawn between two updates see, as lastMax, the largest icon
      count of the rows of the frame before. */
  lemma FrameCarriesMaximum(c: Counters, previous: seq<nat>, current: seq<nat>)
    requires previous != [] && current != []
    ensures var afterPrevious := Rows(UpdateStep(c), previous);
            var firstRow := RowStartStep(UpdateStep(afterPrevious));
      firstRow.lastMax == MaxOf(previous)
      && Rows(UpdateStep(afterPrevious), current).lastMax == MaxOf(previous)
  {
    var start := RowStep(UpdateStep(c), previous[0]);
    RowsWithinFrame(start, previous[1..]);
    var afterPrevious := Rows(UpdateStep(c), previous);
    assert afterPrevious.max == MaxOf(previous);
    var next := RowStep(UpdateStep(afterPrevious), current[0]);
    RowsWithinFrame(next, current[1..]);
  }
}
