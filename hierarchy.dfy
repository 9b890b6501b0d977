/**
 * HierarchyPlus: the per-row drawing callback of the hierarchy window, its
 * static state (icon caches, drag-toggle gesture, per-frame icon counters,
 * the three pending colour scopes) and what one row draws, recorded as a
 * list of drawing commands.
 */
module Hierarchy {
  import opened Wrappers
  import opened Engine
  import opened ColoredScopes
  import opened Scene
  import opened SettingsData
  import opened RowRules
  import opened DragToggle

  /** What a row puts on screen, in order. */
  datatype Drawing =
    | IconDrawn(content: Content, rect: Rect, tint: Color, background: Option<Color>)
    | Ellipsis(rect: Rect)
    | RowFill(rect: Rect, color: Color)
    | GuideLinesDrawn(rect: Rect, isLastChild: bool, hasChildren: bool, middleLines: seq<bool>, color: Color)
    | LabelDrawn(rect: Rect, text: string, labelBackground: Color, labelContent: Color)

  /** A press of `button` inside rect (LeftClicked uses 0, RightClicked 1). */
  predicate Clicks(e: Event, rect: Rect, button: int) {
    e.eventType == MouseDown && e.button == button && rect.Contains(e.mousePosition)
  }

  /** The current event after a click test: consumed exactly when it was the click. */
  function AfterClick(e: Event, rect: Rect, button: int): (r: Event)
    ensures Clicks(e, rect, button) ==> r.eventType == Used
    ensures !Clicks(e, rect, button) ==> r == e
    ensures r.button == e.button && r.mousePosition == e.mousePosition
  {
    if Clicks(e, rect, button) then e.Use() else e
  }

  /** Faded icons use the inactive tint, the others the active tint. */
  function Tint(s: Settings, faded: bool): Color {
    if faded then s.ColorOf(IconFadedTintColor) else s.ColorOf(IconTintColor)
  }

  function IconBackground(s: Settings, withBackground: bool): Option<Color> {
    if withBackground then Some(s.ColorOf(IconBackgroundColor)) else None
  }

  /** The visit of a drag-toggle icon that an event makes. */
  function VisitOf(e: Event, rect: Rect, item: object, state: bool, toggleable: bool): Visit {
    Visit(item, state, toggleable, Clicks(e, rect, 0), e.eventType != Layout && rect.Contains(e.mousePosition))
  }

  /** The parts of the icon lookup fixed at initialisation: CustomIconCache,
      DefaultTextures and the missing-script content. */
  datatype IconTables = IconTables(custom: map<string, Content>, defaults: seq<Option<Texture>>, missing: Content)

  /** The content GetIcon returns, with the cache and the shared default
      content after the call. */
  datatype Lookup = Lookup(content: Content, cache: map<ComponentType, Content>, defaultContent: Content)

  /** A thumbnail that is missing or one of the editor's default textures. */
  predicate IsDefaultThumbnail(t: IconTables, thumb: Option<Texture>) {
    thumb.None? || thumb in t.defaults
  }

  function LookupIcon(t: IconTables, cache: map<ComponentType, Content>, defaultContent: Content, c: Component?): (r: Lookup)
    // a missing script shows the missing-script icon
    ensures c == null ==> r == Lookup(t.missing, cache, defaultContent)
    // a custom icon for the type name wins over everything cached
    ensures c != null && c.componentType.name in t.custom ==>
              r == Lookup(t.custom[c.componentType.name], cache, defaultContent)
    // otherwise a cached type gets its cached content back and nothing changes
    ensures c != null && c.componentType.name !in t.custom && c.componentType in cache ==>
              r == Lookup(cache[c.componentType], cache, defaultContent)
    // the cache only ever gains the looked-up type, mapped to what is returned
    ensures forall k :: k in cache ==> k in r.cache && r.cache[k] == cache[k]
    ensures r.cache != cache ==>
              c != null && c.componentType !in cache && r.cache == cache[c.componentType := r.content]
    // a component without its own thumbnail shows the shared default content,
    // whose tooltip becomes the type name
    ensures r.defaultContent != defaultContent ==> c != null && r.content == r.defaultContent
    ensures c != null && c.componentType.name !in t.custom && c.componentType !in cache ==>
              if IsDefaultThumbnail(t, c.miniThumbnail)
              then r == Lookup(defaultContent.(tooltip := c.componentType.name), cache, r.content)
              else r.content == Content(c.miniThumbnail, c.componentType.name) && r.defaultContent == defaultContent
  {
    if c == null then Lookup(t.missing, cache, defaultContent)
    else if c.componentType.name in t.custom then Lookup(t.custom[c.componentType.name], cache, defaultContent)
    else if c.componentType in cache then Lookup(cache[c.componentType], cache, defaultContent)
    else if IsDefaultThumbnail(t, c.miniThumbnail) then
      var named := defaultContent.(tooltip := c.componentType.name);
      Lookup(named, cache, named)
    else
      var content := Content(c.miniThumbnail, c.componentType.name);
      Lookup(content, cache[c.componentType := content], defaultContent)
  }

  /** Looking an icon up again right away returns the same content and
      changes nothing more. */
  lemma LookupIconIdempotent(t: IconTables, cache: map<ComponentType, Content>, defaultContent: Content, c: Component?)
    ensures var r := LookupIcon(t, cache, defaultContent, c);
      LookupIcon(t, r.cache, r.defaultContent, c) == r
  {
  }

  /** Where the two label colours come from. */
  const LabelBackground := Color(0.0, 0.0, 0.0, 0.4)
  const LabelForeground := Color(0.7, 0.7, 0.7, 1.0)

  function Digits(n: nat): string
    decreases n
  {
    (if n < 10 then "" else Digits(n / 10)) + [(('0' as int) + n % 10) as char]
  }

  /** An int in decimal, as string interpolation writes it. */
  function Decimal(n: int): string {
    if n < 0 then "-" + Digits(-n) else Digits(n)
  }

  /** A label drawn in a row. */
  function LabelDrawing(rect: Rect, text: string): Drawing {
    LabelDrawn(rect, text, LabelBackground, LabelForeground)
  }

  /** The text of the layer label. */
  function LayerText(s: Settings, layer: int, layerName: string): string {
    if s.Bool(DisplayLayerIndex) then Decimal(layer) + ": " + layerName else layerName
  }

  /** The labels a row draws, layer first. */
  function LabelDrawings(s: Settings, r: Labels, layer: int, layerName: string, tag: string): seq<Drawing> {
    (if r.layer.Some? then [LabelDrawing(r.layer.value, LayerText(s, layer, layerName))] else [])
    + (if r.tag.Some? then [LabelDrawing(r.tag.value, tag)] else [])
  }

  /** The event after the label context-click tests: a right click on a drawn
      label is consumed when label context clicks are on. */
  function LabelsEvent(s: Settings, r: Labels, e: Event): (out: Event)
    ensures out != e ==>
              s.Bool(EnableLabelContextClick) && out == e.Use()
              && ((r.layer.Some? && Clicks(e, r.layer.value, 1)) || (r.tag.Some? && Clicks(e, r.tag.value, 1)))
    ensures s.Bool(EnableLabelContextClick) && r.layer.Some? && Clicks(e, r.layer.value, 1) ==> out == e.Use()
    ensures s.Bool(EnableLabelContextClick) && r.tag.Some? && Clicks(e, r.tag.value, 1) ==> out == e.Use()
  {
    if !s.Bool(EnableLabelContextClick) then e
    else
      var afterLayer := if r.layer.Some? then AfterClick(e, r.layer.value, 1) else e;
      if r.tag.Some? then AfterClick(afterLayer, r.tag.value, 1) else afterLayer
  }

  /** The slots after Dispose of a scope that may be missing. */
  function Undo(cs: ColoredScope?, g: Slots): Slots
    reads cs, if cs != null then {cs.ogColors} else {}
    requires cs != null ==> cs.Valid()
  {
    if cs == null || !cs.changedAnyColor then g else Restore(cs.coloringType, cs.Memorized(), g)
  }

  /** Disposing a scope right after it was opened gives back the slots it found. */
  lemma UndoEnter(cs: ColoredScope, req: ScopeRequest, g: Slots)
    requires cs.Valid() && cs.coloringType == req.coloringType && cs.changedAnyColor == req.active
    requires req.active ==> cs.Memorized() == g
    ensures Undo(cs, Enter(req, g)) == g
  {
    if req.active {
      RestoreUndoesPaint(req.coloringType, req.color, g);
    }
  }

  /** The slots with the three misc colour scopes of a row opened: general
      colour, then content colour, then background colour, each only when
      its switch is on, and none when colours are off. */
  function RowSlots(s: Settings, g: Slots): Slots {
    if !s.GetColorsEnabled() then g
    else Enter(ScopeRequest(Bg, s.Bool(ColorThreeEnabled), s.ColorOf(ColorThree)),
               Enter(ScopeRequest(Fg, s.Bool(ColorTwoEnabled), s.ColorOf(ColorTwo)),
                     Enter(ScopeRequest(General, s.Bool(ColorOneEnabled), s.ColorOf(ColorOne)), g)))
  }

  /** The local state CanDrawIcon shares with the icon loop: the room left,
      the calls made so far and where the next icon goes. */
  class IconArea {
    var available: Rect
    var count: nat
    var iconRect: Rect

    constructor (baseRect: Rect)
      ensures available == baseRect && count == 0
      ensures iconRect == baseRect.(x := baseRect.XMax() - 18, width := 18)
    {
      available := baseRect;
      count := 0;
      iconRect := baseRect.(x := baseRect.XMax() - 18, width := 18);
    }
  }

  /** Whether a row draws shading or guide lines at all. */
  predicate WillDrawColors(s: Settings) {
    s.GetColorsEnabled() && (s.Bool(GuideLinesEnabled) || s.GetRowColoringEnabled())
  }

  /** The area right of the object's name that the icons and labels use. */
  function IconsBase(s: Settings, rect: Rect, nameWidth: int): (r: Rect)
    ensures r.x == rect.x + nameWidth + 18 && r.y == rect.y && r.height == rect.height
    ensures r.XMax() == rect.XMax() - 32 + s.Number(GuiXOffset)
  {
    var nameAdjust := nameWidth + 18;
    rect.(x := rect.x + nameAdjust, width := rect.width - 32 + s.Number(GuiXOffset) - nameAdjust)
  }

  /** Row shading and guide lines: the band fill of a repaint, then the guide
      lines of an object that has a parent. */
  ghost function RowColorsDrawings(s: Settings, item: Transform, rect: Rect, repaint: bool): (r: seq<Drawing>)
    requires item.Valid()
    ensures |r| == (if RowBand(s, rect.y, repaint).Some? then 1 else 0)
                   + (if item.parent != null && s.Bool(GuideLinesEnabled) then 1 else 0)
    ensures RowBand(s, rect.y, repaint).Some? ==> r[0].RowFill?
    ensures item.parent != null && s.Bool(GuideLinesEnabled) ==>
              r[|r| - 1].GuideLinesDrawn? && r[|r| - 1].color == s.ColorOf(GuideLinesColor)
  {
    var hasChildren := item.childCount > 0;
    var isLastChild := item.parent != null && item.siblingIndex == item.parent.childCount - 1;
    var band := RowBand(s, rect.y, repaint);
    var fill := if band.Some? then [RowFill(BackgroundRect(rect, item.depth, hasChildren), BandColor(s, band.value))] else [];
    var lines := if item.parent != null && s.Bool(GuideLinesEnabled)
                 then [GuideLinesDrawn(LineRect(rect, item.depth, hasChildren), isLastChild, hasChildren, PathNotLast(item),
                                       s.ColorOf(GuideLinesColor))]
                 else [];
    fill + lines
  }

  /** The gesture, hot control, current event and icon lookup state that the
      icons of a row thread from slot to slot. */
  datatype Globals = Globals(visited: set<object>, target: bool, hotControl: int, event: Event,
                             cache: map<ComponentType, Content>, defaultContent: Content)

  /** The globals after an icon toggle and the state its object is set to. */
  datatype Toggled = Toggled(g: Globals, setTo: Option<bool>)

  /** The slot state of a row's icon strip: the globals, the room left, the
      slots claimed and where the next icon goes. */
  datatype Strip = Strip(g: Globals, available: Rect, count: nat, iconRect: Rect)

  /** One slot: the strip after it, what it draws and what it sets its object to. */
  datatype SlotResult = SlotResult(strip: Strip, drawings: seq<Drawing>, setTo: Option<bool>)

  /** A run of component slots: the strip after it, what it draws, and the
      state each component it toggled was last set to. */
  datatype Run = Run(strip: Strip, drawings: seq<Drawing>, changed: map<Component?, bool>)

  /** The icons of a row: the globals after them, the slots claimed, what
      they draw and what they set the GameObject and the components to. */
  datatype RowIconsResult = RowIconsResult(g: Globals, count: nat, drawings: seq<Drawing>,
                                           goSetTo: Option<bool>, changed: map<Component?, bool>)

  /** A row once its colour scopes are open: what it draws, the globals after
      it, the slot count when icons are on, and what it sets. */
  datatype RowResult = RowResult(drawings: seq<Drawing>, g: Globals, iconCount: Option<nat>,
                                 goSetTo: Option<bool>, changed: map<Component?, bool>)

  /** The state of a component at the point its slot is drawn: the last
      state a toggle earlier in the row set it to, else its state before
      the row. */
  function StateNow(c: Component?, before: bool, changed: map<Component?, bool>): bool {
    if c in changed then changed[c] else before
  }

  /** IsComponentEnabled of every component of a row. */
  function EnabledOf(comps: seq<Component?>): (r: seq<bool>)
    reads comps
    ensures |r| == |comps| && forall k :: 0 <= k < |comps| ==> r[k] == IsComponentEnabled(comps[k])
    decreases |comps|
  {
    if comps == [] then [] else [IsComponentEnabled(comps[0])] + EnabledOf(comps[1..])
  }

  /** The enabled flag of every component of a row, false for a missing one. */
  function Flags(comps: seq<Component?>): (r: seq<bool>)
    reads comps
    ensures |r| == |comps| && forall k :: 0 <= k < |comps| ==> r[k] == (comps[k] != null && comps[k].enabled)
    decreases |comps|
  {
    if comps == [] then [] else [comps[0] != null && comps[0].enabled] + Flags(comps[1..])
  }

  /** Every component's flag in `now` is the last state a toggle in `changed`
      set it to, else its flag in `was`. */
  predicate Follows(comps: seq<Component?>, now: seq<bool>, was: seq<bool>, changed: map<Component?, bool>) {
    |now| == |was| == |comps|
    && forall k :: 0 <= k < |comps| && comps[k] != null ==> now[k] == StateNow(comps[k], was[k], changed)
  }

  /** `olds` are the states IsComponentEnabled gives for the flags `flags`. */
  predicate StatesOf(comps: seq<Component?>, olds: seq<bool>, flags: seq<bool>) {
    |olds| == |flags| == |comps|
    && forall k :: 0 <= k < |comps| ==> olds[k] == (!IsComponentToggleable(comps[k]) || flags[k])
  }

  /** A slot that sets `c` to `setTo`, and no other component, keeps the
      flags following the toggles. */
  lemma FollowsAfterSlot(comps: seq<Component?>, flags: seq<bool>, changed: map<Component?, bool>,
                         c: Component?, setTo: Option<bool>, next: map<Component?, bool>, before: seq<bool>, after: seq<bool>)
    requires next == if setTo.Some? then changed[c := setTo.value] else changed
    requires Follows(comps, before, flags, changed) && |after| == |comps|
    requires forall k :: 0 <= k < |comps| && comps[k] != c ==> after[k] == before[k]
    requires forall k :: 0 <= k < |comps| && comps[k] == c && c != null ==> after[k] == setTo.GetOr(before[k])
    ensures Follows(comps, after, flags, next)
  {
  }

  lemma AppendAssoc<T>(a: seq<T>, b: seq<T>, c: seq<T>)
    ensures a + b + c == a + (b + c)
  {
  }

  class HierarchyPlus {
    const gui: Gui
    /** DragToggleHotControlID, the hash of a fixed string. */
    const dragToggleHotControlId: int
    const tables: IconTables
    const gameObjectContent: Content
    /** Whether the editor's GetIconForObject method was found. */
    const hasGameObjectIconMethod: bool
    var defaultContent: Content
    var iconCache: map<ComponentType, Content>
    var dragToggledObjects: set<object>
    var dragToggleNewState: bool
    var ranOnceThisFrame: bool
    var lastMaxIconCount: nat
    var maxIconCount: nat
    var colorScope: ColoredScope?
    var colorScope2: ColoredScope?
    var colorScope3: ColoredScope?
    /** Everything drawn so far. */
    var drawn: seq<Drawing>

    ghost predicate Valid()
      reads this`colorScope, this`colorScope2, this`colorScope3
    {
      && (colorScope != null ==> colorScope.Valid())
      && (colorScope2 != null ==> colorScope2.Valid())
      && (colorScope3 != null ==> colorScope3.Valid())
    }

    /** The objects the pending colour scopes read. */
    ghost function ScopeRepr(): set<object>
      reads this
    {
      (if colorScope != null then {colorScope, colorScope.ogColors} else {})
      + (if colorScope2 != null then {colorScope2, colorScope2.ogColors} else {})
      + (if colorScope3 != null then {colorScope3, colorScope3.ogColors} else {})
    }

    /** The slots DisposeOfColorScopes leaves when it finds g. */
    ghost function Pending(g: Slots): Slots
      reads this, colorScope, colorScope2, colorScope3, ScopeRepr()
      requires Valid()
    {
      Undo(colorScope, Undo(colorScope2, Undo(colorScope3, g)))
    }

    constructor (gui: Gui, dragToggleHotControlId: int, tables: IconTables, gameObjectContent: Content,
                 hasGameObjectIconMethod: bool, defaultContent: Content)
      ensures Valid() && this.gui == gui && this.dragToggleHotControlId == dragToggleHotControlId
      ensures this.tables == tables && this.gameObjectContent == gameObjectContent
      ensures this.hasGameObjectIconMethod == hasGameObjectIconMethod && this.defaultContent == defaultContent
      ensures iconCache == map[] && dragToggledObjects == {} && !dragToggleNewState
      ensures Counters() == RowRules.Counters(false, 0, 0)
      ensures colorScope == null && colorScope2 == null && colorScope3 == null && drawn == []
    {
      this.gui := gui;
      this.dragToggleHotControlId := dragToggleHotControlId;
      this.tables := tables;
      this.gameObjectContent := gameObjectContent;
      this.hasGameObjectIconMethod := hasGameObjectIconMethod;
      this.defaultContent := defaultContent;
      iconCache := map[];
      dragToggledObjects := {};
      dragToggleNewState := false;
      ranOnceThisFrame := false;
      lastMaxIconCount := 0;
      maxIconCount := 0;
      colorScope, colorScope2, colorScope3 := null, null, null;
      drawn := [];
    }

    /** The frame's counters and the open colour scopes: what drawing a row
        leaves alone. */
    ghost function Untouched(): (bool, nat, ColoredScope?, ColoredScope?, ColoredScope?)
      reads this`ranOnceThisFrame, this`lastMaxIconCount, this`colorScope, this`colorScope2, this`colorScope3
    {
      (ranOnceThisFrame, lastMaxIconCount, colorScope, colorScope2, colorScope3)
    }

    function Counters(): Counters
      reads this
    {
      RowRules.Counters(ranOnceThisFrame, lastMaxIconCount, maxIconCount)
    }

    /** The gesture state: the objects toggled so far, the target state and
        whether the hot control is the drag-toggle one. */
    function DragOf(): Drag
      reads this, gui
    {
      Drag(dragToggledObjects, dragToggleNewState, gui.hotControl == dragToggleHotControlId)
    }

    /** The gesture state a Globals value stands for. */
    function DragIn(g: Globals): Drag {
      Drag(g.visited, g.target, g.hotControl == dragToggleHotControlId)
    }

    function GlobalsOf(): (r: Globals)
      reads this, gui
      ensures DragIn(r) == DragOf()
    {
      Globals(dragToggledObjects, dragToggleNewState, gui.hotControl, gui.currentEvent, iconCache, defaultContent)
    }

    function StripOf(area: IconArea): Strip
      reads this, gui, area
    {
      Strip(GlobalsOf(), area.available, area.count, area.iconRect)
    }

    /** The toggle of an icon whose object has state `state`: the left-click
        test consumes a click on the icon, and the visit is one step of the
        drag-toggle gesture; on a click with drag toggling enabled the
        gesture takes the hot control. */
    function ToggleStep(s: Settings, g: Globals, rect: Rect, item: object, state: bool): (r: Toggled)
      ensures var o := Step(DragIn(g), VisitOf(g.event, rect, item, state, true), s.Bool(EnableDragToggle));
        DragIn(r.g) == o.drag && r.setTo == o.setTo
      ensures r.g.event == AfterClick(g.event, rect, 0)
      ensures r.g.hotControl == if Clicks(g.event, rect, 0) && s.Bool(EnableDragToggle)
                                then dragToggleHotControlId else g.hotControl
      ensures r.g.cache == g.cache && r.g.defaultContent == g.defaultContent
    {
      var o := Step(DragIn(g), VisitOf(g.event, rect, item, state, true), s.Bool(EnableDragToggle));
      var hot := if Clicks(g.event, rect, 0) && s.Bool(EnableDragToggle) then dragToggleHotControlId else g.hotControl;
      Toggled(Globals(o.drag.visited, o.drag.target, hot, AfterClick(g.event, rect, 0), g.cache, g.defaultContent),
              o.setTo)
    }

    /** The strip after CanDrawIcon claims a slot, and what it draws there. */
    function Claim(s: Settings, st: Strip): (Slot, Strip, seq<Drawing>) {
      var slot := SlotFor(s, st.available.width);
      (slot, st.(available := st.available.(width := st.available.width - 18), count := st.count + 1),
       if slot.ellipsis then [Ellipsis(st.iconRect)] else [])
    }

    /** The GameObject's slot: claimed when its icon is shown; when the icon
        fits, the active toggle, the icon and the move 18 units left. */
    function GameObjectSlot(s: Settings, st: Strip, go: GameObject, active: bool): (r: SlotResult)
      ensures !s.Bool(ShowGameObjectIcon) ==> r == SlotResult(st, [], None)
      ensures s.Bool(ShowGameObjectIcon) ==>
                && r.strip.count == st.count + 1 && |r.drawings| == 1
                && r.strip.available == st.available.(width := st.available.width - 18)
                && (r.drawings[0].Ellipsis? <==> !SlotFor(s, st.available.width).drawIcon)
      ensures r.drawings != [] && r.drawings[0].IconDrawn? ==>
                r.drawings[0] == IconDrawn(GameObjectIcon(s, go), st.iconRect, Tint(s, !active),
                                           IconBackground(s, SlotFor(s, st.available.width).drawBackground))
                && r.strip.iconRect == st.iconRect.(x := st.iconRect.x - 18)
      ensures r.setTo.None? ==> DragIn(r.strip.g) == DragIn(st.g)
      ensures r.strip.g.cache == st.g.cache && r.strip.g.defaultContent == st.g.defaultContent
    {
      if !s.Bool(ShowGameObjectIcon) then SlotResult(st, [], None)
      else
        var (slot, claimed, dots) := Claim(s, st);
        if !slot.drawIcon then SlotResult(claimed, dots, None)
        else
          var rect := st.iconRect;
          var t := ToggleStep(s, st.g, rect, go, active);
          var icon := IconDrawn(GameObjectIcon(s, go), rect, Tint(s, !active), IconBackground(s, slot.drawBackground));
          SlotResult(claimed.(g := t.g, iconRect := rect.(x := rect.x - 18)), [icon], t.setTo)
    }

    /** One component's slot, `enabled` being its state at that point: the
        filter, the claim and, when the icon fits, the enabled toggle of a
        toggleable component, the looked-up icon, the move 18 units left and
        the context-click test. */
    function ComponentSlot(s: Settings, st: Strip, c: Component?, enabled: bool, first: bool): SlotResult {
      if !Passes(s, c, first) then SlotResult(st, [], None)
      else
        var (slot, claimed, dots) := Claim(s, st);
        if !slot.drawIcon then SlotResult(claimed, dots, None)
        else IconSlot(s, claimed, c, enabled, slot.drawBackground)
    }

    /** A claimed component slot whose icon fits, at the strip's icon
        rectangle: the enabled toggle of a toggleable component, the
        looked-up icon, the move 18 units left and the context-click test. */
    function IconSlot(s: Settings, claimed: Strip, c: Component?, enabled: bool, withBackground: bool): SlotResult {
      var rect := claimed.iconRect;
      var t := if IsComponentToggleable(c) then ToggleStep(s, claimed.g, rect, c, enabled) else Toggled(claimed.g, None);
      var l := LookupIcon(tables, t.g.cache, t.g.defaultContent, c);
      var icon := IconDrawn(l.content, rect, Tint(s, !enabled), IconBackground(s, withBackground));
      var event := if s.Bool(EnableContextClick) then AfterClick(t.g.event, rect, 1) else t.g.event;
      SlotResult(claimed.(g := t.g.(cache := l.cache, defaultContent := l.defaultContent, event := event),
                          iconRect := rect.(x := rect.x - 18)),
                 [icon], t.setTo)
    }

    /** What one component slot does: nothing for a component the filter
        skips; otherwise one slot claimed and one thing drawn, the ellipsis
        exactly when the icon does not fit, else the looked-up icon faded by
        the component's state, after which the cache is the lookup's and the
        strip moves 18 units left. Only a toggleable component is ever set,
        and a slot that sets nothing leaves the gesture alone. */
    lemma ComponentSlotMeaning(s: Settings, st: Strip, c: Component?, enabled: bool, first: bool)
      ensures var r := ComponentSlot(s, st, c, enabled, first);
        && (!Passes(s, c, first) ==> r == SlotResult(st, [], None))
        && (Passes(s, c, first) ==>
              && r.strip.count == st.count + 1 && |r.drawings| == 1
              && r.strip.available == st.available.(width := st.available.width - 18)
              && (r.drawings[0].Ellipsis? <==> !SlotFor(s, st.available.width).drawIcon)
              && (r.drawings[0].Ellipsis? ==> r.drawings[0] == Ellipsis(st.iconRect) && r.setTo.None?))
        && (r.drawings != [] && r.drawings[0].IconDrawn? ==>
              && r.drawings[0] == IconDrawn(LookupIcon(tables, st.g.cache, st.g.defaultContent, c).content, st.iconRect,
                                            Tint(s, !enabled),
                                            IconBackground(s, SlotFor(s, st.available.width).drawBackground))
              && r.strip.iconRect == st.iconRect.(x := st.iconRect.x - 18)
              && r.strip.g.cache == LookupIcon(tables, st.g.cache, st.g.defaultContent, c).cache)
        && (r.setTo.Some? ==> IsComponentToggleable(c))
        && (r.setTo.None? ==> DragIn(r.strip.g) == DragIn(st.g))
    {
    }

    /** The component loop from index `from`: each slot sees its component
        in the state the earlier slots left it in. */
    function ComponentRun(s: Settings, st: Strip, comps: seq<Component?>, olds: seq<bool>,
                          changed: map<Component?, bool>, from: nat, first: bool): (r: Run)
      requires from <= |comps| == |olds|
      decreases |comps| - from, 1
    {
      if from == |comps| then Run(st, [], changed)
      else RunStep(s, st, comps, olds, changed, from, first)
    }

    /** One turn of the component loop: the slot of comps[from], then the run
        over the components after it. */
    function RunStep(s: Settings, st: Strip, comps: seq<Component?>, olds: seq<bool>,
                     changed: map<Component?, bool>, from: nat, first: bool): (r: Run)
      requires from < |comps| == |olds|
      decreases |comps| - from, 0
    {
      var c := comps[from];
      var p := ComponentSlot(s, st, c, StateNow(c, olds[from], changed), first);
      var rest := ComponentRun(s, p.strip, comps, olds, if p.setTo.Some? then changed[c := p.setTo.value] else changed,
                               from + 1, first && c == null);
      Run(rest.strip, p.drawings + rest.drawings, rest.changed)
    }

    /** The component loop claims one slot per candidate of the filter, draws
        one icon or ellipsis per slot, takes 18 units of room per slot, and
        only ever sets toggleable components. */
    lemma {:induction false} RunCoversCandidates(s: Settings, st: Strip, comps: seq<Component?>, olds: seq<bool>,
                                                 changed: map<Component?, bool>, from: nat, first: bool)
      requires from <= |comps| == |olds|
      ensures var r := ComponentRun(s, st, comps, olds, changed, from, first);
        var n := |Candidates(s, comps, from, first)|;
        && r.strip.count == st.count + n && |r.drawings| == n
        && r.strip.available == st.available.(width := st.available.width - 18 * n)
        && (forall k :: 0 <= k < n ==> r.drawings[k].Ellipsis? || r.drawings[k].IconDrawn?)
        && (forall x :: x in r.changed ==> x in changed || IsComponentToggleable(x))
      decreases |comps| - from
    {
      if from < |comps| {
        var c := comps[from];
        var p := ComponentSlot(s, st, c, StateNow(c, olds[from], changed), first);
        ComponentSlotMeaning(s, st, c, StateNow(c, olds[from], changed), first);
        var next := if p.setTo.Some? then changed[c := p.setTo.value] else changed;
        RunCoversCandidates(s, p.strip, comps, olds, next, from + 1, first && c == null);
      }
    }

    /** A row's icons: one slot for the GameObject when its icon is shown and
        one per candidate component, each drawing one icon or ellipsis. */
    lemma RowIconsCount(s: Settings, g: Globals, go: GameObject, active: bool, olds: seq<bool>, baseRect: Rect)
      requires |olds| == |go.components|
      ensures var r := RowIcons(s, g, go, active, olds, baseRect);
        && r.count == (if s.Bool(ShowGameObjectIcon) then 1 else 0) + |Candidates(s, go.components, 0, true)|
        && |r.drawings| == r.count
        && (forall x :: x in r.changed ==> IsComponentToggleable(x))
    {
      var st := Strip(g, baseRect, 0, baseRect.(x := baseRect.XMax() - 18, width := 18));
      var p := GameObjectSlot(s, st, go, active);
      RunCoversCandidates(s, p.strip, go.components, olds, map[], 0, true);
    }

    /** The icons of a row from its base rectangle: the GameObject's slot,
        then the component loop, `olds` being the components' states before
        the row. */
    function RowIcons(s: Settings, g: Globals, go: GameObject, active: bool, olds: seq<bool>, baseRect: Rect): RowIconsResult
      requires |olds| == |go.components|
    {
      IconsFrom(s, Strip(g, baseRect, 0, baseRect.(x := baseRect.XMax() - 18, width := 18)), go, active, olds)
    }

    /** The GameObject's slot and then the component loop, from strip `st`. */
    function IconsFrom(s: Settings, st: Strip, go: GameObject, active: bool, olds: seq<bool>): RowIconsResult
      requires |olds| == |go.components|
    {
      var p := GameObjectSlot(s, st, go, active);
      var run := ComponentRun(s, p.strip, go.components, olds, map[], 0, true);
      RowIconsResult(run.strip.g, run.strip.count, p.drawings + run.drawings, p.setTo, run.changed)
    }

    /** What the row of a GameObject draws before its labels: shading and
        guide lines, then its icons when icons are on. */
    ghost function RowGraphics(s: Settings, go: GameObject, rect: Rect, nameWidth: int, before: Globals,
                               active: bool, olds: seq<bool>): RowResult
      requires go.transform.Valid() && |olds| == |go.components|
    {
      var colors := if WillDrawColors(s) then RowColorsDrawings(s, go.transform, rect, before.event.eventType == Repaint) else [];
      var icons := RowIconsPart(s, go, rect, nameWidth, before, active, olds);
      icons.(drawings := colors + icons.drawings)
    }

    /** The icons of a row when icons are on, else nothing. */
    function RowIconsPart(s: Settings, go: GameObject, rect: Rect, nameWidth: int, before: Globals,
                          active: bool, olds: seq<bool>): RowResult
      requires |olds| == |go.components|
    {
      if !s.GetIconsEnabled() then RowResult([], before, None, None, map[])
      else
        var icons := RowIcons(s, before, go, active, olds, IconsBase(s, rect, nameWidth));
        RowResult(icons.drawings, icons.g, Some(icons.count), icons.goSetTo, icons.changed)
    }

    /** What the row of a GameObject does once its colour scopes are open:
        shading and guide lines, then its icons when icons are on, then its
        labels when labels are on, the labels placed left of the widest icon
        strip of the previous frame. */
    ghost function RowEffect(s: Settings, go: GameObject, rect: Rect, nameWidth: int, before: Globals,
                             lastMax: nat, active: bool, olds: seq<bool>): RowResult
      requires go.transform.Valid() && |olds| == |go.components|
    {
      var r := RowGraphics(s, go, rect, nameWidth, before, active, olds);
      var labels := LabelLayout(s, LabelsArea(IconsBase(s, rect, nameWidth), lastMax), go.layer, go.tag == "Untagged");
      if !s.GetLabelsEnabled() then r
      else r.(drawings := r.drawings + LabelDrawings(s, labels, go.layer, go.layerName, go.tag),
              g := r.g.(event := LabelsEvent(s, labels, r.g.event)))
    }

    /** The editor update callback: the next row starts a new frame. */
    method OnCustomUpdate()
      modifies this`ranOnceThisFrame
      ensures Counters() == UpdateStep(old(Counters()))
    {
      ranOnceThisFrame := false;
    }

    /** The first row of a frame moves the maximum icon count to the last
        one and starts counting again. */
    method StartRow()
      modifies this`ranOnceThisFrame, this`lastMaxIconCount, this`maxIconCount
      ensures Counters() == RowStartStep(old(Counters()))
    {
      if !ranOnceThisFrame {
        ranOnceThisFrame := true;
        lastMaxIconCount := maxIconCount;
        maxIconCount := 0;
      }
    }

    /** Disposes the three pending scopes, last opened first. */
    method DisposeOfColorScopes()
      requires Valid()
      modifies gui
      ensures SlotsOf(gui) == old(Pending(SlotsOf(gui)))
      ensures gui.hotControl == old(gui.hotControl) && gui.currentEvent == old(gui.currentEvent)
    {
      if colorScope3 != null {
        colorScope3.Dispose(gui);
      }
      if colorScope2 != null {
        colorScope2.Dispose(gui);
      }
      if colorScope != null {
        colorScope.Dispose(gui);
      }
    }

    /** Opens the three misc colour scopes when colours are on: general
        colour, content colour and background colour, each only when its
        own switch is on. The next DisposeOfColorScopes gives back exactly
        the slots found here. */
    method OpenColorScopes(s: Settings)
      requires Valid()
      modifies this`colorScope, this`colorScope2, this`colorScope3, gui
      ensures Valid()
      ensures gui.hotControl == old(gui.hotControl) && gui.currentEvent == old(gui.currentEvent)
      ensures s.GetColorsEnabled() ==>
                && colorScope != null && colorScope2 != null && colorScope3 != null
                && fresh(colorScope.ogColors) && fresh(colorScope2.ogColors) && fresh(colorScope3.ogColors)
                && Pending(SlotsOf(gui)) == old(SlotsOf(gui))
      ensures !s.GetColorsEnabled() ==>
                colorScope == old(colorScope) && colorScope2 == old(colorScope2) && colorScope3 == old(colorScope3)
      ensures SlotsOf(gui) == RowSlots(s, old(SlotsOf(gui)))
    {
      if s.GetColorsEnabled() {
        var g0 := SlotsOf(gui);
        var r1 := ScopeRequest(General, s.Bool(ColorOneEnabled), s.ColorOf(ColorOne));
        var r2 := ScopeRequest(Fg, s.Bool(ColorTwoEnabled), s.ColorOf(ColorTwo));
        var r3 := ScopeRequest(Bg, s.Bool(ColorThreeEnabled), s.ColorOf(ColorThree));
        var a := new ColoredScope.IfActive(r1.coloringType, r1.active, r1.color, gui);
        var g1 := SlotsOf(gui);
        var b := new ColoredScope.IfActive(r2.coloringType, r2.active, r2.color, gui);
        var g2 := SlotsOf(gui);
        var c := new ColoredScope.IfActive(r3.coloringType, r3.active, r3.color, gui);
        colorScope, colorScope2, colorScope3 := a, b, c;
        UndoEnter(c, r3, g2);
        UndoEnter(b, r2, g1);
        UndoEnter(a, r1, g0);
      }
    }

    method LeftClicked(rect: Rect) returns (clicked: bool)
      modifies gui`currentEvent
      ensures clicked == Clicks(old(gui.currentEvent), rect, 0)
      ensures gui.currentEvent == AfterClick(old(gui.currentEvent), rect, 0)
    {
      var e := gui.currentEvent;
      clicked := e.eventType == MouseDown && e.button == 0 && rect.Contains(e.mousePosition);
      if clicked {
        gui.currentEvent := e.Use();
      }
    }

    method RightClicked(rect: Rect) returns (clicked: bool)
      modifies gui`currentEvent
      ensures clicked == Clicks(old(gui.currentEvent), rect, 1)
      ensures gui.currentEvent == AfterClick(old(gui.currentEvent), rect, 1)
    {
      var e := gui.currentEvent;
      clicked := e.eventType == MouseDown && e.button == 1 && rect.Contains(e.mousePosition);
      if clicked {
        gui.currentEvent := e.Use();
      }
    }

    /** The pointer is over rect while the drag-toggle gesture holds the hot
        control, outside Layout, and o has not been toggled in this gesture. */
    predicate MouseDraggedOver(rect: Rect, o: object)
      reads this, gui
    {
      var e := gui.currentEvent;
      gui.hotControl == dragToggleHotControlId && e.eventType != Layout
      && rect.Contains(e.mousePosition) && o !in dragToggledObjects
    }

    method StartDragToggling(s: Settings, toggleToState: bool)
      modifies this`dragToggledObjects, this`dragToggleNewState, gui`hotControl
      ensures dragToggledObjects == {} && dragToggleNewState == toggleToState
      ensures gui.hotControl == if s.Bool(EnableDragToggle) then dragToggleHotControlId else old(gui.hotControl)
    {
      dragToggledObjects := {};
      dragToggleNewState := toggleToState;
      if s.Bool(EnableDragToggle) {
        gui.hotControl := dragToggleHotControlId;
      }
    }

    /** Draws one icon tinted by the faded state, on the icon background when
        asked, and gives the slot 18 units to the left. The colour slots are
        as before. */
    method DrawIcon(content: Content, rect: Rect, faded: bool, withBackground: bool, s: Settings) returns (next: Rect)
      modifies gui, this`drawn
      ensures next == rect.(x := rect.x - 18)
      ensures drawn == old(drawn) + [IconDrawn(content, rect, Tint(s, faded), IconBackground(s, withBackground))]
      ensures SlotsOf(gui) == old(SlotsOf(gui))
      ensures gui.hotControl == old(gui.hotControl) && gui.currentEvent == old(gui.currentEvent)
    {
      ghost var g := SlotsOf(gui);
      var scope := new ColoredScope.Choose(All, faded, s.ColorOf(IconFadedTintColor), s.ColorOf(IconTintColor), gui);
      AllIsUnionOfFlags();
      var background := if withBackground then Some(s.ColorOf(IconBackgroundColor)) else None;
      drawn := drawn + [IconDrawn(content, rect, gui.color, background)];
      scope.Dispose(gui);
      RestoreUndoesPaint(All, Tint(s, faded), g);
      next := rect.(x := rect.x - 18);
    }

    /** The GameObject icon: the editor's custom icon for the object when
        that is enabled, found and set, else the generic one. */
    function GameObjectIcon(s: Settings, go: GameObject): (r: Content)
      ensures r.tooltip == gameObjectContent.tooltip
      ensures r.image != gameObjectContent.image ==>
                s.Bool(UseCustomGameObjectIcon) && hasGameObjectIconMethod && r.image == go.customIcon
      ensures s.Bool(UseCustomGameObjectIcon) && hasGameObjectIconMethod && go.customIcon.Some? ==>
                r.image == go.customIcon
    {
      if !s.Bool(UseCustomGameObjectIcon) || !hasGameObjectIconMethod then gameObjectContent
      else if go.customIcon.Some? then gameObjectContent.(image := go.customIcon)
      else gameObjectContent
    }

    method DrawGameObjectIcon(rect: Rect, go: GameObject, faded: bool, withBackground: bool, s: Settings)
      returns (next: Rect)
      modifies gui, this`drawn
      ensures next == rect.(x := rect.x - 18)
      ensures drawn == old(drawn) + [IconDrawn(GameObjectIcon(s, go), rect, Tint(s, faded), IconBackground(s, withBackground))]
      ensures SlotsOf(gui) == old(SlotsOf(gui))
      ensures gui.hotControl == old(gui.hotControl) && gui.currentEvent == old(gui.currentEvent)
    {
      var goContent := gameObjectContent;
      if s.Bool(UseCustomGameObjectIcon) && hasGameObjectIconMethod {
        var icon := go.customIcon;
        if icon.Some? {
          goContent := goContent.(image := icon);
        }
      }
      next := DrawIcon(goContent, rect, faded, withBackground, s);
    }

    method GetIcon(c: Component?) returns (r: Content)
      modifies this`iconCache, this`defaultContent
      ensures Lookup(r, iconCache, defaultContent) == LookupIcon(tables, old(iconCache), old(defaultContent), c)
    {
      if c == null {
        return tables.missing;
      }
      var t := c.componentType;
      if t.name in tables.custom {
        return tables.custom[t.name];
      }
      if t in iconCache {
        return iconCache[t];
      }
      var icon := c.miniThumbnail;
      if icon.None? || icon in tables.defaults {
        defaultContent := defaultContent.(tooltip := t.name);
        return defaultContent;
      }
      r := Content(icon, t.name);
      iconCache := iconCache[t := r];
    }

    method DrawComponentIcon(rect: Rect, c: Component?, faded: bool, withBackground: bool, s: Settings)
      returns (next: Rect)
      modifies gui, this`drawn, this`iconCache, this`defaultContent
      ensures var l := LookupIcon(tables, old(iconCache), old(defaultContent), c);
        && iconCache == l.cache && defaultContent == l.defaultContent
        && drawn == old(drawn) + [IconDrawn(l.content, rect, Tint(s, faded), IconBackground(s, withBackground))]
      ensures next == rect.(x := rect.x - 18)
      ensures SlotsOf(gui) == old(SlotsOf(gui))
      ensures gui.hotControl == old(gui.hotControl) && gui.currentEvent == old(gui.currentEvent)
    {
      var content := GetIcon(c);
      next := DrawIcon(content, rect, faded, withBackground, s);
    }

    /** The GameObject's active toggle: a left click toggles the object and
        starts a gesture, dragging over it during a gesture sets it to the
        gesture's target; the icon is faded by the state it had before. */
    method DrawGameObjectToggle(rect: Rect, go: GameObject, withBackground: bool, s: Settings) returns (next: Rect)
      modifies this`dragToggledObjects, this`dragToggleNewState, this`drawn, gui, go`activeSelf
      ensures var t := ToggleStep(s, old(GlobalsOf()), rect, go, old(go.activeSelf));
        GlobalsOf() == t.g && go.activeSelf == t.setTo.GetOr(old(go.activeSelf))
      ensures next == rect.(x := rect.x - 18)
      ensures drawn == old(drawn) + [IconDrawn(GameObjectIcon(s, go), rect, Tint(s, !old(go.activeSelf)),
                                               IconBackground(s, withBackground))]
      ensures SlotsOf(gui) == old(SlotsOf(gui))
    {
      var newState := !go.activeSelf;
      var leftClicked := LeftClicked(rect);
      if !leftClicked && !MouseDraggedOver(rect, go) {
        next := DrawGameObjectIcon(rect, go, newState, withBackground, s);
        return;
      }
      if leftClicked {
        StartDragToggling(s, newState);
      }
      go.activeSelf := dragToggleNewState;
      dragToggledObjects := dragToggledObjects + {go};
      next := DrawGameObjectIcon(rect, go, newState, withBackground, s);
    }

    /** A component's enabled toggle; components without an enabled flag
        are only drawn. */
    method DrawComponentToggle(rect: Rect, c: Component?, withBackground: bool, s: Settings) returns (next: Rect)
      modifies this`dragToggledObjects, this`dragToggleNewState, this`drawn, this`iconCache, this`defaultContent
      modifies gui, c
      ensures var t := if IsComponentToggleable(c) then ToggleStep(s, old(GlobalsOf()), rect, c, old(c.enabled))
                       else Toggled(old(GlobalsOf()), None);
        var l := LookupIcon(tables, old(iconCache), old(defaultContent), c);
        && GlobalsOf() == t.g.(cache := l.cache, defaultContent := l.defaultContent)
        && (c != null ==> c.enabled == t.setTo.GetOr(old(c.enabled)))
      ensures var l := LookupIcon(tables, old(iconCache), old(defaultContent), c);
        drawn == old(drawn) + [IconDrawn(l.content, rect, Tint(s, !old(IsComponentEnabled(c))),
                                            IconBackground(s, withBackground))]
      ensures next == rect.(x := rect.x - 18)
      ensures SlotsOf(gui) == old(SlotsOf(gui))
    {
      var newState := !IsComponentEnabled(c);
      if !IsComponentToggleable(c) {
        next := DrawComponentIcon(rect, c, newState, withBackground, s);
        return;
      }
      var leftClicked := LeftClicked(rect);
      if !leftClicked && !MouseDraggedOver(rect, c) {
        next := DrawComponentIcon(rect, c, newState, withBackground, s);
        return;
      }
      if leftClicked {
        StartDragToggling(s, newState);
      }
      SetComponentEnabled(c, dragToggleNewState);
      dragToggledObjects := dragToggledObjects + {c};
      next := DrawComponentIcon(rect, c, newState, withBackground, s);
    }

    /** Claims the next icon slot: counts the call, takes 18 units of room,
        and draws the ellipsis when the icon does not fit. */
    method CanDrawIcon(s: Settings, area: IconArea) returns (drawIcon: bool, drawBackground: bool)
      modifies area`available, area`count, this`drawn
      ensures var slot := SlotFor(s, old(area.available.width));
        && drawIcon == slot.drawIcon && drawBackground == slot.drawBackground
        && drawn == old(drawn) + (if slot.ellipsis then [Ellipsis(area.iconRect)] else [])
      ensures area.count == old(area.count) + 1
      ensures area.available == old(area.available).(width := old(area.available.width) - 18)
    {
      area.count := area.count + 1;
      var dotsOnly := area.available.width < 36;
      var overlapping := area.available.width < 18;
      drawIcon := s.Bool(AlwaysShowIcons) || (!dotsOnly && !overlapping);
      drawBackground := drawIcon && s.Bool(ColorsEnabled) && s.Bool(IconBackgroundColorEnabled)
                        && (overlapping || !s.Bool(IconBackgroundOverlapOnly));
      if !drawIcon && dotsOnly {
        drawn := drawn + [Ellipsis(area.iconRect)];
        area.available := area.available.(width := area.available.width - 18);
        return false, drawBackground;
      }
      area.available := area.available.(width := area.available.width - 18);
    }

    /** The filter of the component loop for one component; `first` is
        whether no real component has been seen yet. */
    method ComponentPasses(s: Settings, c: Component?, first: bool) returns (pass: bool, nextFirst: bool)
      ensures pass == Passes(s, c, first)
      ensures nextFirst == (first && c == null)
    {
      pass, nextFirst := true, first;
      if c != null {
        if first {
          nextFirst := false;
          if !s.Bool(ShowTransformIcon) {
            pass := false;
          }
        } else if !s.Bool(ShowNonBehaviourIcons) && !IsComponentToggleable(c) {
          pass := false;
        }
        if pass && c.componentType.name in s.hiddenIconTypes {
          pass := false;
        }
      }
    }

    /** The context click on a drawn component icon consumes the event (the
        menu it opens is not modelled). */
    method ContextClick(s: Settings, rect: Rect)
      modifies gui`currentEvent
      ensures gui.currentEvent ==
                if s.Bool(EnableContextClick) then AfterClick(old(gui.currentEvent), rect, 1) else old(gui.currentEvent)
    {
      var e := gui.currentEvent;
      if !s.Bool(EnableContextClick) || e.eventType != MouseDown || e.button != 1 || !rect.Contains(e.mousePosition) {
        return;
      }
      gui.currentEvent := e.Use();
    }

    /** One pass of the component loop: the filter, the slot and, when the
        icon fits, the toggle and the context-click test. */
    method DrawComponentSlot(s: Settings, area: IconArea, c: Component?, first: bool) returns (nextFirst: bool)
      modifies this`dragToggledObjects, this`dragToggleNewState, this`drawn, this`iconCache, this`defaultContent
      modifies gui, c, area
      ensures nextFirst == (first && c == null)
      ensures var r := ComponentSlot(s, old(StripOf(area)), c, old(IsComponentEnabled(c)), first);
        && StripOf(area) == r.strip && drawn == old(drawn) + r.drawings
        && (c != null ==> c.enabled == r.setTo.GetOr(old(c.enabled)))
      ensures SlotsOf(gui) == old(SlotsOf(gui))
    {
      var pass;
      pass, nextFirst := ComponentPasses(s, c, first);
      if pass {
        var ok, withBackground := CanDrawIcon(s, area);
        if ok {
          DrawIconSlot(s, area, c, withBackground);
        }
      }
    }

    /** A component slot whose icon fits, as IconSlot says. */
    method DrawIconSlot(s: Settings, area: IconArea, c: Component?, withBackground: bool)
      modifies this`dragToggledObjects, this`dragToggleNewState, this`drawn, this`iconCache, this`defaultContent
      modifies gui, c, area`iconRect
      ensures var r := IconSlot(s, old(StripOf(area)), c, old(IsComponentEnabled(c)), withBackground);
        && StripOf(area) == r.strip && drawn == old(drawn) + r.drawings
        && (c != null ==> c.enabled == r.setTo.GetOr(old(c.enabled)))
      ensures SlotsOf(gui) == old(SlotsOf(gui))
    {
      var nextRect := area.iconRect;
      area.iconRect := DrawComponentToggle(nextRect, c, withBackground, s);
      ContextClick(s, nextRect);
    }

    /** The component loop over `comps` from the slot state in `area`. */
    method DrawComponentIcons(s: Settings, comps: seq<Component?>, area: IconArea)
      modifies this`dragToggledObjects, this`dragToggleNewState, this`drawn, this`iconCache, this`defaultContent
      modifies gui, area, comps
      ensures var r := ComponentRun(s, old(StripOf(area)), comps, old(EnabledOf(comps)), map[], 0, true);
        && StripOf(area) == r.strip && drawn == old(drawn) + r.drawings
        && Follows(comps, Flags(comps), old(Flags(comps)), r.changed)
      ensures Untouched() == old(Untouched())
      ensures SlotsOf(gui) == old(SlotsOf(gui))
    {
      ghost var olds, flags := EnabledOf(comps), Flags(comps);
      ghost var cur := StripOf(area);
      ghost var full := ComponentRun(s, cur, comps, olds, map[], 0, true);
      ghost var changed: map<Component?, bool> := map[];
      ghost var done: seq<Drawing> := [];
      var first := true;
      var i := 0;
      while i < |comps|
        invariant 0 <= i <= |comps| && olds == old(EnabledOf(comps)) && flags == old(Flags(comps))
        invariant StatesOf(comps, olds, flags) && Follows(comps, Flags(comps), flags, changed)
        invariant forall x :: x in changed ==> IsComponentToggleable(x)
        invariant StripOf(area) == cur && drawn == old(drawn) + done
        invariant var rest := ComponentRun(s, cur, comps, olds, changed, i, first);
          rest.strip == full.strip && rest.changed == full.changed && full.drawings == done + rest.drawings
        invariant SlotsOf(gui) == old(SlotsOf(gui)) && Untouched() == old(Untouched())
        decreases |comps| - i
      {
        ghost var added;
        first, changed, cur, added := RunSlot(s, area, comps, olds, flags, changed, i, first, cur);
        AppendAssoc(old(drawn), done, added);
        AppendAssoc(done, added, ComponentRun(s, cur, comps, olds, changed, i + 1, first).drawings);
        done := done + added;
        i := i + 1;
      }
    }

    /** The first slot of a run and the run after it. */
    lemma RunUnfold(s: Settings, st: Strip, comps: seq<Component?>, olds: seq<bool>,
                    changed: map<Component?, bool>, i: nat, first: bool)
      requires i < |comps| == |olds|
      ensures var c := comps[i];
        var p := ComponentSlot(s, st, c, StateNow(c, olds[i], changed), first);
        var next := ComponentRun(s, p.strip, comps, olds, if p.setTo.Some? then changed[c := p.setTo.value] else changed,
                                 i + 1, first && c == null);
        ComponentRun(s, st, comps, olds, changed, i, first) == Run(next.strip, p.drawings + next.drawings, next.changed)
    {
    }

    /** One turn of the component loop: the slot of comps[i], from strip st,
        with the rest of the run from index i as the specification. */
    method RunSlot(s: Settings, area: IconArea, comps: seq<Component?>, ghost olds: seq<bool>, ghost flags: seq<bool>,
                   ghost changed: map<Component?, bool>, i: nat, first: bool, ghost st: Strip)
      returns (nextFirst: bool, ghost nextChanged: map<Component?, bool>, ghost nextSt: Strip, ghost added: seq<Drawing>)
      requires i < |comps| && StripOf(area) == st
      requires StatesOf(comps, olds, flags) && Follows(comps, Flags(comps), flags, changed)
      requires forall x :: x in changed ==> IsComponentToggleable(x)
      modifies this`dragToggledObjects, this`dragToggleNewState, this`drawn, this`iconCache, this`defaultContent
      modifies gui, area, comps[i]
      ensures nextFirst == (first && comps[i] == null)
      ensures Follows(comps, Flags(comps), flags, nextChanged)
      ensures forall x :: x in nextChanged ==> IsComponentToggleable(x)
      ensures StripOf(area) == nextSt && drawn == old(drawn) + added
      ensures var next := ComponentRun(s, nextSt, comps, olds, nextChanged, i + 1, nextFirst);
        ComponentRun(s, st, comps, olds, changed, i, first) == Run(next.strip, added + next.drawings, next.changed)
      ensures SlotsOf(gui) == old(SlotsOf(gui))
    {
      var c := comps[i];
      assert IsComponentEnabled(c) == StateNow(c, olds[i], changed);
      ghost var p := ComponentSlot(s, st, c, StateNow(c, olds[i], changed), first);
      nextChanged := if p.setTo.Some? then changed[c := p.setTo.value] else changed;
      RunUnfold(s, st, comps, olds, changed, i, first);
      ghost var before := Flags(comps);
      nextFirst := DrawComponentSlot(s, area, c, first);
      ghost var after := Flags(comps);
      nextSt, added := p.strip, p.drawings;
      FollowsAfterSlot(comps, flags, changed, c, p.setTo, nextChanged, before, after);
      ComponentSlotMeaning(s, st, c, StateNow(c, olds[i], changed), first);
    }

    /** The icons of one row: the GameObject toggle when shown, then one slot
        per component that passes the filter, right to left; the row's slot
        count raises the frame's maximum. */
    method DrawRowIcons(s: Settings, go: GameObject, baseRect: Rect) returns (count: nat)
      modifies this`dragToggledObjects, this`dragToggleNewState, this`drawn, this`iconCache, this`defaultContent
      modifies this`maxIconCount, gui, go`activeSelf, go.components
      ensures var r := RowIcons(s, old(GlobalsOf()), go, old(go.activeSelf), old(EnabledOf(go.components)), baseRect);
        && count == r.count && GlobalsOf() == r.g && drawn == old(drawn) + r.drawings
        && go.activeSelf == r.goSetTo.GetOr(old(go.activeSelf))
        && Follows(go.components, Flags(go.components), old(Flags(go.components)), r.changed)
      ensures maxIconCount == Max(old(maxIconCount), count)
      ensures Untouched() == old(Untouched())
      ensures SlotsOf(gui) == old(SlotsOf(gui))
    {
      var area := new IconArea(baseRect);
      DrawRowSlots(s, go, area);
      count := area.count;
      RecordIconCount(count);
    }

    /** The slots of a row on `area`, as IconsFrom says. */
    method DrawRowSlots(s: Settings, go: GameObject, area: IconArea)
      modifies this`dragToggledObjects, this`dragToggleNewState, this`drawn, this`iconCache, this`defaultContent
      modifies gui, go`activeSelf, go.components, area
      ensures var r := IconsFrom(s, old(StripOf(area)), go, old(go.activeSelf), old(EnabledOf(go.components)));
        && area.count == r.count && GlobalsOf() == r.g && drawn == old(drawn) + r.drawings
        && go.activeSelf == r.goSetTo.GetOr(old(go.activeSelf))
        && Follows(go.components, Flags(go.components), old(Flags(go.components)), r.changed)
      ensures Untouched() == old(Untouched())
      ensures SlotsOf(gui) == old(SlotsOf(gui))
    {
      ghost var active, olds := go.activeSelf, EnabledOf(go.components);
      ghost var p := GameObjectSlot(s, StripOf(area), go, active);
      DrawGameObjectSlot(s, go, area);
      assert EnabledOf(go.components) == olds;
      DrawComponentIcons(s, go.components, area);
      AppendAssoc(old(drawn), p.drawings, ComponentRun(s, p.strip, go.components, olds, map[], 0, true).drawings);
    }

    /** The GameObject's slot, claimed first when its icon is shown. */
    method DrawGameObjectSlot(s: Settings, go: GameObject, area: IconArea)
      modifies this`dragToggledObjects, this`dragToggleNewState, this`drawn, gui, go`activeSelf, area
      ensures var r := GameObjectSlot(s, old(StripOf(area)), go, old(go.activeSelf));
        && StripOf(area) == r.strip && drawn == old(drawn) + r.drawings
        && go.activeSelf == r.setTo.GetOr(old(go.activeSelf))
      ensures SlotsOf(gui) == old(SlotsOf(gui))
    {
      if s.Bool(ShowGameObjectIcon) {
        var ok, withBackground := CanDrawIcon(s, area);
        if ok {
          area.iconRect := DrawGameObjectToggle(area.iconRect, go, withBackground, s);
        }
      }
    }

    /** The end of a row's icons: the running maximum of the frame. */
    method RecordIconCount(count: nat)
      modifies this`maxIconCount
      ensures Counters() == RowEndStep(old(Counters()), count)
      ensures maxIconCount == Max(old(maxIconCount), count)
    {
      if count > maxIconCount {
        maxIconCount := count;
      }
    }

    /** One label, drawn on a dark background in light grey text; the
        colour slots are as before. */
    method DrawLabel(rect: Rect, text: string)
      modifies gui, this`drawn
      ensures drawn == old(drawn) + [LabelDrawing(rect, text)]
      ensures SlotsOf(gui) == old(SlotsOf(gui))
      ensures gui.hotControl == old(gui.hotControl) && gui.currentEvent == old(gui.currentEvent)
    {
      ghost var g0 := SlotsOf(gui);
      var background := new ColoredScope.Always(Bg, LabelBackground, gui);
      ghost var g1 := SlotsOf(gui);
      var foreground := new ColoredScope.Always(Fg, LabelForeground, gui);
      drawn := drawn + [LabelDrawn(rect, text, gui.backgroundColor, gui.contentColor)];
      foreground.Dispose(gui);
      RestoreUndoesPaint(Fg, LabelForeground, g1);
      background.Dispose(gui);
      RestoreUndoesPaint(Bg, LabelBackground, g0);
    }

    /** The layer label: its slot is taken from the right end of the area
        whether or not the label shows. */
    method DrawLayerLabel(s: Settings, go: GameObject, area: Rect) returns (rest: Rect)
      requires s.GetLabelsEnabled()
      modifies gui, this`drawn
      ensures var cut := LabelSlot(area, s.Number(LayerLabelWidth));
        var shown := ShowsLayer(s, go.layer) && cut.slice.width > 10;
        && rest == cut.rest
        && drawn == old(drawn) + (if shown then [LabelDrawing(cut.slice, LayerText(s, go.layer, go.layerName))] else [])
        && gui.currentEvent == if shown && s.Bool(EnableLabelContextClick)
                               then AfterClick(old(gui.currentEvent), cut.slice, 1) else old(gui.currentEvent)
      ensures SlotsOf(gui) == old(SlotsOf(gui)) && gui.hotControl == old(gui.hotControl)
    {
      rest := area;
      if s.Bool(LayerLabelEnabled) && (s.Bool(DisplayDefaultLayerLabel) || go.layer != 0) {
        var maxWidth := rest.width;
        var layerLabelWidth := s.Number(LayerLabelWidth);
        var cut := UseRectEnd(rest, layerLabelWidth);
        rest := cut.rest;
        var layerRect := cut.slice.(width := Clamp(cut.slice.width, 0, Max(0, maxWidth)));
        layerRect := layerRect.(x := layerRect.x + layerLabelWidth - layerRect.width);
        if layerRect.width > 10 {
          DrawLabel(layerRect, LayerText(s, go.layer, go.layerName));
          if s.Bool(EnableLabelContextClick) {
            var _ := RightClicked(layerRect);
          }
        }
      } else {
        rest := UseRectEnd(rest, s.Number(LayerLabelWidth)).rest;
      }
    }

    /** The tag label, 18 units left of the layer slot. */
    method DrawTagLabel(s: Settings, go: GameObject, area: Rect)
      requires s.GetLabelsEnabled()
      modifies gui, this`drawn
      ensures var cut := LabelSlot(UseRectEnd(area, 18).rest, s.Number(TagLabelWidth));
        var shown := ShowsTag(s, go.tag == "Untagged") && cut.slice.width > 10;
        && drawn == old(drawn) + (if shown then [LabelDrawing(cut.slice, go.tag)] else [])
        && gui.currentEvent == if shown && s.Bool(EnableLabelContextClick)
                               then AfterClick(old(gui.currentEvent), cut.slice, 1) else old(gui.currentEvent)
      ensures SlotsOf(gui) == old(SlotsOf(gui)) && gui.hotControl == old(gui.hotControl)
    {
      if !s.Bool(TagLabelEnabled) || (!s.Bool(DisplayUntaggedLabel) && go.tag == "Untagged") {
        return;
      }
      var rest := UseRectEnd(area, 18).rest;
      var maxWidth := rest.width;
      var labelWidth := s.Number(TagLabelWidth);
      var cut := UseRectEnd(rest, labelWidth);
      var tagRect := cut.slice.(width := Clamp(cut.slice.width, 0, Max(0, maxWidth)));
      if !(tagRect.width > 10) {
        return;
      }
      tagRect := tagRect.(x := tagRect.x + labelWidth - tagRect.width);
      DrawLabel(tagRect, go.tag);
      if !s.Bool(EnableLabelContextClick) {
        return;
      }
      var _ := RightClicked(tagRect);
    }

    /** The layer and tag labels of one row, placed as LabelLayout says, with
        their right-click tests. */
    method DrawLabels(s: Settings, go: GameObject, baseRect: Rect)
      requires s.GetLabelsEnabled()
      modifies gui, this`drawn
      ensures var r := LabelLayout(s, LabelsArea(baseRect, lastMaxIconCount), go.layer, go.tag == "Untagged");
        && drawn == old(drawn) + LabelDrawings(s, r, go.layer, go.layerName, go.tag)
        && gui.currentEvent == LabelsEvent(s, r, old(gui.currentEvent))
      ensures SlotsOf(gui) == old(SlotsOf(gui)) && gui.hotControl == old(gui.hotControl)
    {
      var area := baseRect.(width := baseRect.width - 18 * (lastMaxIconCount + 1));
      area := DrawLayerLabel(s, go, area);
      DrawTagLabel(s, go, area);
    }

    /** Row shading and guide lines: the band fill when row colouring is on
        and this is a repaint, then the guide lines of a child object. */
    method DrawRowColors(s: Settings, item: Transform, rect: Rect)
      requires item.Valid()
      modifies this`drawn
      ensures drawn == old(drawn) + RowColorsDrawings(s, item, rect, gui.currentEvent.eventType == Repaint)
    {
      var g := GuideLines(item, s.Bool(GuideLinesEnabled));
      assert g.depth == item.depth;
      var lineRect := LineRect(rect, g.depth, g.hasChildren);
      var fill: seq<Drawing> := [];
      if s.GetRowColoringEnabled() && gui.currentEvent.eventType == Repaint {
        var backgroundRect := BackgroundRect(rect, g.depth, g.hasChildren);
        var band := RowBand(s, backgroundRect.y, true);
        if band.Some? {
          fill := [RowFill(backgroundRect, BandColor(s, band.value))];
        }
      }
      drawn := drawn + fill;
      if item.parent != null && s.Bool(GuideLinesEnabled) {
        drawn := drawn + [GuideLinesDrawn(lineRect, g.isLastChild, g.hasChildren, g.middleLines, s.ColorOf(GuideLinesColor))];
      }
    }

    /** The part of a row before its labels, as RowGraphics says. */
    method DrawRowGraphics(go: GameObject, rect: Rect, nameWidth: int, s: Settings)
      requires go.transform.Valid()
      modifies this`dragToggledObjects, this`dragToggleNewState, this`drawn, this`iconCache, this`defaultContent
      modifies this`maxIconCount, gui, go`activeSelf, go.components
      ensures var r := RowGraphics(s, go, rect, nameWidth, old(GlobalsOf()), old(go.activeSelf), old(EnabledOf(go.components)));
        && drawn == old(drawn) + r.drawings && GlobalsOf() == r.g
        && go.activeSelf == r.goSetTo.GetOr(old(go.activeSelf))
        && Follows(go.components, Flags(go.components), old(Flags(go.components)), r.changed)
        && maxIconCount == if r.iconCount.Some? then Max(old(maxIconCount), r.iconCount.value) else old(maxIconCount)
      ensures Untouched() == old(Untouched())
      ensures SlotsOf(gui) == old(SlotsOf(gui))
    {
      ghost var before, active, olds := GlobalsOf(), go.activeSelf, EnabledOf(go.components);
      ghost var colors: seq<Drawing> := [];
      if WillDrawColors(s) {
        DrawRowColors(s, go.transform, rect);
        colors := RowColorsDrawings(s, go.transform, rect, before.event.eventType == Repaint);
      }
      assert drawn == old(drawn) + colors;
      assert GlobalsOf() == before && go.activeSelf == active && EnabledOf(go.components) == olds;
      DrawRowIconsIfOn(go, rect, nameWidth, s);
      AppendAssoc(old(drawn), colors, RowIconsPart(s, go, rect, nameWidth, before, active, olds).drawings);
    }

    /** The icons of a row when icons are on, as RowIconsPart says. */
    method DrawRowIconsIfOn(go: GameObject, rect: Rect, nameWidth: int, s: Settings)
      modifies this`dragToggledObjects, this`dragToggleNewState, this`drawn, this`iconCache, this`defaultContent
      modifies this`maxIconCount, gui, go`activeSelf, go.components
      ensures var r := RowIconsPart(s, go, rect, nameWidth, old(GlobalsOf()), old(go.activeSelf), old(EnabledOf(go.components)));
        && drawn == old(drawn) + r.drawings && GlobalsOf() == r.g
        && go.activeSelf == r.goSetTo.GetOr(old(go.activeSelf))
        && Follows(go.components, Flags(go.components), old(Flags(go.components)), r.changed)
        && maxIconCount == if r.iconCount.Some? then Max(old(maxIconCount), r.iconCount.value) else old(maxIconCount)
      ensures Untouched() == old(Untouched())
      ensures SlotsOf(gui) == old(SlotsOf(gui))
    {
      if s.GetIconsEnabled() {
        var _ := DrawRowIcons(s, go, IconsBase(s, rect, nameWidth));
      }
    }

    /** What a row of a GameObject draws once the colour scopes are open:
        shading and guide lines, icons, labels, as RowEffect says; the colour
        slots are as before. */
    method DrawRow(go: GameObject, rect: Rect, nameWidth: int, s: Settings)
      requires go.transform.Valid()
      modifies this`dragToggledObjects, this`dragToggleNewState, this`drawn, this`iconCache, this`defaultContent
      modifies this`maxIconCount, gui, go`activeSelf, go.components
      ensures var r := RowEffect(s, go, rect, nameWidth, old(GlobalsOf()), lastMaxIconCount, old(go.activeSelf),
                                 old(EnabledOf(go.components)));
        && drawn == old(drawn) + r.drawings && GlobalsOf() == r.g
        && go.activeSelf == r.goSetTo.GetOr(old(go.activeSelf))
        && Follows(go.components, Flags(go.components), old(Flags(go.components)), r.changed)
        && maxIconCount == if r.iconCount.Some? then Max(old(maxIconCount), r.iconCount.value) else old(maxIconCount)
      ensures Untouched() == old(Untouched())
      ensures SlotsOf(gui) == old(SlotsOf(gui))
    {
      ghost var graphics := RowGraphics(s, go, rect, nameWidth, GlobalsOf(), go.activeSelf, EnabledOf(go.components)).drawings;
      DrawRowGraphics(go, rect, nameWidth, s);
      ghost var flags := Flags(go.components);
      DrawLabelsIfOn(s, go, rect, nameWidth);
      assert Flags(go.components) == flags;
      ghost var labels := LabelLayout(s, LabelsArea(IconsBase(s, rect, nameWidth), lastMaxIconCount), go.layer, go.tag == "Untagged");
      AppendAssoc(old(drawn), graphics, LabelDrawings(s, labels, go.layer, go.layerName, go.tag));
    }

    /** The labels of a row when labels are on, else nothing. */
    method DrawLabelsIfOn(s: Settings, go: GameObject, rect: Rect, nameWidth: int)
      modifies gui, this`drawn
      ensures var labels := LabelLayout(s, LabelsArea(IconsBase(s, rect, nameWidth), lastMaxIconCount), go.layer, go.tag == "Untagged");
        if s.GetLabelsEnabled() then
          drawn == old(drawn) + LabelDrawings(s, labels, go.layer, go.layerName, go.tag)
          && GlobalsOf() == old(GlobalsOf()).(event := LabelsEvent(s, labels, old(GlobalsOf()).event))
        else drawn == old(drawn) && GlobalsOf() == old(GlobalsOf())
      ensures SlotsOf(gui) == old(SlotsOf(gui))
    {
      if s.GetLabelsEnabled() {
        DrawLabels(s, go, IconsBase(s, rect, nameWidth));
      }
    }

    /** Disposes the previous row's scopes and opens this row's. */
    method RefreshColorScopes(s: Settings)
      requires Valid()
      modifies this`colorScope, this`colorScope2, this`colorScope3, gui
      ensures Valid()
      ensures SlotsOf(gui) == RowSlots(s, old(Pending(SlotsOf(gui))))
      ensures gui.hotControl == old(gui.hotControl) && gui.currentEvent == old(gui.currentEvent)
      ensures s.GetColorsEnabled() ==> Pending(SlotsOf(gui)) == old(Pending(SlotsOf(gui)))
      ensures !s.GetColorsEnabled() ==>
                colorScope == old(colorScope) && colorScope2 == old(colorScope2) && colorScope3 == old(colorScope3)
    {
      DisposeOfColorScopes();
      OpenColorScopes(s);
    }

    /** Two rows in a row with colours on: the second starts from the same
        slots as the first, so the misc colours never pile up. */
    method TwoRowsOfColors(s: Settings)
      requires Valid() && s.GetColorsEnabled()
      modifies this`colorScope, this`colorScope2, this`colorScope3, gui
      ensures Valid()
      ensures SlotsOf(gui) == RowSlots(s, old(Pending(SlotsOf(gui))))
    {
      RefreshColorScopes(s);
      ghost var first := SlotsOf(gui);
      RefreshColorScopes(s);
      assert SlotsOf(gui) == first;
    }

    /** The row callback. `go` is the row's object, null when the row's id
        is not a GameObject; `nameWidth` is the measured width of its name.
        The first row of a frame restarts the icon counters; the colour
        scopes of the previous row are disposed and, with colours on, new
        ones opened, so that the slots every row starts from are the ones
        the previous row's scopes give back with this row's misc colours
        applied. A row with neither colours nor icons to draw draws nothing,
        not even its labels; otherwise a GameObject's row does what
        RowEffect says, its labels placed by the maximum of the previous
        frame. */
    method OnHierarchyItemGUI(go: GameObject?, rect: Rect, nameWidth: int, s: Settings)
      requires Valid() && (go != null ==> go.transform.Valid())
      modifies this`ranOnceThisFrame, this`lastMaxIconCount, this`maxIconCount
      modifies this`colorScope, this`colorScope2, this`colorScope3, gui
      modifies this`dragToggledObjects, this`dragToggleNewState, this`drawn, this`iconCache, this`defaultContent
      modifies if go != null then {go} else {}, if go != null then go.components else []
      ensures Valid()
      ensures var start := RowStartStep(old(Counters()));
        && ranOnceThisFrame && lastMaxIconCount == start.lastMax && start.max <= maxIconCount
        && (go == null || !s.GetIconsEnabled() ==> Counters() == start)
      ensures SlotsOf(gui) == RowSlots(s, old(Pending(SlotsOf(gui))))
      ensures go == null || (!WillDrawColors(s) && !s.GetIconsEnabled()) ==>
                drawn == old(drawn) && GlobalsOf() == old(GlobalsOf())
      ensures go != null && (WillDrawColors(s) || s.GetIconsEnabled()) ==>
                var r := RowEffect(s, go, rect, nameWidth, old(GlobalsOf()), lastMaxIconCount,
                                   old(go.activeSelf), old(EnabledOf(go.components)));
                && drawn == old(drawn) + r.drawings && GlobalsOf() == r.g
                && go.activeSelf == r.goSetTo.GetOr(old(go.activeSelf))
                && Follows(go.components, Flags(go.components), old(Flags(go.components)), r.changed)
                && (r.iconCount.Some? <==> s.GetIconsEnabled())
                && Counters() == (if r.iconCount.Some? then RowEndStep(RowStartStep(old(Counters())), r.iconCount.value)
                                  else RowStartStep(old(Counters())))
      ensures go != null && s.GetIconsEnabled() ==>
                Counters() == RowEndStep(RowStartStep(old(Counters())),
                                         (if s.Bool(ShowGameObjectIcon) then 1 else 0) + |Candidates(s, go.components, 0, true)|)
    {
      if go == null {
        BeginRow(s);
      } else {
        ghost var before, active := GlobalsOf(), go.activeSelf;
        ghost var olds, flags := EnabledOf(go.components), Flags(go.components);
        BeginRow(s);
        assert go.activeSelf == active && EnabledOf(go.components) == olds && Flags(go.components) == flags;
        DrawRowIfAny(go, rect, nameWidth, s, before, active, olds, flags);
      }
    }

    /** The start of the row callback: the frame's counters, then the
        colour scopes. */
    method BeginRow(s: Settings)
      requires Valid()
      modifies this`ranOnceThisFrame, this`lastMaxIconCount, this`maxIconCount
      modifies this`colorScope, this`colorScope2, this`colorScope3, gui
      ensures Valid() && Counters() == RowStartStep(old(Counters()))
      ensures SlotsOf(gui) == RowSlots(s, old(Pending(SlotsOf(gui))))
      ensures GlobalsOf() == old(GlobalsOf())
    {
      StartRow();
      RefreshColorScopes(s);
    }

    /** The part of the row callback after the colour scopes for a
        GameObject's row: nothing when there are neither colours nor icons to
        draw, else the row as DrawRow draws it. */
    method DrawRowIfAny(go: GameObject, rect: Rect, nameWidth: int, s: Settings, ghost before: Globals,
                        ghost active: bool, ghost olds: seq<bool>, ghost flags: seq<bool>)
      requires go.transform.Valid() && GlobalsOf() == before
      requires go.activeSelf == active && EnabledOf(go.components) == olds && Flags(go.components) == flags
      modifies this`dragToggledObjects, this`dragToggleNewState, this`drawn, this`iconCache, this`defaultContent
      modifies this`maxIconCount, gui, go`activeSelf, go.components
      ensures Untouched() == old(Untouched())
      ensures old(maxIconCount) <= maxIconCount && (!s.GetIconsEnabled() ==> maxIconCount == old(maxIconCount))
      ensures !WillDrawColors(s) && !s.GetIconsEnabled() ==> drawn == old(drawn) && GlobalsOf() == before
      ensures WillDrawColors(s) || s.GetIconsEnabled() ==>
                var r := RowEffect(s, go, rect, nameWidth, before, lastMaxIconCount, active, olds);
                && drawn == old(drawn) + r.drawings && GlobalsOf() == r.g
                && go.activeSelf == r.goSetTo.GetOr(active)
                && Follows(go.components, Flags(go.components), flags, r.changed)
                && maxIconCount == (if r.iconCount.Some? then Max(old(maxIconCount), r.iconCount.value) else old(maxIconCount))
                && (r.iconCount.Some? <==> s.GetIconsEnabled())
                && (s.GetIconsEnabled() ==>
                      r.iconCount.value == (if s.Bool(ShowGameObjectIcon) then 1 else 0) + |Candidates(s, go.components, 0, true)|)
      ensures SlotsOf(gui) == old(SlotsOf(gui))
    {
      if s.GetIconsEnabled() {
        RowIconsCount(s, before, go, active, olds, IconsBase(s, rect, nameWidth));
      }
      var willDrawColors := s.GetColorsEnabled() && (s.Bool(GuideLinesEnabled) || s.GetRowColoringEnabled());
      var willDrawIcons := s.GetIconsEnabled();
      if willDrawColors || willDrawIcons {
        DrawRow(go, rect, nameWidth, s);
      }
    }
  }
}
