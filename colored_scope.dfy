/**
 * ColoredScope: a disposable scope that memorizes the three global GUI
 * colour slots, overwrites the slots its flag set selects, and on
 * disposal puts those slots (and only those) back.
 */
module ColoredScopes {
  import opened Engine

  /** The ColoringType flag enumeration, as its underlying bits. */
  type ColoringType = bv8

  const Bg: ColoringType := 1
  const Fg: ColoringType := 2
  const General: ColoringType := 4
  const All: ColoringType := 7

  /** Enum.HasFlag: every bit of the flag is set. */
  predicate HasFlag(t: ColoringType, flag: ColoringType) {
    (t & flag) == flag
  }

  lemma AllIsUnionOfFlags()
    ensures All == Bg | Fg | General
    ensures HasFlag(All, Bg) && HasFlag(All, Fg) && HasFlag(All, General)
  {
  }

  /** The three global colour slots: background, content and general colour. */
  datatype Slots = Slots(background: Color, content: Color, general: Color)

  function SlotsOf(gui: Gui): Slots
    reads gui
  {
    Slots(gui.backgroundColor, gui.contentColor, gui.color)
  }

  /** The slots after SetColors(color) in a scope of type t. */
  function Paint(t: ColoringType, color: Color, g: Slots): Slots {
    Slots(if HasFlag(t, Bg) then color else g.background,
          if HasFlag(t, Fg) then color else g.content,
          if HasFlag(t, General) then color else g.general)
  }

  /** The slots after Dispose of a scope of type t that memorized `saved`. */
  function Restore(t: ColoringType, saved: Slots, g: Slots): Slots {
    Slots(if HasFlag(t, Bg) then saved.background else g.background,
          if HasFlag(t, Fg) then saved.content else g.content,
          if HasFlag(t, General) then saved.general else g.general)
  }

  /** Disposing a scope right after creating it gives back the slots it found. */
  lemma RestoreUndoesPaint(t: ColoringType, color: Color, g: Slots)
    ensures Restore(t, g, Paint(t, color, g)) == g
  {
  }

  /** One scope as a caller opens it: its flags, whether it is active, its colour. */
  datatype ScopeRequest = ScopeRequest(coloringType: ColoringType, active: bool, color: Color)

  function Enter(req: ScopeRequest, g: Slots): Slots {
    if req.active then Paint(req.coloringType, req.color, g) else g
  }

  function Leave(req: ScopeRequest, saved: Slots, g: Slots): Slots {
    if req.active then Restore(req.coloringType, saved, g) else g
  }

  /** Open every scope of `reqs` in order, then dispose them in reverse order. */
  function Nested(reqs: seq<ScopeRequest>, g: Slots): Slots
    decreases |reqs|
  {
    if reqs == [] then g
    else Leave(reqs[0], g, Nested(reqs[1..], Enter(reqs[0], g)))
  }

  /** Scopes disposed in reverse order of construction leave all three slots
      as they were before the first scope. */
  lemma {:induction false} NestedScopesRestore(reqs: seq<ScopeRequest>, g: Slots)
    ensures Nested(reqs, g) == g
    decreases |reqs|
  {
    if reqs != [] {
      NestedScopesRestore(reqs[1..], Enter(reqs[0], g));
    }
  }

  class ColoredScope {
    const ogColors: array<Color>
    const coloringType: ColoringType
    var changedAnyColor: bool

    ghost predicate Valid() {
      ogColors.Length == 3
    }

    /** The colours memorized when the scope set its colours. */
    function Memorized(): Slots
      reads this, ogColors
      requires Valid()
    {
      Slots(ogColors[0], ogColors[1], ogColors[2])
    }

    method MemorizeColor(gui: Gui)
      requires Valid()
      modifies this, ogColors
      ensures Valid() && changedAnyColor && Memorized() == SlotsOf(gui)
    {
      changedAnyColor := true;
      ogColors[0] := gui.backgroundColor;
      ogColors[1] := gui.contentColor;
      ogColors[2] := gui.color;
    }

    method SetColors(color: Color, gui: Gui)
      requires Valid()
      modifies this, ogColors, gui
      ensures Valid() && changedAnyColor
      ensures Memorized() == old(SlotsOf(gui))
      ensures SlotsOf(gui) == Paint(coloringType, color, old(SlotsOf(gui)))
      ensures gui.hotControl == old(gui.hotControl) && gui.currentEvent == old(gui.currentEvent)
    {
      MemorizeColor(gui);
      if HasFlag(coloringType, Bg) {
        gui.backgroundColor := color;
      }
      if HasFlag(coloringType, Fg) {
        gui.contentColor := color;
      }
      if HasFlag(coloringType, General) {
        gui.color := color;
      }
    }

    /** ColoredScope(type, color): always sets the colours. */
    constructor Always(t: ColoringType, color: Color, gui: Gui)
      modifies gui
      ensures Valid() && fresh(ogColors) && coloringType == t && changedAnyColor
      ensures Memorized() == old(SlotsOf(gui))
      ensures SlotsOf(gui) == Paint(t, color, old(SlotsOf(gui)))
      ensures gui.hotControl == old(gui.hotControl) && gui.currentEvent == old(gui.currentEvent)
    {
      ogColors := new Color[3];
      coloringType := t;
      new;
      SetColors(color, gui);
    }

    /** ColoredScope(type, isActive, color): sets the colours only when active;
        an inactive scope touches no slot. */
    constructor IfActive(t: ColoringType, isActive: bool, color: Color, gui: Gui)
      modifies gui
      ensures Valid() && fresh(ogColors) && coloringType == t && changedAnyColor == isActive
      ensures isActive ==> Memorized() == old(SlotsOf(gui))
      ensures SlotsOf(gui) == Enter(ScopeRequest(t, isActive, color), old(SlotsOf(gui)))
      ensures gui.hotControl == old(gui.hotControl) && gui.currentEvent == old(gui.currentEvent)
    {
      ogColors := new Color[3];
      coloringType := t;
      changedAnyColor := false;
      new;
      if isActive {
        SetColors(color, gui);
      }
    }

    /** ColoredScope(type, isActive, active, inactive): always sets the colours,
        to `active` when isActive and to `inactive` otherwise. */
    constructor Choose(t: ColoringType, isActive: bool, active: Color, inactive: Color, gui: Gui)
      modifies gui
      ensures Valid() && fresh(ogColors) && coloringType == t && changedAnyColor
      ensures Memorized() == old(SlotsOf(gui))
      ensures SlotsOf(gui) == Paint(t, if isActive then active else inactive, old(SlotsOf(gui)))
      ensures gui.hotControl == old(gui.hotControl) && gui.currentEvent == old(gui.currentEvent)
    {
      ogColors := new Color[3];
      coloringType := t;
      new;
      SetColors(if isActive then active else inactive, gui);
    }

    /** Dispose: puts the flagged slots back to the memorized colours and leaves
        the others alone; a scope that never set colours does nothing. */
    method Dispose(gui: Gui)
      requires Valid()
      modifies gui
      ensures changedAnyColor ==> SlotsOf(gui) == Restore(coloringType, Memorized(), old(SlotsOf(gui)))
      ensures !changedAnyColor ==> SlotsOf(gui) == old(SlotsOf(gui))
      ensures gui.hotControl == old(gui.hotControl) && gui.currentEvent == old(gui.currentEvent)
    {
      if !changedAnyColor {
        return;
      }
      if HasFlag(coloringType, Bg) {
        gui.backgroundColor := ogColors[0];
      }
      if HasFlag(coloringType, Fg) {
        gui.contentColor := ogColors[1];
      }
      if HasFlag(coloringType, General) {
        gui.color := ogColors[2];
      }
    }
  }

  /** Two scopes opened one inside the other and disposed innermost first
      leave the global slots as they found them. */
  method TwoNestedScopes(gui: Gui, outer: ColoringType, c1: Color, inner: ColoringType, c2: Color)
    modifies gui
    ensures SlotsOf(gui) == old(SlotsOf(gui))
  {
    var a := new ColoredScope.Always(outer, c1, gui);
    var b := new ColoredScope.Always(inner, c2, gui);
    b.Dispose(gui);
    a.Dispose(gui);
  }
}
