/**
 * The drag-toggle gesture on its own: a left click on an icon toggles its
 * object and starts a gesture with the opposite of the object's state as
 * target; while the hot control is held, every icon the pointer passes
 * over is set to the target, each object at most once.
 */
module DragToggle {
  import opened Wrappers

  /** DragToggledObjects, _dragToggleNewState, and whether the hot control
      is the drag-toggle one. */
  datatype Drag = Drag(visited: set<object>, target: bool, hot: bool)

  /** One icon toggle drawn: its object, the object's state, whether it can
      be toggled, whether this event is a left click on it, and whether the
      pointer is over it in an event other than Layout. */
  datatype Visit = Visit(item: object, state: bool, toggleable: bool, clicked: bool, hovering: bool)

  /** The new gesture state and the state the object is set to, if any. */
  datatype Outcome = Outcome(drag: Drag, setTo: Option<bool>)

  function Step(d: Drag, v: Visit, enableDragToggle: bool): (r: Outcome)
    ensures r.setTo.Some? ==> v.toggleable
    ensures v.toggleable && v.clicked ==>
              r == Outcome(Drag({v.item}, !v.state, enableDragToggle || d.hot), Some(!v.state))
    ensures !v.clicked ==>
              (r.setTo.Some? <==> v.toggleable && d.hot && v.hovering && v.item !in d.visited)
    ensures !v.clicked && r.setTo.Some? ==>
              r.setTo.value == d.target && r.drag == d.(visited := d.visited + {v.item})
    ensures r.setTo.None? ==> r.drag == d
  {
    if !v.toggleable then Outcome(d, None)
    else if v.clicked then
      var started := Drag({}, !v.state, enableDragToggle || d.hot);
      Outcome(started.(visited := started.visited + {v.item}), Some(started.target))
    else if d.hot && v.hovering && v.item !in d.visited then
      Outcome(d.(visited := d.visited + {v.item}), Some(d.target))
    else Outcome(d, None)
  }

  /** An object changed by a visit and the state it was set to. */
  datatype Toggle = Toggle(item: object, state: bool)

  /** The gesture state after a sequence of visits. */
  function GestureEnd(d: Drag, visits: seq<Visit>, enableDragToggle: bool): Drag
    decreases |visits|
  {
    if visits == [] then d
    else GestureEnd(Step(d, visits[0], enableDragToggle).drag, visits[1..], enableDragToggle)
  }

  /** The objects changed by a sequence of visits, in order. */
  function Toggles(d: Drag, visits: seq<Visit>, enableDragToggle: bool): seq<Toggle>
    decreases |visits|
  {
    if visits == [] then []
    else
      var o := Step(d, visits[0], enableDragToggle);
      (if o.setTo.Some? then [Toggle(visits[0].item, o.setTo.value)] else [])
        + Toggles(o.drag, visits[1..], enableDragToggle)
  }

  predicate NoClicks(visits: seq<Visit>) {
    forall k :: 0 <= k < |visits| ==> !visits[k].clicked
  }

  lemma NoClicksTail(visits: seq<Visit>)
    requires visits != [] && NoClicks(visits)
    ensures !visits[0].clicked && NoClicks(visits[1..])
  {
    forall k | 0 <= k < |visits[1..]| ensures !visits[1..][k].clicked {
      assert visits[1..][k] == visits[k + 1];
    }
  }

  function ItemsOf(toggles: seq<Toggle>): set<object> {
    set a | 0 <= a < |toggles| :: toggles[a].item
  }

  /** Every toggle sets its object to the target, and none of the objects
      had been visited. */
  predicate ToTargetOnce(toggles: seq<Toggle>, d: Drag) {
    forall a :: 0 <= a < |toggles| ==> toggles[a].item !in d.visited && toggles[a].state == d.target
  }

  /** No object occurs twice. */
  predicate DistinctItems(toggles: seq<Toggle>) {
    forall a, b :: 0 <= a < b < |toggles| ==> toggles[a].item != toggles[b].item
  }

  /** The first visit of a sequence: its step and the toggles it adds in front. */
  lemma {:induction false} UnfoldGesture(d: Drag, visits: seq<Visit>, enableDragToggle: bool)
    requires visits != []
    ensures var o := Step(d, visits[0], enableDragToggle);
      && GestureEnd(d, visits, enableDragToggle) == GestureEnd(o.drag, visits[1..], enableDragToggle)
      && Toggles(d, visits, enableDragToggle)
         == (if o.setTo.Some? then [Toggle(visits[0].item, o.setTo.value)] else [])
            + Toggles(o.drag, visits[1..], enableDragToggle)
  {
  }

  lemma ItemsOfConcat(head: seq<Toggle>, rest: seq<Toggle>)
    ensures ItemsOf(head + rest) == ItemsOf(head) + ItemsOf(rest)
  {
    var toggles := head + rest;
    forall x | x in ItemsOf(toggles) ensures x in ItemsOf(head) + ItemsOf(rest) {
      var a :| 0 <= a < |toggles| && toggles[a].item == x;
      if a >= |head| {
        assert toggles[a] == rest[a - |head|];
      } else {
        assert toggles[a] == head[a];
      }
    }
    forall x | x in ItemsOf(rest) ensures x in ItemsOf(toggles) {
      var a :| 0 <= a < |rest| && rest[a].item == x;
      assert toggles[a + |head|] == rest[a];
    }
    forall x | x in ItemsOf(head) ensures x in ItemsOf(toggles) {
      var a :| 0 <= a < |head| && head[a].item == x;
      assert toggles[a] == head[a];
    }
  }

  /** Within a gesture the target and the hot control stay, and the visited
      set grows by exactly the toggled objects. */
  lemma {:induction false} GestureEndVisited(d: Drag, visits: seq<Visit>, enableDragToggle: bool)
    requires NoClicks(visits)
    ensures GestureEnd(d, visits, enableDragToggle).target == d.target
    ensures GestureEnd(d, visits, enableDragToggle).hot == d.hot
    ensures GestureEnd(d, visits, enableDragToggle).visited
            == d.visited + ItemsOf(Toggles(d, visits, enableDragToggle))
    decreases |visits|
  {
    if visits != [] {
      NoClicksTail(visits);
      UnfoldGesture(d, visits, enableDragToggle);
      var o := Step(d, visits[0], enableDragToggle);
      GestureEndVisited(o.drag, visits[1..], enableDragToggle);
      var head := if o.setTo.Some? then [Toggle(visits[0].item, o.setTo.value)] else [];
      ItemsOfConcat(head, Toggles(o.drag, visits[1..], enableDragToggle));
      assert ItemsOf(head) == if o.setTo.Some? then {visits[0].item} else {} by {
        if o.setTo.Some? {
          assert head[0].item == visits[0].item;
        }
      }
    }
  }

  /** Every object toggled during a gesture is set to the target and was not
      visited before the gesture reached it. */
  lemma {:induction false} GestureTogglesToTarget(d: Drag, visits: seq<Visit>, enableDragToggle: bool)
    requires NoClicks(visits)
    ensures ToTargetOnce(Toggles(d, visits, enableDragToggle), d)
    decreases |visits|
  {
    if visits != [] {
      NoClicksTail(visits);
      UnfoldGesture(d, visits, enableDragToggle);
      var o := Step(d, visits[0], enableDragToggle);
      GestureTogglesToTarget(o.drag, visits[1..], enableDragToggle);
      var rest := Toggles(o.drag, visits[1..], enableDragToggle);
      var head := if o.setTo.Some? then [Toggle(visits[0].item, o.setTo.value)] else [];
      var toggles := head + rest;
      assert d.visited <= o.drag.visited && o.drag.target == d.target;
      forall a | 0 <= a < |toggles| ensures toggles[a].item !in d.visited && toggles[a].state == d.target {
        if a >= |head| {
          assert toggles[a] == rest[a - |head|];
        } else {
          assert toggles[a] == head[0];
        }
      }
    }
  }

  /** Within a gesture no object is toggled twice. */
  lemma {:induction false} AtMostOncePerGesture(d: Drag, visits: seq<Visit>, enableDragToggle: bool)
    requires NoClicks(visits)
    ensures DistinctItems(Toggles(d, visits, enableDragToggle))
    decreases |visits|
  {
    if visits != [] {
      NoClicksTail(visits);
      UnfoldGesture(d, visits, enableDragToggle);
      var o := Step(d, visits[0], enableDragToggle);
      AtMostOncePerGesture(o.drag, visits[1..], enableDragToggle);
      GestureTogglesToTarget(o.drag, visits[1..], enableDragToggle);
      var rest := Toggles(o.drag, visits[1..], enableDragToggle);
      var head := if o.setTo.Some? then [Toggle(visits[0].item, o.setTo.value)] else [];
      var toggles := head + rest;
      forall a, b | 0 <= a < b < |toggles| ensures toggles[a].item != toggles[b].item {
        assert toggles[b] == rest[b - |head|];
        if a < |head| {
          assert toggles[a] == head[0];
          assert visits[0].item in o.drag.visited;
        } else {
          assert toggles[a] == rest[a - |head|];
        }
      }
    }
  }

  /** Without the hot control, hovering toggles nothing. */
  lemma {:induction false} NoHotControlNoDrag(d: Drag, visits: seq<Visit>, enableDragToggle: bool)
    requires NoClicks(visits) && !d.hot
    ensures Toggles(d, visits, enableDragToggle) == []
    decreases |visits|
  {
    if visits != [] {
      NoClicksTail(visits);
      NoHotControlNoDrag(d, visits[1..], enableDragToggle);
    }
  }

  /** With drag toggling off and no gesture under way, a click toggles only
      the clicked object and the pointer passing over others toggles none. */
  lemma ClickWithoutDragToggle(d: Drag, click: Visit, visits: seq<Visit>)
    requires !d.hot && click.toggleable && click.clicked && NoClicks(visits)
    ensures var o := Step(d, click, false);
      o.setTo == Some(!click.state) && Toggles(o.drag, visits, false) == []
  {
    NoHotControlNoDrag(Step(d, click, false).drag, visits, false);
  }

  /** A click with drag toggling on starts a gesture in which each later
      object is set to the clicked object's new state, never the clicked
      object again. */
  lemma ClickStartsGesture(d: Drag, click: Visit, visits: seq<Visit>)
    requires click.toggleable && click.clicked && NoClicks(visits)
    ensures var o := Step(d, click, true);
      && o.drag.hot && o.drag.target == !click.state && o.drag.visited == {click.item}
      && ToTargetOnce(Toggles(o.drag, visits, true), o.drag)
  {
    GestureTogglesToTarget(Step(d, click, true).drag, visits, true);
  }
}
