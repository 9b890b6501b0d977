/**
 * The Unity values and globals the editor extension works with: colours,
 * textures, GUI contents, rectangles, input events and the GUI's global
 * state (the three colour slots, the hot control and the current event).
 * Coordinates are integers; the host's floating point is not modelled.
 */
module Engine {
  import opened Wrappers

  /** A colour; the model never computes with its components. */
  datatype Color = Color(r: real, g: real, b: real, a: real)

  const White := Color(1.0, 1.0, 1.0, 1.0)

  /** An image handle owned by the host. */
  datatype Texture = Texture(id: nat)

  /** A GUIContent: an optional image and a tooltip. */
  datatype Content = Content(image: Option<Texture>, tooltip: string)

  datatype Point = Point(x: int, y: int)

  /** A Unity Rect: position and size; xMax is x + width. */
  datatype Rect = Rect(x: int, y: int, width: int, height: int) {
    function XMax(): int { x + width }

    /** Rect.Contains: the lower edges are inside, the upper edges are not. */
    predicate Contains(p: Point) {
      x <= p.x < x + width && y <= p.y < y + height
    }
  }

  datatype EventType = MouseDown | MouseUp | MouseDrag | Repaint | Layout | Used | OtherEvent

  /** Event.current: its type, mouse button and pointer position. */
  datatype Event = Event(eventType: EventType, button: int, mousePosition: Point) {
    /** Event.Use(): the event is marked as consumed. */
    function Use(): (e: Event)
      ensures e.eventType == Used && e.button == button && e.mousePosition == mousePosition
    {
      this.(eventType := Used)
    }
  }

  /** The process-wide GUI globals: GUI.backgroundColor, GUI.contentColor,
      GUI.color, GUIUtility.hotControl and Event.current. */
  class Gui {
    var backgroundColor: Color
    var contentColor: Color
    var color: Color
    var hotControl: int
    var currentEvent: Event

    constructor (background: Color, content: Color, general: Color, hot: int, e: Event)
      ensures backgroundColor == background && contentColor == content && color == general
      ensures hotControl == hot && currentEvent == e
    {
      backgroundColor, contentColor, color := background, content, general;
      hotControl, currentEvent := hot, e;
    }
  }
}
