/**
 * The events of tktui/events.py: a position, a stop flag that only ever goes
 * from false to true, the widget the event is being delivered to, and the
 * mouse button state or the key code.
 */
module Events {
  import opened Tree

  /** What distinguishes a MouseEvent from a KeyEvent. */
  datatype EventKind = Mouse(bstate: nat) | Key(key: int)

  class Event {
    const x: int
    const y: int
    const kind: EventKind
    var stopPropagation: bool
    /** The `widget` property; null until first set (reading it before raises in the source). */
    var widget: Widget?

    /** `MouseEvent(x, y, bstate)`. */
    constructor MouseEvent(x: int, y: int, bstate: nat)
      ensures this.x == x && this.y == y && kind == Mouse(bstate)
      ensures !stopPropagation && widget == null
    {
      this.x, this.y, kind := x, y, Mouse(bstate);
      stopPropagation, widget := false, null;
    }

    /** `KeyEvent(x, y, key)`. */
    constructor KeyEvent(x: int, y: int, key: int)
      ensures this.x == x && this.y == y && kind == Key(key)
      ensures !stopPropagation && widget == null
    {
      this.x, this.y, kind := x, y, Key(key);
      stopPropagation, widget := false, null;
    }

    /** `stop()`: sets the flag; stopping twice is the same as once. */
    method Stop()
      modifies this`stopPropagation
      ensures stopPropagation
    {
      stopPropagation := true;
    }

    /** The `widget` setter. */
    method SetWidget(w: Widget)
      modifies this`widget
      ensures widget == w
    {
      widget := w;
    }
  }
}
