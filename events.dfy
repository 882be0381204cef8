/**
 * The shapes of the windowing library's events that the clock inspects, and the
 * opaque payloads that travel between its two threads.
 */
module WinitEvents {
  import opened Wrappers

  /** Instants are milliseconds on a monotonic clock; durations are non-negative. */
  type Instant = int

  /** `later.duration_since(earlier)`, saturating at zero. */
  function Since(later: Instant, earlier: Instant): (d: nat)
    ensures earlier <= later ==> earlier + d == later
    ensures later < earlier ==> d == 0
  {
    if earlier <= later then later - earlier else 0
  }

  datatype MouseButton = Left | Right | Middle | OtherButton(code: nat)

  datatype ElementState = Pressed | Released

  datatype VirtualKeyCode = Escape | F | OtherKey(code: nat)

  /** The `WindowEvent` variants that the clock matches on; everything else is `OtherWindowEvent`. */
  datatype WindowEvent =
    | MouseInput(button: MouseButton, state: ElementState)
    | KeyboardInput(key: Option<VirtualKeyCode>, keyState: ElementState)
    | CloseRequested
    | Resized
    | OtherWindowEvent

  datatype Event =
    | Window(windowEvent: WindowEvent)
    | Awakened
    | OtherEvent

  /** A raw event together with the instant at which the clock handled it. */
  datatype TimedEvent = TimedEvent(at: Instant, event: Event)

  /**
   * A conrod input event. `Redraw` is the only one the clock builds itself;
   * every other input comes out of the library's event conversion, which is
   * opaque here and identified only by a code.
   */
  datatype Input = Redraw | Converted(code: nat)

  /** An owned list of render primitives, identified only by the frame number. */
  datatype Frame = Frame(id: nat)
}
