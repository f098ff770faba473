/**
 The slice of the windowing layer's event stream that the input trackers read.
 Every event the trackers ignore collapses into one "other" constructor per level.
 */
module Events {
  import opened Wrappers

  /** Ordinal of a platform virtual key code. */
  type KeyCode = nat

  /** The platform reports auxiliary mouse buttons by a 16-bit unsigned number. */
  type U16 = n: int | 0 <= n < 0x1_0000

  datatype ElementState = Pressed | Released

  datatype MouseButton = Left | Right | Middle | Other(number: U16)

  /** Wheel motion: whole lines (two fields, in the platform's order) or pixels. */
  datatype ScrollDelta =
    | LineDelta(first: real, second: real)
    | PixelDelta(x: real, y: real)

  datatype WindowEvent =
    | KeyboardInput(state: ElementState, virtualKeycode: Option<KeyCode>)
    | CursorMoved(x: real, y: real)
    | MouseInput(state: ElementState, button: MouseButton)
    | MouseWheel(delta: ScrollDelta)
    | Focused(focused: bool)
    | OtherWindowEvent

  datatype DeviceEvent =
    | MouseMotion(dx: real, dy: real)
    | OtherDeviceEvent

  datatype Event =
    | Window(windowEvent: WindowEvent)
    | Device(deviceEvent: DeviceEvent)
    | OtherEvent
}
