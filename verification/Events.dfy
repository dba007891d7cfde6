/** The platform-neutral input event every component exchanges. */
module Events {
  import opened Basics

  type HidUsage = x: int | 0 <= x < 0x1_0000

  datatype MouseButton = LeftButton | RightButton | MiddleButton | BackButton | ForwardButton

  datatype InputEvent =
    | Key(usage: HidUsage, pressed: bool, again: bool)
    | MouseMove(dx: i32, dy: i32)
    | Button(button: MouseButton, pressed: bool)
    | Wheel(detentsX: i16, detentsY: i16)
    | SmoothWheel(scrollX: i32, scrollY: i32)
    | Pinch(delta: i32)
    | PinchEnd
}
