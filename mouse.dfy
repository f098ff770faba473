/**
 Mouse tracker: ten button slots with level and edge flags, the cursor position, and the
 motion and wheel amounts accumulated since the last frame reset.
 */
module MouseIo {
  import opened Wrappers
  import opened Events

  /** Number of button slots; button numbers from 10 up are dropped. */
  const Buttons: nat := 10

  const I32Min: int := -0x8000_0000
  const I32Max: int := 0x7FFF_FFFF

  /**
   A 64-bit float converted with Rust's `as i32`: truncated toward zero and saturated at the
   bounds of i32 (not-a-number is not a value of `real`).
   */
  function AsI32(x: real): (r: int)
    ensures I32Min <= r <= I32Max
    ensures x >= 0.0 ==> r >= 0 && (x < I32Max as real ==> r as real <= x < r as real + 1.0)
    ensures x <= 0.0 ==> r <= 0 && (x > I32Min as real ==> r as real - 1.0 < x <= r as real)
    ensures x >= I32Max as real ==> r == I32Max
    ensures x <= I32Min as real ==> r == I32Min
  {
    if x >= I32Max as real then I32Max
    else if x <= I32Min as real then I32Min
    else if x >= 0.0 then x.Floor
    else -((-x).Floor)
  }

  /** Slot of a platform button: left, middle and right are 0, 1, 2; other numbers map to themselves up to 9. */
  function ButtonIndex(button: MouseButton): (r: Option<nat>)
    ensures r.Some? ==> r.value < Buttons
    ensures r.None? <==> button.Other? && button.number > 9
    ensures button.Other? && button.number <= 9 ==> r == Some(button.number as nat)
    ensures button == Left ==> r == Some(0)
    ensures button == Middle ==> r == Some(1)
    ensures button == Right ==> r == Some(2)
  {
    match button
    case Left => Some(0)
    case Middle => Some(1)
    case Right => Some(2)
    case Other(n) => if n > 9 then None else Some(n as nat)
  }

  /** The slot and new state carried by a button event whose button has a slot. */
  function ButtonTransition(e: Event): (t: Option<(nat, ElementState)>)
    ensures t.Some? ==> t.value.0 < Buttons
  {
    match e
    case Window(MouseInput(state, button)) =>
      (match ButtonIndex(button)
       case None => None
       case Some(b) => Some((b, state)))
    case _ => None
  }

  /** The value held by a mouse tracker. */
  datatype MouseState = MouseState(
    thisFrame: seq<bool>,
    pressed: seq<bool>,
    pos: (int, int),
    delta: (real, real),
    wheel: (real, real),
    focused: bool)
  {
    predicate Valid() {
      |thisFrame| == Buttons && |pressed| == Buttons
    }

    predicate IsPressed(button: nat)
      requires Valid() && button < Buttons
    {
      pressed[button]
    }

    predicate PressedThisFrame(button: nat)
      requires Valid() && button < Buttons
      ensures PressedThisFrame(button) <==> IsPressed(button) && thisFrame[button]
    {
      pressed[button] && thisFrame[button]
    }

    predicate ReleasedThisFrame(button: nat)
      requires Valid() && button < Buttons
      ensures ReleasedThisFrame(button) <==> !IsPressed(button) && thisFrame[button]
      ensures ReleasedThisFrame(button) ==> !PressedThisFrame(button)
    {
      !pressed[button] && thisFrame[button]
    }

    /** Both flags of slot `button` agree here and in `other`. */
    predicate SameSlot(other: MouseState, button: nat)
      requires Valid() && other.Valid() && button < Buttons
    {
      pressed[button] == other.pressed[button] && thisFrame[button] == other.thisFrame[button]
    }

    /** Position, accumulators and focus agree here and in `other`. */
    predicate SameExceptButtons(other: MouseState) {
      pos == other.pos && delta == other.delta && wheel == other.wheel && focused == other.focused
    }

    function PressButton(button: nat): (r: MouseState)
      requires Valid() && button < Buttons
      ensures r.Valid() && r.IsPressed(button) && r.PressedThisFrame(button)
      ensures forall b :: 0 <= b < Buttons && b != button ==> r.SameSlot(this, b)
      ensures r.SameExceptButtons(this)
    {
      this.(thisFrame := thisFrame[button := true], pressed := pressed[button := true])
    }

    function ReleaseButton(button: nat): (r: MouseState)
      requires Valid() && button < Buttons
      ensures r.Valid() && !r.IsPressed(button) && r.ReleasedThisFrame(button)
      ensures forall b :: 0 <= b < Buttons && b != button ==> r.SameSlot(this, b)
      ensures r.SameExceptButtons(this)
    {
      this.(thisFrame := thisFrame[button := true], pressed := pressed[button := false])
    }

    /** Adds raw motion to the accumulator; the focus gate is the caller's. */
    function Translate(d: (real, real)): (r: MouseState)
      ensures r.delta.0 == delta.0 + d.0 && r.delta.1 == delta.1 + d.1
      ensures r.(delta := delta) == this
    {
      this.(delta := (delta.0 + d.0, delta.1 + d.1))
    }

    /** Adds wheel motion to the accumulator, only while the window has focus. */
    function Scroll(w: (real, real)): (r: MouseState)
      ensures !focused ==> r == this
      ensures focused ==> r.wheel.0 == wheel.0 + w.0 && r.wheel.1 == wheel.1 + w.1
      ensures r.(wheel := wheel) == this
    {
      if !focused then this
      else this.(wheel := (wheel.0 + w.0, wheel.1 + w.1))
    }

    function UpdatePos(p: (int, int)): (r: MouseState)
      ensures r.pos == p && r.(pos := pos) == this
    {
      this.(pos := p)
    }

    /**
     One platform event: the full effect on every field. Line wheel deltas are stored as
     (second field, first field); pixel deltas and every other event are ignored.
     */
    function HandleEvent(e: Event): (r: MouseState)
      requires Valid()
      ensures r.Valid()
      ensures ButtonTransition(e).None? ==> r.pressed == pressed && r.thisFrame == thisFrame
      ensures ButtonTransition(e).Some? ==>
                var (b, state) := ButtonTransition(e).value;
                && r.IsPressed(b) == (state == Pressed)
                && r.thisFrame[b]
                && forall i :: 0 <= i < Buttons && i != b ==> r.SameSlot(this, i)
      ensures r.pos ==
              if e.Window? && e.windowEvent.CursorMoved?
              then (AsI32(e.windowEvent.x), AsI32(e.windowEvent.y))
              else pos
      ensures r.delta ==
              if focused && e.Device? && e.deviceEvent.MouseMotion?
              then (delta.0 + e.deviceEvent.dx, delta.1 + e.deviceEvent.dy)
              else delta
      ensures r.wheel ==
              if focused && e.Window? && e.windowEvent.MouseWheel? && e.windowEvent.delta.LineDelta?
              then (wheel.0 + e.windowEvent.delta.second, wheel.1 + e.windowEvent.delta.first)
              else wheel
      ensures r.focused ==
              if e.Window? && e.windowEvent.Focused? then e.windowEvent.focused else focused
    {
      match e
      case Window(CursorMoved(x, y)) => UpdatePos((AsI32(x), AsI32(y)))
      case Window(MouseInput(state, button)) =>
        (match ButtonIndex(button)
         case None => this
         case Some(b) => if state == Pressed then PressButton(b) else ReleaseButton(b))
      case Window(MouseWheel(LineDelta(y, x))) => Scroll((x, y))
      case Window(Focused(f)) => this.(focused := f)
      case Device(MouseMotion(dx, dy)) => if focused then Translate((dx, dy)) else this
      case _ => this
    }

    function NextFrame(): (r: MouseState)
      requires Valid()
      ensures r.Valid()
      ensures r.delta == (0.0, 0.0) && r.wheel == (0.0, 0.0)
      ensures r.pressed == pressed && r.pos == pos && r.focused == focused
      ensures forall b :: 0 <= b < Buttons ==> !r.PressedThisFrame(b) && !r.ReleasedThisFrame(b)
    {
      this.(delta := (0.0, 0.0), wheel := (0.0, 0.0), thisFrame := seq(Buttons, _ => false))
    }
  }

  function NewMouse(): (r: MouseState)
    ensures r.Valid() && r.focused
    ensures r.pos == (0, 0) && r.delta == (0.0, 0.0) && r.wheel == (0.0, 0.0)
    ensures forall b :: 0 <= b < Buttons ==> !r.IsPressed(b) && !r.thisFrame[b]
  {
    MouseState(seq(Buttons, _ => false), seq(Buttons, _ => false), (0, 0), (0.0, 0.0), (0.0, 0.0), true)
  }

  /** A button event whose button number has no slot changes nothing at all. */
  lemma DroppedButton(s: MouseState, state: ElementState, button: MouseButton)
    requires s.Valid()
    requires button.Other? && button.number > 9
    ensures s.HandleEvent(Window(MouseInput(state, button))) == s
  {
  }

  /** The events of one frame, fed to the tracker in arrival order. */
  function Replay(s: MouseState, events: seq<Event>): (r: MouseState)
    requires s.Valid()
    ensures r.Valid()
    decreases |events|
  {
    if events == [] then s
    else Replay(s, events[..|events| - 1]).HandleEvent(events[|events| - 1])
  }

  predicate IsFocusEvent(e: Event) {
    e.Window? && e.windowEvent.Focused?
  }

  /** Total raw motion carried by the events. */
  function MotionSum(events: seq<Event>): (real, real)
    decreases |events|
  {
    if events == [] then (0.0, 0.0)
    else
      var s := MotionSum(events[..|events| - 1]);
      var e := events[|events| - 1];
      if e.Device? && e.deviceEvent.MouseMotion? then (s.0 + e.deviceEvent.dx, s.1 + e.deviceEvent.dy)
      else s
  }

  /** Total line-wheel motion carried by the events, as (second field, first field). */
  function WheelSum(events: seq<Event>): (real, real)
    decreases |events|
  {
    if events == [] then (0.0, 0.0)
    else
      var s := WheelSum(events[..|events| - 1]);
      var e := events[|events| - 1];
      if e.Window? && e.windowEvent.MouseWheel? && e.windowEvent.delta.LineDelta?
      then (s.0 + e.windowEvent.delta.second, s.1 + e.windowEvent.delta.first)
      else s
  }

  /**
   Over a stretch of events with no focus change, the accumulators gain exactly the motion
   and wheel amounts of the events when the window has focus, and nothing when it has not.
   */
  lemma {:induction false} AccumulatorsGatedByFocus(s: MouseState, events: seq<Event>)
    requires s.Valid()
    requires forall i :: 0 <= i < |events| ==> !IsFocusEvent(events[i])
    ensures Replay(s, events).focused == s.focused
    ensures Replay(s, events).delta ==
            if s.focused then (s.delta.0 + MotionSum(events).0, s.delta.1 + MotionSum(events).1)
            else s.delta
    ensures Replay(s, events).wheel ==
            if s.focused then (s.wheel.0 + WheelSum(events).0, s.wheel.1 + WheelSum(events).1)
            else s.wheel
  {
    if events != [] {
      AccumulatorsGatedByFocus(s, events[..|events| - 1]);
    }
  }

  /** The state carried by the last button event for slot `button` in `events`, if any. */
  function LastButtonTransition(events: seq<Event>, button: nat): Option<ElementState>
    decreases |events|
  {
    if events == [] then None
    else
      var t := ButtonTransition(events[|events| - 1]);
      if t.Some? && t.value.0 == button then Some(t.value.1)
      else LastButtonTransition(events[..|events| - 1], button)
  }

  lemma {:induction false} ReplayTracksLastButton(s: MouseState, events: seq<Event>, button: nat)
    requires s.Valid() && button < Buttons
    ensures Replay(s, events).IsPressed(button) ==
            match LastButtonTransition(events, button)
            case None => s.IsPressed(button)
            case Some(state) => state == Pressed
    ensures Replay(s, events).thisFrame[button] ==
            (s.thisFrame[button] || LastButtonTransition(events, button).Some?)
  {
    if events != [] {
      var init, e := events[..|events| - 1], events[|events| - 1];
      ReplayTracksLastButton(s, init, button);
      var before := Replay(s, init);
      var t := ButtonTransition(e);
      if t.None? {
        assert Replay(s, events).pressed == before.pressed;
        assert Replay(s, events).thisFrame == before.thisFrame;
      } else if t.value.0 != button {
        assert Replay(s, events).SameSlot(before, button);
      }
    }
  }

  /**
   After a frame reset, a slot reads as pressed (released) this frame exactly when the last
   button event for it since the reset was a press (a release).
   */
  lemma FrameButtonEdges(s: MouseState, events: seq<Event>, button: nat)
    requires s.Valid() && button < Buttons
    ensures Replay(s.NextFrame(), events).PressedThisFrame(button) <==>
            LastButtonTransition(events, button) == Some(Pressed)
    ensures Replay(s.NextFrame(), events).ReleasedThisFrame(button) <==>
            LastButtonTransition(events, button) == Some(Released)
  {
    ReplayTracksLastButton(s.NextFrame(), events, button);
  }

  /** The tracker object: two fixed ten-slot arrays written by index, and plain fields. */
  class Mouse {
    const thisFrame: array<bool>
    const pressed: array<bool>
    var pos: (int, int)
    var delta: (real, real)
    var wheel: (real, real)
    var focused: bool

    ghost predicate Valid()
      reads this
    {
      thisFrame.Length == Buttons && pressed.Length == Buttons && thisFrame != pressed
    }

    function State(): MouseState
      reads this, thisFrame, pressed
    {
      MouseState(thisFrame[..], pressed[..], pos, delta, wheel, focused)
    }

    constructor ()
      ensures Valid() && fresh(thisFrame) && fresh(pressed)
      ensures State() == NewMouse()
    {
      thisFrame := new bool[Buttons](_ => false);
      pressed := new bool[Buttons](_ => false);
      pos := (0, 0);
      delta := (0.0, 0.0);
      wheel := (0.0, 0.0);
      focused := true;
      new;
      assert thisFrame[..] == seq(Buttons, _ => false);
      assert pressed[..] == seq(Buttons, _ => false);
    }

    method PressButton(button: nat)
      requires Valid() && button < Buttons
      modifies thisFrame, pressed
      ensures State() == old(State()).PressButton(button)
    {
      thisFrame[button] := true;
      pressed[button] := true;
    }

    method ReleaseButton(button: nat)
      requires Valid() && button < Buttons
      modifies thisFrame, pressed
      ensures State() == old(State()).ReleaseButton(button)
    {
      thisFrame[button] := true;
      pressed[button] := false;
    }

    method Translate(d: (real, real))
      modifies this`delta
      ensures State() == old(State()).Translate(d)
    {
      delta := (delta.0 + d.0, delta.1 + d.1);
    }

    method Scroll(w: (real, real))
      modifies this`wheel
      ensures State() == old(State()).Scroll(w)
    {
      if !focused {
        return;
      }
      wheel := (wheel.0 + w.0, wheel.1 + w.1);
    }

    method UpdatePos(p: (int, int))
      modifies this`pos
      ensures State() == old(State()).UpdatePos(p)
    {
      pos := p;
    }

    method HandleEvent(e: Event)
      requires Valid()
      modifies this, thisFrame, pressed
      ensures State() == old(State()).HandleEvent(e)
    {
      match e
      case Window(CursorMoved(x, y)) =>
        UpdatePos((AsI32(x), AsI32(y)));
      case Window(MouseInput(state, button)) =>
        var mbutton: nat;
        match button {
          case Left => mbutton := 0;
          case Middle => mbutton := 1;
          case Right => mbutton := 2;
          case Other(n) =>
            if n > 9 {
              return;
            }
            mbutton := n as nat;
        }
        if state == Pressed {
          PressButton(mbutton);
        } else {
          ReleaseButton(mbutton);
        }
      case Window(MouseWheel(LineDelta(y, x))) =>
        Scroll((x, y));
      case Window(Focused(f)) =>
        focused := f;
      case Device(MouseMotion(dx, dy)) =>
        if focused {
          Translate((dx, dy));
        }
      case _ =>
    }

    method NextFrame()
      requires Valid()
      modifies this, thisFrame
      ensures State() == old(State()).NextFrame()
    {
      delta := (0.0, 0.0);
      wheel := (0.0, 0.0);
      forall i | 0 <= i < thisFrame.Length {
        thisFrame[i] := false;
      }
      assert thisFrame[..] == seq(Buttons, _ => false);
    }

    function GetPos(): (r: (int, int))
      reads this
      ensures r == State().pos
    {
      pos
    }

    function GetDelta(): (r: (real, real))
      reads this
      ensures r == State().delta
    {
      delta
    }

    /** Vertical and horizontal wheel motion since the last frame reset. */
    function GetScroll(): (r: (real, real))
      reads this
      ensures r == State().wheel
    {
      wheel
    }

    predicate IsPressed(button: nat)
      requires Valid() && button < Buttons
      reads this, pressed
      ensures IsPressed(button) == State().IsPressed(button)
    {
      pressed[button]
    }

    predicate PressedThisFrame(button: nat)
      requires Valid() && button < Buttons
      reads this, thisFrame, pressed
      ensures PressedThisFrame(button) == State().PressedThisFrame(button)
    {
      pressed[button] && thisFrame[button]
    }

    predicate ReleasedThisFrame(button: nat)
      requires Valid() && button < Buttons
      reads this, thisFrame, pressed
      ensures ReleasedThisFrame(button) == State().ReleasedThisFrame(button)
    {
      !pressed[button] && thisFrame[button]
    }
  }
}
