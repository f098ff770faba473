/**
 Edge/level tracker for keyboard keys.

 Two maps from key to boolean: `keys` says whether a key is held, `thisFrame` whether it
 changed since the last frame reset. A key missing from a map reads as `false`.
 */
module KeyboardIo {
  import opened Wrappers
  import opened Events

  /** The value held by a keyboard tracker. */
  datatype KeyboardState = KeyboardState(keys: map<KeyCode, bool>, thisFrame: map<KeyCode, bool>)
  {
    /** The key is currently held down. */
    predicate IsPressed(key: KeyCode)
      ensures key !in keys ==> !IsPressed(key)
    {
      key in keys && keys[key]
    }

    /** The key went down or up since the last frame reset. */
    predicate ChangedThisFrame(key: KeyCode) {
      key in thisFrame && thisFrame[key]
    }

    /** The key went down on this frame. */
    predicate PressedThisFrame(key: KeyCode)
      ensures PressedThisFrame(key) <==> IsPressed(key) && ChangedThisFrame(key)
    {
      if IsPressed(key) then ChangedThisFrame(key) else false
    }

    /** The key went up on this frame. */
    predicate ReleasedThisFrame(key: KeyCode)
      ensures ReleasedThisFrame(key) <==> !IsPressed(key) && ChangedThisFrame(key)
    {
      if IsPressed(key) then false else ChangedThisFrame(key)
    }

    /** Both maps hold the same entry (or none) for `key` here and in `other`. */
    predicate SameAt(other: KeyboardState, key: KeyCode) {
      && (key in keys <==> key in other.keys)
      && (key in keys ==> keys[key] == other.keys[key])
      && (key in thisFrame <==> key in other.thisFrame)
      && (key in thisFrame ==> thisFrame[key] == other.thisFrame[key])
    }

    function Press(key: KeyCode): (r: KeyboardState)
      ensures r.IsPressed(key) && r.PressedThisFrame(key) && !r.ReleasedThisFrame(key)
      ensures forall k :: k != key ==> r.SameAt(this, k)
      ensures r.keys.Keys == keys.Keys + {key} && r.thisFrame.Keys == thisFrame.Keys + {key}
    {
      KeyboardState(keys[key := true], thisFrame[key := true])
    }

    function Release(key: KeyCode): (r: KeyboardState)
      ensures !r.IsPressed(key) && r.ReleasedThisFrame(key) && !r.PressedThisFrame(key)
      ensures forall k :: k != key ==> r.SameAt(this, k)
      ensures r.keys.Keys == keys.Keys + {key} && r.thisFrame.Keys == thisFrame.Keys + {key}
    {
      KeyboardState(keys[key := false], thisFrame[key := true])
    }

    /** A key event with a resolved key code presses or releases it; anything else is ignored. */
    function HandleEvent(e: Event): (r: KeyboardState)
      ensures KeyTransition(e).None? ==> r == this
      ensures KeyTransition(e).Some? ==>
                var (key, state) := KeyTransition(e).value;
                && r.IsPressed(key) == (state == Pressed)
                && r.ChangedThisFrame(key)
                && forall k :: k != key ==> r.SameAt(this, k)
    {
      match KeyTransition(e)
      case None => this
      case Some((key, state)) => if state == Pressed then Press(key) else Release(key)
    }

    function NextFrame(): (r: KeyboardState)
      ensures r.keys == keys
      ensures forall k :: !r.PressedThisFrame(k) && !r.ReleasedThisFrame(k)
      ensures forall k :: r.IsPressed(k) == IsPressed(k)
    {
      KeyboardState(keys, map[])
    }
  }

  function NewKeyboard(): (r: KeyboardState)
    ensures forall k :: !r.IsPressed(k) && !r.PressedThisFrame(k) && !r.ReleasedThisFrame(k)
  {
    KeyboardState(map[], map[])
  }

  /** The key and its new state, for a key event whose virtual key code is known. */
  function KeyTransition(e: Event): Option<(KeyCode, ElementState)> {
    match e
    case Window(KeyboardInput(state, Some(key))) => Some((key, state))
    case _ => None
  }

  lemma EdgesExclusive(s: KeyboardState, key: KeyCode)
    ensures !(s.PressedThisFrame(key) && s.ReleasedThisFrame(key))
    ensures s.ChangedThisFrame(key) <==> s.PressedThisFrame(key) || s.ReleasedThisFrame(key)
  {
  }

  /** The events of one frame, fed to the tracker in arrival order. */
  function Replay(s: KeyboardState, events: seq<Event>): KeyboardState
    decreases |events|
  {
    if events == [] then s
    else Replay(s, events[..|events| - 1]).HandleEvent(events[|events| - 1])
  }

  /** The state carried by the last key event for `key` in `events`, if there is one. */
  function LastTransition(events: seq<Event>, key: KeyCode): Option<ElementState>
    decreases |events|
  {
    if events == [] then None
    else
      var t := KeyTransition(events[|events| - 1]);
      if t.Some? && t.value.0 == key then Some(t.value.1)
      else LastTransition(events[..|events| - 1], key)
  }

  /** The level follows the last event for the key; the edge flag records whether there was one. */
  lemma {:induction false} ReplayTracksLastEvent(s: KeyboardState, events: seq<Event>, key: KeyCode)
    ensures Replay(s, events).IsPressed(key) ==
            match LastTransition(events, key)
            case None => s.IsPressed(key)
            case Some(state) => state == Pressed
    ensures Replay(s, events).ChangedThisFrame(key) ==
            (s.ChangedThisFrame(key) || LastTransition(events, key).Some?)
  {
    if events != [] {
      ReplayTracksLastEvent(s, events[..|events| - 1], key);
    }
  }

  /**
   After a frame reset, a key reads as pressed (released) this frame exactly when the last
   event for it since the reset was a press (a release), however many events came before.
   */
  lemma FrameEdges(s: KeyboardState, events: seq<Event>, key: KeyCode)
    ensures Replay(s.NextFrame(), events).PressedThisFrame(key) <==>
            LastTransition(events, key) == Some(Pressed)
    ensures Replay(s.NextFrame(), events).ReleasedThisFrame(key) <==>
            LastTransition(events, key) == Some(Released)
    ensures LastTransition(events, key) == None ==>
            Replay(s.NextFrame(), events).IsPressed(key) == s.IsPressed(key)
  {
    ReplayTracksLastEvent(s.NextFrame(), events, key);
  }

  /** The tracker object: two maps updated in place. */
  class Keyboard {
    var keys: map<KeyCode, bool>
    var thisFrame: map<KeyCode, bool>

    function State(): KeyboardState
      reads this
    {
      KeyboardState(keys, thisFrame)
    }

    constructor ()
      ensures State() == NewKeyboard()
    {
      keys := map[];
      thisFrame := map[];
    }

    method Press(key: KeyCode)
      modifies this
      ensures State() == old(State()).Press(key)
    {
      keys := keys[key := true];
      thisFrame := thisFrame[key := true];
    }

    method Release(key: KeyCode)
      modifies this
      ensures State() == old(State()).Release(key)
    {
      keys := keys[key := false];
      thisFrame := thisFrame[key := true];
    }

    method HandleEvent(e: Event)
      modifies this
      ensures State() == old(State()).HandleEvent(e)
    {
      match e
      case Window(KeyboardInput(state, Some(key))) =>
        if state == Pressed {
          Press(key);
        } else {
          Release(key);
        }
      case _ =>
    }

    predicate PressedThisFrame(key: KeyCode)
      reads this
      ensures PressedThisFrame(key) == State().PressedThisFrame(key)
    {
      if key in keys && keys[key] then key in thisFrame && thisFrame[key] else false
    }

    predicate ReleasedThisFrame(key: KeyCode)
      reads this
      ensures ReleasedThisFrame(key) == State().ReleasedThisFrame(key)
    {
      if key in keys && keys[key] then false else key in thisFrame && thisFrame[key]
    }

    predicate IsPressed(key: KeyCode)
      reads this
      ensures IsPressed(key) == State().IsPressed(key)
    {
      key in keys && keys[key]
    }

    method NextFrame()
      modifies this`thisFrame
      ensures State() == old(State()).NextFrame()
    {
      thisFrame := map[];
    }
  }
}
