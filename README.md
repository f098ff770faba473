# Frame-scheduling and input-tracking core of wgpu_app, in Dafny

This project models the four state trackers of the `wgpu_app` application-loop library:

- **Keyboard** (`keyboard.dfy`, module `KeyboardIo`): two maps from key code to boolean, one
  for "held" and one for "changed since the last frame reset", updated by key events and
  queried for pressed-this-frame, released-this-frame and held.
- **Mouse** (`mouse.dfy`, module `MouseIo`): ten button slots held in two `array<bool>`s, the
  cursor position, and the motion and wheel amounts accumulated since the last frame reset,
  gated by window focus.
- **Timer** (`timer.dfy`, module `Timing`): the tick gate `go`, the one-tick lag of the
  absolute time, and the rolling frames-per-second window.
- **Persistent windows** (`persistent_window.dfy`, module `PersistentWindows`): the manager
  that calls each retained window once per frame, drops those that answer `false`, and
  appends the windows spawned during the pass, with ids drawn from one process-wide counter.

`events.dfy` holds the slice of the platform event stream the trackers read; `wrappers.dfy`
holds `Option`.

Each tracker has two layers. A value datatype (`KeyboardState`, `MouseState`, `TimerState`,
and `RenderPass` for a manager pass) gives every operation as a function, and the properties
are proved about those functions, including lemmas over whole sequences of events, clock
readings or passes. A class with the source's own fields (maps, fixed arrays, plain fields, a
`seq` of windows) implements each operation step by step, and each method's postcondition ties
the object's new state to the value function applied to its old state.

Units and numbers: times are whole microseconds (`nat`), since the source truncates every
elapsed time to microseconds before use. The caller passes clock readings in. Motion and wheel
amounts are `real`. The FPS figure is the floor of frames per second, capped at the largest
u32, as Rust's float-to-`u32` cast does. Cursor positions go through `AsI32`, which truncates
toward zero and saturates like Rust's `f64 as i32`.

Three details of the code that the model keeps as written:
- The FPS figure is truncated toward zero by the `as u32` cast (src/timer.rs:53).
- Raw mouse motion is gated by focus in the event handler (src/io/mouse.rs:118-122); `translate`
  itself always adds (src/io/mouse.rs:36-39).
- A line wheel delta is stored as (second field, first field) (src/io/mouse.rs:105-106).

## Model

| member | source | states |
|---|---|---|
| `KeyboardIo.NewKeyboard` | src/io/keyboard.rs:12-17 | a fresh keyboard reports every key as not held, not pressed and not released this frame |
| `KeyboardIo.KeyboardState.Press` | src/io/keyboard.rs:19-22 | after a press the key is held and pressed this frame (also when it was already held), every other key keeps its entries, and both maps only grow |
| `KeyboardIo.KeyboardState.Release` | src/io/keyboard.rs:24-27 | after a release the key is not held and is released, not pressed, this frame (so press then release reads as released), every other key keeps its entries |
| `KeyboardIo.KeyboardState.IsPressed` | src/io/keyboard.rs:78-83 | a key missing from the held map reads as not held |
| `KeyboardIo.KeyboardState.PressedThisFrame` | src/io/keyboard.rs:56-64 | a key reads as pressed this frame exactly when it is held and changed this frame |
| `KeyboardIo.KeyboardState.ReleasedThisFrame` | src/io/keyboard.rs:67-75 | a key reads as released this frame exactly when it is not held and changed this frame |
| `KeyboardIo.KeyboardState.HandleEvent` | src/io/keyboard.rs:30-53 | a key event with a known key code sets the key's level to its state and marks it changed, leaving other keys alone; every other event, and a key event with no key code, changes nothing |
| `KeyboardIo.KeyboardState.NextFrame` | src/io/keyboard.rs:86-88 | the held map is untouched, no key reads as pressed or released this frame, and the held level of every key is preserved |
| `KeyboardIo.EdgesExclusive` | src/io/keyboard.rs:56-75 | pressed-this-frame and released-this-frame never hold together, and one of them holds exactly when the key changed this frame |
| `KeyboardIo.ReplayTracksLastEvent` | src/io/keyboard.rs:30-53 | after any sequence of events, a key is held exactly when its last key event was a press (or, with none, as before), and it is marked changed exactly when it was before or some event touched it |
| `KeyboardIo.FrameEdges` | src/io/keyboard.rs:56-88 | after a frame reset and any events, a key reads as pressed (released) this frame exactly when its last event was a press (a release); a key with no event keeps its held level |
| `KeyboardIo.Keyboard.constructor` | src/io/keyboard.rs:12-17 | a new tracker starts with both maps empty |
| `KeyboardIo.Keyboard.Press` | src/io/keyboard.rs:19-22 | the object's maps become those of `KeyboardState.Press` |
| `KeyboardIo.Keyboard.Release` | src/io/keyboard.rs:24-27 | the object's maps become those of `KeyboardState.Release` |
| `KeyboardIo.Keyboard.HandleEvent` | src/io/keyboard.rs:30-53 | the object's maps become those of `KeyboardState.HandleEvent` |
| `KeyboardIo.Keyboard.NextFrame` | src/io/keyboard.rs:86-88 | only the changed map is cleared, as `KeyboardState.NextFrame` |
| `KeyboardIo.Keyboard.PressedThisFrame` | src/io/keyboard.rs:56-64 | the nested lookups on the two maps give the value model's pressed-this-frame query |
| `KeyboardIo.Keyboard.ReleasedThisFrame` | src/io/keyboard.rs:67-75 | the nested lookups on the two maps give the value model's released-this-frame query |
| `KeyboardIo.Keyboard.IsPressed` | src/io/keyboard.rs:78-83 | the lookup in the held map gives the value model's held query |
| `MouseIo.AsI32` | src/io/mouse.rs:61-67 | the cursor coordinate conversion stays in the i32 range, truncates toward zero inside it, and saturates outside it |
| `MouseIo.ButtonIndex` | src/io/mouse.rs:74-91 | left, middle and right map to slots 0, 1 and 2; another button number up to 9 maps to itself (so 0 to 2 alias the named buttons); numbers above 9 have no slot |
| `MouseIo.NewMouse` | src/io/mouse.rs:14-24 | a fresh mouse has no button held or changed, zero position, motion and wheel, and has focus |
| `MouseIo.MouseState.PressButton` | src/io/mouse.rs:26-29 | the slot becomes held and pressed this frame; every other slot and every other field keep their values |
| `MouseIo.MouseState.ReleaseButton` | src/io/mouse.rs:31-34 | the slot becomes not held and released this frame; every other slot and every other field keep their values |
| `MouseIo.MouseState.Translate` | src/io/mouse.rs:36-39 | the motion is added to the accumulator, with no focus check; every other field keeps its value |
| `MouseIo.MouseState.Scroll` | src/io/mouse.rs:41-47 | without focus nothing changes; with focus the wheel motion is added to the accumulator; no other field changes |
| `MouseIo.MouseState.UpdatePos` | src/io/mouse.rs:50-54 | the position becomes the given one; every other field keeps its value |
| `MouseIo.MouseState.PressedThisFrame` | src/io/mouse.rs:159-161 | a slot reads as pressed this frame exactly when it is held and changed this frame |
| `MouseIo.MouseState.ReleasedThisFrame` | src/io/mouse.rs:164-166 | a slot reads as released this frame exactly when it is not held and changed this frame, and then not as pressed |
| `MouseIo.MouseState.HandleEvent` | src/io/mouse.rs:57-128 | the effect of each event on every field: a cursor move overwrites the position only; a button event with a slot sets that slot's level and edge and nothing else; raw motion and line wheel deltas (swapped) are added only while focused; pixel deltas are ignored; a focus event overwrites the focus flag |
| `MouseIo.MouseState.NextFrame` | src/io/mouse.rs:131-135 | motion and wheel become zero, no slot reads as pressed or released this frame, and held levels, position and focus are preserved |
| `MouseIo.DroppedButton` | src/io/mouse.rs:85-88 | a button event for a number above 9 leaves the whole tracker unchanged |
| `MouseIo.AccumulatorsGatedByFocus` | src/io/mouse.rs:102-125 | over events with no focus change, motion and wheel gain exactly the events' totals (wheel swapped) when focused and nothing when not |
| `MouseIo.ReplayTracksLastButton` | src/io/mouse.rs:68-100 | after any events, a slot is held exactly when its last button event was a press (or as before, with none), and is marked changed exactly when it was before or some event touched it |
| `MouseIo.FrameButtonEdges` | src/io/mouse.rs:131-166 | after a frame reset and any events, a slot reads as pressed (released) this frame exactly when its last button event was a press (a release) |
| `MouseIo.Mouse.constructor` | src/io/mouse.rs:14-24 | a new tracker has two fresh ten-slot arrays and the state of `NewMouse` |
| `MouseIo.Mouse.PressButton` | src/io/mouse.rs:26-29 | the arrays are written at one index, as `MouseState.PressButton` |
| `MouseIo.Mouse.ReleaseButton` | src/io/mouse.rs:31-34 | the arrays are written at one index, as `MouseState.ReleaseButton` |
| `MouseIo.Mouse.Translate` | src/io/mouse.rs:36-39 | motion is added to the accumulator unconditionally, nothing else changes |
| `MouseIo.Mouse.Scroll` | src/io/mouse.rs:41-47 | wheel motion is added only while focused, nothing else changes |
| `MouseIo.Mouse.UpdatePos` | src/io/mouse.rs:50-54 | the position is overwritten, nothing else changes |
| `MouseIo.Mouse.HandleEvent` | src/io/mouse.rs:57-128 | the object's fields and arrays become those of `MouseState.HandleEvent` |
| `MouseIo.Mouse.NextFrame` | src/io/mouse.rs:131-135 | the object's fields and arrays become those of `MouseState.NextFrame` |
| `MouseIo.Mouse.GetPos` | src/io/mouse.rs:139-141 | the stored cursor position of the value model |
| `MouseIo.Mouse.GetDelta` | src/io/mouse.rs:144-146 | the motion accumulated since the last frame reset, as in the value model |
| `MouseIo.Mouse.GetScroll` | src/io/mouse.rs:149-151 | the wheel motion accumulated since the last frame reset, as in the value model |
| `MouseIo.Mouse.IsPressed` | src/io/mouse.rs:154-156 | the held array at the slot gives the value model's held level |
| `MouseIo.Mouse.PressedThisFrame` | src/io/mouse.rs:159-161 | the two arrays at the slot give the value model's pressed-this-frame query |
| `MouseIo.Mouse.ReleasedThisFrame` | src/io/mouse.rs:164-166 | the two arrays at the slot give the value model's released-this-frame query |
| `Timing.Elapsed` | src/timer.rs:41-42 | the elapsed time since the last stamp: exactly the difference for a later reading, zero for a reading at or before it |
| `Timing.FramesPerSecond` | src/timer.rs:53 | frames per second over the window, rounded down and capped at the largest u32 |
| `Timing.NewTimer` | src/timer.rs:17-28 | a new timer has a 1000 µs tick duration, a 250000 µs FPS window, and every other figure zero |
| `Timing.TimerState.Reset` | src/timer.rs:32-35 | absolute time becomes zero and the clock is re-stamped; nothing else changes |
| `Timing.TimerState.Go` | src/timer.rs:40-61 | below the tick duration it returns nothing and changes nothing; otherwise it returns the elapsed time d (at least the tick duration), sets the last delta to d, re-stamps the clock, advances absolute time by the previous delta, counts the frame, and when the window passes the FPS period sets the FPS figure and empties the window, which afterwards is empty or within the period |
| `Timing.TimerState.SetTickDuration` | src/timer.rs:64-66 | only the tick duration changes, with no validation |
| `Timing.TimerState.SetFpsUpdateTime` | src/timer.rs:69-71 | only the FPS period changes, with no validation |
| `Timing.RefusedWithinTick` | src/timer.rs:44-46 | after a tick, every attempt less than one tick duration later is refused |
| `Timing.FpsWithinCeiling` | src/timer.rs:50-56 | a window holding at least one tick duration per frame gives an FPS figure within the tick rate ceiling |
| `Timing.GoKeepsRateBounded` | src/timer.rs:44-56 | with the configuration unchanged, a tick keeps the window at least one tick duration per frame and the FPS figure within the tick rate ceiling |
| `Timing.AbsTimeLagsOneTick` | src/timer.rs:44-60 | over any sequence of clock readings, absolute time plus the last delta grows by the sum of the returned deltas, the last delta is the last returned one, every returned delta is at least the tick duration, and with no tick nothing changes |
| `Timing.Timer.constructor` | src/timer.rs:17-28 | a new timer has the state of `NewTimer` |
| `Timing.Timer.Reset` | src/timer.rs:32-35 | only the clock stamp and absolute time change, as `TimerState.Reset` |
| `Timing.Timer.Go` | src/timer.rs:40-61 | the fields are updated step by step and end, with the result, as `TimerState.Go` |
| `Timing.Timer.SetTickDuration` | src/timer.rs:64-66 | only the tick duration field changes |
| `Timing.Timer.SetFpsUpdateTime` | src/timer.rs:69-71 | only the FPS period field changes |
| `Timing.Timer.Fps` | src/timer.rs:74-76 | the FPS figure of the value model |
| `Timing.Timer.Delta` | src/timer.rs:79-81 | the last delta of the value model, which `Go` sets to the time it returns |
| `Timing.Timer.AbsoluteTime` | src/timer.rs:84-86 | the absolute time of the value model |
| `PersistentWindows.RenderPass` | src/utils/persistent_window.rs:38-46 | one pass makes one call and one answer per window, keeps at most as many windows as it had, and advances the counter by the number of windows spawned |
| `PersistentWindows.PassCallsEachOnceAndFilters` | src/utils/persistent_window.rs:38-43 | a pass calls every window present at its start exactly once, in list order, with its own id, and the survivors are exactly those that answered true, in their old order |
| `PersistentWindows.SpawnedGetFreshIds` | src/utils/persistent_window.rs:20-22 | windows spawned during a pass get consecutive ids from the counter in spawn order, and the counter ends just past them |
| `PersistentWindows.KeptComeFromInput` | src/utils/persistent_window.rs:41-43 | survivors are windows of the list passed in, with pairwise distinct ids |
| `PersistentWindows.PassKeepsIdsIssued` | src/utils/persistent_window.rs:38-46 | when the ids in the list are distinct and already issued, the list after the pass (survivors then spawned) has distinct ids all issued by the counter |
| `PersistentWindows.StopAfterFirstCall` | src/utils/persistent_window.rs:38-46 | window A stopping after one call and window B never stopping: three passes call A and B, then B, then B, and leave only B |
| `PersistentWindows.SpawnedRunFromNextPass` | src/utils/persistent_window.rs:38-46 | when the listed ids are distinct and issued, no window spawned during a pass is called in it, and the next pass calls the survivors in order and then the spawned windows in spawn order |
| `PersistentWindows.SpawnedRunsNextPass` | src/utils/persistent_window.rs:38-46 | example: window 5 spawns a window during a pass; the child takes id 6, is not called in that pass, and is called after its parent in the next |
| `PersistentWindows.WindowIds.constructor` | src/utils/persistent_window.rs:10 | the process-wide counter starts at zero |
| `PersistentWindows.NewWindow` | src/utils/persistent_window.rs:20-22 | a new window takes the counter's value as its id and the counter moves on by one |
| `PersistentWindows.NewWindows` | src/utils/persistent_window.rs:20-22 | windows created one after another get consecutive ids, in order |
| `PersistentWindows.PersistentWindowManager.constructor` | src/utils/persistent_window.rs:30-32 | a new manager has no windows |
| `PersistentWindows.PersistentWindowManager.Push` | src/utils/persistent_window.rs:34-36 | the window is appended after the existing ones, which keep their order; a freshly issued window keeps the ids distinct |
| `PersistentWindows.PersistentWindowManager.Render` | src/utils/persistent_window.rs:38-46 | the list becomes the survivors of `RenderPass` followed by the windows spawned during it, the counter and shared state are those after the pass, and the ids stay distinct and issued |

## Left out

- Floating point: delta, wheel, timer seconds and the FPS division are modelled with exact `real` or whole-microsecond `nat` arithmetic, so f32/f64 rounding is not modelled.
- Timing.TimerState.Go: the elapsed time is read at one caller-supplied instant and the clock is re-stamped at a second one; `Instant::now()` and `elapsed()` are not modelled.
- Timing.TimerState.SetTickDuration: negative durations cannot be expressed, because times are `nat`; the source's f32 setter accepts them.
- Timing.TimerState.SetFpsUpdateTime: negative or zero FPS periods are not modelled, because times are `nat`. With a negative period the source can divide by a zero frame time at src/timer.rs:53; the model never reaches that case.
- Timing.TimerState.Go: the u32 frame counter is unbounded, so overflow after 2^32 frames in one FPS window is not modelled.
- PersistentWindows.WindowIds.constructor: the 64-bit counter is unbounded, so wrap-around after 2^64 ids is not modelled. It is a plain field, because the program is single-threaded; atomics and memory ordering are out.
- PersistentWindows.PersistentWindowManager.Render: all windows' closures are one behaviour function over each window's local state, and the GUI context argument is not passed. Windows spawned by a behaviour are minted during its call in spawn order. A closure that mints windows outside a pass, or mints them without spawning them, is not modelled.
- PersistentWindows.PersistentWindowManager.Render: behaviours only append to the side list of new windows. In the source each closure gets that list as `&mut Vec` (src/utils/persistent_window.rs:12, 24-25, 41-45), so it could also remove, reorder or inspect windows spawned earlier in the same pass, or call their `render`. The model does not capture that. The spawn-order results (`SpawnedGetFreshIds`, `SpawnedRunFromNextPass`, `SpawnedRunsNextPass`) and the "survivors then spawned" list after `Render` hold only for append-only behaviours.
- PersistentWindows.PersistentWindowManager.Push: any window value may be pushed. Ownership in the source guarantees that a pushed window is fresh and not already listed. The model keeps ids distinct only under that condition, which is stated in the postcondition.
- Panics inside a behaviour are not modelled; they propagate in the source.
- MouseIo.AsI32: not-a-number positions, which Rust casts to 0, are not modelled, since `real` has no such value.
- MouseIo.Mouse.NextFrame: the source assigns a new array value; the model clears the same array in place, which has the same effect on a fixed-size value array.
- MouseIo.Mouse.IsPressed: the queries require a slot below 10, where the source panics on an out-of-range index.
- Key codes are naturals standing for the platform's virtual key enumeration.
- src/context.rs (GPU surface setup, resize, the GUI render pass, event forwarding filter) and src/lib.rs (event loop, device setup, error dispatch) are not part of this model: they are I/O and platform glue.
