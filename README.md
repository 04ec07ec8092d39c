# Ocean portfolio scene: trails, buoys and camera in Dafny

A three.js portfolio page shows a boat on a particle ocean, with a glowing
wake behind it and a few buoys to visit. Three pieces of sequential state logic
drive it, and this project models them and proves what they keep:

- **The wake trail buffer** (`trails.js`). The segment list gains one segment
  at most every 200 ms while the boat moves faster than 0.05. It drops its
  oldest segment once it holds more than 50. Every frame it uploads into four
  fixed 50-slot uniform arrays. Segments past their fade duration are spliced
  out inside the upload loop, and slots with no segment get height 0. Module
  `Trails`: class `TrailSystem` over the list and the four arrays.
- **The buoy state machine** (`buoy.js`). Each buoy is idle, highlighted or
  visited. It may carry a glow mesh and a pulse tween. The module-level
  `currentHighlightedBuoy` follows a forward scan over the buoys. Module
  `Buoys`: classes `Buoy` and `BuoyField`.
- **The camera controller** (`main.js`). It covers:
  - the follow, orbit and cinematic modes;
  - the cinematic fly-to;
  - the KeyC toggle;
  - the per-frame mode dispatch;
  - the bounce-back that pulls the orbit camera in from the zoom limit.

  Module `Camera`, class `CameraRig`. The two easing curves are pure
  functions over `real`.

Module `Scene` (class `World`) wires these together the way `main.js` does.
It covers the set-up at load time, the keydown handler (KeyE, KeyC, Escape)
and one `animate()` frame. Its invariant records a fact of the code as
written: the camera never enters cinematic mode. The only path that could
start a cinematic is the KeyE handler. That handler passes
`startCinematicTransition` to `interactWithBuoy`, whose declaration
(`buoy.js:449`) has no parameter to receive it.

Three facts of the code shape the model:

- **Interacting with a buoy never moves the camera.** The KeyE handler passes
  `startCinematicTransition` and a follow-mode callback to `interactWithBuoy`
  (`main.js:671`). The declaration at `buoy.js:449` takes only `THREE` and
  `scene`, so neither callback is ever called.
- **KeyC switches between follow and orbit only.** It goes to orbit only from
  follow mode, and to follow only from orbit outside a cinematic
  (`main.js:676-679`).
- **Only the orbit switch cancels a cinematic.** `switchCameraMode(FOLLOW)`
  sets the mode and the controls and leaves `isInCinematic` as it is
  (`main.js:165-167`). Only the orbit branch clears it (`main.js:216`).

Module `Vectors` holds the small part of three.js vector arithmetic the logic
uses, over exact reals. Module `Waves` records the wave-count truncation of
the CPU wave sampler.

Each phase of a frame is stated against a value: `Trails.Next`,
`Buoys.StepViews` and the `Scene.After…` functions give the new state as a
function of the old one. The properties of those functions are proved as
lemmas beside them (`Camera.CameraFrameModes`, `Camera.BounceFrameSpec`,
`Scene.AnimateFrameCamera`, the ensures of `Trails.Next`).

Times (`performance.now()`), random draws (`Math.random()`), `Date.now()`
stamps, distances and camera radii are method parameters. The decay curve
`Math.pow` of `trails.js` is an uninterpreted parameter `decay`.

## Model

| member | source | states |
|---|---|---|
| `Vectors.LerpBetween` | main.js:744 | `lerp(x, y, t)` with `t` in [0, 1] lies between `x` and `y`, is `x` at 0 and `y` at 1 |
| `Trails.TurboMultipliers` | trails.js:93-95 | turbo segments use fade 30, height 9 and radius 19.5 (×1.5, ×1.8, ×1.3 independently); plain segments use the base constants |
| `Trails.Survivors` | trails.js:97-111 | the expiry filter never lengthens the list |
| `Trails.SurvivorsMembers` | trails.js:97-111 | a segment survives exactly when it was in the list and is younger than its fade duration plus the grace |
| `Trails.SurvivorsConcat` | trails.js:108-111 | expiry distributes over concatenation, so survivors keep their relative order |
| `Trails.SurvivorsOfKept` | trails.js:126-131 | a list whose every segment is kept is unchanged by the filter |
| `Trails.ClosingFilterKeepsAll` | trails.js:126-131 | the closing `age < fade + 1` filter removes nothing the slot loop kept |
| `Trails.SlotStep` | trails.js:108-111 | splicing the element just past `done` out of `done + rest` leaves `done + rest[1..]`; keeping it moves it into `done`; either way the survivors still to come are those of the tail |
| `Trails.NewSegment` | trails.js:54-69 | a new segment has timestamp `now`, height 5, `isTurbo == boost`, the boat's direction, and a position 6 behind the boat with jitter within ±1 in x and ±1.5 in z |
| `Trails.Pushed` | trails.js:71-76 | after a push the list grows by one, or on overflow keeps its length; it never passes 50; the new segment is last; the others are the previous ones in order, without index 0 on overflow |
| `Trails.UploadHeight` | trails.js:100-105 | an active slot's height is `Math.max` of the decayed height and the floor 0.01: at least both, and equal to one of them |
| `Trails.TrailSystem.constructor` | trails.js:13-18 | before initTrails: not attached, no segments, `lastTrailTime` 0 |
| `Trails.TrailSystem.Init` | trails.js:20-42 | initTrails attaches and empties the list. With uniforms it creates 50 slots of position 0, height 0, radius 15 and direction (0,0,-1). It does not reset `lastTrailTime` |
| `Trails.TrailSystem.FreshSlots` | trails.js:31-37 | four new 50-slot arrays filled with the initial slot values |
| `Trails.TrailSystem.Emit` | trails.js:51-79 | appends exactly when speed > 0.05 and `now - lastTrailTime > 200`; sets `lastTrailTime := now` exactly then, otherwise leaves it |
| `Trails.TrailSystem.WriteSlot` | trails.js:104-107 | slot `i` gets the segment's position, direction, effective radius and floored height; no other slot changes |
| `Trails.TrailSystem.ClearSlot` | trails.js:113-116 | slot `i` gets height 0; no other height changes |
| `Trails.TrailSystem.SlotLoopStart` | trails.js:87 | before the first slot, the loop invariant holds with nothing examined |
| `Trails.TrailSystem.SlotLoopExit` | trails.js:87-117 | after 50 slots the list is exactly the survivors, the slots below its length show it, and the slots beyond have height 0 and their old position, radius and direction |
| `Trails.TrailSystem.KeepSlot` | trails.js:97-107 | a young segment is uploaded into slot `i` and the loop moves on |
| `Trails.TrailSystem.DropSegment` | trails.js:108-111 | an expired segment is spliced out and the index stays (`i--`) |
| `Trails.TrailSystem.EmptySlot` | trails.js:113-116 | a slot past the end of the list gets height 0 |
| `Trails.TrailSystem.UploadSlots` | trails.js:83-124 | the slot loop leaves the survivors in order. Slot `i` below the new length shows segment `i` with height ≥ 0.01. Every slot at or past it has height 0 and its old position, radius and direction |
| `Trails.Next` | trails.js:44-132 | one updateTrails on an attached system, as a value: at most 50 segments, `lastTrailTime` moves to `now` exactly when a segment is emitted, every remaining segment was in the list after emission and has not expired; without uniforms the arrays are untouched; with them, slot `j` is active (height > 0) exactly when `j` is below the new length, an active slot shows segment `j`, and a stale slot keeps its position, radius and direction; a still boat with no segments keeps none |
| `Trails.TrailSystem.UploadIsNext` | trails.js:83-131 | after emission, the slot loop and the closing filter, the system's state is exactly `Next` of the state before the update |
| `Trails.TrailSystem.Update` | trails.js:44-132 | updateTrails changes nothing before initTrails. Otherwise the list is the emission followed by expiry, and `lastTrailTime` follows the gate. With uniforms, every remaining segment is younger than its fade duration, the slots are uploaded and stale slots keep their position, radius and direction. The new state is `Next` of the old one |
| `Buoys.StopTween` | buoy.js:60-62 | stopping never adds a pulse or touches the handle; without a handle nothing happens; when the handle is the one running pulse, none is left |
| `Buoys.StartPulseAsWritten` | buoy.js:58-78 | as written, a start always leaves no handle and at least one pulse; with no handle it adds a pulse to those already running; from a consistent icon it leaves one unreachable pulse |
| `Buoys.StartPulse` | buoy.js:58-78 | as intended, a start stores a handle; from a consistent icon exactly one pulse runs, it is the stored one, and a stop then leaves no pulse |
| `Buoys.StopPulse` | buoy.js:80-87 | a stop never leaves a handle or adds a pulse; without a handle it does nothing; on a consistent icon it leaves no pulse at all |
| `Buoys.PulsesAccumulateAsWritten` | buoy.js:58-87 | as written, `n` starts leave `n` endless pulses running and no handle, and a stop then removes none |
| `Buoys.PulseLeakAsWritten` | buoy.js:77-83 | as written, one start followed by a stop leaves one pulse running |
| `Buoys.PulseKeptSingle` | buoy.js:58-87 | with the handle stored, a start leaves exactly one pulse and a stop leaves none |
| `Buoys.NextState` | buoy.js:313-395 | a visited buoy stays visited and nothing else becomes visited; otherwise highlighted exactly in range and idle exactly out of range |
| `Buoys.NextPulseMatches` | buoy.js:328-390 | with the intended start, updateBuoyState keeps "a pulse runs exactly when the buoy is not idle", and an idle buoy has no pulse |
| `Buoys.IdleStillPulsesAsWritten` | buoy.js:342-390 | as written, idle, then in range, then out of range ends idle with a pulse still running |
| `Buoys.Buoy.constructor` | buoy.js:196-205 | a new buoy is idle with its id, no glow and no pulse |
| `Buoys.Transition` | buoy.js:310-391 | the branches of updateBuoyState keep "a pulse runs exactly when the buoy is not idle"; the state follows NextState, the pulse NextPulse, and a glow exists exactly when in range or visited |
| `Buoys.Buoy.Update` | buoy.js:310-391 | updateBuoyState on one buoy: the state follows NextState and the pulse follows NextPulse; a glow exists exactly when in range or visited; the buoy's view is NextView of its old view, and the pulse invariant is kept |
| `Buoys.LastInRange` | buoy.js:286-306 | the result is -1 or the index of an in-range buoy, with no in-range buoy after it |
| `Buoys.ScanFindsLastInRange` | buoy.js:304-306 | after the scan the highlighted buoy is the last in range; with none in range, one from the list is cleared and any other is left |
| `Buoys.ScanHighlightsLast` | buoy.js:286-306 | from null or a member of the list, the scan yields the last in-range buoy or null |
| `Buoys.BuoyField.constructor` | buoy.js:134-228 | once loaded: `count` distinct idle buoys with ids 1 to `count`, nothing highlighted |
| `Buoys.BuoyField.UpdateState` | buoy.js:310-396 | the buoy is in range exactly when its distance is at most 40 (`<=`); it steps its state, glow and pulse; in range sets `currentHighlightedBuoy` to the buoy; out of range clears it only when it is this buoy |
| `Buoys.BuoyField.ScanStep` | buoy.js:304-305 | one iteration of the forEach keeps the scan invariant |
| `Buoys.BuoyField.UpdateBuoys` | buoy.js:285-307 | the buoys' views after the forEach are StepViews of the views before it: buoy `i` steps its state, glow and pulse on its own distance and no other; `currentHighlightedBuoy` ends as the last in-range buoy or null |
| `Buoys.BuoyField.Interact` | buoy.js:449-474 | with a highlighted buoy: that buoy becomes visited and the result is true. Otherwise the result is false. No other buoy changes |
| `Buoys.BuoyField.CurrentHighlighted` | buoy.js:479-481 | the highlighted buoy is null or a non-idle member of the list |
| `Camera.Min` | main.js:146 | `Math.min` is below both arguments and equal to one |
| `Camera.EaseOutCubic` | main.js:149 | `1 - (1 - p)^3` maps 0 to 0 and 1 to 1 and stays in [0, 1] on [0, 1] |
| `Camera.SmoothStep` | main.js:743 | `t * t * (3 - 2t)` maps 0 to 0 and 1 to 1 and stays in [0, 1] on [0, 1] |
| `Camera.EasesMonotone` | main.js:149 | both eases are non-decreasing on [0, 1] |
| `Camera.Progress` | main.js:146 | `min(elapsed / 1500, 1)` is at most 1, non-negative for non-negative elapsed time, and reaches 1 exactly when the duration has elapsed |
| `Camera.Right` | main.js:94 | `heading × up` is horizontal and perpendicular to the heading |
| `Camera.RightIsUnit` | main.js:94 | for a unit horizontal heading the right vector is already unit, so `normalize()` leaves it |
| `Camera.FollowPlacement` | main.js:97-105 | the follow camera is 12 above the boat less 30 times the heading's y; the target is 3 above plus 8 times it |
| `Camera.FollowOffsets` | main.js:97-105 | for a unit horizontal heading the follow camera is 30 behind, 2 right and 12 up; the target is 8 ahead and 3 up |
| `Camera.CinematicEnd` | main.js:133-139 | the cinematic end is the buoy plus (8, 12, 8), looking 5 above the buoy |
| `Camera.CinematicFrame` | main.js:145-155 | the fly-to starts at the start placement and is at the end placement from 1500 ms on |
| `Camera.BounceRadius` | main.js:741-744 | the eased radius lies between `bounceFromRadius` and 150, is `bounceFromRadius` at t = 0 and 150 at t = 1 |
| `Camera.BounceRadiusShrinks` | main.js:741-744 | from the zoom limit the bounce radius only shrinks as t grows |
| `Camera.LerpTowardsLower` | main.js:744 | a larger weight moves a lerp further towards a lower end |
| `Camera.CameraRig.constructor` | main.js:36-68 | initial globals: follow mode, no cinematic, not bouncing, zoom and controls enabled, camera at the set-up position `start`, looking at the origin |
| `Camera.CameraRig.StartCinematic` | main.js:122-140 | a no-op during a cinematic. Otherwise it enters cinematic mode at `now` from the current placement, towards the buoy's end placement |
| `Camera.CameraRig.UpdateCinematic` | main.js:142-162 | a no-op outside a cinematic. Otherwise it places the camera at the eased frame, and at progress 1 it leaves the cinematic for orbit mode at the end placement |
| `Camera.CameraRig.SwitchMode` | main.js:164-218 | Follow sets the mode, disables the controls and keeps `isInCinematic`, then jumps to the follow placement if the boat exists. Orbit sets the mode, enables the controls and cancels a cinematic |
| `Camera.CameraRig.FollowStep` | main.js:76-120 | the follow lerp moves the camera 12% and the target 8% towards the follow placement; nothing happens without a boat |
| `Camera.FollowLerp` | main.js:108-109 | each frame the camera's gap to the follow position shrinks to 88% and the target's gap to the follow target to 92%, keeping its direction; a camera already there stays |
| `Camera.CameraFrameModes` | main.js:142-162 | one dispatch: outside a cinematic the mode is kept and no cinematic starts; orbit (and a stale cinematic mode) is left alone; a cinematic is at its start placement at its start time and, once 1500 ms have passed, is in orbit mode at its end placement; follow mode applies the follow lerp |
| `Camera.BounceFrameSpec` | main.js:727-752 | nothing happens inside the limit without a bounce; a bounce starts from the current radius at `now`, along a unit direction and at that radius; a running bounce keeps its start, radius and direction, stays between 150 and the start radius, and ends at 150 once two seconds are over |
| `Camera.CameraRig.CameraStep` | main.js:695-699 | the follow lerp in follow mode; nothing in orbit mode or in a stale cinematic mode; during a cinematic the camera is at the eased frame and the cinematic ends in orbit mode once its time is up; outside a cinematic the mode is kept; the new view is CameraFrame of the old one |
| `Camera.CameraRig.ToggleMode` | main.js:673-681 | KeyC: follow goes to orbit and leaves the camera and target where they are; orbit outside a cinematic goes to follow and places them at the follow placement when the boat exists; anything else is unchanged |
| `Camera.CameraRig.BounceStep` | main.js:727-752 | see the bounce-back rule below |
| `Camera.NormalizedByLength` | main.js:738 | dividing the offset by its length gives a unit direction |
| `Camera.PlacedAtRadius` | main.js:745 | the camera put along a unit direction at `r` is at distance `r` from the target |
| `Scene.World.constructor` | main.js:363-369 | after initTrails, initBoat, the switch to follow mode and initBuoys: trails attached and empty with `lastTrailTime` 0, follow mode at the boat's follow placement with controls off and zoom on, idle buoys with ids 1 to `count`, no glow and no pulse, nothing highlighted, `uTime` 0 |
| `Scene.World.KeyDown` | main.js:659-686 | see the keydown rule below |
| `Scene.World.CameraPhase` | main.js:695-704 | the frame after the phase is AfterCamera of the frame before: the view moves as CameraFrame says (see `Camera.CameraFrameModes`), `uTime` advances by 0.02, and the bounce, trails and buoys are unchanged |
| `Scene.World.TrailPhase` | main.js:714-719 | the frame after the phase is AfterTrails of the frame before: the trail state becomes `Trails.Next` of the old one, with its gate, expiry and upload, and the camera, buoys and `uTime` are unchanged |
| `Scene.World.BuoyPhase` | main.js:722 | the frame after the phase is AfterBuoys of the frame before: each buoy's state, glow and pulse step on its own distance (StepViews), the camera, trails and `uTime` are unchanged, and the last in-range buoy is highlighted |
| `Scene.World.BouncePhase` | main.js:727-752 | the frame after the phase is AfterBounce of the frame before: the bounce state and camera position move as BounceFrame says (see `Camera.BounceFrameSpec`), the mode, cinematic flag, target, trails, buoys and `uTime` are unchanged; zoom is enabled whenever no bounce runs |
| `Scene.World.Animate` | main.js:688-755 | one frame keeps the invariant (no cinematic, controls match the mode) and does not touch the cinematic's start, end or start time; the frame after it is AnimateFrame of the frame before: the four phases composed in the source's order; zoom is on when no bounce runs, and the last in-range buoy is highlighted |
| `Scene.AnimateFrameCamera` | main.js:695-752 | over a whole frame: outside a cinematic the mode is kept; the follow target moves 8% of the way to the boat's follow target and the orbit target stays, whatever the bounce-back does to the position; an expired cinematic ends in orbit mode looking at its end target; without a bounce inside the limit the bounce state is kept and the view is the camera step's |
| `Waves.SampledWaveCount` | wave-sampling.js:26 | `min(7, bank size)` is at most the shader's wave count and at most the bank size, and equals one of them |
| `Waves.SamplingMatchesShader` | main.js:285-286 | with the 10-wave bank, exactly the shader's 7 waves are sampled |

The two rows that point below:

- `Camera.CameraRig.BounceStep`: a bounce starts exactly when none is running
  and the radius is at least 199.99. A start disables zoom, records the start
  time and radius, and sets the direction to the offset divided by the
  radius, which is unit when the radius is the offset's length. While
  bouncing, the camera sits at the target plus the direction times the eased
  radius. That places it at exactly that distance when the direction is unit,
  and the radius lies between 150 and the start radius. The bounce ends, and
  zoom returns, exactly at t ≥ 1.
- `Scene.World.KeyDown`:
  - KeyE does nothing while a modal is open. Otherwise it interacts, and
    reports true exactly when a buoy was highlighted. That buoy becomes
    visited, and no other buoy's state changes. The camera is never touched.
  - KeyC toggles between follow and orbit. The switch to orbit leaves the
    camera where it is; the switch to follow places it behind the boat.
  - Escape and any other key change nothing.
  - No key changes a buoy's glow or pulse, or which buoy is highlighted.

## Left out

- Rendering, lookAt and OrbitControls:
  - `camera.lookAt`, `updateMatrixWorld`, the renderer and
    `updateCameraModeIndicator` are left out.
  - `controls.update()` is foreign code. Its damping in orbit mode is not
    modelled, so orbit frames leave the camera where it is.
- The follow heading is an input. It stands for the boat's visual direction,
  which comes from a quaternion or `sin`/`cos` of the rotation. It is assumed
  horizontal and unit, since the source normalises it; `FollowOffsets` states
  the result under that assumption. `FOLLOW_LAG` and `deltaTime` are never
  read by the code.
- The camera radius (`distanceTo`) is an input to the bounce-back, because it
  is a square root.
- A frame reads `performance.now()` three times: in `updateCinematicCamera`
  (`main.js:145`), in `updateTrails` (`trails.js:47`) and before the
  bounce-back (`main.js:730`). The model passes one `now` to all three
  phases, so the few microseconds between the reads are not modelled.
- `Camera.CameraRig.constructor`: the camera is first put at (18, 16, 24)
  (`main.js:254`) and then re-placed at the same distance on the spherical
  angles 76.2° and 37.2° (`main.js:258-267`), about (19.96, 8.11, 26.30). This
  needs `sin` and `cos`, so the re-placed position is the parameter `start`.
  The follow switch at `main.js:369` overwrites it before the first frame.
- `updateTextSprites` (called at `main.js:725`) and `showControlsModal`
  (`main.js:766-783`) are imported at `main.js:354-355`, but neither
  `buoy.js` nor `modal.js` exports them, so the module graph as given would
  not link. The model assumes the page loads and leaves both calls out;
  they touch only sprites and the DOM.
- `Trails.UploadHeight`: the `Math.pow` decay curve (trails.js:99-101) and
  `FADE_MULTIPLIER` (trails.js:9) are not modelled. The curve is an
  uninterpreted parameter, so only the 0.01 floor is proved.
- Boat physics, wave sampling and shaders:
  - boat physics (boat.js) is left out, and its outputs (position, speed,
    direction) are inputs;
  - the wave sums of wave-sampling.js (floating-point trigonometry) are left
    out, as is the buoys' float-and-bob (buoy.js:287-301);
  - of the shaders, only the wave-count constant is kept.
- Tweens and icon settling:
  - Colour, opacity, scale and rotation tweens are left out, and only the
    pulse tween's handle and count are kept.
  - Whether a visited icon's colour has settled on grey (buoy.js:333) is an
    input, because it depends on a colour tween.
- Buoy loading and meshes:
  - GLB loading, the 5 s fallback timer and the fallback buoys are left out.
    The fallback buoys (buoy.js:231-282) carry no icon, so the pulse calls
    would fail on them. `Buoys.BuoyField.constructor` models the loaded field
    only.
  - Glow meshes are kept only as a presence flag; their colours and opacities
    are left out.
- SweetAlert modals, mobile controls, localStorage and the text sprites are
  left out. Whether a modal is open is an input to `KeyDown`.
- `Trails.TrailSystem.Update`: boat speed is an input (the velocity's
  length).

## Findings

| source | as written | input that shows it | evidently intended | confidence | as-written member | corrected member |
|---|---|---|---|---|---|---|
| buoy.js:65-77 | `pulse` is an arrow function with a block body that starts the tween and returns nothing, so `icon.userData.pulseTween = pulse()` stores `undefined`; `stopPulseAnimation` then finds no handle and every pulse tween runs forever | an idle buoy that comes in range and then leaves it: it ends idle with one endless pulse (and each further visit adds another) | store the tween (`return new TWEEN.Tween(...)...start()`), so that a start replaces the running pulse and leaving the buoy stops it | not executed | `Buoys.PulsesAccumulateAsWritten` | `Buoys.NextPulseMatches` |

The buoy class uses the intended start (`Buoys.StartPulse`). The as-written
behaviour is kept beside it, as `Buoys.StartPulseAsWritten` and
`Buoys.IdleStillPulsesAsWritten`.
