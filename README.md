# ArkPets-Web character controller, modelled in Dafny

ArkPets-Web draws a small animated character over a web page. Each frame,
the character falls under gravity, bounces off the sides of the window and
stops at its floor and ceiling. The user can drag it and throw it. A Markov
chain over the animation labels (Relax, Interact, Move, Sit, Sleep) picks
what it does next. While the label is Move, the character walks. The canvas
takes pointer events only over the character's visible pixels.

This project models that per-frame controller as it is written in
`js/character.ts`. It also models the earlier single-file version in
`js/app.ts` and the menu placement rule of `js/menu.ts`.

Modules:

- `Wrappers`: `Option` and `Result`.
- `Markov`: roulette-wheel selection over a probability row, and the facing
  `Direction`. `js/app.ts` has copies of `randomPick` and `turnDirection`
  (`js/app.ts:390-404`) whose bodies are identical to those of
  `js/character.ts` (there they are private methods, in `js/app.ts`
  module-level functions), so `Markov.RandomPick`, `Markov.Pick` and
  `Markov.TurnDirection` model both.
- `Behavior`: the label lists and transition matrices (vehicle and
  non-vehicle) and `nextAction`. Random draws are passed in as samples.
- `Physics`: the physics constants and the frame's physics and walk, written
  as functions of the values they read.
- `Hover`: the RGBA pixel read back from the silhouette pass, and the hover
  test on it.
- `Character`: the `Character` class with the fields that `render`, the
  pointer handlers, `load` and the animation-complete listener update in
  place. `Render`, `ApplyForces`, `MoveWithinWindow` and `WalkStep` are
  proved against `Physics.Integrate`, `Physics.Damp`, `Physics.Advance` and
  `Physics.Walk`; `OnAnimationComplete` against `Behavior.NextAction`;
  `HandleDrag` against `Character.DragVelocity`. `Load`, `SampleHover`,
  `HandleCanvasClick`, `HandleDragStart` and `HandleDragEnd` state their new
  fields directly.
- `App`: the selector, walk, click and hover logic of `js/app.ts`. Its
  module-level variables become the class `Page`.
- `Menu`: `positionElement`.
- `Numbers`: `Math.abs`, `Math.min` and `Math.max`, shared by `Physics`,
  `Character` and `Menu`.

Numbers are Dafny `real`s. Inputs the source gets from its host are passed
in as parameters:

- `Math.random()` samples (in [0, 1));
- the frame time `delta` and event time stamps;
- `window.innerWidth`/`innerHeight` and the canvas's `offsetWidth`/`offsetHeight`;
- the pixel that `readPixels` returns;
- whether the loaded skeleton has Sit and Sleep animations.

Three behaviours one might expect that the code does not have:

- The scripted walk in `render` (`js/character.ts:428-445`) is not skipped
  while dragging. It runs whenever the label is Move.
- The walk speed is 30 px/s in `js/character.ts` and 100 px/s in `js/app.ts`.
- In `js/character.ts` the hover flag depends only on the sampled pixel.
  It is not forced true during a drag.

## Model

| member | source | states |
|---|---|---|
| `Markov.TurnDirection` | js/character.ts:545-547 | the turned direction differs from the given one |
| `Markov.TurnDirectionInvolution` | js/character.ts:545-547 | turning twice gives back the original direction |
| `Markov.PickFrom` | js/character.ts:536-542 | continuing the scan at index i gives the first j ≥ i whose running total reaches the sample; it fails exactly when every running total from i on is below the sample |
| `Markov.Pick` | js/character.ts:533-543 | roulette-wheel selection gives the smallest index whose running total p[0]+…+p[i] is ≥ the sample; it fails (the thrown "Invalid probabilities") exactly when no running total reaches it |
| `Markov.RandomPick` | js/character.ts:533-543 | the accumulator loop returns the smallest index whose running total is ≥ the sample, or fails when none is; it agrees with `Pick` on every input |
| `Markov.PickSucceedsWhenCovered` | js/character.ts:536-542 | a non-empty row whose total reaches the sample never makes the selection fail |
| `Markov.PickedWeightPositive` | js/character.ts:536-542 | with a positive sample, the chosen entry has positive probability, so a zero-probability label is never chosen |
| `Markov.PickZeroSample` | js/character.ts:536-542 | a sample of exactly 0 selects index 0 when p[0] ≥ 0 |
| `Behavior.AnimationNames` | js/character.ts:677-679 | the active label list starts Relax, Interact, Move; it contains Sit and Sleep exactly when the model is not a vehicle |
| `Behavior.AnimationNamesDistinct` | js/character.ts:677-679 | no label occurs twice in either list |
| `Behavior.AnimationMarkov` | js/character.ts:681-683 | the active matrix is square over the active labels, non-negative, every row sums to 1, and the Interact column is 0 |
| `Behavior.RowsSumToOne` | js/character.ts:18-33 | every row of both shipped matrices sums to exactly 1 |
| `Behavior.IndexOf` | js/character.ts:550 | the result is the first position of the label, or -1 exactly when the label is absent |
| `Behavior.NextAction` | js/character.ts:549-564 | a next action is a label of the active list with timestamp 0; an unknown label fails; for a known label and a sample in [0, 1) it never fails |
| `Behavior.NextActionFollowsRow` | js/character.ts:550-553 | the next label is the first label of the active list whose running total in the current label's row of the matrix reaches the sample |
| `Behavior.NextDirection` | js/character.ts:555-558 | the facing changes exactly on Relax -> Move with the second sample below 0.4, and then it is the turned facing |
| `Behavior.NextActionDirection` | js/character.ts:555-558 | the facing changes exactly on Relax → Move with the second sample < 0.4, and then it is turned |
| `Behavior.NextActionNeverInteract` | js/character.ts:549-553 | for a sample in [0, 1) the selector never picks Interact |
| `Behavior.InteractReturnsToRelax` | js/character.ts:549-564 | after Interact the selector always gives Relax, same facing, timestamp 0 |
| `Behavior.MoveRowExamples` | js/character.ts:549-564 | from Move, sample 0.1 gives Relax and sample 0.5 gives Move, facing kept |
| `Physics.Settle` | js/character.ts:389-398 | a component becomes 0 exactly when its magnitude is below MIN_VELOCITY; otherwise it is kept if within MAX_VELOCITY and clamped to ±MAX_VELOCITY with its sign if not |
| `Physics.Damp` | js/character.ts:384-398 | gravity·delta is added to vy, then both components are multiplied by DRAG; a component below MIN_VELOCITY in magnitude becomes 0, one within [MIN_VELOCITY, MAX_VELOCITY] keeps that damped value, and one above is clamped to ±MAX_VELOCITY with its sign; so each ends 0 or within [MIN_VELOCITY, MAX_VELOCITY] in magnitude |
| `Physics.Advance` | js/character.ts:401-424 | with maxX, maxY ≥ 0 the position ends in [0, maxX]×[0, maxY]; a horizontal hit puts x on the wall and sets vx to -0.7·vx; a vertical hit puts y on the floor or ceiling and sets vy to 0; otherwise the position is the integrated one and the velocity is unchanged |
| `Physics.Integrate` | js/character.ts:382-425 | one physics frame keeps the position in [0, maxX]×[0, maxY] when both are ≥ 0 |
| `Physics.BounceTurnsInward` | js/character.ts:408-415 | starting inside and moving for a positive delta, a left-wall hit leaves vx > 0 and a right-wall hit leaves vx < 0 |
| `Physics.RestingOnFloorStays` | js/character.ts:383-424 | a body at rest on the floor stays on the floor with vertical velocity 0 |
| `Physics.Walk` | js/character.ts:428-445 | heading left, a step that would reach or pass 0 ends at 0 facing right, any other moves x left by 30·delta keeping the facing; heading right, a step that would reach or pass maxX ends at maxX facing left, any other moves x right by 30·delta keeping the facing; an x in [0, maxX] stays there for delta ≥ 0 |
| `Character.VehicleFlagAsWritten` | js/character.ts:298-300 | as written, the vehicle flag is raised for a model without Sit or Sleep, is never lowered, and otherwise stays as it was (a full model loaded with the flag down leaves it down) |
| `Character.VehicleFlagSticks` | js/character.ts:298-300 | loading a full character after a vehicle keeps the vehicle flag, so Sit is missing from the active labels |
| `Character.VehicleFlag` | js/character.ts:298-300 | corrected: the active labels include Sit and Sleep exactly when the loaded model has them |
| `Character.DragVelocity` | js/character.ts:609-616 | with no previous drag event, or dt ≤ 0, the velocity is kept; otherwise velocity·dt equals the displacement on both axes |
| `Character.ThrowExample` | js/character.ts:609-616 | 50 px in 100 ms gives a throw velocity of (500, 0) px/s |
| `Character.DragGesture` | js/character.ts:578-636 | press, two moves 100 ms apart ending 50 px further right, and release: the canvas moved 50 px right, the velocity is (500, 0), and the drag is over |
| `Character.SwitchToVehicleWhileSleeping` | js/character.ts:261-285 | a sleeping character switched to a vehicle model (no Sit or Sleep) resumes as Relax from time 0 with the same facing, and the vehicle flag is set |
| `Character.Character.constructor` | js/character.ts:62-110 | field initialisers (lines 62-90, pointer events "none" at line 110), then the session restore of lines 251-259: not loaded, not a vehicle, not dragging, no drag event, zero velocity, pointer events off; the position is (-1, 1e9) and the action Relax/right/0 unless a saved state is restored |
| `Character.Character.Load` | js/character.ts:261-285 | the vehicle flag matches the model; a label missing from the active list becomes Relax with timestamp 0 and keeps its facing; x is randomised only when it is the sentinel -1, and then lands in [0, innerWidth - offsetWidth] when that is non-negative; the label invariant holds afterwards |
| `Character.Character.Render` | js/character.ts:375-445 | the action clock advances by delta; when not dragging, position and velocity follow `Integrate`; when dragging, they are untouched; the walk applies whenever the label is Move; when not dragging, with delta ≥ 0 and a canvas smaller than the window, the position ends inside the window |
| `Character.Character.ApplyForces` | js/character.ts:383-398 | the velocity becomes the settled velocity `Damp` of the old one |
| `Character.Character.MoveWithinWindow` | js/character.ts:400-424 | position and velocity become `Advance` of the old ones |
| `Character.Character.WalkStep` | js/character.ts:427-445 | x and the facing become those of `Walk`; everything else is unchanged |
| `Hover.Painted` | js/character.ts:487 | the pointer is over the character exactly when the sampled pixel, with alpha ignored, is not cleared black, that is some RGB byte is non-zero (the same test as js/app.ts:360) |
| `Hover.PaintedIgnoresAlpha` | js/character.ts:487 | alpha never changes the hover test, and a black pixel is never hovered |
| `Character.Character.SampleHover` | js/character.ts:487-493 | `isMouseOver` holds exactly when some RGB byte is non-zero, and pointer events are on exactly when `isMouseOver` holds |
| `Character.Character.OnAnimationComplete` | js/character.ts:318-324 | the current action becomes the selector's next action, or stays when the selector throws; with a sample in [0, 1) it never throws |
| `Character.Character.HandleCanvasClick` | js/character.ts:566-576 | with a loaded skeleton, the action becomes Interact with the same facing and timestamp 0; without one, nothing changes |
| `Character.Character.HandleDragStart` | js/character.ts:578-597 | button 0 or a touch starts a drag and records pointer minus position; with a loaded skeleton the action becomes Relax with the same facing and timestamp 0; another button changes nothing |
| `Character.Character.HandleDrag` | js/character.ts:599-631 | outside a drag nothing changes; during one, the position becomes pointer minus the recorded offset, the velocity follows `DragVelocity`, and the event is remembered |
| `Character.Character.HandleDragEnd` | js/character.ts:633-636 | afterwards `isDragging` is false and `lastDragEvent` is null, whatever the state before |
| `App.NextAction` | js/app.ts:406-420 | the next label is one of ANIMATION_NAMES; an unknown label fails; a known label with a sample in [0, 1) never fails |
| `App.AgreesWithCharacterSelector` | js/app.ts:390-420 | the app.ts selector fails exactly when the character.ts selector (non-vehicle) does, and otherwise gives the same label and facing |
| `App.NextActionDirection` | js/app.ts:412-415 | the facing changes exactly on Relax → Move with the second sample < 0.4 |
| `App.Walk` | js/app.ts:313-330 | heading left, a step that would reach or pass 0 ends at 0 facing right, any other subtracts 100·delta keeping the facing; heading right, add 100·delta without clamping, and turn left exactly when left + canvas width ≥ innerWidth |
| `App.WalkOvershootsRightEdge` | js/app.ts:323-329 | a step can leave the canvas past the right edge of the window |
| `App.Page.constructor` | js/app.ts:163-166 | no character yet, pointer events off, left 0 |
| `App.Page.Load` | js/app.ts:221-278 | once loaded, the action is Relax facing right |
| `App.Page.Render` | js/app.ts:312-330 | while the label is Move, left and the facing follow `App.Walk`; otherwise nothing changes |
| `App.Page.SampleHover` | js/app.ts:360-368 | pointer events are on, and the cursor is grab, exactly when some RGB byte is non-zero |
| `App.Page.OnAnimationComplete` | js/app.ts:260-267 | the action becomes the selector's next action and never throws for a sample in [0, 1) |
| `App.Page.HandleCanvasClick` | js/app.ts:422-431 | with a loaded character, the action becomes Interact with the same facing; without one, nothing changes |
| `Menu.PositionElement` | js/menu.ts:4-25 | top ≤ y and top ≤ innerHeight - offsetHeight - 1, with top equal to one of the two; main menu: left ≤ x and left ≤ innerWidth - offsetWidth - 1, with left equal to one of the two; submenu: left = x when it fits, otherwise its right edge meets the parent's left edge |
| `Menu.MainMenuIsMin` | js/menu.ts:9-21 | the main menu's left and top are `Math.min` of the requested point and the window size less the element size less 1 |
| `Menu.MainMenuFitsOnScreen` | js/menu.ts:9-21 | a main menu that fits the window and is requested at an on-screen point lies fully on screen |
| `Menu.OversizedMenuGoesNegative` | js/menu.ts:9-21 | no lower bound is enforced: an element larger than the window gets negative left and top |

## Findings

| source | as written | input that shows it | evidently intended | confidence | as-written member | corrected member |
|---|---|---|---|---|---|---|
| js/character.ts:298-300 | `isVehicle` is set to true when the model lacks Sit or Sleep, and nothing ever sets it back to false | load a vehicle, then switch to a character that has Sit and Sleep: `isVehicle` stays true, so Sit and Sleep are never selected for it | the active label list is that of the loaded model | not executed; high | `Character.VehicleFlagAsWritten` (with `Character.VehicleFlagSticks`) | `Character.VehicleFlag`, used by `Character.Character.Load` |

## Left out

- Floating point: all arithmetic is exact. Effects such as row sums of
  0.5 + 0.25 + 0.15 + 0.1 in binary are not modelled.
- WebGL: context and framebuffer setup, shaders, quad drawing, `readPixels`
  and uniform uploads. Only the hover test on the pixel already read is kept.
  The mapping from pointer to framebuffer coordinates
  (js/character.ts:475-477) is left out too.
- The Spine runtime is not part of this model: asset manager, skeleton
  loading, `AnimationState`, mixes, bounds. "Animation complete" is an
  event that calls `OnAnimationComplete`. "Model has Sit and Sleep" is a
  parameter of `Load`.
- `requestAnimationFrame` scheduling, the loading poll, the `Date.now()`
  delta, and event-listener wiring in `setupEventListeners`/`destroy`. These
  are host timing and I/O; `delta` and time stamps are parameters.
- `sessionStorage` save and restore. A restored state is an optional
  constructor argument, without JSON decoding.
- `fadeOut`: a timer-driven opacity loop.
- Canvas sizing and CSS writes (`js/character.ts:329-350, 448-449`) and the
  `style.left` string round trip of `js/app.ts`. `App.Page.left` holds the
  number directly.
- The DOM construction of the menus. `js/menu.ts` also calls
  `loadCharacterModel` and `playAnimation`, and neither exists in
  `js/character.ts`, so neither is part of this model.
- `handleMouseMove` (it only records the pointer for the pixel lookup),
  and `preventDefault` on touch moves.
- A touch event with no touch point (`touches[0]` undefined) is not
  modelled: `TouchEvent` always carries the first touch point's coordinates.
- `Character.Character.Load`: uses the corrected vehicle flag, not the
  as-written one (see Findings).
