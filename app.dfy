/** js/app.ts, the earlier single-file version: the same selector over the
    five-label matrix (its ANIMATION_NAMES and ANIMATION_MARKOV at lines 60-67
    are equal to those of js/character.ts, so `Behavior`'s constants are used),
    a faster walk with a different right-edge rule, the click handler and the
    hover test. Its module-level variables `character` and `canvas` become the
    fields of `Page`. */
module App {
  import opened Wrappers
  import opened Markov
  import Behavior
  import opened Hover

  const MOVE_SPEED: real := 100.0  // pixels per second

  /** An action of app.ts: no elapsed time is kept. */
  datatype AppAction = AppAction(animation: string, direction: Direction)

  /** Where a walk step leaves `canvas.style.left` and the facing. */
  datatype Step = Step(left: real, direction: Direction)

  /** `nextAction` of app.ts, with its two `Math.random()` draws passed in. */
  function NextAction(current: AppAction, pick: real, turn: real): (r: Result<AppAction, Behavior.SelectError>)
    ensures r.Success? ==> r.value.animation in Behavior.ANIMATION_NAMES
    ensures current.animation !in Behavior.ANIMATION_NAMES ==> r == Failure(Behavior.UnknownAnimation)
    ensures current.animation in Behavior.ANIMATION_NAMES && 0.0 <= pick < 1.0 ==> r.Success?
  {
    var animeIndex := Behavior.IndexOf(Behavior.ANIMATION_NAMES, current.animation);
    if animeIndex < 0 then Failure(Behavior.UnknownAnimation)
    else
      assert Behavior.Stochastic(Behavior.ANIMATION_NAMES, Behavior.ANIMATION_MARKOV) by {
        assert Behavior.AnimationMarkov(false) == Behavior.ANIMATION_MARKOV;
      }
      var nextIndexProb := Behavior.ANIMATION_MARKOV[animeIndex];
      assert 0.0 <= pick < 1.0 ==> Pick(nextIndexProb, pick).Some? by {
        if 0.0 <= pick < 1.0 {
          PickSucceedsWhenCovered(nextIndexProb, pick);
        }
      }
      match Pick(nextIndexProb, pick)
      case None => Failure(Behavior.InvalidProbabilities)
      case Some(nextAnimIndex) =>
        var nextAnim := Behavior.ANIMATION_NAMES[nextAnimIndex];
        var nextDirection :=
          if current.animation == "Relax" && nextAnim == "Move" then
            (if turn < 0.4 then TurnDirection(current.direction) else current.direction)
          else current.direction;
        Success(AppAction(nextAnim, nextDirection))
  }

  /** The app.ts selector is the character.ts selector for a full character
      with the elapsed time dropped: both fail on the same inputs and agree on
      label and facing otherwise. */
  lemma AgreesWithCharacterSelector(current: AppAction, t: real, pick: real, turn: real)
    ensures var a := NextAction(current, pick, turn);
            var c := Behavior.NextAction(false, Behavior.Action(current.animation, current.direction, t), pick, turn);
            && (a.Success? <==> c.Success?)
            && (a.Failure? ==> a.error == c.error)
            && (a.Success? ==> a.value == AppAction(c.value.animation, c.value.direction))
  {
  }

  /** Facing survives every transition but Relax -> Move, which flips it
      exactly when the second sample is below 0.4. */
  lemma NextActionDirection(current: AppAction, pick: real, turn: real)
    ensures var r := NextAction(current, pick, turn);
            r.Success? ==>
              ((r.value.direction != current.direction) <==>
                 (current.animation == "Relax" && r.value.animation == "Move" && turn < 0.4))
  {
  }

  /** The walk of app.ts while the label is Move (lines 313-330). Heading
      left the canvas stops at 0 and turns right. Heading right it turns once
      its right edge reaches the window's, but `left` is not pulled back. */
  function Walk(left: real, direction: Direction, delta: real, canvasWidth: real, innerWidth: real): (s: Step)
    ensures direction == Left ==> 0.0 <= s.left
    ensures direction == Left ==> (s.direction == Right <==> s.left == 0.0)
    ensures direction == Left && left - MOVE_SPEED * delta > 0.0 ==> s == Step(left - MOVE_SPEED * delta, Left)
    ensures direction == Left && left - MOVE_SPEED * delta <= 0.0 ==> s == Step(0.0, Right)
    ensures direction == Right ==> s.left == left + MOVE_SPEED * delta
    ensures direction == Right ==> (s.direction == Left <==> s.left + canvasWidth >= innerWidth)
  {
    var movement := MOVE_SPEED * delta;
    if direction == Left then
      var moved := left - movement;
      if moved <= 0.0 then Step(0.0, Right) else Step(moved, Left)
    else
      var moved := left + movement;
      if moved + canvasWidth >= innerWidth then Step(moved, Left) else Step(moved, Right)
  }

  /** Unlike js/character.ts, the right edge can be overshot: one 0.1 s step
      from 895 with a 100 px canvas in a 1000 px window ends with the canvas
      reaching 1005. */
  lemma WalkOvershootsRightEdge()
    ensures Walk(895.0, Right, 0.1, 100.0, 1000.0) == Step(905.0, Left)
    ensures Walk(895.0, Right, 0.1, 100.0, 1000.0).left + 100.0 > 1000.0
  {
  }

  /** The module-level state of app.ts that the modelled code updates. */
  class Page {
    /** `canvas.style.left` as `parseFloat` reads it (an unset style reads 0). */
    var left: real
    /** `character.currentAction`. */
    var currentAction: AppAction
    /** `character && character.state`: the skeleton has been loaded. */
    var loaded: bool
    /** `canvas.style.cursor` is "grab" (true) or "default" (false). */
    var cursorGrab: bool
    /** `canvas.style.pointerEvents` is "auto" (true) or "none" (false). */
    var pointerEventsAuto: bool

    ghost predicate Valid()
      reads this
    {
      currentAction.animation in Behavior.ANIMATION_NAMES
    }

    /** `init` leaves pointer events off; no character is loaded yet. */
    constructor()
      ensures Valid() && !loaded && left == 0.0 && !pointerEventsAuto && !cursorGrab
    {
      left := 0.0;
      currentAction := AppAction("Relax", Right);
      loaded := false;
      cursorGrab := false;
      pointerEventsAuto := false;
    }

    /** `load` once the assets are in: the character starts relaxing, facing right. */
    method Load()
      modifies this`loaded, this`currentAction
      ensures Valid() && loaded && currentAction == AppAction("Relax", Right)
    {
      loaded := true;
      currentAction := AppAction("Relax", Right);
    }

    /** The walk part of `render`: only while the label is Move. */
    method Render(delta: real, canvasWidth: real, innerWidth: real)
      requires Valid()
      modifies this`left, this`currentAction
      ensures Valid()
      ensures old(currentAction.animation) == "Move" ==>
                var s := Walk(old(left), old(currentAction.direction), delta, canvasWidth, innerWidth);
                left == s.left && currentAction == AppAction("Move", s.direction)
      ensures old(currentAction.animation) != "Move" ==> left == old(left) && currentAction == old(currentAction)
    {
      if currentAction.animation == "Move" {
        var movement := MOVE_SPEED * delta;
        if currentAction.direction == Left {
          left := left - movement;
          if left <= 0.0 {
            left := 0.0;
            currentAction := currentAction.(direction := Right);
          }
        } else {
          left := left + movement;
          if left + canvasWidth >= innerWidth {
            currentAction := currentAction.(direction := Left);
          }
        }
      }
    }

    /** The hover test of `render`: a non-zero colour channel shows the grab
        cursor and lets the canvas take pointer events; otherwise neither. */
    method SampleHover(pixel: Rgba)
      modifies this`cursorGrab, this`pointerEventsAuto
      ensures pointerEventsAuto <==> (pixel.r != 0 || pixel.g != 0 || pixel.b != 0)
      ensures cursorGrab == pointerEventsAuto
    {
      if Painted(pixel) {
        cursorGrab := true;
        pointerEventsAuto := true;
      } else {
        cursorGrab := false;
        pointerEventsAuto := false;
      }
    }

    /** The animation-complete listener: the selector's next action replaces
        the current one; for a sample in [0, 1) it never throws. */
    method OnAnimationComplete(pick: real, turn: real) returns (ok: bool)
      requires Valid()
      modifies this`currentAction
      ensures Valid()
      ensures ok <==> NextAction(old(currentAction), pick, turn).Success?
      ensures ok ==> currentAction == NextAction(old(currentAction), pick, turn).value
      ensures !ok ==> currentAction == old(currentAction)
      ensures 0.0 <= pick < 1.0 ==> ok
    {
      var action := NextAction(currentAction, pick, turn);
      if action.Success? {
        currentAction := action.value;
        ok := true;
      } else {
        ok := false;
      }
    }

    /** `handleCanvasClick`: with a loaded character, play Interact keeping
        the facing; otherwise nothing happens. */
    method HandleCanvasClick()
      requires Valid()
      modifies this`currentAction
      ensures Valid()
      ensures old(loaded) ==> currentAction == AppAction("Interact", old(currentAction.direction))
      ensures !old(loaded) ==> currentAction == old(currentAction)
    {
      if loaded {
        currentAction := AppAction("Interact", currentAction.direction);
      }
    }
  }
}
