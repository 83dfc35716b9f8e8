/** The per-frame character controller of js/character.ts: the fields that
    `render`, the pointer handlers, `load` and the animation-complete listener
    update in place. */
module Character {
  import opened Wrappers
  import opened Markov
  import opened Behavior
  import opened Physics
  import opened Numbers
  import opened Hover

  /** The parts of a mouse or touch event the handlers read. For a touch
      event the coordinates are those of its first touch point; a touch
      event has no `button`. */
  datatype PointerEvent =
    | MouseEvent(button: int, clientX: real, clientY: real, timeStamp: real)
    | TouchEvent(clientX: real, clientY: real, timeStamp: real)

  /** The state `loadFromSessionStorage` restores. */
  datatype Saved = Saved(position: Vec, currentAction: Action)

  /** Lines 298-300 as written: the vehicle flag is raised when the model
      lacks Sit or Sleep, and never lowered again. */
  function VehicleFlagAsWritten(wasVehicle: bool, hasSitAndSleep: bool): (isVehicle: bool)
    ensures !hasSitAndSleep ==> isVehicle
    ensures wasVehicle ==> isVehicle
    ensures isVehicle ==> wasVehicle || !hasSitAndSleep
  {
    if !hasSitAndSleep then true else wasVehicle
  }

  /** After a vehicle, a full character loaded as written keeps the reduced
      label list: Sit and Sleep can never be selected for it. */
  lemma VehicleFlagSticks()
    ensures VehicleFlagAsWritten(true, true)
    ensures "Sit" !in AnimationNames(VehicleFlagAsWritten(true, true))
  {
  }

  /** The vehicle flag as evidently intended: the active label list offers
      Sit and Sleep exactly when the loaded model has them. */
  function VehicleFlag(hasSitAndSleep: bool): (isVehicle: bool)
    ensures ("Sit" in AnimationNames(isVehicle) && "Sleep" in AnimationNames(isVehicle)) <==> hasSitAndSleep
  {
    !hasSitAndSleep
  }

  class Character {
    var position: Vec
    var velocity: Vec
    var currentAction: Action
    var isDragging: bool
    var dragStartRelativeX: real
    var dragStartRelativeY: real
    /** `lastDragEvent`, reduced to its `timeStamp` in milliseconds. */
    var lastDragEvent: Option<real>
    var isMouseOver: bool
    /** `canvas.style.pointerEvents` is "auto" (true) or "none" (false). */
    var pointerEventsAuto: bool
    var isVehicle: bool
    /** `this.character && this.character.state`: a skeleton has been loaded. */
    var loaded: bool

    /** Once loaded, the current label has a row in the active matrix; outside
        a drag there is no remembered drag event. */
    ghost predicate Valid()
      reads this
    {
      && (loaded ==> currentAction.animation in AnimationNames(isVehicle))
      && (!isDragging ==> lastDragEvent == None)
    }

    /** The field initialisers, then `loadFromSessionStorage` when a saved
        state exists. */
    constructor(saved: Option<Saved>)
      ensures Valid() && !loaded && !isVehicle
      ensures !isDragging && lastDragEvent == None && velocity == Vec(0.0, 0.0)
      ensures !isMouseOver && !pointerEventsAuto
      ensures saved.None? ==> position == Vec(-1.0, 1000000000.0) && currentAction == Action("Relax", Right, 0.0)
      ensures saved.Some? ==> position == saved.value.position && currentAction == saved.value.currentAction
    {
      isMouseOver := false;
      isDragging := false;
      dragStartRelativeX := 0.0;
      dragStartRelativeY := 0.0;
      lastDragEvent := None;
      velocity := Vec(0.0, 0.0);
      currentAction := Action("Relax", Right, 0.0);
      position := Vec(-1.0, 1000000000.0);
      isVehicle := false;
      loaded := false;
      pointerEventsAuto := false;
      if saved.Some? {
        position := saved.value.position;
        currentAction := saved.value.currentAction;
      }
    }

    /** The completed branch of `load`: the skeleton is in place, a label the
        new model lacks falls back to Relax at time 0, and an unset x (the
        sentinel -1) becomes `random` times the room left beside the canvas. */
    method Load(hasSitAndSleep: bool, random: real, innerWidth: real, offsetWidth: real)
      requires Valid() && 0.0 <= random < 1.0
      modifies this
      ensures Valid() && loaded
      ensures isVehicle == VehicleFlag(hasSitAndSleep)
      ensures old(currentAction.animation) in AnimationNames(isVehicle) ==> currentAction == old(currentAction)
      ensures old(currentAction.animation) !in AnimationNames(isVehicle) ==>
                currentAction == Action("Relax", old(currentAction.direction), 0.0)
      ensures position.y == old(position.y)
      ensures old(position.x) != -1.0 ==> position.x == old(position.x)
      ensures old(position.x) == -1.0 ==> position.x == random * (innerWidth - offsetWidth)
      ensures old(position.x) == -1.0 && offsetWidth <= innerWidth ==> 0.0 <= position.x <= innerWidth - offsetWidth
      ensures velocity == old(velocity) && isDragging == old(isDragging) && lastDragEvent == old(lastDragEvent)
      ensures dragStartRelativeX == old(dragStartRelativeX) && dragStartRelativeY == old(dragStartRelativeY)
      ensures isMouseOver == old(isMouseOver) && pointerEventsAuto == old(pointerEventsAuto)
    {
      isVehicle := VehicleFlag(hasSitAndSleep);
      loaded := true;
      if currentAction.animation !in AnimationNames(isVehicle) {
        currentAction := currentAction.(animation := "Relax", timestamp := 0.0);
      }
      if position.x == -1.0 {
        var room := innerWidth - offsetWidth;
        position := position.(x := random * room);
        if 0.0 <= room {
          assert random * room <= 1.0 * room;
        }
      }
    }

    /** The state update of one `render` frame, `delta` seconds after the
        last: the action clock advances, physics runs unless dragging, and the
        scripted walk runs whenever the label is Move. The viewport and canvas
        sizes are `window.innerWidth/innerHeight` and the canvas's
        `offsetWidth/offsetHeight`. */
    method Render(delta: real, innerWidth: real, innerHeight: real, offsetWidth: real, offsetHeight: real)
      requires Valid()
      modifies this
      ensures Valid()
      ensures currentAction.animation == old(currentAction.animation)
      ensures currentAction.timestamp == old(currentAction.timestamp) + delta
      ensures var body :=
                if old(isDragging) then Body(old(position), old(velocity))
                else Integrate(Body(old(position), old(velocity)), delta, innerWidth - offsetWidth, innerHeight - offsetHeight);
              && velocity == body.velocity
              && position.y == body.position.y
              && if old(currentAction.animation) == "Move" then
                   var s := Walk(body.position.x, old(currentAction.direction), delta, innerWidth - offsetWidth);
                   position.x == s.x && currentAction.direction == s.direction
                 else
                   position.x == body.position.x && currentAction.direction == old(currentAction.direction)
      ensures !old(isDragging) && 0.0 <= delta && offsetWidth <= innerWidth && offsetHeight <= innerHeight ==>
                0.0 <= position.x <= innerWidth - offsetWidth && 0.0 <= position.y <= innerHeight - offsetHeight
      ensures isDragging == old(isDragging) && lastDragEvent == old(lastDragEvent)
      ensures dragStartRelativeX == old(dragStartRelativeX) && dragStartRelativeY == old(dragStartRelativeY)
      ensures isVehicle == old(isVehicle) && loaded == old(loaded)
      ensures isMouseOver == old(isMouseOver) && pointerEventsAuto == old(pointerEventsAuto)
    {
      currentAction := currentAction.(timestamp := currentAction.timestamp + delta);
      if !isDragging {
        ApplyForces(delta);
        MoveWithinWindow(delta, innerWidth - offsetWidth, innerHeight - offsetHeight);
      }
      if currentAction.animation == "Move" {
        WalkStep(delta, innerWidth - offsetWidth);
      }
    }

    /** Lines 384-398: gravity, drag, the stop threshold and the clamp. */
    method ApplyForces(delta: real)
      modifies this`velocity
      ensures velocity == Damp(old(velocity), delta)
    {
      velocity := velocity.(y := velocity.y + GRAVITY * delta);
      velocity := Vec(velocity.x * DRAG, velocity.y * DRAG);
      if Abs(velocity.x) < MIN_VELOCITY {
        velocity := velocity.(x := 0.0);
      }
      if Abs(velocity.y) < MIN_VELOCITY {
        velocity := velocity.(y := 0.0);
      }
      velocity := Vec(Max(-MAX_VELOCITY, Min(MAX_VELOCITY, velocity.x)),
                      Max(-MAX_VELOCITY, Min(MAX_VELOCITY, velocity.y)));
    }

    /** Lines 401-424: integrate the position, then bounce off the walls and
        stop at the floor and ceiling. */
    method MoveWithinWindow(delta: real, maxX: real, maxY: real)
      modifies this`position, this`velocity
      ensures Body(position, velocity) == Advance(old(position), old(velocity), delta, maxX, maxY)
    {
      var x, y := position.x + velocity.x * delta, position.y + velocity.y * delta;
      var vx, vy := velocity.x, velocity.y;
      if x < 0.0 {
        x, vx := 0.0, -vx * BOUNCE_DAMPING;
      } else if x > maxX {
        x, vx := maxX, -vx * BOUNCE_DAMPING;
      }
      if y < 0.0 {
        y, vy := 0.0, 0.0;
      } else if y > maxY {
        y, vy := maxY, 0.0;
      }
      position, velocity := Vec(x, y), Vec(vx, vy);
    }

    /** Lines 428-445: one frame of the scripted walk, turning around at the
        edges 0 and `maxX`. */
    method WalkStep(delta: real, maxX: real)
      modifies this`position, this`currentAction
      ensures var s := Walk(old(position.x), old(currentAction.direction), delta, maxX);
              position == old(position).(x := s.x) && currentAction == old(currentAction).(direction := s.direction)
    {
      var movement := MOVING_SPEED * delta;
      if currentAction.direction == Left {
        position := position.(x := Max(0.0, position.x - movement));
        if position.x <= 0.0 {
          position := position.(x := 0.0);
          currentAction := currentAction.(direction := Right);
        }
      } else {
        position := position.(x := position.x + movement);
        if position.x >= maxX {
          position := position.(x := maxX);
          currentAction := currentAction.(direction := Left);
        }
      }
    }

    /** The hover test of `render`: the pointer is over the character exactly
        when the sampled pixel has a non-zero colour channel, and the canvas
        takes pointer events exactly then. */
    method SampleHover(pixel: Rgba)
      modifies this`isMouseOver, this`pointerEventsAuto
      ensures isMouseOver <==> (pixel.r != 0 || pixel.g != 0 || pixel.b != 0)
      ensures pointerEventsAuto == isMouseOver
    {
      isMouseOver := Painted(pixel);
      if isMouseOver {
        pointerEventsAuto := true;
      } else {
        pointerEventsAuto := false;
      }
    }

    /** The animation-complete listener: the selector's next action replaces
        the current one; when `nextAction` throws, nothing changes. */
    method OnAnimationComplete(pick: real, turn: real) returns (ok: bool)
      requires Valid() && loaded
      modifies this`currentAction
      ensures Valid()
      ensures ok <==> NextAction(isVehicle, old(currentAction), pick, turn).Success?
      ensures ok ==> currentAction == NextAction(isVehicle, old(currentAction), pick, turn).value
      ensures !ok ==> currentAction == old(currentAction)
      ensures 0.0 <= pick < 1.0 ==> ok
    {
      var action := NextAction(isVehicle, currentAction, pick, turn);
      if action.Success? {
        currentAction := action.value;
        ok := true;
      } else {
        ok := false;
      }
    }

    /** `handleCanvasClick`: with a loaded skeleton, play Interact from time 0
        keeping the facing. */
    method HandleCanvasClick()
      requires Valid()
      modifies this`currentAction
      ensures Valid()
      ensures old(loaded) ==> currentAction == Action("Interact", old(currentAction.direction), 0.0)
      ensures !old(loaded) ==> currentAction == old(currentAction)
    {
      if loaded {
        currentAction := Action("Interact", currentAction.direction, 0.0);
      }
    }

    /** `handleDragStart`: the primary mouse button or a touch starts a drag,
        records the pointer's offset from the canvas corner and, with a loaded
        skeleton, switches to Relax from time 0 keeping the facing. */
    method HandleDragStart(e: PointerEvent)
      requires Valid()
      modifies this
      ensures Valid()
      ensures var starts := e.TouchEvent? || e.button == 0;
              && isDragging == (starts || old(isDragging))
              && (starts ==> dragStartRelativeX == e.clientX - position.x
                             && dragStartRelativeY == e.clientY - position.y)
              && (!starts ==> dragStartRelativeX == old(dragStartRelativeX)
                              && dragStartRelativeY == old(dragStartRelativeY))
              && (starts && old(loaded) ==> currentAction == Action("Relax", old(currentAction.direction), 0.0))
              && (!(starts && old(loaded)) ==> currentAction == old(currentAction))
      ensures position == old(position) && velocity == old(velocity) && lastDragEvent == old(lastDragEvent)
      ensures isVehicle == old(isVehicle) && loaded == old(loaded)
      ensures isMouseOver == old(isMouseOver) && pointerEventsAuto == old(pointerEventsAuto)
    {
      if e.TouchEvent? || e.button == 0 {
        isDragging := true;
        dragStartRelativeX := e.clientX - position.x;
        dragStartRelativeY := e.clientY - position.y;
        if loaded {
          currentAction := Action("Relax", currentAction.direction, 0.0);
        }
      }
    }

    /** `handleDrag`: while dragging, the canvas follows the pointer at the
        offset recorded on drag start, and the throw velocity is re-estimated
        from the move since the previous drag event. Outside a drag nothing
        changes. */
    method HandleDrag(e: PointerEvent)
      requires Valid()
      modifies this
      ensures Valid()
      ensures !old(isDragging) ==> position == old(position) && velocity == old(velocity) && lastDragEvent == old(lastDragEvent)
      ensures old(isDragging) ==>
                && position == Vec(e.clientX - dragStartRelativeX, e.clientY - dragStartRelativeY)
                && velocity == DragVelocity(old(velocity), old(position), position, old(lastDragEvent), e.timeStamp)
                && lastDragEvent == Some(e.timeStamp)
      ensures isDragging == old(isDragging) && currentAction == old(currentAction)
      ensures dragStartRelativeX == old(dragStartRelativeX) && dragStartRelativeY == old(dragStartRelativeY)
      ensures isVehicle == old(isVehicle) && loaded == old(loaded)
      ensures isMouseOver == old(isMouseOver) && pointerEventsAuto == old(pointerEventsAuto)
    {
      if isDragging {
        var oldX := position.x;
        var oldY := position.y;
        var newX := e.clientX - dragStartRelativeX;
        var newY := e.clientY - dragStartRelativeY;

        if lastDragEvent.Some? {
          var dt := (e.timeStamp - lastDragEvent.value) / 1000.0;
          if dt > 0.0 {
            velocity := Vec((newX - oldX) / dt, (newY - oldY) / dt);
          }
        }

        position := Vec(newX, newY);
        lastDragEvent := Some(e.timeStamp);
      }
    }

    /** `handleDragEnd`: whatever the state, the drag is over and the last drag
        event forgotten; the velocity is kept as the throw. */
    method HandleDragEnd()
      requires Valid()
      modifies this`isDragging, this`lastDragEvent
      ensures Valid()
      ensures !isDragging && lastDragEvent == None
    {
      isDragging := false;
      lastDragEvent := None;
    }
  }

  /** The velocity after a drag move from `oldPos` to `newPos` at time `now`
      (milliseconds): with a previous event `dt` seconds earlier and `dt > 0`
      it is the displacement per second, otherwise the velocity is kept. */
  function DragVelocity(velocity: Vec, oldPos: Vec, newPos: Vec, last: Option<real>, now: real): (v: Vec)
    ensures last.None? || now <= last.value ==> v == velocity
    ensures last.Some? && now > last.value ==>
              var dt := (now - last.value) / 1000.0;
              v.x * dt == newPos.x - oldPos.x && v.y * dt == newPos.y - oldPos.y
  {
    if last.Some? && (now - last.value) / 1000.0 > 0.0 then
      var dt := (now - last.value) / 1000.0;
      Vec((newPos.x - oldPos.x) / dt, (newPos.y - oldPos.y) / dt)
    else velocity
  }

  /** A drag of 50 px to the right over 100 ms is a throw at 500 px/s. */
  lemma ThrowExample()
    ensures DragVelocity(Vec(0.0, 0.0), Vec(100.0, 100.0), Vec(150.0, 100.0), Some(1000.0), 1100.0) == Vec(500.0, 0.0)
  {
  }

  /** A whole mouse gesture: press 20 px right of and 30 px below the canvas
      corner, move twice 100 ms apart (the second time 50 px to the right),
      release. The canvas has followed the pointer and is thrown at 500 px/s
      to the right. */
  method DragGesture(c: Character)
    requires c.Valid() && !c.isDragging
    modifies c
    ensures c.Valid() && !c.isDragging && c.lastDragEvent == None
    ensures c.position == Vec(old(c.position.x) + 50.0, old(c.position.y))
    ensures c.velocity == Vec(500.0, 0.0)
  {
    var x, y := c.position.x, c.position.y;
    c.HandleDragStart(MouseEvent(0, x + 20.0, y + 30.0, 1000.0));
    c.HandleDrag(MouseEvent(0, x + 20.0, y + 30.0, 1000.0));
    c.HandleDrag(MouseEvent(0, x + 70.0, y + 30.0, 1100.0));
    c.HandleDragEnd();
  }

  /** Switching to a vehicle while the character sleeps: Sleep has no row in
      the vehicle's matrix, so the action falls back to Relax from time 0
      with the same facing. */
  method SwitchToVehicleWhileSleeping(c: Character, d: Direction)
    requires c.Valid() && c.currentAction == Action("Sleep", d, 12.5)
    modifies c
    ensures c.Valid() && c.isVehicle
    ensures c.currentAction == Action("Relax", d, 0.0)
  {
    c.Load(false, 0.5, 1000.0, 200.0);
  }
}
