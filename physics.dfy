/** The per-frame physics step and the scripted walk of js/character.ts
    (`render`, lines 381-445), as functions of the values they read. The
    `Character` class performs the same steps in place on its fields. */
module Physics {
  import opened Markov
  import opened Numbers

  const MOVING_SPEED: real := 30.0     // pixels per second
  const GRAVITY: real := 1000.0        // pixels per second squared
  const DRAG: real := 0.98             // air resistance, applied once per frame
  const MAX_VELOCITY: real := 1000.0   // pixels per second
  const MIN_VELOCITY: real := 5.0      // threshold for stopping
  const BOUNCE_DAMPING: real := 0.7    // energy kept on a wall bounce

  datatype Vec = Vec(x: real, y: real)

  /** Position and velocity of the character's canvas, in page pixels. */
  datatype Body = Body(position: Vec, velocity: Vec)

  /** Where a walk step leaves the x coordinate and the facing. */
  datatype Stride = Stride(x: real, direction: Direction)

  /** A velocity component the integrator may use: at rest, or at least
      MIN_VELOCITY and at most MAX_VELOCITY in magnitude. */
  predicate Settled(v: real)
  {
    (v == 0.0 || MIN_VELOCITY <= Abs(v)) && -MAX_VELOCITY <= v <= MAX_VELOCITY
  }

  /** One velocity component after the stop threshold and the clamp. */
  function Settle(v: real): (r: real)
    ensures Settled(r)
    ensures r == 0.0 <==> Abs(v) < MIN_VELOCITY
    ensures MIN_VELOCITY <= Abs(v) <= MAX_VELOCITY ==> r == v
    ensures MAX_VELOCITY < Abs(v) ==> Abs(r) == MAX_VELOCITY && (r > 0.0 <==> v > 0.0)
  {
    var stopped := if Abs(v) < MIN_VELOCITY then 0.0 else v;
    Max(-MAX_VELOCITY, Min(MAX_VELOCITY, stopped))
  }

  /** The velocity the integrator moves by: gravity, then drag on both
      components, then the stop threshold and the clamp. */
  function Damp(v: Vec, delta: real): (r: Vec)
    ensures Settled(r.x) && Settled(r.y)
    ensures Abs(v.x * DRAG) < MIN_VELOCITY <==> r.x == 0.0
    ensures Abs((v.y + GRAVITY * delta) * DRAG) < MIN_VELOCITY <==> r.y == 0.0
    ensures MIN_VELOCITY <= Abs(v.x * DRAG) <= MAX_VELOCITY ==> r.x == v.x * DRAG
    ensures MAX_VELOCITY < Abs(v.x * DRAG) ==> r.x == (if v.x * DRAG > 0.0 then MAX_VELOCITY else -MAX_VELOCITY)
    ensures var vy := (v.y + GRAVITY * delta) * DRAG;
            MIN_VELOCITY <= Abs(vy) <= MAX_VELOCITY ==> r.y == vy
    ensures var vy := (v.y + GRAVITY * delta) * DRAG;
            MAX_VELOCITY < Abs(vy) ==> r.y == (if vy > 0.0 then MAX_VELOCITY else -MAX_VELOCITY)
  {
    var vy := v.y + GRAVITY * delta;
    Vec(Settle(v.x * DRAG), Settle(vy * DRAG))
  }

  /** Lines 401-424: move by velocity `v` over `delta` seconds, then keep the
      canvas inside [0, maxX] x [0, maxY]. A wall hit reverses the horizontal
      velocity and keeps BOUNCE_DAMPING of it; a floor or ceiling hit stops
      vertical motion. */
  function Advance(p: Vec, v: Vec, delta: real, maxX: real, maxY: real): (r: Body)
    ensures 0.0 <= maxX ==> 0.0 <= r.position.x <= maxX
    ensures 0.0 <= maxY ==> 0.0 <= r.position.y <= maxY
    ensures var x := p.x + v.x * delta;
            if x < 0.0 then r.position.x == 0.0 && r.velocity.x == -v.x * BOUNCE_DAMPING
            else if x > maxX then r.position.x == maxX && r.velocity.x == -v.x * BOUNCE_DAMPING
            else r.position.x == x && r.velocity.x == v.x
    ensures var y := p.y + v.y * delta;
            if y < 0.0 then r.position.y == 0.0 && r.velocity.y == 0.0
            else if y > maxY then r.position.y == maxY && r.velocity.y == 0.0
            else r.position.y == y && r.velocity.y == v.y
  {
    var x := p.x + v.x * delta;
    var y := p.y + v.y * delta;
    var px := if x < 0.0 then 0.0 else if x > maxX then maxX else x;
    var vx := if x < 0.0 || x > maxX then -v.x * BOUNCE_DAMPING else v.x;
    var py := if y < 0.0 then 0.0 else if y > maxY then maxY else y;
    var vy := if y < 0.0 || y > maxY then 0.0 else v.y;
    Body(Vec(px, py), Vec(vx, vy))
  }

  /** The physics block of one frame when not dragging (lines 383-424):
      settle the velocity, then advance and confine. */
  function Integrate(b: Body, delta: real, maxX: real, maxY: real): (r: Body)
    ensures 0.0 <= maxX ==> 0.0 <= r.position.x <= maxX
    ensures 0.0 <= maxY ==> 0.0 <= r.position.y <= maxY
  {
    Advance(b.position, Damp(b.velocity, delta), delta, maxX, maxY)
  }

  /** A wall bounce sends the character back into the window: after hitting
      the left wall it moves right, after hitting the right wall it moves left. */
  lemma BounceTurnsInward(b: Body, delta: real, maxX: real, maxY: real)
    requires 0.0 <= b.position.x <= maxX && 0.0 < delta
    ensures var v := Damp(b.velocity, delta);
            b.position.x + v.x * delta < 0.0 ==> Integrate(b, delta, maxX, maxY).velocity.x > 0.0
    ensures var v := Damp(b.velocity, delta);
            b.position.x + v.x * delta > maxX ==> Integrate(b, delta, maxX, maxY).velocity.x < 0.0
  {
    var v := Damp(b.velocity, delta);
    var r := Advance(b.position, v, delta, maxX, maxY);
    assert Integrate(b, delta, maxX, maxY) == r;
    if b.position.x + v.x * delta < 0.0 {
      assert v.x * delta < 0.0;
      assert v.x < 0.0;
    } else if b.position.x + v.x * delta > maxX {
      assert v.x * delta > 0.0;
      assert v.x > 0.0;
    }
  }

  /** A character resting on the floor stays there: a frame of gravity is
      absorbed by the floor stop. */
  lemma RestingOnFloorStays(b: Body, delta: real, maxX: real, maxY: real)
    requires 0.0 <= maxY && b.position.y == maxY && b.velocity.y == 0.0 && 0.0 <= delta
    ensures Integrate(b, delta, maxX, maxY).position.y == maxY
    ensures Integrate(b, delta, maxX, maxY).velocity.y == 0.0
  {
  }

  /** The scripted walk of one frame while the label is Move: MOVING_SPEED
      pixels per second in the facing direction, turning around at the edges
      0 and maxX. */
  function Walk(x: real, direction: Direction, delta: real, maxX: real): (s: Stride)
    ensures direction == Left ==> 0.0 <= s.x
    ensures direction == Left ==> (s.direction == Right <==> s.x == 0.0)
    ensures direction == Left && x - MOVING_SPEED * delta > 0.0 ==> s == Stride(x - MOVING_SPEED * delta, Left)
    ensures direction == Left && x - MOVING_SPEED * delta <= 0.0 ==> s == Stride(0.0, Right)
    ensures direction == Right ==> s.x <= maxX
    ensures direction == Right ==> (s.direction == Left <==> s.x == maxX)
    ensures direction == Right && x + MOVING_SPEED * delta < maxX ==> s == Stride(x + MOVING_SPEED * delta, Right)
    ensures direction == Right && x + MOVING_SPEED * delta >= maxX ==> s == Stride(maxX, Left)
    ensures 0.0 <= x <= maxX && 0.0 <= delta ==> 0.0 <= s.x <= maxX
  {
    var movement := MOVING_SPEED * delta;
    if direction == Left then
      var left := Max(0.0, x - movement);
      if left <= 0.0 then Stride(0.0, Right) else Stride(left, Left)
    else
      var right := x + movement;
      if right >= maxX then Stride(maxX, Left) else Stride(right, Right)
  }
}
