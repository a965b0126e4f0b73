/** The two kinds of moving entity of the shooter: falling targets
    (`GameObject`) and burst fragments (`Particle`). Each is a class whose
    `Move` updates its own fields, as in the game; `State()` reads the fields
    out as a value record, which is what the rules of the game are stated on. */
module Entities {

  const WIDTH: int := 1280
  const HEIGHT: int := 720

  datatype Shape = Circle | Square | Triangle

  datatype Rgb = Rgb(r: int, g: int, b: int)

  /** The fields of a target at one instant. */
  datatype ObjectState = ObjectState(x: real, y: real, size: int, speed: real, angle: real,
                                     color: Rgb, shape: Shape)

  /** The random draws a new target is built from: `x` from randint(100, WIDTH - 100),
      `rise` from randint(50, 200) (the target starts that far below the frame),
      `size` from randint(25, 50), `baseSpeed` from uniform(3, 5), `angle` from
      uniform(-1, 1), one of three colours and a shape. */
  datatype TargetDraw = TargetDraw(x: int, rise: int, size: int, baseSpeed: real, angle: real,
                                   color: Rgb, shape: Shape)

  /** A new target: below the bottom edge, its speed scaled once by the
      difficulty in force when it is created. */
  function Spawned(d: TargetDraw, difficulty: real): (o: ObjectState)
  {
    ObjectState(d.x as real, (HEIGHT + d.rise) as real, d.size, d.baseSpeed * difficulty, d.angle,
                d.color, d.shape)
  }

  /** One frame of target motion: up by its speed, sideways by twice its angle. */
  function MovedObject(o: ObjectState): (m: ObjectState)
  {
    o.(y := o.y - o.speed, x := o.x + o.angle * 2.0)
  }

  /** The fields of a particle at one instant. */
  datatype ParticleState = ParticleState(x: real, y: real, vx: real, vy: real, life: int)

  /** The random draws a new particle is built from: `vx` and `vy` from
      uniform(-5, 5) and `life` from randint(15, 25). */
  datatype ParticleDraw = ParticleDraw(vx: real, vy: real, life: int)

  function NewParticle(x: real, y: real, d: ParticleDraw): (p: ParticleState)
  {
    ParticleState(x, y, d.vx, d.vy, d.life)
  }

  /** One frame of particle motion: position moves by the velocity, one tick of
      life is used up. */
  function MovedParticle(p: ParticleState): (m: ParticleState)
  {
    p.(x := p.x + p.vx, y := p.y + p.vy, life := p.life - 1)
  }

  class GameObject {
    var x: real
    var y: real
    var size: int
    var speed: real
    var angle: real
    var color: Rgb
    var shape: Shape

    function State(): ObjectState
      reads this
    {
      ObjectState(x, y, size, speed, angle, color, shape)
    }

    constructor (d: TargetDraw, difficulty: real)
      ensures State() == Spawned(d, difficulty)
    {
      x := d.x as real;
      y := (HEIGHT + d.rise) as real;
      size := d.size;
      speed := d.baseSpeed * difficulty;
      angle := d.angle;
      color := d.color;
      shape := d.shape;
    }

    method Move()
      modifies this
      ensures State() == MovedObject(old(State()))
    {
      y := y - speed;
      x := x + angle * 2.0;
    }
  }

  class Particle {
    var x: real
    var y: real
    var vx: real
    var vy: real
    var life: int

    function State(): ParticleState
      reads this
    {
      ParticleState(x, y, vx, vy, life)
    }

    constructor (x0: real, y0: real, d: ParticleDraw)
      ensures State() == NewParticle(x0, y0, d)
    {
      x, y := x0, y0;
      vx := d.vx;
      vy := d.vy;
      life := d.life;
    }

    method Move()
      modifies this
      ensures State() == MovedParticle(old(State()))
    {
      x := x + vx;
      y := y + vy;
      life := life - 1;
    }
  }

  /** The value view of a list of targets, element by element. */
  function ObjectStates(os: seq<GameObject>): (vs: seq<ObjectState>)
    reads os
    ensures |vs| == |os| && forall k {:trigger vs[k]} :: 0 <= k < |os| ==> vs[k] == os[k].State()
  {
    seq(|os|, k requires 0 <= k < |os| reads os => os[k].State())
  }

  /** The value view of a list of particles, element by element. */
  function ParticleStates(ps: seq<Particle>): (vs: seq<ParticleState>)
    reads ps
    ensures |vs| == |ps| && forall k {:trigger vs[k]} :: 0 <= k < |ps| ==> vs[k] == ps[k].State()
  {
    seq(|ps|, k requires 0 <= k < |ps| reads ps => ps[k].State())
  }

  /** The view of a non-empty list is the first element's state followed by
      the view of the rest. */
  lemma ObjectStatesCons(os: seq<GameObject>)
    requires os != []
    ensures os == [os[0]] + os[1..]
    ensures ObjectStates(os) == [os[0].State()] + ObjectStates(os[1..])
  {
    assert os == [os[0]] + os[1..];
  }

  lemma ParticleStatesCons(ps: seq<Particle>)
    requires ps != []
    ensures ps == [ps[0]] + ps[1..]
    ensures ParticleStates(ps) == [ps[0].State()] + ParticleStates(ps[1..])
  {
    assert ps == [ps[0]] + ps[1..];
  }

  lemma ObjectStatesAppend(os: seq<GameObject>, o: GameObject)
    ensures ObjectStates(os + [o]) == ObjectStates(os) + [o.State()]
  {
    assert forall k :: 0 <= k < |os| ==> (os + [o])[k] == os[k];
  }

  lemma ParticleStatesAppend(ps: seq<Particle>, p: Particle)
    ensures ParticleStates(ps + [p]) == ParticleStates(ps) + [p.State()]
  {
    assert forall k :: 0 <= k < |ps| ==> (ps + [p])[k] == ps[k];
  }
}
