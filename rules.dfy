/** The rules of one frame of the shooter, stated on values: the pinch
    gesture and its cooldown, the difficulty curve, the pass over the targets
    (move, escape, hit), the pass over the particles, and the whole frame as
    one function from the old game state to the new one. The class `Game` in
    module `Shooter` is proved to do exactly what `StepSpec` says. */
module Rules {
  import opened Basics
  import opened Entities

  const PINCH_DISTANCE: real := 0.04
  const COOLDOWN: real := 0.25
  const ESCAPE_Y: real := -60.0
  const HIT_MARGIN: int := 25
  const BURST_SIZE: nat := 25
  const POINTS_PER_COMBO: int := 10
  const COMBO_WINDOW: real := 1.5
  const START_LIVES: int := 5

  /** A hand landmark in normalised frame coordinates. */
  datatype Landmark = Landmark(x: real, y: real)

  /** The two landmarks of the tracked hand that the game reads: the index
      fingertip (landmark 8) and the thumb tip (landmark 4). */
  datatype Hand = Hand(indexTip: Landmark, thumbTip: Landmark)

  /** An aim point in pixels. */
  datatype Pixel = Pixel(x: int, y: int)

  /** The pinch: index tip and thumb tip closer than `PINCH_DISTANCE`, with
      `math.hypot(dx, dy) < 0.04` written as a comparison of squares. */
  predicate FireGesture(h: Hand)
  {
    Sq(h.indexTip.x - h.thumbTip.x) + Sq(h.indexTip.y - h.thumbTip.y) < Sq(PINCH_DISTANCE)
  }

  /** The index fingertip scaled to the frame and truncated as `int()` does. */
  function AimPoint(h: Hand): (p: Pixel)
  {
    Pixel(Trunc(h.indexTip.x * WIDTH as real), Trunc(h.indexTip.y * HEIGHT as real))
  }

  function Aim(hand: Option<Hand>): (aim: Option<Pixel>)
  {
    if hand.Some? then Some(AimPoint(hand.value)) else None
  }

  /** A shot fires when a hand pinches and the cooldown since the last shot is over. */
  predicate Fires(hand: Option<Hand>, now: real, lastShot: real)
  {
    hand.Some? && FireGesture(hand.value) && now - lastShot > COOLDOWN
  }

  /** The target speed multiplier, `1 + score / 200` with true division. */
  function Difficulty(score: int): (m: real)
  {
    1.0 + score as real / 200.0
  }

  /** The per-frame spawn probability, `min(0.12, 0.03 + score / 1000)`. */
  function SpawnRate(score: int): (rate: real)
  {
    var r := 0.03 + score as real / 1000.0;
    if 0.12 < r then 0.12 else r
  }

  /** A target that has left through the top of the frame. */
  predicate Escaped(o: ObjectState)
  {
    o.y < ESCAPE_Y
  }

  /** The hit test `math.hypot(o.x - aim.x, o.y - aim.y) < o.size + 25`: a
      distance is never negative, so it holds exactly when the radius is
      positive and the squared distance is below the squared radius. */
  predicate Hits(o: ObjectState, aim: Pixel)
  {
    var radius := o.size + HIT_MARGIN;
    0 < radius && Sq(o.x - aim.x as real) + Sq(o.y - aim.y as real) < Sq(radius as real)
  }

  /** Hits are looked for only when a shot fired and the aim's x is truthy
      (present and not 0). */
  predicate Shooting(fired: bool, aim: Option<Pixel>)
  {
    fired && aim.Some? && aim.value.x != 0
  }

  /** The case in which one target is removed twice in one visit: after its
      move it has escaped and it is also hit. */
  predicate DoubleRemoval(o: ObjectState, fired: bool, aim: Option<Pixel>)
  {
    var m := MovedObject(o);
    Escaped(m) && Shooting(fired, aim) && Hits(m, aim.value)
  }

  /** What the target pass has accumulated so far: the counters it updates, the
      targets it keeps (moved), the particles it has emitted, and how many
      particle draws it has used. */
  datatype Tally = Tally(score: int, lives: int, combo: int, lastHitTime: real,
                         kept: seq<ObjectState>, burst: seq<ParticleState>, drawn: nat)

  /** The target pass either completes, or a second `remove` of the same
      target raises `ValueError`. */
  datatype PassResult = Passed(tally: Tally) | RemoveError

  /** The particles emitted at `(x, y)` by one hit, built from the draws
      numbered `first` to `first + 24`. */
  function Burst(x: real, y: real, draws: nat -> ParticleDraw, first: nat): (ps: seq<ParticleState>)
    ensures |ps| == BURST_SIZE
    ensures forall k :: 0 <= k < BURST_SIZE ==> ps[k] == NewParticle(x, y, draws(first + k))
  {
    seq(BURST_SIZE, k requires 0 <= k < BURST_SIZE => NewParticle(x, y, draws(first + k)))
  }

  /** One visit of the target pass: move the target, then the escape branch
      (remove it, lose a life, reset the combo), then, independently, the hit
      branch (score, grow the combo, remove it, emit a burst). A target that
      took the escape branch and is then hit is removed a second time. */
  function VisitTarget(t: Tally, o: ObjectState, fired: bool, aim: Option<Pixel>, now: real,
                       draws: nat -> ParticleDraw): (r: PassResult)
  {
    var m := MovedObject(o);
    var t1 := if Escaped(m) then t.(lives := t.lives - 1, combo := 1) else t;
    if Shooting(fired, aim) && Hits(m, aim.value) then
      if Escaped(m) then RemoveError
      else Passed(t1.(score := t1.score + POINTS_PER_COMBO * t1.combo, combo := t1.combo + 1,
                      lastHitTime := now,
                      burst := t1.burst + Burst(m.x, m.y, draws, t1.drawn),
                      drawn := t1.drawn + BURST_SIZE))
    else if Escaped(m) then Passed(t1)
    else Passed(t1.(kept := t1.kept + [m]))
  }

  /** The pass over a snapshot of the targets, from the first to the last. */
  function TargetPass(t0: Tally, ts: seq<ObjectState>, fired: bool, aim: Option<Pixel>, now: real,
                      draws: nat -> ParticleDraw): (r: PassResult)
    decreases |ts|
  {
    if ts == [] then Passed(t0)
    else
      match TargetPass(t0, ts[..|ts| - 1], fired, aim, now, draws)
      case RemoveError => RemoveError
      case Passed(t) => VisitTarget(t, ts[|ts| - 1], fired, aim, now, draws)
  }

  /** Extending the target pass by one more target is one more visit. */
  lemma TargetPassSnoc(t0: Tally, ts: seq<ObjectState>, o: ObjectState, fired: bool,
                       aim: Option<Pixel>, now: real, draws: nat -> ParticleDraw)
    ensures TargetPass(t0, ts + [o], fired, aim, now, draws) ==
              match TargetPass(t0, ts, fired, aim, now, draws)
              case RemoveError => RemoveError
              case Passed(t) => VisitTarget(t, o, fired, aim, now, draws)
  {
    assert (ts + [o])[..|ts|] == ts;
  }

  /** The pass over a snapshot of the particles: each moves once and those
      whose life has run out are dropped. */
  function ParticlePass(ps: seq<ParticleState>): (qs: seq<ParticleState>)
    decreases |ps|
  {
    if ps == [] then []
    else
      var m := MovedParticle(ps[|ps| - 1]);
      ParticlePass(ps[..|ps| - 1]) + (if m.life <= 0 then [] else [m])
  }

  /** The target pass keeps the combo multiplier at least 1, never lowers
      the score, never raises the lives, keeps at most the targets it visits,
      and uses exactly one particle draw per particle it emits. */
  lemma {:induction false} TargetPassMonotone(t0: Tally, ts: seq<ObjectState>, fired: bool,
                                              aim: Option<Pixel>, now: real, draws: nat -> ParticleDraw)
    requires 1 <= t0.combo
    ensures var r := TargetPass(t0, ts, fired, aim, now, draws);
            r.Passed? ==>
              1 <= r.tally.combo && t0.score <= r.tally.score && r.tally.lives <= t0.lives &&
              |r.tally.kept| <= |t0.kept| + |ts| &&
              r.tally.drawn - t0.drawn == |r.tally.burst| - |t0.burst|
  {
    if ts != [] {
      TargetPassMonotone(t0, ts[..|ts| - 1], fired, aim, now, draws);
    }
  }

  /** Extending the particle pass by one more particle. */
  lemma ParticlePassSnoc(ps: seq<ParticleState>, p: ParticleState)
    ensures var m := MovedParticle(p);
            ParticlePass(ps + [p]) == ParticlePass(ps) + (if m.life <= 0 then [] else [m])
  {
    assert (ps + [p])[..|ps|] == ps;
  }

  /** The game state: the module-level variables of the game loop, with the
      two entity lists as values. */
  datatype World = World(score: int, lives: int, combo: int, lastShot: real, lastHitTime: real,
                         gameOver: bool, difficulty: real, spawnRate: real,
                         objects: seq<ObjectState>, particles: seq<ParticleState>)

  /** What one frame reads from outside: the tracked hand if any, the clock,
      the spawn coin (`random.random()`), the draws for a new target, and the
      draws for the particles, numbered in creation order. */
  datatype Frame = Frame(hand: Option<Hand>, now: real, coin: real, spawn: TargetDraw,
                         draws: nat -> ParticleDraw)

  /** A frame either completes or ends the program with `ValueError`. */
  datatype Outcome = Running(world: World) | ValueError

  function InitialWorld(): (w: World)
  {
    World(0, START_LIVES, 1, 0.0, 0.0, false, 1.0, 0.03, [], [])
  }

  /** The start of a target pass over state `w`. */
  function StartTally(w: World): (t: Tally)
  {
    Tally(w.score, w.lives, w.combo, w.lastHitTime, [], [], 0)
  }

  /** The targets the pass visits: the old list, plus the new target when the
      spawn coin comes up below the spawn rate. */
  function SpawnStep(w: World, f: Frame): (ts: seq<ObjectState>)
  {
    if f.coin < SpawnRate(w.score) then w.objects + [Spawned(f.spawn, Difficulty(w.score))]
    else w.objects
  }

  /** The part of a frame that runs only while the game is on: the difficulty
      and spawn rate are set from the score, a target may spawn, the target
      pass runs, and the combo lapses when the last hit is more than
      `COMBO_WINDOW` seconds old. The particles the pass emits are appended
      to the list; the particle pass itself comes after. */
  function PlayStep(w: World, f: Frame, fired: bool): (r: Outcome)
  {
    match TargetPass(StartTally(w), SpawnStep(w, f), fired, Aim(f.hand), f.now, f.draws)
    case RemoveError => ValueError
    case Passed(t) =>
      var combo := if f.now - t.lastHitTime > COMBO_WINDOW then 1 else t.combo;
      Running(w.(score := t.score, lives := t.lives, combo := combo, lastHitTime := t.lastHitTime,
                 difficulty := Difficulty(w.score), spawnRate := SpawnRate(w.score),
                 objects := t.kept, particles := w.particles + t.burst))
  }

  /** `PlayStep` by cases on the outcome of the target pass `r`. */
  lemma PlayStepCases(w: World, f: Frame, fired: bool, aim: Option<Pixel>, r: PassResult)
    requires aim == Aim(f.hand)
    requires r == TargetPass(StartTally(w), SpawnStep(w, f), fired, aim, f.now, f.draws)
    ensures r.RemoveError? ==> PlayStep(w, f, fired) == ValueError
    ensures r.Passed? ==>
              var t := r.tally;
              PlayStep(w, f, fired) ==
                Running(w.(score := t.score, lives := t.lives,
                           combo := if f.now - t.lastHitTime > COMBO_WINDOW then 1 else t.combo,
                           lastHitTime := t.lastHitTime, difficulty := Difficulty(w.score),
                           spawnRate := SpawnRate(w.score), objects := t.kept,
                           particles := w.particles + t.burst))
  {
  }

  /** The particle pass of a frame, applied to the state's particle list. */
  function ParticleStep(w: World): (w': World)
  {
    w.(particles := ParticlePass(w.particles))
  }

  /** One frame: the fire gate, then either the game-over latch or (while the
      game is on) `PlayStep`, and in every frame that completes, the particle
      pass. */
  function StepSpec(w: World, f: Frame): (r: Outcome)
  {
    var fired := Fires(f.hand, f.now, w.lastShot);
    var w1 := w.(lastShot := if fired then f.now else w.lastShot);
    if w.gameOver || w.lives <= 0 then Running(ParticleStep(w1.(gameOver := true)))
    else
      match PlayStep(w1, f, fired)
      case ValueError => ValueError
      case Running(w2) => Running(ParticleStep(w2))
  }

  /** The main loop over a sequence of frames: each frame steps the state
      left by the previous one, and a `ValueError` ends the run. */
  function Run(w: World, fs: seq<Frame>): (r: Outcome)
    decreases |fs|
  {
    if fs == [] then Running(w)
    else
      match Run(w, fs[..|fs| - 1])
      case ValueError => ValueError
      case Running(w') => StepSpec(w', fs[|fs| - 1])
  }
}
