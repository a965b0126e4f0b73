/** The game loop's state and its per-frame update. The module-level
    variables of the game become the fields of `Game`; the target and particle
    lists are sequences of references that the update edits in place, while
    it moves the entities themselves through their own `Move` methods. */
module Shooter {
  import opened Basics
  import opened Entities
  import opened Rules

  class Game {
    var score: int
    var lives: int
    var combo: int
    var lastHitTime: real
    var difficulty: real
    var spawnRate: real
    var lastShot: real
    var gameOver: bool
    var objects: seq<GameObject>
    var particles: seq<Particle>

    /** No entity is listed twice, the combo multiplier is at least 1 and the
        score is not negative. */
    ghost predicate Valid()
      reads this
    {
      Distinct(objects) && Distinct(particles) && 1 <= combo && 0 <= score
    }

    /** The state as a value. */
    function View(): (w: World)
      reads this, objects, particles
    {
      World(score, lives, combo, lastShot, lastHitTime, gameOver, difficulty, spawnRate,
            ObjectStates(objects), ParticleStates(particles))
    }

    /** The state before the first frame. */
    constructor ()
      ensures Valid() && View() == InitialWorld()
    {
      objects := [];
      particles := [];
      score := 0;
      lives := START_LIVES;
      combo := 1;
      lastHitTime := 0.0;
      difficulty := 1.0;
      spawnRate := 0.03;
      lastShot := 0.0;
      gameOver := false;
    }

    /** One iteration of the main loop, minus capture and drawing. `raised`
        reports that a target was removed twice and the program stops with
        `ValueError`; otherwise the new state is the one `StepSpec` gives. */
    method Step(hand: Option<Hand>, now: real, coin: real, spawn: TargetDraw,
                draws: nat -> ParticleDraw) returns (raised: bool)
      requires Valid()
      modifies this, objects, particles
      ensures raised <==> StepSpec(old(View()), Frame(hand, now, coin, spawn, draws)).ValueError?
      ensures !raised ==> Valid() && View() == StepSpec(old(View()), Frame(hand, now, coin, spawn, draws)).world
    {
      ghost var w := View();
      ghost var f := Frame(hand, now, coin, spawn, draws);
      var aim, fired := ReadHand(hand, now);
      ghost var w1 := w.(lastShot := if fired then now else w.lastShot);
      assert View() == w1;

      if lives <= 0 {
        gameOver := true;
      }

      ghost var w2: World;
      if !gameOver {
        raised := Play(hand, fired, aim, now, coin, spawn, draws);
        if raised {
          return;
        }
        w2 := PlayStep(w1, f, fired).world;
      } else {
        raised := false;
        w2 := w1.(gameOver := true);
      }
      assert View() == w2;

      assert fresh(set p | p in particles && p !in old(particles));
      ParticlePhase();
    }

    /** The particle block seen from the whole state: only the particle list
        changes, as `ParticleStep` says. */
    method ParticlePhase()
      requires Valid()
      modifies this`particles, particles
      ensures Valid() && View() == ParticleStep(old(View()))
    {
      ghost var os := ObjectStates(objects);
      UpdateParticles();
      assert ObjectStates(objects) == os;
    }

    /** The hand block: the aim point whenever a hand is tracked, and the shot,
        which fires on a pinch once the cooldown has run out and restarts it. */
    method ReadHand(hand: Option<Hand>, now: real) returns (aim: Option<Pixel>, fired: bool)
      modifies this`lastShot
      ensures aim == Aim(hand)
      ensures fired == Fires(hand, now, old(lastShot))
      ensures lastShot == if fired then now else old(lastShot)
    {
      aim := None;
      fired := false;
      if hand.Some? {
        aim := Some(AimPoint(hand.value));
        if FireGesture(hand.value) && now - lastShot > COOLDOWN {
          fired := true;
          lastShot := now;
        }
      }
    }

    /** The body of the `if not game_over` block: difficulty, spawn, the target
        pass and the combo timeout. */
    method Play(ghost hand: Option<Hand>, fired: bool, aim: Option<Pixel>, now: real, coin: real,
                spawn: TargetDraw, draws: nat -> ParticleDraw) returns (raised: bool)
      requires Valid() && aim == Aim(hand)
      modifies this, objects
      ensures forall p :: p in particles ==> p in old(particles) || fresh(p)
      ensures raised <==> PlayStep(old(View()), Frame(hand, now, coin, spawn, draws), fired).ValueError?
      ensures !raised ==>
                Valid() && View() == PlayStep(old(View()), Frame(hand, now, coin, spawn, draws), fired).world
    {
      ghost var w := View();
      ghost var f := Frame(hand, now, coin, spawn, draws);
      ghost var shot, over := lastShot, gameOver;
      assert w.lastShot == shot && w.gameOver == over;
      SetDifficultyAndSpawn(coin, spawn);
      ghost var diff, rate := difficulty, spawnRate;
      assert diff == Difficulty(w.score) && rate == SpawnRate(w.score);
      ghost var ts := SpawnStep(w, f);
      assert ObjectStates(objects) == ts && ParticleStates(particles) == w.particles;
      assert fresh(set o | o in objects && o !in old(objects));
      ghost var r := TargetPass(StartTally(w), ts, fired, aim, now, draws);
      PlayStepCases(w, f, fired, aim, r);
      raised := TargetPhase(StartTally(w), ts, w.particles, fired, aim, now, draws);
      assert lastShot == shot && gameOver == over && difficulty == diff && spawnRate == rate;
      if raised {
        return;
      }
      assert ObjectStates(objects) == r.tally.kept;
      assert ParticleStates(particles) == w.particles + r.tally.burst;
    }

    /** The target loop followed by the combo timeout. */
    method TargetPhase(ghost t0: Tally, ghost before: seq<ObjectState>, ghost pre: seq<ParticleState>,
                       fired: bool, aim: Option<Pixel>, now: real, draws: nat -> ParticleDraw)
      returns (raised: bool)
      requires Distinct(objects) && ObjectStates(objects) == before
      requires t0.kept == [] && t0.burst == [] && Tracks(t0, [], pre, 0) && 1 <= combo && 0 <= score
      modifies this`score, this`lives, this`combo, this`lastHitTime, this`objects, this`particles
      modifies objects
      ensures forall p :: p in particles ==> p in old(particles) || fresh(p)
      ensures var r := TargetPass(t0, before, fired, aim, now, draws);
              (raised <==> r.RemoveError?) &&
              (!raised ==>
                 var t := r.tally;
                 Distinct(objects) && ObjectStates(objects) == t.kept &&
                 Distinct(particles) && ParticleStates(particles) == pre + t.burst &&
                 score == t.score && 0 <= score && lives == t.lives && lastHitTime == t.lastHitTime &&
                 combo == (if now - t.lastHitTime > COMBO_WINDOW then 1 else t.combo) && 1 <= combo)
    {
      raised := UpdateTargets(t0, before, pre, fired, aim, now, draws);
      if raised {
        return;
      }
      ghost var os, ps := ObjectStates(objects), ParticleStates(particles);
      LapseCombo(now);
      assert ObjectStates(objects) == os && ParticleStates(particles) == ps;
    }

    /** `if now - last_hit_time > 1.5: combo = 1`. */
    method LapseCombo(now: real)
      modifies this`combo
      ensures combo == if now - lastHitTime > COMBO_WINDOW then 1 else old(combo)
    {
      if now - lastHitTime > COMBO_WINDOW {
        combo := 1;
      }
    }

    /** The difficulty block, then `if random.random() < spawn_rate:
        objects.append(GameObject())`: the new target's speed uses the
        difficulty just set. */
    method SetDifficultyAndSpawn(coin: real, spawn: TargetDraw)
      requires Distinct(objects)
      modifies this`difficulty, this`spawnRate, this`objects
      ensures forall o :: o in objects ==> o in old(objects) || fresh(o)
      ensures difficulty == Difficulty(score) && spawnRate == SpawnRate(score)
      ensures ParticleStates(particles) == old(ParticleStates(particles))
      ensures Distinct(objects)
      ensures ObjectStates(objects) ==
                old(ObjectStates(objects)) + (if coin < spawnRate then [Spawned(spawn, difficulty)] else [])
    {
      difficulty := Difficulty(score);
      spawnRate := SpawnRate(score);
      if coin < spawnRate {
        var o := new GameObject(spawn, difficulty);
        assert o !in objects;
        DistinctSnoc(objects, o);
        ObjectStatesAppend(objects, o);
        objects := objects + [o];
      }
    }

    /** The counters, the kept targets `kept` and the particles emitted after
        `pre` are those the tally `t` of the target pass records. */
    ghost predicate Tracks(t: Tally, kept: seq<GameObject>, pre: seq<ParticleState>, drawn: nat)
      reads this, kept, particles
    {
      score == t.score && lives == t.lives && combo == t.combo && lastHitTime == t.lastHitTime &&
      drawn == t.drawn && ObjectStates(kept) == t.kept &&
      Distinct(particles) && ParticleStates(particles) == pre + t.burst
    }

    /** The target pass: over a snapshot of `objects`, visit each target in
        turn. */
    method UpdateTargets(ghost t0: Tally, ghost before: seq<ObjectState>, ghost pre: seq<ParticleState>,
                         fired: bool, aim: Option<Pixel>, now: real, draws: nat -> ParticleDraw)
      returns (raised: bool)
      requires Distinct(objects) && ObjectStates(objects) == before
      requires t0.kept == [] && t0.burst == [] && Tracks(t0, [], pre, 0) && 1 <= combo && 0 <= score
      modifies this`score, this`lives, this`combo, this`lastHitTime, this`objects, this`particles
      modifies objects
      ensures forall p :: p in particles ==> p in old(particles) || fresh(p)
      ensures var r := TargetPass(t0, before, fired, aim, now, draws);
              (raised <==> r.RemoveError?) &&
              (!raised ==> Distinct(objects) && Tracks(r.tally, objects, pre, r.tally.drawn) &&
                           1 <= combo && 0 <= score)
    {
      var todo := objects;
      ghost var kept: seq<GameObject> := [];
      ghost var done: seq<ObjectState> := [];
      ghost var tally := t0;
      var drawn: nat := 0;
      while todo != []
        invariant objects == kept + todo && Distinct(objects)
        invariant forall o :: o in todo ==> o in old(objects)
        invariant forall p :: p in particles ==> p in old(particles) || fresh(p)
        invariant before == done + ObjectStates(todo)
        invariant TargetPass(t0, done, fired, aim, now, draws) == Passed(tally)
        invariant Tracks(tally, kept, pre, drawn)
        decreases |todo|
      {
        var obj := todo[0];
        var rest := todo[1..];
        ghost var x, xs := obj.State(), ObjectStates(rest);
        assert objects == kept + [obj] + rest && Distinct(kept + rest) && obj !in kept && obj !in rest by {
          Peel(kept, todo);
          DistinctSplit(kept, obj, rest);
        }
        assert before == (done + [x]) + xs by {
          ObjectStatesCons(todo);
          ShiftOne(done, x, xs);
        }
        assert obj in old(objects) by {
          assert obj == todo[0];
        }
        TargetPassSnoc(t0, done, x, fired, aim, now, draws);
        var removed;
        raised, removed, drawn := VisitObject(obj, kept, rest, tally, pre, fired, aim, now, draws, drawn);
        if raised {
          RemoveErrorPersists(t0, done + [x], xs, fired, aim, now, draws);
          return;
        }
        if !removed {
          kept := kept + [obj];
        }
        done := done + [x];
        tally := TargetPass(t0, done, fired, aim, now, draws).tally;
        todo := rest;
      }
      assert done == before;
      TargetPassMonotone(t0, before, fired, aim, now, draws);
      raised := false;
    }

    /** One iteration of the target loop: move the target, remove it and
        charge a life when it has escaped, and when a shot is live and the
        target is hit, score it, grow the combo, remove it and emit a burst. A
        target that escaped and is hit is removed a second time, which raises.
        No other target changes. */
    method VisitObject(obj: GameObject, ghost kept: seq<GameObject>, ghost rest: seq<GameObject>,
                       ghost t: Tally, ghost pre: seq<ParticleState>,
                       fired: bool, aim: Option<Pixel>, now: real, draws: nat -> ParticleDraw,
                       drawn: nat)
      returns (raised: bool, removed: bool, drawn': nat)
      requires objects == kept + [obj] + rest && obj !in kept && obj !in rest
      requires Tracks(t, kept, pre, drawn)
      modifies this`score, this`lives, this`combo, this`lastHitTime, this`objects, this`particles
      modifies obj
      ensures forall p :: p in particles ==> p in old(particles) || fresh(p)
      ensures ObjectStates(rest) == old(ObjectStates(rest))
      ensures var r := VisitTarget(t, old(obj.State()), fired, aim, now, draws);
              (raised <==> r.RemoveError?) &&
              (!raised ==>
                 objects == (if removed then kept + rest else kept + [obj] + rest) &&
                 Tracks(r.tally, if removed then kept else kept + [obj], pre, drawn'))
    {
      ghost var ks, rs := ObjectStates(kept), ObjectStates(rest);
      obj.Move();
      assert ObjectStates(kept) == ks && ObjectStates(rest) == rs;
      ghost var m := obj.State();
      ghost var t1 := if Escaped(m) then t.(lives := t.lives - 1, combo := 1) else t;
      removed := false;
      if obj.y < ESCAPE_Y {
        RemoveAfterPrefix(kept, obj, rest);
        objects := ListRemove(objects, obj).value;
        lives := lives - 1;
        combo := 1;
        removed := true;
      }
      assert Tracks(t1, kept, pre, drawn);
      raised, drawn' := false, drawn;
      if fired && aim.Some? && aim.value.x != 0 {
        if Hits(obj.State(), aim.value) {
          raised, drawn' := Shoot(obj, kept, rest, removed, t1, pre, aim.value, now, draws, drawn);
          removed := true;
        }
      }
      if !removed {
        ObjectStatesAppend(kept, obj);
      }
    }

    /** The hit branch: score the target at the current combo, grow the combo,
        stamp the hit time, remove the target (a second time, which raises, when
        the escape branch already removed it) and emit a burst at its position. */
    method Shoot(obj: GameObject, ghost kept: seq<GameObject>, ghost rest: seq<GameObject>,
                 ghost removed: bool, ghost t: Tally, ghost pre: seq<ParticleState>,
                 aim: Pixel, now: real, draws: nat -> ParticleDraw, drawn: nat)
      returns (raised: bool, drawn': nat)
      requires objects == (if removed then kept + rest else kept + [obj] + rest)
      requires obj !in kept && obj !in rest
      requires Tracks(t, kept, pre, drawn)
      modifies this`score, this`combo, this`lastHitTime, this`objects, this`particles
      ensures forall p :: p in particles ==> p in old(particles) || fresh(p)
      ensures raised <==> removed
      ensures !raised ==>
                objects == kept + rest && drawn' == drawn + BURST_SIZE &&
                Tracks(t.(score := t.score + POINTS_PER_COMBO * t.combo, combo := t.combo + 1,
                          lastHitTime := now,
                          burst := t.burst + Burst(obj.x, obj.y, draws, t.drawn),
                          drawn := t.drawn + BURST_SIZE), kept, pre, drawn')
    {
      drawn' := drawn;
      score := score + POINTS_PER_COMBO * combo;
      combo := combo + 1;
      lastHitTime := now;
      if removed {
        assert obj !in objects;
      } else {
        RemoveAfterPrefix(kept, obj, rest);
      }
      var r := ListRemove(objects, obj);
      if r.None? {
        raised := true;
        return;
      }
      raised := false;
      objects := r.value;
      ghost var ks := ObjectStates(kept);
      ghost var burst := Burst(obj.x, obj.y, draws, drawn);
      SpawnBurst(obj.x, obj.y, draws, drawn');
      assert ObjectStates(kept) == ks;
      assert ParticleStates(particles) == pre + (t.burst + burst) by {
        Assoc(pre, t.burst, burst);
      }
      drawn' := drawn' + BURST_SIZE;
    }

    /** `for _ in range(25): particles.append(Particle(x, y))`. */
    method SpawnBurst(x: real, y: real, draws: nat -> ParticleDraw, first: nat)
      requires Distinct(particles)
      modifies this`particles
      ensures forall p :: p in particles ==> p in old(particles) || fresh(p)
      ensures Distinct(particles)
      ensures ParticleStates(particles) == old(ParticleStates(particles)) + Burst(x, y, draws, first)
    {
      ghost var pre := ParticleStates(particles);
      for k := 0 to BURST_SIZE
        invariant forall p :: p in particles ==> p in old(particles) || fresh(p)
        invariant Distinct(particles)
        invariant ParticleStates(particles) == pre + Burst(x, y, draws, first)[..k]
      {
        var p := new Particle(x, y, draws(first + k));
        assert p !in particles;
        DistinctSnoc(particles, p);
        ParticleStatesAppend(particles, p);
        particles := particles + [p];
        assert Burst(x, y, draws, first)[..k + 1] == Burst(x, y, draws, first)[..k] + [p.State()];
      }
      assert Burst(x, y, draws, first)[..BURST_SIZE] == Burst(x, y, draws, first);
    }

    /** The particle pass: over a snapshot of `particles`, visit each particle
        in turn. */
    method UpdateParticles()
      requires Distinct(particles)
      modifies this`particles, particles
      ensures Distinct(particles)
      ensures ParticleStates(particles) == ParticlePass(old(ParticleStates(particles)))
    {
      ghost var before := ParticleStates(particles);
      var todo := particles;
      ghost var kept: seq<Particle> := [];
      ghost var done: seq<ParticleState> := [];
      while todo != []
        invariant particles == kept + todo && Distinct(particles)
        invariant forall q :: q in todo ==> q in old(particles)
        invariant before == done + ParticleStates(todo)
        invariant ParticleStates(kept) == ParticlePass(done)
        decreases |todo|
      {
        var p := todo[0];
        var rest := todo[1..];
        ghost var x := p.State();
        assert particles == kept + [p] + rest && Distinct(kept + rest) && p !in kept && p !in rest by {
          Peel(kept, todo);
          DistinctSplit(kept, p, rest);
        }
        assert before == (done + [x]) + ParticleStates(rest) by {
          ParticleStatesCons(todo);
          ShiftOne(done, x, ParticleStates(rest));
        }
        assert p in old(particles) by {
          assert p == todo[0];
        }
        assert ParticlePass(done + [x]) ==
                 ParticlePass(done) + (if MovedParticle(x).life <= 0 then [] else [MovedParticle(x)]) by {
          ParticlePassSnoc(done, x);
        }
        var dropped := VisitParticle(p, kept, rest);
        if !dropped {
          assert ParticleStates(kept + [p]) == ParticleStates(kept) + [p.State()] by {
            ParticleStatesAppend(kept, p);
          }
          kept := kept + [p];
        }
        done := done + [x];
        todo := rest;
      }
      assert done == before;
    }

    /** One iteration of the particle loop: move the particle and remove it
        when its life has run out. No other particle changes. */
    method VisitParticle(p: Particle, ghost kept: seq<Particle>, ghost rest: seq<Particle>)
      returns (dropped: bool)
      requires particles == kept + [p] + rest && p !in kept && p !in rest
      modifies this`particles, p
      ensures p.State() == MovedParticle(old(p.State()))
      ensures dropped <==> p.life <= 0
      ensures particles == if dropped then kept + rest else kept + [p] + rest
      ensures ParticleStates(kept) == old(ParticleStates(kept))
      ensures ParticleStates(rest) == old(ParticleStates(rest))
    {
      p.Move();
      dropped := p.life <= 0;
      if dropped {
        RemoveAfterPrefix(kept, p, rest);
        particles := ListRemove(particles, p).value;
      }
    }
  }

  /** Once the pass over a prefix has raised, the pass over the whole raises. */
  lemma {:induction false} RemoveErrorPersists(t0: Tally, ts: seq<ObjectState>, us: seq<ObjectState>,
                                               fired: bool, aim: Option<Pixel>, now: real,
                                               draws: nat -> ParticleDraw)
    requires TargetPass(t0, ts, fired, aim, now, draws) == RemoveError
    ensures TargetPass(t0, ts + us, fired, aim, now, draws) == RemoveError
  {
    if us == [] {
      assert ts + us == ts;
    } else {
      var us', u := us[..|us| - 1], us[|us| - 1];
      assert ts + us == (ts + us') + [u];
      RemoveErrorPersists(t0, ts, us', fired, aim, now, draws);
      TargetPassSnoc(t0, ts + us', u, fired, aim, now, draws);
    }
  }
}
