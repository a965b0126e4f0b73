/** Properties of the frame rules: the fire gate and its cooldown, the
    game-over latch, the difficulty curve, the target pass (survivors, escapes,
    hits, the double removal), the particle pass, and the invariants a frame
    keeps. */
module Properties {
  import opened Basics
  import opened Entities
  import opened Rules

  // ---------------------------------------------------------------- comparisons of squares

  lemma ProductNonNegative(x: real, y: real)
    requires 0.0 <= x && 0.0 <= y
    ensures 0.0 <= x * y
  {
  }

  lemma ProductPositive(x: real, y: real)
    requires 0.0 < x && 0.0 < y
    ensures 0.0 < x * y
  {
  }

  /** For non-negative reals, comparing squares is comparing the values. */
  lemma SquareLess(a: real, b: real)
    requires 0.0 <= a && 0.0 <= b
    ensures a < b <==> Sq(a) < Sq(b)
  {
    if a < b {
      ProductPositive(b - a, b + a);
      assert Sq(b) - Sq(a) == (b - a) * (b + a);
    } else {
      ProductNonNegative(a - b, a + b);
      assert Sq(a) - Sq(b) == (a - b) * (a + b);
    }
  }

  /** The pinch test on squares agrees with `math.hypot(dx, dy) < 0.04`: for the
      distance `d` (the non-negative root of `dx^2 + dy^2`), `d < 0.04` holds
      exactly when `FireGesture` does. */
  lemma PinchIsHypot(h: Hand, d: real)
    requires 0.0 <= d
    requires Sq(d) == Sq(h.indexTip.x - h.thumbTip.x) + Sq(h.indexTip.y - h.thumbTip.y)
    ensures d < PINCH_DISTANCE <==> FireGesture(h)
  {
    SquareLess(d, PINCH_DISTANCE);
  }

  /** The hit test on squares agrees with `math.hypot(..) < size + 25`: for the
      distance `d` between target and aim point, `d < size + 25` holds exactly
      when `Hits` does (also when the radius is not positive, where both fail). */
  lemma HitIsHypot(o: ObjectState, aim: Pixel, d: real)
    requires 0.0 <= d
    requires Sq(d) == Sq(o.x - aim.x as real) + Sq(o.y - aim.y as real)
    ensures d < (o.size + HIT_MARGIN) as real <==> Hits(o, aim)
  {
    var radius := o.size + HIT_MARGIN;
    if 0 < radius {
      SquareLess(d, radius as real);
    }
  }

  // ---------------------------------------------------------------- the fire gate

  /** A frame restarts the cooldown exactly when it fires, whichever branch it takes. */
  lemma StepLastShot(w: World, f: Frame)
    ensures StepSpec(w, f).Running? ==>
              StepSpec(w, f).world.lastShot == if Fires(f.hand, f.now, w.lastShot) then f.now else w.lastShot
  {
  }

  /** The time of the last shot after a sequence of frames, starting from `last`. */
  function LastShotAfter(last: real, fs: seq<Frame>): (t: real)
    decreases |fs|
  {
    if fs == [] then last
    else
      var prev := LastShotAfter(last, fs[..|fs| - 1]);
      if Fires(fs[|fs| - 1].hand, fs[|fs| - 1].now, prev) then fs[|fs| - 1].now else prev
  }

  /** Frame `i` of `fs` fires. */
  predicate FiredAt(last: real, fs: seq<Frame>, i: nat)
    requires i < |fs|
  {
    Fires(fs[i].hand, fs[i].now, LastShotAfter(last, fs[..i]))
  }

  /** A run of the main loop keeps the last-shot time that `LastShotAfter` computes. */
  lemma {:induction false} RunLastShot(w: World, fs: seq<Frame>)
    ensures Run(w, fs).Running? ==> Run(w, fs).world.lastShot == LastShotAfter(w.lastShot, fs)
  {
    if fs != [] {
      var init := fs[..|fs| - 1];
      RunLastShot(w, init);
      if Run(w, init).Running? {
        StepLastShot(Run(w, init).world, fs[|fs| - 1]);
      }
    }
  }

  /** The last-shot time never goes back: a frame replaces it only when it
      fires, and firing needs a time more than the cooldown after it. */
  lemma {:induction false} LastShotGrows(last: real, fs: seq<Frame>, a: nat, b: nat)
    requires a <= b <= |fs|
    ensures LastShotAfter(last, fs[..a]) <= LastShotAfter(last, fs[..b])
    decreases b
  {
    if a < b {
      LastShotGrows(last, fs, a, b - 1);
      assert fs[..b][..b - 1] == fs[..b - 1];
    }
  }

  /** After a frame that fired, the last-shot time is never earlier than that
      frame's time, whatever the clock does in later frames. */
  lemma {:induction false} LastShotAfterFire(last: real, fs: seq<Frame>, i: nat, k: nat)
    requires i < k <= |fs| && FiredAt(last, fs, i)
    ensures fs[i].now <= LastShotAfter(last, fs[..k])
  {
    assert fs[..i + 1][..i] == fs[..i];
    LastShotGrows(last, fs, i + 1, k);
  }

  /** Two frames that both fire are more than the cooldown apart, even if the
      clock runs backwards in between. */
  lemma FireEventsSpaced(last: real, fs: seq<Frame>, i: nat, j: nat)
    requires i < j < |fs| && FiredAt(last, fs, i) && FiredAt(last, fs, j)
    ensures fs[j].now - fs[i].now > COOLDOWN
  {
    LastShotAfterFire(last, fs, i, j);
  }

  /** A frame fires only on a pinch after the cooldown, and then restarts the cooldown. */
  lemma FiringIsGated(w: World, f: Frame)
    ensures Fires(f.hand, f.now, w.lastShot) ==>
              f.hand.Some? && FireGesture(f.hand.value) && f.now - w.lastShot > COOLDOWN
    ensures StepSpec(w, f).Running? && StepSpec(w, f).world.lastShot != w.lastShot ==>
              Fires(f.hand, f.now, w.lastShot) && StepSpec(w, f).world.lastShot == f.now
  {
  }

  // ---------------------------------------------------------------- one visit of the target pass

  /** A hit on a target that has not escaped scores `10 * combo` with the combo
      before the increment, grows the combo by one, stamps the hit time, drops
      the target and emits 25 particles at its position after the move. */
  lemma HitScores(t: Tally, o: ObjectState, fired: bool, aim: Option<Pixel>, now: real,
                  draws: nat -> ParticleDraw)
    requires Shooting(fired, aim) && Hits(MovedObject(o), aim.value) && !Escaped(MovedObject(o))
    ensures var r := VisitTarget(t, o, fired, aim, now, draws);
            var m := MovedObject(o);
            r.Passed? &&
            r.tally.score == t.score + POINTS_PER_COMBO * t.combo && r.tally.combo == t.combo + 1 &&
            r.tally.lastHitTime == now && r.tally.lives == t.lives && r.tally.kept == t.kept &&
            |r.tally.burst| == |t.burst| + BURST_SIZE && r.tally.burst[..|t.burst|] == t.burst &&
            (forall k :: |t.burst| <= k < |r.tally.burst| ==>
               r.tally.burst[k].x == m.x && r.tally.burst[k].y == m.y)
  {
  }

  /** A target that escapes and is not hit is dropped, costs one life and resets
      the combo; nothing else changes. */
  lemma EscapePenalty(t: Tally, o: ObjectState, fired: bool, aim: Option<Pixel>, now: real,
                      draws: nat -> ParticleDraw)
    requires Escaped(MovedObject(o)) && !(Shooting(fired, aim) && Hits(MovedObject(o), aim.value))
    ensures VisitTarget(t, o, fired, aim, now, draws) == Passed(t.(lives := t.lives - 1, combo := 1))
  {
  }

  /** A visit raises exactly when the target is removed twice. */
  lemma DoubleRemovalRaises(t: Tally, o: ObjectState, fired: bool, aim: Option<Pixel>, now: real,
                            draws: nat -> ParticleDraw)
    ensures VisitTarget(t, o, fired, aim, now, draws).RemoveError? <==> DoubleRemoval(o, fired, aim)
  {
  }

  // ---------------------------------------------------------------- the whole target pass

  /** The targets that survive a visit: moved once, neither escaped nor hit. */
  predicate Survives(o: ObjectState, fired: bool, aim: Option<Pixel>)
  {
    var m := MovedObject(o);
    !Escaped(m) && !(Shooting(fired, aim) && Hits(m, aim.value))
  }

  /** The surviving targets of a list, moved once, in their original order. */
  function Survivors(ts: seq<ObjectState>, fired: bool, aim: Option<Pixel>): (kept: seq<ObjectState>)
    decreases |ts|
  {
    if ts == [] then []
    else
      Survivors(ts[..|ts| - 1], fired, aim) +
      (if Survives(ts[|ts| - 1], fired, aim) then [MovedObject(ts[|ts| - 1])] else [])
  }

  /** How many targets of a list escape on their move. */
  function EscapeCount(ts: seq<ObjectState>): (n: nat)
    decreases |ts|
  {
    if ts == [] then 0
    else EscapeCount(ts[..|ts| - 1]) + (if Escaped(MovedObject(ts[|ts| - 1])) then 1 else 0)
  }

  /** How many targets of a list a live shot hits after their move. */
  function HitCount(ts: seq<ObjectState>, fired: bool, aim: Option<Pixel>): (n: nat)
    decreases |ts|
  {
    if ts == [] then 0
    else
      HitCount(ts[..|ts| - 1], fired, aim) +
      (if Shooting(fired, aim) && Hits(MovedObject(ts[|ts| - 1]), aim.value) then 1 else 0)
  }

  /** The pass raises exactly when some target of the snapshot is removed twice. */
  lemma {:induction false} TargetPassRaisesIff(t0: Tally, ts: seq<ObjectState>, fired: bool,
                                               aim: Option<Pixel>, now: real, draws: nat -> ParticleDraw)
    ensures TargetPass(t0, ts, fired, aim, now, draws).RemoveError? <==>
              exists j :: 0 <= j < |ts| && DoubleRemoval(ts[j], fired, aim)
  {
    if ts != [] {
      var init, o := ts[..|ts| - 1], ts[|ts| - 1];
      TargetPassRaisesIff(t0, init, fired, aim, now, draws);
      var prev := TargetPass(t0, init, fired, aim, now, draws);
      if prev.Passed? {
        DoubleRemovalRaises(prev.tally, o, fired, aim, now, draws);
      }
      if exists j :: 0 <= j < |ts| && DoubleRemoval(ts[j], fired, aim) {
        var j :| 0 <= j < |ts| && DoubleRemoval(ts[j], fired, aim);
        if j < |init| {
          assert init[j] == ts[j];
        }
      }
      if prev.RemoveError? {
        var j :| 0 <= j < |init| && DoubleRemoval(init[j], fired, aim);
        assert ts[j] == init[j];
      }
    }
  }

  /** When the pass completes, the targets it keeps are the survivors, moved,
      in their original order. */
  lemma {:induction false} TargetPassSurvivors(t0: Tally, ts: seq<ObjectState>, fired: bool,
                                               aim: Option<Pixel>, now: real, draws: nat -> ParticleDraw)
    ensures var r := TargetPass(t0, ts, fired, aim, now, draws);
            r.Passed? ==> r.tally.kept == t0.kept + Survivors(ts, fired, aim)
  {
    if ts != [] {
      var init, o := ts[..|ts| - 1], ts[|ts| - 1];
      TargetPassSurvivors(t0, init, fired, aim, now, draws);
      if TargetPass(t0, init, fired, aim, now, draws).Passed? {
        var extra := if Survives(o, fired, aim) then [MovedObject(o)] else [];
        Assoc(t0.kept, Survivors(init, fired, aim), extra);
      }
    }
  }

  /** When the pass completes, each escaped target has cost exactly one life
      (so several escapes can take the lives below zero). */
  lemma {:induction false} TargetPassCountsEscapes(t0: Tally, ts: seq<ObjectState>, fired: bool,
                                                   aim: Option<Pixel>, now: real, draws: nat -> ParticleDraw)
    ensures var r := TargetPass(t0, ts, fired, aim, now, draws);
            r.Passed? ==> r.tally.lives == t0.lives - EscapeCount(ts)
  {
    if ts != [] {
      TargetPassCountsEscapes(t0, ts[..|ts| - 1], fired, aim, now, draws);
    }
  }

  /** When the pass completes, each hit has emitted exactly 25 particles,
      after those already emitted. */
  lemma {:induction false} TargetPassCountsBursts(t0: Tally, ts: seq<ObjectState>, fired: bool,
                                                  aim: Option<Pixel>, now: real, draws: nat -> ParticleDraw)
    ensures var r := TargetPass(t0, ts, fired, aim, now, draws);
            r.Passed? ==>
              |r.tally.burst| == |t0.burst| + BURST_SIZE * HitCount(ts, fired, aim) &&
              r.tally.burst[..|t0.burst|] == t0.burst
  {
    if ts != [] {
      var init := ts[..|ts| - 1];
      TargetPassCountsBursts(t0, init, fired, aim, now, draws);
      match TargetPass(t0, init, fired, aim, now, draws)
      case RemoveError =>
      case Passed(t) =>
        var r := VisitTarget(t, ts[|ts| - 1], fired, aim, now, draws);
        if r.Passed? {
          assert r.tally.burst[..|t.burst|] == t.burst;
          assert r.tally.burst[..|t0.burst|] == t.burst[..|t0.burst|];
        }
    }
  }

  /** When the pass completes with the combo starting at 1 or more, each hit
      has scored at least 10 and the combo is still at least 1. */
  lemma {:induction false} TargetPassScoresHits(t0: Tally, ts: seq<ObjectState>, fired: bool,
                                                aim: Option<Pixel>, now: real, draws: nat -> ParticleDraw)
    requires 1 <= t0.combo
    ensures var r := TargetPass(t0, ts, fired, aim, now, draws);
            r.Passed? ==>
              t0.score + POINTS_PER_COMBO * HitCount(ts, fired, aim) <= r.tally.score && 1 <= r.tally.combo
  {
    if ts != [] {
      TargetPassScoresHits(t0, ts[..|ts| - 1], fired, aim, now, draws);
    }
  }

  /** Without a live shot (no pinch past the cooldown, or the aim's x is 0)
      nothing is hit: the pass completes, scores nothing, emits nothing and
      keeps the hit time. */
  lemma {:induction false} NoShotNoScore(t0: Tally, ts: seq<ObjectState>, fired: bool,
                                         aim: Option<Pixel>, now: real, draws: nat -> ParticleDraw)
    requires !Shooting(fired, aim)
    ensures var r := TargetPass(t0, ts, fired, aim, now, draws);
            r.Passed? && r.tally.score == t0.score && r.tally.burst == t0.burst &&
            r.tally.lastHitTime == t0.lastHitTime && r.tally.drawn == t0.drawn
  {
    if ts != [] {
      NoShotNoScore(t0, ts[..|ts| - 1], fired, aim, now, draws);
    }
  }

  // ---------------------------------------------------------------- the particle pass

  /** The particle pass works particle by particle: on a list made of two parts
      it is the pass on the first part followed by the pass on the second, so
      the survivors keep their order. */
  lemma {:induction false} ParticlePassAppend(a: seq<ParticleState>, b: seq<ParticleState>)
    ensures ParticlePass(a + b) == ParticlePass(a) + ParticlePass(b)
    decreases |b|
  {
    if b == [] {
      assert a + b == a;
    } else {
      var b', p := b[..|b| - 1], b[|b| - 1];
      assert a + b == (a + b') + [p];
      ParticlePassAppend(a, b');
      var m := MovedParticle(p);
      Assoc(ParticlePass(a), ParticlePass(b'), if m.life <= 0 then [] else [m]);
    }
  }

  /** The particles left after the pass are exactly the old ones moved once
      whose life is still positive, and there are no more of them than before. */
  lemma {:induction false} ParticlePassMembership(ps: seq<ParticleState>, q: ParticleState)
    ensures q in ParticlePass(ps) <==> exists i :: 0 <= i < |ps| && q == MovedParticle(ps[i]) && 0 < q.life
    ensures |ParticlePass(ps)| <= |ps|
    decreases |ps|
  {
    if ps != [] {
      var init, p := ps[..|ps| - 1], ps[|ps| - 1];
      ParticlePassMembership(init, q);
      if exists i :: 0 <= i < |ps| && q == MovedParticle(ps[i]) && 0 < q.life {
        var i :| 0 <= i < |ps| && q == MovedParticle(ps[i]) && 0 < q.life;
        if i < |init| {
          assert init[i] == ps[i];
        }
      }
      if exists i :: 0 <= i < |init| && q == MovedParticle(init[i]) && 0 < q.life {
        var i :| 0 <= i < |init| && q == MovedParticle(init[i]) && 0 < q.life;
        assert ps[i] == init[i];
      }
    }
  }

  // ---------------------------------------------------------------- difficulty and spawn rate

  /** Both the speed multiplier and the spawn rate never decrease as the score grows. */
  lemma DifficultyMonotone(s1: int, s2: int)
    requires s1 <= s2
    ensures Difficulty(s1) <= Difficulty(s2)
    ensures SpawnRate(s1) <= SpawnRate(s2)
  {
  }

  /** The spawn rate is capped at 0.12, reached from a score of 90 on, and is
      at least 0.03 for any score that is not negative; the multiplier starts at 1. */
  lemma SpawnRateBounds(score: int)
    ensures SpawnRate(score) <= 0.12
    ensures SpawnRate(score) == 0.12 <==> 90 <= score
    ensures 0 <= score ==> 0.03 <= SpawnRate(score) && 1.0 <= Difficulty(score)
  {
  }

  // ---------------------------------------------------------------- whole frames

  /** The part of the state every frame keeps: combo at least 1, score not negative. */
  predicate Inv(w: World)
  {
    1 <= w.combo && 0 <= w.score
  }

  /** The latch: a frame leaves the game over exactly when it was over or no
      lives were left. */
  lemma StepGameOver(w: World, f: Frame)
    ensures StepSpec(w, f).Running? ==> StepSpec(w, f).world.gameOver == (w.gameOver || w.lives <= 0)
  {
  }

  /** While the game is over (or once the lives are gone), a frame spawns
      nothing, moves no target, keeps score, lives and combo, and still runs
      the particle pass. */
  lemma GameOverLatch(w: World, f: Frame)
    requires w.gameOver || w.lives <= 0
    ensures StepSpec(w, f).Running?
    ensures var w' := StepSpec(w, f).world;
            w'.gameOver && w'.objects == w.objects && w'.score == w.score && w'.lives == w.lives &&
            w'.combo == w.combo && w'.lastHitTime == w.lastHitTime &&
            w'.difficulty == w.difficulty && w'.spawnRate == w.spawnRate &&
            w'.particles == ParticlePass(w.particles)
  {
  }

  /** Once over, the game stays over for any sequence of later frames, none of
      which can raise, and score, lives, combo and targets stay as they were. */
  lemma {:induction false} GameOverIsPermanent(w: World, fs: seq<Frame>)
    requires w.gameOver
    ensures Run(w, fs).Running?
    ensures var w' := Run(w, fs).world;
            w'.gameOver && w'.score == w.score && w'.lives == w.lives && w'.combo == w.combo &&
            w'.objects == w.objects
    decreases |fs|
  {
    if fs != [] {
      GameOverIsPermanent(w, fs[..|fs| - 1]);
      GameOverLatch(Run(w, fs[..|fs| - 1]).world, fs[|fs| - 1]);
    }
  }

  /** A frame raises exactly when the game is on and some target of the pass
      (the old ones and the one just spawned) is removed twice. */
  lemma StepRaisesIff(w: World, f: Frame)
    ensures var fired := Fires(f.hand, f.now, w.lastShot);
            var ts := SpawnStep(w, f);
            StepSpec(w, f) == ValueError <==>
              !w.gameOver && 0 < w.lives && exists j :: 0 <= j < |ts| && DoubleRemoval(ts[j], fired, Aim(f.hand))
  {
    var fired := Fires(f.hand, f.now, w.lastShot);
    var w1 := w.(lastShot := if fired then f.now else w.lastShot);
    assert SpawnStep(w1, f) == SpawnStep(w, f);
    TargetPassRaisesIff(StartTally(w1), SpawnStep(w, f), fired, Aim(f.hand), f.now, f.draws);
  }

  /** In a frame that plays, the targets left are the survivors of the pass in
      their order, each escape has cost one life, and the particle list is the
      old one followed by the bursts, after the particle pass. */
  lemma StepTargets(w: World, f: Frame)
    requires !w.gameOver && 0 < w.lives && StepSpec(w, f).Running?
    ensures var fired := Fires(f.hand, f.now, w.lastShot);
            var ts := SpawnStep(w, f);
            var w' := StepSpec(w, f).world;
            w'.objects == Survivors(ts, fired, Aim(f.hand)) &&
            w'.lives == w.lives - EscapeCount(ts) &&
            exists burst :: |burst| == BURST_SIZE * HitCount(ts, fired, Aim(f.hand)) &&
                            w'.particles == ParticlePass(w.particles + burst)
  {
    var fired := Fires(f.hand, f.now, w.lastShot);
    var w1 := w.(lastShot := if fired then f.now else w.lastShot);
    var ts := SpawnStep(w, f);
    assert SpawnStep(w1, f) == ts;
    var t0 := StartTally(w1);
    TargetPassSurvivors(t0, ts, fired, Aim(f.hand), f.now, f.draws);
    TargetPassCountsEscapes(t0, ts, fired, Aim(f.hand), f.now, f.draws);
    TargetPassCountsBursts(t0, ts, fired, Aim(f.hand), f.now, f.draws);
    var t := TargetPass(t0, ts, fired, Aim(f.hand), f.now, f.draws).tally;
    assert |t.burst| == BURST_SIZE * HitCount(ts, fired, Aim(f.hand));
  }

  /** A frame keeps the combo at 1 or more and the score not negative, never
      lowers the score and never gives a life back. */
  lemma StepKeepsInvariant(w: World, f: Frame)
    requires Inv(w)
    ensures StepSpec(w, f).Running? ==>
              var w' := StepSpec(w, f).world;
              Inv(w') && w.score <= w'.score && w'.lives <= w.lives
  {
    if !w.gameOver && 0 < w.lives {
      var fired := Fires(f.hand, f.now, w.lastShot);
      var w1 := w.(lastShot := if fired then f.now else w.lastShot);
      TargetPassMonotone(StartTally(w1), SpawnStep(w1, f), fired, Aim(f.hand), f.now, f.draws);
    }
  }

  /** The same over any run of frames. */
  lemma {:induction false} RunKeepsInvariant(w: World, fs: seq<Frame>)
    requires Inv(w)
    ensures Run(w, fs).Running? ==>
              var w' := Run(w, fs).world;
              Inv(w') && w.score <= w'.score && w'.lives <= w.lives
    decreases |fs|
  {
    if fs != [] {
      var init := fs[..|fs| - 1];
      RunKeepsInvariant(w, init);
      if Run(w, init).Running? {
        StepKeepsInvariant(Run(w, init).world, fs[|fs| - 1]);
      }
    }
  }

  /** In a frame that plays, the combo lapses to 1 when the last hit is more
      than 1.5 seconds old at the end of the target pass. */
  lemma ComboLapse(w: World, f: Frame)
    requires !w.gameOver && 0 < w.lives && StepSpec(w, f).Running?
    ensures var w' := StepSpec(w, f).world;
            f.now - w'.lastHitTime > COMBO_WINDOW ==> w'.combo == 1
  {
  }

  /** A frame without a live shot scores nothing and cannot raise. */
  lemma NoShotFrame(w: World, f: Frame)
    requires !Shooting(Fires(f.hand, f.now, w.lastShot), Aim(f.hand))
    ensures StepSpec(w, f).Running?
    ensures StepSpec(w, f).world.score == w.score
    ensures StepSpec(w, f).world.lastHitTime == w.lastHitTime
  {
    if !w.gameOver && 0 < w.lives {
      var fired := Fires(f.hand, f.now, w.lastShot);
      var w1 := w.(lastShot := if fired then f.now else w.lastShot);
      NoShotNoScore(StartTally(w1), SpawnStep(w1, f), fired, Aim(f.hand), f.now, f.draws);
    }
  }

  /** An index fingertip that truncates to the left edge (`aim_x == 0`, which
      is falsy) never scores, even on a pinch. */
  lemma AimAtZeroNeverScores(w: World, f: Frame)
    requires f.hand.Some? && -1.0 < f.hand.value.indexTip.x * WIDTH as real < 1.0
    ensures StepSpec(w, f).Running? && StepSpec(w, f).world.score == w.score
  {
    TruncZero(f.hand.value.indexTip.x * WIDTH as real);
    NoShotFrame(w, f);
  }

  // ---------------------------------------------------------------- concrete frames

  /** A pinch at the top edge, aimed at (640, 0). */
  function TopPinch(): Hand
  {
    Hand(Landmark(0.5, 0.0), Landmark(0.5, 0.0))
  }

  function SameDraws(): nat -> ParticleDraw
  {
    (k: nat) => ParticleDraw(1.0, 1.0, 20)
  }

  function NoSpawn(): TargetDraw
  {
    TargetDraw(640, 100, 25, 4.0, 0.0, Rgb(255, 50, 50), Circle)
  }

  /** The double removal is reachable: a size-50 target at y = -40 moving 21
      per frame ends its move at y = -61, past the top edge, and a pinch aimed
      at (640, 0) is within 75 of it, so it is removed twice in one visit and
      the frame raises. */
  lemma DoubleRemovalReachable()
    ensures var target := ObjectState(640.0, -40.0, 50, 21.0, 0.0, Rgb(255, 50, 50), Circle);
            var w := InitialWorld().(objects := [target]);
            StepSpec(w, Frame(Some(TopPinch()), 10.0, 1.0, NoSpawn(), SameDraws())) == ValueError
  {
    var target := ObjectState(640.0, -40.0, 50, 21.0, 0.0, Rgb(255, 50, 50), Circle);
    var w := InitialWorld().(objects := [target]);
    var f := Frame(Some(TopPinch()), 10.0, 1.0, NoSpawn(), SameDraws());
    assert Aim(f.hand) == Some(Pixel(640, 0));
    assert SpawnStep(w, f) == [target];
    assert DoubleRemoval(target, true, Some(Pixel(640, 0)));
    StepRaisesIff(w, f);
  }

  /** A pinch on a target in mid-frame scores 10, raises the combo to 2, drops
      the target and leaves 25 particles (life 20, one tick used). */
  lemma HitScenario()
    ensures var target := ObjectState(640.0, 304.0, 40, 4.0, 0.0, Rgb(255, 50, 50), Circle);
            var hand := Hand(Landmark(0.5, 300.0 / 720.0), Landmark(0.5, 300.0 / 720.0));
            var w := InitialWorld().(objects := [target]);
            var r := StepSpec(w, Frame(Some(hand), 10.0, 1.0, NoSpawn(), SameDraws()));
            r.Running? && r.world.score == 10 && r.world.combo == 2 && r.world.objects == [] &&
            r.world.lives == START_LIVES && |r.world.particles| == BURST_SIZE
  {
    var target := ObjectState(640.0, 304.0, 40, 4.0, 0.0, Rgb(255, 50, 50), Circle);
    var hand := Hand(Landmark(0.5, 300.0 / 720.0), Landmark(0.5, 300.0 / 720.0));
    var w := InitialWorld().(objects := [target]);
    var f := Frame(Some(hand), 10.0, 1.0, NoSpawn(), SameDraws());
    assert Aim(f.hand) == Some(Pixel(640, 300));
    assert SpawnStep(w, f) == [target];
    var t0 := StartTally(w);
    assert TargetPass(t0, [target], true, Aim(f.hand), 10.0, SameDraws()) ==
           VisitTarget(t0, target, true, Aim(f.hand), 10.0, SameDraws()) by {
      assert [target][..0] == [];
    }
    var burst := Burst(640.0, 300.0, SameDraws(), 0);
    var m := MovedObject(target);
    assert m.x == 640.0 && m.y == 300.0 && !Escaped(m);
    assert Shooting(true, Aim(f.hand));
    assert Burst(m.x, m.y, SameDraws(), t0.drawn) == burst;
    assert Hits(m, Pixel(640, 300));
    var t := t0.(score := 10, combo := 2, lastHitTime := 10.0, burst := burst, drawn := BURST_SIZE);
    assert VisitTarget(t0, target, true, Aim(f.hand), 10.0, SameDraws()) == Passed(t);
    assert PlayStep(w, f, true) == Running(w.(score := 10, combo := 2, lastHitTime := 10.0,
                                                difficulty := 1.0, spawnRate := 0.03,
                                                objects := [], particles := burst));
    assert forall k :: 0 <= k < |burst| ==> MovedParticle(burst[k]).life == 19;
    ParticlePassLive(burst);
  }

  /** A pass over particles that all outlive one more tick keeps every one,
      in order, each moved once. */
  lemma {:induction false} ParticlePassLive(ps: seq<ParticleState>)
    requires forall k :: 0 <= k < |ps| ==> 0 < MovedParticle(ps[k]).life
    ensures ParticlePass(ps) == seq(|ps|, k requires 0 <= k < |ps| => MovedParticle(ps[k]))
    decreases |ps|
  {
    if ps != [] {
      var init := ps[..|ps| - 1];
      ParticlePassLive(init);
      assert ParticlePass(ps) == ParticlePass(init) + [MovedParticle(ps[|ps| - 1])];
    }
  }

  /** Two escapes in the frame that spends the last life take the lives to -1;
      the next frame latches the game over. */
  lemma EscapesDriveLivesNegative()
    ensures var a := ObjectState(300.0, -50.0, 30, 20.0, 0.0, Rgb(255, 50, 50), Square);
            var b := ObjectState(900.0, -55.0, 30, 20.0, 0.0, Rgb(255, 50, 50), Triangle);
            var w := InitialWorld().(lives := 1, objects := [a, b]);
            var r := StepSpec(w, Frame(None, 10.0, 1.0, NoSpawn(), SameDraws()));
            r.Running? && r.world.lives == -1 && !r.world.gameOver &&
            StepSpec(r.world, Frame(None, 10.1, 1.0, NoSpawn(), SameDraws())).world.gameOver
  {
    var a := ObjectState(300.0, -50.0, 30, 20.0, 0.0, Rgb(255, 50, 50), Square);
    var b := ObjectState(900.0, -55.0, 30, 20.0, 0.0, Rgb(255, 50, 50), Triangle);
    var w := InitialWorld().(lives := 1, objects := [a, b]);
    var f := Frame(None, 10.0, 1.0, NoSpawn(), SameDraws());
    assert SpawnStep(w, f) == [a, b];
    assert EscapeCount([a]) == 1 by {
      assert [a][..0] == [];
    }
    assert EscapeCount([a, b]) == 2 by {
      assert [a, b][..1] == [a];
    }
    NoShotFrame(w, f);
    StepTargets(w, f);
    GameOverLatch(StepSpec(w, f).world, Frame(None, 10.1, 1.0, NoSpawn(), SameDraws()));
  }
}
