# Gesture shooter: a verified model of the frame update

The game is a webcam arcade shooter. A hand tracker locates the index
fingertip, which aims. A pinch (index tip and thumb tip closer than 0.04 in
normalised coordinates) fires, with a 0.25 s cooldown. Targets rise from
below the frame, faster as the score grows. A target that leaves through the
top costs a life and resets the combo. A target hit by a shot scores
`10 * combo`, grows the combo and bursts into 25 particles. The particles
drift and fade. The game is over once the lives are gone.

This project models one iteration of the main loop, without capture and
drawing, and proves its properties.

- `basics.dfy` (module `Basics`) holds the helpers:
  - an `Option` type;
  - `Trunc`, which is Python's `int()` on a float;
  - `ListRemove`, which is Python's `list.remove`. It removes the first
    occurrence by identity and fails with `ValueError` when the element is
    absent;
  - `Distinct`, which says a list holds no element twice.
- `entities.dfy` (module `Entities`) holds the two entity classes.
  - `GameObject` and `Particle` have the same fields as in the game, and a
    `Move` method that updates them in place.
  - `State()` reads the fields out as a value (`ObjectState`,
    `ParticleState`). `ObjectStates` / `ParticleStates` read a whole list.
- `rules.dfy` (module `Rules`) states the rules of a frame on values:
  - the pinch and fire gate (`FireGesture`, `Fires`) and the aim point
    (`Aim`);
  - the difficulty curve (`Difficulty`, `SpawnRate`);
  - one visit of the target loop (`VisitTarget`) and the whole target pass
    (`TargetPass`);
  - the particle pass (`ParticlePass`);
  - the whole frame as a function from the old state to the new one
    (`StepSpec`), and the main loop over many frames (`Run`).
  - A frame's outcome is either the new `World` or `ValueError`.
- `shooter.dfy` (module `Shooter`) holds class `Game`, whose fields are the
  game's module-level variables.
  - `Game.Step` edits the `objects` and `particles` lists in place, block by
    block, as the loop does. It moves each entity through its own `Move`.
  - `Step` is proved to produce exactly the state, or the `ValueError`, that
    `StepSpec` gives.
  - `Step` also keeps the invariant `Valid()`: no entity listed twice, the
    combo at least 1, the score not negative.
- `properties.dfy` (module `Properties`) proves what the game promises about
  `StepSpec`, `Run` and the two passes.

### Edge cases of the code

The model follows the code in each of these cases.

- **Particles after game over.** After game over the targets freeze, but the
  particle pass sits outside `if not game_over` (`game.py:159-163`). So
  particles keep moving and fading.
- **Double removal.** A target can escape and be hit in the same visit. It is
  then passed to `objects.remove` twice (`game.py:140`, `game.py:149`), and the
  second call raises `ValueError`, which ends the program.
  - The model has this as an outcome of its own (`RemoveError` / `ValueError`).
  - `Properties.DoubleRemovalReachable` exhibits such a frame.
  - So an escape costs exactly one life only when the escaping target is
    not also hit in the same visit.
- **Cooldown.** The cooldown test is strict: `now - last_shot > 0.25`.
- **Lifetime.** A particle is dropped once its life, after the decrement, is
  at most 0.

## Model

| member | source | states |
|---|---|---|
| Basics.TruncTowardZero | game.py:113-114 | `int()` on a float truncates toward zero: the result has the sign of the argument and is less than one unit closer to zero than it |
| Basics.TruncZero | game.py:113-114 | the aim coordinate truncates to 0 exactly when the scaled fingertip lies strictly between -1 and 1 |
| Basics.RemoveCount | game.py:140 | `list.remove` fails exactly when the element is absent, and otherwise takes out one occurrence and keeps every other element |
| Basics.RemoveAfterPrefix | game.py:149 | removing a target whose first occurrence follows a prefix leaves the prefix and the rest of the list, in order |
| Entities.GameObject.constructor | game.py:36-47 | a new target starts at the drawn x, the drawn rise below the bottom edge, with the drawn base speed scaled by the current difficulty |
| Entities.GameObject.Move | game.py:49-51 | a move takes `speed` off `y` and adds `2 * angle` to `x`, and changes nothing else |
| Entities.Particle.constructor | game.py:74-78 | a new particle starts at the given position with the drawn velocity and life |
| Entities.Particle.Move | game.py:80-83 | a move adds the velocity to the position and uses up one tick of life |
| Rules.TargetPassMonotone | game.py:135-152 | when the target pass completes, the combo stays at least 1, the score does not fall, the lives do not rise, at most the visited targets are kept, and one particle draw is used per particle emitted |
| Shooter.Game.constructor | game.py:19-32 | the state before the first frame: score 0, 5 lives, combo 1, both lists empty, difficulty 1 and spawn rate 0.03 |
| Shooter.Game.Step | game.py:104-163 | one frame edits the state in place into exactly the state `StepSpec` gives, or reports the `ValueError` exactly when `StepSpec` does, and keeps `Valid()` |
| Shooter.Game.ReadHand | game.py:104-118 | the aim point is the truncated fingertip whenever a hand is tracked; a shot fires exactly on a pinch past the cooldown, and then restarts it |
| Shooter.Game.Play | game.py:124-156 | the block run while the game is on produces the state `PlayStep` gives, or the `ValueError` exactly when it says so |
| Shooter.Game.SetDifficultyAndSpawn | game.py:127-132 | difficulty and spawn rate are set from the score, and a target built with the new difficulty is appended exactly when the coin is below the spawn rate |
| Shooter.Game.TargetPhase | game.py:135-156 | after the target loop and the combo timeout, the counters, the kept targets and the emitted particles are those of `TargetPass`, and the combo is 1 when the last hit is over 1.5 s old |
| Shooter.Game.LapseCombo | game.py:155-156 | the combo drops to 1 exactly when the last hit is more than 1.5 s old, and is otherwise unchanged |
| Shooter.Game.UpdateTargets | game.py:135-152 | the loop over the snapshot `objects[:]` raises exactly when `TargetPass` does; otherwise the live list holds exactly the kept targets, and the counters and the particles appended are those of the pass |
| Shooter.Game.VisitObject | game.py:136-152 | one iteration moves the target, then takes the escape branch and the hit branch as `VisitTarget` says, raising exactly when it does; the other targets are untouched |
| Shooter.Game.Shoot | game.py:145-152 | the hit branch scores `10 * combo`, grows the combo, stamps the hit time, removes the target (raising exactly when it was already removed) and appends its burst |
| Shooter.Game.SpawnBurst | game.py:151-152 | the 25 particles appended are fresh, distinct, and exactly `Burst` after the old ones |
| Shooter.Game.ParticlePhase | game.py:159-163 | the particle block changes only the particle list, to `ParticlePass` of the old one |
| Shooter.Game.UpdateParticles | game.py:159-163 | the loop over the snapshot `particles[:]` leaves exactly `ParticlePass` of the old particle list |
| Shooter.Game.VisitParticle | game.py:160-163 | one iteration moves the particle, and removes it exactly when its life is at most 0; the others are untouched |
| Shooter.RemoveErrorPersists | game.py:135-149 | once a prefix of the target loop has raised, the whole loop raises |
| Properties.PinchIsHypot | game.py:86-89 | the comparison of squares agrees with `math.hypot(dx, dy) < 0.04` for the actual distance |
| Properties.HitIsHypot | game.py:145 | the comparison of squares agrees with `math.hypot(..) < size + 25`, also when the radius is not positive |
| Properties.StepLastShot | game.py:116-118 | a frame restarts the cooldown exactly when it fires, whether or not the game is over |
| Properties.RunLastShot | game.py:116-118 | along a run of frames, the last-shot time is the time of the latest frame that fired |
| Properties.LastShotGrows | game.py:116-118 | the last-shot time never decreases from frame to frame, whatever the clock does, because a shot fires only more than 0.25 after it |
| Properties.LastShotAfterFire | game.py:116-118 | after a frame fires, the last-shot time never goes back before that frame's time, even if the clock runs backwards |
| Properties.FireEventsSpaced | game.py:116-118 | any two frames that fire are more than 0.25 apart, for any sequence of clock readings |
| Properties.FiringIsGated | game.py:116-118 | a frame fires only on a pinch past the cooldown, and a change of the last-shot time means the frame fired and set it to now |
| Properties.HitScores | game.py:145-152 | a hit on a target that has not escaped scores `10 * combo` with the old combo, adds 1 to the combo, stamps the hit time, drops the target and appends 25 particles at its post-move position |
| Properties.EscapePenalty | game.py:139-142 | a target that escapes and is not hit is dropped, costs exactly one life and resets the combo to 1, and nothing else changes |
| Properties.DoubleRemovalRaises | game.py:139-149 | a visit raises exactly when the moved target has escaped and is hit by a live shot |
| Properties.TargetPassRaisesIff | game.py:135-149 | the target pass raises exactly when some target in the snapshot is removed twice |
| Properties.TargetPassSurvivors | game.py:135-149 | the targets kept are exactly those that neither escaped nor were hit, each moved once, in their original order |
| Properties.TargetPassCountsEscapes | game.py:139-142 | each escape costs exactly one life, so several escapes can take the lives below 0 |
| Properties.TargetPassCountsBursts | game.py:151-152 | the particles emitted are 25 per hit, appended after those already there |
| Properties.TargetPassScoresHits | game.py:146-147 | with the combo starting at 1 or more, each hit scores at least 10 and the combo stays at least 1 |
| Properties.NoShotNoScore | game.py:144 | without a live shot the pass cannot raise, scores nothing, emits nothing and keeps the hit time |
| Properties.ParticlePassAppend | game.py:159-163 | the particle pass works particle by particle, so the survivors keep their order |
| Properties.ParticlePassMembership | game.py:159-163 | a particle is left exactly when it is an old particle moved once with positive life, and the list never grows |
| Properties.ParticlePassLive | game.py:159-163 | particles that all outlive another tick are all kept, in order, each moved exactly once |
| Properties.DifficultyMonotone | game.py:127-128 | both the speed multiplier and the spawn rate never decrease as the score grows |
| Properties.SpawnRateBounds | game.py:127-128 | the spawn rate is at most 0.12, exactly 0.12 from a score of 90 on, at least 0.03 for any score that is not negative, and the multiplier is then at least 1 |
| Properties.StepGameOver | game.py:121-122 | after a frame the game is over exactly when it was over or no lives were left |
| Properties.GameOverLatch | game.py:121-124 | while the game is over no target is spawned or moved, and score, lives, combo and hit time stay as they were; the particle pass still runs |
| Properties.GameOverIsPermanent | game.py:121-124 | once over, across any later frames the game stays over and never raises, and score, lives, combo and targets are frozen |
| Properties.StepRaisesIff | game.py:124-149 | a frame raises exactly when the game is on and some target of the pass, including one just spawned, is removed twice |
| Properties.StepTargets | game.py:131-163 | in a frame that plays, the targets left are the survivors in order, each escape has cost one life, and the particles are `ParticlePass` of the old ones followed by 25 per hit |
| Properties.StepKeepsInvariant | game.py:139-156 | a frame keeps the combo at least 1 and the score not negative, never lowers the score and never gives a life back |
| Properties.RunKeepsInvariant | game.py:92-163 | the same over any run of frames |
| Properties.ComboLapse | game.py:155-156 | in a frame that plays, the combo ends at 1 whenever the last hit is more than 1.5 s old |
| Properties.NoShotFrame | game.py:144 | a frame without a live shot cannot raise and leaves the score and the hit time unchanged |
| Properties.AimAtZeroNeverScores | game.py:113-144 | a fingertip that truncates to `aim_x == 0` never scores, even on a pinch |
| Properties.DoubleRemovalReachable | game.py:139-149 | a concrete frame removes one target twice and raises: a size-50 target ending its move at y = -61 under a pinch aimed at (640, 0) |
| Properties.HitScenario | game.py:144-163 | a concrete hit scores 10, raises the combo to 2, drops the target and leaves 25 particles |
| Properties.EscapesDriveLivesNegative | game.py:121-142 | two escapes in a frame with one life left take the lives to -1, and the next frame latches the game over |

## Left out

- Camera capture, frame flip and colour conversion, and the break on a failed read (`game.py:93-101`), are left out. This is I/O.
- MediaPipe hand inference is left out. It is a foreign model; its output becomes an optional pair of landmarks.
- All drawing is left out: `GameObject.draw`, particle and reticle circles, HUD text, the camera panel, the game-over text, `imshow` and the exit key. These are calls into a drawing library.
- Random draws are inputs, not computed: the spawn coin, the attributes of a new target, and the attributes of the k-th particle created in a frame. No contract depends on the ranges the random calls produce, so the model does not state them, and the three-colour palette is not modelled.
- `time.time()` is one `now` per frame. The game reads the clock at `game.py:116` (only on a pinch, since `and` short-circuits), at `game.py:118` on a shot, once per hit at `game.py:148` inside the target loop, and at `game.py:155`. A frame with n hits therefore reads it up to 3 + n times. The model treats all these readings as a single instant.
- Floats are modelled as exact reals. There is no rounding, overflow or NaN.
- `math.hypot(..) < r` is modelled as a comparison of squares. `Properties.PinchIsHypot` and `Properties.HitIsHypot` prove the two agree for the true distance. The square root itself is not modelled.
- After a `ValueError` the program ends. `Game.Step` reports `raised` and does not describe the partial state left behind.
- The game-over text and the final-score screen are left out (drawing).
- `Properties.TargetPassScoresHits`: states a lower bound on the score of a whole pass, not its exact value. The exact gain depends on how the combo evolves through the pass. It is stated exactly, per visit, by `Properties.HitScores` and by `TargetPass` itself.
