# Pong: a verified model of the game loop

This project models a browser Pong game. A player controls the left paddle with
the `w` and `s` keys. A scripted opponent controls the right paddle. A ball
bounces between the two top and bottom walls. When the ball leaves the field,
the other side scores a point, and the ball is re-centred after a short delay.
The first side to reach 7 points ends the match, and "play again" resets the
scores.

All game state in the original is mutable globals: two paddle objects, a ball
object, and two score counters. The model has four modules:

- `Collision` (collision.dfy): the rectangle type and the strict
  axis-aligned overlap test `Collides`.
- `Rules` (rules.dfy): the state as values (`Paddle`, `Ball`, `State`, the
  `Canvas` size), one function per phase of a frame, in the loop's order
  (`MovePaddles`, `MoveBall`, `AwardPoint`, `PaddleHits`, `SteerOpponent`,
  `CheckGameOver`), their composition `Frame`, the deferred re-centre
  (`Recentered`), "play again" (`Restarted`), the key handlers (`KeyPressed`,
  `KeyReleased`), the match invariant `Inv`, and the lemmas about a whole frame.
- `Session` (session.dfy): a match as a sequence of events: frames, re-centres,
  restarts and key events. It proves by induction that the invariant holds
  after any such sequence. It also proves that between two re-centres at most
  one point is awarded, so no point is counted twice.
- `Pong` (game.dfy): the class `Game`, whose fields are the globals that the
  original updates in place. Its methods are `Step(roll)` (one call of the
  game loop), `Recenter()`, `Restart()`, `KeyDown(code)` and `KeyUp(code)`. Each
  method keeps `Valid()`, and each ensures that the object's abstract value
  `Model()` is the matching `Rules` function applied to the old value.

Modelling decisions:

- Positions and velocities are `real`. A paddle starts at
  `height/2 - paddleHeight/2`, which is `height/2 - 37.5`, so paddle positions
  are not whole numbers. Whole-number arithmetic would change the collision
  outcomes. Exact rationals match the original's floating-point values here:
  every value is a multiple of 0.5 and well within the exactly representable
  range.
- The canvas size is a pair of `nat` given to the constructor. A match assumes
  `height >= 2*grid + paddleHeight` (`Canvas.Valid`), which leaves room for a
  paddle between the walls.
- `Math.floor(Math.random()*6)` in the game loop is the parameter
  `roll: DieRoll`, a number from 0 to 5.
- Game over is the boolean `over`. It stands for the canvas being hidden and
  "play again" being shown. The loop only ever sets it; "play again" clears it.
- The source comment beside `paddleHeight` says 80, but the value is
  `grid * 5` = 75. The comment on the second key branch says "a key", but the
  code tests 83, which is `s`. The model follows the code in both places.

## Model

| member | source | states |
|---|---|---|
| Collision.CollidesIffShareInterior | script.js:52-57 | for rectangles of positive size, the AABB test holds exactly when some point lies strictly inside both rectangles |
| Collision.CollidesSymmetric | script.js:52-57 | the collision test gives the same answer with its arguments swapped |
| Rules.Clamp | script.js:69-81 | a clamped paddle lies in `[grid, maxPaddleY]`; an in-range position is kept; a position above the top snaps to `grid` and one below the bottom snaps to `maxPaddleY` (never a bounce) |
| Rules.MovePaddles | script.js:65-81 | each paddle's new `y` is `Clamp` of `y + dy` (so it moves by its velocity and snaps to a wall, never bounces); both paddles then lie between the walls; only the two paddle positions change |
| Rules.BounceOffWalls | script.js:93-100 | after the wall step `grid <= y <= height - 2*grid`; the ball is unchanged when it touches neither wall; otherwise `dy` is negated; top snaps to `grid` and bottom to `height - 2*grid`; only `y` and `dy` change |
| Rules.WallSnapsExclusive | script.js:93-100 | on a valid canvas the top-wall and bottom-wall conditions cannot both hold |
| Rules.MoveBall | script.js:89-100 | the ball advances by `(dx, dy)`; the new `y` is `y + dy` inside the walls, `grid` past the top wall and `height - 2*grid` past the bottom wall; `dy` flips exactly when the advanced ball is outside the walls; the ball ends between the walls; nothing but the ball changes |
| Rules.AwardPoint | script.js:111-125 | with a point already pending, or the ball inside the field, nothing changes; otherwise the flag becomes set and the total score rises by exactly 1; the right score rises only for `x < 0`, the left only for `x > width`; scores never decrease |
| Rules.PaddleHits | script.js:136-149 | a left hit negates `dx` and puts the ball at `leftPaddle.x + width`; the right paddle is tested only without a left hit, and a right hit negates `dx` and puts the ball at `rightPaddle.x - ball.width`; with no hit nothing changes; `y`, `dy` and all else are kept |
| Rules.SteerOpponent | script.js:165-170 | the right paddle's `dy` becomes 0 on a roll of 0 and the ball's `dy` otherwise; nothing else changes |
| Rules.CheckGameOver | script.js:172-177 | the game-over flag is set exactly when it was set before or a score is at least 7; nothing else changes |
| Rules.Recentered | script.js:128-132 | the re-centre clears the pending flag and puts the ball at `(width/2, height/2)`, keeping its velocity, the paddles and the scores |
| Rules.Restarted | script.js:182-190 | "play again" sets both scores to 0, the ball velocity to (2, 2) and clears game over; positions and the pending flag are kept |
| Rules.KeyPressed | script.js:193-202 | key 87 sets the left paddle's `dy` to `-paddleSpeed`, key 83 to `+paddleSpeed`; any other key changes nothing; only that `dy` changes |
| Rules.KeyReleased | script.js:205-210 | releasing 83 or 87 sets the left paddle's `dy` to 0; any other key changes nothing |
| Rules.InitialSatisfiesInv | script.js:4-48 | the initial state (paddles centred, ball centred moving (5, -5), scores 0) satisfies the match invariant, with no point pending and the match not over |
| Rules.FramePreservesInv | script.js:60-179 | a frame keeps both paddles in `[grid, maxPaddleY]`, the ball in `[grid, height - 2*grid]`, the paddles' x fixed, and game over only with a score of 7 |
| Rules.FrameGameOver | script.js:172-177 | after any frame of a match, game over holds exactly when `leftScore >= 7 or rightScore >= 7` |
| Rules.FrameScoring | script.js:89-133 | over a whole frame, with the ball moving to `x + dx`: a pending point blocks scoring; leaving left scores one for the right side only, leaving right one for the left side only, each setting the pending flag; staying inside scores nothing |
| Rules.FrameVertical | script.js:88-170 | over a whole frame, `dy` flips exactly on a wall contact and paddle hits never change `y` or `dy`; the opponent's `dy` is 0 on a roll of 0 and the ball's final `dy` otherwise; the left paddle's `dy` and the paddles' x are untouched |
| Rules.TopWallExample | script.js:93-96 | a ball at y = 10 with velocity (5, -5) is put back at y = 15 with velocity (5, 5) |
| Rules.LeftExitExample | script.js:111-119 | a ball at x = -1 with no point pending gives the right side one point and sets the pending flag |
| Session.ApplyPreservesInv | script.js:60-210 | every event (frame, re-centre, restart, key down, key up) keeps the match invariant |
| Session.RunPreservesInv | script.js:60-213 | any sequence of events keeps the match invariant |
| Session.MatchInvariant | script.js:4-213 | every state reachable from the initial one satisfies the invariant |
| Session.AtMostOnePointPerServe | script.js:110-133 | between two re-centres (and with no restart) scores never decrease, at most one point is awarded in total, none when one is already pending, and a pending point stays pending |
| Pong.Game.constructor | script.js:4-48 | the globals start as the initial state, which satisfies the invariant |
| Pong.Game.Step | script.js:60-179 | one call of the loop updates the fields in place to `Frame` of the old state and keeps the invariant |
| Pong.Game.MovePaddlesInPlace | script.js:64-81 | the paddle step on the fields equals `MovePaddles` |
| Pong.Game.MoveBallInPlace | script.js:88-100 | the ball step on the fields equals `MoveBall` |
| Pong.Game.AwardPointInPlace | script.js:110-126 | the scoring step on the fields equals `AwardPoint` |
| Pong.Game.PaddleHitsInPlace | script.js:135-149 | the paddle-hit step on the fields equals `PaddleHits` |
| Pong.Game.SteerOpponentInPlace | script.js:164-170 | the opponent step on the fields equals `SteerOpponent` |
| Pong.Game.CheckGameOverInPlace | script.js:172-177 | the game-over step on the fields equals `CheckGameOver` |
| Pong.Game.Recenter | script.js:128-132 | the timeout body updates the fields to `Recentered` and keeps the invariant |
| Pong.Game.Restart | script.js:182-190 | `startAgain` updates the fields to `Restarted` and keeps the invariant |
| Pong.Game.KeyDown | script.js:193-202 | the keydown handler updates the fields to `KeyPressed` and keeps the invariant |
| Pong.Game.KeyUp | script.js:205-210 | the keyup handler updates the fields to `KeyReleased` and keeps the invariant |

## Left out

- Drawing. This covers clearing the canvas, the paddle, ball, wall and
  centre-line rectangles, fill styles, and the score text. It is rendering and
  has no effect on the state.
- DOM visibility and text: `canvas.hidden`, `playAgain.hidden`,
  `trashTalkMessage.hidden` and `innerText`. Game over is the single flag
  `over` instead.
- The taunt functions `trashTalk` and `positiveTrashTalk`. Each picks one of
  ten constant strings for display, and neither affects the game state.
- Scheduling. The model leaves out `requestAnimationFrame`, the 400 ms
  `setTimeout`, and the fact that the loop re-arms itself every frame. It also
  leaves out that `startAgain` arms a second chain of frames. One loop call is
  one `Step`, and the timeout body is an explicit `Recenter`, which
  `Session.Event` lets happen at any point.
- `Math.random`, which is replaced by the caller-supplied die roll.
- JavaScript floating point. Exact rationals are used instead, which agree
  with it for every value this game produces.
- `paddleSpeed` and `ballSpeed` are modelled as constants. The original
  declares them as variables but never assigns them again.
