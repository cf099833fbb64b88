/** The game page's mutable globals as one object whose methods are the game
    loop, the deferred re-centre callback, "play again" and the key handlers.
    Each method is specified by the function of module Rules that it
    implements. */
module Pong {
  import opened Collision
  import opened Rules

  class Game {
    const canvas: Canvas
    /** The paddles never move sideways. */
    const leftX: real
    const rightX: real

    var leftY: real
    var leftDy: real
    var rightY: real
    var rightDy: real

    var ballX: real
    var ballY: real
    var ballDx: real
    var ballDy: real
    /** A point for the ball is pending and the re-centre not yet done. */
    var resetting: bool

    var leftScore: nat
    var rightScore: nat
    /** The canvas is hidden and "play again" shown. */
    var over: bool

    /** The abstract value of the object. */
    ghost function Model(): State
      reads this
    {
      State(
        Paddle(leftX, leftY, leftDy),
        Paddle(rightX, rightY, rightDy),
        Ball(ballX, ballY, ballDx, ballDy, resetting),
        leftScore, rightScore, over)
    }

    ghost predicate Valid()
      reads this
    {
      Inv(canvas, Model())
    }

    constructor (width: nat, height: nat)
      requires Canvas(width, height).Valid()
      ensures canvas == Canvas(width, height)
      ensures Valid() && Model() == Initial(canvas)
    {
      canvas := Canvas(width, height);
      var w, h := width as real, height as real;
      leftX, leftY, leftDy := Grid * 2.0, h / 2.0 - PaddleHeight / 2.0, 0.0;
      rightX, rightY, rightDy := w - Grid * 3.0, h / 2.0 - PaddleHeight / 2.0, 0.0;
      ballX, ballY, resetting := w / 2.0, h / 2.0, false;
      ballDx, ballDy := BallSpeed, -BallSpeed;
      leftScore, rightScore, over := 0, 0, false;
      new;
      InitialSatisfiesInv(canvas);
    }

    /** One call of the game loop. */
    method Step(roll: DieRoll)
      requires Valid()
      modifies this
      ensures Valid()
      ensures Model() == Frame(canvas, old(Model()), roll)
    {
      ghost var s0 := Model();
      MovePaddlesInPlace();
      MoveBallInPlace();
      AwardPointInPlace();
      PaddleHitsInPlace();
      SteerOpponentInPlace(roll);
      CheckGameOverInPlace();
      FramePreservesInv(canvas, s0, roll);
    }

    /** Moves the paddles and keeps them between the walls. */
    method MovePaddlesInPlace()
      modifies this
      ensures Model() == MovePaddles(canvas, old(Model()))
    {
      leftY := leftY + leftDy;
      rightY := rightY + rightDy;
      if leftY < Grid {
        leftY := Grid;
      } else if leftY > canvas.MaxPaddleY() {
        leftY := canvas.MaxPaddleY();
      }
      if rightY < Grid {
        rightY := Grid;
      } else if rightY > canvas.MaxPaddleY() {
        rightY := canvas.MaxPaddleY();
      }
    }

    /** Moves the ball and bounces it off the top and bottom walls. */
    method MoveBallInPlace()
      modifies this
      ensures Model() == MoveBall(canvas, old(Model()))
    {
      ballX := ballX + ballDx;
      ballY := ballY + ballDy;
      if ballY < Grid {
        ballY := Grid;
        ballDy := ballDy * -1.0;
      } else if ballY + Grid > canvas.H() - Grid {
        ballY := canvas.H() - Grid * 2.0;
        ballDy := ballDy * -1.0;
      }
    }

    /** Scores a ball that has left the field, once. */
    method AwardPointInPlace()
      modifies this
      ensures Model() == AwardPoint(canvas, old(Model()))
    {
      if (ballX < 0.0 || ballX > canvas.W()) && !resetting {
        resetting := true;
        if ballX < 0.0 {
          rightScore := rightScore + 1;
        }
        if ballX > canvas.W() {
          leftScore := leftScore + 1;
        }
      }
    }

    /** Reflects the ball off the paddle it touches, left paddle first. */
    method PaddleHitsInPlace()
      modifies this
      ensures Model() == PaddleHits(old(Model()))
    {
      if Collides(Rect(ballX, ballY, Grid, Grid), Rect(leftX, leftY, Grid, PaddleHeight)) {
        ballDx := ballDx * -1.0;
        ballX := leftX + Grid;
      } else if Collides(Rect(ballX, ballY, Grid, Grid), Rect(rightX, rightY, Grid, PaddleHeight)) {
        ballDx := ballDx * -1.0;
        ballX := rightX - Grid;
      }
    }

    /** The opponent tracks the ball unless the die shows 0. */
    method SteerOpponentInPlace(roll: DieRoll)
      modifies this
      ensures Model() == SteerOpponent(old(Model()), roll)
    {
      if roll == 0 {
        rightDy := 0.0;
      } else {
        rightDy := ballDy;
      }
    }

    /** First to seven ends the match. */
    method CheckGameOverInPlace()
      modifies this
      ensures Model() == CheckGameOver(old(Model()))
    {
      if rightScore >= WinningScore || leftScore >= WinningScore {
        over := true;
      }
    }

    /** The body of the timeout armed when a point is scored. */
    method Recenter()
      requires Valid()
      modifies this
      ensures Valid()
      ensures Model() == Recentered(canvas, old(Model()))
    {
      resetting := false;
      ballX := canvas.W() / 2.0;
      ballY := canvas.H() / 2.0;
    }

    /** "Play again". */
    method Restart()
      requires Valid()
      modifies this
      ensures Valid()
      ensures Model() == Restarted(old(Model()))
    {
      over := false;
      leftScore := 0;
      rightScore := 0;
      ballDx := RestartSpeed;
      ballDy := RestartSpeed;
    }

    method KeyDown(code: int)
      requires Valid()
      modifies this
      ensures Valid()
      ensures Model() == KeyPressed(old(Model()), code)
    {
      if code == KeyW {
        leftDy := -PaddleSpeed;
      } else if code == KeyS {
        leftDy := PaddleSpeed;
      }
    }

    method KeyUp(code: int)
      requires Valid()
      modifies this
      ensures Valid()
      ensures Model() == KeyReleased(old(Model()), code)
    {
      if code == KeyS || code == KeyW {
        leftDy := 0.0;
      }
    }
  }
}
