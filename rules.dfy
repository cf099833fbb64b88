/** The state of a Pong match and the rules of one animation frame, as values.
    Each phase of a frame is a function on the whole state; `Frame` runs them
    in the order the game loop does. */
module Rules {
  import opened Collision

  /** Wall thickness, ball size and paddle width. */
  const Grid: real := 15.0
  const PaddleHeight: real := Grid * 5.0
  const PaddleSpeed: real := 6.0
  const BallSpeed: real := 5.0
  /** Both velocity components after "play again". */
  const RestartSpeed: real := 2.0
  const WinningScore: nat := 7
  /** Key codes of 'w' and 's'. */
  const KeyW: int := 87
  const KeyS: int := 83

  /** The outcome of one throw of a six-sided die (0 to 5). */
  type DieRoll = n: int | 0 <= n < 6

  /** The drawing surface: its size in pixels. */
  datatype Canvas = Canvas(width: nat, height: nat) {
    function W(): real { width as real }
    function H(): real { height as real }
    /** Lowest top edge a paddle may have. */
    function MaxPaddleY(): real { H() - Grid - PaddleHeight }
    /** Room for a paddle between the two walls. */
    predicate Valid() { 2.0 * Grid + PaddleHeight <= H() }
  }

  datatype Paddle = Paddle(x: real, y: real, dy: real)
  datatype Ball = Ball(x: real, y: real, dx: real, dy: real, resetting: bool)

  /** Everything a frame reads or writes; `over` stands for the hidden canvas
      and the visible "play again" control. */
  datatype State = State(
    left: Paddle, right: Paddle, ball: Ball,
    leftScore: nat, rightScore: nat, over: bool)

  function PaddleRect(p: Paddle): Rect { Rect(p.x, p.y, Grid, PaddleHeight) }
  function BallRect(b: Ball): Rect { Rect(b.x, b.y, Grid, Grid) }

  predicate PaddleInBounds(c: Canvas, p: Paddle)
  {
    Grid <= p.y <= c.MaxPaddleY()
  }

  /** The ball touches neither wall. */
  predicate InsideWalls(c: Canvas, y: real)
  {
    Grid <= y && y + Grid <= c.H() - Grid
  }

  /** The ball has left the field through the left or the right edge. */
  predicate OutOfField(c: Canvas, x: real)
  {
    x < 0.0 || x > c.W()
  }

  /** One side has reached the winning score. */
  predicate Decided(s: State)
  {
    s.leftScore >= WinningScore || s.rightScore >= WinningScore
  }

  function Initial(c: Canvas): State
  {
    var py := c.H() / 2.0 - PaddleHeight / 2.0;
    State(
      Paddle(Grid * 2.0, py, 0.0),
      Paddle(c.W() - Grid * 3.0, py, 0.0),
      Ball(c.W() / 2.0, c.H() / 2.0, BallSpeed, -BallSpeed, false),
      0, 0, false)
  }

  /** What holds between any two events of a match. */
  ghost predicate Inv(c: Canvas, s: State)
  {
    && c.Valid()
    && s.left.x == Grid * 2.0
    && s.right.x == c.W() - Grid * 3.0
    && PaddleInBounds(c, s.left)
    && PaddleInBounds(c, s.right)
    && Grid <= s.ball.y <= c.H() - 2.0 * Grid
    && (s.over ==> Decided(s))
  }

  // ---------------------------------------------------------------- phases

  /** Keeps a paddle between the walls: a hard floor and ceiling, not a bounce. */
  function Clamp(c: Canvas, y: real): (r: real)
    ensures c.Valid() ==> Grid <= r <= c.MaxPaddleY()
    ensures Grid <= y <= c.MaxPaddleY() ==> r == y
    ensures y < Grid ==> r == Grid
    ensures c.Valid() && y > c.MaxPaddleY() ==> r == c.MaxPaddleY()
    ensures r == y || r == Grid || r == c.MaxPaddleY()
  {
    if y < Grid then Grid
    else if y > c.MaxPaddleY() then c.MaxPaddleY()
    else y
  }

  /** Phase 1: both paddles move by their velocity and are clamped. */
  function MovePaddles(c: Canvas, s: State): (r: State)
    ensures c.Valid() ==> PaddleInBounds(c, r.left) && PaddleInBounds(c, r.right)
    ensures r.left.y == Clamp(c, s.left.y + s.left.dy)
    ensures r.right.y == Clamp(c, s.right.y + s.right.dy)
    ensures r == s.(left := s.left.(y := r.left.y), right := s.right.(y := r.right.y))
  {
    s.(left := s.left.(y := Clamp(c, s.left.y + s.left.dy)),
       right := s.right.(y := Clamp(c, s.right.y + s.right.dy)))
  }

  /** Snaps the ball back inside the top or bottom wall, reversing its
      vertical velocity exactly when a snap happens; the top wall is tested
      first. */
  function BounceOffWalls(c: Canvas, b: Ball): (r: Ball)
    ensures c.Valid() ==> Grid <= r.y <= c.H() - 2.0 * Grid
    ensures InsideWalls(c, b.y) ==> r == b
    ensures !InsideWalls(c, b.y) ==> r.dy == -b.dy
    ensures b.y < Grid ==> r.y == Grid
    ensures Grid <= b.y && b.y + Grid > c.H() - Grid ==> r.y == c.H() - 2.0 * Grid
    ensures r == b.(y := r.y, dy := r.dy)
  {
    if b.y < Grid then b.(y := Grid, dy := b.dy * -1.0)
    else if b.y + Grid > c.H() - Grid then b.(y := c.H() - Grid * 2.0, dy := b.dy * -1.0)
    else b
  }

  /** Under a valid canvas at most one of the two wall snaps can apply. */
  lemma WallSnapsExclusive(c: Canvas, y: real)
    requires c.Valid()
    ensures !(y < Grid && y + Grid > c.H() - Grid)
  {
  }

  /** Phase 2: the ball moves by its velocity and bounces off the walls. */
  function MoveBall(c: Canvas, s: State): (r: State)
    ensures r.ball.x == s.ball.x + s.ball.dx && r.ball.dx == s.ball.dx
    ensures r.ball.resetting == s.ball.resetting
    ensures c.Valid() ==> Grid <= r.ball.y <= c.H() - 2.0 * Grid
    ensures r.ball.dy == if InsideWalls(c, s.ball.y + s.ball.dy) then s.ball.dy else -s.ball.dy
    ensures InsideWalls(c, s.ball.y + s.ball.dy) ==> r.ball.y == s.ball.y + s.ball.dy
    ensures s.ball.y + s.ball.dy < Grid ==> r.ball.y == Grid
    ensures c.Valid() && s.ball.y + s.ball.dy + Grid > c.H() - Grid ==> r.ball.y == c.H() - 2.0 * Grid
    ensures r == s.(ball := r.ball)
  {
    s.(ball := BounceOffWalls(c, s.ball.(x := s.ball.x + s.ball.dx, y := s.ball.y + s.ball.dy)))
  }

  /** Phase 3: a ball that has left the field scores one point for the
      opposite side, unless a point for it is already pending. */
  function AwardPoint(c: Canvas, s: State): (r: State)
    ensures s.ball.resetting || !OutOfField(c, s.ball.x) ==> r == s
    ensures !s.ball.resetting && OutOfField(c, s.ball.x) ==>
      r.ball.resetting && r.leftScore + r.rightScore == s.leftScore + s.rightScore + 1
    ensures s.leftScore <= r.leftScore && s.rightScore <= r.rightScore
    ensures r.rightScore != s.rightScore ==> s.ball.x < 0.0
    ensures r.leftScore != s.leftScore ==> s.ball.x > c.W()
    ensures r == s.(ball := s.ball.(resetting := r.ball.resetting),
                    leftScore := r.leftScore, rightScore := r.rightScore)
  {
    if OutOfField(c, s.ball.x) && !s.ball.resetting then
      s.(ball := s.ball.(resetting := true),
         rightScore := if s.ball.x < 0.0 then s.rightScore + 1 else s.rightScore,
         leftScore := if s.ball.x > c.W() then s.leftScore + 1 else s.leftScore)
    else
      s
  }

  /** Phase 4: a ball touching a paddle reverses horizontally and is placed
      against that paddle's face; the right paddle is tested only when the
      left one is not hit. */
  function PaddleHits(s: State): (r: State)
    ensures Collides(BallRect(s.ball), PaddleRect(s.left)) ==>
      r.ball.dx == -s.ball.dx && r.ball.x == s.left.x + Grid
    ensures (!Collides(BallRect(s.ball), PaddleRect(s.left)) &&
             Collides(BallRect(s.ball), PaddleRect(s.right))) ==>
      r.ball.dx == -s.ball.dx && r.ball.x == s.right.x - Grid
    ensures (!Collides(BallRect(s.ball), PaddleRect(s.left)) &&
             !Collides(BallRect(s.ball), PaddleRect(s.right))) ==> r == s
    ensures r == s.(ball := s.ball.(x := r.ball.x, dx := r.ball.dx))
  {
    if Collides(BallRect(s.ball), PaddleRect(s.left)) then
      s.(ball := s.ball.(dx := s.ball.dx * -1.0, x := s.left.x + Grid))
    else if Collides(BallRect(s.ball), PaddleRect(s.right)) then
      s.(ball := s.ball.(dx := s.ball.dx * -1.0, x := s.right.x - Grid))
    else
      s
  }

  /** Phase 5: the scripted opponent follows the ball's vertical velocity,
      except on a roll of 0, when it stops. */
  function SteerOpponent(s: State, roll: DieRoll): (r: State)
    ensures roll == 0 ==> r.right.dy == 0.0
    ensures roll != 0 ==> r.right.dy == s.ball.dy
    ensures r == s.(right := s.right.(dy := r.right.dy))
  {
    s.(right := s.right.(dy := if roll == 0 then 0.0 else s.ball.dy))
  }

  /** Phase 6: the match ends once a side has reached the winning score; the
      flag stays raised. */
  function CheckGameOver(s: State): (r: State)
    ensures r.over <==> s.over || Decided(s)
    ensures r == s.(over := r.over)
  {
    if Decided(s) then s.(over := true) else s
  }

  /** One call of the game loop, given the die roll of that frame. */
  function Frame(c: Canvas, s: State, roll: DieRoll): State
  {
    CheckGameOver(SteerOpponent(PaddleHits(AwardPoint(c, MoveBall(c, MovePaddles(c, s)))), roll))
  }

  /** The deferred callback: the ball returns to the centre and may score
      again, keeping its velocity. */
  function Recentered(c: Canvas, s: State): (r: State)
    ensures !r.ball.resetting
    ensures r.ball.x == c.W() / 2.0 && r.ball.y == c.H() / 2.0
    ensures r.ball.dx == s.ball.dx && r.ball.dy == s.ball.dy
    ensures r == s.(ball := r.ball)
  {
    s.(ball := s.ball.(resetting := false, x := c.W() / 2.0, y := c.H() / 2.0))
  }

  /** "Play again": both scores back to 0 and a slower ball; positions and the
      pending-point flag are kept. */
  function Restarted(s: State): (r: State)
    ensures r.leftScore == 0 && r.rightScore == 0 && !r.over
    ensures r.ball.dx == RestartSpeed && r.ball.dy == RestartSpeed
    ensures r == s.(ball := s.ball.(dx := r.ball.dx, dy := r.ball.dy),
                    leftScore := 0, rightScore := 0, over := false)
  {
    s.(ball := s.ball.(dx := RestartSpeed, dy := RestartSpeed),
       leftScore := 0, rightScore := 0, over := false)
  }

  /** Key pressed: 'w' moves the left paddle up, 's' down, others do nothing. */
  function KeyPressed(s: State, code: int): (r: State)
    ensures code == KeyW ==> r.left.dy == -PaddleSpeed
    ensures code == KeyS ==> r.left.dy == PaddleSpeed
    ensures code != KeyW && code != KeyS ==> r == s
    ensures r == s.(left := s.left.(dy := r.left.dy))
  {
    if code == KeyW then s.(left := s.left.(dy := -PaddleSpeed))
    else if code == KeyS then s.(left := s.left.(dy := PaddleSpeed))
    else s
  }

  /** Key released: releasing 'w' or 's' stops the left paddle. */
  function KeyReleased(s: State, code: int): (r: State)
    ensures code == KeyW || code == KeyS ==> r.left.dy == 0.0
    ensures code != KeyW && code != KeyS ==> r == s
    ensures r == s.(left := s.left.(dy := r.left.dy))
  {
    if code == KeyS || code == KeyW then s.(left := s.left.(dy := 0.0)) else s
  }

  // ---------------------------------------------------------------- frame lemmas

  lemma InitialSatisfiesInv(c: Canvas)
    requires c.Valid()
    ensures Inv(c, Initial(c))
    ensures !Initial(c).ball.resetting && !Initial(c).over
  {
  }

  /** A frame keeps the paddles inside the walls, the ball between them, and
      "over" faithful to the scores. */
  lemma FramePreservesInv(c: Canvas, s: State, roll: DieRoll)
    requires Inv(c, s)
    ensures Inv(c, Frame(c, s, roll))
  {
  }

  /** After a frame the match is over exactly when a side has 7 points. */
  lemma FrameGameOver(c: Canvas, s: State, roll: DieRoll)
    requires Inv(c, s)
    ensures Frame(c, s, roll).over <==> Decided(Frame(c, s, roll))
  {
  }

  /** Scoring over a whole frame, in terms of where the ball moves to. */
  lemma FrameScoring(c: Canvas, s: State, roll: DieRoll)
    ensures var r, x := Frame(c, s, roll), s.ball.x + s.ball.dx;
      && (s.ball.resetting ==>
            r.ball.resetting && r.leftScore == s.leftScore && r.rightScore == s.rightScore)
      && (!s.ball.resetting && x < 0.0 ==>
            r.ball.resetting && r.rightScore == s.rightScore + 1 && r.leftScore == s.leftScore)
      && (!s.ball.resetting && x > c.W() ==>
            r.ball.resetting && r.leftScore == s.leftScore + 1 && r.rightScore == s.rightScore)
      && (!s.ball.resetting && !OutOfField(c, x) ==>
            !r.ball.resetting && r.leftScore == s.leftScore && r.rightScore == s.rightScore)
  {
  }

  /** The vertical motion and the opponent's reaction over a whole frame:
      dy flips exactly on a wall contact, paddle hits never touch it, the
      opponent copies it unless the roll is 0, and the player's velocity is
      left to the key handlers. */
  lemma FrameVertical(c: Canvas, s: State, roll: DieRoll)
    ensures var r := Frame(c, s, roll);
      && r.ball.dy == (if InsideWalls(c, s.ball.y + s.ball.dy) then s.ball.dy else -s.ball.dy)
      && r.ball.y == MoveBall(c, s).ball.y
      && r.right.dy == (if roll == 0 then 0.0 else r.ball.dy)
      && r.left.dy == s.left.dy
      && r.left.x == s.left.x && r.right.x == s.right.x
  {
  }

  /** Example: the ball at y = 10 moving (5, -5) meets the top wall, is put
      back at y = 15 and moves (5, 5). */
  lemma TopWallExample(c: Canvas)
    requires c.Valid()
    ensures BounceOffWalls(c, Ball(100.0, 10.0, 5.0, -5.0, false)) == Ball(100.0, 15.0, 5.0, 5.0, false)
  {
  }

  /** Example: a ball at x = -1 with no point pending scores for the right
      side and marks the point as pending. */
  lemma LeftExitExample(c: Canvas, s: State)
    requires s.ball.x == -1.0 && !s.ball.resetting
    ensures AwardPoint(c, s).rightScore == s.rightScore + 1
    ensures AwardPoint(c, s).leftScore == s.leftScore
    ensures AwardPoint(c, s).ball.resetting
  {
  }
}
