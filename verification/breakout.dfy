/** `Breakout`: the frame rules of the paddle-and-ball game that run on the
    UI thread. Ball movement by velocity times elapsed time is supplied by
    the caller; the rules here decide paddle moves, bounces, scoring and the
    end of a game. */
module Breakout {

  const BallRadius: real := 5.0
  const PaddleWidth: real := 80.0
  const PaddleHeight: real := 10.0
  const SceneWidth: int := 400
  const SceneHeight: int := 400
  const Velocity: real := 400.0
  /** The paddle's largest x: SCENE_WIDTH - PADDLE_WIDTH. */
  const PaddleMaxX: int := 320
  /** The score at which a game ends. */
  const WinningScore: int := 10

  /** The paddle's x starts at 160.0 and only ever moves by 1.0, so it is an
      integer. */
  datatype World = World(
    ballX: real, ballY: real,
    velocityX: real, velocityY: real,
    paddleX: int,
    score: int,
    stopped: bool)

  /** `input(int)`: 1 moves the paddle left, 2 right, each by one pixel and
      only while inside the scene; any other value does nothing. */
  function Input(w: World, move: int): (w': World)
    ensures w' == w.(paddleX := w'.paddleX)
    ensures move == 1 && w.paddleX > 0 ==> w'.paddleX == w.paddleX - 1
    ensures move == 2 && w.paddleX < PaddleMaxX ==> w'.paddleX == w.paddleX + 1
    ensures !((move == 1 && w.paddleX > 0) || (move == 2 && w.paddleX < PaddleMaxX)) ==> w' == w
  {
    if move == 1 then (if w.paddleX > 0 then w.(paddleX := w.paddleX - 1) else w)
    else if move == 2 then (if w.paddleX < PaddleMaxX then w.(paddleX := w.paddleX + 1) else w)
    else w
  }

  /** The held arrow keys' paddle move at the start of a frame (left first,
      then right, each with the same bounds as `input`). */
  function KeyboardMove(w: World, left: bool, right: bool): (w': World)
    ensures w' == w.(paddleX := w'.paddleX)
    ensures 0 <= w.paddleX <= PaddleMaxX ==> 0 <= w'.paddleX <= PaddleMaxX
    ensures !left && !right ==> w' == w
    ensures left && !right && w.paddleX > 0 ==> w'.paddleX == w.paddleX - 1
    ensures right && !left && w.paddleX < PaddleMaxX ==> w'.paddleX == w.paddleX + 1
    ensures left && right && 0 < w.paddleX <= PaddleMaxX ==> w' == w
  {
    var afterLeft := if left then Input(w, 1) else w;
    if right then Input(afterLeft, 2) else afterLeft
  }

  /** Wall and ceiling reflection: a component is negated only when the ball
      touches that wall and is moving toward it. */
  function Bounce(w: World): (w': World)
    ensures w' == w.(velocityX := w'.velocityX, velocityY := w'.velocityY)
    ensures w'.velocityX == w.velocityX || w'.velocityX == -w.velocityX
    ensures w'.velocityY == w.velocityY || w'.velocityY == -w.velocityY
    ensures w.ballX - BallRadius <= 0.0 ==> w'.velocityX >= 0.0
    ensures w.ballX + BallRadius >= SceneWidth as real ==> w'.velocityX <= 0.0
    ensures w.ballY - BallRadius <= 0.0 ==> w'.velocityY >= 0.0
    ensures 0.0 < w.ballX - BallRadius && w.ballX + BallRadius < SceneWidth as real ==> w'.velocityX == w.velocityX
    ensures 0.0 < w.ballY - BallRadius ==> w'.velocityY == w.velocityY
  {
    var vx :=
      if w.ballX - BallRadius <= 0.0 && w.velocityX < 0.0 then -w.velocityX
      else if w.ballX + BallRadius >= SceneWidth as real && w.velocityX > 0.0 then -w.velocityX
      else w.velocityX;
    var vy := if w.ballY - BallRadius <= 0.0 && w.velocityY < 0.0 then -w.velocityY else w.velocityY;
    w.(velocityX := vx, velocityY := vy)
  }

  /** The end-of-game condition of `isDone`: the ball's bottom reached the
      scene's bottom, or the winning score was reached. */
  predicate Done(w: World)
  {
    w.ballY + BallRadius >= SceneHeight as real || w.score == WinningScore
  }

  /** `isDone` with its side effect: a finished game is marked stopped. */
  function CheckDone(w: World): (r: (bool, World))
    ensures r.0 == Done(w)
    ensures r.0 ==> r.1 == w.(stopped := true)
    ensures !r.0 ==> r.1 == w
  {
    if Done(w) then (true, w.(stopped := true)) else (false, w)
  }

  /** A paddle hit while the ball moves down: the ball leaves upward with a
      horizontal speed proportional to where it hit the paddle, and the
      score goes up by one. */
  function PaddleHit(w: World, intersects: bool): (w': World)
    ensures intersects && w.velocityY > 0.0 ==>
      && w'.velocityY == -w.velocityY && w'.velocityY < 0.0
      && w'.score == w.score + 1
      && w'.velocityX == (w.ballX - (w.paddleX as real + PaddleWidth / 2.0)) / (PaddleWidth / 2.0) * Velocity
      && w' == w.(velocityX := w'.velocityX, velocityY := w'.velocityY, score := w'.score)
    ensures !(intersects && w.velocityY > 0.0) ==> w' == w
  {
    if intersects && w.velocityY > 0.0 then
      var proportion := (w.ballX - (w.paddleX as real + PaddleWidth / 2.0)) / (PaddleWidth / 2.0);
      w.(velocityX := proportion * Velocity, velocityY := -w.velocityY, score := w.score + 1)
    else w
  }

  /** One Timeline frame: the ball has moved to (`ballX`, `ballY`); then the
      held keys move the paddle, the walls reflect the ball, and unless the
      game is over the paddle may hit it. `intersects` is the bounds test of
      ball against paddle. */
  function Frame(w: World, ballX: real, ballY: real, left: bool, right: bool, intersects: bool): (w': World)
    ensures w'.score == w.score || (w'.score == w.score + 1 && w'.velocityY < 0.0 && !Done(w.(ballX := ballX, ballY := ballY)))
    ensures Done(Bounce(KeyboardMove(w.(ballX := ballX, ballY := ballY), left, right))) ==>
      w' == Bounce(KeyboardMove(w.(ballX := ballX, ballY := ballY), left, right)).(stopped := true)
  {
    var moved := w.(ballX := ballX, ballY := ballY);
    var bounced := Bounce(KeyboardMove(moved, left, right));
    var (done, checked) := CheckDone(bounced);
    if done then checked else PaddleHit(checked, intersects)
  }

  /** The body of the reset task: `draw` is `random.nextDouble(200)`. */
  function Reset(w: World, draw: real): (w': World)
    ensures w'.score == 0 && !w'.stopped
    ensures w'.ballX == 200.0 && w'.ballY == BallRadius
    ensures w'.paddleX == 160
    ensures w'.velocityY == Velocity && w'.velocityX == draw - 100.0
  {
    World(200.0, BallRadius, draw - 100.0, Velocity, 160, 0, false)
  }

  /** The paddle is inside the scene and the score has not passed 10. */
  ghost predicate Valid(w: World)
  {
    0 <= w.paddleX <= PaddleMaxX && 0 <= w.score <= WinningScore
  }

  datatype Event =
    | Move(move: int)
    | Tick(ballX: real, ballY: real, left: bool, right: bool, intersects: bool)
    | Restart(draw: real)

  function Apply(w: World, e: Event): World
  {
    match e
    case Move(m) => Input(w, m)
    case Tick(x, y, l, r, i) => Frame(w, x, y, l, r, i)
    case Restart(d) => Reset(w, d)
  }

  function Run(w: World, events: seq<Event>): World
    decreases |events|
  {
    if |events| == 0 then w else Run(Apply(w, events[0]), events[1..])
  }

  lemma FrameValid(w: World, ballX: real, ballY: real, left: bool, right: bool, intersects: bool)
    requires Valid(w)
    ensures Valid(Frame(w, ballX, ballY, left, right, intersects))
  {
    var bounced := Bounce(KeyboardMove(w.(ballX := ballX, ballY := ballY), left, right));
    if !Done(bounced) {
      assert bounced.score < WinningScore;
    }
  }

  /** From any valid world, under any interleaving of agent moves, frames
      (with any keys held) and resets, the paddle stays within [0, 320] and
      the score within [0, 10]. */
  lemma {:induction false} RunValid(w: World, events: seq<Event>)
    requires Valid(w)
    ensures Valid(Run(w, events))
    decreases |events|
  {
    if |events| > 0 {
      match events[0] {
        case Tick(x, y, l, r, i) => FrameValid(w, x, y, l, r, i);
        case _ =>
      }
      RunValid(Apply(w, events[0]), events[1..]);
    }
  }

  /** The game as the scene is built: ball at (200, 5), paddle at 160. */
  function Initial(): (w: World)
    ensures Valid(w)
  {
    World(200.0, BallRadius, 100.0, Velocity, 160, 0, false)
  }
}
