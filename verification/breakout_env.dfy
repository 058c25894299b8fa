/** `BreakoutEnv`: the reinforcement-learning environment over the Breakout
    game: state snapshots, observations, rewards, steps and the replay log. */
module BreakoutEnv {

  import opened Wrappers
  import opened RlCommon
  import Breakout

  /** The observation list: the direction feature and the turn. */
  datatype Observation = Observation(direction: int, turn: real)

  /** A snapshot of the game at one moment; `observation` is the lazily
      filled cache. */
  datatype State = State(paddleX: real, paddleW: real, ballX: real, turn: int, done: bool,
                         observation: Option<Observation>)

  /** `State.of(breakout)`: paddle centre and width, ball x, turn 1 and the
      game's `isDone()`, which also marks a finished game stopped. */
  function Snapshot(w: Breakout.World): (r: (State, Breakout.World))
    ensures r.0.turn == 1 && r.0.observation.None?
    ensures r.0.paddleX == w.paddleX as real + Breakout.PaddleWidth / 2.0
    ensures r.0.paddleW == Breakout.PaddleWidth && r.0.ballX == w.ballX
    ensures r.0.done == Breakout.Done(w)
    ensures r.1 == Breakout.CheckDone(w).1
  {
    var (done, w') := Breakout.CheckDone(w);
    (State(w.paddleX as real + Breakout.PaddleWidth / 2.0, Breakout.PaddleWidth, w.ballX, 1, done, None), w')
  }

  /** The direction feature: the sign of `(int)(paddleX - ballX)`, so a gap
      of less than one pixel either way reads as 0. */
  function Direction(s: State): (d: int)
    ensures d == 1 <==> s.paddleX - s.ballX >= 1.0
    ensures d == -1 <==> s.paddleX - s.ballX <= -1.0
    ensures d == 0 <==> -1.0 < s.paddleX - s.ballX < 1.0
  {
    var i := TruncateTowardZero(s.paddleX - s.ballX);
    if i < 0 then -1 else if i > 0 then 1 else 0
  }

  /** `createObservation`: computed on the first call and cached in the
      state; later calls return the cached value. */
  function CreateObservation(s: State): (r: (Observation, State))
    ensures s.observation.Some? ==> r.0 == s.observation.value && r.1 == s
    ensures s.observation.None? ==> r.0 == Observation(Direction(s), s.turn as real)
    ensures r.1 == s.(observation := Some(r.0))
    ensures r.0.direction in {-1, 0, 1} || s.observation.Some?
  {
    match s.observation
    case Some(o) => (o, s)
    case None =>
      var o := Observation(Direction(s), s.turn as real);
      (o, s.(observation := Some(o)))
  }

  /** Asking again returns the very same observation and changes nothing. */
  lemma ObservationIsCached(s: State)
    ensures CreateObservation(CreateObservation(s).1) == CreateObservation(s)
  {
  }

  function Abs(x: real): real { if x < 0.0 then -x else x }

  /** `getReward`: a positive reward that shrinks with the gap while the
      ball is over the paddle, otherwise minus the gap. */
  function Reward(s: State): (r: real)
    ensures r > 0.0 ==> Abs(s.paddleX - s.ballX) < s.paddleW / 2.0 && r <= s.paddleW / 10.0
    ensures r <= 0.0 ==> r == -Abs(s.paddleX - s.ballX)
  {
    var gap := Abs(s.paddleX - s.ballX);
    if gap < s.paddleW / 2.0 then (s.paddleW - gap) / 10.0 else -gap
  }

  /** With a paddle of positive width the reward is positive exactly when
      the ball is above the paddle, never more than a tenth of the width,
      and otherwise minus the gap. */
  lemma RewardSign(s: State)
    requires s.paddleW > 0.0
    ensures Reward(s) > 0.0 <==> Abs(s.paddleX - s.ballX) < s.paddleW / 2.0
    ensures Reward(s) <= s.paddleW / 10.0
    ensures Reward(s) <= 0.0 ==> Reward(s) == -Abs(s.paddleX - s.ballX)
    ensures Reward(s) > 0.0 ==> Reward(s) == (s.paddleW - Abs(s.paddleX - s.ballX)) / 10.0
  {
  }

  /** A transition; the reward is computed from the post state when the step
      is built. */
  datatype Step = Step(pre: State, post: State, action: int, reward: real)

  /** `BreakoutStep.isDone`. */
  function IsDone(st: Step): (d: bool)
    ensures d == st.post.done
  {
    st.post.done
  }

  datatype Env = Env(state: State, buffer: seq<Step>)

  function Create(w: Breakout.World): (r: (Env, Breakout.World))
    ensures r.0.buffer == [] && r.0.state.turn == 1
  {
    var (s, w') := Snapshot(w);
    (Env(s, []), w')
  }

  /** `reset`: the game restarts (`draw` is its random horizontal speed) and
      a fresh snapshot with turn 1 replaces the state; the log is kept. */
  function Reset(env: Env, w: Breakout.World, draw: real): (r: (Env, Breakout.World))
    ensures r.0.state.turn == 1 && r.0.buffer == env.buffer
    ensures r.0.state == Snapshot(Breakout.Reset(w, draw)).0
  {
    var (s, w') := Snapshot(Breakout.Reset(w, draw));
    (Env(s, env.buffer), w')
  }

  /** `step`: the move reaches the game, a new snapshot becomes the current
      state with the turn sign flipped, and the transition from the old to
      the new state is logged only when training. */
  function EnvStep(env: Env, w: Breakout.World, action: int, training: bool): (r: (Step, Env, Breakout.World))
    ensures r.0.pre == env.state
    ensures r.1.state == r.0.post
    ensures r.0.post.turn == -env.state.turn
    ensures r.0.action == action && r.0.reward == Reward(r.0.post)
    ensures r.1.buffer == Record(env.buffer, r.0, training)
    ensures IsDone(r.0) == Breakout.Done(Breakout.Input(w, action))
  {
    var (snap, w') := Snapshot(Breakout.Input(w, action));
    var post := snap.(turn := -env.state.turn);
    var st := Step(env.state, post, action, Reward(post));
    (st, Env(post, Record(env.buffer, st, training)), w')
  }

  datatype Event = Restart(draw: real) | Act(action: int, training: bool)

  function Apply(env: Env, w: Breakout.World, e: Event): (Env, Breakout.World)
  {
    match e
    case Restart(d) => Reset(env, w, d)
    case Act(a, t) => var r := EnvStep(env, w, a, t); (r.1, r.2)
  }

  function Run(env: Env, w: Breakout.World, events: seq<Event>): (Env, Breakout.World)
    decreases |events|
  {
    if |events| == 0 then (env, w)
    else var (e', w') := Apply(env, w, events[0]); Run(e', w', events[1..])
  }

  function TrainingSteps(events: seq<Event>): nat
    decreases |events|
  {
    if |events| == 0 then 0
    else (if events[0].Act? && events[0].training then 1 else 0) + TrainingSteps(events[1..])
  }

  /** Whatever mix of resets and steps, the turn stays 1 or -1, and the log
      grows by exactly the number of training steps, keeping what it had. */
  lemma {:induction false} RunInvariant(env: Env, w: Breakout.World, events: seq<Event>)
    requires env.state.turn == 1 || env.state.turn == -1
    ensures var (e', _) := Run(env, w, events);
      && (e'.state.turn == 1 || e'.state.turn == -1)
      && |e'.buffer| == |env.buffer| + TrainingSteps(events)
      && e'.buffer[..|env.buffer|] == env.buffer
    decreases |events|
  {
    if |events| > 0 {
      var (e1, w1) := Apply(env, w, events[0]);
      RunInvariant(e1, w1, events[1..]);
      var (e2, _) := Run(e1, w1, events[1..]);
      assert e2.buffer[..|env.buffer|] == e2.buffer[..|e1.buffer|][..|env.buffer|];
    }
  }

  /** Two steps in a row restore the turn sign. */
  lemma TurnAlternates(env: Env, w: Breakout.World, a1: int, t1: bool, a2: int, t2: bool)
    ensures var r1 := EnvStep(env, w, a1, t1);
            var r2 := EnvStep(r1.1, r1.2, a2, t2);
            r1.1.state.turn == -env.state.turn && r2.1.state.turn == env.state.turn
  {
  }
}
