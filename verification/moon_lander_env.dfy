/** `MoonLanderEnv`: the reinforcement-learning environment over the lander
    game: state snapshots, observations, rewards, steps and the replay log. */
module MoonLanderEnv {

  import opened Wrappers
  import opened RlCommon
  import MoonLander

  /** The observation list: height, vertical velocity, critical velocity and
      vertical thrust, then the turn. */
  datatype Observation = Observation(features: seq<real>, turn: real)

  datatype State = State(
    height: real, velocityVertical: real, velocityCritical: real, thrustVertical: real,
    landed: bool, turn: int, crashed: bool, seconds: real,
    observation: Option<Observation>)

  /** The two readings that come from the game's geometry and physics:
      the height above ground (m) and the critical velocity (km/h). */
  datatype Readings = Readings(height: real, velocityCritical: real)

  /** `State.of(moonLander)`, with turn 1 and an empty cache. */
  function StateOf(l: MoonLander.Lander, r: Readings): (s: State)
    ensures s.turn == 1 && s.observation.None?
    ensures s.height == r.height && s.velocityCritical == r.velocityCritical
    ensures s.velocityVertical == MoonLander.VelocityVerticalKmH(l) && s.thrustVertical == l.thrust.y
    ensures s.landed == l.landed && s.crashed == l.crashed && s.seconds == MoonLander.ElapsedSeconds(l)
  {
    State(r.height, MoonLander.VelocityVerticalKmH(l), r.velocityCritical, l.thrust.y,
          l.landed, 1, l.crashed, MoonLander.ElapsedSeconds(l), None)
  }

  /** `createObservation`: computed once per state and cached. */
  function CreateObservation(s: State): (r: (Observation, State))
    ensures s.observation.Some? ==> r.0 == s.observation.value && r.1 == s
    ensures s.observation.None? ==>
      && r.0.features == [s.height, s.velocityVertical, s.velocityCritical, s.thrustVertical]
      && r.0.turn == s.turn as real
    ensures r.1 == s.(observation := Some(r.0))
  {
    match s.observation
    case Some(o) => (o, s)
    case None =>
      var o := Observation([s.height, s.velocityVertical, s.velocityCritical, s.thrustVertical], s.turn as real);
      (o, s.(observation := Some(o)))
  }

  lemma ObservationIsCached(s: State)
    ensures CreateObservation(CreateObservation(s).1) == CreateObservation(s)
  {
  }

  /** A float reward; `1 / seconds` with zero seconds is +Infinity. */
  datatype Reward = Finite(value: real) | PositiveInfinity

  /** The penalty branch: moving up (or not at all) or still high above the
      ground. */
  predicate Penalised(s: State)
  {
    s.velocityVertical <= 0.0 || s.height > 80.0
  }

  /** `getReward`: penalty first, then landing (crashed or not), otherwise
      closeness of the velocity to the critical velocity. */
  function GetReward(s: State, action: int): (r: Reward)
    ensures r.PositiveInfinity? <==> !Penalised(s) && s.landed && !s.crashed && s.seconds == 0.0
    ensures Penalised(s) ==> r.Finite? && r.value <= -800.0 - s.height + s.velocityVertical - s.thrustVertical
    ensures !Penalised(s) && !s.landed ==> r == Finite(1000.0 - (s.velocityCritical - s.velocityVertical))
  {
    if Penalised(s) then
      Finite(-1000.0 - s.height + s.velocityVertical - s.thrustVertical + (if action == 1 then 200.0 else 0.0))
    else if s.landed then
      if s.crashed then Finite(-500.0 - s.height - s.velocityVertical)
      else if s.seconds == 0.0 then PositiveInfinity
      else Finite(10000.0 + 1.0 / s.seconds)
    else Finite(1000.0 - (s.velocityCritical - s.velocityVertical))
  }

  /** In the penalty branch the landed and crashed flags play no part, and
      action 1 earns exactly 200 more than any other action. */
  lemma PenaltyTakesPrecedence(s: State, action: int, landed: bool, crashed: bool)
    requires Penalised(s)
    ensures GetReward(s, action) == GetReward(s.(landed := landed, crashed := crashed), action)
    ensures GetReward(s, action).Finite?
    ensures action != 1 ==> GetReward(s, 1).value == GetReward(s, action).value + 200.0
    ensures GetReward(s, action).value <= -800.0 - s.height + s.velocityVertical - s.thrustVertical
  {
  }

  /** A soft landing outside the penalty branch pays more than 10000 (an
      infinite reward when no time has passed); outside the penalty branch
      the action does not matter. */
  lemma LandingReward(s: State, a1: int, a2: int)
    requires !Penalised(s)
    ensures GetReward(s, a1) == GetReward(s, a2)
    ensures s.landed && !s.crashed && s.seconds > 0.0 ==>
      GetReward(s, a1).Finite? && GetReward(s, a1).value > 10000.0
    ensures s.landed && !s.crashed && s.seconds == 0.0 ==> GetReward(s, a1).PositiveInfinity?
    ensures s.landed && s.crashed ==> GetReward(s, a1).Finite? && GetReward(s, a1).value < -500.0 - s.height
  {
  }

  datatype Step = Step(pre: State, post: State, action: int, reward: Reward)

  /** `MoonLanderStep.isDone`. */
  function IsDone(st: Step): (d: bool)
    ensures st.post.landed ==> d
    ensures st.post.seconds > 16.0 && st.post.height >= 90.0 ==> d
    ensures d && !st.post.landed ==> st.post.seconds > 16.0 && st.post.height >= 90.0
  {
    st.post.landed || (st.post.seconds > 16.0 && st.post.height >= 90.0)
  }

  datatype Env = Env(state: State, buffer: seq<Step>)

  function Create(l: MoonLander.Lander, r: Readings): (env: Env)
    ensures env.buffer == [] && env.state.turn == 1
  {
    Env(StateOf(l, r), [])
  }

  /** `reset`: the game's `resetZero` and a fresh snapshot with turn 1. */
  function Reset(env: Env, l: MoonLander.Lander, r: Readings): (res: (Env, MoonLander.Lander))
    ensures res.1 == MoonLander.ResetZero(l)
    ensures res.0.state == StateOf(res.1, r) && res.0.buffer == env.buffer
  {
    var l' := MoonLander.ResetZero(l);
    (Env(StateOf(l', r), env.buffer), l')
  }

  /** The physics of one 100 ms game step, supplied by the caller. */
  datatype Physics = Physics(velocity: MoonLander.Vec, landerY: real, groundContact: bool, readings: Readings)

  /** One game step: `update(timeLast + 100 ms)`. */
  function GameStep(l: MoonLander.Lander, p: Physics): MoonLander.Lander
  {
    MoonLander.Update(l, l.timeLast + 100000000, p.velocity, p.landerY, p.groundContact)
  }

  /** `step`: the move reaches the game, the game advances one step, a new
      snapshot becomes the current state with the turn sign flipped, and the
      transition is logged only when training. */
  function EnvStep(env: Env, l: MoonLander.Lander, action: int, training: bool, p: Physics)
    : (r: (Step, Env, MoonLander.Lander))
    ensures r.2 == GameStep(MoonLander.InputCode(l, action), p)
    ensures r.0.pre == env.state
    ensures r.1.state == r.0.post
    ensures r.0.post == StateOf(r.2, p.readings).(turn := -env.state.turn)
    ensures r.0.action == action && r.0.reward == GetReward(r.0.post, action)
    ensures r.1.buffer == Record(env.buffer, r.0, training)
  {
    var l' := GameStep(MoonLander.InputCode(l, action), p);
    var post := StateOf(l', p.readings).(turn := -env.state.turn);
    var st := Step(env.state, post, action, GetReward(post, action));
    (st, Env(post, Record(env.buffer, st, training)), l')
  }

  /** A step is done exactly when the game after it has landed (softly or
      not), or more than 16 s have passed while the lander is still at least
      90 m up. */
  lemma StepDone(env: Env, l: MoonLander.Lander, action: int, training: bool, p: Physics)
    ensures var r := EnvStep(env, l, action, training, p);
      IsDone(r.0) <==> r.2.landed
                       || (MoonLander.ElapsedSeconds(r.2) > 16.0 && p.readings.height >= 90.0)
  {
  }

  datatype Event = Restart(readings: Readings) | Act(action: int, training: bool, physics: Physics)

  function Apply(env: Env, l: MoonLander.Lander, e: Event): (Env, MoonLander.Lander)
  {
    match e
    case Restart(r) => Reset(env, l, r)
    case Act(a, t, p) => var r := EnvStep(env, l, a, t, p); (r.1, r.2)
  }

  function Run(env: Env, l: MoonLander.Lander, events: seq<Event>): (Env, MoonLander.Lander)
    decreases |events|
  {
    if |events| == 0 then (env, l)
    else var (e', l') := Apply(env, l, events[0]); Run(e', l', events[1..])
  }

  function TrainingSteps(events: seq<Event>): nat
    decreases |events|
  {
    if |events| == 0 then 0
    else (if events[0].Act? && events[0].training then 1 else 0) + TrainingSteps(events[1..])
  }

  /** Whatever mix of resets and steps, the turn stays 1 or -1, and the log
      grows by exactly the number of training steps, keeping what it had. */
  lemma {:induction false} RunInvariant(env: Env, l: MoonLander.Lander, events: seq<Event>)
    requires env.state.turn == 1 || env.state.turn == -1
    ensures var (e', _) := Run(env, l, events);
      && (e'.state.turn == 1 || e'.state.turn == -1)
      && |e'.buffer| == |env.buffer| + TrainingSteps(events)
      && e'.buffer[..|env.buffer|] == env.buffer
    decreases |events|
  {
    if |events| > 0 {
      var (e1, l1) := Apply(env, l, events[0]);
      RunInvariant(e1, l1, events[1..]);
      var (e2, _) := Run(e1, l1, events[1..]);
      assert e2.buffer[..|env.buffer|] == e2.buffer[..|e1.buffer|][..|env.buffer|];
    }
  }
}
