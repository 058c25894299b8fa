/** `GameStateHelper`: the lander's feature vector and the per-step score
    used by the network training loop. */
module GameStateHelper {

  import opened GameStates
  import MoonLander

  /** `getNumberOfInputs`. */
  const NumberOfInputs: nat := 5

  /** `createGameState`: velocityVertical, velocityCritical, landerHeight,
      thrust x, thrust y. The duration and the landed/crashed flags are
      accepted but not used. */
  function CreateGameState(
    durationNanos: int, velocityVertical: real, thrust: MoonLander.Vec,
    velocityCritical: real, landerHeight: real, landed: bool, crashed: bool): (g: GameState)
    ensures |g.states| == NumberOfInputs
    ensures g.states[0] == velocityVertical && g.states[1] == velocityCritical
    ensures g.states[2] == landerHeight
    ensures g.states[3] == thrust.x && g.states[4] == thrust.y
  {
    GameState([velocityVertical, velocityCritical, landerHeight, thrust.x, thrust.y])
  }

  /** The feature vector does not depend on the duration or on the
      landed/crashed flags. */
  lemma CreateGameStateIgnoresFlags(
    d1: int, d2: int, vv: real, t: MoonLander.Vec, vc: real, h: real,
    landed1: bool, landed2: bool, crashed1: bool, crashed2: bool)
    ensures CreateGameState(d1, vv, t, vc, h, landed1, crashed1) == CreateGameState(d2, vv, t, vc, h, landed2, crashed2)
  {
  }

  /** `MoonLander.getGameState`, with the two physics-derived readings (the
      critical velocity and the height above ground) supplied. */
  function GameStateOf(l: MoonLander.Lander, velocityCritical: real, landerHeight: real): (g: GameState)
    ensures |g.states| == NumberOfInputs
    ensures g.states[0] == MoonLander.VelocityVerticalKmH(l)
    ensures MoonLander.Valid(l) ==> g.states[3] == 0.0
  {
    CreateGameState(l.timeLast - l.timeStart, MoonLander.VelocityVerticalKmH(l), l.thrust,
                    velocityCritical, landerHeight, l.landed, l.crashed)
  }

  /** `calculateScore`, checked in order: landed, crashed, upward velocity,
      otherwise by height. */
  function CalculateScore(l: MoonLander.Lander, landerHeight: real): (r: real)
    ensures l.landed ==> r == 1000.0 - MoonLander.ElapsedSeconds(l)
    ensures !l.landed && l.crashed ==> r == 0.0
    ensures !l.landed && !l.crashed && MoonLander.VelocityVerticalKmH(l) < 0.0 ==> r == 1.0
    ensures !l.landed && !l.crashed && MoonLander.VelocityVerticalKmH(l) >= 0.0 ==> r == 100.0 - landerHeight
  {
    if l.landed then 1000.0 - MoonLander.ElapsedSeconds(l)
    else if l.crashed then 0.0
    else if MoonLander.VelocityVerticalKmH(l) < 0.0 then 1.0
    else 100.0 - landerHeight
  }

  /** The game only ever sets `crashed` together with `landed`, so on every
      state the rules can reach the crash branch of `calculateScore` is dead:
      a crash scores 1000 - elapsed, exactly like a soft landing at the same
      time. */
  lemma CrashScoresLikeLanding(l: MoonLander.Lander, h: real)
    requires MoonLander.Valid(l) && l.crashed
    ensures CalculateScore(l, h) == CalculateScore(l.(crashed := false), h)
    ensures CalculateScore(l, h) == 1000.0 - MoonLander.ElapsedSeconds(l)
  {
  }
}
