# MoonLander / Breakout decision rules in Dafny

This project models the sequential decision rules of the MoonLander
reinforcement-learning harness. The rendering, threading and
neural-network glue around those rules are not modelled. The modelled
parts are:

- the `EpsilonGreedy` agent wrapper: call counter, explore/delegate branch, per-action histogram;
- the two DJL environments `BreakoutEnv` and `MoonLanderEnv`:
  - state snapshots and cached observations;
  - piecewise rewards and done predicates;
  - the alternating `turn` sign;
  - the training-only replay log;
- the training loops:
  - `BreakoutTrainer.runExample` and `MoonLanderTrainer.runExample`: win counting, call structure, save policy, `ConstantTracker`;
  - the hand-written Q-learning loop `NetworkTrainingHelper.startTraining`: epsilon schedule, abort rule, counters, session score, lowest height;
- `NetworkUtil`: first-max argmax, the epsilon-greedy draw, the Q target, the state/action key string;
- `Action` indexing and the integer input code of `MoonLander.input(int)`, which deliberately differs from the enum ordinal;
- game rule fragments:
  - Breakout: paddle moves, wall bounce, paddle hit and score, done, reset;
  - MoonLander: thrust clamp, fuel, reset, landing decision, colour gradient factor;
- the small formatters and parsers `GameStateHelper`, `GameState.getGameStateString` and `GameMode.create`.

Every component is a pure function over an immutable record. Random
draws, the network output, the physics of a step and the results of
`runEnvironment` are parameters. Continuous quantities are `real`.

Where names in the code suggest a different behaviour from what the code does, and the difference is not evidently a bug, the model follows the code:

- The action histogram `map` in `EpsilonGreedy` is printed as "Action: …" beside the explore rate, which reads as a count of every action taken. The code bumps it only on the delegated path, because the early return on the random path skips it.
- The Breakout save is triggered by a training result above `best`, not by validation, although the variable is named `bestValidationWinRate`.
- The replay buffer is an add-only log. The environments construct an `LruReplayBuffer`, but no ring buffer, eviction or sampling guarantee is modelled.

The one place where the code is evidently wrong (see "## Findings") is modelled both ways. The `NetworkTrainingHelper` loop takes a `Draw` argument. With `AsWritten` it chooses its action exactly as `NetworkUtil.epsilonGreedyAction` does, doubled draw included. With `Intended` it uses the corrected choice. Every lemma about the loop holds for both.

Files, one module each:

- `wrappers.dfy` holds `Option`, and `java_int.dfy` holds the 32-bit `int` range and its wrap-around.
- `seqs.dfy` holds sequence search and counting.
- `action.dfy`, `game_mode.dfy`, `game_state.dfy` and `game_state_helper.dfy` hold the small types.
- `moon_lander.dfy` and `breakout.dfy` hold the games.
- `rl_common.dfy`, `epsilon_greedy.dfy`, `breakout_env.dfy` and `moon_lander_env.dfy` hold the RL layer.
- `network_util.dfy` and `training_helper.dfy` hold the DL4J loop.
- `trainers.dfy`, `breakout_trainer.dfy` and `moon_lander_trainer.dfy` hold the DJL trainers.

## Model

| member | source | states |
|---|---|---|
| EpsilonGreedy.ChooseAction | src/main/java/com/itth/moonlander/EpsilonGreedy.java:65-82 | The counter is incremented, with int wrap-around, on every call, and the rate is read at the pre-increment value. When training and draw < rate, the result is the action space's random pick and the histogram is unchanged. Otherwise the result is the base agent's choice and that action's count rises by one. The base agent is never changed. |
| EpsilonGreedy.Increment | src/main/java/com/itth/moonlander/EpsilonGreedy.java:50-67 | `counter++` on a Java `int`: +1 below the maximum, wrapping to the minimum at it. |
| EpsilonGreedy.Bump | src/main/java/com/itth/moonlander/EpsilonGreedy.java:74-75 | The bumped key's count rises by exactly 1, no other key changes, and the key set gains only that key. |
| EpsilonGreedy.Create | src/main/java/com/itth/moonlander/EpsilonGreedy.java:49-61 | A new wrapper starts with counter 0 and an empty histogram around the given base agent. |
| EpsilonGreedy.EvaluationIgnoresRate | src/main/java/com/itth/moonlander/EpsilonGreedy.java:68-72 | With training off, the outcome is the same for any rate schedule and any draw, and the action is the base agent's. |
| EpsilonGreedy.ExplorationIgnoresBase | src/main/java/com/itth/moonlander/EpsilonGreedy.java:68-70 | When exploring, the outcome does not depend on what the base agent would have chosen. |
| EpsilonGreedy.TrainBatch | src/main/java/com/itth/moonlander/EpsilonGreedy.java:86-88 | The batch goes unchanged to the base agent, and the counter and histogram stay as they were. |
| EpsilonGreedy.TrainBatchKeepsDecisions | src/main/java/com/itth/moonlander/EpsilonGreedy.java:86-88 | After `trainBatch`, a choice made with the same base-agent answer yields the same action, counter and histogram. |
| EpsilonGreedy.RunCounter | src/main/java/com/itth/moonlander/EpsilonGreedy.java:67 | After n calls the counter is the start value plus n, wrapped to 32 bits. |
| EpsilonGreedy.EvaluationRunHistogram | src/main/java/com/itth/moonlander/EpsilonGreedy.java:72-75 | Over calls with training off, each action's count grows by exactly the number of calls on which the base agent chose it. |
| EpsilonGreedy.ExplorationRunHistogram | src/main/java/com/itth/moonlander/EpsilonGreedy.java:68-70 | When every call trains under a rate of at least 1 with a draw below 1, the histogram never changes. |
| JavaInt.Wrap32 | src/main/java/com/itth/moonlander/EpsilonGreedy.java:50 | The result is a 32-bit value congruent to the input mod 2^32, and the identity on 32-bit values. |
| RlCommon.Record | src/main/java/com/itth/breakout/BreakoutEnv.java:57-60 | A step is appended to the replay log if and only if training is on; otherwise the log is untouched. |
| RlCommon.TruncateTowardZero | src/main/java/com/itth/breakout/BreakoutEnv.java:190 | The Java `(int)` cast rounds toward zero, for both signs. |
| BreakoutEnv.Snapshot | src/main/java/com/itth/breakout/BreakoutEnv.java:174-176 | `State.of` sets turn 1, paddle centre = paddle x + width/2, the ball x, and `done` = the game's `isDone`, which also stops the game. |
| BreakoutEnv.Direction | src/main/java/com/itth/breakout/BreakoutEnv.java:190-195 | The direction is 1 iff paddleX − ballX ≥ 1, −1 iff it is ≤ −1, and 0 iff the gap is under 1 in size, because the cast truncates. |
| BreakoutEnv.CreateObservation | src/main/java/com/itth/breakout/BreakoutEnv.java:188-200 | The first call computes (direction, turn) and stores it. Later calls return the stored value. The direction lies in {−1, 0, 1}. |
| BreakoutEnv.ObservationIsCached | src/main/java/com/itth/breakout/BreakoutEnv.java:189-199 | Asking twice gives the same observation as asking once. |
| BreakoutEnv.RewardSign | src/main/java/com/itth/breakout/BreakoutEnv.java:202-211 | With a positive paddle width, the reward is positive iff the ball is within half a paddle width of the centre, and it is at most width/10. Otherwise it is minus the distance. |
| BreakoutEnv.Reward | src/main/java/com/itth/breakout/BreakoutEnv.java:202-210 | A positive reward means the ball is within half a paddle width of the centre, and the reward is at most width/10. A reward ≤ 0 is exactly minus the distance. |
| BreakoutEnv.IsDone | src/main/java/com/itth/breakout/BreakoutEnv.java:135-137 | A step is done exactly when its post-state's `done` flag is set. |
| BreakoutEnv.Create | src/main/java/com/itth/breakout/BreakoutEnv.java:23-32 | A new environment has an empty log and a state with turn 1. |
| BreakoutEnv.Reset | src/main/java/com/itth/breakout/BreakoutEnv.java:34-37 | Reset resets the game and snapshots it again with turn 1. The log is kept. |
| BreakoutEnv.EnvStep | src/main/java/com/itth/breakout/BreakoutEnv.java:47-62 | The step's pre-state is the previous state, and its post-state becomes the current state with the turn negated. The log grows only when training. The step is done iff the game after the move is done. |
| BreakoutEnv.RunInvariant | src/main/java/com/itth/breakout/BreakoutEnv.java:27-60 | Over any mix of resets and steps, turn stays in {1, −1}, and the log grows by exactly the number of training steps while keeping its old prefix. |
| BreakoutEnv.TurnAlternates | src/main/java/com/itth/breakout/BreakoutEnv.java:55 | Two consecutive steps give back the original turn. |
| Breakout.Input | src/main/java/com/itth/breakout/Breakout.java:42-56 | Move 1 shifts the paddle left by 1 only if x > 0. Move 2 shifts it right by 1 only if x < 320. Any other move leaves the world unchanged. |
| Breakout.KeyboardMove | src/main/java/com/itth/breakout/Breakout.java:111-116 | Held keys change only the paddle x, by at most 1 each, and keep it within [0, 320]. Left alone moves left when x > 0, right alone moves right when x < 320, both cancel, and no key changes nothing. |
| Breakout.Done | src/main/java/com/itth/breakout/Breakout.java:194-205 | The ball's bottom has reached the scene height, or the score is 10. Its effect is stated by `CheckDone`. |
| Breakout.Bounce | src/main/java/com/itth/breakout/Breakout.java:118-126 | Only velocity signs change. At a touched left, right or top wall the matching component points away from it. Away from the walls nothing changes. |
| Breakout.CheckDone | src/main/java/com/itth/breakout/Breakout.java:194-206 | Done iff the ball's bottom reaches the scene height or the score is 10. When done, `stopped` is set. |
| Breakout.PaddleHit | src/main/java/com/itth/breakout/Breakout.java:132-146 | An intersection while the ball moves down turns the vertical velocity upward and raises the score by exactly 1. Otherwise nothing changes. |
| Breakout.Frame | src/main/java/com/itth/breakout/Breakout.java:111-146 | In one frame the score either stays or rises by one with an upward velocity. A frame that ends done stops the game and skips the paddle-hit check. |
| Breakout.Reset | src/main/java/com/itth/breakout/Breakout.java:170-177 | Reset puts the ball at (200, 5) and the paddle at 160. The score becomes 0, stopped false, vertical velocity 400 and horizontal velocity draw − 100. |
| Breakout.FrameValid | src/main/java/com/itth/breakout/Breakout.java:111-146 | A frame keeps the paddle x in [0, 320] and the score in [0, 10]. |
| Breakout.RunValid | src/main/java/com/itth/breakout/Breakout.java:42-176 | Any sequence of agent moves, frames and resets keeps the paddle x in [0, 320] and the score in [0, 10]. |
| Breakout.Initial | src/main/java/com/itth/breakout/Breakout.java:70-75 | The initial world satisfies those bounds. |
| MoonLanderEnv.StateOf | src/main/java/com/itth/moonlander/MoonLanderEnv.java:171-177 | `State.of` takes height, vertical km/h, critical km/h, vertical thrust, the landed and crashed flags and elapsed seconds from the game, with turn 1 and no cached observation. |
| MoonLanderEnv.CreateObservation | src/main/java/com/itth/moonlander/MoonLanderEnv.java:192-197 | The observation is [height, velocityVertical, velocityCritical, thrustVertical] followed by turn. It is computed once and then returned from the cache. |
| MoonLanderEnv.ObservationIsCached | src/main/java/com/itth/moonlander/MoonLanderEnv.java:193-196 | Asking twice gives the same observation as asking once. |
| MoonLanderEnv.GetReward | src/main/java/com/itth/moonlander/MoonLanderEnv.java:199-211 | The reward is +Infinity exactly for a soft landing at 0 seconds outside the penalty branch. In the penalty branch it is finite and at most −800 − height + velocity − thrust. In flight it is 1000 − (critical − vertical velocity). |
| MoonLanderEnv.PenaltyTakesPrecedence | src/main/java/com/itth/moonlander/MoonLanderEnv.java:200-202 | When vertical velocity ≤ 0 or height > 80, the reward ignores the landed and crashed flags. Action 1 earns exactly 200 more than any other action. |
| MoonLanderEnv.LandingReward | src/main/java/com/itth/moonlander/MoonLanderEnv.java:203-209 | Outside the penalty branch the action does not matter. A soft landing with seconds > 0 pays more than 10000, and with 0 seconds it pays +Infinity. A crash pays less than −500 − height. |
| MoonLanderEnv.Create | src/main/java/com/itth/moonlander/MoonLanderEnv.java:14-24 | A new environment has an empty log and turn 1. |
| MoonLanderEnv.Reset | src/main/java/com/itth/moonlander/MoonLanderEnv.java:42-45 | Reset applies the game's `resetZero` and rebuilds the state with turn 1. The log is kept. |
| MoonLanderEnv.EnvStep | src/main/java/com/itth/moonlander/MoonLanderEnv.java:47-62 | The integer move reaches the game through `input(int)`, and the game advances 100 ms. The post-state is the new snapshot with the turn negated, and it becomes current. The log grows only when training. |
| MoonLanderEnv.StepDone | src/main/java/com/itth/moonlander/MoonLanderEnv.java:139-141 | A step is done iff the game has landed, or more than 16 s have passed at a height of at least 90 m. |
| MoonLanderEnv.IsDone | src/main/java/com/itth/moonlander/MoonLanderEnv.java:139-141 | A step is done iff its post-state has landed, or more than 16 s have passed at a height of at least 90 m. |
| MoonLanderEnv.RunInvariant | src/main/java/com/itth/moonlander/MoonLanderEnv.java:42-60 | Turn stays in {1, −1}, and the log grows by exactly the number of training steps while keeping its old prefix. |
| MoonLander.ValidateThrust | src/main/java/com/itth/moonlander/MoonLander.java:169-172 | The horizontal thrust is always 0. With fuel > 0 the vertical thrust is clamped into [THRUST_MIN, THRUST_MAX], and it is left alone inside the band. With fuel ≤ 0 it is 0. |
| MoonLander.Input | src/main/java/com/itth/moonlander/MoonLander.java:339-349 | An action changes only the thrust, to the validated thrust for that action. |
| MoonLander.ActionThrusts | src/main/java/com/itth/moonlander/MoonLander.java:339-349 | With fuel, THRUST_UP, THRUST_DOWN and NOTHING give THRUST_MAX, THRUST_MIN and GRAVITY, all inside the band. |
| MoonLander.ActionOfCode | src/main/java/com/itth/moonlander/MoonLander.java:331-337 | Codes 0, 1 and 2 map to an action. Every other code maps to none. |
| MoonLander.InputCode | src/main/java/com/itth/moonlander/MoonLander.java:331-337 | `input(int)` with an unknown code changes nothing. A known code acts like `input(Action)`. |
| MoonLander.CodeIsNotOrdinal | src/main/java/com/itth/moonlander/MoonLander.java:331-337 | For every code 0..2, the action differs from the enum value with that ordinal. It is the value at ordinal (code + 2) mod 3. |
| MoonLander.UpdateFuel | src/main/java/com/itth/moonlander/MoonLander.java:240-244 | Only fuel changes. The new fuel is `max(0, fuel − consumption)`: exactly fuel − consumption when that is positive, and 0 otherwise. It never rises for a non-negative time step on non-negative fuel. |
| MoonLander.Consumed | src/main/java/com/itth/moonlander/MoonLander.java:241-242 | Consumption is non-negative for a non-negative time step. |
| MoonLander.ResetZero | src/main/java/com/itth/moonlander/MoonLander.java:174-185 | Reset restores FUEL_START, clears landed and crashed, zeroes velocity, times and position, and sets thrust to THRUST_MIN. |
| MoonLander.Touchdown | src/main/java/com/itth/moonlander/MoonLander.java:225-237 | Ground contact sets landed. Crashed is set iff vertical speed > 10 km/h. Without contact nothing changes. |
| MoonLander.ApplyValid | src/main/java/com/itth/moonlander/MoonLander.java:169-244 | Every event keeps fuel in [0, FUEL_START], crashed ⇒ landed, and thrust zero or inside the band. |
| MoonLander.RunValid | src/main/java/com/itth/moonlander/MoonLander.java:142-244 | Any sequence of events with a non-decreasing clock keeps those invariants. |
| MoonLander.InitialValid | src/main/java/com/itth/moonlander/MoonLander.java:174-185 | The reset state satisfies them. |
| MoonLander.GradientFactor | src/main/java/com/itth/moonlander/MoonLander.java:280-282 | For Java `int` arguments the factor lies in [0, 1], and it is none (NaN) exactly when max = min = value. Where neither subtraction wraps: with max ≠ min it is the clamp of (value − min)/(max − min), and with max = min it is 1 above min and 0 below it (±Infinity clamped). The wrapped case itself is exhibited by `GradientFactorWraps`. |
| MoonLander.GradientFactorEnds | src/main/java/com/itth/moonlander/MoonLander.java:281 | Where neither subtraction wraps: values at or below min give 0, at or above max give 1, and in between give the linear fraction. |
| MoonLander.GradientFactorWraps | src/main/java/com/itth/moonlander/MoonLander.java:281 | The `int` subtraction wraps: value 2^31 − 1 over the range [−2, 0] gives 0, not 1. |
| MoonLander.GradientFactorMeter | src/main/java/com/itth/moonlander/MoonLander.java:272 | At the one call site, range [0, 1000], nothing wraps: the factor is rate/1000 clamped into [0, 1]. |
| MoonLander.Update | src/main/java/com/itth/moonlander/MoonLander.java:187-245 | A frame moves the clock to `now` and takes the supplied velocity and position. Thrust and start time are kept. The fuel becomes `max(0, fuel − consumption)` over the elapsed milliseconds, so it never grows on a forward clock. Ground contact lands the lander, crashed iff faster than 10 km/h. Without contact the flags are kept. |
| GameStateHelper.CreateGameState | src/main/java/com/itth/moonlander/reinforce/dl4j/GameStateHelper.java:15-21 | Exactly 5 values, in the order velocityVertical, velocityCritical, landerHeight, thrust x, thrust y. |
| GameStateHelper.CreateGameStateIgnoresFlags | src/main/java/com/itth/moonlander/reinforce/dl4j/GameStateHelper.java:15-21 | The duration, landed and crashed arguments do not affect the state. |
| GameStateHelper.GameStateOf | src/main/java/com/itth/moonlander/MoonLander.java:304-309 | The game's state vector has `getNumberOfInputs()` entries, starts with the vertical km/h, and has thrust x = 0 in a valid game. |
| GameStateHelper.CalculateScore | src/main/java/com/itth/moonlander/reinforce/dl4j/GameStateHelper.java:36-44 | Checked in order: landed gives 1000 − elapsed, crashed gives 0, upward velocity gives 1, otherwise 100 − height. |
| GameStateHelper.CrashScoresLikeLanding | src/main/java/com/itth/moonlander/reinforce/dl4j/GameStateHelper.java:37-38 | In a valid game a crash also sets landed, so a crashed game scores 1000 − elapsed, as if it had not crashed. |
| GameStates.Round | src/main/java/com/itth/moonlander/reinforce/dl4j/GameState.java:33 | `Math.round` gives the integer n with n − 0.5 ≤ x < n + 0.5. |
| GameStates.Token | src/main/java/com/itth/moonlander/reinforce/dl4j/GameState.java:33-34 | A token (the rounded value printed as a double) is non-empty and contains no space. |
| GameStates.TokenSpellsRound | src/main/java/com/itth/moonlander/reinforce/dl4j/GameState.java:33-34 | A token is the rounded value's decimal digits followed by ".0". Reading it back with the reference reader gives `Round(x)`. |
| GameStates.NatToStringValue | src/main/java/com/itth/moonlander/reinforce/dl4j/GameState.java:33-34 | Reading the printed digits of n gives n back. |
| GameStates.IntToStringValue | src/main/java/com/itth/moonlander/reinforce/dl4j/GameState.java:33-34 | Reading the printed integer, sign included, gives it back. |
| GameStates.NatToString | src/main/java/com/itth/moonlander/reinforce/dl4j/GameState.java:33-34 | The digits are non-empty and decimal, a single digit exactly below 10, with a leading '0' only for 0. |
| GameStates.FieldsJoin | src/main/java/com/itth/moonlander/reinforce/dl4j/GameState.java:34 | Splitting the joined string at spaces gives back exactly the tokens. |
| GameStates.JoinNonEmpty | src/main/java/com/itth/moonlander/reinforce/dl4j/GameState.java:31-36 | The joined string is empty iff there are no tokens, and it never starts or ends with a space. |
| GameStates.GameStateString | src/main/java/com/itth/moonlander/reinforce/dl4j/GameState.java:30-37 | The loop yields one token per value, in order, separated by single spaces. An empty state gives "". |
| GameModes.Create | src/main/java/com/itth/moonlander/reinforce/dl4j/GameMode.java:13-19 | The result is TRAIN exactly for "TRAIN". Any other string, matched or not, gives EVALUATE, and nothing is thrown. |
| GameModes.CreateName | src/main/java/com/itth/moonlander/reinforce/dl4j/GameMode.java:7-15 | Parsing a mode's name returns that mode. |
| GameModes.CreateIsCaseSensitive | src/main/java/com/itth/moonlander/reinforce/dl4j/GameMode.java:16-18 | Lower-case "train" and "" both give EVALUATE. |
| Actions.Index | src/main/java/com/itth/moonlander/reinforce/network/Action.java:46-48 | `getActionIndex` is in [0, 3) and points at the action in VALUES. |
| Actions.ByIndex | src/main/java/com/itth/moonlander/reinforce/network/Action.java:37-39 | For an index below 3, looking it up and asking its index gives the index back. |
| Actions.ByIndexOfIndex | src/main/java/com/itth/moonlander/reinforce/network/Action.java:37-48 | Looking up an action's own index gives the action. |
| Actions.IndexOrder | src/main/java/com/itth/moonlander/reinforce/network/Action.java:14-18 | THRUST_UP = 0, THRUST_DOWN = 1, NOTHING = 2. |
| Actions.RandomAction | src/main/java/com/itth/moonlander/reinforce/network/Action.java:27-29 | The uniform pick k returns the value at index k, one of the three. |
| NetworkUtil.MaxValueIndex | src/main/java/com/itth/moonlander/reinforce/dl4j/NetworkUtil.java:182-190 | An empty array gives 0. Otherwise the result is in bounds, at least every element, and strictly above every earlier element, so ties go to the lowest index. |
| NetworkUtil.ArgMax | src/main/java/com/itth/moonlander/reinforce/dl4j/NetworkUtil.java:182-190 | The same first-maximum contract, as a function. |
| NetworkUtil.FirstMaxUnique | src/main/java/com/itth/moonlander/reinforce/dl4j/NetworkUtil.java:186 | Only one index can be the first maximum, so the scan's answer is determined. |
| NetworkUtil.ActionFromNetwork | src/main/java/com/itth/moonlander/reinforce/dl4j/NetworkUtil.java:80-99 | For an output of width 3 (one per action), the chosen action's index is the first maximum, so no action scores higher. |
| NetworkUtil.RandomDouble | src/main/java/com/itth/moonlander/reinforce/dl4j/NetworkUtil.java:178-180 | The draw as written is 2u for `Math.random()` = u, so it lies in [0, 2). |
| NetworkUtil.EpsilonGreedyActionAsWritten | src/main/java/com/itth/moonlander/reinforce/dl4j/NetworkUtil.java:59-71 | As written: random action iff 2u < epsilon, otherwise the network's argmax action. |
| NetworkUtil.EpsilonGreedyAction | src/main/java/com/itth/moonlander/reinforce/dl4j/NetworkUtil.java:59-71 | Corrected: random action iff u < epsilon, otherwise the network's argmax action. |
| NetworkUtil.AsWrittenExploresHalfAsOften | src/main/java/com/itth/moonlander/reinforce/dl4j/NetworkUtil.java:178-180 | As written, with epsilon ≤ 1, any draw u ≥ 0.5 always takes the network's action, so only draws below 0.5 can explore. |
| NetworkUtil.AsWrittenDiffersFromIntended | src/main/java/com/itth/moonlander/reinforce/dl4j/NetworkUtil.java:178-180 | With u = 0.5 and epsilon = 0.9 the two versions choose different actions. |
| NetworkUtil.AsWrittenHalvesEpsilon | src/main/java/com/itth/moonlander/reinforce/dl4j/NetworkUtil.java:63-64 | The as-written choice with rate epsilon is the intended choice with rate epsilon/2. |
| NetworkUtil.QTarget | src/main/java/com/itth/moonlander/reinforce/dl4j/NetworkUtil.java:118-120 | The fit target equals the network output except at the action's index, which holds the score. |
| NetworkUtil.QTargetPrefersRewardedAction | src/main/java/com/itth/moonlander/reinforce/dl4j/NetworkUtil.java:89-120 | When the score beats every other entry, the target's argmax is that action. |
| NetworkUtil.StateWithActionString | src/main/java/com/itth/moonlander/reinforce/dl4j/NetworkUtil.java:193-195 | The key is the state string, then '-', then the action's name. |
| NetworkUtil.ParseStateWithActionString | src/main/java/com/itth/moonlander/reinforce/dl4j/NetworkUtil.java:193-195 | Splitting at the last '-' recovers the state string and the action, so the key is injective. |
| NetworkTrainingHelper.Choose | src/main/java/com/itth/moonlander/reinforce/dl4j/NetworkUtil.java:59-71 | The loop's choice under `AsWritten` is the code's `epsilonGreedyAction`, and under `Intended` the corrected one. Either way it equals the intended rule run at epsilon/2 or epsilon. |
| NetworkTrainingHelper.Play1 | src/main/java/com/itth/moonlander/reinforce/dl4j/NetworkTrainingHelper.java:52-71 | One iteration chooses with the epsilon before decay, using the given draw rule. It then inputs the move, steps 100 ms, scores and observes the stepped game, and fits the pre-step state with the choice's own network output. |
| NetworkTrainingHelper.Play | src/main/java/com/itth/moonlander/reinforce/dl4j/NetworkTrainingHelper.java:49-88 | The loop stops only when the game has landed, or aborts with at least one fit. |
| NetworkTrainingHelper.Decay | src/main/java/com/itth/moonlander/reinforce/dl4j/NetworkTrainingHelper.java:54 | Decay never drops below 0.2 and never rises from a value at or above 0.2. |
| NetworkTrainingHelper.Recover | src/main/java/com/itth/moonlander/reinforce/dl4j/NetworkTrainingHelper.java:79 | Recovery never exceeds 1 and never lowers a value at or below 1. |
| NetworkTrainingHelper.PlayEpsilon | src/main/java/com/itth/moonlander/reinforce/dl4j/NetworkTrainingHelper.java:54-79 | Epsilon stays in [0.2, 1]. Without an abort it ends at max(0.2, e − 0.0001·steps). An abort adds 0.001, capped at 1. |
| NetworkTrainingHelper.PlayCounter | src/main/java/com/itth/moonlander/reinforce/dl4j/NetworkTrainingHelper.java:55-71 | The counter rises by exactly one per action, which is one per fit, and the aborting step is still fitted. |
| NetworkTrainingHelper.PlayChain | src/main/java/com/itth/moonlander/reinforce/dl4j/NetworkTrainingHelper.java:45-84 | The first fit uses the session's start state, and each later fit uses the state the previous step produced. |
| NetworkTrainingHelper.Abort | src/main/java/com/itth/moonlander/reinforce/dl4j/NetworkTrainingHelper.java:74-77 | The loop's exit test after a step: more than 60 s elapsed, moving up, or faster than the critical velocity. Its effect is stated by `PlayOutcome`. |
| NetworkTrainingHelper.PlayOutcome | src/main/java/com/itth/moonlander/reinforce/dl4j/NetworkTrainingHelper.java:74-81 | An aborted episode ends right after the step whose lander fails the abort test with that step's critical velocity. An episode out of ticks is still flying. |
| NetworkTrainingHelper.PlayTargets | src/main/java/com/itth/moonlander/reinforce/dl4j/NetworkTrainingHelper.java:71 | Each fit's target is its step's network output with only the taken action's entry replaced by the score. |
| NetworkTrainingHelper.MaxScore | src/main/java/com/itth/moonlander/reinforce/dl4j/NetworkTrainingHelper.java:87 | The running maximum is at least the start value and every score, and it equals one of them. |
| NetworkTrainingHelper.PlayBest | src/main/java/com/itth/moonlander/reinforce/dl4j/NetworkTrainingHelper.java:46-87 | The session score is the running maximum of 0 and the scores of the steps that did not abort. The aborting step's score is excluded. |
| NetworkTrainingHelper.Session | src/main/java/com/itth/moonlander/reinforce/dl4j/NetworkTrainingHelper.java:42-100 | A session resets the game and appends one episode. The lowest height becomes min(lowest, end height). |
| NetworkTrainingHelper.SessionsEpisodes | src/main/java/com/itth/moonlander/reinforce/dl4j/NetworkTrainingHelper.java:39-49 | Each session appends exactly one episode and keeps the earlier ones. |
| NetworkTrainingHelper.SessionsCounter | src/main/java/com/itth/moonlander/reinforce/dl4j/NetworkTrainingHelper.java:36-79 | Across sessions, epsilon stays in [0.2, 1] and the counter equals the total number of fits. |
| NetworkTrainingHelper.SessionsLowest | src/main/java/com/itth/moonlander/reinforce/dl4j/NetworkTrainingHelper.java:38-98 | The lowest height is the minimum of its start value and every session's end height, so it never increases. |
| NetworkTrainingHelper.LowestBound | src/main/java/com/itth/moonlander/reinforce/dl4j/NetworkTrainingHelper.java:97-98 | That minimum is at most the start value and at most every end height. |
| NetworkTrainingHelper.StartTraining | src/main/java/com/itth/moonlander/reinforce/dl4j/NetworkTrainingHelper.java:36-101 | Under either draw rule, 5000 sessions from epsilon 0.9, counter 0 and lowest height 1024. Afterwards epsilon is in [0.2, 1] and the lowest height is ≤ 1024 and ≤ every end height. |
| Trainers.Wins | src/main/java/com/itth/breakout/BreakoutTrainer.java:249-251 | The win count never exceeds the number of games. |
| Trainers.WinsCountsPositives | src/main/java/com/itth/breakout/BreakoutTrainer.java:249-251 | The win count is exactly the number of games whose result is strictly positive. |
| Trainers.WinRate | src/main/java/com/itth/breakout/BreakoutTrainer.java:263-277 | The rate is in [0, 1]. It is 0 iff no result is positive and 1 iff every game is won. |
| Trainers.Subtract | src/main/java/com/itth/breakout/BreakoutTrainer.java:318-320 | `subtract` lowers the value by v, but never below 0.1. |
| Trainers.GetNewValueIgnoresUpdate | src/main/java/com/itth/breakout/BreakoutTrainer.java:310-312 | `getNewValue` returns the base value whatever its argument. |
| Trainers.SubtractTimesClosedForm | src/main/java/com/itth/moonlander/MoonLanderTrainer.java:204-206 | After n subtractions of v ≥ 0 from a value ≥ 0.1, the value is max(0.1, base − n·v). |
| BreakoutTrainer.TrainingGameBest | src/main/java/com/itth/breakout/BreakoutTrainer.java:257-260 | A game saves and records its result only when it strictly beats `best`, and `best` becomes that result. Otherwise neither `best` nor the recorded improvements change. `BestOk` is kept either way. |
| BreakoutTrainer.TrainingGamesBest | src/main/java/com/itth/breakout/BreakoutTrainer.java:236-260 | The save-triggering results are positive and strictly increasing, `best` is the last of them, and earlier ones are kept. |
| BreakoutTrainer.TrainingGamesAboveResults | src/main/java/com/itth/breakout/BreakoutTrainer.java:257-260 | After the games, `best` is at least every result played. |
| BreakoutTrainer.TrainingGameCount | src/main/java/com/itth/breakout/BreakoutTrainer.java:243-260 | A game adds one `runEnvironment(true)`, `getBatch`, `trainBatch` and `trainer.step`, plus a save exactly when it improves. |
| BreakoutTrainer.EpochCount | src/main/java/com/itth/breakout/BreakoutTrainer.java:240-278 | An epoch adds its games' calls plus one `runEnvironment(false)` per validation game. |
| BreakoutTrainer.TrainingGamesCount | src/main/java/com/itth/breakout/BreakoutTrainer.java:242-261 | Training games add one block of calls each, plus one save per improvement. |
| BreakoutTrainer.TrainingGamesTracker | src/main/java/com/itth/breakout/BreakoutTrainer.java:242-252 | Training games lower the tracker once per game. |
| BreakoutTrainer.EpochTracker | src/main/java/com/itth/breakout/BreakoutTrainer.java:240-278 | An epoch lowers the tracker once per training game and not during validation. |
| BreakoutTrainer.EpochsCount | src/main/java/com/itth/breakout/BreakoutTrainer.java:239-279 | Over whole epochs, calls accumulate per training game, per validation game and per improvement. |
| BreakoutTrainer.EpochsTracker | src/main/java/com/itth/breakout/BreakoutTrainer.java:239-279 | Over whole epochs, the tracker is lowered once per training game. |
| BreakoutTrainer.EpochsBest | src/main/java/com/itth/breakout/BreakoutTrainer.java:236-260 | Over whole epochs, the improvement invariant holds and `best` is at least every training result. |
| BreakoutTrainer.RunExampleCount | src/main/java/com/itth/breakout/BreakoutTrainer.java:239-286 | Any call's total over the run is fixed by the number of games, validation games and saves. |
| BreakoutTrainer.RunExampleCalls | src/main/java/com/itth/breakout/BreakoutTrainer.java:239-286 | Over the run there are epochs·games each of `runEnvironment(true)`, `getBatch`, `trainBatch` and `trainer.step`, and epochs·validation games of `runEnvironment(false)`. Saves number the improvements plus one, and the last call is the unconditional save. |
| BreakoutTrainer.RunExampleBest | src/main/java/com/itth/breakout/BreakoutTrainer.java:236-260 | The improvements are positive and strictly increasing, and `best` is ≥ 0 and ≥ every training result. |
| BreakoutTrainer.RunExampleRates | src/main/java/com/itth/breakout/BreakoutTrainer.java:237-285 | The reported rates are the last epoch's, or 0 with no epochs. The tracker ends at max(0.1, 0.9 − 0.0025·games). |
| BreakoutTrainer.RunExample | src/main/java/com/itth/breakout/BreakoutTrainer.java:239-287 | The run is the epoch loop from the start state followed by exactly one final save. Nothing else of the loop changes. |
| MoonLanderTrainer.EpochCount | src/main/java/com/itth/moonlander/MoonLanderTrainer.java:128-165 | An epoch adds its games' calls, exactly one save after the training games, and one `runEnvironment(false)` per validation game. |
| MoonLanderTrainer.TrainingGamesCount | src/main/java/com/itth/moonlander/MoonLanderTrainer.java:131-146 | Training games add one block of calls each and lower the tracker once per game. |
| MoonLanderTrainer.EpochTracker | src/main/java/com/itth/moonlander/MoonLanderTrainer.java:128-165 | An epoch lowers the tracker once per training game. |
| MoonLanderTrainer.EpochsCount | src/main/java/com/itth/moonlander/MoonLanderTrainer.java:128-166 | Over whole epochs, calls accumulate per training game, per validation game and one save per epoch. |
| MoonLanderTrainer.EpochsTracker | src/main/java/com/itth/moonlander/MoonLanderTrainer.java:128-166 | Over whole epochs, the tracker is lowered once per training game. |
| MoonLanderTrainer.RunExampleCount | src/main/java/com/itth/moonlander/MoonLanderTrainer.java:128-172 | Any call's total over the run is fixed by the number of games, validation games and epochs + 1 saves. |
| MoonLanderTrainer.RunExampleCalls | src/main/java/com/itth/moonlander/MoonLanderTrainer.java:128-172 | There is one `getBatch`, `trainBatch` and `trainer.step` per training game, and validation runs with training off. Saves number epochs + 1, and the final one is the last call. |
| MoonLanderTrainer.RunExampleRates | src/main/java/com/itth/moonlander/MoonLanderTrainer.java:126-171 | The reported rates are the last epoch's, or 0 with no epochs. The tracker ends at max(0.1, 0.9 − 0.0025·games). |
| MoonLanderTrainer.RunExample | src/main/java/com/itth/moonlander/MoonLanderTrainer.java:128-173 | The run is the epoch loop from the start state followed by exactly one final save. Nothing else of the loop changes. |
| Seqs.IndexOf | src/main/java/com/itth/moonlander/reinforce/network/Action.java:47 | `List.indexOf` gives the first occurrence, or −1 when the element is absent. |

## Left out

- Concurrency. This covers `Platform.runLater`, the `CountDownLatch` in `MoonLander.step()`, Breakout's reset semaphore and thread, the `RateLimiter` print, and the training thread of `startTraining`. Only the bodies that run on the UI thread are modelled, as if they ran synchronously.
- Breakout's `input(int)` is posted with `Platform.runLater`, and the Timeline runs its 1 ms frames on its own, whatever the environment does. So Java's `State.of(breakout)` may see the move not yet applied, or may come any number of frames later. `BreakoutEnv.EnvStep` applies the move at once and runs no frame. `breakout.step()` only rate-limits, which is not modelled. Frames are modelled separately, as `Breakout.Frame`.
- Physics integration is not modelled. This covers the velocity and position update in `MoonLander.update`, the lander height, `calculateVelocityCriticalInKmH` (with its `sqrt` and NaN handling), and Breakout's position update and paddle-hit angle. These values are parameters.
- The replay buffer (`LruReplayBuffer`) is an add-only log. `getBatch`, eviction and sampling are not modelled.
- The network, agents and trackers are not modelled. `network.output` is a parameter, and `fit` is recorded as a `Fit` entry. `QAgent`, `trainBatch` of the base agent (a function parameter), and the Linear/Cyclical/Polynomial/Cosine trackers are also out. `EpsilonGreedy`'s rate schedule is a function parameter.
- Randomness is not modelled. `RandomUtils.random()`, `Math.random()`, `Random.nextInt` and `random.nextDouble(200)` are explicit parameters.
- UI, logging and I/O are not modelled. This covers JavaFX nodes and labels, key handlers, `fire`, `fireInformation`, `RealTimeChart.send`, the `totalScore` chart value, progress bars, and model saving (only the fact that a save happens).
- Floating point is not modelled. Rewards, win rates and the tracker are `float` in Java and are exact reals here.
- EpsilonGreedy.Bump: counts are exact naturals. The Java map stores `Float` counts, which stop growing at 2^24, and uses `Float` keys.
- GameStates.Token: always writes plain digits followed by ".0"; `TokenSpellsRound` proves those digits spell `Round(x)`. Java's `Double.toString` switches to E-notation for magnitudes of 10^7 and above.
- GameStates.Round: `Math.round` of NaN, and of values beyond the `long` range, is not modelled.
- NetworkTrainingHelper.Play: the Java `counter` is a `long`, modelled as an unbounded integer. The model stops an episode when the caller supplies no more steps (outcome `OutOfTicks`); the Java loop simply runs until landed or aborted.
- MoonLanderEnv.EnvStep and BreakoutEnv.EnvStep: the `(int)` cast of the float action is not repeated. The action is taken as the integer code.
- MoonLanderEnv and BreakoutEnv observations: in both environments the cache is a field of the snapshot record. In Java it is shared by reference.
- Listener notifications (`trainer.notifyListeners` with `onEpoch` and `onTrainingEnd`) are not part of the traced calls of either trainer: they only report progress.
- Trainers.Shaped: the loops are modelled for any configuration with at least one game and one validation game per epoch. The code uses 128 epochs, 16 games and 1 validation game (`Trainers.Default`). With 0 games Java would divide by zero, which is not modelled.
- `NetworkEvaluationHelper`, `MoonLanderLauncher`, `module-info` and the network and DJL configuration builders are not modelled: they are bootstrapping and glue.

## Findings

| source | as written | input that shows it | evidently intended | confidence | as-written member | corrected member |
|---|---|---|---|---|---|---|
| src/main/java/com/itth/moonlander/reinforce/dl4j/NetworkUtil.java:178-180 | `Math.random() * ((double)1 + 1 - (double)0)` uses the integer-range idiom `max - min + 1`, so the draw lies in [0, 2). Exploration then happens with probability epsilon/2. | `Math.random()` = 0.5 with epsilon 0.9: the draw is 1.0, not below 0.9, so the network's action is taken where a random one was meant. The DL4J loop runs under this rule with `Draw.AsWritten`, see `NetworkTrainingHelper.Choose` | a draw in [0, 1), so that a random action is taken with probability epsilon | medium, not executed | NetworkUtil.EpsilonGreedyActionAsWritten | NetworkUtil.EpsilonGreedyAction |
