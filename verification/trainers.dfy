/** `Trainers`: what the two DJL training loops share: the calls they make
    on the environment, agent, trainer and model, win counting, and the
    `ConstantTracker`. */
module Trainers {

  import opened Seqs

  /** The calls of a training loop that the model traces, in the order it
      makes them: `game.runEnvironment(agent, training)`, `game.getBatch()`,
      `agent.trainBatch(batch)`, `trainer.step()` and `save(model)`. The
      listener notifications (`onEpoch`, `onTrainingEnd`), progress bars,
      logging and UI updates are not traced. */
  datatype Call = RunEnvironment(training: bool) | GetBatch | TrainBatch | TrainerStep | Save

  /** The loop sizes `runExample` sets. */
  datatype Config = Config(epochs: nat, gamesPerEpoch: nat, validationGamesPerEpoch: nat)

  const Default: Config := Config(128, 16, 1)

  /** The results `runEnvironment` returns during one epoch: one per
      training game, then one per validation game. */
  datatype EpochResults = EpochResults(training: seq<real>, validation: seq<real>)

  predicate Shaped(c: Config, es: seq<EpochResults>)
  {
    && c.gamesPerEpoch > 0 && c.validationGamesPerEpoch > 0
    && |es| == c.epochs
    && forall i :: 0 <= i < |es| ==>
         |es[i].training| == c.gamesPerEpoch && |es[i].validation| == c.validationGamesPerEpoch
  }

  /** The calls made for one training game. */
  const GameBlock: seq<Call> := [RunEnvironment(true), GetBatch, TrainBatch, TrainerStep]

  predicate InBlock(c: Call)
  {
    c == RunEnvironment(true) || c == GetBatch || c == TrainBatch || c == TrainerStep
  }

  lemma GameBlockCounts(c: Call)
    ensures Count(GameBlock, c) == if InBlock(c) then 1 else 0
  {
    assert GameBlock == [RunEnvironment(true)] + [GetBatch] + [TrainBatch] + [TrainerStep];
    CountAppend([RunEnvironment(true)] + [GetBatch] + [TrainBatch], [TrainerStep], c);
    CountAppend([RunEnvironment(true)] + [GetBatch], [TrainBatch], c);
    CountAppend([RunEnvironment(true)], [GetBatch], c);
    CountSingle(RunEnvironment(true), c);
    CountSingle(GetBatch, c);
    CountSingle(TrainBatch, c);
    CountSingle(TrainerStep, c);
  }

  /** How many calls `c` a stretch of the loop adds, given how many
      training games, validation games and saves it holds. */
  function Added(c: Call, games: nat, validations: nat, saves: nat): nat
  {
    if InBlock(c) then games
    else if c == RunEnvironment(false) then validations
    else if c == Save then saves
    else 0
  }

  lemma AddedAdd(c: Call, g1: nat, v1: nat, s1: nat, g2: nat, v2: nat, s2: nat)
    ensures Added(c, g1, v1, s1) + Added(c, g2, v2, s2) == Added(c, g1 + g2, v1 + v2, s1 + s2)
  {
  }

  /** The number of training and validation games over a run of epochs. */
  function TrainingCount(es: seq<EpochResults>): nat
  {
    if |es| == 0 then 0 else TrainingCount(es[..|es| - 1]) + |es[|es| - 1].training|
  }

  function ValidationCount(es: seq<EpochResults>): nat
  {
    if |es| == 0 then 0 else ValidationCount(es[..|es| - 1]) + |es[|es| - 1].validation|
  }

  /** With every epoch of the configured shape, the totals are the
      products of the loop bounds. */
  lemma {:induction false} ShapedCounts(c: Config, es: seq<EpochResults>)
    requires forall i :: 0 <= i < |es| ==>
      |es[i].training| == c.gamesPerEpoch && |es[i].validation| == c.validationGamesPerEpoch
    ensures TrainingCount(es) == |es| * c.gamesPerEpoch
    ensures ValidationCount(es) == |es| * c.validationGamesPerEpoch
    decreases |es|
  {
    if |es| > 0 {
      var n := |es| - 1;
      ShapedCounts(c, es[..n]);
      assert n * c.gamesPerEpoch + c.gamesPerEpoch == |es| * c.gamesPerEpoch;
      assert n * c.validationGamesPerEpoch + c.validationGamesPerEpoch == |es| * c.validationGamesPerEpoch;
    }
  }

  function Max(a: real, b: real): real { if a >= b then a else b }

  /** `n` copies of one call. */
  function Repeat(c: Call, n: nat): (r: seq<Call>)
    ensures |r| == n && forall i :: 0 <= i < n ==> r[i] == c
  {
    if n == 0 then [] else Repeat(c, n - 1) + [c]
  }

  lemma {:induction false} RepeatCount(c: Call, n: nat, d: Call)
    ensures Count(Repeat(c, n), d) == if c == d then n else 0
  {
    if n > 0 {
      assert Repeat(c, n)[..n - 1] == Repeat(c, n - 1);
      RepeatCount(c, n - 1, d);
    }
  }

  /** The number of games won: results strictly above 0. */
  function Wins(results: seq<real>): (w: nat)
    ensures w <= |results|
  {
    if |results| == 0 then 0
    else Wins(results[..|results| - 1]) + (if results[|results| - 1] > 0.0 then 1 else 0)
  }

  /** `Wins` counts exactly the indices of positive results. */
  lemma {:induction false} WinsCountsPositives(results: seq<real>)
    ensures Wins(results) == |set i | 0 <= i < |results| && results[i] > 0.0|
    decreases |results|
  {
    if |results| > 0 {
      var n := |results| - 1;
      var init := results[..n];
      WinsCountsPositives(init);
      var s0 := set i | 0 <= i < n && init[i] > 0.0;
      var s := set i | 0 <= i < |results| && results[i] > 0.0;
      if results[n] > 0.0 {
        assert s == s0 + {n};
        assert n !in s0;
      } else {
        assert s == s0;
      }
    }
  }

  lemma {:induction false} WinsAppend(a: seq<real>, b: seq<real>)
    ensures Wins(a + b) == Wins(a) + Wins(b)
    decreases |b|
  {
    if |b| == 0 {
      assert a + b == a;
    } else {
      assert (a + b)[..|a + b| - 1] == a + b[..|b| - 1];
      WinsAppend(a, b[..|b| - 1]);
    }
  }

  /** No wins exactly when no result is positive. */
  lemma WinsZero(results: seq<real>)
    ensures Wins(results) == 0 <==> forall i :: 0 <= i < |results| ==> results[i] <= 0.0
  {
    WinsCountsPositives(results);
    var s := set i | 0 <= i < |results| && results[i] > 0.0;
    if i :| 0 <= i < |results| && results[i] > 0.0 {
      assert i in s;
    } else {
      assert s == {};
    }
  }

  /** A quotient of counts `w <= n`: in [0, 1], 0 only for `w == 0`, 1
      only for `w == n`. */
  lemma Ratio(w: nat, n: nat)
    requires w <= n && n > 0
    ensures var r := w as real / n as real;
      && 0.0 <= r <= 1.0 && (r == 0.0 <==> w == 0) && (r == 1.0 <==> w == n)
  {
    var r := w as real / n as real;
    assert r * n as real == w as real;
  }

  /** `(float) wins / games`. */
  function WinRate(results: seq<real>): (r: real)
    requires |results| > 0
    ensures 0.0 <= r <= 1.0
    ensures r == 0.0 <==> forall i :: 0 <= i < |results| ==> results[i] <= 0.0
    ensures r == 1.0 <==> Wins(results) == |results|
  {
    WinsZero(results);
    Ratio(Wins(results), |results|);
    Wins(results) as real / |results| as real
  }

  /** The tracker's value never drops below this floor. */
  const TrackerFloor: real := 0.1
  const TrackerStart: real := 0.9
  /** The amount `subtract` takes off after every training game. */
  const TrackerStep: real := 0.0025

  datatype ConstantTracker = ConstantTracker(baseValue: real)

  /** `getNewValue`: the current value, whatever the update number. */
  function GetNewValue(t: ConstantTracker, numUpdate: int): real
  {
    t.baseValue
  }

  lemma GetNewValueIgnoresUpdate(t: ConstantTracker, a: int, b: int)
    ensures GetNewValue(t, a) == GetNewValue(t, b) == t.baseValue
  {
  }

  /** `subtract`: lower the value, but never below the floor. */
  function Subtract(t: ConstantTracker, v: real): (t': ConstantTracker)
    ensures t'.baseValue >= TrackerFloor
    ensures t.baseValue - v >= TrackerFloor ==> t'.baseValue == t.baseValue - v
    ensures t.baseValue - v < TrackerFloor ==> t'.baseValue == TrackerFloor
  {
    ConstantTracker(if TrackerFloor >= t.baseValue - v then TrackerFloor else t.baseValue - v)
  }

  function SubtractTimes(t: ConstantTracker, v: real, n: nat): ConstantTracker
  {
    if n == 0 then t else Subtract(SubtractTimes(t, v, n - 1), v)
  }

  /** From a value at or above the floor, `n` subtractions of a
      non-negative amount give `max(0.1, base - n * v)`. */
  lemma {:induction false} SubtractTimesClosedForm(t: ConstantTracker, v: real, n: nat)
    requires v >= 0.0 && t.baseValue >= TrackerFloor
    ensures var r := SubtractTimes(t, v, n).baseValue;
      r >= TrackerFloor
      && (t.baseValue - n as real * v >= TrackerFloor ==> r == t.baseValue - n as real * v)
      && (t.baseValue - n as real * v < TrackerFloor ==> r == TrackerFloor)
  {
    if n > 0 {
      SubtractTimesClosedForm(t, v, n - 1);
    }
  }

  lemma {:induction false} SubtractTimesAdd(t: ConstantTracker, v: real, m: nat, n: nat)
    ensures SubtractTimes(SubtractTimes(t, v, m), v, n) == SubtractTimes(t, v, m + n)
  {
    if n > 0 {
      SubtractTimesAdd(t, v, m, n - 1);
    }
  }
}
