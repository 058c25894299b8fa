/** `MoonLanderTrainer.runExample`: like the Breakout loop, but the model
    is saved once after every epoch's training games rather than on
    improvement, and once more at the end. */
module MoonLanderTrainer {

  import opened Seqs
  import opened Trainers

  datatype Loop = Loop(
    trace: seq<Call>, tracker: ConstantTracker, trainWinRate: real, validationWinRate: real)

  const Start: Loop := Loop([], ConstantTracker(TrackerStart), 0.0, 0.0)

  /** One training game; its result only feeds the win count. */
  function TrainingGame(s: Loop): Loop
  {
    s.(trace := s.trace + GameBlock, tracker := Subtract(s.tracker, TrackerStep))
  }

  function TrainingGames(s: Loop, n: nat): Loop
  {
    if n == 0 then s else TrainingGame(TrainingGames(s, n - 1))
  }

  /** One epoch: the training games, the per-epoch save, then the
      validation games with training off. */
  function Epoch(s: Loop, e: EpochResults): Loop
    requires |e.training| > 0 && |e.validation| > 0
  {
    var s1 := TrainingGames(s, |e.training|);
    s1.(trace := s1.trace + [Save] + Repeat(RunEnvironment(false), |e.validation|),
        trainWinRate := WinRate(e.training), validationWinRate := WinRate(e.validation))
  }

  function Epochs(s: Loop, es: seq<EpochResults>): Loop
    requires forall i :: 0 <= i < |es| ==> |es[i].training| > 0 && |es[i].validation| > 0
  {
    if |es| == 0 then s
    else Epoch(Epochs(s, es[..|es| - 1]), es[|es| - 1])
  }

  function RunExample(c: Config, es: seq<EpochResults>): (r: Loop)
    requires Shaped(c, es)
    ensures |r.trace| > 0 && r.trace[|r.trace| - 1] == Save
    ensures r.trace[..|r.trace| - 1] == Epochs(Start, es).trace
    ensures r == Epochs(Start, es).(trace := r.trace)
  {
    var s := Epochs(Start, es);
    s.(trace := s.trace + [Save])
  }

  lemma {:induction false} TrainingGamesCount(s: Loop, n: nat, c: Call)
    ensures var s' := TrainingGames(s, n);
      && Count(s'.trace, c) == Count(s.trace, c) + Added(c, n, 0, 0)
      && s'.tracker == SubtractTimes(s.tracker, TrackerStep, n)
  {
    if n > 0 {
      TrainingGamesCount(s, n - 1, c);
      CountAppend(TrainingGames(s, n - 1).trace, GameBlock, c);
      GameBlockCounts(c);
    }
  }

  /** One epoch adds its games' calls and exactly one save. */
  lemma EpochCount(s: Loop, e: EpochResults, c: Call)
    requires |e.training| > 0 && |e.validation| > 0
    ensures Count(Epoch(s, e).trace, c) == Count(s.trace, c) + Added(c, |e.training|, |e.validation|, 1)
  {
    TrainingGamesCount(s, |e.training|, c);
    var s1 := TrainingGames(s, |e.training|);
    var v := Repeat(RunEnvironment(false), |e.validation|);
    assert Epoch(s, e).trace == s1.trace + [Save] + v;
    CountAppend(s1.trace, [Save], c);
    CountSingle(Save, c);
    CountAppend(s1.trace + [Save], v, c);
    RepeatCount(RunEnvironment(false), |e.validation|, c);
  }

  /** One epoch lowers the tracker once per training game. */
  lemma EpochTracker(s: Loop, e: EpochResults)
    requires |e.training| > 0 && |e.validation| > 0
    ensures Epoch(s, e).tracker == SubtractTimes(s.tracker, TrackerStep, |e.training|)
  {
    TrainingGamesCount(s, |e.training|, Save);
  }

  lemma {:induction false} EpochsCount(s: Loop, es: seq<EpochResults>, c: Call)
    requires forall i :: 0 <= i < |es| ==> |es[i].training| > 0 && |es[i].validation| > 0
    ensures Count(Epochs(s, es).trace, c) == Count(s.trace, c) + Added(c, TrainingCount(es), ValidationCount(es), |es|)
    decreases |es|
  {
    if |es| > 0 {
      var n := |es| - 1;
      EpochsCount(s, es[..n], c);
      EpochCount(Epochs(s, es[..n]), es[n], c);
      AddedAdd(c, TrainingCount(es[..n]), ValidationCount(es[..n]), n, |es[n].training|, |es[n].validation|, 1);
    }
  }

  /** Over whole epochs the tracker is lowered once per training game. */
  lemma {:induction false} EpochsTracker(s: Loop, es: seq<EpochResults>)
    requires forall i :: 0 <= i < |es| ==> |es[i].training| > 0 && |es[i].validation| > 0
    ensures Epochs(s, es).tracker == SubtractTimes(s.tracker, TrackerStep, TrainingCount(es))
    decreases |es|
  {
    if |es| > 0 {
      var n := |es| - 1;
      EpochsTracker(s, es[..n]);
      EpochTracker(Epochs(s, es[..n]), es[n]);
      SubtractTimesAdd(s.tracker, TrackerStep, TrainingCount(es[..n]), |es[n].training|);
    }
  }

  /** The count of any one call over the whole run. */
  lemma RunExampleCount(c: Config, es: seq<EpochResults>, k: Call)
    requires Shaped(c, es)
    ensures var s := RunExample(c, es);
      Count(s.trace, k) == Added(k, c.epochs * c.gamesPerEpoch, c.epochs * c.validationGamesPerEpoch, c.epochs + 1)
  {
    var s := Epochs(Start, es);
    ShapedCounts(c, es);
    EpochsCount(Start, es, k);
    CountAppend(s.trace, [Save], k);
    CountSingle(Save, k);
  }

  /** The whole run: one `getBatch`, `trainBatch` and `trainer.step` per
      training game, validation with training off, one save per epoch plus
      the final one, which is the last call. */
  lemma RunExampleCalls(c: Config, es: seq<EpochResults>)
    requires Shaped(c, es)
    ensures var s := RunExample(c, es);
      && Count(s.trace, RunEnvironment(true)) == c.epochs * c.gamesPerEpoch
      && Count(s.trace, GetBatch) == c.epochs * c.gamesPerEpoch
      && Count(s.trace, TrainBatch) == c.epochs * c.gamesPerEpoch
      && Count(s.trace, TrainerStep) == c.epochs * c.gamesPerEpoch
      && Count(s.trace, RunEnvironment(false)) == c.epochs * c.validationGamesPerEpoch
      && Count(s.trace, Save) == c.epochs + 1
      && s.trace[|s.trace| - 1] == Save
  {
    RunExampleCount(c, es, RunEnvironment(true));
    RunExampleCount(c, es, GetBatch);
    RunExampleCount(c, es, TrainBatch);
    RunExampleCount(c, es, TrainerStep);
    RunExampleCount(c, es, RunEnvironment(false));
    RunExampleCount(c, es, Save);
  }

  /** The reported rates are the last epoch's (0 with no epochs), and the
      tracker has been lowered once per training game, down to its floor. */
  lemma RunExampleRates(c: Config, es: seq<EpochResults>)
    requires Shaped(c, es)
    ensures var s := RunExample(c, es);
      && (|es| == 0 ==> s.trainWinRate == 0.0 && s.validationWinRate == 0.0)
      && (|es| > 0 ==> s.trainWinRate == WinRate(es[|es| - 1].training)
                       && s.validationWinRate == WinRate(es[|es| - 1].validation))
      && s.tracker.baseValue == Max(TrackerFloor, TrackerStart - (c.epochs * c.gamesPerEpoch) as real * TrackerStep)
  {
    EpochsTracker(Start, es);
    ShapedCounts(c, es);
    SubtractTimesClosedForm(Start.tracker, TrackerStep, c.epochs * c.gamesPerEpoch);
  }
}
