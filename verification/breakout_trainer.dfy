/** `BreakoutTrainer.runExample`: epochs of training games, each followed
    by one batch fit and one trainer step; the model is saved whenever a
    training result beats the best so far, and once more at the end. */
module BreakoutTrainer {

  import opened Seqs
  import opened Trainers

  /** The loop's observable state: the calls made so far, `best`
      (`bestValidationWinRate` in the code), the tracker, the results that
      triggered a save, and the two reported rates. */
  datatype Loop = Loop(
    trace: seq<Call>, best: real, tracker: ConstantTracker, improvements: seq<real>,
    trainWinRate: real, validationWinRate: real)

  const Start: Loop := Loop([], 0.0, ConstantTracker(TrackerStart), [], 0.0, 0.0)

  /** One training game with result `result`. */
  function TrainingGame(s: Loop, result: real): Loop
  {
    var s1 := s.(trace := s.trace + GameBlock, tracker := Subtract(s.tracker, TrackerStep));
    if result > s.best then s1.(trace := s1.trace + [Save], best := result, improvements := s.improvements + [result])
    else s1
  }

  function TrainingGames(s: Loop, results: seq<real>): Loop
  {
    if |results| == 0 then s
    else TrainingGame(TrainingGames(s, results[..|results| - 1]), results[|results| - 1])
  }

  /** One epoch: the training games, then the validation games, which only
      run the environment with training off. */
  function Epoch(s: Loop, e: EpochResults): Loop
    requires |e.training| > 0 && |e.validation| > 0
  {
    var s1 := TrainingGames(s, e.training);
    s1.(trace := s1.trace + Repeat(RunEnvironment(false), |e.validation|),
        trainWinRate := WinRate(e.training), validationWinRate := WinRate(e.validation))
  }

  function Epochs(s: Loop, es: seq<EpochResults>): Loop
    requires forall i :: 0 <= i < |es| ==> |es[i].training| > 0 && |es[i].validation| > 0
  {
    if |es| == 0 then s
    else Epoch(Epochs(s, es[..|es| - 1]), es[|es| - 1])
  }

  /** The whole run: all epochs, then the unconditional final save. */
  function RunExample(c: Config, es: seq<EpochResults>): (r: Loop)
    requires Shaped(c, es)
    ensures |r.trace| > 0 && r.trace[|r.trace| - 1] == Save
    ensures r.trace[..|r.trace| - 1] == Epochs(Start, es).trace
    ensures r == Epochs(Start, es).(trace := r.trace)
  {
    var s := Epochs(Start, es);
    s.(trace := s.trace + [Save])
  }

  /** The save-triggering results are positive and strictly increasing, and
      `best` is the last of them (0 before the first). */
  ghost predicate BestOk(best: real, improvements: seq<real>)
  {
    && (forall i :: 0 <= i < |improvements| ==> improvements[i] > 0.0)
    && (forall i, j :: 0 <= i < j < |improvements| ==> improvements[i] < improvements[j])
    && best == (if |improvements| == 0 then 0.0 else improvements[|improvements| - 1])
  }

  /** One game keeps `BestOk` and leaves `best` at or above both the old
      best and the result. A result above `best` is appended and becomes
      `best`; any other result changes neither. */
  lemma TrainingGameBest(s: Loop, result: real)
    requires BestOk(s.best, s.improvements)
    ensures var s' := TrainingGame(s, result);
      && BestOk(s'.best, s'.improvements)
      && |s.improvements| <= |s'.improvements|
      && s'.improvements[..|s.improvements|] == s.improvements
      && s.best <= s'.best && result <= s'.best
      && (result > s.best ==> s'.best == result && s'.improvements == s.improvements + [result])
      && (result <= s.best ==> s'.best == s.best && s'.improvements == s.improvements)
  {
    var s' := TrainingGame(s, result);
    if result > s.best {
      assert s'.improvements[..|s.improvements|] == s.improvements;
    }
  }

  /** Training games keep `BestOk`, only append improvements, and never
      lower `best`. */
  lemma {:induction false} TrainingGamesBest(s: Loop, results: seq<real>)
    requires BestOk(s.best, s.improvements)
    ensures var s' := TrainingGames(s, results);
      && BestOk(s'.best, s'.improvements)
      && |s.improvements| <= |s'.improvements|
      && s'.improvements[..|s.improvements|] == s.improvements
      && s'.best >= s.best
    decreases |results|
  {
    if |results| > 0 {
      var n := |results| - 1;
      TrainingGamesBest(s, results[..n]);
      var s0 := TrainingGames(s, results[..n]);
      TrainingGameBest(s0, results[n]);
      var i1 := TrainingGame(s0, results[n]).improvements;
      assert i1[..|s.improvements|] == i1[..|s0.improvements|][..|s.improvements|];
    }
  }

  /** After training games `best` is at or above every result played. */
  lemma {:induction false} TrainingGamesAboveResults(s: Loop, results: seq<real>)
    requires BestOk(s.best, s.improvements)
    ensures forall i :: 0 <= i < |results| ==> results[i] <= TrainingGames(s, results).best
    decreases |results|
  {
    if |results| > 0 {
      var n := |results| - 1;
      var init := results[..n];
      TrainingGamesAboveResults(s, init);
      TrainingGamesBest(s, init);
      var s0 := TrainingGames(s, init);
      TrainingGameBest(s0, results[n]);
      var best := TrainingGame(s0, results[n]).best;
      assert TrainingGames(s, results).best == best;
      forall i | 0 <= i < n
        ensures results[i] <= best
      {
        assert init[i] == results[i];
      }
    }
  }

  /** One game adds one of each call of `GameBlock`, and a save when it
      improves on `best`. */
  lemma TrainingGameCount(s: Loop, result: real, c: Call)
    ensures var s' := TrainingGame(s, result);
      && |s'.improvements| == |s.improvements| + (if result > s.best then 1 else 0)
      && Count(s'.trace, c) == Count(s.trace, c) + Added(c, 1, 0, |s'.improvements| - |s.improvements|)
  {
    CountAppend(s.trace, GameBlock, c);
    GameBlockCounts(c);
    if result > s.best {
      CountAppend(s.trace + GameBlock, [Save], c);
      CountSingle(Save, c);
    }
  }

  /** Training games add one `GameBlock` each and a save per improvement. */
  lemma {:induction false} TrainingGamesCount(s: Loop, results: seq<real>, c: Call)
    ensures var s' := TrainingGames(s, results);
      && |s.improvements| <= |s'.improvements|
      && Count(s'.trace, c) == Count(s.trace, c) + Added(c, |results|, 0, |s'.improvements| - |s.improvements|)
    decreases |results|
  {
    if |results| > 0 {
      var n := |results| - 1;
      TrainingGamesCount(s, results[..n], c);
      var s0 := TrainingGames(s, results[..n]);
      TrainingGameCount(s0, results[n], c);
      var s' := TrainingGame(s0, results[n]);
      assert TrainingGames(s, results) == s';
      AddedAdd(c, n, 0, |s0.improvements| - |s.improvements|, 1, 0, |s'.improvements| - |s0.improvements|);
    }
  }

  /** Training games lower the tracker once per game. */
  lemma {:induction false} TrainingGamesTracker(s: Loop, results: seq<real>)
    ensures TrainingGames(s, results).tracker == SubtractTimes(s.tracker, TrackerStep, |results|)
    decreases |results|
  {
    if |results| > 0 {
      TrainingGamesTracker(s, results[..|results| - 1]);
    }
  }

  /** One epoch adds its training games' calls and one training-off run
      per validation game. */
  lemma EpochCount(s: Loop, e: EpochResults, c: Call)
    requires |e.training| > 0 && |e.validation| > 0
    ensures var s' := Epoch(s, e);
      && |s.improvements| <= |s'.improvements|
      && Count(s'.trace, c) == Count(s.trace, c)
                               + Added(c, |e.training|, |e.validation|, |s'.improvements| - |s.improvements|)
  {
    TrainingGamesCount(s, e.training, c);
    var s1 := TrainingGames(s, e.training);
    var v := Repeat(RunEnvironment(false), |e.validation|);
    assert Epoch(s, e).trace == s1.trace + v && Epoch(s, e).improvements == s1.improvements;
    CountAppend(s1.trace, v, c);
    RepeatCount(RunEnvironment(false), |e.validation|, c);
  }

  /** One epoch lowers the tracker once per training game. */
  lemma EpochTracker(s: Loop, e: EpochResults)
    requires |e.training| > 0 && |e.validation| > 0
    ensures Epoch(s, e).tracker == SubtractTimes(s.tracker, TrackerStep, |e.training|)
  {
    TrainingGamesTracker(s, e.training);
  }

  /** One unfolding of `Epochs` and of the two game counts. */
  lemma EpochsSnoc(s: Loop, es: seq<EpochResults>)
    requires forall i :: 0 <= i < |es| ==> |es[i].training| > 0 && |es[i].validation| > 0
    requires |es| > 0
    ensures var n := |es| - 1;
      && Epochs(s, es) == Epoch(Epochs(s, es[..n]), es[n])
      && TrainingCount(es) == TrainingCount(es[..n]) + |es[n].training|
      && ValidationCount(es) == ValidationCount(es[..n]) + |es[n].validation|
  {
  }

  /** Over whole epochs: the calls. */
  lemma {:induction false} EpochsCount(s: Loop, es: seq<EpochResults>, c: Call)
    requires forall i :: 0 <= i < |es| ==> |es[i].training| > 0 && |es[i].validation| > 0
    ensures var s' := Epochs(s, es);
      && |s.improvements| <= |s'.improvements|
      && Count(s'.trace, c) == Count(s.trace, c)
                               + Added(c, TrainingCount(es), ValidationCount(es), |s'.improvements| - |s.improvements|)
    decreases |es|
  {
    if |es| > 0 {
      var n := |es| - 1;
      EpochsSnoc(s, es);
      EpochsCount(s, es[..n], c);
      var s0 := Epochs(s, es[..n]);
      EpochCount(s0, es[n], c);
      AddedAdd(c, TrainingCount(es[..n]), ValidationCount(es[..n]), |s0.improvements| - |s.improvements|,
               |es[n].training|, |es[n].validation|, |Epochs(s, es).improvements| - |s0.improvements|);
    }
  }

  /** Over whole epochs: the tracker is lowered once per training game. */
  lemma {:induction false} EpochsTracker(s: Loop, es: seq<EpochResults>)
    requires forall i :: 0 <= i < |es| ==> |es[i].training| > 0 && |es[i].validation| > 0
    ensures Epochs(s, es).tracker == SubtractTimes(s.tracker, TrackerStep, TrainingCount(es))
    decreases |es|
  {
    if |es| > 0 {
      var n := |es| - 1;
      EpochsSnoc(s, es);
      EpochsTracker(s, es[..n]);
      EpochTracker(Epochs(s, es[..n]), es[n]);
      SubtractTimesAdd(s.tracker, TrackerStep, TrainingCount(es[..n]), |es[n].training|);
    }
  }

  lemma {:induction false} EpochsBest(s: Loop, es: seq<EpochResults>)
    requires forall i :: 0 <= i < |es| ==> |es[i].training| > 0 && |es[i].validation| > 0
    requires BestOk(s.best, s.improvements)
    ensures var s' := Epochs(s, es);
      && BestOk(s'.best, s'.improvements)
      && (forall i, j :: 0 <= i < |es| && 0 <= j < |es[i].training| ==> es[i].training[j] <= s'.best)
    decreases |es|
  {
    if |es| > 0 {
      var n := |es| - 1;
      EpochsSnoc(s, es);
      EpochsBest(s, es[..n]);
      var s0 := Epochs(s, es[..n]);
      TrainingGamesBest(s0, es[n].training);
      TrainingGamesAboveResults(s0, es[n].training);
      var best := TrainingGames(s0, es[n].training).best;
      assert Epochs(s, es).best == best;
      forall i, j | 0 <= i < n && 0 <= j < |es[i].training|
        ensures es[i].training[j] <= best
      {
        assert es[..n][i] == es[i];
      }
    }
  }

  /** The count of any one call over the whole run. */
  lemma RunExampleCount(c: Config, es: seq<EpochResults>, k: Call)
    requires Shaped(c, es)
    ensures var s := RunExample(c, es);
      Count(s.trace, k) == Added(k, c.epochs * c.gamesPerEpoch, c.epochs * c.validationGamesPerEpoch, |s.improvements| + 1)
  {
    var s := Epochs(Start, es);
    ShapedCounts(c, es);
    EpochsCount(Start, es, k);
    CountAppend(s.trace, [Save], k);
    CountSingle(Save, k);
  }

  /** The whole run: one `getBatch`, `trainBatch` and `trainer.step` per
      training game, `epochs * gamesPerEpoch` training runs and
      `epochs * validationGamesPerEpoch` validation runs; one save per
      improvement plus the final one, which is the last call. The
      improvements are positive and strictly increasing and `best` is the
      highest training result (or 0). */
  lemma RunExampleCalls(c: Config, es: seq<EpochResults>)
    requires Shaped(c, es)
    ensures var s := RunExample(c, es);
      && Count(s.trace, RunEnvironment(true)) == c.epochs * c.gamesPerEpoch
      && Count(s.trace, GetBatch) == c.epochs * c.gamesPerEpoch
      && Count(s.trace, TrainBatch) == c.epochs * c.gamesPerEpoch
      && Count(s.trace, TrainerStep) == c.epochs * c.gamesPerEpoch
      && Count(s.trace, RunEnvironment(false)) == c.epochs * c.validationGamesPerEpoch
      && Count(s.trace, Save) == |s.improvements| + 1
      && s.trace[|s.trace| - 1] == Save
  {
    RunExampleCount(c, es, RunEnvironment(true));
    RunExampleCount(c, es, GetBatch);
    RunExampleCount(c, es, TrainBatch);
    RunExampleCount(c, es, TrainerStep);
    RunExampleCount(c, es, RunEnvironment(false));
    RunExampleCount(c, es, Save);
  }

  lemma RunExampleBest(c: Config, es: seq<EpochResults>)
    requires Shaped(c, es)
    ensures var s := RunExample(c, es);
      && BestOk(s.best, s.improvements)
      && s.best >= 0.0
      && (forall i, j :: 0 <= i < |es| && 0 <= j < |es[i].training| ==> es[i].training[j] <= s.best)
  {
    EpochsBest(Start, es);
  }

  /** The reported rates are the last epoch's (0 with no epochs), and the
      tracker has been lowered once per training game, down to its floor. */
  lemma RunExampleRates(c: Config, es: seq<EpochResults>)
    requires Shaped(c, es)
    ensures var s := RunExample(c, es);
      && (|es| == 0 ==> s.trainWinRate == 0.0 && s.validationWinRate == 0.0)
      && (|es| > 0 ==> s.trainWinRate == WinRate(es[|es| - 1].training)
                       && s.validationWinRate == WinRate(es[|es| - 1].validation))
      && s.tracker.baseValue == Max(TrackerFloor, TrackerStart - (c.epochs * c.gamesPerEpoch) as real * TrackerStep)
  {
    EpochsTracker(Start, es);
    ShapedCounts(c, es);
    SubtractTimesClosedForm(Start.tracker, TrackerStep, c.epochs * c.gamesPerEpoch);
  }
}
