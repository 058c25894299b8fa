/** `NetworkTrainingHelper`: the hand-written Q-learning loop over the
    lander game. One episode plays epsilon-greedy moves until the lander
    has landed or the run is aborted; every step logs one network fit. */
module NetworkTrainingHelper {

  import opened Actions
  import opened GameStates
  import MoonLander
  import GameStateHelper
  import NetworkUtil

  const NumberOfGames: nat := 5000
  const EpsilonStart: real := 0.9
  const EpsilonFloor: real := 0.2
  const EpsilonDecay: real := 0.0001
  const EpsilonRecovery: real := 0.001
  const TimeLimitSeconds: real := 60.0
  const HeightLowestStart: real := 1024.0
  /** `step()` advances the game clock by 100 ms. */
  const StepNanos: int := 100000000

  function Max(a: real, b: real): real { if a >= b then a else b }
  function Min(a: real, b: real): real { if a <= b then a else b }

  /** Everything one loop iteration takes from outside the model: the draw
      `u` in [0, 1) and the uniform pick for exploration, the network's
      output on the current state, the physics of the step, and the two
      geometric readings (height in m, critical velocity in km/h) after it. */
  datatype Tick = Tick(
    u: real, pick: nat, output: seq<real>,
    velocity: MoonLander.Vec, landerY: real, groundContact: bool,
    height: real, velocityCritical: real)

  predicate TickOk(t: Tick)
  {
    0.0 <= t.u < 1.0 && t.pick < Size && |t.output| == Size
  }

  /** One `NetworkUtil.update` call: the state fitted, the action taken,
      its score, the target vector and the state that follows. */
  datatype Fit = Fit(state: GameState, action: Action, score: real, target: seq<real>, next: GameState)

  /** The loop's exit condition after a step: too long, moving up, or
      faster than the critical velocity. */
  predicate Abort(l: MoonLander.Lander, velocityCritical: real)
  {
    || MoonLander.ElapsedSeconds(l) > TimeLimitSeconds
    || MoonLander.VelocityVerticalKmH(l) < 0.0
    || MoonLander.VelocityVerticalKmH(l) > velocityCritical
  }

  /** `max(0.2, epsilon - 0.0001)`, applied after every action choice. */
  function Decay(epsilon: real): (e: real)
    ensures e >= EpsilonFloor
    ensures epsilon >= EpsilonFloor ==> e <= epsilon
  {
    Max(EpsilonFloor, epsilon - EpsilonDecay)
  }

  /** `min(1, epsilon + 0.001)`, applied when a run is aborted. */
  function Recover(epsilon: real): (e: real)
    ensures e <= 1.0
    ensures epsilon <= 1.0 ==> e >= epsilon
  {
    Min(1.0, epsilon + EpsilonRecovery)
  }

  /** Which exploration test the loop runs. `AsWritten` is the code's
      `epsilonGreedyAction`, whose draw is doubled; `Intended` compares the
      uniform draw itself with epsilon. */
  datatype Draw = AsWritten | Intended

  /** The action choice at the top of the loop, under either test. */
  function Choose(d: Draw, output: seq<real>, epsilon: real, u: real, pick: nat): (a: Action)
    requires |output| == Size && pick < Size && 0.0 <= u < 1.0
    ensures d == AsWritten ==> a == NetworkUtil.EpsilonGreedyActionAsWritten(output, epsilon, u, pick)
    ensures d == Intended ==> a == NetworkUtil.EpsilonGreedyAction(output, epsilon, u, pick)
    ensures a == NetworkUtil.EpsilonGreedyAction(output, if d == AsWritten then epsilon / 2.0 else epsilon, u, pick)
  {
    NetworkUtil.AsWrittenHalvesEpsilon(output, epsilon, u, pick);
    if d == AsWritten then NetworkUtil.EpsilonGreedyActionAsWritten(output, epsilon, u, pick)
    else NetworkUtil.EpsilonGreedyAction(output, epsilon, u, pick)
  }

  datatype Move = Move(lander: MoonLander.Lander, fit: Fit, aborted: bool)

  /** The body of one iteration up to the abort test: choose, input, step,
      score, observe, fit. */
  function Play1(d: Draw, l: MoonLander.Lander, state: GameState, epsilon: real, t: Tick): (m: Move)
    requires TickOk(t)
    ensures m.fit.state == state
    ensures m.fit.action == Choose(d, t.output, epsilon, t.u, t.pick)
    ensures m.lander == MoonLander.Update(MoonLander.Input(l, m.fit.action), l.timeLast + StepNanos,
                                          t.velocity, t.landerY, t.groundContact)
    ensures m.fit.score == GameStateHelper.CalculateScore(m.lander, t.height)
    ensures m.fit.next == GameStateHelper.GameStateOf(m.lander, t.velocityCritical, t.height)
    ensures m.fit.target == NetworkUtil.QTarget(t.output, m.fit.action, m.fit.score)
    ensures m.aborted == Abort(m.lander, t.velocityCritical)
  {
    var a := Choose(d, t.output, epsilon, t.u, t.pick);
    var l1 := MoonLander.Input(l, a);
    var l2 := MoonLander.Update(l1, l1.timeLast + StepNanos, t.velocity, t.landerY, t.groundContact);
    var score := GameStateHelper.CalculateScore(l2, t.height);
    var next := GameStateHelper.GameStateOf(l2, t.velocityCritical, t.height);
    Move(l2, Fit(state, a, score, NetworkUtil.QTarget(t.output, a, score), next), Abort(l2, t.velocityCritical))
  }

  datatype Outcome = Landed | Aborted | OutOfTicks

  datatype Episode = Episode(
    lander: MoonLander.Lander, epsilon: real, counter: int, best: real,
    fits: seq<Fit>, outcome: Outcome)

  /** The `while (!game.isLanded())` loop of one game session. The model
      stops with `OutOfTicks` when the caller supplies no more steps. */
  function Play(d: Draw, l: MoonLander.Lander, state: GameState, epsilon: real, counter: int, best: real, ticks: seq<Tick>)
    : (e: Episode)
    requires forall i :: 0 <= i < |ticks| ==> TickOk(ticks[i])
    ensures e.outcome == Landed ==> e.lander.landed
    ensures e.outcome == Aborted ==> |e.fits| > 0
    decreases |ticks|
  {
    if l.landed then Episode(l, epsilon, counter, best, [], Landed)
    else if |ticks| == 0 then Episode(l, epsilon, counter, best, [], OutOfTicks)
    else
      var m := Play1(d, l, state, epsilon, ticks[0]);
      var epsilon' := Decay(epsilon);
      if m.aborted then Episode(m.lander, Recover(epsilon'), counter + 1, best, [m.fit], Aborted)
      else
        var e := Play(d, m.lander, m.fit.next, epsilon', counter + 1, Max(m.fit.score, best), ticks[1..]);
        e.(fits := [m.fit] + e.fits)
  }

  /** `n` decays in a row from a value at or above the floor. */
  function DecayN(epsilon: real, n: nat): real
  {
    Max(EpsilonFloor, epsilon - EpsilonDecay * n as real)
  }

  lemma DecayStep(epsilon: real, n: nat)
    requires epsilon >= EpsilonFloor
    ensures DecayN(Decay(epsilon), n) == DecayN(epsilon, n + 1)
  {
  }

  /** Epsilon stays in [0.2, 1]; a session that is not aborted ends with
      epsilon decayed once per step, and an aborted one adds the recovery
      to that. */
  lemma {:induction false} PlayEpsilon(d: Draw, l: MoonLander.Lander, state: GameState, epsilon: real, counter: int,
                                       best: real, ticks: seq<Tick>)
    requires forall i :: 0 <= i < |ticks| ==> TickOk(ticks[i])
    requires EpsilonFloor <= epsilon <= 1.0
    ensures var e := Play(d, l, state, epsilon, counter, best, ticks);
      && EpsilonFloor <= e.epsilon <= 1.0
      && (e.outcome != Aborted ==> e.epsilon == DecayN(epsilon, |e.fits|))
      && (e.outcome == Aborted ==> e.epsilon == Recover(DecayN(epsilon, |e.fits|)))
    decreases |ticks|
  {
    if !l.landed && |ticks| > 0 {
      var m := Play1(d, l, state, epsilon, ticks[0]);
      DecayStep(epsilon, 0);
      if !m.aborted {
        PlayEpsilon(d, m.lander, m.fit.next, Decay(epsilon), counter + 1, Max(m.fit.score, best), ticks[1..]);
        var e := Play(d, m.lander, m.fit.next, Decay(epsilon), counter + 1, Max(m.fit.score, best), ticks[1..]);
        DecayStep(epsilon, |e.fits|);
      }
    }
  }

  /** One tick is consumed per fit and the step counter counts them; a
      session runs out of ticks only after using them all. */
  lemma {:induction false} PlayCounter(d: Draw, l: MoonLander.Lander, state: GameState, epsilon: real, counter: int,
                                       best: real, ticks: seq<Tick>)
    requires forall i :: 0 <= i < |ticks| ==> TickOk(ticks[i])
    ensures var e := Play(d, l, state, epsilon, counter, best, ticks);
      && e.counter == counter + |e.fits|
      && |e.fits| <= |ticks|
      && (e.outcome == OutOfTicks ==> |e.fits| == |ticks|)
    decreases |ticks|
  {
    if !l.landed && |ticks| > 0 {
      var m := Play1(d, l, state, epsilon, ticks[0]);
      if !m.aborted {
        PlayCounter(d, m.lander, m.fit.next, Decay(epsilon), counter + 1, Max(m.fit.score, best), ticks[1..]);
      }
    }
  }

  /** How an episode ends: an abort comes right after the step whose lander
      failed the abort test (with that step's critical velocity), and running
      out of ticks leaves the lander still flying. */
  lemma {:induction false} PlayOutcome(d: Draw, l: MoonLander.Lander, state: GameState, epsilon: real, counter: int,
                                       best: real, ticks: seq<Tick>)
    requires forall i :: 0 <= i < |ticks| ==> TickOk(ticks[i])
    ensures var e := Play(d, l, state, epsilon, counter, best, ticks);
      && (e.outcome == Aborted ==>
            0 < |e.fits| <= |ticks| && Abort(e.lander, ticks[|e.fits| - 1].velocityCritical))
      && (e.outcome == OutOfTicks ==> !e.lander.landed)
    decreases |ticks|
  {
    if !l.landed && |ticks| > 0 {
      var m := Play1(d, l, state, epsilon, ticks[0]);
      if !m.aborted {
        var rest := ticks[1..];
        PlayOutcome(d, m.lander, m.fit.next, Decay(epsilon), counter + 1, Max(m.fit.score, best), rest);
        var e := Play(d, m.lander, m.fit.next, Decay(epsilon), counter + 1, Max(m.fit.score, best), rest);
        if e.outcome == Aborted {
          assert rest[|e.fits| - 1] == ticks[|e.fits|];
        }
      }
    }
  }

  /** The fits form a chain: the first fits the starting state and each
      next one the state the previous step produced. */
  lemma {:induction false} PlayChain(d: Draw, l: MoonLander.Lander, state: GameState, epsilon: real, counter: int,
                                     best: real, ticks: seq<Tick>)
    requires forall i :: 0 <= i < |ticks| ==> TickOk(ticks[i])
    ensures var e := Play(d, l, state, epsilon, counter, best, ticks);
      && (|e.fits| > 0 ==> e.fits[0].state == state)
      && (forall i :: 0 <= i < |e.fits| - 1 ==> e.fits[i + 1].state == e.fits[i].next)
    decreases |ticks|
  {
    if !l.landed && |ticks| > 0 {
      var m := Play1(d, l, state, epsilon, ticks[0]);
      if !m.aborted {
        var best' := Max(m.fit.score, best);
        PlayChain(d, m.lander, m.fit.next, Decay(epsilon), counter + 1, best', ticks[1..]);
        var e := Play(d, m.lander, m.fit.next, Decay(epsilon), counter + 1, best', ticks[1..]);
        assert Play(d, l, state, epsilon, counter, best, ticks).fits == [m.fit] + e.fits;
      }
    }
  }

  /** A fit's target is its tick's network output with the taken action's
      entry replaced by the score. */
  predicate TargetOf(f: Fit, t: Tick)
  {
    |t.output| == Size && f.target == t.output[Index(f.action) := f.score]
  }

  /** One unfolding of `Play` on a live game with a tick left. */
  lemma PlayStep(d: Draw, l: MoonLander.Lander, state: GameState, epsilon: real, counter: int, best: real, ticks: seq<Tick>)
    requires forall i :: 0 <= i < |ticks| ==> TickOk(ticks[i])
    requires !l.landed && |ticks| > 0
    ensures var m := Play1(d, l, state, epsilon, ticks[0]);
      var fits := Play(d, l, state, epsilon, counter, best, ticks).fits;
      && (m.aborted ==> fits == [m.fit])
      && (!m.aborted ==>
            fits == [m.fit] + Play(d, m.lander, m.fit.next, Decay(epsilon), counter + 1, Max(m.fit.score, best), ticks[1..]).fits)
  {
  }

  /** Fit `i` has the target built from tick `i`, for every fit. */
  predicate Targets(fits: seq<Fit>, ticks: seq<Tick>)
  {
    |fits| <= |ticks| && forall i :: 0 <= i < |fits| ==> TargetOf(fits[i], ticks[i])
  }

  lemma TargetsCons(f: Fit, fits: seq<Fit>, ticks: seq<Tick>)
    requires |ticks| > 0 && TargetOf(f, ticks[0]) && Targets(fits, ticks[1..])
    ensures Targets([f] + fits, ticks)
  {
    forall i | 1 <= i < |fits| + 1
      ensures TargetOf(([f] + fits)[i], ticks[i])
    {
      assert ([f] + fits)[i] == fits[i - 1] && ticks[1..][i - 1] == ticks[i];
    }
  }

  /** Every fit's target is built from the output of its own tick. */
  lemma {:induction false} PlayTargets(d: Draw, l: MoonLander.Lander, state: GameState, epsilon: real, counter: int,
                                       best: real, ticks: seq<Tick>)
    requires forall i :: 0 <= i < |ticks| ==> TickOk(ticks[i])
    ensures Targets(Play(d, l, state, epsilon, counter, best, ticks).fits, ticks)
    decreases |ticks|
  {
    if !l.landed && |ticks| > 0 {
      var m := Play1(d, l, state, epsilon, ticks[0]);
      PlayStep(d, l, state, epsilon, counter, best, ticks);
      if m.aborted {
        TargetsCons(m.fit, [], ticks);
      } else {
        PlayTargets(d, m.lander, m.fit.next, Decay(epsilon), counter + 1, Max(m.fit.score, best), ticks[1..]);
        var e := Play(d, m.lander, m.fit.next, Decay(epsilon), counter + 1, Max(m.fit.score, best), ticks[1..]);
        TargetsCons(m.fit, e.fits, ticks);
      }
    }
  }

  /** The running maximum of scores, as a left fold. */
  function MaxScore(best: real, fits: seq<Fit>): (r: real)
    ensures r >= best
    ensures forall i :: 0 <= i < |fits| ==> fits[i].score <= r
    ensures r == best || exists i :: 0 <= i < |fits| && r == fits[i].score
    decreases |fits|
  {
    if |fits| == 0 then best
    else
      var r := MaxScore(Max(fits[0].score, best), fits[1..]);
      assert forall i :: 1 <= i < |fits| ==> fits[i] == fits[1..][i - 1];
      r
  }

  /** The fits whose scores feed the session score: all of them, except the
      last one of an aborted run, which leaves the loop before that line. */
  function Kept(e: Episode): seq<Fit>
  {
    if e.outcome == Aborted && |e.fits| > 0 then e.fits[..|e.fits| - 1] else e.fits
  }

  /** The session score is the maximum of its start value and the scores of
      the steps that did not abort the run. */
  lemma {:induction false} PlayBest(d: Draw, l: MoonLander.Lander, state: GameState, epsilon: real, counter: int,
                                    best: real, ticks: seq<Tick>)
    requires forall i :: 0 <= i < |ticks| ==> TickOk(ticks[i])
    ensures var e := Play(d, l, state, epsilon, counter, best, ticks); e.best == MaxScore(best, Kept(e))
    decreases |ticks|
  {
    if !l.landed && |ticks| > 0 {
      var m := Play1(d, l, state, epsilon, ticks[0]);
      if m.aborted {
        assert Kept(Play(d, l, state, epsilon, counter, best, ticks)) == [];
      } else {
        var best' := Max(m.fit.score, best);
        PlayBest(d, m.lander, m.fit.next, Decay(epsilon), counter + 1, best', ticks[1..]);
        var e := Play(d, m.lander, m.fit.next, Decay(epsilon), counter + 1, best', ticks[1..]);
        var e0 := Play(d, l, state, epsilon, counter, best, ticks);
        assert Kept(e0) == [m.fit] + Kept(e);
        assert Kept(e0)[1..] == Kept(e);
      }
    }
  }

  /** What one game session needs from outside: the readings right after
      `reset()`, the steps, and the lander's height when the loop ends. */
  datatype SessionInput = SessionInput(height: real, velocityCritical: real, ticks: seq<Tick>, endHeight: real)

  predicate SessionOk(s: SessionInput)
  {
    forall i :: 0 <= i < |s.ticks| ==> TickOk(s.ticks[i])
  }

  datatype Training = Training(
    lander: MoonLander.Lander, epsilon: real, counter: int, heightLowest: real, episodes: seq<Episode>)

  /** One game session: reset the game, read its state, play with the
      session score starting at 0, then keep the lowest end height. */
  function Session(d: Draw, t: Training, s: SessionInput): (t': Training)
    requires SessionOk(s)
    ensures t'.heightLowest == Min(t.heightLowest, s.endHeight)
    ensures |t'.episodes| == |t.episodes| + 1 && t'.episodes[..|t.episodes|] == t.episodes
  {
    var l0 := MoonLander.ResetZero(t.lander);
    var state := GameStateHelper.GameStateOf(l0, s.velocityCritical, s.height);
    var e := Play(d, l0, state, t.epsilon, t.counter, 0.0, s.ticks);
    Training(e.lander, e.epsilon, e.counter, Min(t.heightLowest, s.endHeight), t.episodes + [e])
  }

  function Sessions(d: Draw, t: Training, ss: seq<SessionInput>): Training
    requires forall i :: 0 <= i < |ss| ==> SessionOk(ss[i])
    decreases |ss|
  {
    if |ss| == 0 then t else Sessions(d, Session(d, t, ss[0]), ss[1..])
  }

  function Lowest(h: real, ss: seq<SessionInput>): real
    decreases |ss|
  {
    if |ss| == 0 then h else Lowest(Min(h, ss[0].endHeight), ss[1..])
  }

  function TotalFits(es: seq<Episode>): nat
  {
    if |es| == 0 then 0 else TotalFits(es[..|es| - 1]) + |es[|es| - 1].fits|
  }

  lemma TotalFitsAppend(es: seq<Episode>, e: Episode)
    ensures TotalFits(es + [e]) == TotalFits(es) + |e.fits|
  {
    assert (es + [e])[..|es|] == es;
  }

  /** One session keeps epsilon in [0.2, 1], adds one episode and counts
      its fits. */
  lemma SessionStep(d: Draw, t: Training, s: SessionInput)
    requires SessionOk(s)
    requires EpsilonFloor <= t.epsilon <= 1.0
    requires t.counter == TotalFits(t.episodes)
    ensures var t' := Session(d, t, s);
      EpsilonFloor <= t'.epsilon <= 1.0 && t'.counter == TotalFits(t'.episodes)
  {
    var l0 := MoonLander.ResetZero(t.lander);
    var state := GameStateHelper.GameStateOf(l0, s.velocityCritical, s.height);
    PlayEpsilon(d, l0, state, t.epsilon, t.counter, 0.0, s.ticks);
    PlayCounter(d, l0, state, t.epsilon, t.counter, 0.0, s.ticks);
    TotalFitsAppend(t.episodes, Play(d, l0, state, t.epsilon, t.counter, 0.0, s.ticks));
  }

  /** Across sessions: one episode per session, each earlier episode kept. */
  lemma {:induction false} SessionsEpisodes(d: Draw, t: Training, ss: seq<SessionInput>)
    requires forall i :: 0 <= i < |ss| ==> SessionOk(ss[i])
    ensures var t' := Sessions(d, t, ss);
      |t'.episodes| == |t.episodes| + |ss| && t'.episodes[..|t.episodes|] == t.episodes
    decreases |ss|
  {
    if |ss| > 0 {
      var t1 := Session(d, t, ss[0]);
      SessionsEpisodes(d, t1, ss[1..]);
      var t' := Sessions(d, t1, ss[1..]);
      assert t'.episodes[..|t.episodes|] == t'.episodes[..|t1.episodes|][..|t.episodes|];
    }
  }

  /** Across sessions: epsilon stays in [0.2, 1] and the counter counts
      every fit of every episode. */
  lemma {:induction false} SessionsCounter(d: Draw, t: Training, ss: seq<SessionInput>)
    requires forall i :: 0 <= i < |ss| ==> SessionOk(ss[i])
    requires EpsilonFloor <= t.epsilon <= 1.0
    requires t.counter == TotalFits(t.episodes)
    ensures var t' := Sessions(d, t, ss);
      EpsilonFloor <= t'.epsilon <= 1.0 && t'.counter == TotalFits(t'.episodes)
    decreases |ss|
  {
    if |ss| > 0 {
      SessionStep(d, t, ss[0]);
      SessionsCounter(d, Session(d, t, ss[0]), ss[1..]);
    }
  }

  /** The minimum is never above its start value or any end height. */
  lemma {:induction false} LowestBound(h: real, ss: seq<SessionInput>)
    ensures Lowest(h, ss) <= h
    ensures forall i :: 0 <= i < |ss| ==> Lowest(h, ss) <= ss[i].endHeight
    decreases |ss|
  {
    if |ss| > 0 {
      LowestBound(Min(h, ss[0].endHeight), ss[1..]);
      forall i | 1 <= i < |ss|
        ensures Lowest(h, ss) <= ss[i].endHeight
      {
        assert ss[1..][i - 1] == ss[i];
      }
    }
  }

  /** Across sessions: the lowest height is the minimum of the start value
      and every session's end height, never above either. */
  lemma {:induction false} SessionsLowest(d: Draw, t: Training, ss: seq<SessionInput>)
    requires forall i :: 0 <= i < |ss| ==> SessionOk(ss[i])
    ensures var t' := Sessions(d, t, ss);
      && t'.heightLowest == Lowest(t.heightLowest, ss)
      && t'.heightLowest <= t.heightLowest
      && (forall i :: 0 <= i < |ss| ==> t'.heightLowest <= ss[i].endHeight)
    decreases |ss|
  {
    if |ss| > 0 {
      SessionsLowest(d, Session(d, t, ss[0]), ss[1..]);
    }
    LowestBound(t.heightLowest, ss);
  }

  /** `startTraining`: epsilon 0.9, counter 0, lowest height 1024, and
      5000 sessions. */
  function StartTraining(d: Draw, l: MoonLander.Lander, ss: seq<SessionInput>): (t: Training)
    requires |ss| == NumberOfGames
    requires forall i :: 0 <= i < |ss| ==> SessionOk(ss[i])
    ensures |t.episodes| == NumberOfGames
    ensures EpsilonFloor <= t.epsilon <= 1.0
    ensures t.counter == TotalFits(t.episodes)
    ensures t.heightLowest <= HeightLowestStart
    ensures forall i :: 0 <= i < |ss| ==> t.heightLowest <= ss[i].endHeight
  {
    var t0 := Training(l, EpsilonStart, 0, HeightLowestStart, []);
    SessionsEpisodes(d, t0, ss);
    SessionsCounter(d, t0, ss);
    SessionsLowest(d, t0, ss);
    Sessions(d, t0, ss)
  }
}
