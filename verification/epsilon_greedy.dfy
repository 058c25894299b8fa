/** `EpsilonGreedy`: the exploration wrapper around a base agent. Actions are
    the values of the environment's action space; the base agent is its
    state `B`, its answer for the current call and its training function. */
module EpsilonGreedy {

  import opened JavaInt

  /** `counter++` on a Java `int`. */
  function Increment(c: int): (r: int)
    requires IsInt32(c)
    ensures IsInt32(r)
    ensures c < Int32Max ==> r == c + 1
    ensures c == Int32Max ==> r == Int32Min
    ensures r == Wrap32(c + 1)
  {
    if c == Int32Max then Int32Min else c + 1
  }

  /** Action value -> number of times it was recorded. */
  type Histogram = map<int, nat>

  function CountOf(h: Histogram, k: int): nat
  {
    if k in h then h[k] else 0
  }

  /** `map.put(a, map.computeIfAbsent(a, 0) + 1)`. */
  function Bump(h: Histogram, k: int): (h': Histogram)
    ensures CountOf(h', k) == CountOf(h, k) + 1
    ensures forall j :: j != k ==> CountOf(h', j) == CountOf(h, j)
    ensures h'.Keys == h.Keys + {k}
  {
    h[k := CountOf(h, k) + 1]
  }

  datatype Agent<B> = Agent(base: B, counter: int, histogram: Histogram)

  function Create<B>(base: B): (g: Agent<B>)
    ensures g.counter == 0 && g.histogram == map[] && g.base == base
  {
    Agent(base, 0, map[])
  }

  /** Whether a call takes the random action: only when training and the
      draw is below the scheduled rate. */
  predicate Explores(training: bool, draw: real, rate: real)
  {
    training && draw < rate
  }

  datatype Choice<B> = Choice(action: int, agent: Agent<B>)

  /** `chooseAction`. The rate is read at the counter's value before the
      increment; `draw` is `RandomUtils.random()`, `pick` the position the
      action space's `randomAction` draws, `baseChoice` what the base agent
      answers if asked. The random path returns before the histogram update. */
  function ChooseAction<B>(g: Agent<B>, exploreRate: int -> real, training: bool, draw: real,
                           actionSpace: seq<int>, pick: nat, baseChoice: int): (c: Choice<B>)
    requires IsInt32(g.counter) && pick < |actionSpace|
    ensures c.agent.counter == Increment(g.counter)
    ensures c.agent.base == g.base
    ensures Explores(training, draw, exploreRate(g.counter)) ==>
      c.action == actionSpace[pick] && c.agent.histogram == g.histogram
    ensures !Explores(training, draw, exploreRate(g.counter)) ==>
      c.action == baseChoice && c.agent.histogram == Bump(g.histogram, baseChoice)
  {
    var rate := exploreRate(g.counter);
    var counter := Increment(g.counter);
    if training && draw < rate then
      Choice(actionSpace[pick], g.(counter := counter))
    else
      Choice(baseChoice, g.(counter := counter, histogram := Bump(g.histogram, baseChoice)))
  }

  /** Outside training the answer is the base agent's, and the same,
      whatever the schedule says. */
  lemma EvaluationIgnoresRate<B>(g: Agent<B>, rate1: int -> real, rate2: int -> real, draw1: real, draw2: real,
                                 space: seq<int>, pick: nat, baseChoice: int)
    requires IsInt32(g.counter) && pick < |space|
    ensures ChooseAction(g, rate1, false, draw1, space, pick, baseChoice)
         == ChooseAction(g, rate2, false, draw2, space, pick, baseChoice)
    ensures ChooseAction(g, rate1, false, draw1, space, pick, baseChoice).action == baseChoice
  {
  }

  /** On the random path the base agent's answer is never used: the outcome
      is the same whatever it would have answered. */
  lemma ExplorationIgnoresBase<B>(g: Agent<B>, rate: int -> real, draw: real, space: seq<int>, pick: nat,
                                  base1: int, base2: int)
    requires IsInt32(g.counter) && pick < |space|
    requires draw < rate(g.counter)
    ensures ChooseAction(g, rate, true, draw, space, pick, base1)
         == ChooseAction(g, rate, true, draw, space, pick, base2)
  {
  }

  /** `trainBatch`: hands the batch to the base agent unchanged; the
      wrapper's counter and histogram stay as they are. */
  function TrainBatch<B, S>(g: Agent<B>, batch: seq<S>, train: (B, seq<S>) -> B): (g': Agent<B>)
    ensures g'.counter == g.counter && g'.histogram == g.histogram
    ensures g'.base == train(g.base, batch)
  {
    g.(base := train(g.base, batch))
  }

  /** Training the base agent between two calls does not change what the
      wrapper decides or records. */
  lemma TrainBatchKeepsDecisions<B, S>(g: Agent<B>, batch: seq<S>, train: (B, seq<S>) -> B,
                                       rate: int -> real, training: bool, draw: real,
                                       space: seq<int>, pick: nat, baseChoice: int)
    requires IsInt32(g.counter) && pick < |space|
    ensures var before := ChooseAction(g, rate, training, draw, space, pick, baseChoice);
            var after := ChooseAction(TrainBatch(g, batch, train), rate, training, draw, space, pick, baseChoice);
            after.action == before.action
            && after.agent.counter == before.agent.counter
            && after.agent.histogram == before.agent.histogram
  {
  }

  /** The inputs of one call. */
  datatype Call = Call(training: bool, draw: real, pick: nat, baseChoice: int)

  ghost predicate WellFormed(space: seq<int>, calls: seq<Call>)
  {
    forall i :: 0 <= i < |calls| ==> calls[i].pick < |space|
  }

  /** Successive calls against one schedule and action space. */
  function Run<B>(g: Agent<B>, rate: int -> real, space: seq<int>, calls: seq<Call>): (g': Agent<B>)
    requires IsInt32(g.counter) && WellFormed(space, calls)
    ensures IsInt32(g'.counter)
    decreases |calls|
  {
    if |calls| == 0 then g
    else
      var c := calls[0];
      Run(ChooseAction(g, rate, c.training, c.draw, space, c.pick, c.baseChoice).agent, rate, space, calls[1..])
  }

  /** After n calls the counter has advanced by exactly n, modulo 2^32. */
  lemma {:induction false} RunCounter<B>(g: Agent<B>, rate: int -> real, space: seq<int>, calls: seq<Call>)
    requires IsInt32(g.counter) && WellFormed(space, calls)
    ensures Run(g, rate, space, calls).counter == Wrap32(g.counter + |calls|)
    decreases |calls|
  {
    if |calls| > 0 {
      var c := calls[0];
      var g1 := ChooseAction(g, rate, c.training, c.draw, space, c.pick, c.baseChoice).agent;
      RunCounter(g1, rate, space, calls[1..]);
      var x := g.counter + 1;
      assert g1.counter == Wrap32(x);
      WrapShift(x, |calls| - 1);
    }
  }

  lemma WrapShift(x: int, n: int)
    ensures Wrap32(Wrap32(x) + n) == Wrap32(x + n)
  {
    var k := (x - Int32Min) / Int32Span;
    assert Wrap32(x) == x - k * Int32Span;
    assert (Wrap32(x) + n - Int32Min) == (x + n - Int32Min) - k * Int32Span;
    ModShift(x + n - Int32Min, k);
  }

  lemma ModShift(a: int, k: int)
    ensures (a - k * Int32Span) % Int32Span == a % Int32Span
  {
  }

  /** Number of calls whose base answer is `k`. */
  function BaseCount(calls: seq<Call>, k: int): nat
    decreases |calls|
  {
    if |calls| == 0 then 0
    else (if calls[0].baseChoice == k then 1 else 0) + BaseCount(calls[1..], k)
  }

  /** In a run without training every call is delegated, so each action's
      count rises by exactly the number of calls that chose it. */
  lemma {:induction false} EvaluationRunHistogram<B>(g: Agent<B>, rate: int -> real, space: seq<int>,
                                                     calls: seq<Call>, k: int)
    requires IsInt32(g.counter) && WellFormed(space, calls)
    requires forall i :: 0 <= i < |calls| ==> !calls[i].training
    ensures CountOf(Run(g, rate, space, calls).histogram, k) == CountOf(g.histogram, k) + BaseCount(calls, k)
    decreases |calls|
  {
    if |calls| > 0 {
      var c := calls[0];
      var g1 := ChooseAction(g, rate, c.training, c.draw, space, c.pick, c.baseChoice).agent;
      EvaluationRunHistogram(g1, rate, space, calls[1..], k);
    }
  }

  /** In a training run where every draw falls below the rate (epsilon 1 with
      draws in [0, 1)), nothing is recorded. */
  lemma {:induction false} ExplorationRunHistogram<B>(g: Agent<B>, rate: int -> real, space: seq<int>,
                                                      calls: seq<Call>)
    requires IsInt32(g.counter) && WellFormed(space, calls)
    requires forall n :: rate(n) >= 1.0
    requires forall i :: 0 <= i < |calls| ==> calls[i].training && calls[i].draw < 1.0
    ensures Run(g, rate, space, calls).histogram == g.histogram
    decreases |calls|
  {
    if |calls| > 0 {
      var c := calls[0];
      var g1 := ChooseAction(g, rate, c.training, c.draw, space, c.pick, c.baseChoice).agent;
      assert Explores(c.training, c.draw, rate(g.counter));
      ExplorationRunHistogram(g1, rate, space, calls[1..]);
    }
  }
}
