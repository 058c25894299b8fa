/** `NetworkUtil`: action selection from the network's per-action outputs,
    the epsilon-greedy draw and the Q-target construction. The network is
    represented by its output vector for the current state. */
module NetworkUtil {

  import opened Actions
  import opened Wrappers

  /** `k` is the first position holding the largest value. */
  ghost predicate IsFirstMax(values: seq<real>, k: nat)
  {
    && k < |values|
    && (forall j :: 0 <= j < |values| ==> values[j] <= values[k])
    && (forall j :: 0 <= j < k ==> values[j] < values[k])
  }

  /** There is only one first maximum. */
  lemma FirstMaxUnique(values: seq<real>, a: nat, b: nat)
    requires IsFirstMax(values, a) && IsFirstMax(values, b)
    ensures a == b
  {
    assert values[a] == values[b];
  }

  /** `getMaxValueIndex`: the strict `>` keeps the lowest index among ties;
      an empty array gives 0. */
  method MaxValueIndex(values: seq<real>) returns (maxAt: nat)
    ensures |values| == 0 ==> maxAt == 0
    ensures |values| > 0 ==> IsFirstMax(values, maxAt)
  {
    maxAt := 0;
    for i := 0 to |values|
      invariant maxAt <= i && (i > 0 ==> maxAt < i)
      invariant forall j :: 0 <= j < i ==> values[j] <= values[maxAt]
      invariant forall j :: 0 <= j < maxAt ==> values[j] < values[maxAt]
    {
      maxAt := if values[i] > values[maxAt] then i else maxAt;
    }
  }

  /** The same scan as a function, for use inside the functional model. */
  function ArgMax(values: seq<real>): (k: nat)
    ensures |values| == 0 ==> k == 0
    ensures |values| > 0 ==> IsFirstMax(values, k)
  {
    if |values| <= 1 then 0
    else
      var k := ArgMax(values[..|values| - 1]);
      if values[|values| - 1] > values[k] then |values| - 1 else k
  }

  /** `getActionFromTheNetwork`: the output has one entry per action (the
      network is built with `Action.values().length` outputs) and the argmax
      position is mapped through `getActionByIndex`. */
  function ActionFromNetwork(output: seq<real>): (a: Action)
    requires |output| == Size
    ensures IsFirstMax(output, Index(a))
    ensures forall b :: output[Index(b)] <= output[Index(a)]
  {
    ByIndex(ArgMax(output))
  }

  /** `getRandomDouble` as written: `Math.random() * (1 + 1 - 0) + 0`, where
      `u` is the `Math.random()` draw in [0, 1). */
  function RandomDouble(u: real): (r: real)
    requires 0.0 <= u < 1.0
    ensures 0.0 <= r < 2.0
    ensures r == 2.0 * u
  {
    u * (1.0 + 1.0 - 0.0) + 0.0
  }

  /** `epsilonGreedyAction` as written: explore when the doubled draw is
      below epsilon, otherwise take the network's argmax action. `pick` is
      the draw of `getRandomAction`. */
  function EpsilonGreedyActionAsWritten(output: seq<real>, epsilon: real, u: real, pick: nat): (a: Action)
    requires |output| == Size && pick < Size && 0.0 <= u < 1.0
    ensures 2.0 * u < epsilon ==> a == RandomAction(pick)
    ensures 2.0 * u >= epsilon ==> a == ActionFromNetwork(output)
  {
    if RandomDouble(u) < epsilon then RandomAction(pick) else ActionFromNetwork(output)
  }

  /** The intended epsilon-greedy choice: explore exactly when the uniform
      draw in [0, 1) is below epsilon. */
  function EpsilonGreedyAction(output: seq<real>, epsilon: real, u: real, pick: nat): (a: Action)
    requires |output| == Size && pick < Size && 0.0 <= u < 1.0
    ensures u < epsilon ==> a == RandomAction(pick)
    ensures u >= epsilon ==> a == ActionFromNetwork(output)
  {
    if u < epsilon then RandomAction(pick) else ActionFromNetwork(output)
  }

  /** With the doubled draw, the random branch is reachable only for draws
      below epsilon / 2, so no epsilon <= 1 ever explores for a draw of 1/2
      or more; the intended choice explores for every draw below epsilon. */
  lemma AsWrittenExploresHalfAsOften(output: seq<real>, epsilon: real, u: real, pick: nat)
    requires |output| == Size && pick < Size && 0.0 <= u < 1.0
    requires epsilon <= 1.0 && u >= 0.5
    ensures EpsilonGreedyActionAsWritten(output, epsilon, u, pick) == ActionFromNetwork(output)
  {
  }

  /** The doubled draw is the intended test run with half the rate. */
  lemma AsWrittenHalvesEpsilon(output: seq<real>, epsilon: real, u: real, pick: nat)
    requires |output| == Size && pick < Size && 0.0 <= u < 1.0
    ensures EpsilonGreedyActionAsWritten(output, epsilon, u, pick) == EpsilonGreedyAction(output, epsilon / 2.0, u, pick)
  {
  }

  /** A concrete draw on which the two differ: epsilon 0.9 (the training
      start value), draw 0.5, network preferring THRUST_UP, random pick 1. */
  lemma AsWrittenDiffersFromIntended()
    ensures EpsilonGreedyActionAsWritten([1.0, 0.0, 0.0], 0.9, 0.5, 1) == ThrustUp
    ensures EpsilonGreedyAction([1.0, 0.0, 0.0], 0.9, 0.5, 1) == ThrustDown
  {
    var q := [1.0, 0.0, 0.0];
    assert IsFirstMax(q, 0);
    FirstMaxUnique(q, 0, ArgMax(q));
    IndexOrder();
  }

  /** The target `update` fits the network to: the output for the state with
      only the taken action's entry replaced by the score. */
  function QTarget(output: seq<real>, action: Action, score: real): (t: seq<real>)
    requires |output| == Size
    ensures |t| == |output|
    ensures t[Index(action)] == score
    ensures forall j :: 0 <= j < |t| && j != Index(action) ==> t[j] == output[j]
  {
    output[Index(action) := score]
  }

  /** A score above every other entry makes the taken action the one the
      target prefers. */
  lemma QTargetPrefersRewardedAction(output: seq<real>, action: Action, score: real)
    requires |output| == Size
    requires forall j :: 0 <= j < |output| && j != Index(action) ==> output[j] < score
    ensures ActionFromNetwork(QTarget(output, action, score)) == action
  {
    var t := QTarget(output, action, score);
    assert IsFirstMax(t, Index(action));
    FirstMaxUnique(t, Index(action), ArgMax(t));
    ByIndexOfIndex(action);
  }

  /** `getStateWithActionString`. */
  function StateWithActionString(stateString: string, action: Action): (s: string)
    ensures |s| == |stateString| + 1 + |Name(action)|
    ensures s[..|stateString|] == stateString && s[|stateString|] == '-'
    ensures s[|stateString| + 1..] == Name(action)
  {
    stateString + "-" + Name(action)
  }

  datatype Parsed = Parsed(stateString: string, action: Action)

  /** Reference reader: split at the last '-' and look the name up. */
  function ParseStateWithAction(s: string): Option<Parsed>
  {
    var i := Seqs.LastIndexOf(s, '-');
    if i < 0 then None
    else
      var name := s[i + 1..];
      if name == Name(ThrustUp) then Some(Parsed(s[..i], ThrustUp))
      else if name == Name(ThrustDown) then Some(Parsed(s[..i], ThrustDown))
      else if name == Name(Nothing) then Some(Parsed(s[..i], Nothing))
      else None
  }

  /** The key can be read back even when the state string itself holds '-'
      (negative values print with a minus sign): action names contain none. */
  lemma ParseStateWithActionString(stateString: string, action: Action)
    ensures ParseStateWithAction(StateWithActionString(stateString, action)) == Some(Parsed(stateString, action))
  {
    var s := StateWithActionString(stateString, action);
    NameProperties(action, action);
    var n := |stateString|;
    assert forall j :: n < j < |s| ==> s[j] != '-' by {
      forall j | n < j < |s| ensures s[j] != '-' {
        assert s[j] == Name(action)[j - n - 1];
      }
    }
    assert Seqs.LastIndexOf(s, '-') == n;
    forall b | b != action ensures Name(b) != Name(action) {
      NameProperties(b, action);
    }
  }
}
