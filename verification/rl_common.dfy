/** What the two environments share: their action space and the replay
    buffer seen as an add-only log (its eviction and sampling live in the
    learning library and are not part of this model). */
module RlCommon {

  /** Both environments register the actions 0, 1 and 2, in that order. */
  const ActionSpace: seq<int> := [0, 1, 2]

  /** `if (training) replayBuffer.addStep(step)`. */
  function Record<T>(buffer: seq<T>, step: T, training: bool): (b: seq<T>)
    ensures training ==> b == buffer + [step]
    ensures !training ==> b == buffer
    ensures |b| == |buffer| + (if training then 1 else 0)
  {
    if training then buffer + [step] else buffer
  }

  /** Java's `(int)` cast of a double: truncation toward zero. */
  function TruncateTowardZero(x: real): (i: int)
    ensures x >= 0.0 ==> i as real <= x < i as real + 1.0
    ensures x < 0.0 ==> i as real - 1.0 < x <= i as real
  {
    if x >= 0.0 then x.Floor else -((-x).Floor)
  }
}
