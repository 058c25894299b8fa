/** The moon lander's closed set of actions (`Action` enum) and the
    index <-> action mapping the network output relies on. */
module Actions {

  import opened Seqs

  datatype Action = ThrustUp | ThrustDown | Nothing

  /** `VALUES`: the enum constants in declaration order. */
  const Values: seq<Action> := [ThrustUp, ThrustDown, Nothing]

  /** `SIZE`: the number of actions, also the network's output width. */
  const Size: nat := 3

  /** `getActionIndex`: the action's position in `VALUES`. */
  function Index(a: Action): (i: nat)
    ensures i < Size && Values[i] == a
  {
    assert a == Values[0] || a == Values[1] || a == Values[2];
    IndexOf(Values, a)
  }

  /** `getActionByIndex`: the action at a position of `VALUES`; a position
      outside the list is an out-of-bounds error in the source. */
  function ByIndex(i: nat): (a: Action)
    requires i < Size
    ensures Index(a) == i
  {
    var a := Values[i];
    assert Values[Index(a)] == a;
    a
  }

  /** `getRandomAction`: `k` is the draw of `Random.nextInt(SIZE)`. */
  function RandomAction(k: nat): (a: Action)
    requires k < Size
    ensures a in Values
    ensures Index(a) == k
  {
    ByIndex(k)
  }

  /** The enum constant's name, as `toString` prints it. */
  function Name(a: Action): (s: string)
    ensures |s| > 0
  {
    match a
    case ThrustUp => "THRUST_UP"
    case ThrustDown => "THRUST_DOWN"
    case Nothing => "NOTHING"
  }

  lemma ByIndexOfIndex(a: Action)
    ensures ByIndex(Index(a)) == a
  {
    assert Values[Index(a)] == a;
  }

  lemma IndexOrder()
    ensures Index(ThrustUp) == 0 && Index(ThrustDown) == 1 && Index(Nothing) == 2
  {
    assert Values[0] == ThrustUp && Values[1] == ThrustDown && Values[2] == Nothing;
  }

  /** Names are distinct and never contain '-' (the separator used by
      `getStateWithActionString`). */
  lemma NameProperties(a: Action, b: Action)
    ensures Name(a) == Name(b) ==> a == b
    ensures '-' !in Name(a)
  {
  }
}
