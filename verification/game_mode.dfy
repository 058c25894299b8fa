/** `GameMode`: whether the lander trains a network or evaluates a saved one. */
module GameModes {

  datatype GameMode = Train | Evaluate

  /** The enum constant's name (`name()`), which `valueOf` matches exactly. */
  function Name(m: GameMode): string
  {
    match m
    case Train => "TRAIN"
    case Evaluate => "EVALUATE"
  }

  /** `create`: `valueOf(mode)`, falling back to EVALUATE on any exception
      (an unknown or differently cased name). It never fails. */
  function Create(mode: string): (m: GameMode)
    ensures m == Train <==> mode == Name(Train)
    ensures mode != Name(Train) && mode != Name(Evaluate) ==> m == Evaluate
  {
    if mode == "TRAIN" then Train
    else if mode == "EVALUATE" then Evaluate
    else Evaluate
  }

  /** Parsing a constant's own name gives the constant back. */
  lemma CreateName(m: GameMode)
    ensures Create(Name(m)) == m
  {
  }

  /** Matching is case-sensitive: the lower-case spelling falls back. */
  lemma CreateIsCaseSensitive()
    ensures Create("train") == Evaluate
    ensures Create("") == Evaluate
  {
    assert "train"[0] != "TRAIN"[0];
  }
}
