/** `GameState`: the lander's feature vector and its printable form. */
module GameStates {

  import opened Seqs

  /** The constructor keeps the given values, in order (`getStates`). */
  datatype GameState = GameState(states: seq<real>)

  /** `Math.round`: the closest integer, ties rounding up. */
  function Round(x: real): (n: int)
    ensures n as real - 0.5 <= x < n as real + 0.5
  {
    (x + 0.5).Floor
  }

  function DigitChar(d: nat): (c: char)
    requires d < 10
    ensures '0' <= c <= '9'
    ensures c as int - '0' as int == d
  {
    ('0' as int + d) as char
  }

  /** Decimal digits of `n`, most significant first, without leading zeros. */
  function NatToString(n: nat): (s: string)
    ensures |s| > 0
    ensures IsDigits(s)
    ensures n < 10 <==> |s| == 1
    ensures s[0] == '0' <==> n == 0
  {
    if n < 10 then [DigitChar(n)] else NatToString(n / 10) + [DigitChar(n % 10)]
  }

  function IntToString(n: int): (s: string)
    ensures |s| > 0 && ' ' !in s
    ensures IsIntText(s)
  {
    if n < 0 then "-" + NatToString(-n) else NatToString(n)
  }

  predicate IsDigits(s: string)
  {
    forall i :: 0 <= i < |s| ==> '0' <= s[i] <= '9'
  }

  /** Digits, optionally after a minus sign. */
  predicate IsIntText(s: string)
  {
    IsDigits(s) || (|s| > 1 && s[0] == '-' && IsDigits(s[1..]))
  }

  /** Reference reader: the value of a string of decimal digits. */
  function DigitsValue(s: string): nat
    requires IsDigits(s)
  {
    if |s| == 0 then 0 else DigitsValue(s[..|s| - 1]) * 10 + (s[|s| - 1] as int - '0' as int)
  }

  /** Reference reader for an optionally signed integer. */
  function IntValue(s: string): int
    requires IsIntText(s)
  {
    if |s| > 0 && s[0] == '-' then -(DigitsValue(s[1..]) as int) else DigitsValue(s)
  }

  /** Reading the printed digits gives the number back. */
  lemma {:induction false} NatToStringValue(n: nat)
    ensures DigitsValue(NatToString(n)) == n
    decreases n
  {
    var s := NatToString(n);
    if n < 10 {
      assert s[..0] == [];
    } else {
      NatToStringValue(n / 10);
      assert s[..|s| - 1] == NatToString(n / 10);
    }
  }

  /** Reading the printed integer, sign included, gives it back. */
  lemma IntToStringValue(n: int)
    ensures IntValue(IntToString(n)) == n
  {
    if n < 0 {
      NatToStringValue(-n);
      assert IntToString(n)[1..] == NatToString(-n);
    } else {
      NatToStringValue(n);
    }
  }

  /** One printed value: the rounded value as a double, which prints with a
      trailing ".0". */
  function Token(x: real): (t: string)
    ensures |t| > 0 && ' ' !in t
  {
    IntToString(Round(x)) + ".0"
  }

  /** A token is the rounded value in decimal followed by ".0": dropping the
      suffix and reading the rest gives `Round(x)` back. */
  lemma TokenSpellsRound(x: real)
    ensures var t := Token(x);
      && |t| >= 3 && t[|t| - 2..] == ".0"
      && IsIntText(t[..|t| - 2]) && IntValue(t[..|t| - 2]) == Round(x)
  {
    var t := Token(x);
    assert t[..|t| - 2] == IntToString(Round(x));
    IntToStringValue(Round(x));
  }

  function Tokens(xs: seq<real>): (ts: seq<string>)
    ensures |ts| == |xs|
  {
    seq(|xs|, i requires 0 <= i < |xs| => Token(xs[i]))
  }

  /** Reference layout: the tokens separated by exactly one space. */
  function Join(ts: seq<string>): string
  {
    if |ts| == 0 then ""
    else if |ts| == 1 then ts[0]
    else ts[0] + " " + Join(ts[1..])
  }

  /** Reference parser: the fields between single spaces. */
  function Fields(s: string): seq<string>
    decreases |s|
  {
    var i := IndexOf(s, ' ');
    if i < 0 then [s] else [s[..i]] + Fields(s[i + 1..])
  }

  ghost predicate Printable(ts: seq<string>)
  {
    forall i :: 0 <= i < |ts| ==> |ts[i]| > 0 && ' ' !in ts[i]
  }

  lemma {:induction false} JoinSnoc(ts: seq<string>, t: string)
    requires |ts| > 0
    ensures Join(ts + [t]) == Join(ts) + " " + t
    decreases |ts|
  {
    if |ts| == 1 {
      assert (ts + [t])[1..] == [t];
    } else {
      assert (ts + [t])[1..] == ts[1..] + [t];
      JoinSnoc(ts[1..], t);
    }
  }

  lemma {:induction false} JoinNonEmpty(ts: seq<string>)
    requires Printable(ts)
    ensures |Join(ts)| == 0 <==> |ts| == 0
    ensures |ts| > 0 ==> Join(ts)[0] != ' ' && Join(ts)[|Join(ts)| - 1] != ' '
    decreases |ts|
  {
    if |ts| > 1 {
      JoinNonEmpty(ts[1..]);
      assert Join(ts)[0] == ts[0][0];
      assert ts[0][0] in ts[0];
    } else if |ts| == 1 {
      assert ts[0][0] in ts[0];
      assert ts[0][|ts[0]| - 1] in ts[0];
    }
  }

  /** Splitting the joined string at its spaces gives the tokens back: one
      field per token, none empty. */
  lemma {:induction false} FieldsJoin(ts: seq<string>)
    requires |ts| > 0 && Printable(ts)
    ensures Fields(Join(ts)) == ts
    decreases |ts|
  {
    if |ts| == 1 {
      assert IndexOf(ts[0], ' ') == -1;
    } else {
      var s := Join(ts);
      var t := ts[0];
      assert s == t + " " + Join(ts[1..]);
      assert s[|t|] == ' ';
      assert forall j :: 0 <= j < |t| ==> s[j] == t[j];
      var i := IndexOf(s, ' ');
      assert i == |t| by {
        assert forall j :: 0 <= j < |t| ==> s[j] != ' ' by {
          forall j | 0 <= j < |t| ensures s[j] != ' ' {
            assert t[j] in t;
          }
        }
      }
      assert s[..i] == t;
      assert s[i + 1..] == Join(ts[1..]);
      FieldsJoin(ts[1..]);
      assert [t] + ts[1..] == ts;
    }
  }

  lemma TokensSnoc(xs: seq<real>, i: nat)
    requires i < |xs|
    ensures Tokens(xs[..i + 1]) == Tokens(xs[..i]) + [Token(xs[i])]
  {
    var a, b := Tokens(xs[..i + 1]), Tokens(xs[..i]) + [Token(xs[i])];
    assert |a| == |b|;
    forall j | 0 <= j <= i
      ensures a[j] == b[j]
    {
      assert a[j] == Token(xs[..i + 1][j]);
      if j < i { assert b[j] == Tokens(xs[..i])[j]; }
    }
  }

  /** Extending the values by one extends the joined string by a space and
      the new token (or starts it). */
  lemma JoinTokensSnoc(xs: seq<real>, i: nat)
    requires i < |xs|
    ensures Join(Tokens(xs[..i + 1])) ==
      if i == 0 then Token(xs[0]) else Join(Tokens(xs[..i])) + " " + Token(xs[i])
  {
    TokensSnoc(xs, i);
    if i > 0 {
      JoinSnoc(Tokens(xs[..i]), Token(xs[i]));
    }
  }

  /** The joined tokens of any value list: empty only for no values, no
      space at either end, and splitting gives the tokens back. */
  lemma JoinTokens(xs: seq<real>)
    ensures Join(Tokens(xs)) == "" <==> |xs| == 0
    ensures |xs| > 0 ==> Fields(Join(Tokens(xs))) == Tokens(xs)
    ensures |xs| > 0 ==> Join(Tokens(xs))[0] != ' ' && Join(Tokens(xs))[|Join(Tokens(xs))| - 1] != ' '
  {
    var ts := Tokens(xs);
    assert Printable(ts);
    JoinNonEmpty(ts);
    if |xs| > 0 {
      FieldsJoin(ts);
    }
  }

  /** `getGameStateString`: the builder loop appends each rounded value,
      preceded by a space once the builder is non-empty. */
  method GameStateString(g: GameState) returns (s: string)
    ensures s == Join(Tokens(g.states))
    ensures s == "" <==> |g.states| == 0
    ensures |g.states| > 0 ==> Fields(s) == Tokens(g.states)
    ensures |g.states| > 0 ==> s[0] != ' ' && s[|s| - 1] != ' '
  {
    var xs := g.states;
    s := "";
    for i := 0 to |xs|
      invariant s == Join(Tokens(xs[..i]))
      invariant |s| == 0 <==> i == 0
    {
      var v := Token(xs[i]);
      JoinTokensSnoc(xs, i);
      if |s| > 0 {
        s := s + " " + v;
      } else {
        s := s + v;
      }
    }
    assert xs[..|xs|] == xs;
    JoinTokens(xs);
  }

}
