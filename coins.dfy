/** Coin tosses as the page holds them: a list of tosses, each a list of coin values. */
module Coins {

  /** The number of lines in a hexagram. */
  const NUMBER_OF_TOSSES: nat := 6

  /** One simulated coin: `Math.random() > 0.5 ? 3 : 2`. */
  function Coin(r: real): (coin: int)
    ensures coin == 2 || coin == 3
  {
    if r > 0.5 then 3 else 2
  }

  /** `tosses.flat()`: the coin values of every toss, toss after toss. */
  function Flat(tosses: seq<seq<int>>): seq<int>
  {
    if tosses == [] then [] else tosses[0] + Flat(tosses[1..])
  }

  /** Flattening tosses of three coins gives three values per toss, each where the toss had it. */
  lemma {:induction false} FlatOfTriples(tosses: seq<seq<int>>)
    requires forall i :: 0 <= i < |tosses| ==> |tosses[i]| == 3
    ensures |Flat(tosses)| == 3 * |tosses|
    ensures forall i, j :: 0 <= i < |tosses| && 0 <= j < 3 ==> Flat(tosses)[3 * i + j] == tosses[i][j]
  {
    if tosses != [] {
      FlatOfTriples(tosses[1..]);
      forall i, j | 0 <= i < |tosses| && 0 <= j < 3
        ensures Flat(tosses)[3 * i + j] == tosses[i][j]
      {
        if i > 0 {
          assert Flat(tosses)[3 * i + j] == Flat(tosses[1..])[3 * (i - 1) + j];
          assert tosses[1..][i - 1] == tosses[i];
        }
      }
    }
  }
}
