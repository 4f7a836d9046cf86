/** ManualEncoder: a polled, one-edge-per-detent quadrature decoder. */
module Encoder {

  /** The rotation reported for one sample, given the previous level of pin A:
      a detent is reported only on a falling edge of A, and pin B gives the
      direction (-1 counter-clockwise when B is high, +1 clockwise when low).
      A rising edge or an unchanged A reports 0. */
  function Decode(lastA: bool, a: bool, b: bool): (direction: int)
    ensures direction != 0 <==> lastA && !a
    ensures direction == -1 <==> lastA && !a && b
    ensures direction == 1 <==> lastA && !a && !b
  {
    if lastA && !a then (if b then -1 else 1) else 0
  }

  /** A reported detent leaves A low, so the very next sample cannot report
      another one: one qualifying edge per detent. */
  lemma NoBackToBackDetents(lastA: bool, a1: bool, b1: bool, a2: bool, b2: bool)
    requires Decode(lastA, a1, b1) != 0
    ensures Decode(a1, a2, b2) == 0
  {
  }

  class ManualEncoder {
    var lastA: bool

    /** The encoder starts from the level pin A has when it is set up. */
    constructor (initialA: bool)
      ensures lastA == initialA
    {
      lastA := initialA;
    }

    /** Samples the two pins (passed in) and reports the rotation; the level
        of A is remembered whether or not an edge occurred. */
    method Update(a: bool, b: bool) returns (direction: int)
      modifies this
      ensures direction == Decode(old(lastA), a, b)
      ensures lastA == a
    {
      if lastA && !a {
        lastA := a;
        if b {
          return -1;
        } else {
          return 1;
        }
      }
      lastA := a;
      return 0;
    }
  }
}
