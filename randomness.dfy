/** The source of randomness behind Python's `random.randint(1, faces)`.
    The model does not fix a generator: a roller replays an arbitrary stream of
    raw draws given when it is made, so every property proved about the engine
    holds whatever the dice show. */
module Randomness {

  /** The die value of the `index`-th draw of `source` for a die with `faces` faces. */
  function Die(source: nat -> nat, index: nat, faces: nat): (r: int)
    requires faces >= 1
    ensures 1 <= r <= faces
  {
    source(index) % faces + 1
  }

  /** A stream that replays a tape of die results (and ones after its end). */
  function TapeSource(tape: seq<nat>): nat -> nat {
    (i: nat) => if i < |tape| && tape[i] >= 1 then tape[i] - 1 else 0
  }

  /** Any tape of valid die results can be replayed exactly, so quantifying over
      all sources covers every sequence of dice. */
  lemma TapeReplays(tape: seq<nat>, faces: nat, i: nat)
    requires faces >= 1 && i < |tape| && 1 <= tape[i] <= faces
    ensures Die(TapeSource(tape), i, faces) == tape[i]
  {
  }

  /** Draws dice one at a time from its stream; `drawn` counts the draws so far. */
  class Roller {
    const source: nat -> nat
    var drawn: nat

    constructor (source: nat -> nat)
      ensures this.source == source && drawn == 0
    {
      this.source := source;
      drawn := 0;
    }

    /** `random.randint(1, faces)`. */
    method Roll(faces: nat) returns (r: int)
      requires faces >= 1
      modifies this
      ensures r == Die(source, old(drawn), faces)
      ensures drawn == old(drawn) + 1
    {
      r := Die(source, drawn, faces);
      drawn := drawn + 1;
    }

    /** `roll_d6()`: a value in 1..6. */
    method RollD6() returns (r: int)
      modifies this
      ensures 1 <= r <= 6
      ensures r == Die(source, old(drawn), 6)
      ensures drawn == old(drawn) + 1
    {
      r := Roll(6);
    }
  }
}
