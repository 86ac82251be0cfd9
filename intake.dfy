/** The validated prompts that give a player's money-ball rack and shooting
    capability. The console is a finite sequence of integer tokens; a prompt
    re-reads until a token is in range. A read goes into a 32-bit `int`: a
    token outside that width puts the stream into its failed state, after
    which no read succeeds and the prompt never yields a value. */
module Intake {

  /** Smallest value of a 32-bit `int`. */
  const IntMin: int := -0x8000_0000

  /** Largest value of a 32-bit `int`. */
  const IntMax: int := 0x7fff_ffff

  /** A token that `cin >> n` can store in a 32-bit `int`. */
  predicate FitsInt(token: int) {
    IntMin <= token <= IntMax
  }

  /** A token that the prompt reads successfully and rejects. */
  predicate Rejected(token: int, lo: int, hi: int) {
    FitsInt(token) && (token < lo || hi < token)
  }

  /** Reads tokens until one lies in [lo, hi]. On success `value` is that
      token and `used` counts the tokens read, the last one being `value`;
      every token before it was read and rejected. Otherwise no value is
      found: either the tokens ran out after all were read and rejected, or
      the last token read did not fit in an `int`, which leaves the stream
      failed so that the program's prompt repeats for ever. */
  method ReadInRange(tokens: seq<int>, lo: int, hi: int)
    returns (found: bool, value: int, used: nat)
    ensures used <= |tokens|
    ensures forall k :: 0 <= k < used - 1 ==> Rejected(tokens[k], lo, hi)
    ensures found ==> 0 < used && value == tokens[used - 1] && lo <= value <= hi
    ensures !found ==>
      || (used == |tokens| && forall k :: 0 <= k < |tokens| ==> Rejected(tokens[k], lo, hi))
      || (0 < used && !FitsInt(tokens[used - 1]))
  {
    found, value, used := false, 0, 0;
    var failed := false;
    while !found && !failed && used < |tokens|
      invariant used <= |tokens|
      invariant forall k :: 0 <= k < used && ((!found && !failed) || k < used - 1) ==> Rejected(tokens[k], lo, hi)
      invariant found ==> !failed && 0 < used && value == tokens[used - 1] && lo <= value <= hi
      invariant failed ==> !found && 0 < used && !FitsInt(tokens[used - 1])
    {
      value := tokens[used];
      used := used + 1;
      if !FitsInt(value) {
        failed := true;
      } else {
        found := !(value < lo || value > hi);
      }
    }
  }

  /** The money-ball rack prompt: the first token in 1..5. */
  method GetMoneyBallRack(tokens: seq<int>) returns (found: bool, moneyRack: int, used: nat)
    ensures used <= |tokens|
    ensures forall k :: 0 <= k < used - 1 ==> Rejected(tokens[k], 1, 5)
    ensures found ==> 0 < used && moneyRack == tokens[used - 1] && 1 <= moneyRack <= 5
    ensures !found ==>
      || (used == |tokens| && forall k :: 0 <= k < |tokens| ==> Rejected(tokens[k], 1, 5))
      || (0 < used && !FitsInt(tokens[used - 1]))
  {
    found, moneyRack, used := ReadInRange(tokens, 1, 5);
  }

  /** The shooting-capability prompt: the first token in 1..99. */
  method GetShootingCapability(tokens: seq<int>) returns (found: bool, shootingCap: int, used: nat)
    ensures used <= |tokens|
    ensures forall k :: 0 <= k < used - 1 ==> Rejected(tokens[k], 1, 99)
    ensures found ==> 0 < used && shootingCap == tokens[used - 1] && 1 <= shootingCap <= 99
    ensures !found ==>
      || (used == |tokens| && forall k :: 0 <= k < |tokens| ==> Rejected(tokens[k], 1, 99))
      || (0 < used && !FitsInt(tokens[used - 1]))
  {
    found, shootingCap, used := ReadInRange(tokens, 1, 99);
  }
}
