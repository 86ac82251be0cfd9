/** Shot-level scoring of the basketball shooting contest.

    Every call of the C library's `rand()` in the program is replaced by the
    next element of a given sequence of draws (the values `rand()` would have
    returned, all non-negative). A shot is made when the draw, reduced modulo
    100, is below the player's shooting capability. */
module Shooting {

  /** Shots taken in one rack. */
  const ShotsPerRack: nat := 5

  /** Points for a made shot in an ordinary rack. */
  const RegularPoints: int := 1

  /** Points for a made shot in the money-ball rack. */
  const MoneyBallPoints: int := 2

  /** Points for a made starry ball. */
  const StarryPoints: int := 3

  /** The make test `rand() % 100 < shootingCap`. A draw is non-negative, so
      Dafny's `%` agrees with C's here. */
  predicate Makes(shootingCap: int, draw: nat) {
    draw % 100 < shootingCap
  }

  /** One shot worth `points`: the points on a make, nothing on a miss. */
  function ShootBall(shootingCap: int, points: int, draw: nat): (score: int)
    ensures score == points || score == 0
    ensures points != 0 ==> (score == points <==> Makes(shootingCap, draw))
  {
    if Makes(shootingCap, draw) then points else 0
  }

  /** The starry ball: one draw, 3 points on a make, 0 on a miss. */
  function ShootStarryBall(shootingCap: int, draw: nat): (score: int)
    ensures score == StarryPoints || score == 0
    ensures score == StarryPoints <==> Makes(shootingCap, draw)
  {
    if Makes(shootingCap, draw) then StarryPoints else 0
  }

  /** Point value of every shot of a rack: double on the money-ball rack. */
  function RackValue(rack: int, moneyRack: int): int {
    if rack == moneyRack then MoneyBallPoints else RegularPoints
  }

  /** How many of the given draws are makes. */
  function MadeCount(shootingCap: int, shots: seq<nat>): (made: nat)
    ensures made <= |shots|
  {
    if shots == [] then 0
    else
      MadeCount(shootingCap, shots[..|shots| - 1])
      + (if Makes(shootingCap, shots[|shots| - 1]) then 1 else 0)
  }

  /** Sum of `ShootBall` over the given draws, each shot worth `points`. */
  function ShotsScore(shootingCap: int, points: int, shots: seq<nat>): int {
    if shots == [] then 0
    else
      ShotsScore(shootingCap, points, shots[..|shots| - 1])
      + ShootBall(shootingCap, points, shots[|shots| - 1])
  }

  /** Score of rack number `rack` shot with the given draws. */
  function RackScore(rack: int, moneyRack: int, shootingCap: int, shots: seq<nat>): int {
    ShotsScore(shootingCap, RackValue(rack, moneyRack), shots)
  }

  /** A sequence of equally valued shots scores the value times the makes. */
  lemma {:induction false} ShotsScoreIsValueTimesMakes(shootingCap: int, points: int, shots: seq<nat>)
    ensures ShotsScore(shootingCap, points, shots) == points * MadeCount(shootingCap, shots)
  {
    if shots != [] {
      var init := shots[..|shots| - 1];
      ShotsScoreIsValueTimesMakes(shootingCap, points, init);
      var m := MadeCount(shootingCap, init);
      if Makes(shootingCap, shots[|shots| - 1]) {
        assert points * (m + 1) == points * m + points;
      }
    }
  }

  /** A higher capability makes at least the shots a lower one makes. */
  lemma {:induction false} MadeCountMonotone(lowCap: int, highCap: int, shots: seq<nat>)
    requires lowCap <= highCap
    ensures MadeCount(lowCap, shots) <= MadeCount(highCap, shots)
  {
    if shots != [] {
      MadeCountMonotone(lowCap, highCap, shots[..|shots| - 1]);
    }
  }

  /** Single shots: raising the capability never lowers a shot's score. */
  lemma ShotMonotone(lowCap: int, highCap: int, points: int, draw: nat)
    requires lowCap <= highCap && 0 <= points
    ensures ShootBall(lowCap, points, draw) <= ShootBall(highCap, points, draw)
    ensures ShootStarryBall(lowCap, draw) <= ShootStarryBall(highCap, draw)
  {
  }

  /** A rack of 5 shots pays 2 per make on the money-ball rack and 1 per make
      otherwise; its score is a multiple of that value within [0, 5 * value]. */
  lemma RackScoreRange(rack: int, moneyRack: int, shootingCap: int, shots: seq<nat>)
    requires |shots| == ShotsPerRack
    ensures RackValue(rack, moneyRack) == (if rack == moneyRack then 2 else 1)
    ensures RackScore(rack, moneyRack, shootingCap, shots)
         == RackValue(rack, moneyRack) * MadeCount(shootingCap, shots)
    ensures 0 <= RackScore(rack, moneyRack, shootingCap, shots) <= ShotsPerRack * RackValue(rack, moneyRack)
    ensures RackScore(rack, moneyRack, shootingCap, shots) % RackValue(rack, moneyRack) == 0
  {
    ShotsScoreIsValueTimesMakes(shootingCap, RackValue(rack, moneyRack), shots);
  }

  /** Raising the capability never lowers a rack's score. */
  lemma RackScoreMonotone(rack: int, moneyRack: int, lowCap: int, highCap: int, shots: seq<nat>)
    requires lowCap <= highCap
    ensures RackScore(rack, moneyRack, lowCap, shots) <= RackScore(rack, moneyRack, highCap, shots)
  {
    ShotsScoreIsValueTimesMakes(lowCap, RackValue(rack, moneyRack), shots);
    ShotsScoreIsValueTimesMakes(highCap, RackValue(rack, moneyRack), shots);
    MadeCountMonotone(lowCap, highCap, shots);
  }

  /** One rack: five shots, each taking the next draw from position `pos`; the
      result is the rack's score and the position of the first unused draw. */
  method ShootRack(rack: int, moneyRack: int, shootingCap: int, draws: seq<nat>, pos: nat)
    returns (rackScore: int, next: nat)
    requires pos + ShotsPerRack <= |draws|
    ensures next == pos + ShotsPerRack
    ensures rackScore == RackScore(rack, moneyRack, shootingCap, draws[pos..next])
    ensures rackScore == RackValue(rack, moneyRack) * MadeCount(shootingCap, draws[pos..next])
    ensures 0 <= rackScore <= ShotsPerRack * RackValue(rack, moneyRack)
  {
    // The program writes one loop per value; they differ only in the value.
    var points := if rack == moneyRack then MoneyBallPoints else RegularPoints;
    rackScore := 0;
    var j := 0;
    while j < ShotsPerRack
      invariant 0 <= j <= ShotsPerRack
      invariant rackScore == ShotsScore(shootingCap, points, draws[pos..pos + j])
    {
      assert draws[pos..pos + j + 1][..j] == draws[pos..pos + j];
      rackScore := rackScore + ShootBall(shootingCap, points, draws[pos + j]);
      j := j + 1;
    }
    next := pos + j;
    RackScoreRange(rack, moneyRack, shootingCap, draws[pos..next]);
  }
}
