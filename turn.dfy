/** One player's turn: racks 1 to 5, with a starry ball after racks 2 and 4.
    A turn consumes 5 * 5 + 2 = 27 draws, in the order
    rack 1 (draws 0-4), rack 2 (5-9), starry (10), rack 3 (11-15),
    rack 4 (16-20), starry (21), rack 5 (22-26). */
module Turn {
  import opened Shooting

  /** Racks in a turn. */
  const RackCount: nat := 5

  /** Draws one turn consumes. */
  const DrawsPerTurn: nat := 27

  /** Highest score a turn can reach when the money-ball rack is one of its racks. */
  const MaxTurnScore: int := 36

  /** A starry ball follows rack 2 and rack 4, and no other rack. */
  predicate StarryAfter(rack: int) {
    rack == 2 || rack == 4
  }

  /** Draws consumed by racks 1..n together with the starry balls between them. */
  function DrawsThrough(n: nat): (used: nat)
    ensures used == ShotsPerRack * n + (if n >= 4 then 2 else if n >= 2 then 1 else 0)
  {
    if n == 0 then 0
    else DrawsThrough(n - 1) + ShotsPerRack + (if StarryAfter(n) then 1 else 0)
  }

  /** Score of racks 1..n and the starry balls after them, shot with `draws`
      from its start. */
  function TurnScoreThrough(n: nat, moneyRack: int, shootingCap: int, draws: seq<nat>): int
    requires DrawsThrough(n) <= |draws|
  {
    if n == 0 then 0
    else
      var start := DrawsThrough(n - 1);
      TurnScoreThrough(n - 1, moneyRack, shootingCap, draws)
      + RackScore(n, moneyRack, shootingCap, draws[start..start + ShotsPerRack])
      + (if StarryAfter(n) then ShootStarryBall(shootingCap, draws[start + ShotsPerRack]) else 0)
  }

  /** Score of a whole turn shot with the first 27 draws of `draws`. */
  function TurnScore(moneyRack: int, shootingCap: int, draws: seq<nat>): int
    requires DrawsPerTurn <= |draws|
  {
    TurnScoreThrough(RackCount, moneyRack, shootingCap, draws)
  }

  // ---------------------------------------------------------------------------
  // An independent description of a turn: a score card giving the point
  // value of the shot taken with each of the 27 draws.

  /** The rack that the i-th draw of a turn belongs to (the starry draws 10
      and 21 are given the rack they follow). */
  function RackOfDraw(i: nat): int {
    if i < 5 then 1 else if i < 11 then 2 else if i < 16 then 3 else if i < 22 then 4 else 5
  }

  /** Point value of the shot taken with the i-th draw of a turn. */
  function ShotValue(i: nat, moneyRack: int): int {
    if i == 10 || i == 21 then StarryPoints else RackValue(RackOfDraw(i), moneyRack)
  }

  /** Points of the made shots among the first n draws of a turn. */
  function CardScore(n: nat, moneyRack: int, shootingCap: int, draws: seq<nat>): int
    requires n <= |draws|
  {
    if n == 0 then 0
    else
      CardScore(n - 1, moneyRack, shootingCap, draws)
      + (if Makes(shootingCap, draws[n - 1]) then ShotValue(n - 1, moneyRack) else 0)
  }

  /** Points of the first n shots of a turn if all of them are made. */
  function CardTotal(n: nat, moneyRack: int): int {
    if n == 0 then 0 else CardTotal(n - 1, moneyRack) + ShotValue(n - 1, moneyRack)
  }

  // ---------------------------------------------------------------------------
  // The turn's recursion agrees with the score card.

  /** Over a stretch of draws whose shots are all worth `points`, the card
      grows by the score of those shots. */
  lemma {:induction false} CardSegment(a: nat, b: nat, points: int, moneyRack: int, shootingCap: int, draws: seq<nat>)
    requires a <= b <= |draws|
    requires forall i :: a <= i < b ==> ShotValue(i, moneyRack) == points
    ensures CardScore(b, moneyRack, shootingCap, draws)
         == CardScore(a, moneyRack, shootingCap, draws) + ShotsScore(shootingCap, points, draws[a..b])
  {
    if a < b {
      CardSegment(a, b - 1, points, moneyRack, shootingCap, draws);
      assert draws[a..b][..b - 1 - a] == draws[a..b - 1];
    } else {
      assert draws[a..b] == [];
    }
  }

  /** Over a stretch of shots all worth `points`, the full card grows by
      `points` per shot. */
  lemma {:induction false} CardTotalSegment(a: nat, b: nat, points: int, moneyRack: int)
    requires a <= b
    requires forall i :: a <= i < b ==> ShotValue(i, moneyRack) == points
    ensures CardTotal(b, moneyRack) == CardTotal(a, moneyRack) + (b - a) * points
  {
    if a < b {
      CardTotalSegment(a, b - 1, points, moneyRack);
      assert (b - a) * points == (b - 1 - a) * points + points;
    }
  }

  /** Racks 1..n of a turn score exactly the card's first DrawsThrough(n) entries. */
  lemma {:induction false} TurnThroughIsCard(n: nat, moneyRack: int, shootingCap: int, draws: seq<nat>)
    requires n <= RackCount
    requires DrawsThrough(n) <= |draws|
    ensures TurnScoreThrough(n, moneyRack, shootingCap, draws)
         == CardScore(DrawsThrough(n), moneyRack, shootingCap, draws)
  {
    if n > 0 {
      TurnThroughIsCard(n - 1, moneyRack, shootingCap, draws);
      var start := DrawsThrough(n - 1);
      var v := RackValue(n, moneyRack);
      forall i | start <= i < start + ShotsPerRack
        ensures ShotValue(i, moneyRack) == v
      {
        assert RackOfDraw(i) == n;
      }
      CardSegment(start, start + ShotsPerRack, v, moneyRack, shootingCap, draws);
    }
  }

  /** A turn scores exactly the points of the made shots on its score card. */
  lemma TurnScoreIsCard(moneyRack: int, shootingCap: int, draws: seq<nat>)
    requires DrawsPerTurn <= |draws|
    ensures TurnScore(moneyRack, shootingCap, draws)
         == CardScore(DrawsPerTurn, moneyRack, shootingCap, draws)
  {
    TurnThroughIsCard(RackCount, moneyRack, shootingCap, draws);
  }

  /** The full card of racks 1 and 2 and the first starry ball. */
  lemma CardTotalOpening(moneyRack: int)
    ensures CardTotal(11, moneyRack)
         == ShotsPerRack * (RackValue(1, moneyRack) + RackValue(2, moneyRack)) + StarryPoints
  {
    forall i | 0 <= i < 5 ensures ShotValue(i, moneyRack) == RackValue(1, moneyRack) { }
    CardTotalSegment(0, 5, RackValue(1, moneyRack), moneyRack);
    forall i | 5 <= i < 10 ensures ShotValue(i, moneyRack) == RackValue(2, moneyRack) { }
    CardTotalSegment(5, 10, RackValue(2, moneyRack), moneyRack);
    CardTotalSegment(10, 11, StarryPoints, moneyRack);
  }

  /** The full card of racks 3 to 5 and the second starry ball. */
  lemma CardTotalClosing(moneyRack: int)
    ensures CardTotal(DrawsPerTurn, moneyRack)
         == CardTotal(11, moneyRack)
          + ShotsPerRack * (RackValue(3, moneyRack) + RackValue(4, moneyRack) + RackValue(5, moneyRack))
          + StarryPoints
  {
    forall i | 11 <= i < 16 ensures ShotValue(i, moneyRack) == RackValue(3, moneyRack) { }
    CardTotalSegment(11, 16, RackValue(3, moneyRack), moneyRack);
    forall i | 16 <= i < 21 ensures ShotValue(i, moneyRack) == RackValue(4, moneyRack) { }
    CardTotalSegment(16, 21, RackValue(4, moneyRack), moneyRack);
    CardTotalSegment(21, 22, StarryPoints, moneyRack);
    forall i | 22 <= i < 27 ensures ShotValue(i, moneyRack) == RackValue(5, moneyRack) { }
    CardTotalSegment(22, 27, RackValue(5, moneyRack), moneyRack);
  }

  /** The full card of a turn is worth 36 points when the money-ball rack is
      one of racks 1..5 (exactly one rack pays double) and 31 otherwise. */
  lemma CardTotalOfTurn(moneyRack: int)
    ensures CardTotal(DrawsPerTurn, moneyRack)
         == if 1 <= moneyRack <= RackCount then MaxTurnScore else MaxTurnScore - ShotsPerRack
  {
    CardTotalOpening(moneyRack);
    CardTotalClosing(moneyRack);
  }

  // ---------------------------------------------------------------------------
  // Properties of the score card.

  /** The card never scores below 0 nor above its full total. */
  lemma {:induction false} CardScoreRange(n: nat, moneyRack: int, shootingCap: int, draws: seq<nat>)
    requires n <= |draws|
    ensures 0 <= CardScore(n, moneyRack, shootingCap, draws) <= CardTotal(n, moneyRack)
  {
    if n > 0 {
      CardScoreRange(n - 1, moneyRack, shootingCap, draws);
    }
  }

  /** The card reaches its full total exactly when every shot is made. */
  lemma {:induction false} CardScoreFull(n: nat, moneyRack: int, shootingCap: int, draws: seq<nat>)
    requires n <= |draws|
    ensures CardScore(n, moneyRack, shootingCap, draws) == CardTotal(n, moneyRack)
        <==> forall i :: 0 <= i < n ==> Makes(shootingCap, draws[i])
  {
    if n > 0 {
      CardScoreFull(n - 1, moneyRack, shootingCap, draws);
      CardScoreRange(n - 1, moneyRack, shootingCap, draws);
    }
  }

  /** The card scores 0 exactly when every shot is missed. */
  lemma {:induction false} CardScoreZero(n: nat, moneyRack: int, shootingCap: int, draws: seq<nat>)
    requires n <= |draws|
    ensures CardScore(n, moneyRack, shootingCap, draws) == 0
        <==> forall i :: 0 <= i < n ==> !Makes(shootingCap, draws[i])
  {
    if n > 0 {
      CardScoreZero(n - 1, moneyRack, shootingCap, draws);
      CardScoreRange(n - 1, moneyRack, shootingCap, draws);
    }
  }

  /** Raising the capability never lowers the card's score. */
  lemma {:induction false} CardScoreMonotone(n: nat, moneyRack: int, lowCap: int, highCap: int, draws: seq<nat>)
    requires n <= |draws|
    requires lowCap <= highCap
    ensures CardScore(n, moneyRack, lowCap, draws) <= CardScore(n, moneyRack, highCap, draws)
  {
    if n > 0 {
      CardScoreMonotone(n - 1, moneyRack, lowCap, highCap, draws);
    }
  }

  // ---------------------------------------------------------------------------
  // Properties of a turn.

  /** With the money-ball rack among racks 1..5, a turn scores between 0 and
      2*5 + 4*5 + 2*3 = 36; with any other value for it, at most 31. */
  lemma TurnScoreRange(moneyRack: int, shootingCap: int, draws: seq<nat>)
    requires DrawsPerTurn <= |draws|
    ensures 0 <= TurnScore(moneyRack, shootingCap, draws)
    ensures 1 <= moneyRack <= RackCount ==> TurnScore(moneyRack, shootingCap, draws) <= MaxTurnScore
    ensures TurnScore(moneyRack, shootingCap, draws) <= MaxTurnScore - ShotsPerRack
        || 1 <= moneyRack <= RackCount
  {
    TurnScoreIsCard(moneyRack, shootingCap, draws);
    CardScoreRange(DrawsPerTurn, moneyRack, shootingCap, draws);
    CardTotalOfTurn(moneyRack);
  }

  /** A turn reaches its full card (36 points with the money-ball rack among
      racks 1..5, 31 otherwise) exactly when all 27 shots are made, and
      scores 0 exactly when all 27 are missed. */
  lemma TurnScoreExtremes(moneyRack: int, shootingCap: int, draws: seq<nat>)
    requires DrawsPerTurn <= |draws|
    ensures TurnScore(moneyRack, shootingCap, draws)
         == (if 1 <= moneyRack <= RackCount then MaxTurnScore else MaxTurnScore - ShotsPerRack)
        <==> forall i :: 0 <= i < DrawsPerTurn ==> Makes(shootingCap, draws[i])
    ensures TurnScore(moneyRack, shootingCap, draws) == 0
        <==> forall i :: 0 <= i < DrawsPerTurn ==> !Makes(shootingCap, draws[i])
  {
    TurnScoreIsCard(moneyRack, shootingCap, draws);
    CardTotalOfTurn(moneyRack);
    CardScoreFull(DrawsPerTurn, moneyRack, shootingCap, draws);
    CardScoreZero(DrawsPerTurn, moneyRack, shootingCap, draws);
  }

  /** For the same draws, raising the capability never lowers a turn's score. */
  lemma TurnScoreMonotone(moneyRack: int, lowCap: int, highCap: int, draws: seq<nat>)
    requires DrawsPerTurn <= |draws|
    requires lowCap <= highCap
    ensures TurnScore(moneyRack, lowCap, draws) <= TurnScore(moneyRack, highCap, draws)
  {
    TurnScoreIsCard(moneyRack, lowCap, draws);
    TurnScoreIsCard(moneyRack, highCap, draws);
    CardScoreMonotone(DrawsPerTurn, moneyRack, lowCap, highCap, draws);
  }

  /** A turn depends only on its own 27 draws. */
  lemma {:induction false} TurnThroughPrefix(n: nat, moneyRack: int, shootingCap: int, draws: seq<nat>, more: seq<nat>)
    requires n <= RackCount
    requires DrawsThrough(n) <= |draws|
    ensures TurnScoreThrough(n, moneyRack, shootingCap, draws + more)
         == TurnScoreThrough(n, moneyRack, shootingCap, draws)
  {
    if n > 0 {
      TurnThroughPrefix(n - 1, moneyRack, shootingCap, draws, more);
      var start := DrawsThrough(n - 1);
      assert (draws + more)[start..start + ShotsPerRack] == draws[start..start + ShotsPerRack];
    }
  }

  /** Slicing a slice is slicing the original at shifted bounds. */
  lemma SliceOfSlice(s: seq<nat>, a: nat, b: nat, c: nat, d: nat)
    requires a <= b <= |s| && c <= d <= b - a
    ensures s[a..b][c..d] == s[a + c..a + d]
  {
    assert forall k :: 0 <= k < d - c ==> s[a..b][c..d][k] == s[a + c + k];
  }

  /** A player's turn, taking its draws from position `pos` on. It returns the
      total and the position of the first draw it did not use. */
  method PlayerTurn(moneyRack: int, shootingCap: int, draws: seq<nat>, pos: nat)
    returns (totalScore: int, next: nat)
    requires pos + DrawsPerTurn <= |draws|
    ensures next == pos + DrawsPerTurn
    ensures totalScore == TurnScore(moneyRack, shootingCap, draws[pos..next])
    ensures 0 <= totalScore
    ensures 1 <= moneyRack <= RackCount ==> totalScore <= MaxTurnScore
  {
    ghost var turn := draws[pos..pos + DrawsPerTurn];
    totalScore := 0;
    next := pos;
    var rack := 1;
    while rack <= RackCount
      invariant 1 <= rack <= RackCount + 1
      invariant next == pos + DrawsThrough(rack - 1)
      invariant totalScore == TurnScoreThrough(rack - 1, moneyRack, shootingCap, turn)
    {
      ghost var start := next - pos;
      assert start + ShotsPerRack + (if StarryAfter(rack) then 1 else 0) == DrawsThrough(rack) <= DrawsPerTurn;
      var rackScore;
      rackScore, next := ShootRack(rack, moneyRack, shootingCap, draws, next);
      assert next == pos + start + ShotsPerRack;
      SliceOfSlice(draws, pos, pos + DrawsPerTurn, start, start + ShotsPerRack);
      totalScore := totalScore + rackScore;
      if StarryAfter(rack) {
        assert draws[next] == turn[start + ShotsPerRack];
        totalScore := totalScore + ShootStarryBall(shootingCap, draws[next]);
        next := next + 1;
      }
      rack := rack + 1;
    }
    TurnScoreRange(moneyRack, shootingCap, turn);
  }
}
