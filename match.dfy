/** One match: a score table with one entry per player, filled turn by turn,
    and the winner, the first player holding the highest score. */
module Match {
  import opened Shooting
  import opened Turn

  /** What a player chooses before a turn. */
  datatype Config = Config(moneyRack: int, shootingCap: int)

  /** The ranges the intake prompts enforce: money-ball rack 1..5,
      shooting capability 1..99. */
  predicate ValidConfig(c: Config) {
    1 <= c.moneyRack <= RackCount && 1 <= c.shootingCap <= 99
  }

  /** The draws of player i's turn (0-based) when every player takes 27. */
  function TurnDraws(draws: seq<nat>, i: nat): seq<nat>
    requires DrawsPerTurn * (i + 1) <= |draws|
  {
    draws[DrawsPerTurn * i..DrawsPerTurn * (i + 1)]
  }

  /** `w` is the index of the first occurrence of the maximum of `s`. */
  predicate IsFirstMax(s: seq<int>, w: int) {
    && 0 <= w < |s|
    && (forall j :: 0 <= j < |s| ==> s[j] <= s[w])
    && (forall j :: 0 <= j < w ==> s[j] < s[w])
  }

  /** At most one index is the first occurrence of the maximum. */
  lemma FirstMaxUnique(s: seq<int>, w1: int, w2: int)
    requires IsFirstMax(s, w1) && IsFirstMax(s, w2)
    ensures w1 == w2
  {
    assert s[w1] == s[w2];
  }

  /** Sets the first `numPlayers` scores to zero and leaves the rest alone. */
  method InitializeScores(scores: array<int>, numPlayers: nat)
    requires numPlayers <= scores.Length
    modifies scores
    ensures forall i :: 0 <= i < numPlayers ==> scores[i] == 0
    ensures forall i :: numPlayers <= i < scores.Length ==> scores[i] == old(scores[i])
  {
    for i := 0 to numPlayers
      invariant forall k :: 0 <= k < i ==> scores[k] == 0
      invariant forall k :: i <= k < scores.Length ==> scores[k] == old(scores[k])
    {
      scores[i] := 0;
    }
  }

  /** The index of the winner among the first `numPlayers` scores: the first
      highest score, since a later player must score strictly more to take
      the lead. With no players the loop does not run and the index is 0. */
  method DeclareWinner(scores: array<int>, numPlayers: nat) returns (winnerIndex: nat)
    requires numPlayers <= scores.Length
    ensures numPlayers == 0 ==> winnerIndex == 0
    ensures numPlayers > 0 ==> IsFirstMax(scores[..numPlayers], winnerIndex)
  {
    winnerIndex := 0;
    var i := 1;
    while i < numPlayers
      invariant 1 <= i && (numPlayers > 0 ==> i <= numPlayers)
      invariant numPlayers > 0 ==> IsFirstMax(scores[..i], winnerIndex)
      invariant numPlayers == 0 ==> winnerIndex == 0
    {
      if scores[i] > scores[winnerIndex] {
        winnerIndex := i;
      }
      i := i + 1;
    }
  }

  /** One match: a fresh score table, each player's turn in order (player
      i + 1 takes the 27 draws after those of the players before), and the
      winner's index (the announced player number is that index + 1). */
  method PlayGame(numPlayers: nat, configs: seq<Config>, draws: seq<nat>)
    returns (scores: array<int>, winnerIndex: nat, next: nat)
    requires |configs| == numPlayers
    requires DrawsPerTurn * numPlayers <= |draws|
    ensures fresh(scores) && scores.Length == numPlayers
    ensures next == DrawsPerTurn * numPlayers
    ensures forall i :: 0 <= i < numPlayers ==>
      scores[i] == TurnScore(configs[i].moneyRack, configs[i].shootingCap, TurnDraws(draws, i))
    ensures forall i :: 0 <= i < numPlayers ==> 0 <= scores[i]
    ensures forall i :: 0 <= i < numPlayers && ValidConfig(configs[i]) ==> scores[i] <= MaxTurnScore
    ensures numPlayers == 0 ==> winnerIndex == 0
    ensures numPlayers > 0 ==> IsFirstMax(scores[..], winnerIndex)
  {
    scores := new int[numPlayers];
    InitializeScores(scores, numPlayers);
    next := 0;
    for i := 0 to numPlayers
      invariant next == DrawsPerTurn * i
      invariant forall k :: 0 <= k < i ==>
        scores[k] == TurnScore(configs[k].moneyRack, configs[k].shootingCap, TurnDraws(draws, k))
      invariant forall k :: 0 <= k < i ==> 0 <= scores[k]
      invariant forall k :: 0 <= k < i && ValidConfig(configs[k]) ==> scores[k] <= MaxTurnScore
      invariant forall k :: i <= k < numPlayers ==> scores[k] == 0
    {
      var total;
      total, next := PlayerTurn(configs[i].moneyRack, configs[i].shootingCap, draws, next);
      scores[i] := total;
    }
    winnerIndex := DeclareWinner(scores, numPlayers);
    assert scores[..numPlayers] == scores[..];
  }
}
