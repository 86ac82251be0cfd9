# Basketball shooting contest: scoring and winner logic

This project models the game logic of a console basketball shooting contest
for two or more players, and proves properties of it.

Each player picks a money-ball rack (1 to 5) and a shooting capability
(1 to 99). The player then shoots five racks of five balls. A made ball is
worth 2 points in the money-ball rack and 1 point in any other rack. After
racks 2 and 4 the player also takes a starry ball, worth 3 points. Scores go
into a table with one entry per player. The winner is the first player whose
score is the highest.

The program draws its randomness from `rand()`. In this model every call of
`rand()` is replaced by the next element of a given sequence of draws. The
draws are the non-negative values `rand()` would have returned. A shot is made
when `draw % 100 < capability`, exactly as the program tests it. The methods
take the position of their first draw and return the position after their last
one. This cursor stands in for the generator's hidden state.

Modules, one per component:

- `Shooting` (`shooting.dfy`): the make test, one ball, one starry ball, and
  one rack. `ShootRack` is a loop checked against the function `RackScore`.
- `Turn` (`turn.dfy`): one player's turn. `PlayerTurn` is a loop checked
  against the recursive function `TurnScore`. A second, independent
  description of a turn is a score card. The card gives the point value of the
  shot taken with each of the 27 draws (`ShotValue`), and `CardScore` adds up
  the values of the made shots. `TurnScoreIsCard` proves that the two
  descriptions agree. The bounds, the extreme cases and monotonicity are then
  proved on the card.
- `Match` (`match.dfy`): the score table and the winner. `InitializeScores`,
  `PlayGame` and `DeclareWinner` work on a Dafny `array<int>` in place, as the
  program does.
- `Intake` (`intake.dfy`): the two validated prompts, over a finite sequence of
  integer tokens.

A turn's maximum is 36: 2 * 5 for the money-ball rack, 4 * 5 for the other
racks and 2 * 3 for the starry balls. Integer widths never matter for scores
and draws, because no score exceeds 36. They do matter for the console tokens
the prompts read into a 32-bit `int`; `Intake` models that width.

## Model

| member | source | states |
|---|---|---|
| `Shooting.ShootBall` | CS162_projectM.cpp:168-176 | A ball scores `points` or 0. For a non-zero value it scores `points` exactly when `draw % 100 < shootingCap`. |
| `Shooting.ShootStarryBall` | CS162_projectM.cpp:183-192 | A starry ball uses one draw. It scores 3 exactly when the draw is a make and 0 otherwise. |
| `Shooting.ShotMonotone` | CS162_projectM.cpp:168-192 | For the same draw, a higher capability never gives a ball or a starry ball a lower score. |
| `Shooting.MadeCountMonotone` | CS162_projectM.cpp:169 | For the same draws, a higher capability makes at least as many shots, because the make test is `draw % 100 < cap`. |
| `Shooting.ShotsScoreIsValueTimesMakes` | CS162_projectM.cpp:150-158 | Shots that are all worth the same value score that value times the number of makes. |
| `Shooting.RackScoreRange` | CS162_projectM.cpp:146-162 | A rack's value is 2 when `rack == moneyRack` and 1 otherwise. Its score is that value times its makes, a multiple of the value, within [0, 5 * value]. |
| `Shooting.RackScoreMonotone` | CS162_projectM.cpp:146-162 | For the same draws, raising the capability never lowers a rack's score. |
| `Shooting.ShootRack` | CS162_projectM.cpp:146-162 | The loop uses exactly the 5 draws at `pos..pos+5`. Its total is `RackScore` of them, equal to the value times the makes, within [0, 5 * value]. |
| `Turn.DrawsThrough` | CS162_projectM.cpp:94-100 | Racks 1..n with their starry balls use 5n draws, plus one for each of racks 2 and 4 that has been shot. |
| `Turn.TurnScoreIsCard` | CS162_projectM.cpp:94-100 | A turn's score is the per-draw score card summed over its made shots. On the card, draw 10 and draw 21 are the starry balls worth 3, and each other draw is worth its rack's value. |
| `Turn.CardTotalOfTurn` | CS162_projectM.cpp:94-100 | A full card is worth 36 when the money-ball rack is in 1..5, because exactly one rack pays double. It is worth 31 otherwise. |
| `Turn.TurnScoreRange` | CS162_projectM.cpp:94-100 | A turn scores at least 0. It scores at most 36 when the money-ball rack is in 1..5, and at most 31 otherwise. |
| `Turn.TurnScoreExtremes` | CS162_projectM.cpp:94-100 | A turn reaches its full total (36 with the money-ball rack in 1..5, 31 otherwise) if and only if all 27 shots are made. For any money-ball rack, it scores 0 if and only if all 27 are missed. |
| `Turn.TurnScoreMonotone` | CS162_projectM.cpp:94-100 | For the same draws, raising the capability never lowers a turn's score. |
| `Turn.TurnThroughPrefix` | CS162_projectM.cpp:94-100 | A turn's score depends only on its own draws. Draws appended after them change nothing. |
| `Turn.PlayerTurn` | CS162_projectM.cpp:89-104 | The loop over racks 1..5, with a starry ball after racks 2 and 4, uses exactly 27 draws. Its total is `TurnScore` of those draws, at least 0, and at most 36 for a money-ball rack in 1..5. |
| `Match.FirstMaxUnique` | CS162_projectM.cpp:198-206 | At most one index is the first occurrence of the maximum, so the winner rule picks exactly one player. |
| `Match.InitializeScores` | CS162_projectM.cpp:79-83 | Entries `0..numPlayers` become 0. Every other entry is unchanged. |
| `Match.DeclareWinner` | CS162_projectM.cpp:198-206 | For one or more players, the result is the first index holding the maximum: no score is higher, and every earlier score is strictly lower, so ties go to the earliest player. With no players it is 0. |
| `Match.PlayGame` | CS162_projectM.cpp:63-73 | The table is new and has one entry per player. Entry i holds player i+1's turn total on draws `27i..27i+27`, which is at least 0 and at most 36 for a valid configuration. The winner is the first maximum of the table. Exactly 27 draws per player are used. |
| `Intake.ReadInRange` | CS162_projectM.cpp:112-119 | The prompt returns the first token in [lo, hi] and the number of tokens read. Every token before it fits in an `int` and is out of range. No value is found when all tokens are read and rejected, or when a token outside the 32-bit `int` range fails the stream, after which the program's prompt repeats for ever. |
| `Intake.GetMoneyBallRack` | CS162_projectM.cpp:110-121 | The money-ball rack is the first token in 1..5, after rejecting every earlier token. No value is found when the tokens run out or a token does not fit in an `int`. |
| `Intake.GetShootingCapability` | CS162_projectM.cpp:127-138 | The capability is the first token in 1..99, after rejecting every earlier token. No value is found when the tokens run out or a token does not fit in an `int`. |

## Left out

- Console output: prompts, the per-shot glyphs `X`, `M`, `S` and `_`, the subtotal lines and the winner announcement. These are formatting only. `DeclareWinner` returns the index; the program prints that index + 1.
- `srand(time(nullptr))` and the `rand()` generator itself. The model takes the draws as an input sequence and makes no claim about their distribution.
- `main`'s session loop, its exit codes 0 and 1, `GetNumPlayers` and `AskPlayAgain`. These are interactive control flow around console reads. The model's `PlayGame` accepts any player count, including the ones `main` rejects.
- `PlayerTurn` reads the money-ball rack and the capability itself. The model passes them in as parameters, and `Intake` models the two prompts separately. The turn's `playerNumber` parameter is unused in the program and is not modelled.
- An endless draw stream. The model's methods require enough draws: 5 for a rack, 27 for a turn, 27 per player for a match.
- Running out of input. When the input ends, the program's read fails and leaves the variable unchanged, so the prompt has no defined outcome. If a rejected token was read before, the prompt repeats for ever on that value. If no token was read at all, it tests an uninitialised variable. The model reports "not found" in both cases.
- Intake.ReadInRange: a token outside the 32-bit `int` range is modelled as ending the prompt with "not found". The model does not say which value the `int` holds after that failed read, because the program never returns from the prompt.
- Non-numeric console input. The program leaves its behaviour undefined.
- `new[]`/`delete[]` of the score table. The model uses a freshly allocated Dafny array, and memory release has no counterpart.
- `ShootRack` has one loop per branch in the program, for the values 2 and 1. The model has a single loop over the chosen value, which behaves the same.
