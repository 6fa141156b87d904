# Tennis scoring: the state machine and two game sessions

This project models the scoring core of a tennis refactoring kata. It covers three parts.

- **The state machine** (`GameStateMatchine`). A closed set of immutable game states:
  - `Generic(s, r)` for an untied score with both players at forty or below;
  - `All(n)` for a tie below deuce;
  - `Deuce`;
  - `AdvantageServer` and `AdvantageReceiver`;
  - `WinServer` and `WinReceiver`.

  Every state answers four things: its successor when the server or the receiver wins a point, its rendering against the two player names, and its flip (the same state with the roles exchanged). A bounded lookup key (both points in [0, 4]) indexes a table. `computeInitialState` fills that table in place:
  1. it seeds deuce, the two advantages and the wins;
  2. it sweeps the keys with server score ≥ receiver score from 3-3 down to 1-0, looking up both successors;
  3. it stores the flip of each generic state at the mirrored key;
  4. it wraps 1-0 and 0-1 into the Love-All start state.
- **`TennisGame6`**, the session over the state machine. It keeps two fixed names and the current state. Each point replaces the state with its successor; an unknown name or a won game throws and leaves the state alone.
- **`TennisGame5`**, an independent flat-table session. It keeps a 6×(6/5) table of score texts and a two-element `points` array. Each point increments one count in place, turns 4-4 back into 3-3, and rolls the increment back when the new cell is null.

The Dafny modules follow that structure:

| module | contents |
|---|---|
| `Wrappers` | `Option`, `Result` and the error kinds that stand for the Java exceptions |
| `LookupKeys` | the lookup key: its validating constructor, increments, flip, `equals`, and `hashCode` on `bv32` |
| `GameStates` | the `State` datatype, the validating `Generic`/`All` constructors, the transitions, `translate`, `getScore`, `flipPlayerScores` |
| `StateTable` | `StateAt`, a declarative reference table; the imperative builder `ComputeInitialState` proved equal to it; lemmas on transitions, flips and play |
| `Game6` | the `TennisGame6` class, its name dispatch and the end-to-end scenarios |
| `Game5` | the `TennisGame5` class over an `array<int>`, the step function it is proved against, and the guarded step |
| `CrossCheck` | with the names "player1" and "player2", the guarded flat-table game and the state machine show the same text after every sequence of points |

Java exceptions are `Err` values. `IllegalArgumentException` from a constructor becomes `InvalidScore` or `InvalidPlayers`; an unknown name becomes `UnknownPlayer`; `IllegalStateException` becomes `AlreadyWon`; `ArrayIndexOutOfBoundsException` becomes `IndexOutOfBounds`. A `Result` is used wherever the source can throw to its caller.

`TennisGame6` checks only that the two names differ (and are not null), not that they are non-empty.
As written, `TennisGame5` does not behave like the state machine after a win; see Findings.

## Model

| member | source | states |
|---|---|---|
| LookupKeys.NewKey | src/main/java/GameStateMatchine.java:89-98 | the key is built exactly when both components lie in [0, 4], and it holds those components; otherwise the result is the invalid-score error |
| LookupKeys.IncrementServer | src/main/java/GameStateMatchine.java:100-102 | succeeds exactly when the server score is below 4, giving the key one server point further on |
| LookupKeys.IncrementReceiver | src/main/java/GameStateMatchine.java:104-106 | succeeds exactly when the receiver score is below 4, giving the key one receiver point further on |
| LookupKeys.FlipKey | src/main/java/GameStateMatchine.java:108-110 | a valid key always flips to a valid key with the two components swapped |
| LookupKeys.FlipKeyInvolutive | src/main/java/GameStateMatchine.java:108-110 | flipping a key twice gives back an equal key |
| LookupKeys.Equals | src/main/java/GameStateMatchine.java:121-131 | two keys are equal exactly when both components are equal |
| LookupKeys.HashIsScoreTimesEight | src/main/java/GameStateMatchine.java:113-118 | on a valid key, `rotateLeft(s, 3) ^ r` equals `8 * s + r` in 32-bit arithmetic |
| LookupKeys.HashInjective | src/test/java/GameStateLookupKeyTest.java:11-21 | the hashes of two valid keys are equal exactly when the keys are equal, so the 25 keys have 25 distinct hashes |
| GameStates.NewGeneric | src/main/java/GameStateMatchine.java:167-186 | a generic state is built exactly when both scores lie in [0, 3], and it holds the given scores and successors |
| GameStates.NewAll | src/main/java/GameStateMatchine.java:233-245 | a tie state is built exactly when the score lies in [0, 2] |
| GameStates.ServerWonPoint | src/main/java/GameState.java:14-22 | the server's point fails, with "already won", exactly on the two win states; otherwise it yields a successor, which is well formed whenever the state is |
| GameStates.ReceiverWonPoint | src/main/java/GameState.java:24-32 | the same for the receiver's point |
| GameStates.Translate | src/main/java/GameStateMatchine.java:140-153 | succeeds exactly on 0..3 with Love, Fifteen, Thirty, Forty; any other score is an error |
| GameStates.TranslateInjective | src/main/java/GameStateMatchine.java:140-153 | distinct scores in 0..3 get distinct names |
| GameStates.GetScore | src/main/java/GameStateMatchine.java:200-393 | `getScore` of every state variant: a well-formed state always renders; a generic state renders "X-Y" and a tie "X-All" from the score names; deuce renders "Deuce"; an advantage renders "Advantage " and a win "Win for " followed by that player's name from the context |
| GameStates.FlipPlayerScores | src/main/java/GameStateMatchine.java:213-218 | flipping keeps a generic state generic and a win a win |
| GameStates.FlipInvolutive | src/main/java/GameStateMatchine.java:213-218 | flipping any state twice, recursively through a generic state's successors, gives back the state |
| GameStates.FlipWellFormed | src/main/java/GameStateMatchine.java:213-218 | flipping keeps every score inside the bounds the constructors enforce |
| GameStates.FlipRendersWithSwappedNames | src/main/java/GameStateMatchine.java:213-218 | a flipped state shows the same text against the swapped names; a flipped generic state shows the score reversed |
| StateTable.StateAt | src/main/java/GameStateMatchine.java:25-72 | the entry of the finished table at every valid key is well formed |
| StateTable.InitialState | src/main/java/GameStateMatchine.java:71-76 | the start state is `All(0)` whose successors are the table's entries at 1-0 and 0-1 |
| StateTable.SpecialEntries | src/main/java/GameStateMatchine.java:30-41 | 3-3 and 4-4 hold deuce, 4-3 and 3-4 the advantages, 4-0..2 and 0..2-4 the wins |
| StateTable.FlipStateAt | src/main/java/GameStateMatchine.java:57-64 | the entry at (r, s) is the flip of the entry at (s, r), for every key |
| StateTable.Transitions | src/main/java/GameStateMatchine.java:283-292 | below 3-3 a point leads one score further; deuce leads to the advantages; an advantage leads to the win or back to deuce |
| StateTable.TransitionsStayInTable | src/main/java/GameState.java:19 | every successful transition from a table state lands on a table state |
| StateTable.FlipCommutes | src/main/java/GameStateMatchine.java:213-218 | the server's point from a flipped state is the flip of the receiver's point from the state, and the other way round |
| StateTable.PlaySymmetric | src/main/java/GameStateMatchine.java:57-64 | playing role-swapped points from a flipped state reaches the flip of the original end state |
| StateTable.PlayFromLoveAllSymmetric | src/main/java/GameStateMatchine.java:57-64 | the same, from Love-All |
| StateTable.PlayStaysInTable | src/main/java/GameState.java:14-32 | every state reached by any sequence of points is a table state |
| StateTable.WonGameIsFinal | src/main/java/GameStateMatchine.java:388-407 | once a game is won, no sequence of points changes the state |
| StateTable.InitialRendersLoveAll | src/main/java/GameStateMatchine.java:71 | the start state renders "Love-All" against any names |
| StateTable.ScoreStep | src/main/java/GameStateMatchine.java:283-292 | from a state that is not won, a server point moves to the state of one more server point, and a receiver point to the state of one more receiver point, as the counts name them |
| StateTable.PlayAppend | src/main/java/TennisGame6.java:34-42 | one more point at the end of a sequence is one more transition, and a refused point leaves the state |
| StateTable.PlayFollowsScore | src/main/java/GameStateMatchine.java:25-72 | until a game from Love-All is won, its state is the one its two point counts name, whatever the order of the points |
| StateTable.LevelAtThreeIsDeuce | src/main/java/GameStateMatchine.java:30-31 | every game not yet won in which both players have the same 3 or more points is at deuce, whatever the order of the points |
| StateTable.SuccessorsPresent | src/main/java/GameStateMatchine.java:50-56 | at each key the sweep visits, both successor keys (one point further on for either player, so within [0, 4]) are already in the table, holding their `StateAt` entries |
| StateTable.EntryFromSuccessors | src/main/java/GameStateMatchine.java:57-62 | the tie or generic state the sweep builds from the two looked-up successors is the table's entry |
| StateTable.SeedSpecialStates | src/main/java/GameStateMatchine.java:27-41 | the seeding phase leaves exactly deuce, the advantages and the wins in the map |
| StateTable.FillRow | src/main/java/GameStateMatchine.java:51-68 | one row of the sweep adds each missing key of the row, and its mirror, with the table's entry |
| StateTable.ComputeInitialState | src/main/java/GameStateMatchine.java:25-72 | the built map holds every valid key except 0-0, each with its `StateAt` entry, and the returned state is Love-All |
| Game6.NextState | src/main/java/TennisGame6.java:34-42 | the server's name is checked first, then the receiver's; any other name is the unknown-player error |
| Game6.WonGameKeepsFailing | src/main/java/TennisGame6.java:34-42 | in a won game every later point by either player fails again with "already won" |
| Game6.FourStraightPointsWin | src/main/java/TennisGame6.java:34-47 | with A serving, four points for A reach "Win for A", and a fifth point fails with "already won" |
| Game6.AlternatingPointsReachDeuce | src/main/java/GameStateMatchine.java:30-31 | alternating points up to 3-3 reach deuce |
| Game6.AdvantageAndBack | src/main/java/GameStateMatchine.java:326-343 | from deuce A's point shows "Advantage A"; then B's point returns to deuce and A's point shows "Win for A" |
| Game6.TennisGame6.constructor | src/main/java/TennisGame6.java:10-31 | the session holds the two names, a context showing them, and Love-All |
| Game6.TennisGame6.Create | src/main/java/TennisGame6.java:10-18 | equal names are rejected with the invalid-players error; otherwise a fresh session shows "Love-All" |
| Game6.TennisGame6.WonPoint | src/main/java/TennisGame6.java:34-42 | the new state is the successor `NextState` names; on any failure the state is unchanged; the session stays valid |
| Game6.TennisGame6.GetScore | src/main/java/TennisGame6.java:45-47 | the score is the current state rendered against the fixed names, and it always renders |
| Game5.ShowableCounts | src/main/java/TennisGame5.java:9-16 | the non-null cells are exactly the counts 0..4 each except 4-4, plus 5-3 and 3-5 |
| Game5.WonPointStep | src/main/java/TennisGame5.java:28-47 | with (a, b) the counts after the increment and the 4-4 reset: outside the table, an index error with (a, b) kept; on a non-null cell the point succeeds and the counts become (a, b); "already won" exactly on a null cell, with the counts restored. The named count goes up by one or the reset happens; an index error happens exactly when non-negative counts leave the table; the counts are never left at 4-4 |
| Game5.GuardedWonPointStep | src/main/java/TennisGame5.java:43-46 | a point fails exactly on a win cell, leaving the counts alone; otherwise it is exactly `WonPointStep` (the increment and the 4-4 reset); the counts always name a non-null cell |
| Game5.WonGameAcceptsPoint | src/main/java/TennisGame5.java:43-46 | as written, 4-2 is "Win for player1", yet a point for player 2 succeeds and shows "Advantage player1" |
| Game5.WinFromAdvantageOverrunsTable | src/main/java/TennisGame5.java:13-15 | as written, a point after 5-3 or 3-5 reads past the table and keeps the increment |
| Game5.TennisGame5.constructor | src/main/java/TennisGame5.java:20-25 | the names map to indices 0 and 1, the counts start at 0-0, and the score is "Love-All" |
| Game5.TennisGame5.WonPoint | src/main/java/TennisGame5.java:28-47 | an unknown name fails before the counts are touched; otherwise the array holds exactly the counts `WonPointStep` gives, and the counts stay consistent with the table |
| Game5.TennisGame5.GetScore | src/main/java/TennisGame5.java:50-52 | inside the table the score is the cell's text, never null; outside it the result is the index error |
| CrossCheck.RenderAgrees | src/main/java/TennisGame5.java:9-16 | every non-null cell is the text the corresponding state renders for "player1"/"player2" |
| CrossCheck.StepAgrees | src/main/java/TennisGame5.java:28-47 | a guarded point moves the counts as the state machine moves the state: both fail in the same cases with the same error, and otherwise the new counts stand for the new state |
| CrossCheck.PlayCounts | src/main/java/TennisGame5.java:50-52 | with the guard, the counts name a non-null cell after any sequence of points |
| CrossCheck.GamesAgree | src/main/java/TennisGame5.java:28-47 | with the won-game guard, after any sequence of points the counts stand for the state the machine reaches |
| CrossCheck.SessionsShowSameScore | src/main/java/TennisGame6.java:45-47 | with the won-game guard on the flat-table session, both sessions show the same score from Love-All after every sequence of points |
| CrossCheck.AsWrittenDisagrees | src/main/java/TennisGame5.java:43-46 | as written, four points for player 1 and then three for player 2 show "Advantage player1" in the flat table, while the state machine stays at the win |

## Left out

- `Objects.requireNonNull` checks and null names: Dafny values are never null.
- Exception messages and the `toString` debug texts: only the error kind is kept.
- Java object identity and the shared singletons: states are values, so "the same Deuce object" is equality of values. Java's flip creates equal copies, so values lose nothing observable.
- `HashMap` internals: the table is a Dafny `map` from keys to states. `hashCode` is modelled and proved injective, but nothing relies on hashing.
- The display context passed to `serverWonPoint`/`receiverWonPoint`: it only feeds exception messages, so the transitions do not take it. `getScore` does take it.
- Thread safety, and the static initialisation that caches the Love-All state: the model is sequential. `InitialState` is the value the builder returns.
- `computeInitialState` is one Java method. Here it is three methods with the same loops: `SeedSpecialStates`, `FillRow` for the inner loop, and `ComputeInitialState`. The `HashMap` is a `map` value that each step reassigns.
- The `TennisGame` interface and the other kata implementations are not part of this model.
- Game5.TennisGame5.constructor: `Map.of` throws on equal names; the model requires distinct names instead of modelling that library exception.
- Game5.TennisGame5.WonPoint: the counts are unbounded integers. Java's `int` overflow after about 2^31 repeated calls past the table is not modelled.

## Findings

| source | as written | input that shows it | evidently intended | confidence | as-written member | corrected member |
|---|---|---|---|---|---|---|
| src/main/java/TennisGame5.java:43 | the null-cell check is the only guard against points after a win, and some cells one point on from a win are not null (4-3 from 4-2, 3-4 from 2-4) | at 4-2 ("Win for player1") player 2 scores: the call succeeds and the score becomes "Advantage player1" | a point after a won game throws "already won" and changes nothing, as the state machine does | high, not executed | Game5.WonGameAcceptsPoint | Game5.GuardedWonPointStep |
| src/main/java/TennisGame5.java:43 | the cell is read with no bounds check, and rows 4 and 5 are shorter than row 3 | at 5-3 player 1 scores (row 6 is read), or at 3-5 either player scores (column 5 of row 4, or column 6 of row 3): an index exception, with the increment kept | a point after a won game throws "already won" and leaves the counts | high, not executed | Game5.WinFromAdvantageOverrunsTable | Game5.GuardedWonPointStep |
