/** The flat-table implementation of the same scoring rules: a fixed table
    of score texts indexed by both players' point counts, and a two-element
    array of counts that each point updates in place. */
module Game5 {
  import opened Wrappers

  const WinPlayer1 := "Win for player1"
  const WinPlayer2 := "Win for player2"

  /** `SCORE_TABLE`: rows are player 1's points, columns player 2's; `None`
      is a null cell. Rows 0 to 3 have six cells, rows 4 and 5 five. */
  const ScoreTable: seq<seq<Option<string>>> := [
    [Some("Love-All"), Some("Love-Fifteen"), Some("Love-Thirty"), Some("Love-Forty"), Some(WinPlayer2), None],
    [Some("Fifteen-Love"), Some("Fifteen-All"), Some("Fifteen-Thirty"), Some("Fifteen-Forty"), Some(WinPlayer2), None],
    [Some("Thirty-Love"), Some("Thirty-Fifteen"), Some("Thirty-All"), Some("Thirty-Forty"), Some(WinPlayer2), None],
    [Some("Forty-Love"), Some("Forty-Fifteen"), Some("Forty-Thirty"), Some("Deuce"), Some("Advantage player2"), Some(WinPlayer2)],
    [Some(WinPlayer1), Some(WinPlayer1), Some(WinPlayer1), Some("Advantage player1"), None],
    [None, None, None, Some(WinPlayer1), None]
  ]

  /** Whether `SCORE_TABLE[a][b]` can be read without an index exception. */
  predicate InBounds(a: int, b: int) {
    0 <= a < |ScoreTable| && 0 <= b < |ScoreTable[a]|
  }

  function Cell(a: int, b: int): Option<string>
    requires InBounds(a, b)
  {
    ScoreTable[a][b]
  }

  /** The counts that name a non-null cell: the scores a game can show. */
  predicate Showable(a: int, b: int) {
    InBounds(a, b) && Cell(a, b).Some?
  }

  /** The invariant `wonPoint` keeps: counts inside the table name a
      non-null cell (counts outside it are left by an index exception). */
  predicate Consistent(a: int, b: int) {
    InBounds(a, b) ==> Cell(a, b).Some?
  }

  /** The showable counts are exactly 0..4 each except 4-4, and 5-3 and 3-5. */
  lemma ShowableCounts(a: int, b: int)
    ensures Showable(a, b) <==>
      (0 <= a <= 4 && 0 <= b <= 4 && !(a == 4 && b == 4)) || (a == 5 && b == 3) || (a == 3 && b == 5)
  {
  }

  /** The outcome of one `wonPoint` call and the counts it leaves. */
  datatype Step = Step(outcome: Result<()>, p1: int, p2: int)

  /** The counts a point for the player at `index` moves to before the cell
      is read: one more for that player, with 4-4 turned back into 3-3. */
  function Landing(p1: int, p2: int, index: int): (int, int)
    requires index == 0 || index == 1
  {
    var (a, b) := if index == 0 then (p1 + 1, p2) else (p1, p2 + 1);
    if a == 4 && b == 4 then (3, 3) else (a, b)
  }

  /** `wonPoint` for the player at `index`, as written: increment that
      player's count, turn 4-4 back into 3-3, then read the new cell; a
      null cell undoes the increment and throws "already won", and counts
      outside the table throw an index exception with the increment kept. */
  function WonPointStep(p1: int, p2: int, index: int): (s: Step)
    requires index == 0 || index == 1
    ensures var (a, b) := Landing(p1, p2, index);
            !InBounds(a, b) ==> s == Step(Err(IndexOutOfBounds), a, b)
    ensures var (a, b) := Landing(p1, p2, index);
            InBounds(a, b) && Cell(a, b).Some? ==> s == Step(Ok(()), a, b)
    ensures var (a, b) := Landing(p1, p2, index);
            s.outcome == Err(AlreadyWon) <==> InBounds(a, b) && Cell(a, b).None?
    ensures s.outcome.Err? ==> s.outcome.error == AlreadyWon || s.outcome.error == IndexOutOfBounds
    ensures s.outcome == Err(IndexOutOfBounds) ==> !InBounds(s.p1, s.p2)
    ensures p1 >= 0 && p2 >= 0 ==> (s.outcome == Err(IndexOutOfBounds) <==> !InBounds(s.p1, s.p2))
    ensures s.outcome.Ok? ==> Showable(s.p1, s.p2)
    ensures s.outcome == Err(AlreadyWon) ==> s.p1 == p1 && s.p2 == p2
    ensures s.outcome != Err(AlreadyWon) ==>
      if index == 0 then (s.p1 == p1 + 1 && s.p2 == p2) || (p1 == 3 && p2 == 4 && s.p1 == 3 && s.p2 == 3)
      else (s.p1 == p1 && s.p2 == p2 + 1) || (p1 == 4 && p2 == 3 && s.p1 == 3 && s.p2 == 3)
    ensures !(s.p1 == 4 && s.p2 == 4) || (p1 == 4 && p2 == 4 && s.outcome == Err(AlreadyWon))
    ensures Consistent(p1, p2) ==> Consistent(s.p1, s.p2)
  {
    var (a, b) := Landing(p1, p2, index);
    if !InBounds(a, b) then Step(Err(IndexOutOfBounds), a, b)
    else if Cell(a, b).None? then
      if index == 0 then Step(Err(AlreadyWon), a - 1, b) else Step(Err(AlreadyWon), a, b - 1)
    else Step(Ok(()), a, b)
  }

  /** Whether a cell announces a won game. */
  predicate IsWinCell(cell: Option<string>) {
    cell == Some(WinPlayer1) || cell == Some(WinPlayer2)
  }

  /** `wonPoint` as evidently intended: a point after the game is won throws
      "already won" before any count moves; otherwise as written. */
  function GuardedWonPointStep(p1: int, p2: int, index: int): (s: Step)
    requires index == 0 || index == 1
    requires Showable(p1, p2)
    ensures s.outcome.Err? <==> IsWinCell(Cell(p1, p2))
    ensures s.outcome.Err? ==> s == Step(Err(AlreadyWon), p1, p2)
    ensures !IsWinCell(Cell(p1, p2)) ==> s == WonPointStep(p1, p2, index)
    ensures Showable(s.p1, s.p2)
  {
    if IsWinCell(Cell(p1, p2)) then Step(Err(AlreadyWon), p1, p2)
    else
      ShowableCounts(p1, p2);
      WonPointStep(p1, p2, index)
  }

  /** Counterexample to "a won game refuses further points": player 1 wins
      4-2, player 2 then scores and the table shows an advantage again. */
  lemma WonGameAcceptsPoint()
    ensures Cell(4, 2) == Some(WinPlayer1)
    ensures WonPointStep(4, 2, 1) == Step(Ok(()), 4, 3)
    ensures Cell(4, 3) == Some("Advantage player1")
    ensures GuardedWonPointStep(4, 2, 1) == Step(Err(AlreadyWon), 4, 2)
  {
  }

  /** Counterexample to "a won game throws 'already won'": after a win from
      advantage the next point reads past the table, and the increment stays. */
  lemma WinFromAdvantageOverrunsTable()
    ensures Cell(5, 3) == Some(WinPlayer1) && Cell(3, 5) == Some(WinPlayer2)
    ensures WonPointStep(5, 3, 0) == Step(Err(IndexOutOfBounds), 6, 3)
    ensures WonPointStep(3, 5, 0) == Step(Err(IndexOutOfBounds), 4, 5)
    ensures WonPointStep(3, 5, 1) == Step(Err(IndexOutOfBounds), 3, 6)
    ensures GuardedWonPointStep(5, 3, 0) == Step(Err(AlreadyWon), 5, 3)
  {
  }

  class TennisGame5 {
    const playerIndices: map<string, int>
    const points: array<int>

    ghost predicate Valid()
      reads this, points
    {
      points.Length == 2
      && (forall name :: name in playerIndices ==> playerIndices[name] == 0 || playerIndices[name] == 1)
      && points[0] >= 0 && points[1] >= 0
      && Consistent(points[0], points[1])
    }

    /** `new TennisGame5(player1, player2)`: the names index the counts,
        which start at 0-0, "Love-All". */
    constructor (player1: string, player2: string)
      requires player1 != player2
      ensures Valid() && fresh(points)
      ensures playerIndices == map[player1 := 0, player2 := 1]
      ensures points[..] == [0, 0]
      ensures GetScore() == Ok("Love-All")
    {
      playerIndices := map[player1 := 0, player2 := 1];
      points := new int[] [0, 0];
    }

    /** `wonPoint`: an unknown name throws before the counts are touched;
        otherwise the counts change as `WonPointStep` says. */
    method WonPoint(playerName: string) returns (outcome: Result<()>)
      requires Valid()
      modifies points
      ensures Valid()
      ensures playerName !in playerIndices ==> outcome == Err(UnknownPlayer) && points[..] == old(points[..])
      ensures playerName in playerIndices ==>
        var s := WonPointStep(old(points[0]), old(points[1]), playerIndices[playerName]);
        outcome == s.outcome && points[..] == [s.p1, s.p2]
    {
      if playerName !in playerIndices {
        return Err(UnknownPlayer);
      }
      var index := playerIndices[playerName];
      points[index] := points[index] + 1;

      // another deuce: back to 3-3
      if points[0] == 4 && points[1] == 4 {
        points[0] := 3;
        points[1] := 3;
      }

      if !InBounds(points[0], points[1]) {
        return Err(IndexOutOfBounds);
      }
      if ScoreTable[points[0]][points[1]].None? {
        points[index] := points[index] - 1;
        return Err(AlreadyWon);
      }
      return Ok(());
    }

    /** `getScore`: the cell the counts name; never null, and an index
        exception only once a point has run past the table. */
    function GetScore(): (r: Result<string>)
      reads this, points
      requires Valid()
      ensures r.Ok? <==> InBounds(points[0], points[1])
      ensures r.Ok? ==> Cell(points[0], points[1]) == Some(r.value)
      ensures r.Err? ==> r.error == IndexOutOfBounds
    {
      if !InBounds(points[0], points[1]) then Err(IndexOutOfBounds)
      else Ok(ScoreTable[points[0]][points[1]].value)
    }
  }
}
