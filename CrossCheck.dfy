/** The flat table and the state machine implement the same game: with the
    names "player1" (serving) and "player2", every count pair the table can
    show corresponds to a state that renders the same text, and each point
    moves both the same way. */
module CrossCheck {
  import opened Wrappers
  import opened GameStates
  import opened StateTable
  import opened Game5

  /** The display context of a game between "player1" and "player2". */
  function Players(): (ctx: DisplayContext)
    ensures ctx.server == "player1" && ctx.receiver == "player2"
  {
    DisplayContext("player1", "player2")
  }

  /** The state the counts stand for: 5-3 and 3-5 are the wins after an
      advantage, every other showable pair is the table entry. */
  function StateOf(a: int, b: int): (st: State)
    requires Showable(a, b)
    ensures InTable(st)
  {
    ShowableCounts(a, b);
    if a == 5 then
      assert WinServer == StateAt(4, 0);
      WinServer
    else if b == 5 then
      assert WinReceiver == StateAt(0, 4);
      WinReceiver
    else StateAt(a, b)
  }

  /** Every showable cell holds the text its state renders. */
  lemma RenderAgrees(a: int, b: int)
    requires Showable(a, b)
    ensures GetScore(StateOf(a, b), Players()) == Ok(Cell(a, b).value)
  {
    ShowableCounts(a, b);
    if a == 5 || b == 5 || (a == 4 && b <= 2) || (b == 4 && a <= 2) {
      RenderWins(a, b);
    } else if a == 0 {
      RenderLoveRow(b);
    } else if a == 1 {
      RenderFifteenRow(b);
    } else if a == 2 {
      RenderThirtyRow(b);
    } else {
      RenderDeuceArea(a, b);
    }
  }

  lemma RenderWins(a: int, b: int)
    requires Showable(a, b)
    requires a == 5 || b == 5 || (a == 4 && b <= 2) || (b == 4 && a <= 2)
    ensures GetScore(StateOf(a, b), Players()) == Ok(Cell(a, b).value)
  {
    ShowableCounts(a, b);
    assert "Win for " + "player1" == WinPlayer1;
    assert "Win for " + "player2" == WinPlayer2;
  }

  lemma RenderLoveRow(b: int)
    requires 0 <= b <= 3
    ensures GetScore(StateOf(0, b), Players()) == Ok(Cell(0, b).value)
  {
    assert "Love" + "-All" == "Love-All";
    assert "Love" + "-" + "Fifteen" == "Love-Fifteen";
    assert "Love" + "-" + "Thirty" == "Love-Thirty";
    assert "Love" + "-" + "Forty" == "Love-Forty";
  }

  lemma RenderFifteenRow(b: int)
    requires 0 <= b <= 3
    ensures GetScore(StateOf(1, b), Players()) == Ok(Cell(1, b).value)
  {
    assert "Fifteen" + "-" + "Love" == "Fifteen-Love";
    assert "Fifteen" + "-All" == "Fifteen-All";
    assert "Fifteen" + "-" + "Thirty" == "Fifteen-Thirty";
    assert "Fifteen" + "-" + "Forty" == "Fifteen-Forty";
  }

  lemma RenderThirtyRow(b: int)
    requires 0 <= b <= 3
    ensures GetScore(StateOf(2, b), Players()) == Ok(Cell(2, b).value)
  {
    assert "Thirty" + "-" + "Love" == "Thirty-Love";
    assert "Thirty" + "-" + "Fifteen" == "Thirty-Fifteen";
    assert "Thirty" + "-All" == "Thirty-All";
    assert "Thirty" + "-" + "Forty" == "Thirty-Forty";
  }

  /** Row 3 and the advantage cells. */
  lemma RenderDeuceArea(a: int, b: int)
    requires (a == 3 && 0 <= b <= 4) || (a == 4 && b == 3)
    ensures GetScore(StateOf(a, b), Players()) == Ok(Cell(a, b).value)
  {
    assert "Forty" + "-" + "Love" == "Forty-Love";
    assert "Forty" + "-" + "Fifteen" == "Forty-Fifteen";
    assert "Forty" + "-" + "Thirty" == "Forty-Thirty";
    assert "Advantage " + "player2" == "Advantage player2";
    assert "Advantage " + "player1" == "Advantage player1";
  }

  /** A point moves the counts (with the won-game guard) exactly as it moves
      the state: both refuse it in the same cases, and otherwise the new
      counts stand for the new state. */
  lemma StepAgrees(a: int, b: int, index: int)
    requires Showable(a, b) && (index == 0 || index == 1)
    ensures var s := GuardedWonPointStep(a, b, index);
            var t := WonPoint(StateOf(a, b), index == 0);
            (s.outcome.Ok? <==> t.Ok?)
            && (t.Err? ==> s.outcome == Err(t.error) && s.p1 == a && s.p2 == b)
            && (t.Ok? ==> StateOf(s.p1, s.p2) == t.value)
  {
    ShowableCounts(a, b);
    if IsWinCell(Cell(a, b)) {
      StepAgreesWon(a, b, index);
    } else if a <= 3 && b <= 3 && !(a == 3 && b == 3) {
      StepAgreesRally(a, b, index);
    } else {
      StepAgreesDeuceArea(a, b, index);
    }
  }

  /** On a win cell both refuse the point. */
  lemma StepAgreesWon(a: int, b: int, index: int)
    requires Showable(a, b) && IsWinCell(Cell(a, b)) && (index == 0 || index == 1)
    ensures GuardedWonPointStep(a, b, index) == Step(Err(AlreadyWon), a, b)
    ensures WonPoint(StateOf(a, b), index == 0) == Err(AlreadyWon)
  {
    ShowableCounts(a, b);
  }

  /** Before 3-3 a point moves one count up and the state to the next entry. */
  lemma StepAgreesRally(a: int, b: int, index: int)
    requires 0 <= a <= 3 && 0 <= b <= 3 && !(a == 3 && b == 3) && (index == 0 || index == 1)
    ensures var s := GuardedWonPointStep(a, b, index);
            s.outcome.Ok? && WonPoint(StateOf(a, b), index == 0) == Ok(StateOf(s.p1, s.p2))
  {
    if index == 0 {
      ServerRallyPoint(a, b);
    } else {
      ReceiverRallyPoint(a, b);
    }
  }

  lemma ServerRallyPoint(a: int, b: int)
    requires 0 <= a <= 3 && 0 <= b <= 3 && !(a == 3 && b == 3)
    ensures GuardedWonPointStep(a, b, 0) == Step(Ok(()), a + 1, b)
    ensures ServerWonPoint(StateOf(a, b)) == Ok(StateOf(a + 1, b))
  {
    RallyCellIsNotWin(a, b);
    Transitions(a, b);
    ShowableCounts(a + 1, b);
  }

  lemma ReceiverRallyPoint(a: int, b: int)
    requires 0 <= a <= 3 && 0 <= b <= 3 && !(a == 3 && b == 3)
    ensures GuardedWonPointStep(a, b, 1) == Step(Ok(()), a, b + 1)
    ensures ReceiverWonPoint(StateOf(a, b)) == Ok(StateOf(a, b + 1))
  {
    RallyCellIsNotWin(a, b);
    Transitions(a, b);
    ShowableCounts(a, b + 1);
  }

  lemma RallyCellIsNotWin(a: int, b: int)
    requires 0 <= a <= 3 && 0 <= b <= 3
    ensures InBounds(a, b) && !IsWinCell(Cell(a, b))
  {
  }

  /** At deuce and advantage: a point moves to advantage, back to deuce (the
      4-4 reset) or to the win from advantage. */
  lemma StepAgreesDeuceArea(a: int, b: int, index: int)
    requires (a == 3 && b == 3) || (a == 4 && b == 3) || (a == 3 && b == 4)
    requires index == 0 || index == 1
    ensures var s := GuardedWonPointStep(a, b, index);
            s.outcome.Ok? && WonPoint(StateOf(a, b), index == 0) == Ok(StateOf(s.p1, s.p2))
  {
  }

  /** The flat-table game with the guard, played from 0-0 with player 1 on
      index 0: a refused point leaves the counts as they were. */
  function PlayCounts(a: int, b: int, points: seq<bool>): (end: (int, int))
    requires Showable(a, b)
    ensures Showable(end.0, end.1)
    decreases |points|
  {
    if points == [] then (a, b)
    else
      var s := GuardedWonPointStep(a, b, if points[0] then 0 else 1);
      PlayCounts(s.p1, s.p2, points[1..])
  }

  /** After any sequence of points the two implementations agree: the counts
      stand for the state the machine reaches, so both show the same text. */
  lemma {:induction false} GamesAgree(a: int, b: int, points: seq<bool>)
    requires Showable(a, b)
    ensures var end := PlayCounts(a, b, points);
            StateOf(end.0, end.1) == Play(StateOf(a, b), points)
    decreases |points|
  {
    if points != [] {
      var index := if points[0] then 0 else 1;
      StepAgrees(a, b, index);
      var s := GuardedWonPointStep(a, b, index);
      GamesAgree(s.p1, s.p2, points[1..]);
    }
  }

  /** From Love-All, with the guard, "player1"/"player2" sessions of both
      kinds show the same score after every sequence of points. */
  lemma SessionsShowSameScore(points: seq<bool>)
    ensures var end := PlayCounts(0, 0, points);
            GetScore(Play(InitialState(), points), Players()) == Ok(Cell(end.0, end.1).value)
  {
    assert StateOf(0, 0) == InitialState();
    GamesAgree(0, 0, points);
    var end := PlayCounts(0, 0, points);
    RenderAgrees(end.0, end.1);
  }

  /** The flat-table game as written, played point by point. */
  function PlayCountsAsWritten(a: int, b: int, points: seq<bool>): (int, int)
    decreases |points|
  {
    if points == [] then (a, b)
    else
      var s := WonPointStep(a, b, if points[0] then 0 else 1);
      PlayCountsAsWritten(s.p1, s.p2, points[1..])
  }

  /** As written, the two implementations part ways: player 1 wins 4-0,
      player 2 then scores three times, and the flat table shows
      "Advantage player1" while the state machine still shows the win. */
  lemma AsWrittenDisagrees()
    ensures var points := [true, true, true, true, false, false, false];
            PlayCountsAsWritten(0, 0, points) == (4, 3)
            && Cell(4, 3) == Some("Advantage player1")
            && Play(InitialState(), points) == WinServer
  {
    var points := [true, true, true, true, false, false, false];
    AsWrittenReachesAdvantage(points);
    MachineStaysWon(points);
  }

  lemma AsWrittenReachesAdvantage(points: seq<bool>)
    requires points == [true, true, true, true, false, false, false]
    ensures PlayCountsAsWritten(0, 0, points) == (4, 3)
  {
    AsWrittenWinsToLove(points);
    AsWrittenScoresThree();
  }

  lemma AsWrittenWinsToLove(points: seq<bool>)
    requires points == [true, true, true, true, false, false, false]
    ensures PlayCountsAsWritten(0, 0, points) == PlayCountsAsWritten(4, 0, [false, false, false])
  {
    assert WonPointStep(0, 0, 0) == Step(Ok(()), 1, 0);
    assert WonPointStep(1, 0, 0) == Step(Ok(()), 2, 0);
    assert WonPointStep(2, 0, 0) == Step(Ok(()), 3, 0);
    assert WonPointStep(3, 0, 0) == Step(Ok(()), 4, 0);
    assert PlayCountsAsWritten(0, 0, points) == PlayCountsAsWritten(1, 0, points[1..]);
    assert PlayCountsAsWritten(1, 0, points[1..]) == PlayCountsAsWritten(2, 0, points[2..]);
    assert PlayCountsAsWritten(2, 0, points[2..]) == PlayCountsAsWritten(3, 0, points[3..]);
    assert PlayCountsAsWritten(3, 0, points[3..]) == PlayCountsAsWritten(4, 0, points[4..]);
    assert points[4..] == [false, false, false];
  }

  lemma AsWrittenScoresThree()
    ensures PlayCountsAsWritten(4, 0, [false, false, false]) == (4, 3)
  {
    var rest := [false, false, false];
    assert WonPointStep(4, 0, 1) == Step(Ok(()), 4, 1);
    assert WonPointStep(4, 1, 1) == Step(Ok(()), 4, 2);
    assert WonPointStep(4, 2, 1) == Step(Ok(()), 4, 3);
    assert rest[1..] == [false, false];
    assert rest[1..][1..] == [false];
    assert rest[1..][1..][1..] == [];
  }

  lemma MachineStaysWon(points: seq<bool>)
    requires points == [true, true, true, true, false, false, false]
    ensures Play(InitialState(), points) == WinServer
  {
    Transitions(0, 0);
    Transitions(1, 0);
    Transitions(2, 0);
    Transitions(3, 0);
    assert Play(StateAt(0, 0), points) == Play(StateAt(1, 0), points[1..]);
    assert Play(StateAt(1, 0), points[1..]) == Play(StateAt(2, 0), points[2..]);
    assert Play(StateAt(2, 0), points[2..]) == Play(StateAt(3, 0), points[3..]);
    assert Play(StateAt(3, 0), points[3..]) == Play(StateAt(4, 0), points[4..]);
    assert StateAt(4, 0) == WinServer;
    WonGameIsFinal(WinServer, points[4..]);
  }
}
