/** A game session over the shared state table: the two fixed player names
    and the current state, replaced by its successor on every point. */
module Game6 {
  import opened Wrappers
  import opened GameStates
  import opened StateTable

  /** `wonPoint`'s dispatch on a name: the server's name is checked first,
      then the receiver's; any other name is unknown. */
  function NextState(st: State, ctx: DisplayContext, playerName: string): (r: Result<State>)
    ensures playerName != ctx.server && playerName != ctx.receiver ==> r == Err(UnknownPlayer)
    ensures playerName == ctx.server ==> r == ServerWonPoint(st)
    ensures playerName != ctx.server && playerName == ctx.receiver ==> r == ReceiverWonPoint(st)
  {
    if playerName == ctx.server then ServerWonPoint(st)
    else if playerName == ctx.receiver then ReceiverWonPoint(st)
    else Err(UnknownPlayer)
  }

  /** A failed call does not change the state, so a won game keeps failing:
      every later point by either player throws "already won" again. */
  lemma WonGameKeepsFailing(st: State, ctx: DisplayContext, names: seq<string>)
    requires IsWin(st)
    requires forall i :: 0 <= i < |names| ==> names[i] == ctx.server || names[i] == ctx.receiver
    ensures forall i :: 0 <= i < |names| ==> NextState(st, ctx, names[i]) == Err(AlreadyWon)
  {
  }

  /** A serves and wins four points: "Win for A", and a fifth point throws. */
  lemma FourStraightPointsWin(ctx: DisplayContext)
    requires ctx == DisplayContext("A", "B")
    ensures Play(InitialState(), [true, true, true, true]) == WinServer
    ensures GetScore(WinServer, ctx) == Ok("Win for A")
    ensures NextState(WinServer, ctx, "A") == Err(AlreadyWon)
  {
    var points := [true, true, true, true];
    Transitions(0, 0);
    Transitions(1, 0);
    Transitions(2, 0);
    Transitions(3, 0);
    assert Play(StateAt(0, 0), points) == Play(StateAt(1, 0), points[1..]);
    assert Play(StateAt(1, 0), points[1..]) == Play(StateAt(2, 0), points[2..]);
    assert Play(StateAt(2, 0), points[2..]) == Play(StateAt(3, 0), points[3..]);
    assert Play(StateAt(3, 0), points[3..]) == Play(StateAt(4, 0), points[4..]);
    assert points[4..] == [];
    assert "Win for " + "A" == "Win for A";
  }

  /** Alternating points up to 3-3 reach deuce: one instance of
      `StateTable.LevelAtThreeIsDeuce`, which covers every order of points. */
  lemma AlternatingPointsReachDeuce()
    ensures Play(InitialState(), [true, false, true, false, true, false]) == Deuce
  {
    var points := [true, false, true, false, true, false];
    Transitions(0, 0);
    Transitions(1, 0);
    Transitions(1, 1);
    Transitions(2, 1);
    Transitions(2, 2);
    Transitions(3, 2);
    assert Play(StateAt(0, 0), points) == Play(StateAt(1, 0), points[1..]);
    assert Play(StateAt(1, 0), points[1..]) == Play(StateAt(1, 1), points[2..]);
    assert Play(StateAt(1, 1), points[2..]) == Play(StateAt(2, 1), points[3..]);
    assert Play(StateAt(2, 1), points[3..]) == Play(StateAt(2, 2), points[4..]);
    assert Play(StateAt(2, 2), points[4..]) == Play(StateAt(3, 2), points[5..]);
    assert Play(StateAt(3, 2), points[5..]) == Play(StateAt(3, 3), points[6..]);
    assert points[6..] == [];
  }

  /** From deuce A's point gives "Advantage A"; B's point then returns to
      deuce, while A's point wins. */
  lemma AdvantageAndBack(ctx: DisplayContext)
    requires ctx == DisplayContext("A", "B")
    ensures NextState(Deuce, ctx, "A") == Ok(AdvantageServer)
    ensures GetScore(AdvantageServer, ctx) == Ok("Advantage A")
    ensures NextState(AdvantageServer, ctx, "B") == Ok(Deuce)
    ensures NextState(AdvantageServer, ctx, "A") == Ok(WinServer)
    ensures GetScore(WinServer, ctx) == Ok("Win for A")
  {
    assert "Advantage " + "A" == "Advantage A";
    assert "Win for " + "A" == "Win for A";
  }

  class TennisGame6 {
    const server: string
    const receiver: string
    var gameState: State
    const gameContext: DisplayContext

    /** The names differ, the context shows them, and the state is one of the table's. */
    ghost predicate Valid()
      reads this
    {
      server != receiver
      && gameContext == DisplayContext(server, receiver)
      && InTable(gameState)
    }

    /** The object built once the names are known to differ. */
    constructor (player1Name: string, player2Name: string)
      requires player1Name != player2Name
      ensures Valid()
      ensures server == player1Name && receiver == player2Name
      ensures gameState == InitialState()
    {
      server := player1Name;
      receiver := player2Name;
      gameState := InitialState();
      gameContext := DisplayContext(player1Name, player2Name);
    }

    /** `new TennisGame6(player1Name, player2Name)`: equal names are rejected;
        otherwise the session starts at Love-All with player 1 serving. */
    static method Create(player1Name: string, player2Name: string) returns (r: Result<TennisGame6>)
      ensures r.Err? <==> player1Name == player2Name
      ensures r.Err? ==> r.error == InvalidPlayers
      ensures r.Ok? ==> fresh(r.value) && r.value.Valid()
      ensures r.Ok? ==> r.value.server == player1Name && r.value.receiver == player2Name
      ensures r.Ok? ==> r.value.gameState == InitialState() && r.value.GetScore() == "Love-All"
    {
      if player1Name == player2Name {
        return Err(InvalidPlayers);
      }
      var game := new TennisGame6(player1Name, player2Name);
      InitialRendersLoveAll(game.gameContext);
      return Ok(game);
    }

    /** `wonPoint`: the state becomes the successor for the named player's
        role; an unknown name or a won game throws and changes nothing. */
    method WonPoint(playerName: string) returns (outcome: Result<()>)
      requires Valid()
      modifies this`gameState
      ensures Valid()
      ensures var next := NextState(old(gameState), gameContext, playerName);
              outcome == (if next.Ok? then Ok(()) else Err(next.error))
              && gameState == (if next.Ok? then next.value else old(gameState))
    {
      if server == playerName {
        var next := ServerWonPoint(gameState);
        if next.Err? {
          return Err(next.error);
        }
        TransitionsStayInTable(gameState, true);
        gameState := next.value;
      } else if receiver == playerName {
        var next := ReceiverWonPoint(gameState);
        if next.Err? {
          return Err(next.error);
        }
        TransitionsStayInTable(gameState, false);
        gameState := next.value;
      } else {
        return Err(UnknownPlayer);
      }
      return Ok(());
    }

    /** `getScore`: the current state rendered against the fixed names; a
        table state always renders. */
    function GetScore(): (score: string)
      reads this
      requires Valid()
      ensures GameStates.GetScore(gameState, gameContext) == Ok(score)
    {
      InTableRenders(gameState, gameContext);
      GameStates.GetScore(gameState, gameContext).value
    }
  }
}
