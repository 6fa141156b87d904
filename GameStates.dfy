/** The immutable score states of one tennis game, each knowing its two
    successors, and what every state answers: the next state when the server
    or the receiver wins a point, its flip (server and receiver swapped) and
    its rendering against the players' names. */
module GameStates {
  import opened Wrappers

  /** A state of the game, seen from the server's side. `Generic` and `All`
      carry the states that follow when the server or the receiver scores. */
  datatype State =
    | Generic(serverScore: int, receiverScore: int, serverWins: State, receiverWins: State)
    | All(score: int, serverWins: State, receiverWins: State)
    | Deuce
    | AdvantageServer
    | AdvantageReceiver
    | WinServer
    | WinReceiver

  /** The display context a session hands to its states: the two names. */
  datatype DisplayContext = DisplayContext(server: string, receiver: string)

  /** The same names with the roles exchanged. */
  function SwapContext(ctx: DisplayContext): (swapped: DisplayContext)
    ensures swapped.server == ctx.receiver && swapped.receiver == ctx.server
  {
    DisplayContext(ctx.receiver, ctx.server)
  }

  /** The `GenericGameState` constructor: both scores must lie in [0, 3]. */
  function NewGeneric(serverScore: int, receiverScore: int, serverWins: State, receiverWins: State): (r: Result<State>)
    ensures r.Ok? <==> 0 <= serverScore <= 3 && 0 <= receiverScore <= 3
    ensures r.Ok? ==> r.value == Generic(serverScore, receiverScore, serverWins, receiverWins)
    ensures r.Err? ==> r.error == InvalidScore
  {
    if serverScore >= 4 then Err(InvalidScore)
    else if serverScore < 0 then Err(InvalidScore)
    else if receiverScore >= 4 then Err(InvalidScore)
    else if receiverScore < 0 then Err(InvalidScore)
    else Ok(Generic(serverScore, receiverScore, serverWins, receiverWins))
  }

  /** The `All` constructor: a tie of 3 or more is deuce, so the score must lie in [0, 2]. */
  function NewAll(score: int, serverWins: State, receiverWins: State): (r: Result<State>)
    ensures r.Ok? <==> 0 <= score <= 2
    ensures r.Ok? ==> r.value == All(score, serverWins, receiverWins)
    ensures r.Err? ==> r.error == InvalidScore
  {
    if score > 2 then Err(InvalidScore)
    else if score < 0 then Err(InvalidScore)
    else Ok(All(score, serverWins, receiverWins))
  }

  /** A state every part of which the validating constructors could have built. */
  predicate WellFormed(st: State) {
    match st
    case Generic(s, r, sw, rw) => 0 <= s <= 3 && 0 <= r <= 3 && WellFormed(sw) && WellFormed(rw)
    case All(n, sw, rw) => 0 <= n <= 2 && WellFormed(sw) && WellFormed(rw)
    case _ => true
  }

  predicate IsWin(st: State) {
    st.WinServer? || st.WinReceiver?
  }

  /** The successor when the server wins the point; a won game throws. */
  function ServerWonPoint(st: State): (r: Result<State>)
    ensures r.Err? <==> IsWin(st)
    ensures r.Err? ==> r.error == AlreadyWon
    ensures WellFormed(st) && r.Ok? ==> WellFormed(r.value)
  {
    match st
    case Generic(_, _, sw, _) => Ok(sw)
    case All(_, sw, _) => Ok(sw)
    case Deuce => Ok(AdvantageServer)
    case AdvantageServer => Ok(WinServer)
    case AdvantageReceiver => Ok(Deuce)
    case WinServer => Err(AlreadyWon)
    case WinReceiver => Err(AlreadyWon)
  }

  /** The successor when the receiver wins the point; a won game throws. */
  function ReceiverWonPoint(st: State): (r: Result<State>)
    ensures r.Err? <==> IsWin(st)
    ensures r.Err? ==> r.error == AlreadyWon
    ensures WellFormed(st) && r.Ok? ==> WellFormed(r.value)
  {
    match st
    case Generic(_, _, _, rw) => Ok(rw)
    case All(_, _, rw) => Ok(rw)
    case Deuce => Ok(AdvantageReceiver)
    case AdvantageServer => Ok(Deuce)
    case AdvantageReceiver => Ok(WinReceiver)
    case WinServer => Err(AlreadyWon)
    case WinReceiver => Err(AlreadyWon)
  }

  /** The transition for a point won by the server (`true`) or the receiver. */
  function WonPoint(st: State, byServer: bool): Result<State> {
    if byServer then ServerWonPoint(st) else ReceiverWonPoint(st)
  }

  /** The call for 0, 1, 2 and 3 points. */
  const ScoreNames: seq<string> := ["Love", "Fifteen", "Thirty", "Forty"]

  /** `translate`: the tennis name of 0 to 3 points; any other score throws. */
  function Translate(score: int): (r: Result<string>)
    ensures r.Ok? <==> 0 <= score <= 3
    ensures r.Ok? ==> r.value == ScoreNames[score]
    ensures r.Err? ==> r.error == InvalidScore
  {
    match score
    case 0 => Ok("Love")
    case 1 => Ok("Fifteen")
    case 2 => Ok("Thirty")
    case 3 => Ok("Forty")
    case _ => Err(InvalidScore)
  }

  /** Distinct scores get distinct names. */
  lemma TranslateInjective(a: int, b: int)
    requires Translate(a).Ok? && Translate(b).Ok?
    ensures Translate(a) == Translate(b) <==> a == b
  {
    if a != b {
      assert Translate(a).value[0] != Translate(b).value[0] || |Translate(a).value| != |Translate(b).value|;
    }
  }

  /** `getScore(context)`: the text a state shows, with the names taken from
      the context; fails only where `translate` does. */
  function GetScore(st: State, ctx: DisplayContext): (r: Result<string>)
    ensures WellFormed(st) ==> r.Ok?
    ensures st.Generic? && WellFormed(st) ==>
              r == Ok(ScoreNames[st.serverScore] + "-" + ScoreNames[st.receiverScore])
    ensures st.All? && WellFormed(st) ==> r == Ok(ScoreNames[st.score] + "-All")
    ensures st.Deuce? ==> r == Ok("Deuce")
    ensures st.AdvantageServer? ==> r == Ok("Advantage " + ctx.server)
    ensures st.AdvantageReceiver? ==> r == Ok("Advantage " + ctx.receiver)
    ensures st.WinServer? ==> r == Ok("Win for " + ctx.server)
    ensures st.WinReceiver? ==> r == Ok("Win for " + ctx.receiver)
  {
    match st
    case Generic(s, r, _, _) =>
      var server := Translate(s);
      var receiver := Translate(r);
      if server.Err? then Err(server.error)
      else if receiver.Err? then Err(receiver.error)
      else Ok(server.value + "-" + receiver.value)
    case All(n, _, _) =>
      var tied := Translate(n);
      if tied.Err? then Err(tied.error) else Ok(tied.value + "-All")
    case Deuce => Ok("Deuce")
    case AdvantageServer => Ok("Advantage " + ctx.server)
    case AdvantageReceiver => Ok("Advantage " + ctx.receiver)
    case WinServer => Ok("Win for " + ctx.server)
    case WinReceiver => Ok("Win for " + ctx.receiver)
  }

  /** `flipPlayerScores`: the same state with server and receiver exchanged.
      A `Generic` state swaps its scores and swaps and flips its successors;
      `All` and `Deuce` are their own flips; the paired states trade places. */
  function FlipPlayerScores(st: State): (flipped: State)
    ensures flipped.Generic? <==> st.Generic?
    ensures IsWin(flipped) <==> IsWin(st)
  {
    match st
    case Generic(s, r, sw, rw) => Generic(r, s, FlipPlayerScores(rw), FlipPlayerScores(sw))
    case All(_, _, _) => st
    case Deuce => st
    case AdvantageServer => AdvantageReceiver
    case AdvantageReceiver => AdvantageServer
    case WinServer => WinReceiver
    case WinReceiver => WinServer
  }

  /** Flipping twice gives back the state. */
  lemma {:induction false} FlipInvolutive(st: State)
    ensures FlipPlayerScores(FlipPlayerScores(st)) == st
  {
    match st
    case Generic(s, r, sw, rw) =>
      FlipInvolutive(sw);
      FlipInvolutive(rw);
    case _ =>
  }

  /** Flipping keeps a state well-formed. */
  lemma {:induction false} FlipWellFormed(st: State)
    requires WellFormed(st)
    ensures WellFormed(FlipPlayerScores(st))
  {
    match st
    case Generic(s, r, sw, rw) =>
      FlipWellFormed(sw);
      FlipWellFormed(rw);
    case _ =>
  }

  /** The states whose text names a player show, once flipped, the same text
      for the swapped names; the score of a `Generic` state reads in reverse. */
  lemma FlipRendersWithSwappedNames(st: State, ctx: DisplayContext)
    requires WellFormed(st)
    ensures !st.Generic? ==> GetScore(FlipPlayerScores(st), SwapContext(ctx)) == GetScore(st, ctx)
    ensures st.Generic? ==> GetScore(FlipPlayerScores(st), ctx)
                            == Ok(Translate(st.receiverScore).value + "-" + Translate(st.serverScore).value)
  {
  }

  /** The outcome of a sequence of `wonPoint` calls by role (`true` for the
      server): a call that throws leaves the state as it was. */
  function Play(st: State, points: seq<bool>): State
    decreases |points|
  {
    if points == [] then st
    else
      var next := WonPoint(st, points[0]);
      Play(if next.Ok? then next.value else st, points[1..])
  }

  /** The role-swapped sequence of points. */
  function SwapRoles(points: seq<bool>): (swapped: seq<bool>)
    ensures |swapped| == |points|
    ensures forall i :: 0 <= i < |points| ==> swapped[i] == !points[i]
  {
    if points == [] then [] else [!points[0]] + SwapRoles(points[1..])
  }
}
