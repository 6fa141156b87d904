/** The table of all game states, built once from the terminal states
    backwards, and the initial "Love-All" state that leads into it. */
module StateTable {
  import opened Wrappers
  import opened LookupKeys
  import opened GameStates

  /** The state the finished table holds at score (s, r): a tie of 3 or more
      is deuce, a one-point lead from 4-3 is an advantage, 4 points against at
      most 2 are a win, and every other score is a tie (`All`) or a `Generic`
      state whose successors are the states one point further on. */
  function StateAt(s: int, r: int): (st: State)
    requires InRange(s) && InRange(r)
    ensures WellFormed(st)
    decreases 8 - s - r
  {
    if s == r && s >= 3 then Deuce
    else if s == 4 && r == 3 then AdvantageServer
    else if s == 3 && r == 4 then AdvantageReceiver
    else if s == 4 then WinServer
    else if r == 4 then WinReceiver
    else if s == r then All(s, StateAt(s + 1, r), StateAt(s, r + 1))
    else Generic(s, r, StateAt(s + 1, r), StateAt(s, r + 1))
  }

  /** `getInitialState`: Love-All, whose successors are the table's entries
      at 1-0 and 0-1. */
  function InitialState(): (st: State)
    ensures st == All(0, StateAt(1, 0), StateAt(0, 1))
  {
    StateAt(0, 0)
  }

  /** The states a game can be in: the initial one and the table's entries. */
  ghost predicate InTable(st: State) {
    exists s, r :: InRange(s) && InRange(r) && st == StateAt(s, r)
  }

  /** Table states are well formed, so they render. */
  lemma InTableRenders(st: State, ctx: DisplayContext)
    requires InTable(st)
    ensures WellFormed(st) && GetScore(st, ctx).Ok?
  {
    var s, r :| InRange(s) && InRange(r) && st == StateAt(s, r);
  }

  /** The special and winning keys of the table. */
  lemma SpecialEntries()
    ensures StateAt(3, 3) == Deuce && StateAt(4, 4) == Deuce
    ensures StateAt(4, 3) == AdvantageServer && StateAt(3, 4) == AdvantageReceiver
    ensures forall i :: 0 <= i <= 2 ==> StateAt(4, i) == WinServer && StateAt(i, 4) == WinReceiver
  {
  }

  /** The mirrored half of the table is the flip of the half that is built:
      the entry at (r, s) is the flip of the entry at (s, r). */
  lemma {:induction false} FlipStateAt(s: int, r: int)
    requires InRange(s) && InRange(r)
    ensures FlipPlayerScores(StateAt(s, r)) == StateAt(r, s)
    decreases 8 - s - r
  {
    if s == r || s == 4 || r == 4 {
    } else {
      FlipStateAt(s + 1, r);
      FlipStateAt(s, r + 1);
    }
  }

  /** Every transition from a table state lands on a table state: one point
      further on, or from the deuce area to deuce, advantage or a win. */
  lemma Transitions(s: int, r: int)
    requires InRange(s) && InRange(r)
    ensures s <= 3 && r <= 3 && !(s == 3 && r == 3) ==>
              ServerWonPoint(StateAt(s, r)) == Ok(StateAt(s + 1, r))
              && ReceiverWonPoint(StateAt(s, r)) == Ok(StateAt(s, r + 1))
    ensures ServerWonPoint(Deuce) == Ok(StateAt(4, 3)) && ReceiverWonPoint(Deuce) == Ok(StateAt(3, 4))
    ensures ServerWonPoint(AdvantageServer) == Ok(WinServer) && ReceiverWonPoint(AdvantageServer) == Ok(Deuce)
    ensures ServerWonPoint(AdvantageReceiver) == Ok(Deuce) && ReceiverWonPoint(AdvantageReceiver) == Ok(WinReceiver)
  {
  }

  /** The table is closed under both transitions. */
  lemma TransitionsStayInTable(st: State, byServer: bool)
    requires InTable(st)
    ensures WonPoint(st, byServer).Ok? ==> InTable(WonPoint(st, byServer).value)
  {
    var s, r :| InRange(s) && InRange(r) && st == StateAt(s, r);
    if s <= 3 && r <= 3 && !(s == 3 && r == 3) {
      Transitions(s, r);
    } else if st == Deuce {
      assert AdvantageServer == StateAt(4, 3);
      assert AdvantageReceiver == StateAt(3, 4);
    } else if st == AdvantageServer || st == AdvantageReceiver {
      assert WinServer == StateAt(4, 0);
      assert WinReceiver == StateAt(0, 4);
      assert Deuce == StateAt(3, 3);
    }
  }

  /** Transitions commute with flipping: the server's point from the flipped
      state leads to the flip of the receiver's point from the state, and
      the other way round. */
  lemma FlipCommutes(s: int, r: int)
    requires InRange(s) && InRange(r)
    ensures var st := StateAt(s, r);
            ServerWonPoint(FlipPlayerScores(st)) == ResultFlip(ReceiverWonPoint(st))
            && ReceiverWonPoint(FlipPlayerScores(st)) == ResultFlip(ServerWonPoint(st))
  {
    var st := StateAt(s, r);
    if st.All? {
      FlipStateAt(s, r + 1);
      FlipStateAt(s + 1, r);
      FlipInvolutive(StateAt(s + 1, r));
    }
  }

  /** The flip of a successful transition. */
  function ResultFlip(res: Result<State>): (flipped: Result<State>)
    ensures flipped.Ok? <==> res.Ok?
  {
    if res.Ok? then Ok(FlipPlayerScores(res.value)) else res
  }

  /** Playing the role-swapped points from the flip of a table state reaches
      the flip of the state the original points reach. */
  lemma {:induction false} PlaySymmetric(s: int, r: int, points: seq<bool>)
    requires InRange(s) && InRange(r)
    ensures Play(FlipPlayerScores(StateAt(s, r)), SwapRoles(points))
            == FlipPlayerScores(Play(StateAt(s, r), points))
    decreases |points|
  {
    if points != [] {
      var st := StateAt(s, r);
      FlipCommutes(s, r);
      var next := WonPoint(st, points[0]);
      assert SwapRoles(points)[1..] == SwapRoles(points[1..]);
      if next.Ok? {
        TransitionsStayInTable(st, points[0]);
        var s', r' :| InRange(s') && InRange(r') && next.value == StateAt(s', r');
        PlaySymmetric(s', r', points[1..]);
      } else {
        PlaySymmetric(s, r, points[1..]);
      }
    }
  }

  /** A game and its mirror image from Love-All: the role-swapped points
      lead to the flipped state. */
  lemma PlayFromLoveAllSymmetric(points: seq<bool>)
    ensures Play(InitialState(), SwapRoles(points)) == FlipPlayerScores(Play(InitialState(), points))
  {
    FlipStateAt(0, 0);
    PlaySymmetric(0, 0, points);
  }

  /** Every state reached from Love-All is a table state. */
  lemma {:induction false} PlayStaysInTable(st: State, points: seq<bool>)
    requires InTable(st)
    ensures InTable(Play(st, points))
    decreases |points|
  {
    if points != [] {
      TransitionsStayInTable(st, points[0]);
      var next := WonPoint(st, points[0]);
      PlayStaysInTable(if next.Ok? then next.value else st, points[1..]);
    }
  }

  /** Once a game is won, further points change nothing. */
  lemma {:induction false} WonGameIsFinal(st: State, points: seq<bool>)
    requires IsWin(st)
    ensures Play(st, points) == st
    decreases |points|
  {
    if points != [] {
      WonGameIsFinal(st, points[1..]);
    }
  }

  /** "Love-All" is what a fresh game shows. */
  lemma InitialRendersLoveAll(ctx: DisplayContext)
    ensures GetScore(InitialState(), ctx) == Ok("Love-All")
  {
    assert "Love" + "-All" == "Love-All";
  }

  /** The points each player has won in a sequence (`true` for the server). */
  function Tally(points: seq<bool>): (t: (nat, nat))
    ensures t.0 + t.1 == |points|
    decreases |points|
  {
    if points == [] then (0, 0)
    else
      var t := Tally(points[..|points| - 1]);
      if points[|points| - 1] then (t.0 + 1, t.1) else (t.0, t.1 + 1)
  }

  /** The state a game stands at after `a` server and `b` receiver points,
      read off the counts alone: level at 3 or more is deuce, one ahead from
      there an advantage, two ahead a win; below that, 4 points win and any
      other score is the table's entry. */
  function ScoreState(a: nat, b: nat): State {
    if a >= 3 && b >= 3 then
      if a == b then Deuce
      else if a == b + 1 then AdvantageServer
      else if b == a + 1 then AdvantageReceiver
      else if a > b then WinServer
      else WinReceiver
    else if a >= 4 then WinServer
    else if b >= 4 then WinReceiver
    else StateAt(a, b)
  }

  /** A game that is not won moves one count further on every point. */
  lemma ScoreStep(a: nat, b: nat)
    requires !IsWin(ScoreState(a, b))
    ensures ServerWonPoint(ScoreState(a, b)) == Ok(ScoreState(a + 1, b))
    ensures ReceiverWonPoint(ScoreState(a, b)) == Ok(ScoreState(a, b + 1))
  {
    if !(a >= 3 && b >= 3) {
      Transitions(a, b);
    }
  }

  /** One more point at the end of a sequence is one more transition. */
  lemma {:induction false} PlayAppend(st: State, points: seq<bool>, last: bool)
    ensures var before := Play(st, points);
            var next := WonPoint(before, last);
            Play(st, points + [last]) == if next.Ok? then next.value else before
    decreases |points|
  {
    if points == [] {
      assert [] + [last] == [last];
    } else {
      assert (points + [last])[1..] == points[1..] + [last];
      var next := WonPoint(st, points[0]);
      PlayAppend(if next.Ok? then next.value else st, points[1..], last);
    }
  }

  /** Until it is won, a game from Love-All stands at the state its counts
      name, whatever the order the points came in. */
  lemma {:induction false} PlayFollowsScore(points: seq<bool>)
    requires !IsWin(Play(InitialState(), points))
    ensures Play(InitialState(), points) == ScoreState(Tally(points).0, Tally(points).1)
    decreases |points|
  {
    if points != [] {
      var earlier := points[..|points| - 1];
      var last := points[|points| - 1];
      assert points == earlier + [last];
      PlayAppend(InitialState(), earlier, last);
      var before := Play(InitialState(), earlier);
      assert !IsWin(before);
      PlayFollowsScore(earlier);
      ScoreStep(Tally(earlier).0, Tally(earlier).1);
    }
  }

  /** Every game not yet won in which both players have the same 3 or more
      points is at deuce, whatever the order of the points. */
  lemma LevelAtThreeIsDeuce(points: seq<bool>)
    requires !IsWin(Play(InitialState(), points))
    requires Tally(points).0 == Tally(points).1 >= 3
    ensures Play(InitialState(), points) == Deuce
  {
    PlayFollowsScore(points);
  }

  /** The keys the sweep of `ComputeInitialState` has handled when it is about
      to visit (i, j): rows above i, and row i to the right of column j. */
  ghost predicate Swept(i: int, j: int, a: int, b: int) {
    1 <= a <= 3 && 0 <= b <= a && (a > i || (a == i && b > j))
  }

  /** The keys seeded before the sweep: deuce at 3-3, and every key with a 4. */
  ghost predicate Seeded(k: Key) {
    Valid(k) && (k.serverScore == 4 || k.receiverScore == 4 || k == Key(3, 3))
  }

  /** The keys in the table when the sweep is about to visit (i, j): the
      seeded ones, the swept ones and their mirror images. */
  ghost predicate Built(i: int, j: int, k: Key) {
    Seeded(k) || Swept(i, j, k.serverScore, k.receiverScore) || Swept(i, j, k.receiverScore, k.serverScore)
  }

  /** The 25 valid keys. */
  ghost function AllKeys(): (keys: set<Key>)
    ensures forall k :: k in keys <==> Valid(k)
  {
    set s, r | 0 <= s <= 4 && 0 <= r <= 4 :: Key(s, r)
  }

  /** The table when the sweep is about to visit (i, j). */
  ghost function TableAt(i: int, j: int): map<Key, State>
  {
    map k | k in AllKeys() && Built(i, j, k) :: StateAt(k.serverScore, k.receiverScore)
  }

  /** Every entry of the table is the state `StateAt` names. */
  lemma TableAtAgrees(i: int, j: int)
    ensures forall k :: k in TableAt(i, j) ==> Valid(k) && TableAt(i, j)[k] == StateAt(k.serverScore, k.receiverScore)
  {
  }

  /** The keys seeded once the wins with loser score below w are in. */
  ghost predicate SeededUpTo(w: int, k: Key) {
    k == Key(3, 3) || k == Key(4, 4) || k == Key(4, 3) || k == Key(3, 4)
    || (k.serverScore == 4 && 0 <= k.receiverScore < w)
    || (k.receiverScore == 4 && 0 <= k.serverScore < w)
  }

  /** The table once the wins with loser score below w are in. */
  ghost function SeedTable(w: int): (table: map<Key, State>)
    ensures forall k :: k in table ==> Valid(k) && table[k] == StateAt(k.serverScore, k.receiverScore)
  {
    map k | k in AllKeys() && SeededUpTo(w, k) :: StateAt(k.serverScore, k.receiverScore)
  }

  /** The special states are seeded first. */
  lemma SeedSpecials()
    ensures map[Key(3, 3) := Deuce][Key(4, 4) := Deuce][Key(4, 3) := AdvantageServer][Key(3, 4) := AdvantageReceiver]
            == SeedTable(0)
  {
    SpecialEntries();
  }

  /** Each pass of the seeding loop adds the wins with loser score w. */
  lemma SeedStep(w: int)
    requires 0 <= w <= 2
    ensures SeedTable(w)[Key(4, w) := WinServer][Key(w, 4) := WinReceiver] == SeedTable(w + 1)
  {
    SpecialEntries();
  }

  /** After the seeding loop the table is the one the sweep starts from. */
  lemma SeedDone()
    ensures SeedTable(3) == TableAt(3, 3)
  {
  }

  /** When the sweep visits (i, j), both successor keys are already present. */
  lemma SuccessorsPresent(i: int, j: int)
    requires 1 <= i <= 3 && 0 <= j <= i
    ensures Key(i + 1, j) in TableAt(i, j) && TableAt(i, j)[Key(i + 1, j)] == StateAt(i + 1, j)
    ensures Key(i, j + 1) in TableAt(i, j) && TableAt(i, j)[Key(i, j + 1)] == StateAt(i, j + 1)
  {
  }

  /** Visiting 3-3 finds it seeded and changes nothing. */
  lemma VisitSeeded()
    ensures Key(3, 3) in TableAt(3, 3) && TableAt(3, 3) == TableAt(3, 2)
  {
  }

  /** Two tables that agree with `StateAt` and have the same keys are equal. */
  lemma SameKeysSameTable(m1: map<Key, State>, m2: map<Key, State>)
    requires forall k :: k in m1 ==> Valid(k) && m1[k] == StateAt(k.serverScore, k.receiverScore)
    requires forall k :: k in m2 ==> Valid(k) && m2[k] == StateAt(k.serverScore, k.receiverScore)
    requires forall k :: k in m1 <==> k in m2
    ensures m1 == m2
  {
  }

  /** Visiting a tie (i, i) below 3-3 adds it. */
  lemma VisitTie(i: int)
    requires 1 <= i <= 2
    ensures Key(i, i) !in TableAt(i, i)
    ensures TableAt(i, i)[Key(i, i) := StateAt(i, i)] == TableAt(i, i - 1)
  {
    var next := TableAt(i, i)[Key(i, i) := StateAt(i, i)];
    forall k ensures k in next <==> k in TableAt(i, i - 1) {
      assert Built(i, i - 1, k) <==> Built(i, i, k) || k == Key(i, i);
    }
    TableAtAgrees(i, i);
    TableAtAgrees(i, i - 1);
    SameKeysSameTable(next, TableAt(i, i - 1));
  }

  /** Visiting (i, j) with i > j adds it and its mirror, which was absent too. */
  lemma VisitLead(i: int, j: int)
    requires 1 <= i <= 3 && 0 <= j < i
    ensures Key(i, j) !in TableAt(i, j) && Key(j, i) !in TableAt(i, j)
    ensures TableAt(i, j)[Key(i, j) := StateAt(i, j)][Key(j, i) := StateAt(j, i)] == TableAt(i, j - 1)
  {
    var next := TableAt(i, j)[Key(i, j) := StateAt(i, j)][Key(j, i) := StateAt(j, i)];
    forall k ensures k in next <==> k in TableAt(i, j - 1) {
      assert Built(i, j - 1, k) <==> Built(i, j, k) || k == Key(i, j) || k == Key(j, i);
    }
    TableAtAgrees(i, j);
    TableAtAgrees(i, j - 1);
    SameKeysSameTable(next, TableAt(i, j - 1));
  }

  /** Finishing row i is starting row i - 1. */
  lemma RowDone(i: int)
    ensures TableAt(i, -1) == TableAt(i - 1, i - 1)
  {
  }

  /** Once the sweep is past row 1, every key but 0-0 is in. */
  lemma SweepDone(k: Key)
    ensures k in TableAt(0, 0) <==> Valid(k) && k != Key(0, 0)
    ensures k in TableAt(0, 0) ==> TableAt(0, 0)[k] == StateAt(k.serverScore, k.receiverScore)
  {
  }

  /** The entry at (i, j) is the tie or the generic state over the two
      successors the table holds. */
  lemma EntryFromSuccessors(i: int, j: int)
    requires 0 <= j <= i <= 3 && !(i == 3 && j == 3)
    ensures i == j ==> StateAt(i, j) == All(i, StateAt(i + 1, j), StateAt(i, j + 1))
    ensures i != j ==> StateAt(i, j) == Generic(i, j, StateAt(i + 1, j), StateAt(i, j + 1))
  {
  }

  /** The first phase of `computeInitialState`: deuce at 3-3 and 4-4, the
      two advantages, then the wins that were not preceded by an advantage. */
  method SeedSpecialStates() returns (computed: map<Key, State>)
    ensures computed == TableAt(3, 3)
  {
    computed := map[];
    computed := computed[NewKey(3, 3).value := Deuce];
    computed := computed[NewKey(4, 4).value := Deuce];
    computed := computed[NewKey(4, 3).value := AdvantageServer];
    computed := computed[NewKey(3, 4).value := AdvantageReceiver];
    SeedSpecials();

    var w := 0;
    while w <= 2
      invariant 0 <= w <= 3
      invariant computed == SeedTable(w)
    {
      var key := NewKey(4, w).value;
      computed := computed[key := WinServer];
      computed := computed[FlipKey(key).value := WinReceiver];
      SeedStep(w);
      w := w + 1;
    }
    SeedDone();
  }

  /** One row of the sweep in `computeInitialState`: each key (i, j), for j
      from i down to 0, that is not in the table yet gets the tie or generic
      state over the two successors the table already holds, and a generic
      state's flip goes to the mirrored key. */
  method FillRow(i: int, table: map<Key, State>) returns (computed: map<Key, State>)
    requires 1 <= i <= 3
    requires table == TableAt(i, i)
    ensures computed == TableAt(i - 1, i - 1)
  {
    computed := table;
    var j := i;
    while j >= 0
      invariant -1 <= j <= i
      invariant computed == TableAt(i, j)
    {
      var key := NewKey(i, j).value;
      if i == 3 && j == 3 {
        VisitSeeded();
      } else if i == j {
        VisitTie(i);
      } else {
        VisitLead(i, j);
      }
      // ignore the keys seeded above
      if key !in computed {
        SuccessorsPresent(i, j);
        var serverWins := computed[IncrementServer(key).value];
        var receiverWins := computed[IncrementReceiver(key).value];
        EntryFromSuccessors(i, j);
        if i == j {
          var state := NewAll(i, serverWins, receiverWins).value;
          computed := computed[key := state];
        } else {
          var state := NewGeneric(i, j, serverWins, receiverWins).value;
          computed := computed[key := state];
          // the mirrored key was absent as well, so nothing is overwritten
          FlipStateAt(i, j);
          computed := computed[FlipKey(key).value := FlipPlayerScores(state)];
        }
      }
      j := j - 1;
    }
    RowDone(i);
  }

  /** `computeInitialState`: seeds the special and winning states, sweeps the
      keys with server score >= receiver score from 3-3 down to 1-0, looking
      up both successors and storing the flipped state at the mirrored key,
      and finally wraps 1-0 and 0-1 into the Love-All state. The table it
      builds holds every key but 0-0, each with the state `StateAt` names. */
  method ComputeInitialState() returns (initial: State, computed: map<Key, State>)
    ensures forall k :: k in computed <==> Valid(k) && k != Key(0, 0)
    ensures forall k :: k in computed ==> Valid(k) && computed[k] == StateAt(k.serverScore, k.receiverScore)
    ensures initial == InitialState()
  {
    computed := SeedSpecialStates();
    var i := 3;
    while i > 0
      invariant 0 <= i <= 3
      invariant computed == TableAt(i, i)
    {
      computed := FillRow(i, computed);
      i := i - 1;
    }
    forall k ensures k in computed <==> Valid(k) && k != Key(0, 0)
      ensures k in computed ==> computed[k] == StateAt(k.serverScore, k.receiverScore)
    {
      SweepDone(k);
    }
    initial := NewAll(0, computed[NewKey(1, 0).value], computed[NewKey(0, 1).value]).value;
  }
}
