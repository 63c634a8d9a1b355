/**
 The rules of a Connect Four game, told from the states before and after an event: who may do what, what it
 changes, and what it leaves alone.
*/
module ConnectFourRules {
  import opened ConnectFour
  import opened ConnectFourGame
  import opened Wrappers

  // ----- dropping -----

  /** The mover sits at the seat whose turn it is, or moves there for the CPU from the first seat. */
  predicate Due(g: Game, mover: string) {
    if g.turn == 1 then g.player1.id == mover
    else (g.player2.Some? && g.player2.value.id == mover) || (g.cpu.Some? && g.player1.id == mover)
  }

  /** One cell is p's instead of empty, the lowest empty one of its column. */
  ghost predicate OneDiscMore(b: Board, b': Board, row: nat, col: nat, p: int)
    requires IsBoard(b) && IsBoard(b')
  {
    && OnBoard(row, col) && Cell(b, row, col) == 0 && (forall r :: row < r < ROWS ==> Cell(b, r, col) != 0)
    && forall r, c :: OnBoard(r, c) ==> Cell(b', r, c) == if r == row && c == col then p else Cell(b, r, c)
  }

  /** A new round on an empty board, in which the first challenger has taken the seat. */
  function Challenged(g: Game, seat: int, scores: Scores): Game
    requires g.queue != []
  {
    Game(g.creator, if seat == 1 then g.queue[0] else g.player1, if seat == 1 then g.player2 else Some(g.queue[0]),
         None, EmptyBoard(), 1, Playing, NoResult, g.queue[1..], g.queueLocked, g.maxQueue, scores, 0)
  }

  /** A round decided for p: a point, and the end or the next challenger in the place of the other. */
  function WonBy(g: Game, p: int): Game {
    var scores := if p == 1 then g.scores.(one := g.scores.one + 1) else g.scores.(two := g.scores.two + 1);
    if g.queue == [] then g.(status := Finished, result := Won(p), scores := scores)
    else Challenged(g, if p == 1 then 2 else 1, scores)
  }

  /** A drawn round: the second player makes way. */
  function DrawnGame(g: Game): Game {
    var scores := g.scores.(draws := g.scores.draws + 1);
    if g.queue == [] then g.(status := Finished, result := Drawn, scores := scores) else Challenged(g, 2, scores)
  }

  lemma DropChanges(g: Game, col: nat) returns (row: nat, b': Board)
    requires BoardOk(g) && g.status == Playing && col < COLS && Cell(g.board, 0, col) == 0
    ensures IsBoard(b') && OneDiscMore(g.board, b', row, col, g.turn) && !HasLine(b', Other(g.turn))
    ensures PutDisc(g, col) == Landed(g.(board := b', drops := g.drops + 1))
  {
    LowestEmptyIs(g.board, col, ROWS - 1);
    DropLands(g, col);
    DropIs(g.board, col, g.turn);
    var dropped := Drop(g.board, col, g.turn).value;
    PutDiscIs(g, col, dropped);
    row, b' := dropped.row, dropped.board;
  }

  lemma ConcludeIs(g: Game, o: Outcome)
    requires Playable(g) && OutcomeOk(g.board, g.turn, o)
    ensures Conclude(g, o) == if HasLine(g.board, g.turn) then WonBy(g, g.turn)
                              else if TopFull(g.board) then DrawnGame(g)
                              else g.(turn := 3 - g.turn)
  {
  }

  lemma LandedIs(g: Game)
    requires Playable(g) && !HasLine(g.board, Other(g.turn))
    ensures Landed(g) == if HasLine(g.board, g.turn) then WonBy(g, g.turn)
                         else if TopFull(g.board) then DrawnGame(g)
                         else g.(turn := 3 - g.turn)
  {
    MoverDecides(g.board, g.turn);
    ConcludeIs(g, CheckWinner(g.board));
  }

  /**
   What an accepted drop does: one disc of the player whose turn it is comes to rest on the lowest empty cell of
   the column; then that player has won, or the board is full, or it is the other's turn.
  */
  lemma DropEffect(games: seq<Game>, events: seq<Event>, i: nat, mover: string, col: int)
    returns (row: nat, b': Board)
    requires IsRun(games, events) && i < |games| && games[i].status == Playing && Due(games[i], mover)
    requires IsBoard(games[i].board) && 0 <= col < COLS && Cell(games[i].board, 0, col) == 0
    ensures var g := games[i];
            var g' := Step(g, Dropping(mover, col));
            var landed := g.(board := b', drops := g.drops + 1);
            && IsBoard(g.board) && IsBoard(b') && OneDiscMore(g.board, b', row, col, g.turn)
            && g' == if HasLine(b', g.turn) then WonBy(landed, g.turn)
                     else if TopFull(b') then DrawnGame(landed)
                     else landed.(turn := 3 - g.turn)
  {
    RunOk(games, events, i);
    var g := games[i];
    row, b' := DropChanges(g, col);
    LandedIs(g.(board := b', drops := g.drops + 1));
    assert Step(g, Dropping(mover, col)) == PutDisc(g, col);
  }

  /** A drop changes the game exactly if it is in progress, the mover is due, and the column has room. */
  lemma DropIff(games: seq<Game>, events: seq<Event>, i: nat, mover: string, col: int)
    requires IsRun(games, events) && i < |games|
    ensures IsBoard(games[i].board)
    ensures Step(games[i], Dropping(mover, col)) != games[i] <==>
            games[i].status == Playing && Due(games[i], mover) && 0 <= col < COLS && Cell(games[i].board, 0, col) == 0
  {
    RunOk(games, events, i);
    var g := games[i];
    if g.status == Playing && Due(g, mover) && 0 <= col < COLS && Cell(g.board, 0, col) == 0 {
      var row, b' := DropEffect(games, events, i, mover, col);
      EmptyBoardIs();
      assert Cell(b', row, col) != Cell(g.board, row, col);
      if HasLine(b', g.turn) || TopFull(b') {
        assert Step(g, Dropping(mover, col)).scores != g.scores;
      }
    }
  }

  // ----- ending a round otherwise -----

  predicate Named(p: Player, who: Player) {
    p.id == who.id || (who.name != "" && p.name == who.name)
  }

  /** A resignation speaks for the first seat, or else for a second seat that is not the CPU's, by id or nickname. */
  lemma ResignIs(g: Game, who: Player)
    ensures var g' := Step(g, Resigning(who));
            var first := g.status == Playing && Named(g.player1, who);
            var second := g.status == Playing && !first && g.cpu.None? && g.player2.Some?
                          && Named(g.player2.value, who);
            && (!first && !second ==> g' == g)
            && (first || second ==>
                  g' == if g.queue == [] then g.(status := Finished, result := Resigned)
                        else Challenged(g, if first then 1 else 2, g.scores))
  {
  }

  /** The player of the seat stayed away: the round ends as by a resignation. */
  lemma AbandonIs(g: Game, seat: int)
    ensures var g' := Step(g, Abandoning(seat));
            && (g.status != Playing || (seat != 1 && seat != 2) ==> g' == g)
            && (g.status == Playing && (seat == 1 || seat == 2) ==>
                  g' == if g.queue == [] then g.(status := Finished, result := Abandoned)
                        else Challenged(g, seat, g.scores))
  {
  }

  /** The seat of a disconnected user in a game against somebody, the first before the second. */
  lemma SeatLeftIs(g: Game, who: Player)
    ensures var seat := SeatLeft(g, who);
            var inPlay := g.status == Playing && g.cpu.None?;
            && (seat == 1 <==> inPlay && (g.player1.id == who.id || g.player1.socket == who.socket))
            && (seat == 2 <==> inPlay && seat != 1 && g.player2.Some?
                               && (g.player2.value.id == who.id || g.player2.value.socket == who.socket))
            && (seat != 1 && seat != 2 ==> seat == 0)
  {
  }

  /** The loser of a finished round makes way for a challenger; without one the same two play again. */
  lemma RematchIs(g: Game, who: Player, difficulty: string)
    ensures var g' := Step(g, Rematching(who, difficulty));
            var asked := g.status == Finished
                         && (who.id == g.creator || who.id == g.player1.id || who.socket == g.player1.socket);
            var again := g.(board := EmptyBoard(), turn := 1, status := Playing, result := NoResult, drops := 0);
            && (!asked ==> g' == g)
            && (asked && g.queue != [] ==> g' == Challenged(g, if g.result == Won(2) then 1 else 2, g.scores))
            && (asked && g.queue == [] && g.cpu.None? ==> g' == again)
            && (asked && g.queue == [] && g.cpu.Some? ==>
                  var d := if difficulty in ["easy", "medium", "hard"] then difficulty else g.cpu.value;
                  g' == again.(cpu := Some(d), player2 := Some(Player("cpu", "", "CPU (" + d + ")"))))
  {
  }

  /** A player who tags out goes to the end of the queue, and its head takes the seat on an empty board. */
  lemma TagOutIs(g: Game, sender: string)
    ensures var g' := Step(g, TaggingOut(sender));
            var may := g.status == Playing && g.queue != [];
            var first := may && g.player1.id == sender;
            var second := may && !first && g.cpu.None? && g.player2.Some? && g.player2.value.id == sender;
            var again := g.(board := EmptyBoard(), turn := 1, status := Playing, result := NoResult, drops := 0);
            && (!first && !second ==> g' == g)
            && (first ==> g' == again.(player1 := g.queue[0], queue := g.queue[1..] + [g.player1]))
            && (second ==> g' == again.(player2 := Some(g.queue[0]), queue := g.queue[1..] + [g.player2.value]))
  {
  }

  // ----- coming in -----

  predicate Inside(g: Game, id: string) {
    || g.player1.id == id || (g.player2.Some? && g.player2.value.id == id)
    || exists i :: 0 <= i < |g.queue| && g.queue[i].id == id
  }

  lemma InsideIff(g: Game, id: string)
    ensures HasPlace(g, id) <==> Inside(g, id)
  {
    forall i | 0 <= i < |g.queue| ensures g.queue[i].id in Ids(g.queue) {
      assert Ids(g.queue)[i] == g.queue[i].id;
    }
  }

  predicate CanQueue(g: Game, id: string) {
    g.status == Playing && !Inside(g, id) && !g.queueLocked && (g.maxQueue.Some? ==> |g.queue| < g.maxQueue.value)
  }

  /** A newcomer takes the free seat of a waiting game, or queues in one in progress, or changes nothing. */
  lemma JoinIs(g: Game, joiner: Player)
    ensures var g' := Step(g, Joining(joiner));
            var seated := g.status == Waiting && g.player2.None? && g.cpu.None? && !Inside(g, joiner.id);
            && (seated ==> g' == g.(player2 := Some(joiner), status := Playing))
            && (CanQueue(g, joiner.id) ==> g' == g.(queue := g.queue + [joiner]))
            && (!seated && !CanQueue(g, joiner.id) ==> g' == g)
            && Step(g, QueueingAgain(joiner)) ==
               if CanQueue(g, joiner.id) then g.(queue := g.queue + [joiner]) else g
  {
    InsideIff(g, joiner.id);
  }

  /** The settings: the CPU takes the free seat of its opponent's waiting game; the queue's limit and its lock. */
  lemma SettingsAre(g: Game, sender: string, difficulty: string, max: int, locked: bool)
    ensures var d := if difficulty in ["easy", "medium", "hard"] then difficulty else "medium";
            Step(g, SettingCpu(sender, difficulty)) ==
            if g.status == Waiting && g.player2.None? && sender == g.player1.id then
              g.(cpu := Some(d), player2 := Some(Player("cpu", "", "CPU (" + d + ")")), status := Playing)
            else g
    ensures var may := sender == g.creator || sender == g.player1.id;
            && Step(g, LockingQueue(sender, locked)) == (if may then g.(queueLocked := locked) else g)
            && var g' := Step(g, SettingMaxQueue(sender, max));
               if !may then g' == g
               else
                 && g'.maxQueue.Some? && g' == g.(maxQueue := g'.maxQueue)
                 && |g.queue| <= g'.maxQueue.value && (g'.maxQueue.value <= 50 || g'.maxQueue.value == |g.queue|)
                 && (|g.queue| <= max <= 50 ==> g'.maxQueue.value == max)
                 && (max > 50 >= |g.queue| ==> g'.maxQueue.value == 50)
                 && (max < |g.queue| ==> g'.maxQueue.value == |g.queue|)
  {
  }

  /** A returning user gets the first matching seat back under the new socket and the id, if there is one. */
  lemma RejoinIs(g: Game, userId: string, socket: string, name: string)
    ensures var g' := Step(g, Rejoining(userId, socket, name));
            var pid := if userId == "" then socket else userId;
            var first := g.status != Finished && (g.player1.id == pid || g.player1.name == name);
            var second := g.status != Finished && !first && g.cpu.None? && g.player2.Some?
                          && (g.player2.value.id == pid || g.player2.value.name == name);
            && (!first && !second ==> g' == g)
            && (first ==> g' == g.(player1 := g'.player1) && g'.player1.socket == socket
                          && g'.player1.name == g.player1.name
                          && g'.player1.id == if userId == "" then g.player1.id else userId)
            && (second ==> g' == g.(player2 := g'.player2) && g'.player2.Some? && g'.player2.value.socket == socket
                           && g'.player2.value.name == g.player2.value.name
                           && g'.player2.value.id == if userId == "" then g.player2.value.id else userId)
  {
  }

  // ----- the queue -----

  /** Whatever happens, the queue at most loses its head and gains one at its end. */
  lemma QueueIsFifo(games: seq<Game>, events: seq<Event>, i: nat, e: Event)
    requires IsRun(games, events) && i < |games|
    ensures var queue, queue' := games[i].queue, Step(games[i], e).queue;
            var rest := if queue == [] then [] else queue[1..];
            || queue' == queue || queue' == rest
            || (queue' != [] && (queue'[..|queue'| - 1] == queue || queue'[..|queue'| - 1] == rest))
  {
    var g := games[i];
    match e
    case Dropping(mover, col) =>
      DropIff(games, events, i, mover, col);
      if g.status == Playing && Due(g, mover) && 0 <= col < COLS && Cell(g.board, 0, col) == 0 {
        var row, b' := DropEffect(games, events, i, mover, col);
      }
    case Resigning(who) => ResignIs(g, who);
    case Abandoning(seat) => AbandonIs(g, seat);
    case Rematching(who, difficulty) => RematchIs(g, who, difficulty);
    case TaggingOut(sender) => TagOutIs(g, sender);
    case Joining(joiner) => JoinIs(g, joiner);
    case QueueingAgain(joiner) => JoinIs(g, joiner);
    case SettingCpu(sender, difficulty) => SettingsAre(g, sender, difficulty, 0, false);
    case SettingMaxQueue(sender, max) => SettingsAre(g, sender, "", max, false);
    case LockingQueue(sender, locked) => SettingsAre(g, sender, "", 0, locked);
    case Rejoining(userId, socket, name) => RejoinIs(g, userId, socket, name);
  }

  // ----- a new game -----

  /** A game starts on an empty board, its creator to move; against a computer at once, else with a free seat. */
  lemma NewGameIs(creator: Player, difficulty: string)
    ensures var g := NewGame(creator, difficulty);
            && g.creator == creator.id && g.player1 == creator && g.turn == 1 && g.queue == [] && !g.queueLocked
            && g.maxQueue.None? && g.scores == Scores(0, 0, 0) && g.result == NoResult && IsBoard(g.board)
            && (forall r, c :: OnBoard(r, c) ==> Cell(g.board, r, c) == 0)
            && if difficulty in ["easy", "medium", "hard"] then
                 && g.status == Playing && g.cpu == Some(difficulty)
                 && g.player2 == Some(Player("cpu", "", "CPU (" + difficulty + ")"))
               else g.status == Waiting && g.cpu.None? && g.player2.None?
  {
    EmptyBoardIs();
  }
}
