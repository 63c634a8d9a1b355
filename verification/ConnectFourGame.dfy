/**
 A Connect Four game with its queue of challengers (server/index.js): the handlers that move it, and what
 holds in every state they reach.
*/
module ConnectFourGame {
  import opened ConnectFour
  import opened Wrappers

  /** A seated or queued player, and also whoever sends a request; the CPU has no socket. */
  datatype Player = Player(id: string, socket: string, name: string)

  datatype Status = Waiting | Playing | Finished

  datatype RoundResult = NoResult | Won(player: int) | Drawn | Resigned | Abandoned

  datatype Scores = Scores(one: nat, two: nat, draws: nat)

  /** `cpu` holds the difficulty while the CPU plays; `drops` counts the discs of this round and is history. */
  datatype Game = Game(
    creator: string,
    player1: Player,
    player2: Option<Player>,
    cpu: Option<string>,
    board: Board,
    turn: int,
    status: Status,
    result: RoundResult,
    queue: seq<Player>,
    queueLocked: bool,
    maxQueue: Option<nat>,
    scores: Scores,
    drops: nat)

  const CPU := "cpu"
  const MAX_QUEUE: int := 50

  predicate IsDifficulty(d: string) {
    d == "easy" || d == "medium" || d == "hard"
  }

  function CpuPlayer(difficulty: string): Player {
    Player(CPU, "", "CPU (" + difficulty + ")")
  }

  function Ids(ps: seq<Player>): (ids: seq<string>)
    ensures |ids| == |ps| && forall i :: 0 <= i < |ps| ==> ids[i] == ps[i].id
  {
    seq(|ps|, i requires 0 <= i < |ps| => ps[i].id)
  }

  function Other(p: int): int {
    if p == 1 then 2 else 1
  }

  predicate Playable(g: Game) {
    IsBoard(g.board) && 1 <= g.turn <= 2
  }

  function NewGame(creator: Player, difficulty: string): Game {
    var cpu := if IsDifficulty(difficulty) then Some(difficulty) else None;
    Game(creator.id, creator, if cpu.Some? then Some(CpuPlayer(difficulty)) else None, cpu, EmptyBoard(), 1,
         if cpu.Some? then Playing else Waiting, NoResult, [], false, None, Scores(0, 0, 0), 0)
  }

  function FreshRound(g: Game): Game {
    g.(board := EmptyBoard(), turn := 1, status := Playing, result := NoResult, drops := 0)
  }

  /** The first challenger takes the place of the player who did not win. */
  function StartNewRound(g: Game, winner: int): Game
    requires g.queue != []
  {
    var seated := if winner == 2 then g.(player1 := g.queue[0]) else g.(player2 := Some(g.queue[0]));
    FreshRound(seated.(cpu := None, queue := g.queue[1..]))
  }

  function Score(s: Scores, o: Outcome): Scores {
    match o
    case Win(p, _) => if p == 1 then s.(one := s.one + 1) else s.(two := s.two + 1)
    case Draw => s.(draws := s.draws + 1)
    case Open => s
  }

  predicate Sits(seat: Option<Player>, id: string) {
    seat.Some? && seat.value.id == id
  }

  /** It is the mover's turn, or the CPU's and the mover is its opponent, who plays for it. */
  predicate MayDrop(g: Game, mover: string) {
    var isP1 := g.player1.id == mover;
    if g.turn == 1 then isP1 else Sits(g.player2, mover) || (g.cpu.Some? && isP1)
  }

  predicate Accepts(g: Game, mover: string, col: int)
    requires Playable(g)
  {
    g.status == Playing && 0 <= col < COLS && Cell(g.board, 0, col) == 0 && MayDrop(g, mover)
  }

  function DropDisc(g: Game, mover: string, col: int): Game
    requires Playable(g)
  {
    if Accepts(g, mover, col) then PutDisc(g, col) else g
  }

  function PutDisc(g: Game, col: nat): Game
    requires Playable(g) && col < COLS
  {
    var dropped := Drop(g.board, col, g.turn);
    if dropped.None? then g else Landed(g.(board := dropped.value.board, drops := g.drops + 1))
  }

  /** After a disc has landed: go on, finish, or start over with the next challenger. */
  function Landed(g: Game): Game
    requires Playable(g)
  {
    Conclude(g, CheckWinner(g.board))
  }

  function Conclude(g: Game, o: Outcome): Game {
    if o.Open? then g.(turn := Other(g.turn))
    else
      var scored := g.(scores := Score(g.scores, o));
      if g.queue != [] then StartNewRound(scored, if o.Win? then o.player else 0)
      else scored.(status := Finished, result := if o.Win? then Won(o.player) else Drawn)
  }

  function EndRound(g: Game, loser: int, result: RoundResult): Game {
    if g.queue != [] then StartNewRound(g, Other(loser)) else g.(status := Finished, result := result)
  }

  predicate SamePerson(p: Player, who: Player) {
    p.id == who.id || (who.name != "" && p.name == who.name)
  }

  /** The seat a user speaks for when resigning, by id or nickname; 0 is none. */
  function SeatOf(g: Game, who: Player): int {
    if SamePerson(g.player1, who) then 1
    else if g.player2.Some? && SamePerson(g.player2.value, who) && g.cpu.None? then 2
    else 0
  }

  function Resign(g: Game, who: Player): Game {
    if g.status != Playing || SeatOf(g, who) == 0 then g else EndRound(g, SeatOf(g, who), Resigned)
  }

  /** The seat whose player a disconnected user is while playing against somebody, by id or socket; 0 is none. */
  function SeatLeft(g: Game, who: Player): int {
    if g.status != Playing || g.cpu.Some? then 0
    else if g.player1.id == who.id || g.player1.socket == who.socket then 1
    else if g.player2.Some? && (g.player2.value.id == who.id || g.player2.value.socket == who.socket) then 2
    else 0
  }

  /** The player of a seat whose socket went away while playing has not come back in time. */
  function Abandon(g: Game, seat: int): Game {
    if g.status != Playing || !(1 <= seat <= 2) then g else EndRound(g, seat, Abandoned)
  }

  function Rematch(g: Game, who: Player, difficulty: string): Game {
    if g.status != Finished || !(g.creator == who.id || g.player1.id == who.id || g.player1.socket == who.socket) then g
    else if g.queue != [] then StartNewRound(g, if g.result.Won? then g.result.player else 1)
    else if g.cpu.Some? then
      var next := if IsDifficulty(difficulty) then difficulty else g.cpu.value;
      FreshRound(g.(cpu := Some(next), player2 := Some(CpuPlayer(next))))
    else FreshRound(g)
  }

  function TagOut(g: Game, sender: string): Game {
    var isP1 := g.player1.id == sender;
    if g.status != Playing || g.queue == [] || !(isP1 || (Sits(g.player2, sender) && g.cpu.None?)) then g
    else if isP1 then FreshRound(g.(player1 := g.queue[0], queue := g.queue[1..] + [g.player1]))
    else FreshRound(g.(player2 := Some(g.queue[0]), queue := g.queue[1..] + [g.player2.value]))
  }

  predicate HasPlace(g: Game, id: string) {
    g.player1.id == id || Sits(g.player2, id) || id in Ids(g.queue)
  }

  predicate QueueOpen(g: Game) {
    !g.queueLocked && (g.maxQueue.Some? ==> |g.queue| < g.maxQueue.value)
  }

  function QueueAgain(g: Game, joiner: Player): Game {
    if g.status != Playing || HasPlace(g, joiner.id) || !QueueOpen(g) then g
    else g.(queue := g.queue + [joiner])
  }

  function Join(g: Game, joiner: Player): Game {
    if g.status == Finished || HasPlace(g, joiner.id) then g
    else if g.player2.None? && g.status == Waiting && g.cpu.None? then g.(player2 := Some(joiner), status := Playing)
    else QueueAgain(g, joiner)
  }

  function SetCpu(g: Game, sender: string, difficulty: string): Game {
    if g.player1.id != sender || g.player2.Some? || g.status != Waiting then g
    else
      var d := if IsDifficulty(difficulty) then difficulty else "medium";
      g.(cpu := Some(d), player2 := Some(CpuPlayer(d)), status := Playing)
  }

  predicate Manages(g: Game, sender: string) {
    g.creator == sender || g.player1.id == sender
  }

  function SetMaxQueue(g: Game, sender: string, max: int): Game {
    if !Manages(g, sender) then g
    else
      var capped := if max < MAX_QUEUE then max else MAX_QUEUE;
      g.(maxQueue := Some(if capped > |g.queue| then capped else |g.queue|))
  }

  function LockQueue(g: Game, sender: string, locked: bool): Game {
    if !Manages(g, sender) then g else g.(queueLocked := locked)
  }

  /** After a reconnection the seat has the new socket and, if there is one, the user id. */
  function Rejoin(g: Game, userId: string, socket: string, name: string): Game {
    match RejoinedSeat(g, userId, socket, name)
    case 1 => g.(player1 := Renewed(g.player1, userId, socket))
    case 2 => if g.player2.Some? then g.(player2 := Some(Renewed(g.player2.value, userId, socket))) else g
    case _ => g
  }

  function Renewed(p: Player, userId: string, socket: string): Player {
    p.(socket := socket, id := if userId != "" then userId else p.id)
  }

  /** The seat with this id or name, the first before the second; the CPU's seat is nobody's. */
  function RejoinedSeat(g: Game, userId: string, socket: string, name: string): (seat: nat)
    ensures seat == 2 ==> g.player2.Some?
  {
    var pid := if userId != "" then userId else socket;
    if g.status == Finished then 0
    else if g.player1.id == pid || g.player1.name == name then 1
    else if g.player2.Some? && g.cpu.None? && (g.player2.value.id == pid || g.player2.value.name == name) then 2
    else 0
  }

  // ----- the program -----

  class ConnectFourMessage {
    var creatorId: string
    var player1: Player
    var player2: Option<Player>
    var cpu: Option<string>
    var board: Board
    var turn: int
    var status: Status
    var result: RoundResult
    var challengeQueue: seq<Player>
    var queueLocked: bool
    var maxQueue: Option<nat>
    var scores: Scores
    ghost var drops: nat

    ghost function View(): Game
      reads this
    {
      Game(creatorId, player1, player2, cpu, board, turn, status, result, challengeQueue, queueLocked, maxQueue,
           scores, drops)
    }

    predicate Takes(id: string)
      reads this
      ensures Takes(id) == HasPlace(View(), id)
    {
      player1.id == id || Sits(player2, id) || id in Ids(challengeQueue)
    }

    constructor (creator: Player, difficulty: string)
      ensures View() == NewGame(creator, difficulty)
    {
      var withCpu := IsDifficulty(difficulty);
      creatorId, player1 := creator.id, creator;
      player2 := if withCpu then Some(CpuPlayer(difficulty)) else None;
      cpu := if withCpu then Some(difficulty) else None;
      board, turn, status := EmptyBoard(), 1, if withCpu then Playing else Waiting;
      result, challengeQueue, queueLocked, maxQueue := NoResult, [], false, None;
      scores, drops := Scores(0, 0, 0), 0;
    }

    method ClearBoard()
      modifies this
      ensures View() == FreshRound(old(View()))
    {
      board := EmptyBoard();
      turn := 1;
      status := Playing;
      result := NoResult;
      drops := 0;
    }

    method C4StartNewRound(winner: int)
      requires challengeQueue != []
      modifies this
      ensures View() == StartNewRound(old(View()), winner)
    {
      var challenger := challengeQueue[0];
      challengeQueue := challengeQueue[1..];
      if winner == 2 {
        player1 := challenger;
      } else {
        player2 := Some(challenger);
      }
      cpu := None;
      ClearBoard();
    }

    method IsTurnOf(mover: string) returns (allowed: bool)
      requires 1 <= turn <= 2
      ensures allowed == MayDrop(View(), mover)
    {
      var isP1 := player1.id == mover;
      var isP2 := Sits(player2, mover);
      var isCpuTurn := cpu.Some? && turn == 2;
      if !isP1 && !isP2 && !(isCpuTurn && isP1) {
        return false;
      }
      if turn == 1 && !isP1 {
        return false;
      }
      if turn == 2 && !isP2 && !(isCpuTurn && isP1) {
        return false;
      }
      return true;
    }

    method OnDrop(mover: string, col: int)
      requires Playable(View())
      modifies this
      ensures View() == DropDisc(old(View()), mover, col)
    {
      if status != Playing || !(0 <= col < COLS) || Cell(board, 0, col) != 0 {
        return;
      }
      var allowed := IsTurnOf(mover);
      if !allowed {
        return;
      }
      Put(col);
    }

    method Put(col: nat)
      requires Playable(View()) && col < COLS
      modifies this
      ensures View() == PutDisc(old(View()), col)
    {
      var res := C4Drop(board, col, turn);
      if res.None? {
        return;
      }
      board, drops := res.value.board, drops + 1;
      AfterLanding();
    }

    method AfterLanding()
      requires Playable(View())
      modifies this
      ensures View() == Landed(old(View()))
    {
      var outcome := C4CheckWinner(board);
      if outcome.Open? {
        turn := if turn == 1 then 2 else 1;
      } else {
        scores := Score(scores, outcome);
        if challengeQueue != [] {
          C4StartNewRound(if outcome.Win? then outcome.player else 0);
        } else {
          status := Finished;
          result := if outcome.Win? then Won(outcome.player) else Drawn;
        }
      }
    }

    method FinishRound(loser: int, how: RoundResult)
      modifies this
      ensures View() == EndRound(old(View()), loser, how)
    {
      if challengeQueue != [] {
        C4StartNewRound(if loser == 1 then 2 else 1);
      } else {
        status := Finished;
        result := how;
      }
    }

    method OnResign(who: Player)
      modifies this
      ensures View() == Resign(old(View()), who)
    {
      if status != Playing {
        return;
      }
      var isP1 := player1.id == who.id || (who.name != "" && player1.name == who.name);
      var isP2 := player2.Some? && SamePerson(player2.value, who) && cpu.None?;
      if !isP1 && !isP2 {
        return;
      }
      FinishRound(if isP1 then 1 else 2, Resigned);
    }

    /** The seat for which the timer is set, if any. */
    method OnDisconnect(who: Player) returns (seat: int)
      ensures seat == SeatLeft(View(), who)
    {
      if status != Playing || cpu.Some? {
        return 0;
      }
      var isP1 := player1.id == who.id || player1.socket == who.socket;
      var isP2 := player2.Some? && (player2.value.id == who.id || player2.value.socket == who.socket);
      if !isP1 && !isP2 {
        return 0;
      }
      seat := if isP1 then 1 else 2;
    }

    method OnAbandon(seat: int)
      modifies this
      ensures View() == Abandon(old(View()), seat)
    {
      if status == Playing && 1 <= seat <= 2 {
        FinishRound(seat, Abandoned);
      }
    }

    method OnRematch(who: Player, difficulty: string)
      modifies this
      ensures View() == Rematch(old(View()), who, difficulty)
    {
      if status != Finished {
        return;
      }
      if !(creatorId == who.id || player1.id == who.id || player1.socket == who.socket) {
        return;
      }
      if challengeQueue != [] {
        C4StartNewRound(if result.Won? then result.player else 1);
        return;
      }
      if cpu.Some? {
        var newDiff := if IsDifficulty(difficulty) then difficulty else cpu.value;
        cpu := Some(newDiff);
        player2 := Some(CpuPlayer(newDiff));
      }
      ClearBoard();
    }

    method OnTagOut(sender: string)
      modifies this
      ensures View() == TagOut(old(View()), sender)
    {
      if status != Playing || challengeQueue == [] {
        return;
      }
      var isP1 := player1.id == sender;
      var isP2 := Sits(player2, sender) && cpu.None?;
      if !isP1 && !isP2 {
        return;
      }
      var taggingOut := if isP1 then player1 else player2.value;
      var challenger := challengeQueue[0];
      challengeQueue := challengeQueue[1..] + [taggingOut];
      if isP1 {
        player1 := challenger;
      } else {
        player2 := Some(challenger);
      }
      ClearBoard();
    }

    method OnQueueAgain(joiner: Player)
      modifies this
      ensures View() == QueueAgain(old(View()), joiner)
    {
      if status != Playing || Takes(joiner.id) || queueLocked {
        return;
      }
      if maxQueue.Some? && |challengeQueue| >= maxQueue.value {
        return;
      }
      challengeQueue := challengeQueue + [joiner];
    }

    method OnJoin(joiner: Player)
      modifies this
      ensures View() == Join(old(View()), joiner)
    {
      if status == Finished || Takes(joiner.id) {
        return;
      }
      if player2.None? && status == Waiting && cpu.None? {
        player2 := Some(joiner);
        status := Playing;
      } else {
        OnQueueAgain(joiner);
      }
    }

    method OnSetCpu(sender: string, difficulty: string)
      modifies this
      ensures View() == SetCpu(old(View()), sender, difficulty)
    {
      if player1.id != sender || player2.Some? || status != Waiting {
        return;
      }
      var diff := if IsDifficulty(difficulty) then difficulty else "medium";
      cpu := Some(diff);
      player2 := Some(CpuPlayer(diff));
      status := Playing;
    }

    method OnRejoin(userId: string, socket: string, name: string)
      modifies this
      ensures View() == Rejoin(old(View()), userId, socket, name)
    {
      if status == Finished {
        return;
      }
      var pid := if userId != "" then userId else socket;
      var isP1 := player1.id == pid || player1.name == name;
      var isP2 := player2.Some? && cpu.None? && (player2.value.id == pid || player2.value.name == name);
      if isP1 {
        player1 := Renewed(player1, userId, socket);
      } else if isP2 {
        player2 := Some(Renewed(player2.value, userId, socket));
      }
    }

    method OnSetMaxQueue(sender: string, max: int)
      modifies this`maxQueue
      ensures View() == SetMaxQueue(old(View()), sender, max)
    {
      if creatorId == sender || player1.id == sender {
        var capped := if max < MAX_QUEUE then max else MAX_QUEUE;
        maxQueue := Some(if capped > |challengeQueue| then capped else |challengeQueue|);
      }
    }

    method OnLockQueue(sender: string, locked: bool)
      modifies this`queueLocked
      ensures View() == LockQueue(old(View()), sender, locked)
    {
      if creatorId == sender || player1.id == sender {
        queueLocked := locked;
      }
    }
  }

  // ----- what every step keeps -----

  /** Discs alternate, starting with player 1; `mover` is about to drop. */
  predicate Balanced(b: Board, mover: int) {
    Count(b, 1) == Count(b, 2) + if mover == 1 then 0 else 1
  }

  ghost predicate Undecided(b: Board)
    requires IsBoard(b)
  {
    !HasLine(b, 1) && !HasLine(b, 2) && !TopFull(b)
  }

  ghost predicate BoardOk(g: Game) {
    && Playable(g) && Settled(g.board) && g.drops == Count(g.board, 1) + Count(g.board, 2)
    && match g.result
       case Won(p) =>
         g.status == Finished && p == g.turn && HasLine(g.board, p) && !HasLine(g.board, Other(p))
         && Balanced(g.board, Other(p))
       case Drawn =>
         g.status == Finished && !HasLine(g.board, 1) && !HasLine(g.board, 2) && TopFull(g.board)
         && Balanced(g.board, Other(g.turn))
       case NoResult => g.status != Finished && Undecided(g.board) && Balanced(g.board, g.turn)
       case _ => g.status == Finished && Undecided(g.board) && Balanced(g.board, g.turn)
  }

  /** The second seat is free exactly while the game waits, nobody queues before that, and an active CPU sits there. */
  predicate SeatsOk(g: Game) {
    && (g.player2.None? <==> g.status == Waiting) && (g.status == Waiting ==> g.queue == [])
    && (g.cpu.Some? ==> Sits(g.player2, CPU))
  }

  ghost predicate Inv(g: Game) {
    BoardOk(g) && SeatsOk(g)
  }

  lemma NewGameOk(creator: Player, difficulty: string)
    ensures Inv(NewGame(creator, difficulty))
  {
    EmptyBoardIs();
  }

  lemma StartNewRoundOk(g: Game, winner: int)
    requires SeatsOk(g) && g.queue != []
    ensures Inv(StartNewRound(g, winner))
  {
    EmptyBoardIs();
  }

  /** A landed disc leaves the board settled and balanced for the other player, and only its owner can have won. */
  lemma DropLands(g: Game, col: nat)
    requires BoardOk(g) && g.status == Playing && col < COLS && Cell(g.board, 0, col) == 0
    ensures var d := Drop(g.board, col, g.turn);
            && d.Some? && Settled(d.value.board) && IsBoard(d.value.board)
            && Count(d.value.board, 1) + Count(d.value.board, 2) == g.drops + 1
            && Balanced(d.value.board, Other(g.turn)) && !HasLine(d.value.board, Other(g.turn))
  {
    DropIs(g.board, col, g.turn);
    var d := Drop(g.board, col, g.turn).value;
    PlaceCounts(g.board, d.row, col, g.turn, 1);
    PlaceCounts(g.board, d.row, col, g.turn, 2);
    if HasLine(d.board, Other(g.turn)) {
      OnlyMoverGainsLine(g.board, d.row, col, g.turn, Other(g.turn));
    }
  }

  /** The outcome of a board on which the owner of the last disc is the only one who can have a line. */
  ghost predicate OutcomeOk(b: Board, mover: int, o: Outcome)
    requires IsBoard(b)
  {
    && (o.Win? <==> HasLine(b, mover)) && (o.Win? ==> o.player == mover)
    && (o.Draw? <==> !HasLine(b, mover) && TopFull(b))
  }

  lemma MoverDecides(b: Board, mover: int)
    requires IsBoard(b) && 1 <= mover <= 2 && !HasLine(b, Other(mover))
    ensures OutcomeOk(b, mover, CheckWinner(b))
  {
    CheckWinnerIff(b);
    OnlyMoversLine(b, mover, CheckWinner(b));
  }

  lemma OnlyMoversLine(b: Board, mover: int, o: Outcome)
    requires IsBoard(b) && 1 <= mover <= 2 && !HasLine(b, Other(mover))
    requires o.Win? <==> HasLine(b, 1) || HasLine(b, 2)
    requires o.Win? ==> 1 <= o.player <= 2 && HasLine(b, o.player)
    requires o.Draw? <==> !HasLine(b, 1) && !HasLine(b, 2) && TopFull(b)
    ensures OutcomeOk(b, mover, o)
  {
    if mover == 1 {
      assert !HasLine(b, 2);
    } else {
      assert !HasLine(b, 1) && mover == 2;
    }
  }

  /** A game in which a disc has just landed. */
  ghost predicate JustLanded(g: Game) {
    && SeatsOk(g) && Playable(g) && g.status == Playing && g.result.NoResult?
    && Settled(g.board) && g.drops == Count(g.board, 1) + Count(g.board, 2)
    && Balanced(g.board, Other(g.turn)) && !HasLine(g.board, Other(g.turn))
  }

  lemma ConcludeOk(g: Game, o: Outcome)
    requires JustLanded(g) && OutcomeOk(g.board, g.turn, o)
    ensures Inv(Conclude(g, o))
  {
    var scored := g.(scores := Score(g.scores, o));
    if o.Open? {
      assert BoardOk(Conclude(g, o));
    } else if g.queue != [] {
      StartNewRoundOk(scored, if o.Win? then o.player else 0);
    } else {
      FinishedOk(scored, o);
    }
  }

  lemma FinishedOk(g: Game, o: Outcome)
    requires JustLanded(g) && OutcomeOk(g.board, g.turn, o) && !o.Open?
    ensures Inv(g.(status := Finished, result := if o.Win? then Won(o.player) else Drawn))
  {
  }

  lemma LandedOk(g: Game)
    requires JustLanded(g)
    ensures Inv(Landed(g))
  {
    MoverDecides(g.board, g.turn);
    ConcludeOk(g, CheckWinner(g.board));
  }

  lemma DropOk(g: Game, mover: string, col: int)
    requires Inv(g)
    ensures Inv(DropDisc(g, mover, col))
  {
    if Accepts(g, mover, col) {
      DropLands(g, col);
      var dropped := Drop(g.board, col, g.turn).value;
      PutDiscIs(g, col, dropped);
      LandedOk(g.(board := dropped.board, drops := g.drops + 1));
    }
  }

  lemma PutDiscIs(g: Game, col: nat, dropped: Dropped)
    requires Playable(g) && col < COLS
    requires Drop(g.board, col, g.turn) == Some(dropped) && IsBoard(dropped.board)
    ensures PutDisc(g, col) == Landed(g.(board := dropped.board, drops := g.drops + 1))
  {
  }

  lemma EndRoundOk(g: Game, loser: int, result: RoundResult)
    requires Inv(g) && g.status == Playing && (result.Resigned? || result.Abandoned?)
    ensures Inv(EndRound(g, loser, result))
  {
    if g.queue != [] { StartNewRoundOk(g, Other(loser)); }
  }

  lemma RematchOk(g: Game, who: Player, difficulty: string)
    requires Inv(g)
    ensures Inv(Rematch(g, who, difficulty))
  {
    if g.queue != [] {
      StartNewRoundOk(g, if g.result.Won? then g.result.player else 1);
    } else {
      EmptyBoardIs();
    }
  }

  lemma TagOutOk(g: Game, sender: string)
    requires Inv(g)
    ensures Inv(TagOut(g, sender))
  {
    EmptyBoardIs();
  }

  // ----- every run -----

  datatype Event =
    | Dropping(mover: string, col: int)
    | Resigning(who: Player)
    | Abandoning(seat: int)
    | Rematching(who: Player, difficulty: string)
    | TaggingOut(sender: string)
    | Joining(joiner: Player)
    | QueueingAgain(joiner: Player)
    | SettingCpu(sender: string, difficulty: string)
    | SettingMaxQueue(sender: string, max: int)
    | LockingQueue(sender: string, locked: bool)
    | Rejoining(userId: string, socket: string, name: string)

  /** The board keeps its shape in every run (RunOk), so the test for it never decides anything. */
  function Step(g: Game, e: Event): Game {
    match e
    case Dropping(mover, col) => if Playable(g) then DropDisc(g, mover, col) else g
    case Resigning(who) => Resign(g, who)
    case Abandoning(seat) => Abandon(g, seat)
    case Rematching(who, difficulty) => Rematch(g, who, difficulty)
    case TaggingOut(sender) => TagOut(g, sender)
    case Joining(joiner) => Join(g, joiner)
    case QueueingAgain(joiner) => QueueAgain(g, joiner)
    case SettingCpu(sender, difficulty) => SetCpu(g, sender, difficulty)
    case SettingMaxQueue(sender, max) => SetMaxQueue(g, sender, max)
    case LockingQueue(sender, locked) => LockQueue(g, sender, locked)
    case Rejoining(userId, socket, name) => Rejoin(g, userId, socket, name)
  }

  lemma StepOk(g: Game, e: Event)
    requires Inv(g)
    ensures Inv(Step(g, e))
  {
    match e
    case Dropping(mover, col) => DropOk(g, mover, col);
    case Resigning(who) => if g.status == Playing { EndRoundOk(g, SeatOf(g, who), Resigned); }
    case Abandoning(seat) => if g.status == Playing { EndRoundOk(g, seat, Abandoned); }
    case Rematching(who, difficulty) => RematchOk(g, who, difficulty);
    case TaggingOut(sender) => TagOutOk(g, sender);
    case _ =>
  }

  /** Any user may do anything at any time, under any id; what the handlers refuse changes nothing. */
  ghost predicate IsRun(games: seq<Game>, events: seq<Event>) {
    && |games| == |events| + 1
    && (exists creator: Player, difficulty :: games[0] == NewGame(creator, difficulty))
    && forall i :: 0 <= i < |events| ==> games[i + 1] == Step(games[i], events[i])
  }

  lemma {:induction false} RunOk(games: seq<Game>, events: seq<Event>, i: nat)
    requires IsRun(games, events) && i < |games|
    ensures Inv(games[i])
  {
    if i == 0 {
      var creator: Player, difficulty :| games[0] == NewGame(creator, difficulty);
      NewGameOk(creator, difficulty);
    } else {
      RunOk(games, events, i - 1);
      StepOk(games[i - 1], events[i - 1]);
    }
  }

  /**
   In every state of every run: columns are filled from below; the numbers of discs match the turn; a round
   has at most 42 drops and goes on only while nobody has four in a row and some column has room.
  */
  lemma RoundsAreSound(games: seq<Game>, events: seq<Event>, i: nat)
    requires IsRun(games, events) && i < |games|
    ensures var g := games[i];
            && Playable(g) && Settled(g.board) && g.drops == Count(g.board, 1) + Count(g.board, 2) <= 42
            && (g.status == Playing ==>
                  && g.drops < 42 && !HasLine(g.board, 1) && !HasLine(g.board, 2)
                  && Count(g.board, 1) == Count(g.board, 2) + (if g.turn == 1 then 0 else 1)
                  && exists col :: 0 <= col < COLS && Cell(g.board, 0, col) == 0)
  {
    RunOk(games, events, i);
    Total(games[i].board);
    TopFullIff(games[i].board);
  }

  /**
   A finished round that nobody resigned or left was ended by its last drop: either the player who made it has
   four in a row and the other has not, or the board is full and nobody has.
  */
  lemma ResultsAreRight(games: seq<Game>, events: seq<Event>, i: nat)
    requires IsRun(games, events) && i < |games| && games[i].status == Finished
    requires !games[i].result.Resigned? && !games[i].result.Abandoned?
    ensures var g := games[i];
            && Playable(g)
            && (if g.result.Won? then
                  g.result.player == g.turn && HasLine(g.board, g.turn) && !HasLine(g.board, Other(g.turn))
                else g.drops == 42 && !HasLine(g.board, 1) && !HasLine(g.board, 2))
            && Count(g.board, g.turn) == Count(g.board, Other(g.turn)) + (if g.turn == 1 then 1 else 0)
  {
    RunOk(games, events, i);
    TopFullIff(games[i].board);
  }

  /** An accepted drop of player p gives the opponent no line, so only the player who has just moved can own one. */
  lemma OnlyMoverWins(games: seq<Game>, events: seq<Event>, i: nat, mover: string, col: int)
    requires IsRun(games, events) && i < |games| && games[i].status == Playing
    requires 0 <= col < COLS && MayDrop(games[i], mover)
    ensures Playable(games[i])
            && (Cell(games[i].board, 0, col) == 0 <==> Drop(games[i].board, col, games[i].turn).Some?)
    ensures Cell(games[i].board, 0, col) == 0 ==>
              var b' := Drop(games[i].board, col, games[i].turn).value.board;
              !HasLine(b', Other(games[i].turn)) && OutcomeOk(b', games[i].turn, CheckWinner(b'))
  {
    RunOk(games, events, i);
    DropIs(games[i].board, col, games[i].turn);
    if Cell(games[i].board, 0, col) == 0 {
      DropLands(games[i], col);
      MoverDecides(Drop(games[i].board, col, games[i].turn).value.board, games[i].turn);
    }
  }

  // ----- scores -----

  /** How an event ends a round by a drop, told by the lines on the board it leaves; Open if it does not. */
  ghost function Decision(g: Game, e: Event): Outcome {
    if !(Playable(g) && e.Dropping? && Accepts(g, e.mover, e.col)) then Open
    else
      var dropped := Drop(g.board, e.col, g.turn);
      if dropped.None? then Open
      else if HasLine(dropped.value.board, g.turn) then Win(g.turn, [])
      else if TopFull(dropped.value.board) then Draw
      else Open
  }

  /** One point for each such event among the first i, for whoever it favours. */
  ghost function Tally(games: seq<Game>, events: seq<Event>, i: nat): Scores
    requires i <= |events| && i <= |games|
  {
    if i == 0 then Scores(0, 0, 0) else Score(Tally(games, events, i - 1), Decision(games[i - 1], events[i - 1]))
  }

  lemma StepScores(g: Game, e: Event)
    requires Inv(g)
    ensures Step(g, e).scores == Score(g.scores, Decision(g, e))
  {
    if e.Dropping? && Accepts(g, e.mover, e.col) {
      DropLands(g, e.col);
      var dropped := Drop(g.board, e.col, g.turn).value;
      PutDiscIs(g, e.col, dropped);
      MoverDecides(dropped.board, g.turn);
      ConcludeScores(g.(board := dropped.board, drops := g.drops + 1), CheckWinner(dropped.board));
    }
  }

  lemma ConcludeScores(g: Game, o: Outcome)
    requires IsBoard(g.board) && OutcomeOk(g.board, g.turn, o)
    ensures Conclude(g, o).scores ==
            Score(g.scores,
                  if HasLine(g.board, g.turn) then Win(g.turn, []) else if TopFull(g.board) then Draw else Open)
  {
  }

  lemma TallyStep(games: seq<Game>, events: seq<Event>, i: nat)
    requires 0 < i <= |events| && i < |games| && Inv(games[i - 1]) && games[i] == Step(games[i - 1], events[i - 1])
    requires games[i - 1].scores == Tally(games, events, i - 1)
    ensures games[i].scores == Tally(games, events, i)
  {
    StepScores(games[i - 1], events[i - 1]);
  }

  lemma RunStarts(games: seq<Game>, events: seq<Event>)
    requires IsRun(games, events)
    ensures games[0].scores == Scores(0, 0, 0)
  {
  }

  /** The scores are the tally of the rounds ended by drops, through rematches, resignations and changes of players. */
  lemma {:induction false} ScoresTally(games: seq<Game>, events: seq<Event>, i: nat)
    requires IsRun(games, events) && i < |games|
    ensures games[i].scores == Tally(games, events, i)
  {
    if i > 0 {
      RunOk(games, events, i - 1);
      ScoresTally(games, events, i - 1);
      TallyStep(games, events, i);
    } else {
      RunStarts(games, events);
    }
  }

  // ----- places -----

  predicate NoRepeat(s: seq<string>) {
    s == [] || (s[0] !in s[1..] && NoRepeat(s[1..]))
  }

  /** Nobody plays against themselves, waits while playing, or waits twice. */
  predicate OnePlaceEach(g: Game) {
    && NoRepeat(Ids(g.queue)) && g.player1.id !in Ids(g.queue)
    && (g.player2.Some? ==> g.player2.value.id != g.player1.id && g.player2.value.id !in Ids(g.queue))
  }

  lemma {:induction false} NoRepeatPush(s: seq<string>, x: string)
    requires NoRepeat(s) && x !in s
    ensures NoRepeat(s + [x])
  {
    if s != [] {
      NoRepeatPush(s[1..], x);
      assert (s + [x])[1..] == s[1..] + [x];
    } else {
      assert (s + [x])[1..] == [];
    }
  }

  /** One more at the end of a queue. */
  lemma QueuePush(queue: seq<Player>, p: Player)
    requires NoRepeat(Ids(queue)) && p.id !in Ids(queue)
    ensures NoRepeat(Ids(queue + [p])) && Ids(queue + [p]) == Ids(queue) + [p.id]
  {
    NoRepeatPush(Ids(queue), p.id);
    assert Ids(queue + [p]) == Ids(queue) + [p.id];
  }

  lemma ShiftIds(queue: seq<Player>)
    requires queue != []
    ensures Ids(queue[1..]) == Ids(queue)[1..]
  {
  }

  lemma StartNewRoundOnce(g: Game, winner: int)
    requires OnePlaceEach(g) && g.queue != []
    ensures OnePlaceEach(StartNewRound(g, winner))
  {
    ShiftIds(g.queue);
  }

  lemma ConcludeOnce(g: Game, o: Outcome)
    requires OnePlaceEach(g)
    ensures OnePlaceEach(Conclude(g, o))
  {
    if g.queue != [] {
      StartNewRoundOnce(g.(scores := Score(g.scores, o)), if o.Win? then o.player else 0);
    }
  }

  lemma DropOnce(g: Game, mover: string, col: int)
    requires Inv(g) && OnePlaceEach(g)
    ensures OnePlaceEach(DropDisc(g, mover, col))
  {
    if Accepts(g, mover, col) {
      DropLands(g, col);
      var dropped := Drop(g.board, col, g.turn).value;
      PutDiscIs(g, col, dropped);
      LandedOnce(g.(board := dropped.board, drops := g.drops + 1));
    }
  }

  lemma LandedOnce(g: Game)
    requires Playable(g) && OnePlaceEach(g)
    ensures OnePlaceEach(Landed(g))
  {
    ConcludeOnce(g, CheckWinner(g.board));
  }

  lemma EndRoundOnce(g: Game, loser: int, result: RoundResult)
    requires OnePlaceEach(g)
    ensures OnePlaceEach(EndRound(g, loser, result))
  {
    if g.queue != [] { StartNewRoundOnce(g, Other(loser)); }
  }

  lemma RematchOnce(g: Game, who: Player, difficulty: string)
    requires SeatsOk(g) && OnePlaceEach(g)
    ensures OnePlaceEach(Rematch(g, who, difficulty))
  {
    if g.queue != [] { StartNewRoundOnce(g, if g.result.Won? then g.result.player else 1); }
  }

  lemma TagOutOnce(g: Game, sender: string)
    requires OnePlaceEach(g)
    ensures OnePlaceEach(TagOut(g, sender))
  {
    if g.queue != [] {
      ShiftIds(g.queue);
      if g.player1.id == sender {
        QueuePush(g.queue[1..], g.player1);
      } else if g.player2.Some? {
        QueuePush(g.queue[1..], g.player2.value);
      }
    }
  }

  lemma QueueAgainOnce(g: Game, joiner: Player)
    requires OnePlaceEach(g)
    ensures OnePlaceEach(QueueAgain(g, joiner))
  {
    if !HasPlace(g, joiner.id) { QueuePush(g.queue, joiner); }
  }

  /** A new game gives somebody two places exactly when its creator goes by the CPU's id and asks for the CPU. */
  lemma NewGameOnceIff(creator: Player, difficulty: string)
    ensures OnePlaceEach(NewGame(creator, difficulty)) <==> !(creator.id == CPU && IsDifficulty(difficulty))
  {
  }

  /** A rejoin changes no id, or brings one that has no place yet. */
  predicate RejoinIsHarmless(g: Game, userId: string, socket: string, name: string) {
    var seat := RejoinedSeat(g, userId, socket, name);
    || seat == 0 || userId == "" || !HasPlace(g, userId)
    || userId == if seat == 1 then g.player1.id else g.player2.value.id
  }

  /** What can give somebody a second place: a rejoin that takes over another's id, or the CPU joining its own id. */
  predicate Harmless(g: Game, e: Event) {
    match e
    case Rejoining(userId, socket, name) => RejoinIsHarmless(g, userId, socket, name)
    case SettingCpu(sender, _) => !(g.status == Waiting && g.player1.id == sender == CPU)
    case _ => true
  }

  lemma RejoinKeepsOnceIff(g: Game, userId: string, socket: string, name: string)
    requires OnePlaceEach(g)
    ensures OnePlaceEach(Rejoin(g, userId, socket, name)) <==> RejoinIsHarmless(g, userId, socket, name)
  {
  }

  /** One event keeps one place for each exactly when it is harmless. */
  lemma StepKeepsOnceIff(g: Game, e: Event)
    requires Inv(g) && OnePlaceEach(g)
    ensures OnePlaceEach(Step(g, e)) <==> Harmless(g, e)
  {
    match e
    case Dropping(mover, col) => DropOnce(g, mover, col);
    case Resigning(who) => EndRoundOnce(g, SeatOf(g, who), Resigned);
    case Abandoning(seat) => EndRoundOnce(g, seat, Abandoned);
    case Rematching(who, difficulty) => RematchOnce(g, who, difficulty);
    case TaggingOut(sender) => TagOutOnce(g, sender);
    case Joining(joiner) => QueueAgainOnce(g, joiner);
    case QueueingAgain(joiner) => QueueAgainOnce(g, joiner);
    case Rejoining(userId, socket, name) => RejoinKeepsOnceIff(g, userId, socket, name);
    case _ =>
  }

  /** As long as every event has been harmless, everyone has one place. */
  lemma {:induction false} EveryoneOnce(games: seq<Game>, events: seq<Event>, i: nat)
    requires IsRun(games, events) && i < |games| && OnePlaceEach(games[0])
    requires forall k :: 0 <= k < i ==> Harmless(games[k], events[k])
    ensures OnePlaceEach(games[i])
  {
    if i > 0 {
      EveryoneOnce(games, events, i - 1);
      RunOk(games, events, i - 1);
      StepKeepsOnceIff(games[i - 1], events[i - 1]);
    }
  }

  /** Over a whole run, everyone has one place throughout exactly when they start so and every event is harmless. */
  lemma EveryoneOnceIff(games: seq<Game>, events: seq<Event>)
    requires IsRun(games, events)
    ensures (forall i :: 0 <= i < |games| ==> OnePlaceEach(games[i])) <==>
            OnePlaceEach(games[0]) && forall i :: 0 <= i < |events| ==> Harmless(games[i], events[i])
  {
    if forall i :: 0 <= i < |games| ==> OnePlaceEach(games[i]) {
      forall i | 0 <= i < |events| ensures Harmless(games[i], events[i]) {
        RunOk(games, events, i);
        StepKeepsOnceIff(games[i], events[i]);
        assert OnePlaceEach(games[i + 1]);
      }
    } else if OnePlaceEach(games[0]) && forall i :: 0 <= i < |events| ==> Harmless(games[i], events[i]) {
      forall i | 0 <= i < |games| ensures OnePlaceEach(games[i]) {
        EveryoneOnce(games, events, i);
      }
    }
  }

  /** A user who goes by the CPU's id and starts a game against the CPU sits in both seats. */
  lemma CpuCreatorDoubles(creator: Player, difficulty: string) returns (games: seq<Game>, events: seq<Event>)
    requires creator.id == CPU
    ensures IsRun(games, events) && |events| == 1 && events[0] == SettingCpu(CPU, difficulty)
    ensures games[1].player1.id == CPU && Sits(games[1].player2, CPU) && !OnePlaceEach(games[1])
  {
    var g0 := NewGame(creator, "");
    events := [SettingCpu(CPU, difficulty)];
    games := [g0, Step(g0, events[0])];
    assert games[0] == NewGame(creator, "");
  }

  /** Two players, and the second one's user rejoins under the first one's name: the id then has both seats. */
  lemma RejoinCanDouble(creator: Player, other: Player) returns (games: seq<Game>, events: seq<Event>)
    requires creator.id != other.id && other.id != ""
    ensures IsRun(games, events) && |events| == 2 && OnePlaceEach(games[1])
    ensures events == [Joining(other), Rejoining(other.id, other.socket, creator.name)]
    ensures games[2].player1.id == other.id && Sits(games[2].player2, other.id)
  {
    var g0 := NewGame(creator, "");
    events := [Joining(other), Rejoining(other.id, other.socket, creator.name)];
    var g1 := Step(g0, events[0]);
    games := [g0, g1, Step(g1, events[1])];
    assert games[0] == NewGame(creator, "") && Ids(g0.queue) == [];
  }

  // ----- who may drop -----

  /** In a game in progress somebody other than x may drop unless the turn is x's alone. */
  lemma SomeoneMayDropIff(games: seq<Game>, events: seq<Event>, i: nat, x: string)
    requires IsRun(games, events) && i < |games| && games[i].status == Playing
    ensures (exists mover: string :: mover != x && MayDrop(games[i], mover)) <==> !TurnOfOnly(games[i], x)
    ensures exists mover: string :: MayDrop(games[i], mover)
  {
    RunOk(games, events, i);
    var g := games[i];
    assert g.turn == 1 ==> MayDrop(g, g.player1.id);
    assert g.turn == 2 && g.cpu.Some? ==> MayDrop(g, g.player1.id);
    assert g.turn == 2 ==> MayDrop(g, g.player2.value.id);
  }

  /** The seat to move is x's, and no CPU moves there for anybody else. */
  predicate TurnOfOnly(g: Game, x: string) {
    if g.turn == 1 then g.player1.id == x else Sits(g.player2, x) && (g.cpu.Some? ==> g.player1.id == x)
  }

  /** At the CPU's turn its opponent moves for it, and so may anybody who goes by its id. */
  lemma CpuTurnIff(games: seq<Game>, events: seq<Event>, i: nat, mover: string)
    requires IsRun(games, events) && i < |games| && games[i].cpu.Some? && games[i].turn == 2
    ensures MayDrop(games[i], mover) <==> mover == games[i].player1.id || mover == CPU
  {
    RunOk(games, events, i);
  }

  /** The CPU's seat is kept after the CPU has been switched off, and it is that seat's turn. */
  predicate Orphaned(g: Game) {
    g.turn == 2 && Sits(g.player2, CPU) && g.cpu.None?
  }

  /** One disc on an empty board is no line. */
  lemma OneDiscNoLine(col: nat)
    requires col < COLS
    ensures var b := Place(EmptyBoard(), ROWS - 1, col, 1); !HasLine(b, 1) && !HasLine(b, 2) && !TopFull(b)
  {
    var b := Place(EmptyBoard(), ROWS - 1, col, 1);
    forall p, r, c, k | 1 <= p <= 2 && 0 <= k < 4 ensures !Line(b, r, c, DirAt(k), p) {
      var cells := LineCells(r, c, DirAt(k));
      assert !(Owned(b, cells[0], p) && Owned(b, cells[1], p));
    }
    assert Cell(b, 0, 0) == 0;
  }

  /**
   How it comes to a turn that nobody can take but a user who goes by the CPU's id: a game against the CPU,
   somebody queues, the first player resigns, and the challenger who takes the seat drops a disc.
  */
  lemma OrphanedRun(creator: Player, challenger: Player) returns (games: seq<Game>, events: seq<Event>)
    requires challenger.id != CPU && creator.id != challenger.id
    ensures IsRun(games, events) && |events| == 3 && games[3].status == Playing && Orphaned(games[3])
    ensures forall mover :: MayDrop(games[3], mover) <==> mover == CPU
  {
    var g0 := NewGame(creator, "easy");
    var g1, g2 := CpuSeatIsKept(creator, challenger);
    var g3 := FirstDisc(g2, challenger.id);
    games := [g0, g1, g2, g3];
    events := [Joining(challenger), Resigning(creator), Dropping(challenger.id, 0)];
    ThreeSteps(g0, events[0], g1, events[1], g2, events[2], g3);
    assert games[0] == NewGame(creator, "easy");
  }

  lemma ThreeSteps(g0: Game, e0: Event, g1: Game, e1: Event, g2: Game, e2: Event, g3: Game)
    requires g1 == Step(g0, e0) && g2 == Step(g1, e1) && g3 == Step(g2, e2)
    ensures var games, events := [g0, g1, g2, g3], [e0, e1, e2];
            forall i :: 0 <= i < |events| ==> games[i + 1] == Step(games[i], events[i])
  {
  }

  /** The challenger queues and the creator resigns against the CPU: a round against nobody begins. */
  lemma CpuSeatIsKept(creator: Player, challenger: Player) returns (g1: Game, g2: Game)
    requires challenger.id != CPU && creator.id != challenger.id
    ensures g1 == Step(NewGame(creator, "easy"), Joining(challenger)) && g2 == Step(g1, Resigning(creator))
    ensures g2.board == EmptyBoard() && g2.turn == 1 && g2.status == Playing && g2.player1 == challenger
    ensures Sits(g2.player2, CPU) && g2.cpu.None?
  {
    var g0 := NewGame(creator, "easy");
    g1 := g0.(queue := [challenger]);
    g2 := StartNewRound(g1, 2);
    assert Ids(g0.queue) == [];
  }

  /** The first disc of a round leaves the turn to the second seat. */
  lemma FirstDisc(g: Game, mover: string) returns (g': Game)
    requires g.board == EmptyBoard() && g.turn == 1 && g.status == Playing && g.player1.id == mover
    ensures g' == Step(g, Dropping(mover, 0)) && g'.status == Playing && g'.turn == 2
    ensures g'.player2 == g.player2 && g'.cpu == g.cpu
  {
    assert LowestEmpty(g.board, 0, ROWS - 1) == Some(ROWS - 1);
    var dropped := Dropped(Place(g.board, ROWS - 1, 0, 1), ROWS - 1);
    OneDiscNoLine(0);
    CheckWinnerIff(dropped.board);
    PutDiscIs(g, 0, dropped);
    g' := Step(g, Dropping(mover, 0));
  }
}
