/**
 The seats and the bench of a Tetris free-for-all (server/index.js, the schema with a list of players).
 A handler recognises a player by persistent id or by socket.
*/
module Tetris {
  import opened Wrappers

  datatype Player = Player(id: string, socket: string, name: string, active: bool)

  datatype Status = Waiting | Playing | Finished

  datatype Game = Game(
    creator: string,
    maxPlayers: nat,
    players: seq<Player>,
    bench: seq<Player>,
    status: Status,
    started: bool,
    winner: Option<string>,
    scores: map<string, int>)

  /** Who sends a request. */
  datatype Who = Who(id: string, socket: string, name: string)

  const MAX_SLOTS: nat := 6

  predicate Matches(p: Player, w: Who) {
    p.id == w.id || p.socket == w.socket
  }

  predicate SamePerson(p: Player, w: Who) {
    p.id == w.id || p.name == w.name
  }

  /** The first player for whom the test holds, or the number of players. */
  function Find(ps: seq<Player>, test: Player -> bool): (i: nat)
    ensures i <= |ps|
    ensures i < |ps| ==> test(ps[i])
    ensures forall j :: 0 <= j < i ==> !test(ps[j])
  {
    if ps == [] || test(ps[0]) then 0 else 1 + Find(ps[1..], test)
  }

  function ActiveCount(ps: seq<Player>): (n: nat)
    ensures n <= |ps|
  {
    if ps == [] then 0 else (if ps[0].active then 1 else 0) + ActiveCount(ps[1..])
  }

  function FirstActive(ps: seq<Player>): (i: nat)
    ensures i <= |ps|
    ensures ActiveCount(ps) > 0 ==> i < |ps| && ps[i].active
  {
    if ps == [] || ps[0].active then 0 else 1 + FirstActive(ps[1..])
  }

  // ----- helpers shared by the handlers -----

  function FillFromBench(g: Game): Game {
    if ActiveCount(g.players) < g.maxPlayers && g.bench != [] then
      var next := g.bench[0].(active := true);
      g.(players := g.players + [next], bench := g.bench[1..], scores := g.scores[next.id := 0])
    else g
  }

  function CheckEndCondition(g: Game): Game {
    if g.status != Finished && ActiveCount(g.players) <= 1 && g.bench == [] then
      g.(status := Finished,
         winner := if ActiveCount(g.players) == 1 then Some(g.players[FirstActive(g.players)].name) else None)
    else g
  }

  function Remove(ps: seq<Player>, i: nat): seq<Player>
    requires i < |ps|
  {
    ps[..i] + ps[i + 1..]
  }

  function KnockOut(g: Game, i: nat): Game
    requires i < |g.players|
  {
    CheckEndCondition(FillFromBench(g.(players := g.players[i := g.players[i].(active := false)])))
  }

  // ----- handlers -----

  function NewGame(w: Who): Game {
    Game(w.id, 2, [Player(w.id, w.socket, w.name, true)], [], Waiting, false, None, map[w.id := 0])
  }

  function Join(g: Game, w: Who): Game {
    if g.status == Finished then g else
    var i := Find(g.players, (p: Player) => SamePerson(p, w));
    if i < |g.players| then g.(players := g.players[i := g.players[i].(socket := w.socket)]) else
    var j := Find(g.bench, (p: Player) => SamePerson(p, w));
    if j < |g.bench| then g.(bench := g.bench[j := g.bench[j].(socket := w.socket)]) else
    if ActiveCount(g.players) < g.maxPlayers then
      g.(players := g.players + [Player(w.id, w.socket, w.name, true)],
         scores := g.scores[w.id := 0],
         status := Playing,
         started := g.started || g.status == Waiting)
    else g.(bench := g.bench + [Player(w.id, w.socket, w.name, false)])
  }

  function GameOver(g: Game, w: Who): Game {
    if g.status == Finished then g else
    var i := Find(g.players, (p: Player) => Matches(p, w));
    if i == |g.players| || !g.players[i].active then g
    else if |g.players| == 1 && g.bench == [] then g.(status := Finished, winner := None)
    else KnockOut(g, i)
  }

  function Forfeit(g: Game, w: Who): Game {
    if g.status == Finished then g else
    var j := Find(g.bench, (p: Player) => Matches(p, w));
    if j < |g.bench| then g.(bench := Remove(g.bench, j)) else
    var i := Find(g.players, (p: Player) => Matches(p, w));
    if i == |g.players| || !g.players[i].active then g else KnockOut(g, i)
  }

  /** The player of a disconnected socket, half a minute later. */
  function AwayTooLong(g: Game, id: string): Game {
    if g.status == Finished then g else
    var i := Find(g.players, (p: Player) => p.id == id);
    if i == |g.players| || !g.players[i].active then g else KnockOut(g, i)
  }

  /** Players other than the tagger who are active. */
  function OtherActive(ps: seq<Player>, id: string): nat {
    if ps == [] then 0 else (if ps[0].active && ps[0].id != id then 1 else 0) + OtherActive(ps[1..], id)
  }

  function Benched(g: Game, i: nat): Game
    requires i < |g.players|
  {
    g.(players := Remove(g.players, i), bench := g.bench + [g.players[i].(active := false)])
  }

  function TagOut(g: Game, w: Who): Game {
    if g.status != Playing then g else
    var i := Find(g.players, (p: Player) => Matches(p, w) && p.active);
    if i == |g.players| then g else
    var tagged := g.players[i];
    if OtherActive(g.players, tagged.id) == 0 && g.bench == [] then g else
    var benched := Benched(g, i);
    var filled := if benched.bench[0].id != tagged.id then FillFromBench(benched) else benched;
    var forced := if ActiveCount(filled.players) == 0 && filled.bench != [] then FillFromBench(filled) else filled;
    CheckEndCondition(forced)
  }

  predicate MayResize(g: Game, w: Who) {
    g.creator == w.id || (g.players != [] && Matches(g.players[0], w))
  }

  function IncreaseSlots(g: Game, w: Who): Game {
    if g.status == Finished || !MayResize(g, w) || g.maxPlayers >= MAX_SLOTS then g
    else FillFromBench(g.(maxPlayers := g.maxPlayers + 1))
  }

  function SoloReset(g: Game): Game {
    if g.started || |g.players| != 1 || g.bench != [] then g
    else
      var solo := g.players[0];
      g.(players := [solo.(active := true)], status := Waiting, winner := None, scores := map[solo.id := 0])
  }

  function StateUpdate(g: Game, w: Who, score: int): Game {
    var i := Find(g.players, (p: Player) => Matches(p, w));
    if i == |g.players| then g else g.(scores := g.scores[g.players[i].id := score])
  }

  /** The first seat with the returning user's id or name, and the first bench entry. */
  function RejoinedSeat(g: Game, userId: string, socket: string, name: string): (i: nat)
    ensures i <= |g.players|
  {
    var w := Who(if userId != "" then userId else socket, socket, name);
    Find(g.players, (p: Player) => SamePerson(p, w))
  }

  function RejoinedBench(g: Game, userId: string, socket: string, name: string): (j: nat)
    ensures j <= |g.bench|
  {
    var w := Who(if userId != "" then userId else socket, socket, name);
    Find(g.bench, (p: Player) => SamePerson(p, w))
  }

  /** That seat, or else that bench entry, gets the new socket and, if there is one, the user id. */
  function Rejoin(g: Game, userId: string, socket: string, name: string): Game {
    if g.status == Finished then g else
    var i := RejoinedSeat(g, userId, socket, name);
    var j := RejoinedBench(g, userId, socket, name);
    if i < |g.players| then g.(players := g.players[i := Renewed(g.players[i], userId, socket)])
    else if j < |g.bench| then g.(bench := g.bench[j := Renewed(g.bench[j], userId, socket)])
    else g
  }

  function Renewed(p: Player, userId: string, socket: string): Player {
    p.(socket := socket, id := if userId != "" then userId else p.id)
  }

  // ----- garbage -----

  function ScoreOf(g: Game, p: Player): int {
    if p.id in g.scores then g.scores[p.id] else 0
  }

  predicate IsTarget(p: Player, sender: string) {
    p.active && p.socket != sender
  }

  /** The leading score among the opponents still playing; the first of them on a tie. */
  method TetrisGarbageTarget(g: Game, sender: string) returns (target: Option<Player>)
    ensures target.None? <==> forall p :: p in g.players ==> !IsTarget(p, sender)
    ensures target.Some? ==> exists i :: 0 <= i < |g.players| && g.players[i] == target.value && Leads(g, sender, i)
  {
    target := None;
    ghost var at := 0;
    var k := 0;
    while k < |g.players|
      invariant 0 <= k <= |g.players|
      invariant target.None? ==> forall j :: 0 <= j < k ==> !IsTarget(g.players[j], sender)
      invariant target.Some? ==> 0 <= at < k && g.players[at] == target.value && IsTarget(target.value, sender)
      invariant target.Some? ==> forall j :: 0 <= j < k && IsTarget(g.players[j], sender) ==>
                  if j < at then ScoreOf(g, g.players[j]) < ScoreOf(g, target.value)
                    else ScoreOf(g, g.players[j]) <= ScoreOf(g, target.value)
    {
      var p := g.players[k];
      if IsTarget(p, sender) && (target.None? || ScoreOf(g, p) > ScoreOf(g, target.value)) {
        target, at := Some(p), k;
      }
      k := k + 1;
    }
  }

  /** Player i is a target, ahead of every earlier one and not behind any later one. */
  ghost predicate Leads(g: Game, sender: string, i: nat)
    requires i < |g.players|
  {
    IsTarget(g.players[i], sender)
    && forall j :: 0 <= j < |g.players| && IsTarget(g.players[j], sender) ==>
         if j < i then ScoreOf(g, g.players[j]) < ScoreOf(g, g.players[i])
           else ScoreOf(g, g.players[j]) <= ScoreOf(g, g.players[i])
  }

  // ----- the program -----

  method FindIndex(ps: seq<Player>, test: Player -> bool) returns (i: nat)
    ensures i == Find(ps, test)
  {
    i := 0;
    assert ps[0..] == ps;
    while i < |ps|
      invariant 0 <= i <= |ps|
      invariant Find(ps, test) == i + Find(ps[i..], test)
    {
      assert ps[i..][1..] == ps[i + 1..];
      if test(ps[i]) {
        return;
      }
      i := i + 1;
    }
  }

  method CountActive(ps: seq<Player>) returns (n: nat)
    ensures n == ActiveCount(ps)
  {
    n := 0;
    var i := |ps|;
    while i > 0
      invariant 0 <= i <= |ps|
      invariant n == ActiveCount(ps[i..])
    {
      assert ps[i - 1..][1..] == ps[i..];
      i := i - 1;
      if ps[i].active {
        n := n + 1;
      }
    }
    assert ps[0..] == ps;
  }

  class TetrisMessage {
    var creatorId: string
    var maxPlayers: nat
    var players: seq<Player>
    var bench: seq<Player>
    var status: Status
    var started: bool
    var winner: Option<string>
    var scores: map<string, int>

    function View(): Game
      reads this
    {
      Game(creatorId, maxPlayers, players, bench, status, started, winner, scores)
    }

    constructor (w: Who)
      ensures View() == NewGame(w)
    {
      creatorId, maxPlayers := w.id, 2;
      players, bench := [Player(w.id, w.socket, w.name, true)], [];
      status, started, winner := Waiting, false, None;
      scores := map[w.id := 0];
    }

    method TetrisFillFromBench()
      modifies this
      ensures View() == FillFromBench(old(View()))
    {
      var active := CountActive(players);
      if active < maxPlayers && bench != [] {
        var next := bench[0].(active := true);
        bench := bench[1..];
        players := players + [next];
        scores := scores[next.id := 0];
      }
    }

    method TetrisCheckEndCondition()
      modifies this
      ensures View() == CheckEndCondition(old(View()))
    {
      if status == Finished {
        return;
      }
      var active := CountActive(players);
      if active <= 1 && bench == [] {
        winner := if active == 1 then Some(players[FirstActive(players)].name) else None;
        status := Finished;
      }
    }

    method KnockOutPlayer(i: nat)
      requires i < |players|
      modifies this
      ensures View() == KnockOut(old(View()), i)
    {
      players := players[i := players[i].(active := false)];
      TetrisFillFromBench();
      TetrisCheckEndCondition();
    }

    method OnJoin(w: Who)
      modifies this
      ensures View() == Join(old(View()), w)
    {
      if status == Finished {
        return;
      }
      var i := FindIndex(players, (p: Player) => SamePerson(p, w));
      if i < |players| {
        players := players[i := players[i].(socket := w.socket)];
        return;
      }
      var j := FindIndex(bench, (p: Player) => SamePerson(p, w));
      if j < |bench| {
        bench := bench[j := bench[j].(socket := w.socket)];
        return;
      }
      var active := CountActive(players);
      if active < maxPlayers {
        var wasWaiting := status == Waiting;
        players := players + [Player(w.id, w.socket, w.name, true)];
        scores := scores[w.id := 0];
        if wasWaiting {
          status := Playing;
          started := true;
        }
      } else {
        bench := bench + [Player(w.id, w.socket, w.name, false)];
      }
    }

    method OnGameOver(w: Who)
      modifies this
      ensures View() == GameOver(old(View()), w)
    {
      if status == Finished {
        return;
      }
      var i := FindIndex(players, (p: Player) => Matches(p, w));
      if i == |players| || !players[i].active {
        return;
      }
      if |players| == 1 && bench == [] {
        status := Finished;
        winner := None;
        return;
      }
      KnockOutPlayer(i);
    }

    method OnForfeit(w: Who)
      modifies this
      ensures View() == Forfeit(old(View()), w)
    {
      if status == Finished {
        return;
      }
      var j := FindIndex(bench, (p: Player) => Matches(p, w));
      if j < |bench| {
        bench := Remove(bench, j);
        return;
      }
      var i := FindIndex(players, (p: Player) => Matches(p, w));
      if i == |players| || !players[i].active {
        return;
      }
      KnockOutPlayer(i);
    }

    method OnAwayTooLong(id: string)
      modifies this
      ensures View() == AwayTooLong(old(View()), id)
    {
      if status == Finished {
        return;
      }
      var i := FindIndex(players, (p: Player) => p.id == id);
      if i == |players| || !players[i].active {
        return;
      }
      KnockOutPlayer(i);
    }

    method OnTagOut(w: Who)
      modifies this
      ensures View() == TagOut(old(View()), w)
    {
      if status != Playing {
        return;
      }
      var i := FindIndex(players, (p: Player) => Matches(p, w) && p.active);
      if i == |players| {
        return;
      }
      var tagged := players[i];
      if OtherActive(players, tagged.id) == 0 && bench == [] {
        return;
      }
      players, bench := Remove(players, i), bench + [tagged.(active := false)];
      if bench[0].id != tagged.id {
        TetrisFillFromBench();
      }
      var remaining := CountActive(players);
      if remaining == 0 && bench != [] {
        TetrisFillFromBench();
      }
      TetrisCheckEndCondition();
    }

    method OnIncreaseSlots(w: Who)
      modifies this
      ensures View() == IncreaseSlots(old(View()), w)
    {
      if status == Finished || !MayResize(View(), w) || maxPlayers >= MAX_SLOTS {
        return;
      }
      maxPlayers := maxPlayers + 1;
      TetrisFillFromBench();
    }

    method OnSoloReset()
      modifies this
      ensures View() == SoloReset(old(View()))
    {
      if started || |players| != 1 || |bench| > 0 {
        return;
      }
      var solo := players[0];
      players := [solo.(active := true)];
      status := Waiting;
      winner := None;
      scores := map[solo.id := 0];
    }

    method OnStateUpdate(w: Who, score: int)
      modifies this
      ensures View() == StateUpdate(old(View()), w, score)
    {
      var i := FindIndex(players, (p: Player) => Matches(p, w));
      if i < |players| {
        scores := scores[players[i].id := score];
      }
    }

    method OnRejoin(userId: string, socket: string, name: string)
      modifies this
      ensures View() == Rejoin(old(View()), userId, socket, name)
    {
      if status == Finished {
        return;
      }
      var w := Who(if userId != "" then userId else socket, socket, name);
      var i := FindIndex(players, (p: Player) => SamePerson(p, w));
      if i < |players| {
        players := players[i := Renewed(players[i], userId, socket)];
        return;
      }
      var j := FindIndex(bench, (p: Player) => SamePerson(p, w));
      if j < |bench| {
        bench := bench[j := Renewed(bench[j], userId, socket)];
      }
    }
  }
}
