/**
 What holds of the seats and the bench of a Tetris game in every state its handlers reach.
*/
module TetrisSafety {
  import opened Tetris
  import opened Wrappers

  // ----- counting -----

  /** How often an id occurs. */
  function Occ(ps: seq<Player>, id: string): nat {
    if ps == [] then 0 else (if ps[0].id == id then 1 else 0) + Occ(ps[1..], id)
  }

  lemma {:induction false} OccAppend(ps: seq<Player>, qs: seq<Player>, id: string)
    ensures Occ(ps + qs, id) == Occ(ps, id) + Occ(qs, id)
  {
    if ps == [] {
      assert ps + qs == qs;
    } else {
      OccAppend(ps[1..], qs, id);
      assert (ps + qs)[1..] == ps[1..] + qs;
    }
  }

  lemma OccSplit(ps: seq<Player>, i: nat, id: string)
    requires i < |ps|
    ensures Occ(ps, id) == Occ(ps[..i], id) + (if ps[i].id == id then 1 else 0) + Occ(ps[i + 1..], id)
  {
    assert ps == ps[..i] + ([ps[i]] + ps[i + 1..]);
    OccAppend(ps[..i], [ps[i]] + ps[i + 1..], id);
    OccAppend([ps[i]], ps[i + 1..], id);
  }

  lemma OccRemove(ps: seq<Player>, i: nat, id: string)
    requires i < |ps|
    ensures Occ(Remove(ps, i), id) == Occ(ps, id) - if ps[i].id == id then 1 else 0
  {
    OccSplit(ps, i, id);
    OccAppend(ps[..i], ps[i + 1..], id);
  }

  lemma OccUpdate(ps: seq<Player>, i: nat, p: Player, id: string)
    requires i < |ps| && p.id == ps[i].id
    ensures Occ(ps[i := p], id) == Occ(ps, id)
  {
    OccSplit(ps, i, id);
    OccSplit(ps[i := p], i, id);
    assert ps[i := p][..i] == ps[..i] && ps[i := p][i + 1..] == ps[i + 1..];
  }

  lemma {:induction false} OccNone(ps: seq<Player>, id: string)
    requires forall i :: 0 <= i < |ps| ==> ps[i].id != id
    ensures Occ(ps, id) == 0
  {
    if ps != [] { OccNone(ps[1..], id); }
  }

  lemma {:induction false} OccSome(ps: seq<Player>, i: nat)
    requires i < |ps|
    ensures Occ(ps, ps[i].id) >= 1
  {
    OccSplit(ps, i, ps[i].id);
  }

  lemma {:induction false} ActiveAppend(ps: seq<Player>, qs: seq<Player>)
    ensures ActiveCount(ps + qs) == ActiveCount(ps) + ActiveCount(qs)
  {
    if ps == [] {
      assert ps + qs == qs;
    } else {
      ActiveAppend(ps[1..], qs);
      assert (ps + qs)[1..] == ps[1..] + qs;
    }
  }

  lemma ActiveSplit(ps: seq<Player>, i: nat)
    requires i < |ps|
    ensures ActiveCount(ps) == ActiveCount(ps[..i]) + (if ps[i].active then 1 else 0) + ActiveCount(ps[i + 1..])
  {
    var one, rest := [ps[i]], ps[i + 1..];
    assert ps == ps[..i] + (one + rest);
    ActiveAppend(ps[..i], one + rest);
    ActiveAppend(one, rest);
    assert one[1..] == [];
    assert ActiveCount(one) == if ps[i].active then 1 else 0;
  }

  lemma ActiveRemove(ps: seq<Player>, i: nat)
    requires i < |ps|
    ensures ActiveCount(Remove(ps, i)) == ActiveCount(ps) - if ps[i].active then 1 else 0
  {
    ActiveSplit(ps, i);
    ActiveAppend(ps[..i], ps[i + 1..]);
  }

  lemma ActiveUpdate(ps: seq<Player>, i: nat, p: Player)
    requires i < |ps|
    ensures ActiveCount(ps[i := p]) == ActiveCount(ps) - (if ps[i].active then 1 else 0) + (if p.active then 1 else 0)
  {
    ActiveSplit(ps, i);
    ActiveSplit(ps[i := p], i);
    assert ps[i := p][..i] == ps[..i] && ps[i := p][i + 1..] == ps[i + 1..];
  }

  /** The others are fewer than all when the one left out is active. */
  lemma {:induction false} OtherActiveMisses(ps: seq<Player>, i: nat)
    requires i < |ps| && ps[i].active
    ensures OtherActive(ps, ps[i].id) < ActiveCount(ps)
  {
    OtherActiveBelow(ps[1..], ps[i].id);
    if i > 0 { OtherActiveMisses(ps[1..], i - 1); }
  }

  lemma {:induction false} OtherActiveBelow(ps: seq<Player>, id: string)
    ensures OtherActive(ps, id) <= ActiveCount(ps)
  {
    if ps != [] { OtherActiveBelow(ps[1..], id); }
  }

  // ----- the invariant of the seats -----

  /** What holds between the steps of a handler: all but that a game in progress has someone playing. */
  ghost predicate Middle(g: Game) {
    && ActiveCount(g.players) <= g.maxPlayers && 2 <= g.maxPlayers <= MAX_SLOTS
    && (g.bench != [] ==> g.status == Playing)
    && (g.status == Waiting ==> |g.players| == 1)
    && (g.status != Finished ==> g.winner.None?)
    && (g.status == Finished ==> ActiveCount(g.players) <= 1)
    && (g.winner.Some? ==> ActiveCount(g.players) == 1 && g.winner == Some(g.players[FirstActive(g.players)].name))
  }

  ghost predicate Inv(g: Game) {
    Middle(g) && (g.status == Playing ==> ActiveCount(g.players) >= 1)
  }

  lemma FillOk(g: Game)
    requires Middle(g) && g.status != Finished
    ensures Middle(FillFromBench(g))
    ensures ActiveCount(FillFromBench(g).players) ==
            ActiveCount(g.players) + if ActiveCount(g.players) < g.maxPlayers && g.bench != [] then 1 else 0
  {
    if ActiveCount(g.players) < g.maxPlayers && g.bench != [] {
      ActiveAppend(g.players, [g.bench[0].(active := true)]);
    }
  }

  lemma EndOk(g: Game)
    requires Middle(g) && (g.status == Playing && g.bench != [] ==> ActiveCount(g.players) >= 1)
    ensures Inv(CheckEndCondition(g))
  {
  }

  lemma KnockOutOk(g: Game, i: nat)
    requires Inv(g) && g.status != Finished && i < |g.players| && g.players[i].active
    ensures Inv(KnockOut(g, i))
  {
    var out := g.players[i].(active := false);
    var g1 := g.(players := g.players[i := out]);
    ActiveUpdate(g.players, i, out);
    FillOk(g1);
    EndOk(FillFromBench(g1));
  }

  /** Another id or socket for a seat changes nothing about who is playing. */
  lemma ReseatOk(g: Game, i: nat, p: Player)
    requires Inv(g) && g.status != Finished && i < |g.players| && p.active == g.players[i].active
    ensures Inv(g.(players := g.players[i := p]))
  {
    ActiveUpdate(g.players, i, p);
  }

  lemma JoinOk(g: Game, w: Who)
    requires Inv(g)
    ensures Inv(Join(g, w))
  {
    if g.status != Finished {
      var i := Find(g.players, (p: Player) => SamePerson(p, w));
      if i < |g.players| {
        ReseatOk(g, i, g.players[i].(socket := w.socket));
      } else {
        var newcomer := [Player(w.id, w.socket, w.name, true)];
        ActiveAppend(g.players, newcomer);
        assert newcomer[1..] == [];
      }
    }
  }

  lemma GameOverOk(g: Game, w: Who)
    requires Inv(g)
    ensures Inv(GameOver(g, w))
  {
    var i := Find(g.players, (p: Player) => Matches(p, w));
    if g.status != Finished && i < |g.players| && g.players[i].active && !(|g.players| == 1 && g.bench == []) {
      KnockOutOk(g, i);
    }
  }

  lemma ForfeitOk(g: Game, w: Who)
    requires Inv(g)
    ensures Inv(Forfeit(g, w))
  {
    var i := Find(g.players, (p: Player) => Matches(p, w));
    if g.status != Finished && i < |g.players| && g.players[i].active {
      KnockOutOk(g, i);
    }
  }

  lemma AwayOk(g: Game, id: string)
    requires Inv(g)
    ensures Inv(AwayTooLong(g, id))
  {
    var i := Find(g.players, (p: Player) => p.id == id);
    if g.status != Finished && i < |g.players| && g.players[i].active {
      KnockOutOk(g, i);
    }
  }

  lemma BenchedOk(g: Game, i: nat)
    requires Inv(g) && g.status == Playing && i < |g.players| && g.players[i].active
    ensures Middle(Benched(g, i)) && ActiveCount(Benched(g, i).players) == ActiveCount(g.players) - 1
  {
    ActiveRemove(g.players, i);
  }

  lemma TagOutOk(g: Game, w: Who)
    requires Inv(g)
    ensures Inv(TagOut(g, w))
  {
    var i := Find(g.players, (p: Player) => Matches(p, w) && p.active);
    if g.status == Playing && i < |g.players| && !(OtherActive(g.players, g.players[i].id) == 0 && g.bench == []) {
      var benched := Benched(g, i);
      BenchedOk(g, i);
      FillOk(benched);
      var filled := if benched.bench[0].id != g.players[i].id then FillFromBench(benched) else benched;
      FillOk(filled);
      var forced := if ActiveCount(filled.players) == 0 && filled.bench != [] then FillFromBench(filled) else filled;
      EndOk(forced);
    }
  }

  lemma IncreaseOk(g: Game, w: Who)
    requires Inv(g)
    ensures Inv(IncreaseSlots(g, w))
  {
    if g.status != Finished && MayResize(g, w) && g.maxPlayers < MAX_SLOTS {
      FillOk(g.(maxPlayers := g.maxPlayers + 1));
    }
  }

  lemma RejoinOk(g: Game, userId: string, socket: string, name: string)
    requires Inv(g)
    ensures Inv(Rejoin(g, userId, socket, name))
  {
    var i := RejoinedSeat(g, userId, socket, name);
    if g.status != Finished && i < |g.players| {
      ReseatOk(g, i, Renewed(g.players[i], userId, socket));
    }
  }

  // ----- every run -----

  datatype Event =
    | Joins(w: Who)
    | LosesGame(w: Who)
    | Forfeits(w: Who)
    | TagsOut(w: Who)
    | IncreasesSlots(w: Who)
    | ResetsSolo
    | StaysAway(id: string)
    | Reports(w: Who, score: int)
    | Rejoins(userId: string, socket: string, name: string)

  function Step(g: Game, e: Event): Game {
    match e
    case Joins(w) => Join(g, w)
    case LosesGame(w) => GameOver(g, w)
    case Forfeits(w) => Forfeit(g, w)
    case TagsOut(w) => TagOut(g, w)
    case IncreasesSlots(w) => IncreaseSlots(g, w)
    case ResetsSolo => SoloReset(g)
    case StaysAway(id) => AwayTooLong(g, id)
    case Reports(w, score) => StateUpdate(g, w, score)
    case Rejoins(userId, socket, name) => Rejoin(g, userId, socket, name)
  }

  lemma StepOk(g: Game, e: Event)
    requires Inv(g)
    ensures Inv(Step(g, e))
  {
    match e
    case Joins(w) => JoinOk(g, w);
    case LosesGame(w) => GameOverOk(g, w);
    case Forfeits(w) => ForfeitOk(g, w);
    case TagsOut(w) => TagOutOk(g, w);
    case IncreasesSlots(w) => IncreaseOk(g, w);
    case ResetsSolo =>
    case StaysAway(id) => AwayOk(g, id);
    case Reports(_, _) =>
    case Rejoins(userId, socket, name) => RejoinOk(g, userId, socket, name);
  }

  function Run(g: Game, events: seq<Event>): Game
    decreases |events|
  {
    if events == [] then g else Run(Step(g, events[0]), events[1..])
  }

  lemma {:induction false} RunOk(g: Game, events: seq<Event>)
    requires Inv(g)
    ensures Inv(Run(g, events))
    decreases |events|
  {
    if events != [] {
      StepOk(g, events[0]);
      RunOk(Step(g, events[0]), events[1..]);
    }
  }

  /** Reached by any events at all, rejoins under any id included. */
  ghost predicate Reachable(g: Game) {
    exists w, events :: g == Run(NewGame(w), events)
  }

  lemma ReachableInv(g: Game)
    requires Reachable(g)
    ensures Inv(g)
  {
    var w, events :| g == Run(NewGame(w), events);
    RunOk(NewGame(w), events);
  }

  /** The limits on the seats, and that only a game in progress has a bench and it always has someone playing. */
  lemma SeatsAreSound(g: Game)
    requires Reachable(g)
    ensures ActiveCount(g.players) <= g.maxPlayers && 2 <= g.maxPlayers <= 6
    ensures g.status == Playing ==> ActiveCount(g.players) >= 1
    ensures g.bench != [] ==> g.status == Playing
  {
    ReachableInv(g);
  }

  /** A winner is declared only when the game is over, and it is the one player still active. */
  lemma WinnerIsLastActive(g: Game)
    requires Reachable(g)
    ensures g.status != Finished ==> g.winner.None?
    ensures g.status == Finished ==> ActiveCount(g.players) <= 1 && g.bench == []
    ensures g.winner.Some? ==>
              ActiveCount(g.players) == 1
              && exists i :: 0 <= i < |g.players| && g.players[i].active && g.winner == Some(g.players[i].name)
  {
    ReachableInv(g);
    if g.winner.Some? {
      var i := FirstActive(g.players);
      assert g.players[i].active && g.winner == Some(g.players[i].name);
    }
  }

  // ----- one place for each -----

  function Ids(ps: seq<Player>): (ids: seq<string>)
    ensures |ids| == |ps| && forall i :: 0 <= i < |ps| ==> ids[i] == ps[i].id
  {
    seq(|ps|, i requires 0 <= i < |ps| => ps[i].id)
  }

  ghost predicate IdsOk(players: seq<Player>, bench: seq<Player>) {
    forall id {:trigger Occ(players, id)} {:trigger Occ(bench, id)} :: Occ(players, id) + Occ(bench, id) <= 1
  }

  /** No id is on two seats, twice on the bench, or on both. */
  ghost predicate OnePlaceEach(g: Game) {
    IdsOk(g.players, g.bench)
  }

  lemma NewGameOnce(w: Who)
    ensures OnePlaceEach(NewGame(w))
  {
    var g := NewGame(w);
    forall id ensures Occ(g.players, id) + Occ(g.bench, id) <= 1 {
      assert g.players[1..] == [];
    }
  }

  lemma FillOnce(g: Game)
    requires OnePlaceEach(g)
    ensures OnePlaceEach(FillFromBench(g))
  {
    if ActiveCount(g.players) < g.maxPlayers && g.bench != [] {
      var g' := FillFromBench(g);
      var next := g.bench[0].(active := true);
      forall id ensures Occ(g'.players, id) + Occ(g'.bench, id) <= 1 {
        OccAppend(g.players, [next], id);
        assert Occ(g.players, id) + Occ(g.bench, id) <= 1;
      }
    }
  }

  lemma UpdateOnce(g: Game, i: nat, p: Player)
    requires OnePlaceEach(g)
    ensures i < |g.players| && p.id == g.players[i].id ==> OnePlaceEach(g.(players := g.players[i := p]))
    ensures i < |g.bench| && p.id == g.bench[i].id ==> OnePlaceEach(g.(bench := g.bench[i := p]))
  {
    if i < |g.players| && p.id == g.players[i].id {
      forall id ensures Occ(g.players[i := p], id) + Occ(g.bench, id) <= 1 {
        OccUpdate(g.players, i, p, id);
      }
    }
    if i < |g.bench| && p.id == g.bench[i].id {
      forall id ensures Occ(g.players, id) + Occ(g.bench[i := p], id) <= 1 {
        OccUpdate(g.bench, i, p, id);
      }
    }
  }

  lemma KnockOutOnce(g: Game, i: nat)
    requires OnePlaceEach(g) && i < |g.players|
    ensures OnePlaceEach(KnockOut(g, i))
  {
    var out := g.players[i].(active := false);
    UpdateOnce(g, i, out);
    FillOnce(g.(players := g.players[i := out]));
  }

  lemma JoinOnce(g: Game, w: Who)
    requires OnePlaceEach(g)
    ensures OnePlaceEach(Join(g, w))
  {
    if g.status != Finished {
      var i := Find(g.players, (p: Player) => SamePerson(p, w));
      var j := Find(g.bench, (p: Player) => SamePerson(p, w));
      if i < |g.players| {
        UpdateOnce(g, i, g.players[i].(socket := w.socket));
      } else if j < |g.bench| {
        UpdateOnce(g, j, g.bench[j].(socket := w.socket));
      } else {
        OccNone(g.players, w.id);
        OccNone(g.bench, w.id);
        NewcomerOnce(g, Player(w.id, w.socket, w.name, ActiveCount(g.players) < g.maxPlayers));
      }
    }
  }

  lemma NewcomerOnce(g: Game, p: Player)
    requires OnePlaceEach(g) && Occ(g.players, p.id) == 0 && Occ(g.bench, p.id) == 0
    ensures IdsOk(g.players + [p], g.bench) && IdsOk(g.players, g.bench + [p])
  {
    forall id
      ensures Occ(g.players + [p], id) + Occ(g.bench, id) <= 1
      ensures Occ(g.players, id) + Occ(g.bench + [p], id) <= 1
    {
      OccAppend(g.players, [p], id);
      OccAppend(g.bench, [p], id);
      assert Occ(g.players, id) + Occ(g.bench, id) <= 1;
      assert [p][1..] == [];
    }
  }

  lemma GameOverOnce(g: Game, w: Who)
    requires OnePlaceEach(g)
    ensures OnePlaceEach(GameOver(g, w))
  {
    var i := Find(g.players, (p: Player) => Matches(p, w));
    if i < |g.players| { KnockOutOnce(g, i); }
  }

  lemma ForfeitOnce(g: Game, w: Who)
    requires OnePlaceEach(g)
    ensures OnePlaceEach(Forfeit(g, w))
  {
    var j := Find(g.bench, (p: Player) => Matches(p, w));
    var i := Find(g.players, (p: Player) => Matches(p, w));
    if j < |g.bench| {
      forall id ensures Occ(g.players, id) + Occ(Remove(g.bench, j), id) <= 1 {
        OccRemove(g.bench, j, id);
        assert Occ(g.players, id) + Occ(g.bench, id) <= 1;
      }
    } else if i < |g.players| {
      KnockOutOnce(g, i);
    }
  }

  lemma AwayOnce(g: Game, id: string)
    requires OnePlaceEach(g)
    ensures OnePlaceEach(AwayTooLong(g, id))
  {
    var i := Find(g.players, (p: Player) => p.id == id);
    if i < |g.players| { KnockOutOnce(g, i); }
  }

  lemma SoloResetOnce(g: Game)
    requires OnePlaceEach(g)
    ensures OnePlaceEach(SoloReset(g))
  {
    if |g.players| == 1 {
      var solo := g.players[0].(active := true);
      UpdateOnce(g, 0, solo);
      assert g.players[0 := solo] == [solo];
    }
  }

  lemma BenchedOnce(g: Game, i: nat)
    requires OnePlaceEach(g) && i < |g.players|
    ensures OnePlaceEach(Benched(g, i))
  {
    var g' := Benched(g, i);
    var p := g.players[i].(active := false);
    forall id ensures Occ(g'.players, id) + Occ(g'.bench, id) <= 1 {
      OccRemove(g.players, i, id);
      OccAppend(g.bench, [p], id);
      assert Occ(g.players, id) + Occ(g.bench, id) <= 1;
      assert [p][1..] == [];
    }
  }

  lemma TagOutOnce(g: Game, w: Who)
    requires OnePlaceEach(g)
    ensures OnePlaceEach(TagOut(g, w))
  {
    var i := Find(g.players, (p: Player) => Matches(p, w) && p.active);
    if i < |g.players| {
      var benched := Benched(g, i);
      BenchedOnce(g, i);
      FillOnce(benched);
      FillOnce(if benched.bench[0].id != g.players[i].id then FillFromBench(benched) else benched);
    }
  }

  /** The id that a rejoin replaces, or the new one when nothing is replaced. */
  function Replaced(g: Game, userId: string, socket: string, name: string): string {
    var i := RejoinedSeat(g, userId, socket, name);
    var j := RejoinedBench(g, userId, socket, name);
    if g.status == Finished || userId == "" then userId
    else if i < |g.players| then g.players[i].id
    else if j < |g.bench| then g.bench[j].id
    else userId
  }

  lemma OccRename(ps: seq<Player>, i: nat, p: Player, id: string)
    requires i < |ps|
    ensures Occ(ps[i := p], id) == Occ(ps, id) - (if ps[i].id == id then 1 else 0) + (if p.id == id then 1 else 0)
  {
    OccSplit(ps, i, id);
    OccSplit(ps[i := p], i, id);
    assert ps[i := p][..i] == ps[..i] && ps[i := p][i + 1..] == ps[i + 1..];
  }

  lemma RejoinCounts(g: Game, userId: string, socket: string, name: string, id: string)
    ensures var g', was := Rejoin(g, userId, socket, name), Replaced(g, userId, socket, name);
            Occ(g'.players, id) + Occ(g'.bench, id) ==
            Occ(g.players, id) + Occ(g.bench, id) - (if was == id then 1 else 0) + (if userId == id then 1 else 0)
  {
    var i := RejoinedSeat(g, userId, socket, name);
    var j := RejoinedBench(g, userId, socket, name);
    if i < |g.players| {
      OccRename(g.players, i, Renewed(g.players[i], userId, socket), id);
    } else if j < |g.bench| {
      OccRename(g.bench, j, Renewed(g.bench[j], userId, socket), id);
    }
  }

  lemma Somewhere(ps: seq<Player>, id: string)
    ensures Occ(ps, id) > 0 <==> id in Ids(ps)
  {
    if id in Ids(ps) {
      var i :| 0 <= i < |ps| && Ids(ps)[i] == id;
      OccSome(ps, i);
    } else {
      forall i | 0 <= i < |ps| ensures ps[i].id != id {
        assert Ids(ps)[i] != id;
      }
      OccNone(ps, id);
    }
  }

  /** A rejoin replaces no other id, or brings one that has no place yet. */
  predicate RejoinIsHarmless(g: Game, userId: string, socket: string, name: string) {
    Replaced(g, userId, socket, name) == userId || (userId !in Ids(g.players) && userId !in Ids(g.bench))
  }

  lemma RejoinKeepsOnceIff(g: Game, userId: string, socket: string, name: string)
    requires OnePlaceEach(g)
    ensures OnePlaceEach(Rejoin(g, userId, socket, name)) <==> RejoinIsHarmless(g, userId, socket, name)
  {
    var g', was := Rejoin(g, userId, socket, name), Replaced(g, userId, socket, name);
    forall id
      ensures Occ(g'.players, id) + Occ(g'.bench, id) ==
              Occ(g.players, id) + Occ(g.bench, id) - (if was == id then 1 else 0) + (if userId == id then 1 else 0)
      ensures Occ(g.players, id) + Occ(g.bench, id) <= 1
    {
      RejoinCounts(g, userId, socket, name, id);
    }
    Somewhere(g.players, userId);
    Somewhere(g.bench, userId);
  }

  predicate Harmless(g: Game, e: Event) {
    e.Rejoins? ==> RejoinIsHarmless(g, e.userId, e.socket, e.name)
  }

  /** One event keeps one place for each exactly when it is harmless, as all but some rejoins are. */
  lemma StepKeepsOnceIff(g: Game, e: Event)
    requires OnePlaceEach(g)
    ensures OnePlaceEach(Step(g, e)) <==> Harmless(g, e)
  {
    match e
    case Joins(w) => JoinOnce(g, w);
    case LosesGame(w) => GameOverOnce(g, w);
    case Forfeits(w) => ForfeitOnce(g, w);
    case TagsOut(w) => TagOutOnce(g, w);
    case IncreasesSlots(w) => FillOnce(g.(maxPlayers := g.maxPlayers + 1));
    case ResetsSolo => SoloResetOnce(g);
    case StaysAway(id) => AwayOnce(g, id);
    case Reports(_, _) =>
    case Rejoins(userId, socket, name) => RejoinKeepsOnceIff(g, userId, socket, name);
  }

  ghost predicate AlwaysOnce(g: Game, events: seq<Event>)
    decreases |events|
  {
    OnePlaceEach(g) && (events == [] || AlwaysOnce(Step(g, events[0]), events[1..]))
  }

  predicate AllHarmless(g: Game, events: seq<Event>)
    decreases |events|
  {
    events == [] || (Harmless(g, events[0]) && AllHarmless(Step(g, events[0]), events[1..]))
  }

  /** Over a whole run, everyone has one place throughout exactly when every rejoin in it is harmless. */
  lemma {:induction false} EveryoneOnceIff(g: Game, events: seq<Event>)
    requires OnePlaceEach(g)
    ensures AlwaysOnce(g, events) <==> AllHarmless(g, events)
    ensures AllHarmless(g, events) ==> OnePlaceEach(Run(g, events))
    decreases |events|
  {
    if events != [] {
      StepKeepsOnceIff(g, events[0]);
      if Harmless(g, events[0]) {
        EveryoneOnceIff(Step(g, events[0]), events[1..]);
      }
    }
  }

  /** Reached by events that are all harmless. */
  ghost predicate Orderly(g: Game) {
    exists w, events :: AllHarmless(NewGame(w), events) && g == Run(NewGame(w), events)
  }

  lemma OrderlyOnce(g: Game)
    requires Orderly(g)
    ensures Inv(g) && OnePlaceEach(g)
  {
    var w, events :| AllHarmless(NewGame(w), events) && g == Run(NewGame(w), events);
    NewGameOnce(w);
    EveryoneOnceIff(NewGame(w), events);
    RunOk(NewGame(w), events);
  }

  lemma {:induction false} DistinctIn(ps: seq<Player>, i: nat, j: nat)
    requires i < j < |ps| && ps[i].id == ps[j].id
    ensures Occ(ps, ps[i].id) >= 2
  {
    var rest := ps[1..];
    assert rest[j - 1] == ps[j];
    if i == 0 {
      OccSome(rest, j - 1);
    } else {
      assert rest[i - 1] == ps[i];
      DistinctIn(rest, i - 1, j - 1);
    }
  }

  /** No id has two places, on the seats or on the bench. */
  lemma EveryoneOnce(g: Game)
    requires Orderly(g)
    ensures forall i, j :: 0 <= i < j < |g.players| ==> g.players[i].id != g.players[j].id
    ensures forall i, j :: 0 <= i < j < |g.bench| ==> g.bench[i].id != g.bench[j].id
    ensures forall i, j :: 0 <= i < |g.players| && 0 <= j < |g.bench| ==> g.players[i].id != g.bench[j].id
  {
    OrderlyOnce(g);
    forall i, j | 0 <= i < j < |g.players| ensures g.players[i].id != g.players[j].id {
      if g.players[i].id == g.players[j].id { DistinctIn(g.players, i, j); }
    }
    forall i, j | 0 <= i < j < |g.bench| ensures g.bench[i].id != g.bench[j].id {
      if g.bench[i].id == g.bench[j].id { DistinctIn(g.bench, i, j); }
    }
    forall i, j | 0 <= i < |g.players| && 0 <= j < |g.bench| ensures g.players[i].id != g.bench[j].id {
      OccSome(g.players, i);
      OccSome(g.bench, j);
    }
  }

  /** Two players, and the second one's user rejoins under the first one's name: the id then has two seats. */
  lemma RejoinCanDouble(first: Who, second: Who) returns (g: Game)
    requires first.id != second.id && first.name != second.name && second.id != ""
    ensures Orderly(g)
    ensures var g' := Rejoin(g, second.id, second.socket, first.name);
            |g'.players| == 2 && g'.players[0].id == g'.players[1].id == second.id
  {
    var start := NewGame(first);
    assert start.players[1..] == [] && ActiveCount(start.players) == 1;
    g := Join(start, second);
    var events := [Joins(second)];
    assert events[1..] == [] && Step(start, events[0]) == g;
    assert AllHarmless(g, []) && Run(g, []) == g;
    assert AllHarmless(start, events) && g == Run(start, events);
  }

  // ----- a score for each -----

  /** Every seated id has a score. */
  ghost predicate ScoresOk(g: Game) {
    forall i :: 0 <= i < |g.players| ==> g.players[i].id in g.scores
  }

  /** Nobody seated gets another id, or the new id has a score already; the score of the old id stays under it. */
  predicate RejoinKeepsScore(g: Game, userId: string, socket: string, name: string) {
    || g.status == Finished || userId == "" || RejoinedSeat(g, userId, socket, name) == |g.players|
    || userId in g.scores
  }

  lemma RejoinScoredIff(g: Game, userId: string, socket: string, name: string)
    requires ScoresOk(g)
    ensures ScoresOk(Rejoin(g, userId, socket, name)) <==> RejoinKeepsScore(g, userId, socket, name)
  {
    var g' := Rejoin(g, userId, socket, name);
    var i := RejoinedSeat(g, userId, socket, name);
    if g.status != Finished && i < |g.players| {
      assert g'.players[i] == Renewed(g.players[i], userId, socket);
    }
  }

  lemma KnockOutScored(g: Game, i: nat)
    requires ScoresOk(g) && i < |g.players|
    ensures ScoresOk(KnockOut(g, i))
  {
    var g1 := g.(players := g.players[i := g.players[i].(active := false)]);
    assert ScoresOk(g1);
    FillScored(g1);
  }

  lemma FillScored(g: Game)
    requires ScoresOk(g)
    ensures ScoresOk(FillFromBench(g))
  {
  }

  lemma TagOutScored(g: Game, w: Who)
    requires ScoresOk(g)
    ensures ScoresOk(TagOut(g, w))
  {
    var i := Find(g.players, (p: Player) => Matches(p, w) && p.active);
    if i < |g.players| {
      var benched := Benched(g, i);
      assert ScoresOk(benched);
      FillScored(benched);
      FillScored(if benched.bench[0].id != g.players[i].id then FillFromBench(benched) else benched);
    }
  }

  predicate KeepsScores(g: Game, e: Event) {
    e.Rejoins? ==> RejoinKeepsScore(g, e.userId, e.socket, e.name)
  }

  lemma StepScoredIff(g: Game, e: Event)
    requires ScoresOk(g)
    ensures ScoresOk(Step(g, e)) <==> KeepsScores(g, e)
  {
    match e
    case Joins(w) =>
    case LosesGame(w) =>
      var i := Find(g.players, (p: Player) => Matches(p, w));
      if i < |g.players| { KnockOutScored(g, i); }
    case Forfeits(w) =>
      var i := Find(g.players, (p: Player) => Matches(p, w));
      if i < |g.players| { KnockOutScored(g, i); }
    case TagsOut(w) => TagOutScored(g, w);
    case IncreasesSlots(w) => FillScored(g.(maxPlayers := g.maxPlayers + 1));
    case ResetsSolo =>
    case StaysAway(id) =>
      var i := Find(g.players, (p: Player) => p.id == id);
      if i < |g.players| { KnockOutScored(g, i); }
    case Reports(_, _) =>
    case Rejoins(userId, socket, name) => RejoinScoredIff(g, userId, socket, name);
  }

  ghost predicate AlwaysScored(g: Game, events: seq<Event>)
    decreases |events|
  {
    ScoresOk(g) && (events == [] || AlwaysScored(Step(g, events[0]), events[1..]))
  }

  predicate AllKeepScores(g: Game, events: seq<Event>)
    decreases |events|
  {
    events == [] || (KeepsScores(g, events[0]) && AllKeepScores(Step(g, events[0]), events[1..]))
  }

  /** Over a whole run, every seated id has a score throughout exactly when every rejoin in it leaves it one. */
  lemma {:induction false} EveryoneScoredIff(g: Game, events: seq<Event>)
    requires ScoresOk(g)
    ensures AlwaysScored(g, events) <==> AllKeepScores(g, events)
    decreases |events|
  {
    if events != [] {
      StepScoredIff(g, events[0]);
      if KeepsScores(g, events[0]) {
        EveryoneScoredIff(Step(g, events[0]), events[1..]);
      }
    }
  }

  lemma NewGameScored(w: Who)
    ensures ScoresOk(NewGame(w))
  {
  }

  /** A rejoin that is harmless and still loses a score: the creator comes back under a new id. */
  lemma RejoinLosesScore(first: Who, newId: string, socket: string)
    requires newId != first.id && newId != ""
    ensures var g, e := NewGame(first), Rejoins(newId, socket, first.name);
            && ScoresOk(g) && Harmless(g, e) && OnePlaceEach(Step(g, e))
            && Step(g, e).players[0].id == newId && newId !in Step(g, e).scores
  {
    var g := NewGame(first);
    NewGameOnce(first);
    NewGameScored(first);
    assert Ids(g.players) == [first.id] && Ids(g.bench) == [];
    StepKeepsOnceIff(g, Rejoins(newId, socket, first.name));
  }

  // ----- a tag-out -----

  /** While nobody has two places, somebody is playing after a tag-out, so the forced fill never happens. */
  lemma TagOutIs(g: Game, w: Who)
    requires Inv(g) && OnePlaceEach(g)
    ensures
      var i := Find(g.players, (p: Player) => Matches(p, w) && p.active);
      TagOut(g, w) ==
        if g.status != Playing || i == |g.players|
           || (OtherActive(g.players, g.players[i].id) == 0 && g.bench == []) then g
        else if g.bench == [] then Benched(g, i)
        else FillFromBench(Benched(g, i))
  {
    var i := Find(g.players, (p: Player) => Matches(p, w) && p.active);
    if g.status == Playing && i < |g.players| && !(OtherActive(g.players, g.players[i].id) == 0 && g.bench == []) {
      var tagged := g.players[i];
      var benched := Benched(g, i);
      BenchedOk(g, i);
      FillOk(benched);
      OtherActiveMisses(g.players, i);
      OccSome(g.players, i);
      assert Occ(g.players, tagged.id) + Occ(g.bench, tagged.id) <= 1;
      if g.bench != [] {
        OccSome(g.bench, 0);
        assert benched.bench[0] == g.bench[0];
        assert Occ(g.players, g.bench[0].id) + Occ(g.bench, g.bench[0].id) <= 1;
        assert benched.bench[0].id != tagged.id;
      } else {
        assert benched.bench == [tagged.(active := false)];
      }
    }
  }

  // ----- the bench is a queue -----

  /** Possibly with one more at the end. */
  predicate Extends(ids': seq<string>, ids: seq<string>) {
    ids' == ids || (|ids'| == |ids| + 1 && ids'[..|ids|] == ids)
  }

  predicate HeadEntered(g: Game, g': Game) {
    && g.bench != [] && g'.players != [] && Extends(Ids(g'.bench), Ids(g.bench)[1..])
    && g'.players[|g'.players| - 1] == g.bench[0].(active := true)
  }

  ghost predicate OneLeft(g: Game, g': Game) {
    && g'.players == g.players
    && exists i :: 0 <= i < |g.bench| && Ids(g'.bench) == Ids(g.bench)[..i] + Ids(g.bench)[i + 1..]
  }

  ghost predicate OneRenamed(g: Game, g': Game) {
    && g'.players == g.players
    && |g'.bench| == |g.bench|
    && exists i :: 0 <= i < |g.bench| && Ids(g'.bench) == Ids(g.bench)[i := Ids(g'.bench)[i]]
  }

  /** A handler does one thing to the bench: at most add to its end, seat its head, let one leave, or rename one. */
  ghost predicate QueueMove(g: Game, g': Game) {
    Extends(Ids(g'.bench), Ids(g.bench)) || HeadEntered(g, g') || OneLeft(g, g') || OneRenamed(g, g')
  }

  lemma FillMoves(g: Game)
    ensures var g' := FillFromBench(g); g' == g || HeadEntered(g, g')
  {
  }

  lemma KnockOutMoves(g: Game, i: nat)
    requires i < |g.players|
    ensures QueueMove(g, KnockOut(g, i))
  {
  }

  lemma TagOutMoves(g: Game, w: Who)
    requires Inv(g) && OnePlaceEach(g)
    ensures QueueMove(g, TagOut(g, w))
  {
    TagOutIs(g, w);
    var i := Find(g.players, (p: Player) => Matches(p, w) && p.active);
    if g.status == Playing && i < |g.players| && !(OtherActive(g.players, g.players[i].id) == 0 && g.bench == []) {
      var benched := Benched(g, i);
      assert Ids(benched.bench) == Ids(g.bench) + [g.players[i].id];
      if g.bench != [] {
        FillMoves(benched);
        assert benched.bench[0] == g.bench[0];
        assert Ids(benched.bench)[1..] == Ids(g.bench)[1..] + [g.players[i].id];
      }
    }
  }

  lemma ForfeitMoves(g: Game, w: Who)
    ensures QueueMove(g, Forfeit(g, w))
  {
    if g.status != Finished {
      var j := Find(g.bench, (p: Player) => Matches(p, w));
      var i := Find(g.players, (p: Player) => Matches(p, w));
      if j < |g.bench| {
        assert Ids(Remove(g.bench, j)) == Ids(g.bench)[..j] + Ids(g.bench)[j + 1..];
        assert OneLeft(g, Forfeit(g, w));
      } else if i < |g.players| && g.players[i].active {
        KnockOutMoves(g, i);
      }
    }
  }

  lemma JoinMoves(g: Game, w: Who)
    ensures QueueMove(g, Join(g, w))
  {
  }

  lemma GameOverMoves(g: Game, w: Who)
    ensures QueueMove(g, GameOver(g, w))
  {
    var i := Find(g.players, (p: Player) => Matches(p, w));
    if i < |g.players| { KnockOutMoves(g, i); }
  }

  lemma AwayMoves(g: Game, id: string)
    ensures QueueMove(g, AwayTooLong(g, id))
  {
    var i := Find(g.players, (p: Player) => p.id == id);
    if i < |g.players| { KnockOutMoves(g, i); }
  }

  lemma RejoinMoves(g: Game, userId: string, socket: string, name: string)
    ensures QueueMove(g, Rejoin(g, userId, socket, name))
  {
    var g' := Rejoin(g, userId, socket, name);
    var j := RejoinedBench(g, userId, socket, name);
    if g.status != Finished && RejoinedSeat(g, userId, socket, name) == |g.players| && j < |g.bench| {
      assert Ids(g'.bench) == Ids(g.bench)[j := g'.bench[j].id];
    } else {
      assert Ids(g'.bench) == Ids(g.bench);
    }
  }

  lemma BenchIsQueue(g: Game, e: Event)
    requires Orderly(g)
    ensures QueueMove(g, Step(g, e))
  {
    OrderlyOnce(g);
    match e
    case Joins(w) => JoinMoves(g, w);
    case LosesGame(w) => GameOverMoves(g, w);
    case Forfeits(w) => ForfeitMoves(g, w);
    case TagsOut(w) => TagOutMoves(g, w);
    case IncreasesSlots(w) => FillMoves(g.(maxPlayers := g.maxPlayers + 1));
    case ResetsSolo =>
    case StaysAway(id) => AwayMoves(g, id);
    case Reports(_, _) =>
    case Rejoins(userId, socket, name) => RejoinMoves(g, userId, socket, name);
  }

  /** Nobody on the bench overtakes: whoever is seated in a step was at its head. */
  lemma NoOvertaking(g: Game, e: Event, j: nat, i: nat)
    requires Orderly(g) && Harmless(g, e)
    requires j < |g.bench| && i < |Step(g, e).players| && Step(g, e).players[i].id == g.bench[j].id
    ensures j == 0 && HeadEntered(g, Step(g, e)) && i == |Step(g, e).players| - 1
  {
    var g' := Step(g, e);
    if j > 0 { BehindHeadStays(g, g', j); }
    OrderlyOnce(g);
    StepKeepsOnceIff(g, e);
    BenchIsQueue(g, e);
    var id := g.bench[j].id;
    OccSome(g'.players, i);
    OccSome(g.bench, j);
    assert Occ(g'.players, id) + Occ(g'.bench, id) <= 1 && Occ(g.players, id) + Occ(g.bench, id) <= 1;
    OnlyIn(g'.bench, id);
    OnlyIn(g.players, id);
    assert id !in Ids(g'.bench) && Ids(g.bench)[j] == id;
    ExtendsHolds(Ids(g'.bench), Ids(g.bench), j);
    assert HeadEntered(g, g');
    var last := |g'.players| - 1;
    if i < last && g'.players[last].id == id { DistinctIn(g'.players, i, last); }
  }

  lemma BehindHeadStays(g: Game, g': Game, j: nat)
    requires 0 < j < |g.bench|
    ensures HeadEntered(g, g') ==> g.bench[j].id in Ids(g'.bench)
  {
  }

  lemma ExtendsHolds(ids': seq<string>, ids: seq<string>, j: nat)
    requires j < |ids|
    ensures Extends(ids', ids) ==> ids[j] in ids'
  {
  }

  /** An id that does not occur is at no position. */
  lemma OnlyIn(ps: seq<Player>, id: string)
    ensures Occ(ps, id) == 0 ==> forall k :: 0 <= k < |ps| ==> ps[k].id != id
  {
    forall k | 0 <= k < |ps| && ps[k].id == id ensures Occ(ps, id) >= 1 {
      OccSome(ps, k);
    }
  }

  // ----- the order on the bench, over whole runs -----

  predicate OnBench(g: Game, id: string) {
    id in Ids(g.bench)
  }

  ghost predicate Ahead(ids: seq<string>, a: string, b: string) {
    exists i, j :: 0 <= i < j < |ids| && ids[i] == a && ids[j] == b
  }

  lemma RunAppend(g: Game, events: seq<Event>, e: Event)
    ensures Run(g, events + [e]) == Step(Run(g, events), e)
    decreases |events|
  {
    var all := events + [e];
    if events == [] {
      assert all[1..] == [];
    } else {
      assert all[1..] == events[1..] + [e];
      RunAppend(Step(g, events[0]), events[1..], e);
    }
  }

  lemma {:induction false} HarmlessAppend(g: Game, events: seq<Event>, e: Event)
    requires AllHarmless(g, events) && Harmless(Run(g, events), e)
    ensures AllHarmless(g, events + [e])
    decreases |events|
  {
    var all := events + [e];
    if events == [] {
      assert all[1..] == [];
    } else {
      assert all[1..] == events[1..] + [e];
      HarmlessAppend(Step(g, events[0]), events[1..], e);
    }
  }

  lemma StepOrderly(g: Game, e: Event)
    requires Orderly(g) && Harmless(g, e)
    ensures Orderly(Step(g, e))
  {
    var w, events :| AllHarmless(NewGame(w), events) && g == Run(NewGame(w), events);
    HarmlessAppend(NewGame(w), events, e);
    RunAppend(NewGame(w), events, e);
  }

  lemma ExtendsKeepsOrder(ids': seq<string>, ids: seq<string>, a: string, b: string)
    requires Extends(ids', ids) && Ahead(ids, a, b)
    ensures Ahead(ids', a, b)
  {
    var i, j :| 0 <= i < j < |ids| && ids[i] == a && ids[j] == b;
    assert ids == ids'[..|ids|];
    assert ids'[i] == a && ids'[j] == b;
  }

  lemma TailKeepsOrder(ids: seq<string>, a: string, b: string)
    requires Ahead(ids, a, b) && ids[0] != a
    ensures Ahead(ids[1..], a, b)
  {
    var i, j :| 0 <= i < j < |ids| && ids[i] == a && ids[j] == b;
    assert ids[1..][i - 1] == a && ids[1..][j - 1] == b;
  }

  lemma RemovalKeepsOrder(ids: seq<string>, k: nat, a: string, b: string)
    requires k < |ids| && Ahead(ids, a, b) && ids[k] != a && ids[k] != b
    ensures Ahead(ids[..k] + ids[k + 1..], a, b)
  {
    var i, j :| 0 <= i < j < |ids| && ids[i] == a && ids[j] == b;
    var rest := ids[..k] + ids[k + 1..];
    assert rest[if i < k then i else i - 1] == a;
    assert rest[if j < k then j else j - 1] == b;
  }

  lemma RenameKeepsOrder(ids: seq<string>, k: nat, id: string, a: string, b: string)
    requires k < |ids| && Ahead(ids, a, b) && a in ids[k := id] && b in ids[k := id]
    requires forall i, j :: 0 <= i < j < |ids| ==> ids[i] != ids[j]
    ensures Ahead(ids[k := id], a, b)
  {
    var i, j :| 0 <= i < j < |ids| && ids[i] == a && ids[j] == b;
    assert ids[k := id][i] == a && ids[k := id][j] == b;
  }

  /** An id that leaves a bench without repetition is no longer on it. */
  lemma RemovedIsGone(g: Game, k: nat)
    requires Orderly(g) && k < |g.bench|
    ensures Ids(g.bench)[k] !in Ids(g.bench)[..k] + Ids(g.bench)[k + 1..]
  {
    EveryoneOnce(g);
  }

  lemma HeadIsGone(g: Game, g': Game)
    requires Orderly(g') && HeadEntered(g, g')
    ensures !OnBench(g', g.bench[0].id)
  {
    EveryoneOnce(g');
    assert g'.players[|g'.players| - 1].id == g.bench[0].id;
  }

  lemma OrderKeptByStep(g: Game, e: Event, a: string, b: string)
    requires Orderly(g) && Harmless(g, e) && Ahead(Ids(g.bench), a, b)
    requires OnBench(Step(g, e), a) && OnBench(Step(g, e), b)
    ensures Ahead(Ids(Step(g, e).bench), a, b)
  {
    var g' := Step(g, e);
    var ids, ids' := Ids(g.bench), Ids(g'.bench);
    StepOrderly(g, e);
    BenchIsQueue(g, e);
    if Extends(ids', ids) {
      ExtendsKeepsOrder(ids', ids, a, b);
    } else if HeadEntered(g, g') {
      HeadIsGone(g, g');
      TailKeepsOrder(ids, a, b);
      ExtendsKeepsOrder(ids', ids[1..], a, b);
    } else if OneLeft(g, g') {
      var k :| 0 <= k < |g.bench| && ids' == ids[..k] + ids[k + 1..];
      RemovedIsGone(g, k);
      RemovalKeepsOrder(ids, k, a, b);
    } else {
      var k :| 0 <= k < |g.bench| && ids' == ids[k := ids'[k]];
      EveryoneOnce(g);
      RenameKeepsOrder(ids, k, ids'[k], a, b);
    }
  }

  /** The id is on the bench now and after every event. */
  predicate StaysBenched(g: Game, events: seq<Event>, id: string)
    decreases |events|
  {
    OnBench(g, id) && (events == [] || StaysBenched(Step(g, events[0]), events[1..], id))
  }

  /** Whoever is ahead on the bench stays ahead for as long as both stay, whatever else happens. */
  lemma {:induction false} OrderKept(g: Game, events: seq<Event>, a: string, b: string)
    requires Orderly(g) && AllHarmless(g, events)
    requires Ahead(Ids(g.bench), a, b) && StaysBenched(g, events, a) && StaysBenched(g, events, b)
    ensures Orderly(Run(g, events)) && Ahead(Ids(Run(g, events).bench), a, b)
    decreases |events|
  {
    if events != [] {
      OrderKeptByStep(g, events[0], a, b);
      StepOrderly(g, events[0]);
      OrderKept(Step(g, events[0]), events[1..], a, b);
    }
  }

  /** So the one behind is never seated from the bench before the one ahead has left it. */
  lemma NeverSeatedFirst(g: Game, events: seq<Event>, e: Event, a: string, b: string)
    requires Orderly(g) && AllHarmless(g, events) && Harmless(Run(g, events), e)
    requires Ahead(Ids(g.bench), a, b) && StaysBenched(g, events, a) && StaysBenched(g, events, b)
    ensures b !in Ids(Step(Run(g, events), e).players)
  {
    OrderKept(g, events, a, b);
    var last := Run(g, events);
    var i, j :| 0 <= i < j < |last.bench| && Ids(last.bench)[i] == a && Ids(last.bench)[j] == b;
    var g' := Step(last, e);
    forall k | 0 <= k < |g'.players| ensures g'.players[k].id != b {
      if g'.players[k].id == b { NoOvertaking(last, e, j, k); }
    }
  }
}
