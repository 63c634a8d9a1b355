/**
 The rules of a Tetris free-for-all, told from the states before and after an event: who is knocked out, who is
 seated, when the game ends and who has won.
*/
module TetrisRules {
  import opened Tetris
  import opened TetrisSafety
  import opened Wrappers

  // ----- being recognised -----

  /** The first of the list whom the request comes from, by id or socket. */
  predicate FirstMatch(ps: seq<Player>, w: Who, i: nat) {
    && i < |ps| && (ps[i].id == w.id || ps[i].socket == w.socket)
    && forall j :: 0 <= j < i ==> ps[j].id != w.id && ps[j].socket != w.socket
  }

  predicate NoMatch(ps: seq<Player>, w: Who) {
    forall j :: 0 <= j < |ps| ==> ps[j].id != w.id && ps[j].socket != w.socket
  }

  lemma MatchIs(ps: seq<Player>, w: Who)
    ensures var i := Find(ps, (p: Player) => Matches(p, w));
            if i < |ps| then FirstMatch(ps, w, i) else NoMatch(ps, w)
    ensures forall k: nat :: FirstMatch(ps, w, k) ==> k == Find(ps, (p: Player) => Matches(p, w))
  {
    var i := Find(ps, (p: Player) => Matches(p, w));
    forall j | 0 <= j < i ensures ps[j].id != w.id && ps[j].socket != w.socket {
      assert !Matches(ps[j], w);
    }
    forall k: nat | FirstMatch(ps, w, k) ensures k == i {
      assert i < k ==> Matches(ps[i], w);
    }
  }

  lemma {:induction false} FindIs(ps: seq<Player>, test: Player -> bool, i: nat)
    requires i < |ps| && test(ps[i]) && forall j :: 0 <= j < i ==> !test(ps[j])
    ensures Find(ps, test) == i
  {
    if i > 0 {
      assert forall j :: 0 <= j < |ps[1..]| ==> ps[1..][j] == ps[j + 1];
      FindIs(ps[1..], test, i - 1);
    }
  }

  // ----- knocking out -----

  /** Exactly one player is active, and this is the name. */
  ghost predicate OnlyActive(ps: seq<Player>, name: string) {
    exists i :: 0 <= i < |ps| && ps[i].active && ps[i].name == name
                && forall j :: 0 <= j < |ps| && ps[j].active ==> j == i
  }

  lemma {:induction false} CountZero(ps: seq<Player>)
    ensures ActiveCount(ps) == 0 <==> forall j :: 0 <= j < |ps| ==> !ps[j].active
  {
    if ps != [] {
      CountZero(ps[1..]);
      if forall j :: 0 <= j < |ps| ==> !ps[j].active {
        assert forall j :: 0 <= j < |ps[1..]| ==> ps[1..][j] == ps[j + 1];
      } else if ActiveCount(ps) == 0 {
        forall j | 0 <= j < |ps| ensures !ps[j].active {
          assert j > 0 ==> ps[j] == ps[1..][j - 1];
        }
      }
    }
  }

  lemma OneActive(ps: seq<Player>)
    requires ActiveCount(ps) == 1
    ensures OnlyActive(ps, ps[FirstActive(ps)].name)
  {
    var i := FirstActive(ps);
    ActiveSplit(ps, i);
    CountZero(ps[..i]);
    CountZero(ps[i + 1..]);
    forall j | 0 <= j < |ps| && j != i ensures !ps[j].active {
      if j < i {
        assert ps[j] == ps[..i][j];
      } else {
        assert ps[j] == ps[i + 1..][j - i - 1];
      }
    }
  }

  /** The player is out, and the head of the bench, if there is one, plays on a new seat from zero. */
  ghost predicate OutAndIn(g: Game, g': Game, i: nat)
    requires i < |g.players|
  {
    var left := g.players[i := g.players[i].(active := false)];
    if g.bench == [] then g'.players == left && g'.bench == [] && g'.scores == g.scores
    else
      var next := g.bench[0].(active := true);
      && g'.players == left + [next] && g'.bench == g.bench[1..]
      && g'.scores == g.scores[next.id := 0]
  }

  /**
   A player is knocked out. The game is over exactly when there are not two left, on the seats and the bench
   together, and whoever is left has won.
  */
  ghost predicate KnockedOut(g: Game, g': Game, i: nat)
    requires i < |g.players|
  {
    && OutAndIn(g, g', i) && g'.creator == g.creator && g'.maxPlayers == g.maxPlayers && g'.started == g.started
    && var left := ActiveCount(g.players) - 1 + |g.bench|;
       if left >= 2 then g'.status == g.status && g'.winner == g.winner
       else
         && g'.status == Finished
         && (left == 1 ==> g'.winner.Some? && OnlyActive(g'.players, g'.winner.value))
         && (left <= 0 ==> g'.winner.None?)
  }

  lemma EndIs(g: Game)
    requires g.status != Finished
    ensures var g' := CheckEndCondition(g);
            if g.bench == [] && ActiveCount(g.players) <= 1 then
              g' == g.(status := Finished, winner := g'.winner)
              && (ActiveCount(g.players) == 1 ==> g'.winner.Some? && OnlyActive(g.players, g'.winner.value))
              && (ActiveCount(g.players) == 0 ==> g'.winner.None?)
            else g' == g
  {
    if ActiveCount(g.players) == 1 { OneActive(g.players); }
  }

  lemma KnockOutIs(g: Game, i: nat)
    requires Inv(g) && g.status != Finished && i < |g.players| && g.players[i].active
    ensures KnockedOut(g, KnockOut(g, i), i)
  {
    var out := g.players[i].(active := false);
    var g1 := g.(players := g.players[i := out]);
    ActiveUpdate(g.players, i, out);
    if g.bench != [] { ActiveAppend(g1.players, [g.bench[0].(active := true)]); }
    EndIs(FillFromBench(g1));
  }

  /** A report of game over knocks out whoever sent it, if active, or ends the game of a player who is alone. */
  lemma GameOverIs(g: Game, w: Who)
    requires Reachable(g)
    ensures var g' := Step(g, LosesGame(w));
            && (g.status == Finished || NoMatch(g.players, w) ==> g' == g)
            && (forall i: nat :: g.status != Finished && FirstMatch(g.players, w, i) ==>
                  if !g.players[i].active then g' == g
                  else if |g.players| == 1 && g.bench == [] then g' == g.(status := Finished, winner := None)
                  else KnockedOut(g, g', i))
  {
    ReachableInv(g);
    MatchIs(g.players, w);
    var i := Find(g.players, (p: Player) => Matches(p, w));
    if g.status != Finished && i < |g.players| && g.players[i].active { KnockOutIs(g, i); }
  }

  /** A forfeit takes a benched player off the bench, and otherwise knocks out an active one. */
  lemma ForfeitIs(g: Game, w: Who)
    requires Reachable(g)
    ensures var g' := Step(g, Forfeits(w));
            && (g.status == Finished || (NoMatch(g.bench, w) && NoMatch(g.players, w)) ==> g' == g)
            && (forall j: nat :: g.status != Finished && FirstMatch(g.bench, w, j) ==>
                  g' == g.(bench := g.bench[..j] + g.bench[j + 1..]))
            && (forall i: nat :: g.status != Finished && NoMatch(g.bench, w) && FirstMatch(g.players, w, i) ==>
                  if g.players[i].active then KnockedOut(g, g', i) else g' == g)
  {
    ReachableInv(g);
    MatchIs(g.bench, w);
    MatchIs(g.players, w);
    var i := Find(g.players, (p: Player) => Matches(p, w));
    if g.status != Finished && i < |g.players| && g.players[i].active { KnockOutIs(g, i); }
  }

  /** So does staying away, told by the id. */
  lemma AwayIs(g: Game, id: string)
    requires Reachable(g)
    ensures var g' := Step(g, StaysAway(id));
            && (g.status == Finished || (forall i :: 0 <= i < |g.players| ==> g.players[i].id != id) ==> g' == g)
            && (forall i: nat :: g.status != Finished && i < |g.players| && g.players[i].id == id
                                 && (forall j :: 0 <= j < i ==> g.players[j].id != id) ==>
                  if g.players[i].active then KnockedOut(g, g', i) else g' == g)
  {
    ReachableInv(g);
    var test := (p: Player) => p.id == id;
    var k := Find(g.players, test);
    forall i: nat | i < |g.players| && g.players[i].id == id && (forall j :: 0 <= j < i ==> g.players[j].id != id)
      ensures i == k
    {
      FindIs(g.players, test, i);
    }
    if g.status != Finished && k < |g.players| && g.players[k].active { KnockOutIs(g, k); }
  }

  // ----- coming in -----

  predicate Here(ps: seq<Player>, w: Who) {
    exists i :: 0 <= i < |ps| && (ps[i].id == w.id || ps[i].name == w.name)
  }

  /** The first with this id or name has the new socket, and nothing else has changed. */
  predicate SocketMoved(ps: seq<Player>, ps': seq<Player>, w: Who) {
    exists i :: 0 <= i < |ps| && (ps[i].id == w.id || ps[i].name == w.name)
                && (forall j :: 0 <= j < i ==> ps[j].id != w.id && ps[j].name != w.name)
                && ps' == ps[i := ps[i].(socket := w.socket)]
  }

  lemma HereIs(ps: seq<Player>, w: Who)
    ensures var i := Find(ps, (p: Player) => SamePerson(p, w));
            && (Here(ps, w) <==> i < |ps|)
            && (i < |ps| ==> SocketMoved(ps, ps[i := ps[i].(socket := w.socket)], w))
  {
    var i := Find(ps, (p: Player) => SamePerson(p, w));
    forall j | 0 <= j < i ensures ps[j].id != w.id && ps[j].name != w.name {
      assert !SamePerson(ps[j], w);
    }
    if i < |ps| { assert SamePerson(ps[i], w); }
  }

  /** Whoever is there already is reconnected; a newcomer plays while a seat is open, and otherwise queues. */
  lemma JoinIs(g: Game, w: Who)
    ensures var g' := Step(g, Joins(w));
            var newcomer := Player(w.id, w.socket, w.name, ActiveCount(g.players) < g.maxPlayers);
            if g.status == Finished then g' == g
            else if Here(g.players, w) then g' == g.(players := g'.players) && SocketMoved(g.players, g'.players, w)
            else if Here(g.bench, w) then g' == g.(bench := g'.bench) && SocketMoved(g.bench, g'.bench, w)
            else if newcomer.active then
              g' == g.(players := g.players + [newcomer], scores := g.scores[w.id := 0], status := Playing,
                       started := g.started || g.status == Waiting)
            else g' == g.(bench := g.bench + [newcomer])
  {
    HereIs(g.players, w);
    HereIs(g.bench, w);
  }

  /** One more seat, which the head of the bench takes. */
  lemma IncreaseIs(g: Game, w: Who)
    requires Reachable(g)
    ensures var g' := Step(g, IncreasesSlots(w));
            var may := w.id == g.creator
                       || (g.players != [] && (g.players[0].id == w.id || g.players[0].socket == w.socket));
            if g.status == Finished || !may || g.maxPlayers >= 6 then g' == g
            else if g.bench == [] then g' == g.(maxPlayers := g.maxPlayers + 1)
            else
              var next := g.bench[0].(active := true);
              g' == g.(maxPlayers := g.maxPlayers + 1, players := g.players + [next], bench := g.bench[1..],
                       scores := g.scores[next.id := 0])
  {
    ReachableInv(g);
  }

  /** A game that was never shared starts over with its one player; a score is recorded for its player. */
  lemma SoloAndScore(g: Game, w: Who, score: int)
    ensures Step(g, ResetsSolo) ==
            if g.started || |g.players| != 1 || g.bench != [] then g
            else g.(players := [g.players[0].(active := true)], status := Waiting, winner := None,
                    scores := map[g.players[0].id := 0])
    ensures var g' := Step(g, Reports(w, score));
            && (NoMatch(g.players, w) ==> g' == g)
            && forall i: nat :: FirstMatch(g.players, w, i) ==> g' == g.(scores := g.scores[g.players[i].id := score])
  {
    MatchIs(g.players, w);
  }

  /** A returning user's seat, or else bench entry, has the new socket and the id, if there is one. */
  lemma RejoinIs(g: Game, userId: string, socket: string, name: string)
    ensures var g' := Step(g, Rejoins(userId, socket, name));
            var w := Who(if userId == "" then socket else userId, socket, name);
            if g.status == Finished || (!Here(g.players, w) && !Here(g.bench, w)) then g' == g
            else if Here(g.players, w) then
              g' == g.(players := g'.players) && Returned(g.players, g'.players, w, userId)
            else g' == g.(bench := g'.bench) && Returned(g.bench, g'.bench, w, userId)
  {
    var w := Who(if userId == "" then socket else userId, socket, name);
    HereIs(g.players, w);
    HereIs(g.bench, w);
    ReturnedIs(g.players, w, userId);
    ReturnedIs(g.bench, w, userId);
  }

  predicate Returned(ps: seq<Player>, ps': seq<Player>, w: Who, userId: string) {
    exists i :: 0 <= i < |ps| && (ps[i].id == w.id || ps[i].name == w.name)
                && (forall j :: 0 <= j < i ==> ps[j].id != w.id && ps[j].name != w.name)
                && ps' == ps[i := Player(if userId == "" then ps[i].id else userId, w.socket, ps[i].name, ps[i].active)]
  }

  lemma ReturnedIs(ps: seq<Player>, w: Who, userId: string)
    ensures var i := Find(ps, (p: Player) => SamePerson(p, w));
            i < |ps| ==> Returned(ps, ps[i := Renewed(ps[i], userId, w.socket)], w, userId)
  {
    var i := Find(ps, (p: Player) => SamePerson(p, w));
    forall j | 0 <= j < i ensures ps[j].id != w.id && ps[j].name != w.name {
      assert !SamePerson(ps[j], w);
    }
    if i < |ps| { assert SamePerson(ps[i], w); }
  }

  // ----- tagging out -----

  /** The first active player whom the request comes from. */
  predicate FirstActiveMatch(ps: seq<Player>, w: Who, i: nat) {
    && i < |ps| && ps[i].active && (ps[i].id == w.id || ps[i].socket == w.socket)
    && forall j :: 0 <= j < i ==> !(ps[j].active && (ps[j].id == w.id || ps[j].socket == w.socket))
  }

  /**
   Where nobody has two places, an active player who is not the last one there goes to the end of the bench, and
   whoever was at its head, if anybody, plays on a new seat from zero. Nobody else moves and the game goes on.
  */
  lemma TagOutEffect(g: Game, w: Who, i: nat)
    requires Orderly(g) && g.status == Playing && FirstActiveMatch(g.players, w, i)
    ensures var g' := Step(g, TagsOut(w));
            var p := g.players[i];
            var others := g.players[..i] + g.players[i + 1..];
            var left := Player(p.id, p.socket, p.name, false);
            if ActiveCount(g.players) == 1 && g.bench == [] then g' == g
            else if g.bench == [] then g' == g.(players := others, bench := [left])
            else
              var next := g.bench[0].(active := true);
              g' == g.(players := others + [next], bench := g.bench[1..] + [left], scores := g.scores[next.id := 0])
  {
    OrderlyOnce(g);
    TagOutIs(g, w);
    var test := (p: Player) => Matches(p, w) && p.active;
    FindIs(g.players, test, i);
    OthersActive(g, i);
    ActiveRemove(g.players, i);
    if g.bench != [] {
      assert (g.bench + [g.players[i].(active := false)])[1..] == g.bench[1..] + [g.players[i].(active := false)];
    }
  }

  /** Without a second active player nobody else is active, whatever the ids. */
  lemma OthersActive(g: Game, i: nat)
    requires OnePlaceEach(g) && i < |g.players| && g.players[i].active
    ensures OtherActive(g.players, g.players[i].id) == ActiveCount(g.players) - 1
  {
    OccSome(g.players, i);
    assert Occ(g.players, g.players[i].id) + Occ(g.bench, g.players[i].id) <= 1;
    OtherActiveIs(g.players, i);
  }

  lemma {:induction false} OtherActiveIs(ps: seq<Player>, i: nat)
    requires i < |ps| && ps[i].active && Occ(ps, ps[i].id) == 1
    ensures OtherActive(ps, ps[i].id) == ActiveCount(ps) - 1
  {
    var id := ps[i].id;
    if i == 0 {
      NoneOther(ps[1..], id);
    } else {
      OccSome(ps[1..], i - 1);
      OtherActiveIs(ps[1..], i - 1);
    }
  }

  lemma {:induction false} NoneOther(ps: seq<Player>, id: string)
    requires Occ(ps, id) == 0
    ensures OtherActive(ps, id) == ActiveCount(ps)
  {
    if ps != [] { NoneOther(ps[1..], id); }
  }

  /** And for anybody else a tag-out does nothing. */
  lemma TagOutNeedsSeat(g: Game, w: Who)
    ensures Step(g, TagsOut(w)) != g ==> g.status == Playing && exists i: nat :: FirstActiveMatch(g.players, w, i)
  {
    var test := (p: Player) => Matches(p, w) && p.active;
    var k := Find(g.players, test);
    if g.status == Playing && k < |g.players| {
      forall j | 0 <= j < k
        ensures !(g.players[j].active && (g.players[j].id == w.id || g.players[j].socket == w.socket))
      {
        assert !test(g.players[j]);
      }
      assert FirstActiveMatch(g.players, w, k);
    }
  }

  // ----- a game goes on only while there is somebody to play against -----

  /** Two are there to play, on the seats and the bench together, whenever a game is in progress. */
  predicate Contested(g: Game) {
    g.status == Playing ==> ActiveCount(g.players) + |g.bench| >= 2
  }

  /** A waiting game has its one player active. */
  predicate Ready(g: Game) {
    g.status == Waiting ==> ActiveCount(g.players) == 1
  }

  /** One of the last two is on the bench and gives up. */
  predicate LeavesOneAlone(g: Game, e: Event) {
    && e.Forfeits? && g.status == Playing && ActiveCount(g.players) + |g.bench| == 2 && !NoMatch(g.bench, e.w)
  }

  lemma KnockedOutContested(g: Game, g': Game, i: nat)
    requires i < |g.players| && g.players[i].active && KnockedOut(g, g', i) && g.status != Finished
    requires Inv(g) && Ready(g)
    ensures Contested(g') && Ready(g')
  {
    var left := g.players[i := g.players[i].(active := false)];
    ActiveUpdate(g.players, i, g.players[i].(active := false));
    if g.bench != [] { ActiveAppend(left, [g.bench[0].(active := true)]); }
  }

  lemma ForfeitContested(g: Game, w: Who)
    requires Reachable(g) && Inv(g) && Ready(g) && Contested(g)
    ensures Ready(Step(g, Forfeits(w))) && (Contested(Step(g, Forfeits(w))) <==> !LeavesOneAlone(g, Forfeits(w)))
  {
    ForfeitIs(g, w);
    MatchIs(g.bench, w);
    MatchIs(g.players, w);
    if g.status != Finished {
      var j := Find(g.bench, (p: Player) => Matches(p, w));
      var i := Find(g.players, (p: Player) => Matches(p, w));
      if j == |g.bench| && i < |g.players| && g.players[i].active {
        KnockedOutContested(g, Step(g, Forfeits(w)), i);
      }
    }
  }

  lemma GameOverContested(g: Game, w: Who)
    requires Reachable(g) && Inv(g) && Ready(g) && Contested(g)
    ensures Ready(Step(g, LosesGame(w))) && Contested(Step(g, LosesGame(w)))
  {
    GameOverIs(g, w);
    MatchIs(g.players, w);
    var i := Find(g.players, (p: Player) => Matches(p, w));
    if g.status != Finished && i < |g.players| && g.players[i].active && !(|g.players| == 1 && g.bench == []) {
      KnockedOutContested(g, Step(g, LosesGame(w)), i);
    }
  }

  lemma AwayContested(g: Game, id: string)
    requires Inv(g) && Ready(g) && Contested(g)
    ensures Ready(Step(g, StaysAway(id))) && Contested(Step(g, StaysAway(id)))
  {
    var i := Find(g.players, (p: Player) => p.id == id);
    if g.status != Finished && i < |g.players| && g.players[i].active {
      KnockOutIs(g, i);
      KnockedOutContested(g, KnockOut(g, i), i);
    }
  }

  lemma JoinContested(g: Game, w: Who)
    requires Inv(g) && Ready(g) && Contested(g)
    ensures Ready(Step(g, Joins(w))) && Contested(Step(g, Joins(w)))
  {
    var i := Find(g.players, (p: Player) => SamePerson(p, w));
    if i < |g.players| {
      ActiveUpdate(g.players, i, g.players[i].(socket := w.socket));
    } else {
      var newcomer := [Player(w.id, w.socket, w.name, true)];
      ActiveAppend(g.players, newcomer);
      assert newcomer[1..] == [];
    }
  }

  /** Seating the head of the bench leaves as many to play as there were. */
  lemma FillKeepsCount(g: Game)
    ensures var g' := FillFromBench(g);
            ActiveCount(g'.players) + |g'.bench| == ActiveCount(g.players) + |g.bench|
  {
    if ActiveCount(g.players) < g.maxPlayers && g.bench != [] {
      ActiveAppend(g.players, [g.bench[0].(active := true)]);
    }
  }

  lemma TagOutContested(g: Game, w: Who)
    requires Inv(g) && Ready(g) && Contested(g)
    ensures Ready(Step(g, TagsOut(w))) && Contested(Step(g, TagsOut(w)))
  {
    var i := Find(g.players, (p: Player) => Matches(p, w) && p.active);
    if g.status == Playing && i < |g.players| {
      var benched := Benched(g, i);
      ActiveRemove(g.players, i);
      FillKeepsCount(benched);
      FillKeepsCount(if benched.bench[0].id != g.players[i].id then FillFromBench(benched) else benched);
    }
  }

  lemma OtherContested(g: Game, e: Event)
    requires Inv(g) && Ready(g) && Contested(g) && (e.IncreasesSlots? || e.ResetsSolo? || e.Reports? || e.Rejoins?)
    ensures Ready(Step(g, e)) && Contested(Step(g, e))
  {
    match e
    case IncreasesSlots(w) => FillKeepsCount(g.(maxPlayers := g.maxPlayers + 1));
    case ResetsSolo =>
      if |g.players| == 1 { assert [g.players[0].(active := true)][1..] == []; }
    case Reports(_, _) =>
    case Rejoins(userId, socket, name) =>
      var i := RejoinedSeat(g, userId, socket, name);
      if i < |g.players| { ActiveUpdate(g.players, i, Renewed(g.players[i], userId, socket)); }
  }

  /** An event leaves a game contested exactly when it is not one of the last two giving up on the bench. */
  lemma StepContestedIff(g: Game, e: Event)
    requires Reachable(g) && Ready(g) && Contested(g)
    ensures Ready(Step(g, e)) && (Contested(Step(g, e)) <==> !LeavesOneAlone(g, e))
  {
    ReachableInv(g);
    match e
    case Joins(w) => JoinContested(g, w);
    case LosesGame(w) => GameOverContested(g, w);
    case Forfeits(w) => ForfeitContested(g, w);
    case TagsOut(w) => TagOutContested(g, w);
    case StaysAway(id) => AwayContested(g, id);
    case _ => OtherContested(g, e);
  }

  predicate AlwaysContested(g: Game, events: seq<Event>)
    decreases |events|
  {
    Contested(g) && (events == [] || AlwaysContested(Step(g, events[0]), events[1..]))
  }

  predicate NobodyLeftAlone(g: Game, events: seq<Event>)
    decreases |events|
  {
    events == [] || (!LeavesOneAlone(g, events[0]) && NobodyLeftAlone(Step(g, events[0]), events[1..]))
  }

  lemma {:induction false} ContestedIff(g: Game, events: seq<Event>)
    requires Reachable(g) && Ready(g) && Contested(g)
    ensures AlwaysContested(g, events) <==> NobodyLeftAlone(g, events)
    decreases |events|
  {
    if events != [] {
      StepContestedIff(g, events[0]);
      if !LeavesOneAlone(g, events[0]) {
        StepAnyReachable(g, events[0]);
        ContestedIff(Step(g, events[0]), events[1..]);
      }
    }
  }

  lemma StepAnyReachable(g: Game, e: Event)
    requires Reachable(g)
    ensures Reachable(Step(g, e))
  {
    var w, events :| g == Run(NewGame(w), events);
    RunAppend(NewGame(w), events, e);
  }

  /**
   Over every run of every game, it goes on only while there is somebody to play against, exactly when nobody ever
   gives up on the bench as one of the last two.
  */
  lemma GoesOnContestedIff(creator: Who, events: seq<Event>)
    ensures AlwaysContested(NewGame(creator), events) <==> NobodyLeftAlone(NewGame(creator), events)
  {
    var g := NewGame(creator);
    assert g == Run(NewGame(creator), []);
    assert g.players[1..] == [];
    ContestedIff(g, events);
  }

  /** That happens: two play, the second tags out with nobody waiting and then gives up, and the game goes on alone. */
  lemma AloneRun(first: Who, second: Who) returns (events: seq<Event>)
    requires first.id != second.id && first.name != second.name && first.socket != second.socket
    ensures events == [Joins(second), TagsOut(second), Forfeits(second)]
    ensures var g := Run(NewGame(first), events);
            g.status == Playing && |g.players| == 1 && g.players[0].active && g.bench == [] && !Contested(g)
  {
    var g0 := NewGame(first);
    assert g0.players[1..] == [];
    var g1 := Step(g0, Joins(second));
    TwoSeated(g0, second);
    var g2 := Step(g1, TagsOut(second));
    SecondTagsOut(g1, second);
    var g3 := Step(g2, Forfeits(second));
    SecondForfeits(g2, second);
    events := [Joins(second), TagsOut(second), Forfeits(second)];
    assert events[1..] == [TagsOut(second), Forfeits(second)] && events[1..][1..] == [Forfeits(second)];
    assert [Forfeits(second)][1..] == [] && Run(g3, []) == g3;
    assert Run(g2, [Forfeits(second)]) == g3 && Run(g1, events[1..]) == g3;
  }

  lemma TwoSeated(g: Game, w: Who)
    requires |g.players| == 1 && g.players[0].active && g.bench == [] && g.maxPlayers == 2 && g.status == Waiting
    requires g.players[0].id != w.id && g.players[0].name != w.name
    ensures var g' := Step(g, Joins(w));
            && g'.players == [g.players[0], Player(w.id, w.socket, w.name, true)] && g'.bench == []
            && g'.status == Playing && g'.maxPlayers == 2
  {
    JoinIs(g, w);
    assert g.players[1..] == [] && ActiveCount(g.players) == 1;
    assert g.players + [Player(w.id, w.socket, w.name, true)] == [g.players[0], Player(w.id, w.socket, w.name, true)];
  }

  lemma SecondTagsOut(g: Game, w: Who)
    requires |g.players| == 2 && g.players[0].active && g.players[1] == Player(w.id, w.socket, w.name, true)
    requires g.bench == [] && g.status == Playing && g.players[0].id != w.id && g.players[0].socket != w.socket
    ensures var g' := Step(g, TagsOut(w));
            && g'.players == [g.players[0]] && g'.bench == [Player(w.id, w.socket, w.name, false)]
            && g'.status == Playing
  {
    var ps := g.players;
    var test := (p: Player) => Matches(p, w) && p.active;
    assert !test(ps[0]) && test(ps[1]) && ps[1..][0] == ps[1];
    assert Find(ps, test) == 1;
    assert ps[1..][1..] == [] && OtherActive(ps[1..], w.id) == 0 && OtherActive(ps, w.id) == 1;
    assert Remove(ps, 1) == [ps[0]];
    assert g.bench + [ps[1].(active := false)] == [Player(w.id, w.socket, w.name, false)];
    assert [ps[0]][1..] == [] && ActiveCount([ps[0]]) == 1;
  }

  lemma SecondForfeits(g: Game, w: Who)
    requires |g.players| == 1 && g.players[0].active && g.bench == [Player(w.id, w.socket, w.name, false)]
    requires g.status == Playing
    ensures var g' := Step(g, Forfeits(w)); g'.players == g.players && g'.bench == [] && g'.status == Playing
    ensures ActiveCount(Step(g, Forfeits(w)).players) == 1
  {
    assert Remove(g.bench, 0) == [];
    assert g.players[1..] == [];
  }
}
