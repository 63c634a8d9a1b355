/**
 What becomes of a join that nobody disturbs, and of leaving, deleting and the token calls, told from the state
 before and after.
*/
module RoomOutcomes {
  import opened RoomManager
  import opened RoomSafety
  import opened RoomLiveness
  import opened RoomAdmission
  import opened Wrappers

  // ----- a join alone -----

  /** A join inside the critical section, or done, in a sound state, with an unused token at hand. */
  ghost predicate Going(norm: Norm, s: State, t: Tid, choice: Choice) {
    && Inv(norm, s) && t in s.procs && s.procs[t].Join? && s.procs[t].pc != Waiting
    && choice.newToken !in s.issued && |choice.newToken| >= MIN_TOKEN_LENGTH
  }

  lemma GoesOn(norm: Norm, s: State, t: Tid, choice: Choice)
    requires Going(norm, s, t, choice) && !s.procs[t].pc.Done?
    ensures Enabled(s, Resume(t, choice)) && InCritical(s.procs[t])
    ensures var s' := Step(norm, s, Resume(t, choice));
            && Going(norm, s', t, choice) && Rank(s'.procs[t].pc) < Rank(s.procs[t].pc)
            && s' == ResumeJoin(norm, s, t, s.procs[t].args, s.procs[t].pc, choice) && s'.issued == s.issued
  {
    assert ProcOk(norm, s, t, s.procs[t]);
    StepKeeps(norm, s, Resume(t, choice));
    ResumeProgresses(norm, s, t, choice);
  }

  /** The state after the join has been resumed, again and again and without anything in between, until it is done. */
  ghost function Alone(norm: Norm, s: State, t: Tid, choice: Choice): State
    requires Going(norm, s, t, choice)
    decreases Rank(s.procs[t].pc)
  {
    if s.procs[t].pc.Done? then s
    else
      GoesOn(norm, s, t, choice);
      Alone(norm, Step(norm, s, Resume(t, choice)), t, choice)
  }

  /** It is a run of nothing but its resumptions. */
  lemma {:induction false} AloneIsRun(norm: Norm, s: State, t: Tid, choice: Choice) returns (events: seq<Event>)
    requires Going(norm, s, t, choice)
    ensures IsRun(norm, s, events) && Run(norm, s, events) == Alone(norm, s, t, choice)
    ensures forall i :: 0 <= i < |events| ==> events[i] == Resume(t, choice)
    decreases Rank(s.procs[t].pc)
  {
    if s.procs[t].pc.Done? {
      events := [];
    } else {
      GoesOn(norm, s, t, choice);
      var rest := AloneIsRun(norm, Step(norm, s, Resume(t, choice)), t, choice);
      events := [Resume(t, choice)] + rest;
      assert events[1..] == rest;
    }
  }

  /** How the join has ended, with the room objects, the table of rooms and the tokens as they are then. */
  predicate Ended(s': State, t: Tid, args: JoinArgs, success: bool, heap: map<Obj, Room>, rooms: map<Code, Obj>,
                  tokens: map<Token, TokenData>)
  {
    && t in s'.procs && s'.procs[t] == Join(args, Done(success)) && args.code !in s'.joinLocks
    && s'.heap == heap && s'.rooms == rooms && s'.inviteTokens == tokens
  }

  /** The token counts: known, long enough, not too old, for this room if one is named, and that room is there. */
  predicate Counts(s: State, token: Token, code: Code, expired: bool) {
    && token in s.inviteTokens && |token| >= 16 && (s.inviteTokens[token].isPermanent || !expired)
    && (code == "" || s.inviteTokens[token].roomCode == code) && s.inviteTokens[token].roomCode in s.rooms
  }

  /** The token goes: too old, or for a room that is no more, or temporary and spent by this very call. */
  predicate Goes(s: State, token: Token, code: Code, expired: bool, consume: bool) {
    && token in s.inviteTokens && |token| >= 16
    && var data := s.inviteTokens[token];
       || (!data.isPermanent && expired)
       || ((code == "" || data.roomCode == code) && (data.roomCode !in s.rooms || (!data.isPermanent && consume)))
  }

  /** The tokens that are left. */
  function TokensLeft(s: State, token: Token, gone: bool): map<Token, TokenData> {
    if gone then s.inviteTokens - {token} else s.inviteTokens
  }

  lemma OneMore(norm: Norm, s: State, t: Tid, args: JoinArgs, pc: JoinPc, choice: Choice) returns (s1: State)
    requires Going(norm, s, t, choice) && StandsAt(s, t, args, pc) && !pc.Done?
    ensures RefsOk(s, pc) && s1 == ResumeJoin(norm, s, t, args, pc, choice)
    ensures Going(norm, s1, t, choice) && Alone(norm, s, t, choice) == Alone(norm, s1, t, choice)
    ensures s1.issued == s.issued
  {
    GoesOn(norm, s, t, choice);
    s1 := Step(norm, s, Resume(t, choice));
  }

  lemma ReleasedEnds(norm: Norm, s: State, t: Tid, args: JoinArgs, success: bool, choice: Choice)
    requires Going(norm, Release(s, t, args, success), t, choice)
    ensures Ended(Alone(norm, Release(s, t, args, success), t, choice), t, args, success, s.heap, s.rooms,
                  s.inviteTokens)
  {
  }

  lemma TokensLeaveRooms(s: State, token: Token, code: Code, expired: bool, data: TokenData, present: bool,
                         consume: bool)
    ensures BeginValidate(s, token, code, expired).0.rooms == s.rooms
    ensures EndValidate(s, token, data, present, consume).0.rooms == s.rooms
  {
    if token in s.inviteTokens { DropLeavesRooms(s, token, s.inviteTokens[token].roomCode); }
    DropLeavesRooms(s, token, data.roomCode);
  }

  lemma DropLeavesRooms(s: State, token: Token, code: Code)
    ensures DropToken(s, token, code).rooms == s.rooms
  {
  }

  lemma DropIs(s: State, token: Token, code: Code)
    ensures DropToken(s, token, code).inviteTokens == s.inviteTokens - {token}
  {
  }

  lemma ConsumedEnds(norm: Norm, s: State, t: Tid, args: JoinArgs, choice: Choice)
    requires Going(norm, s, t, choice) && StandsAt(s, t, args, Consumed)
    ensures Ended(Alone(norm, s, t, choice), t, args, true, s.heap, s.rooms, s.inviteTokens)
  {
    var s1 := OneMore(norm, s, t, args, Consumed, choice);
    ReleasedEnds(norm, s, t, args, true, choice);
  }

  lemma ConsumingEnds(norm: Norm, s: State, t: Tid, args: JoinArgs, data: TokenData, present: bool, choice: Choice)
    requires Going(norm, s, t, choice) && StandsAt(s, t, args, Consuming(data, present))
    ensures Ended(Alone(norm, s, t, choice), t, args, true, s.heap, s.rooms,
                  TokensLeft(s, args.token, !present || !data.isPermanent))
  {
    var s1 := OneMore(norm, s, t, args, Consuming(data, present), choice);
    TokensLeaveHeap(s, args.token, "", false, data, present, true);
    TokensLeaveRooms(s, args.token, "", false, data, present, true);
    DropIs(s, args.token, data.roomCode);
    ConsumedEnds(norm, s1, t, args, choice);
  }

  lemma BeginIs(s: State, token: Token, code: Code, expired: bool)
    ensures var (s', v) := BeginValidate(s, token, code, expired);
            if v.Answer? then
              && !v.valid && !Counts(s, token, code, expired)
              && s'.inviteTokens == TokensLeft(s, token, Goes(s, token, code, expired, true))
              && Goes(s, token, code, expired, true) == Goes(s, token, code, expired, false)
            else
              && v.present == Counts(s, token, code, expired) && s' == s && token in s.inviteTokens
              && Goes(s, token, code, expired, true) == (!v.present || !v.data.isPermanent)
              && Goes(s, token, code, expired, false) == !v.present
  {
    if token in s.inviteTokens { DropIs(s, token, s.inviteTokens[token].roomCode); }
  }

  /** A user who has been added stays, and a token that was given is gone if it was temporary. */
  lemma PushedEnds(norm: Norm, s: State, t: Tid, args: JoinArgs, obj: Obj, choice: Choice)
    requires Going(norm, s, t, choice) && StandsAt(s, t, args, Pushed(obj))
    ensures Ended(Alone(norm, s, t, choice), t, args, true, s.heap, s.rooms,
                  TokensLeft(s, args.token, Goes(s, args.token, args.code, choice.tokenExpired, true)))
  {
    var s1 := OneMore(norm, s, t, args, Pushed(obj), choice);
    if args.token == "" {
      ReleasedEnds(norm, s, t, args, true, choice);
    } else {
      var (s', v) := BeginValidate(s, args.token, args.code, choice.tokenExpired);
      TokensLeaveHeap(s, args.token, args.code, choice.tokenExpired, TokenData("", false), false, false);
      TokensLeaveRooms(s, args.token, args.code, choice.tokenExpired, TokenData("", false), false, false);
      BeginIs(s, args.token, args.code, choice.tokenExpired);
      if v.Answer? {
        ConsumedEnds(norm, s1, t, args, choice);
      } else {
        ConsumingEnds(norm, s1, t, args, v.data, v.present, choice);
      }
    }
  }

  /** The room objects with the newcomer at the end of this one's users. */
  function Joined(heap: map<Obj, Room>, obj: Obj, args: JoinArgs): map<Obj, Room>
    requires obj in heap
  {
    heap[obj := heap[obj].(users := heap[obj].users + [User(args.userId, args.socketId, args.nickname)])]
  }

  /** The table of tokens once the newcomer is in: without the token that was given, if it was temporary. */
  function Spent(s: State, args: JoinArgs): map<Token, TokenData> {
    TokensLeft(s, args.token,
               args.token != "" && args.token in s.inviteTokens && !s.inviteTokens[args.token].isPermanent)
  }

  /** Nothing was given, or a token that is known, long enough and for this room. */
  predicate Fitting(s: State, args: JoinArgs) {
    args.token != "" && args.token in s.inviteTokens ==>
      |args.token| >= 16 && s.inviteTokens[args.token].roomCode == args.code
  }

  lemma PushEnds(norm: Norm, s: State, t: Tid, args: JoinArgs, obj: Obj, choice: Choice)
    requires obj in s.heap && Going(norm, PushUser(s, t, args, obj), t, choice) && Fitting(s, args)
    ensures Ended(Alone(norm, PushUser(s, t, args, obj), t, choice), t, args, true, Joined(s.heap, obj, args),
                  s.rooms[args.code := obj], Spent(s, args))
  {
    PushedEnds(norm, PushUser(s, t, args, obj), t, args, obj, choice);
  }

  /** The room is among the user's recent ones. */
  predicate TookPart(s: State, userId: string, code: Code) {
    userId in s.participated && code in s.participated[userId]
  }

  /** Being added makes the room one of the user's recent ones, if the user has an id, and nobody else's. */
  lemma RecentIs(s: State, t: Tid, args: JoinArgs, obj: Obj, userId: string, code: Code)
    requires obj in s.heap
    ensures TookPart(PushUser(s, t, args, obj), userId, code) <==>
            TookPart(s, userId, code) || (userId == args.userId && userId != "" && code == args.code)
  {
    assert PushUser(s, t, args, obj).participated == Participates(s.participated, args.userId, args.code);
  }

  predicate PasswordOk(room: Room, args: JoinArgs, choice: Choice) {
    room.hasPassword ==> args.password != "" && choice.passwordOk
  }

  /** How a join that came this far ends: with its user in the room, or refused with these tokens left. */
  predicate Decided(s: State, s': State, t: Tid, args: JoinArgs, obj: Obj, taken: bool, left: map<Token, TokenData>)
    requires obj in s.heap
  {
    if taken then Ended(s', t, args, true, Joined(s.heap, obj, args), s.rooms[args.code := obj], Spent(s, args))
    else Ended(s', t, args, false, s.heap, s.rooms, left)
  }

  /** From the invitation on: a room with a password takes the newcomer exactly if one was given and it is right. */
  lemma InvitationEnds(norm: Norm, s: State, t: Tid, args: JoinArgs, obj: Obj, choice: Choice)
    requires obj in s.heap && Going(norm, AfterInvitation(s, t, args, obj), t, choice) && Fitting(s, args)
    ensures Decided(s, Alone(norm, AfterInvitation(s, t, args, obj), t, choice), t, args, obj,
                    PasswordOk(s.heap[obj], args, choice), s.inviteTokens)
  {
    if !s.heap[obj].hasPassword {
      PushEnds(norm, s, t, args, obj, choice);
    } else if args.password == "" {
      ReleasedEnds(norm, s, t, args, false, choice);
    } else {
      var s0 := Suspend(s, t, args, CheckingPassword(obj));
      var s1 := OneMore(norm, s0, t, args, CheckingPassword(obj), choice);
      if choice.passwordOk {
        PushEnds(norm, s0, t, args, obj, choice);
      } else {
        ReleasedEnds(norm, s0, t, args, false, choice);
      }
    }
  }

  lemma ValidatedEnds(norm: Norm, s: State, t: Tid, args: JoinArgs, obj: Obj, valid: bool, choice: Choice)
    requires obj in s.heap && Going(norm, s, t, choice) && StandsAt(s, t, args, Validated(obj, valid))
    requires valid ==> Fitting(s, args)
    ensures Decided(s, Alone(norm, s, t, choice), t, args, obj, valid && PasswordOk(s.heap[obj], args, choice),
                    s.inviteTokens)
  {
    var s1 := OneMore(norm, s, t, args, Validated(obj, valid), choice);
    if valid {
      InvitationEnds(norm, s, t, args, obj, choice);
    } else {
      ReleasedEnds(norm, s, t, args, false, choice);
    }
  }

  lemma ValidatingEnds(norm: Norm, s: State, t: Tid, args: JoinArgs, obj: Obj, data: TokenData, present: bool,
                       choice: Choice)
    requires obj in s.heap && Going(norm, s, t, choice) && StandsAt(s, t, args, Validating(obj, data, present))
    requires present ==> Fitting(s, args)
    ensures Decided(s, Alone(norm, s, t, choice), t, args, obj, present && PasswordOk(s.heap[obj], args, choice),
                    TokensLeft(s, args.token, !present))
  {
    var s1 := OneMore(norm, s, t, args, Validating(obj, data, present), choice);
    TokensLeaveHeap(s, args.token, "", false, data, present, false);
    TokensLeaveRooms(s, args.token, "", false, data, present, false);
    DropIs(s, args.token, data.roomCode);
    ValidatedEnds(norm, s1, t, args, obj, present, choice);
  }

  /** The join once its token has been looked up. */
  function LookedUp(s: State, t: Tid, args: JoinArgs, obj: Obj, expired: bool): State {
    var (s', v) := BeginValidate(s, args.token, args.code, expired);
    Suspend(s', t, args, if v.Answer? then Validated(obj, v.valid) else Validating(obj, v.data, v.present))
  }

  /** A token counts exactly if it is there, of this room, not too old, and the room is there. */
  lemma LookupEnds(norm: Norm, s: State, t: Tid, args: JoinArgs, obj: Obj, choice: Choice)
    requires obj in s.heap && args.code != "" && args.token != ""
    requires Going(norm, LookedUp(s, t, args, obj, choice.tokenExpired), t, choice)
    ensures Decided(s, Alone(norm, LookedUp(s, t, args, obj, choice.tokenExpired), t, choice), t, args, obj,
                    GoodToken(s, args, choice.tokenExpired) && PasswordOk(s.heap[obj], args, choice),
                    TokensLeft(s, args.token, Goes(s, args.token, args.code, choice.tokenExpired, false)))
  {
    var v := BeginValidate(s, args.token, args.code, choice.tokenExpired).1;
    var s1 := LookedUp(s, t, args, obj, choice.tokenExpired);
    BeginIs(s, args.token, args.code, choice.tokenExpired);
    TokensLeaveHeap(s, args.token, args.code, choice.tokenExpired, TokenData("", false), false, false);
    TokensLeaveRooms(s, args.token, args.code, choice.tokenExpired, TokenData("", false), false, false);
    if v.Answer? {
      ValidatedEnds(norm, s1, t, args, obj, v.valid, choice);
    } else {
      ValidatingEnds(norm, s1, t, args, obj, v.data, v.present, choice);
    }
  }

  // ----- the checks, in their order -----

  /** Nobody else in the room goes by this name. */
  predicate NameIsFree(norm: Norm, users: seq<User>, args: JoinArgs) {
    forall i :: 0 <= i < |users| && norm(users[i].nickname) == norm(args.nickname) ==>
      users[i].socketId == args.socketId
  }

  predicate HasSocket(users: seq<User>, socketId: Socket) {
    exists i :: 0 <= i < |users| && users[i].socketId == socketId
  }

  predicate HasSpace(room: Room) {
    room.maxUsers == 0 || |room.users| < room.maxUsers
  }

  predicate Invited(s: State, room: Room, args: JoinArgs, choice: Choice) {
    if args.token == "" then !room.inviteOnly else GoodToken(s, args, choice.tokenExpired)
  }

  /** The socket's user, under the new nickname, and everybody else as they were. */
  predicate Renamed1(users: seq<User>, users': seq<User>, args: JoinArgs) {
    exists i :: 0 <= i < |users| && users[i].socketId == args.socketId
                && users' == users[i := users[i].(nickname := args.nickname)]
  }

  /** Exactly the tokens of this room are gone, and no other. */
  ghost predicate TokensOfGone(s: State, s': State, code: Code) {
    && (forall token :: token in s'.inviteTokens <==>
         token in s.inviteTokens && s.inviteTokens[token].roomCode != code)
    && (forall token :: token in s'.inviteTokens ==> s'.inviteTokens[token] == s.inviteTokens[token])
    && (forall c :: c in s'.roomToTokens <==> c in s.roomToTokens && c != code)
    && (forall c :: c in s'.roomToTokens ==> s'.roomToTokens[c] == s.roomToTokens[c])
  }

  /**
   What a join is answered by its room: an expired room goes; a name that is taken is refused; a socket that is
   there already is reconnected under the new name; and a newcomer is taken exactly if there is space, the
   invitation holds and the password is right.
  */
  ghost predicate Answered(norm: Norm, s: State, s': State, t: Tid, args: JoinArgs, obj: Obj, choice: Choice)
    requires obj in s.heap
  {
    var room := s.heap[obj];
    if choice.expired then
      Ended(s', t, args, false, s.heap, s.rooms - {args.code}, s'.inviteTokens) && TokensOfGone(s, s', args.code)
    else if !NameIsFree(norm, room.users, args) then Ended(s', t, args, false, s.heap, s.rooms, s.inviteTokens)
    else if HasSocket(room.users, args.socketId) then
      exists users' ::
        && Renamed1(room.users, users', args)
        && Ended(s', t, args, true, s.heap[obj := room.(users := users')],
                 if users' == room.users then s.rooms else s.rooms[args.code := obj], s.inviteTokens)
    else
      Decided(s, s', t, args, obj,
              HasSpace(room) && Invited(s, room, args, choice) && PasswordOk(room, args, choice),
              TokensLeft(s, args.token,
                         HasSpace(room) && Goes(s, args.token, args.code, choice.tokenExpired, false)))
  }

  lemma NameIsFreeIff(norm: Norm, users: seq<User>, args: JoinArgs)
    ensures NicknameTaken(norm, users, args.nickname, args.socketId) <==> !NameIsFree(norm, users, args)
    ensures FindUser(users, args.socketId) < |users| <==> HasSocket(users, args.socketId)
  {
  }

  lemma DeletedTokens(s: State, code: Code)
    requires MirrorOk(s.inviteTokens, s.roomToTokens)
    ensures TokensOfGone(s, DeleteRoom(s, code), code)
  {
  }

  lemma ExpiryEnds(norm: Norm, s: State, t: Tid, args: JoinArgs, choice: Choice)
    requires Going(norm, Suspend(s, t, args, Expiring), t, choice)
    ensures var s' := Alone(norm, Suspend(s, t, args, Expiring), t, choice);
            && Ended(s', t, args, false, s.heap, s.rooms - {args.code}, s'.inviteTokens)
            && TokensOfGone(s, s', args.code)
  {
    var s0 := Suspend(s, t, args, Expiring);
    DeletedTokens(s0, args.code);
    var s1 := OneMore(norm, s0, t, args, Expiring, choice);
    var s2 := OneMore(norm, s1, t, args, Expired, choice);
    ReleasedEnds(norm, s1, t, args, false, choice);
  }

  lemma ReconnectEnds(norm: Norm, s: State, t: Tid, args: JoinArgs, obj: Obj, i: nat, choice: Choice)
    requires obj in s.heap && i < |s.heap[obj].users| && s.heap[obj].users[i].socketId == args.socketId
    requires s.heap[obj].users[i].nickname != args.nickname
    requires var users := s.heap[obj].users;
             var renamed := users[i := users[i].(nickname := args.nickname)];
             Going(norm, Suspend(SaveRoom(SetUsers(s, obj, renamed), args.code, obj), t, args, Renamed(obj)), t, choice)
    ensures var users := s.heap[obj].users;
            var renamed := users[i := users[i].(nickname := args.nickname)];
            var s0 := Suspend(SaveRoom(SetUsers(s, obj, renamed), args.code, obj), t, args, Renamed(obj));
            && Renamed1(users, renamed, args) && renamed != users
            && Ended(Alone(norm, s0, t, choice), t, args, true, s.heap[obj := s.heap[obj].(users := renamed)],
                     s.rooms[args.code := obj], s.inviteTokens)
  {
    var users := s.heap[obj].users;
    var renamed := users[i := users[i].(nickname := args.nickname)];
    var saved := SaveRoom(SetUsers(s, obj, renamed), args.code, obj);
    assert renamed[i] != users[i];
    var s1 := OneMore(norm, Suspend(saved, t, args, Renamed(obj)), t, args, Renamed(obj), choice);
    ReleasedEnds(norm, Suspend(saved, t, args, Renamed(obj)), t, args, true, choice);
  }

  lemma SameNameEnds(norm: Norm, s: State, t: Tid, args: JoinArgs, obj: Obj, i: nat, choice: Choice)
    requires obj in s.heap && i < |s.heap[obj].users| && s.heap[obj].users[i].socketId == args.socketId
    requires s.heap[obj].users[i].nickname == args.nickname && Going(norm, Release(s, t, args, true), t, choice)
    ensures Renamed1(s.heap[obj].users, s.heap[obj].users, args)
    ensures Ended(Alone(norm, Release(s, t, args, true), t, choice), t, args, true,
                  s.heap[obj := s.heap[obj].(users := s.heap[obj].users)], s.rooms, s.inviteTokens)
  {
    var users := s.heap[obj].users;
    assert users[i := users[i].(nickname := args.nickname)] == users;
    assert s.heap[obj := s.heap[obj].(users := users)] == s.heap;
    ReleasedEnds(norm, s, t, args, true, choice);
  }

  /** Expiry, a name that is taken, and a socket that is there already. */
  lemma KnownEnds(norm: Norm, s: State, t: Tid, args: JoinArgs, obj: Obj, choice: Choice)
    requires obj in s.heap && Going(norm, AfterCleanup(norm, s, t, args, obj, choice), t, choice)
    requires || choice.expired || !NameIsFree(norm, s.heap[obj].users, args)
             || HasSocket(s.heap[obj].users, args.socketId)
    ensures Answered(norm, s, Alone(norm, AfterCleanup(norm, s, t, args, obj, choice), t, choice), t, args, obj, choice)
  {
    var users := s.heap[obj].users;
    var i := FindUser(users, args.socketId);
    NameIsFreeIff(norm, users, args);
    if choice.expired {
      ExpiryEnds(norm, s, t, args, choice);
    } else if !NameIsFree(norm, users, args) {
      ReleasedEnds(norm, s, t, args, false, choice);
    } else if users[i].nickname == args.nickname {
      SameNameEnds(norm, s, t, args, obj, i, choice);
    } else {
      ReconnectEnds(norm, s, t, args, obj, i, choice);
    }
  }

  /** The newcomer, as the room sees it after these checks. */
  predicate IsNewcomer(norm: Norm, s: State, args: JoinArgs, obj: Obj, choice: Choice)
    requires obj in s.heap
  {
    !choice.expired && NameIsFree(norm, s.heap[obj].users, args) && !HasSocket(s.heap[obj].users, args.socketId)
  }

  /** A newcomer who is turned away before anything is looked up. */
  lemma TurnedAwayEnds(norm: Norm, s: State, t: Tid, args: JoinArgs, obj: Obj, choice: Choice)
    requires obj in s.heap && Going(norm, AfterCleanup(norm, s, t, args, obj, choice), t, choice)
    requires IsNewcomer(norm, s, args, obj, choice)
    requires !HasSpace(s.heap[obj]) || (s.heap[obj].inviteOnly && args.token == "")
    ensures Answered(norm, s, Alone(norm, AfterCleanup(norm, s, t, args, obj, choice), t, choice), t, args, obj, choice)
  {
    NameIsFreeIff(norm, s.heap[obj].users, args);
    assert AfterCleanup(norm, s, t, args, obj, choice) == Release(s, t, args, false);
    ReleasedEnds(norm, s, t, args, false, choice);
  }

  lemma UninvitedEnds(norm: Norm, s: State, t: Tid, args: JoinArgs, obj: Obj, choice: Choice)
    requires obj in s.heap && Going(norm, AfterCleanup(norm, s, t, args, obj, choice), t, choice)
    requires IsNewcomer(norm, s, args, obj, choice) && HasSpace(s.heap[obj])
    requires !s.heap[obj].inviteOnly && args.token == ""
    ensures Answered(norm, s, Alone(norm, AfterCleanup(norm, s, t, args, obj, choice), t, choice), t, args, obj, choice)
  {
    NameIsFreeIff(norm, s.heap[obj].users, args);
    assert AfterCleanup(norm, s, t, args, obj, choice) == AfterInvitation(s, t, args, obj);
    InvitationEnds(norm, s, t, args, obj, choice);
  }

  lemma InvitedEnds(norm: Norm, s: State, t: Tid, args: JoinArgs, obj: Obj, choice: Choice)
    requires obj in s.heap && args.code != "" && Going(norm, AfterCleanup(norm, s, t, args, obj, choice), t, choice)
    requires IsNewcomer(norm, s, args, obj, choice) && HasSpace(s.heap[obj]) && args.token != ""
    ensures Answered(norm, s, Alone(norm, AfterCleanup(norm, s, t, args, obj, choice), t, choice), t, args, obj, choice)
  {
    NameIsFreeIff(norm, s.heap[obj].users, args);
    LookupEnds(norm, s, t, args, obj, choice);
  }

  lemma CleanupEnds(norm: Norm, s: State, t: Tid, args: JoinArgs, obj: Obj, choice: Choice)
    requires obj in s.heap && args.code != "" && Going(norm, AfterCleanup(norm, s, t, args, obj, choice), t, choice)
    ensures Answered(norm, s, Alone(norm, AfterCleanup(norm, s, t, args, obj, choice), t, choice), t, args, obj, choice)
  {
    if !IsNewcomer(norm, s, args, obj, choice) {
      KnownEnds(norm, s, t, args, obj, choice);
    } else if !HasSpace(s.heap[obj]) || (s.heap[obj].inviteOnly && args.token == "") {
      TurnedAwayEnds(norm, s, t, args, obj, choice);
    } else if args.token == "" {
      UninvitedEnds(norm, s, t, args, obj, choice);
    } else {
      InvitedEnds(norm, s, t, args, obj, choice);
    }
  }

  predicate AllConnected(users: seq<User>, choice: Choice) {
    choice.connected.None? || forall i :: 0 <= i < |users| ==> users[i].socketId in choice.connected.value
  }

  /** The room object without the users whose sockets are gone, saved if there were any. */
  function Swept(s: State, args: JoinArgs, obj: Obj, choice: Choice): State
    requires obj in s.heap
  {
    var users := s.heap[obj].users;
    if AllConnected(users, choice) then s
    else SaveRoom(SetUsers(s, obj, KeepUsers(users, (u: User) => u.socketId in choice.connected.value)), args.code, obj)
  }

  lemma {:induction false} KeepsAllIff(users: seq<User>, keep: User -> bool)
    ensures |KeepUsers(users, keep)| <= |users|
    ensures |KeepUsers(users, keep)| == |users| <==> forall i :: 0 <= i < |users| ==> keep(users[i])
  {
    if users != [] {
      KeepsAllIff(users[1..], keep);
      if keep(users[0]) && |KeepUsers(users[1..], keep)| == |users| - 1 {
        forall i | 0 <= i < |users| ensures keep(users[i]) {
          assert i > 0 ==> users[i] == users[1..][i - 1];
        }
      }
      if forall i :: 0 <= i < |users| ==> keep(users[i]) {
        assert forall i :: 0 <= i < |users[1..]| ==> users[1..][i] == users[i + 1];
      }
    }
  }

  /** The outcome of a join for which this room was found, or none. */
  ghost predicate Outcome(norm: Norm, s: State, s': State, t: Tid, args: JoinArgs, found: Option<Obj>, choice: Choice)
  {
    if found.None? then Ended(s', t, args, false, s.heap, s.rooms, s.inviteTokens)
    else
      && found.value in s.heap
      && Answered(norm, Swept(s, args, found.value, choice), s', t, args, found.value, choice)
  }

  /** Without a user to drop the checks come at once, and otherwise after the room has been saved. */
  lemma SweepIs(norm: Norm, s: State, t: Tid, args: JoinArgs, obj: Obj, choice: Choice)
    requires obj in s.heap
    ensures var swept := Swept(s, args, obj, choice);
            && obj in swept.heap
            && AfterGetRoom(norm, s, t, args, Some(obj), choice)
               == if AllConnected(s.heap[obj].users, choice) then AfterCleanup(norm, s, t, args, obj, choice)
                  else Suspend(swept, t, args, Cleaned(obj))
  {
    if choice.connected.Some? {
      KeepsAllIff(s.heap[obj].users, (u: User) => u.socketId in choice.connected.value);
    }
  }

  lemma SameAnswer(norm: Norm, s: State, p: Proc, s': State, t: Tid, args: JoinArgs, obj: Obj, choice: Choice)
    requires obj in s.heap && Answered(norm, At(s, t, p), s', t, args, obj, choice)
    ensures Answered(norm, s, s', t, args, obj, choice)
  {
  }

  lemma SweptEnds(norm: Norm, s: State, t: Tid, args: JoinArgs, obj: Obj, choice: Choice)
    requires obj in s.heap && args.code != "" && Going(norm, Suspend(s, t, args, Cleaned(obj)), t, choice)
    ensures Answered(norm, s, Alone(norm, Suspend(s, t, args, Cleaned(obj)), t, choice), t, args, obj, choice)
  {
    var s0 := Suspend(s, t, args, Cleaned(obj));
    var s1 := OneMore(norm, s0, t, args, Cleaned(obj), choice);
    CleanupEnds(norm, s0, t, args, obj, choice);
    SameAnswer(norm, s, Join(args, Cleaned(obj)), Alone(norm, s0, t, choice), t, args, obj, choice);
  }

  /**
   A join that holds the lock of its room and is not disturbed: no room, no admission; otherwise users whose
   sockets are gone are dropped first, and then the room answers.
  */
  lemma JoinAlone(norm: Norm, s: State, t: Tid, args: JoinArgs, found: Option<Obj>, choice: Choice)
    requires Going(norm, s, t, choice) && StandsAt(s, t, args, GotRoom(found))
    ensures Outcome(norm, s, Alone(norm, s, t, choice), t, args, found, choice)
  {
    var s1 := OneMore(norm, s, t, args, GotRoom(found), choice);
    CodeIsNotEmpty(norm, s, t, args, GotRoom(found));
    if found.None? {
      ReleasedEnds(norm, s, t, args, false, choice);
    } else {
      var swept := Swept(s, args, found.value, choice);
      SweepIs(norm, s, t, args, found.value, choice);
      if AllConnected(s.heap[found.value].users, choice) {
        CleanupEnds(norm, s, t, args, found.value, choice);
      } else {
        SweptEnds(norm, swept, t, args, found.value, choice);
      }
    }
  }

  /** A join begins by waiting; it takes the lock of its code exactly if nobody has it, and looks its room up. */
  lemma EnterIs(norm: Norm, s: State, t: Tid, args: JoinArgs, choice: Choice)
    requires Inv(norm, s) && t !in s.procs && choice.newToken !in s.issued && |choice.newToken| >= 16
    ensures Enabled(s, StartJoin(t, args)) && Enabled(Step(norm, s, StartJoin(t, args)), Resume(t, choice))
    ensures var s1 := Step(norm, s, StartJoin(t, args));
            var s2 := Step(norm, s1, Resume(t, choice));
            if args.code in s.joinLocks then s2 == s1 && s1.procs[t] == Join(args, Waiting)
            else
              && s2.joinLocks == s.joinLocks[args.code := t] && s2.heap == s.heap && s2.rooms == s.rooms
              && s2.inviteTokens == s.inviteTokens && Going(norm, s2, t, choice)
              && StandsAt(s2, t, args,
                          GotRoom(if args.code in s.rooms then Some(s.rooms[args.code]) else None))
  {
    var s1 := Step(norm, s, StartJoin(t, args));
    StepKeeps(norm, s, StartJoin(t, args));
    StepKeeps(norm, s1, Resume(t, choice));
  }

  // ----- filtering users -----

  /** Filtering looks at one user after the other and keeps the order. */
  lemma {:induction false} KeepOneByOne(users: seq<User>, u: User, keep: User -> bool)
    ensures KeepUsers(users + [u], keep) == KeepUsers(users, keep) + if keep(u) then [u] else []
  {
    if users == [] {
      assert users + [u] == [u];
    } else {
      var head := if keep(users[0]) then [users[0]] else [];
      KeepOneByOne(users[1..], u, keep);
      assert (users + [u])[1..] == users[1..] + [u];
      assert KeepUsers(users + [u], keep) == head + KeepUsers(users[1..] + [u], keep);
      assert KeepUsers(users, keep) == head + KeepUsers(users[1..], keep);
    }
  }

  predicate SocketsDiffer(users: seq<User>) {
    forall i, j :: 0 <= i < j < |users| ==> users[i].socketId != users[j].socketId
  }

  /** The socket's user is gone, if there was one, and everybody else is where they were. */
  predicate WithoutSocket(before: seq<User>, after: seq<User>, socketId: Socket) {
    if HasSocket(before, socketId) then
      exists i :: 0 <= i < |before| && before[i].socketId == socketId && after == before[..i] + before[i + 1..]
    else after == before
  }

  lemma {:induction false} NobodyGoes(users: seq<User>, socketId: Socket)
    requires forall i :: 0 <= i < |users| ==> users[i].socketId != socketId
    ensures KeepUsers(users, (u: User) => u.socketId != socketId) == users
  {
    if users != [] {
      NobodyGoes(users[1..], socketId);
      assert users == [users[0]] + users[1..];
    }
  }

  lemma {:induction false} LeaverGoes(users: seq<User>, socketId: Socket, i: nat)
    requires SocketsDiffer(users) && i < |users| && users[i].socketId == socketId
    ensures KeepUsers(users, (u: User) => u.socketId != socketId) == users[..i] + users[i + 1..]
  {
    if i == 0 {
      NobodyGoes(users[1..], socketId);
    } else {
      LeaverGoes(users[1..], socketId, i - 1);
      assert users[..i] + users[i + 1..] == [users[0]] + (users[1..][..i - 1] + users[1..][i..]);
    }
  }

  lemma UsersWithoutSocket(users: seq<User>, socketId: Socket)
    requires SocketsDiffer(users)
    ensures WithoutSocket(users, KeepUsers(users, (u: User) => u.socketId != socketId), socketId)
  {
    if HasSocket(users, socketId) {
      var i :| 0 <= i < |users| && users[i].socketId == socketId;
      LeaverGoes(users, socketId, i);
    } else {
      NobodyGoes(users, socketId);
    }
  }

  // ----- leaving and deleting -----

  /** Nothing but these calls has moved: no lock, no history, and the rooms' terms stay. */
  predicate OnlyRoomsAndTokens(s: State, s': State, t: Tid) {
    && s'.joinLocks == s.joinLocks && s'.participated == s.participated && s'.issued == s.issued
    && s'.admitted == s.admitted && t in s'.procs && s'.procs == s.procs[t := s'.procs[t]]
  }

  /** Deleting takes this room out of the table, with its tokens, and leaves its object as it is. */
  lemma DeleteIs(norm: Norm, s: State, t: Tid, choice: Choice)
    requires MirrorOk(s.inviteTokens, s.roomToTokens) && t in s.procs && s.procs[t].Delete?
    ensures var s' := ResumeProc(norm, s, t, choice);
            && OnlyRoomsAndTokens(s, s', t) && s'.procs[t] == Finished && s'.heap == s.heap
            && s'.rooms == s.rooms - {s.procs[t].code} && TokensOfGone(s, s', s.procs[t].code)
  {
  }

  /** The room's object has lost this socket's user and nothing else has changed in any room object. */
  predicate LeftRoom(s: State, s': State, obj: Obj, socketId: Socket)
    requires obj in s.heap
  {
    && obj in s'.heap && WithoutSocket(s.heap[obj].users, s'.heap[obj].users, socketId)
    && s'.heap == s.heap[obj := s.heap[obj].(users := s'.heap[obj].users)]
  }

  /** Nobody is left and the room does not stay empty. */
  predicate Deserted(room: Room) {
    room.users == [] && !room.allowEmpty
  }

  lemma ResumeLeaveIs(norm: Norm, s: State, t: Tid, code: Code, socketId: Socket, obj: Obj) returns (left: seq<User>)
    requires obj in s.heap && RoomOk(norm, s.heap[obj])
    ensures WithoutSocket(s.heap[obj].users, left, socketId)
    ensures ResumeLeave(s, t, code, socketId, Some(obj))
            == if left == [] && !s.heap[obj].allowEmpty then At(SetUsers(s, obj, left), t, Delete(code))
               else At(SaveRoom(SetUsers(s, obj, left), code, obj), t, Finished)
  {
    left := KeepUsers(s.heap[obj].users, (u: User) => u.socketId != socketId);
    UsersWithoutSocket(s.heap[obj].users, socketId);
  }

  /** The next state of a call that is resumed in a sound one. */
  lemma Resumes(norm: Norm, s: State, t: Tid, choice: Choice) returns (s': State)
    requires Inv(norm, s) && t in s.procs && choice.newToken !in s.issued && |choice.newToken| >= 16
    ensures Enabled(s, Resume(t, choice)) && s' == Step(norm, s, Resume(t, choice)) && Inv(norm, s')
  {
    assert ProcOk(norm, s, t, s.procs[t]);
    StepKeeps(norm, s, Resume(t, choice));
    s' := Step(norm, s, Resume(t, choice));
  }

  lemma RoomFound(norm: Norm, s: State, code: Code)
    requires Inv(norm, s) && code in s.rooms
    ensures s.rooms[code] in s.heap && RoomOk(norm, s.heap[s.rooms[code]])
  {
    assert RefOk(s.heap, s.rooms[code], code);
  }

  /** What a call to leave comes to: the user goes, and so does a room without users unless it may be empty. */
  ghost predicate HasLeft(s: State, s': State, t: Tid, code: Code, socketId: Socket, obj: Obj)
    requires obj in s.heap
  {
    && OnlyRoomsAndTokens(s, s', t) && s'.procs[t] == Finished && LeftRoom(s, s', obj, socketId)
    && if Deserted(s'.heap[obj]) then s'.rooms == s.rooms - {code} && TokensOfGone(s, s', code)
       else s'.rooms == s.rooms && s'.inviteTokens == s.inviteTokens && s'.roomToTokens == s.roomToTokens
  }

  lemma LeaveEnds(s: State, s1: State, t: Tid, code: Code, socketId: Socket, obj: Obj, left: seq<User>)
    requires code in s.rooms && s.rooms[code] == obj && obj in s.heap && t in s1.procs
    requires s1 == At(s, t, s1.procs[t]) && WithoutSocket(s.heap[obj].users, left, socketId)
    requires left != [] || s.heap[obj].allowEmpty
    ensures HasLeft(s, At(SaveRoom(SetUsers(s1, obj, left), code, obj), t, Finished), t, code, socketId, obj)
  {
    assert s.rooms[code := obj] == s.rooms;
  }

  lemma DesertedEnds(norm: Norm, s: State, s2: State, t: Tid, code: Code, socketId: Socket, obj: Obj,
                     left: seq<User>, choice: Choice)
    requires MirrorOk(s.inviteTokens, s.roomToTokens) && obj in s.heap
    requires s2 == At(SetUsers(s, obj, left), t, Delete(code))
    requires WithoutSocket(s.heap[obj].users, left, socketId) && left == [] && !s.heap[obj].allowEmpty
    ensures HasLeft(s, ResumeProc(norm, s2, t, choice), t, code, socketId, obj)
  {
    DeleteIs(norm, s2, t, choice);
  }

  lemma LeaveFound(norm: Norm, s: State, t: Tid, code: Code, socketId: Socket, choice: Choice)
    requires code in s.rooms && s.rooms[code] in s.heap && RoomOk(norm, s.heap[s.rooms[code]])
    requires MirrorOk(s.inviteTokens, s.roomToTokens)
    ensures var s1 := At(s, t, Leave(code, socketId, Some(s.rooms[code])));
            var s2 := ResumeLeave(s1, t, code, socketId, Some(s.rooms[code]));
            HasLeft(s, ResumeProc(norm, s2, t, choice), t, code, socketId, s.rooms[code])
  {
    var obj := s.rooms[code];
    var s1 := At(s, t, Leave(code, socketId, Some(obj)));
    var left := ResumeLeaveIs(norm, s1, t, code, socketId, obj);
    var s2 := ResumeLeave(s1, t, code, socketId, Some(obj));
    if left == [] && !s.heap[obj].allowEmpty {
      DesertedEnds(norm, s, s2, t, code, socketId, obj, left, choice);
    } else {
      LeaveEnds(s, s1, t, code, socketId, obj, left);
      assert ResumeProc(norm, s2, t, choice) == s2;
    }
  }

  /** The three stretches of a call to leave that is not disturbed. */
  ghost predicate Leaves(norm: Norm, s: State, t: Tid, code: Code, socketId: Socket, choice: Choice, s1: State,
                         s2: State, s3: State)
  {
    && Enabled(s, StartLeave(t, code, socketId)) && s1 == Step(norm, s, StartLeave(t, code, socketId))
    && Enabled(s1, Resume(t, choice)) && s2 == Step(norm, s1, Resume(t, choice))
    && Enabled(s2, Resume(t, choice)) && s3 == Step(norm, s2, Resume(t, choice))
  }

  lemma LeaveStarts(norm: Norm, s: State, t: Tid, code: Code, socketId: Socket) returns (s1: State)
    requires Inv(norm, s) && t !in s.procs
    ensures Enabled(s, StartLeave(t, code, socketId)) && s1 == Step(norm, s, StartLeave(t, code, socketId))
    ensures Inv(norm, s1) && t in s1.procs && s1.procs[t].Leave? && s1.issued == s.issued
  {
    StepKeeps(norm, s, StartLeave(t, code, socketId));
    s1 := Step(norm, s, StartLeave(t, code, socketId));
  }

  lemma LeaveResumes(norm: Norm, s: State, t: Tid, choice: Choice) returns (s': State)
    requires Inv(norm, s) && t in s.procs && s.procs[t].Leave?
    requires choice.newToken !in s.issued && |choice.newToken| >= 16
    ensures Enabled(s, Resume(t, choice)) && s' == Step(norm, s, Resume(t, choice)) && Inv(norm, s')
    ensures t in s'.procs && s'.issued == s.issued
  {
    s' := Resumes(norm, s, t, choice);
    LeaveMoves(s, t, s.procs[t].code, s.procs[t].socketId, s.procs[t].found);
    LeaveIssuesNothing(s, t, s.procs[t].code, s.procs[t].socketId, s.procs[t].found);
    assert s' == ResumeLeave(s, t, s.procs[t].code, s.procs[t].socketId, s.procs[t].found);
  }

  lemma LeaveIssuesNothing(s: State, t: Tid, code: Code, socketId: Socket, found: Option<Obj>)
    requires found.Some? ==> found.value in s.heap
    ensures ResumeLeave(s, t, code, socketId, found).issued == s.issued
  {
    if found.Some? {
      var left := KeepUsers(s.heap[found.value].users, (u: User) => u.socketId != socketId);
      assert SetUsers(s, found.value, left).issued == s.issued;
    }
  }

  lemma CanLeave(norm: Norm, s: State, t: Tid, code: Code, socketId: Socket, choice: Choice)
    returns (s1: State, s2: State, s3: State)
    requires Inv(norm, s) && t !in s.procs && choice.newToken !in s.issued && |choice.newToken| >= 16
    ensures Leaves(norm, s, t, code, socketId, choice, s1, s2, s3)
    ensures MirrorOk(s.inviteTokens, s.roomToTokens)
    ensures code in s.rooms ==> s.rooms[code] in s.heap && RoomOk(norm, s.heap[s.rooms[code]])
  {
    s1 := LeaveStarts(norm, s, t, code, socketId);
    s2 := LeaveResumes(norm, s1, t, choice);
    s3 := Resumes(norm, s2, t, choice);
    if code in s.rooms { RoomFound(norm, s, code); }
  }

  lemma LeaveStepsAre(norm: Norm, s: State, t: Tid, code: Code, socketId: Socket, choice: Choice, s1: State,
                      s2: State, s3: State)
    requires Leaves(norm, s, t, code, socketId, choice, s1, s2, s3)
    ensures s1 == At(s, t, Leave(code, socketId, GetRoom(s, code)))
    ensures var found := GetRoom(s, code);
            && (found.Some? ==> found.value in s1.heap) && s2 == ResumeLeave(s1, t, code, socketId, found)
    ensures t in s2.procs && ProcRefsOk(s2, s2.procs[t]) && s3 == ResumeProc(norm, s2, t, choice)
  {
  }

  lemma LeaveEndsWell(norm: Norm, s: State, t: Tid, code: Code, socketId: Socket, choice: Choice, s1: State,
                      s2: State, s3: State)
    requires Leaves(norm, s, t, code, socketId, choice, s1, s2, s3) && MirrorOk(s.inviteTokens, s.roomToTokens)
    requires code in s.rooms ==> s.rooms[code] in s.heap && RoomOk(norm, s.heap[s.rooms[code]])
    ensures if code in s.rooms then HasLeft(s, s3, t, code, socketId, s.rooms[code])
            else s3 == s.(procs := s.procs[t := Finished])
  {
    LeaveStepsAre(norm, s, t, code, socketId, choice, s1, s2, s3);
    if code in s.rooms {
      LeaveFound(norm, s, t, code, socketId, choice);
    } else {
      assert s3 == s.(procs := s.procs[t := Finished]);
    }
  }

  /** A call to leave that is not disturbed: it looks its room up, takes the user out, and deletes if it has to. */
  lemma LeaveAlone(norm: Norm, s: State, t: Tid, code: Code, socketId: Socket, choice: Choice)
    returns (s1: State, s2: State, s3: State)
    requires Inv(norm, s) && t !in s.procs && choice.newToken !in s.issued && |choice.newToken| >= 16
    ensures Leaves(norm, s, t, code, socketId, choice, s1, s2, s3)
    ensures if code in s.rooms then s.rooms[code] in s.heap && HasLeft(s, s3, t, code, socketId, s.rooms[code])
            else s3 == s.(procs := s.procs[t := Finished])
  {
    s1, s2, s3 := CanLeave(norm, s, t, code, socketId, choice);
    LeaveEndsWell(norm, s, t, code, socketId, choice, s1, s2, s3);
  }

  // ----- tokens -----

  /** Only tokens are different, in the table and in the sets of their rooms. */
  predicate OnlyTokens(s: State, s': State) {
    s' == s.(inviteTokens := s'.inviteTokens, roomToTokens := s'.roomToTokens)
  }

  lemma DropIsOnlyTokens(s: State, token: Token, code: Code)
    ensures OnlyTokens(s, DropToken(s, token, code))
  {
  }

  /** A validation in one go says whether the token counts, and takes exactly the one out that has to go. */
  lemma ValidateIs(s: State, token: Token, code: Code, expired: bool, consume: bool)
    ensures var (s1, v) := BeginValidate(s, token, code, expired);
            var (s2, valid) := if v.Answer? then (s1, v.valid) else EndValidate(s1, token, v.data, v.present, consume);
            && valid == Counts(s, token, code, expired) && OnlyTokens(s, s2)
            && s2.inviteTokens == TokensLeft(s, token, Goes(s, token, code, expired, consume))
  {
    BeginIs(s, token, code, expired);
    if token in s.inviteTokens {
      DropIs(s, token, s.inviteTokens[token].roomCode);
      DropIsOnlyTokens(s, token, s.inviteTokens[token].roomCode);
    }
  }

  /** When a token's timer fires, that token goes. */
  lemma TimerIs(norm: Norm, s: State, token: Token)
    ensures var s' := Step(norm, s, TokenTimer(token));
            OnlyTokens(s, s') && s'.inviteTokens == s.inviteTokens - {token}
  {
    if token in s.inviteTokens {
      DropIs(s, token, s.inviteTokens[token].roomCode);
      DropIsOnlyTokens(s, token, s.inviteTokens[token].roomCode);
    } else {
      assert s.inviteTokens - {token} == s.inviteTokens;
    }
  }

  /** A call for a token issues the drawn one for its room, if there is such a room, and nothing else changes. */
  lemma GenerateAlone(norm: Norm, s: State, t: Tid, code: Code, isPermanent: bool, choice: Choice)
    requires t !in s.procs && choice.newToken !in s.issued && |choice.newToken| >= 16
    ensures Enabled(Step(norm, s, StartGenerate(t, code, isPermanent)), Resume(t, choice))
    ensures Generated(s, Step(norm, Step(norm, s, StartGenerate(t, code, isPermanent)), Resume(t, choice)), t,
                      if code in s.rooms then map[choice.newToken := TokenData(code, isPermanent)] else map[])
  {
    var s1 := At(s, t, Generate(code, isPermanent, code in s.rooms));
    GenerateIs(s1, t, code, isPermanent, code in s.rooms, choice.newToken);
  }

  predicate Generated(s: State, s': State, t: Tid, added: map<Token, TokenData>) {
    && OnlyRoomsAndTokens(s.(issued := s'.issued), s', t) && s'.procs[t] == Finished
    && s'.heap == s.heap && s'.rooms == s.rooms
    && s'.issued == s.issued + added && s'.inviteTokens == s.inviteTokens + added
  }

  lemma GenerateIs(s: State, t: Tid, code: Code, isPermanent: bool, present: bool, newToken: Token)
    requires t in s.procs
    ensures Generated(s, ResumeGenerate(s, t, code, isPermanent, present, newToken), t,
                      if present then map[newToken := TokenData(code, isPermanent)] else map[])
  {
    var data := TokenData(code, isPermanent);
    assert s.issued[newToken := data] == s.issued + map[newToken := data];
    assert s.inviteTokens[newToken := data] == s.inviteTokens + map[newToken := data];
    assert s.issued == s.issued + map[] && s.inviteTokens == s.inviteTokens + map[];
  }
}
