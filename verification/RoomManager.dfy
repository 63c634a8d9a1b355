/**
 The room manager (server/rooms.js, in-memory mode) as a machine whose steps are the stretches of code
 between two awaits. Any number of joins, leaves, deletions, token validations and token issues are
 under way at once and their steps interleave freely.

 Room objects live on a heap and are shared by reference: a suspended call keeps the object it fetched,
 which may since have been replaced in the table of rooms or removed from it, and saving puts it back.
*/
module RoomManager {
  import opened Wrappers

  type Code = string
  type Socket = string
  type Token = string
  type Obj = int
  type Tid = int

  datatype User = User(id: string, socketId: Socket, nickname: string)

  /** maxUsers is 0 when no limit is set. */
  datatype Room = Room(code: Code, users: seq<User>, maxUsers: nat, inviteOnly: bool, hasPassword: bool,
                       allowEmpty: bool)

  datatype TokenData = TokenData(roomCode: Code, isPermanent: bool)

  /** Arguments of a join; the nickname is sanitised, an empty token or password means none was given. */
  datatype JoinArgs = JoinArgs(code: Code, userId: string, nickname: string, password: string, token: Token,
                               socketId: Socket)

  /** Where a join is suspended. All but Waiting and Done are inside the critical section. */
  datatype JoinPc =
    | Waiting                                          // for the lock
    | GotRoom(found: Option<Obj>)                      // after getRoom
    | Cleaned(obj: Obj)                                // after saving the removal of stale users
    | Expiring                                         // in deleteRoom, at its getRoom
    | Expired                                          // after deleteRoom
    | Renamed(obj: Obj)                                // after saving a changed nickname
    | Validating(obj: Obj, data: TokenData, present: bool)  // in validateInviteToken, at its getRoom
    | Validated(obj: Obj, valid: bool)                 // after validateInviteToken
    | CheckingPassword(obj: Obj)                       // at bcrypt.compare
    | Pushed(obj: Obj)                                 // after saving the new user
    | Consuming(data: TokenData, present: bool)        // in the consuming validateInviteToken
    | Consumed                                         // after it
    | Done(success: bool)

  datatype Proc =
    | Join(args: JoinArgs, pc: JoinPc)
    | Leave(code: Code, socketId: Socket, found: Option<Obj>)
    | Delete(code: Code)                               // at its getRoom
    | Validate(token: Token, data: TokenData, present: bool)
    | Generate(code: Code, isPermanent: bool, present: bool)
    | Finished

  /**
   `issued` and `admitted` are history: every token ever issued, and the token of every user added with
   one.
  */
  datatype State = State(
    heap: map<Obj, Room>,
    rooms: map<Code, Obj>,
    joinLocks: map<Code, Tid>,
    inviteTokens: map<Token, TokenData>,
    roomToTokens: map<Code, set<Token>>,
    participated: map<string, set<Code>>,
    procs: map<Tid, Proc>,
    issued: map<Token, TokenData>,
    admitted: multiset<Token>)

  /** How names are compared: lower-cased and trimmed. */
  type Norm = string -> string

  const MIN_TOKEN_LENGTH: int := 16

  // ----- tables -----

  function GetRoom(s: State, code: Code): Option<Obj> {
    if code in s.rooms then Some(s.rooms[code]) else None
  }

  function SaveRoom(s: State, code: Code, obj: Obj): State {
    s.(rooms := s.rooms[code := obj])
  }

  function SetUsers(s: State, obj: Obj, users: seq<User>): State
    requires obj in s.heap
  {
    s.(heap := s.heap[obj := s.heap[obj].(users := users)])
  }

  /** Takes a token out of both token tables. */
  function DropToken(s: State, token: Token, code: Code): State {
    var dropped := s.(inviteTokens := s.inviteTokens - {token});
    if code !in s.roomToTokens then dropped
    else
      var rest := s.roomToTokens[code] - {token};
      dropped.(roomToTokens := if rest == {} then s.roomToTokens - {code} else s.roomToTokens[code := rest])
  }

  function CleanupToken(s: State, token: Token): State {
    if token in s.inviteTokens then DropToken(s, token, s.inviteTokens[token].roomCode) else s
  }

  /** The part of deleteRoom that follows its getRoom. */
  function DeleteRoom(s: State, code: Code): State {
    var gone := if code in s.roomToTokens then s.roomToTokens[code] else {};
    s.(inviteTokens := s.inviteTokens - gone,
       roomToTokens := s.roomToTokens - {code},
       rooms := s.rooms - {code})
  }

  function At(s: State, t: Tid, p: Proc): State {
    s.(procs := s.procs[t := p])
  }

  // ----- validateInviteToken -----

  /** Either the answer at once, or the suspension at getRoom. */
  datatype Validation = Answer(valid: bool) | Suspended(data: TokenData, present: bool)

  /** Up to getRoom. `expired` tells whether a temporary token is past its time. */
  function BeginValidate(s: State, token: Token, code: Code, expired: bool): (State, Validation) {
    if |token| < MIN_TOKEN_LENGTH || token !in s.inviteTokens then (s, Answer(false)) else
    var data := s.inviteTokens[token];
    if !data.isPermanent && expired then (CleanupToken(s, token), Answer(false))
    else if code != "" && data.roomCode != code then (s, Answer(false))
    else (s, Suspended(data, data.roomCode in s.rooms))
  }

  /** From getRoom on. */
  function EndValidate(s: State, token: Token, data: TokenData, present: bool, consume: bool): (State, bool) {
    if !present then (DropToken(s, token, data.roomCode), false)
    else if !data.isPermanent && consume then (DropToken(s, token, data.roomCode), true)
    else (s, true)
  }

  // ----- joinRoom -----

  /** The finally block. */
  function Release(s: State, t: Tid, args: JoinArgs, success: bool): State {
    At(s, t, Join(args, Done(success))).(joinLocks := s.joinLocks - {args.code})
  }

  function Suspend(s: State, t: Tid, args: JoinArgs, pc: JoinPc): State {
    At(s, t, Join(args, pc))
  }

  predicate NicknameTaken(norm: Norm, users: seq<User>, nickname: string, socketId: Socket) {
    exists i :: 0 <= i < |users| && norm(users[i].nickname) == norm(nickname) && users[i].socketId != socketId
  }

  /** Position of the socket's user, or the number of users. */
  function FindUser(users: seq<User>, socketId: Socket): (i: nat)
    ensures i <= |users|
    ensures i < |users| ==> users[i].socketId == socketId
    ensures forall j :: 0 <= j < i ==> users[j].socketId != socketId
    decreases |users|
  {
    if users == [] || users[0].socketId == socketId then 0 else 1 + FindUser(users[1..], socketId)
  }

  function KeepUsers(users: seq<User>, keep: User -> bool): seq<User> {
    if users == [] then [] else (if keep(users[0]) then [users[0]] else []) + KeepUsers(users[1..], keep)
  }

  /** The critical section: taking the lock and fetching the room. */
  function EnterJoin(s: State, t: Tid, args: JoinArgs): State {
    if args.code in s.joinLocks then s
    else Suspend(s.(joinLocks := s.joinLocks[args.code := t]), t, args, GotRoom(GetRoom(s, args.code)))
  }

  /** After getRoom: drop the users whose sockets are gone (`connected` is None without a socket server). */
  function AfterGetRoom(norm: Norm, s: State, t: Tid, args: JoinArgs, found: Option<Obj>, choice: Choice): State
    requires found.Some? ==> found.value in s.heap
  {
    if found.None? then Release(s, t, args, false) else
    var obj := found.value;
    var users := s.heap[obj].users;
    var kept := if choice.connected.None? then users
                else KeepUsers(users, (u: User) => u.socketId in choice.connected.value);
    if |kept| != |users| then
      Suspend(SaveRoom(SetUsers(s, obj, kept), args.code, obj), t, args, Cleaned(obj))
    else
      AfterCleanup(norm, s, t, args, obj, choice)
  }

  /** Expiry, nickname, reconnection, capacity and invitation checks. */
  function AfterCleanup(norm: Norm, s: State, t: Tid, args: JoinArgs, obj: Obj, choice: Choice): State
    requires obj in s.heap
  {
    var room := s.heap[obj];
    if choice.expired then Suspend(s, t, args, Expiring)
    else if NicknameTaken(norm, room.users, args.nickname, args.socketId) then Release(s, t, args, false)
    else
      var i := FindUser(room.users, args.socketId);
      if i < |room.users| then
        if room.users[i].nickname == args.nickname then Release(s, t, args, true)
        else
          var renamed := room.users[i := room.users[i].(nickname := args.nickname)];
          Suspend(SaveRoom(SetUsers(s, obj, renamed), args.code, obj), t, args, Renamed(obj))
      else if room.maxUsers != 0 && |room.users| >= room.maxUsers then Release(s, t, args, false)
      else if room.inviteOnly || args.token != "" then
        if args.token == "" then Release(s, t, args, false)
        else
          var (s', v) := BeginValidate(s, args.token, args.code, choice.tokenExpired);
          Suspend(s', t, args, if v.Answer? then Validated(obj, v.valid) else Validating(obj, v.data, v.present))
      else AfterInvitation(s, t, args, obj)
  }

  function AfterInvitation(s: State, t: Tid, args: JoinArgs, obj: Obj): State
    requires obj in s.heap
  {
    if s.heap[obj].hasPassword then
      if args.password == "" then Release(s, t, args, false) else Suspend(s, t, args, CheckingPassword(obj))
    else PushUser(s, t, args, obj)
  }

  function PushUser(s: State, t: Tid, args: JoinArgs, obj: Obj): State
    requires obj in s.heap
  {
    var users := s.heap[obj].users + [User(args.userId, args.socketId, args.nickname)];
    var pushed := SaveRoom(SetUsers(s, obj, users), args.code, obj);
    Suspend(pushed.(participated := Participates(s.participated, args.userId, args.code),
                    admitted := if args.token != "" then s.admitted + multiset{args.token} else s.admitted),
            t, args, Pushed(obj))
  }

  /** The rooms a user has taken part in, for the list of recent rooms. */
  function Participates(rooms: map<string, set<Code>>, userId: string, code: Code): map<string, set<Code>> {
    if userId == "" then rooms else rooms[userId := (if userId in rooms then rooms[userId] else {}) + {code}]
  }

  function AfterPush(s: State, t: Tid, args: JoinArgs, choice: Choice): State {
    if args.token == "" then Release(s, t, args, true)
    else
      var (s', v) := BeginValidate(s, args.token, args.code, choice.tokenExpired);
      Suspend(s', t, args, if v.Answer? then Consumed else Consuming(v.data, v.present))
  }

  /** What the outside world decides when a call resumes. */
  datatype Choice = Choice(connected: Option<set<Socket>>, expired: bool, tokenExpired: bool, passwordOk: bool,
                           newToken: Token)

  predicate RefsOk(s: State, pc: JoinPc) {
    match pc
    case GotRoom(found) => found.Some? ==> found.value in s.heap
    case Cleaned(obj) => obj in s.heap
    case Renamed(obj) => obj in s.heap
    case Validating(obj, _, _) => obj in s.heap
    case Validated(obj, _) => obj in s.heap
    case CheckingPassword(obj) => obj in s.heap
    case Pushed(obj) => obj in s.heap
    case _ => true
  }

  function ResumeJoin(norm: Norm, s: State, t: Tid, args: JoinArgs, pc: JoinPc, choice: Choice): State
    requires RefsOk(s, pc)
  {
    match pc
    case Waiting => EnterJoin(s, t, args)
    case GotRoom(found) => AfterGetRoom(norm, s, t, args, found, choice)
    case Cleaned(obj) => AfterCleanup(norm, s, t, args, obj, choice)
    case Expiring => Suspend(DeleteRoom(s, args.code), t, args, Expired)
    case Expired => Release(s, t, args, false)
    case Renamed(_) => Release(s, t, args, true)
    case Validating(obj, data, present) =>
      var (s', valid) := EndValidate(s, args.token, data, present, false);
      Suspend(s', t, args, Validated(obj, valid))
    case Validated(obj, valid) => if valid then AfterInvitation(s, t, args, obj) else Release(s, t, args, false)
    case CheckingPassword(obj) => if choice.passwordOk then PushUser(s, t, args, obj) else Release(s, t, args, false)
    case Pushed(_) => AfterPush(s, t, args, choice)
    case Consuming(data, present) =>
      Suspend(EndValidate(s, args.token, data, present, true).0, t, args, Consumed)
    case Consumed => Release(s, t, args, true)
    case Done(_) => s
  }

  // ----- the other operations -----

  function ResumeLeave(s: State, t: Tid, code: Code, socketId: Socket, found: Option<Obj>): State
    requires found.Some? ==> found.value in s.heap
  {
    if found.None? then At(s, t, Finished) else
    var obj := found.value;
    var left := SetUsers(s, obj, KeepUsers(s.heap[obj].users, (u: User) => u.socketId != socketId));
    if left.heap[obj].users == [] && !left.heap[obj].allowEmpty then At(left, t, Delete(code))
    else At(SaveRoom(left, code, obj), t, Finished)
  }

  /** A token is issued if the room was there when it was looked up. */
  function ResumeGenerate(s: State, t: Tid, code: Code, isPermanent: bool, present: bool, newToken: Token): State {
    if !present then At(s, t, Finished) else
    var data := TokenData(code, isPermanent);
    var others := if code in s.roomToTokens then s.roomToTokens[code] else {};
    At(s.(inviteTokens := s.inviteTokens[newToken := data],
          roomToTokens := s.roomToTokens[code := others + {newToken}],
          issued := s.issued[newToken := data]), t, Finished)
  }

  // ----- the machine -----

  datatype Event =
    | StartJoin(t: Tid, args: JoinArgs)
    | StartLeave(t: Tid, code: Code, socketId: Socket)
    | StartDelete(t: Tid, code: Code)                           // timer, creator or sweep
    | StartValidate(t: Tid, token: Token, code: Code, tokenExpired: bool)
    | StartGenerate(t: Tid, code: Code, isPermanent: bool)
    | Resume(t: Tid, choice: Choice)
    | CreateRoom(obj: Obj, room: Room)
    | Resave(obj: Obj)                                          // any other method saving a room it holds
    | Sweep(obj: Obj, connected: set<Socket>)                   // socket handlers filter stale users outside the lock
    | TokenTimer(token: Token)

  predicate Enabled(s: State, e: Event) {
    match e
    case Resume(t, choice) =>
      t in s.procs && ProcRefsOk(s, s.procs[t]) && choice.newToken !in s.issued && |choice.newToken| >= MIN_TOKEN_LENGTH
    case CreateRoom(obj, room) => obj !in s.heap && room.users == [] && room.code != ""
    case Resave(obj) => obj in s.heap
    case Sweep(obj, _) => obj in s.heap
    case TokenTimer(_) => true
    case StartJoin(t, _) => t !in s.procs
    case StartLeave(t, _, _) => t !in s.procs
    case StartDelete(t, _) => t !in s.procs
    case StartValidate(t, _, _, _) => t !in s.procs
    case StartGenerate(t, _, _) => t !in s.procs
  }

  predicate ProcRefsOk(s: State, p: Proc) {
    match p
    case Join(_, pc) => RefsOk(s, pc)
    case Leave(_, _, found) => found.Some? ==> found.value in s.heap
    case _ => true
  }

  function ResumeProc(norm: Norm, s: State, t: Tid, choice: Choice): State
    requires t in s.procs && ProcRefsOk(s, s.procs[t])
  {
    match s.procs[t]
    case Join(args, pc) => ResumeJoin(norm, s, t, args, pc, choice)
    case Leave(code, socketId, found) => ResumeLeave(s, t, code, socketId, found)
    case Delete(code) => At(DeleteRoom(s, code), t, Finished)
    case Validate(token, data, present) => At(EndValidate(s, token, data, present, false).0, t, Finished)
    case Generate(code, isPermanent, present) => ResumeGenerate(s, t, code, isPermanent, present, choice.newToken)
    case Finished => s
  }

  function Step(norm: Norm, s: State, e: Event): State
    requires Enabled(s, e)
  {
    match e
    case StartJoin(t, args) => At(s, t, Join(args, Waiting))
    case StartLeave(t, code, socketId) => At(s, t, Leave(code, socketId, GetRoom(s, code)))
    case StartDelete(t, code) => At(s, t, Delete(code))
    case StartValidate(t, token, code, tokenExpired) =>
      var (s', v) := BeginValidate(s, token, code, tokenExpired);
      At(s', t, if v.Answer? then Finished else Validate(token, v.data, v.present))
    case StartGenerate(t, code, isPermanent) => At(s, t, Generate(code, isPermanent, code in s.rooms))
    case Resume(t, choice) => ResumeProc(norm, s, t, choice)
    case CreateRoom(obj, room) => SaveRoom(s.(heap := s.heap[obj := room]), room.code, obj)
    case Resave(obj) => SaveRoom(s, s.heap[obj].code, obj)
    case Sweep(obj, connected) => SetUsers(s, obj, KeepUsers(s.heap[obj].users, (u: User) => u.socketId in connected))
    case TokenTimer(token) => CleanupToken(s, token)
  }

  const START := State(map[], map[], map[], map[], map[], map[], map[], map[], multiset{})

  predicate IsRun(norm: Norm, s: State, events: seq<Event>)
    decreases |events|
  {
    events == [] || (Enabled(s, events[0]) && IsRun(norm, Step(norm, s, events[0]), events[1..]))
  }

  function Run(norm: Norm, s: State, events: seq<Event>): State
    requires IsRun(norm, s, events)
    decreases |events|
  {
    if events == [] then s else Run(norm, Step(norm, s, events[0]), events[1..])
  }
}
