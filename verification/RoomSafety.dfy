/**
 What every step of the room manager keeps, and what therefore holds over all interleavings.
*/
module RoomSafety {
  import opened RoomManager
  import opened Wrappers

  // ----- rooms -----

  /** Normalised nicknames and sockets are pairwise distinct and the limit is respected. */
  ghost predicate RoomOk(norm: Norm, room: Room) {
    && room.code != ""
    && (forall i, j :: 0 <= i < j < |room.users| ==> Apart(norm, room.users[i], room.users[j]))
    && (room.maxUsers != 0 ==> |room.users| <= room.maxUsers)
  }

  predicate Apart(norm: Norm, u: User, v: User) {
    norm(u.nickname) != norm(v.nickname) && u.socketId != v.socketId
  }

  /** The room has a place for the newcomer and nobody of that name or socket. */
  ghost predicate Clear(norm: Norm, room: Room, args: JoinArgs) {
    && (forall i :: 0 <= i < |room.users| ==>
          Apart(norm, room.users[i], User(args.userId, args.socketId, args.nickname)))
    && (room.maxUsers != 0 ==> |room.users| < room.maxUsers)
  }

  predicate RefOk(heap: map<Obj, Room>, obj: Obj, code: Code) {
    obj in heap && heap[obj].code == code
  }

  ghost predicate HeapOk(norm: Norm, heap: map<Obj, Room>) {
    forall o :: o in heap ==> RoomOk(norm, heap[o])
  }

  ghost predicate RoomsOk(heap: map<Obj, Room>, rooms: map<Code, Obj>) {
    forall c :: c in rooms ==> RefOk(heap, rooms[c], c)
  }

  // ----- locks -----

  predicate InCritical(p: Proc) {
    p.Join? && p.pc != Waiting && !p.pc.Done?
  }

  predicate Holds(locks: map<Code, Tid>, t: Tid, code: Code) {
    code in locks && locks[code] == t
  }

  /** Every lock is held by a join of that room that is inside the critical section. */
  ghost predicate LocksOk(locks: map<Code, Tid>, procs: map<Tid, Proc>) {
    forall c :: c in locks ==> locks[c] in procs && InCritical(procs[locks[c]]) && procs[locks[c]].args.code == c
  }

  // ----- tokens -----

  /** The two token tables mirror each other, without empty sets. */
  ghost predicate MirrorOk(tokens: map<Token, TokenData>, byRoom: map<Code, set<Token>>) {
    && (forall k :: k in tokens ==> tokens[k].roomCode in byRoom && k in byRoom[tokens[k].roomCode])
    && (forall c :: c in byRoom ==> byRoom[c] != {})
    && (forall c, k :: c in byRoom && k in byRoom[c] ==> k in tokens && tokens[k].roomCode == c)
  }

  ghost predicate IssuedOk(tokens: map<Token, TokenData>, issued: map<Token, TokenData>) {
    && (forall k :: k in tokens ==> k in issued && tokens[k] == issued[k])
    && (forall k :: k in issued ==> |k| >= MIN_TOKEN_LENGTH)
  }

  predicate Temporary(issued: map<Token, TokenData>, token: Token) {
    token in issued && !issued[token].isPermanent
  }

  ghost predicate AdmitOk(issued: map<Token, TokenData>, admitted: multiset<Token>) {
    && (forall k :: k in admitted ==> k in issued)
    && (forall k :: Temporary(issued, k) ==> admitted[k] <= 1)
  }

  /** The join has added its user with this token and not yet consumed it. */
  predicate Spending(p: Proc, token: Token) {
    p.Join? && p.args.token == token && (p.pc.Pushed? || p.pc.Consuming?)
  }

  predicate HeldBySpender(locks: map<Code, Tid>, procs: map<Tid, Proc>, code: Code, token: Token) {
    code in locks && locks[code] in procs && Spending(procs[locks[code]], token)
  }

  /** A temporary token that has admitted someone and is still there belongs to a join that is about to consume it. */
  ghost predicate SpentOk(s: State) {
    forall k :: k in s.inviteTokens && k in s.issued && !s.issued[k].isPermanent && k in s.admitted ==>
      HeldBySpender(s.joinLocks, s.procs, s.issued[k].roomCode, k)
  }

  // ----- suspended calls -----

  /** The token was issued for the room being joined. */
  predicate Known(issued: map<Token, TokenData>, args: JoinArgs) {
    args.token in issued && issued[args.token].roomCode == args.code
  }

  predicate Unspent(issued: map<Token, TokenData>, admitted: multiset<Token>, token: Token) {
    Temporary(issued, token) ==> token !in admitted
  }

  predicate Vetted(s: State, args: JoinArgs) {
    Known(s.issued, args) && Unspent(s.issued, s.admitted, args.token)
  }

  ghost predicate Admissible(norm: Norm, s: State, args: JoinArgs, obj: Obj) {
    && RefOk(s.heap, obj, args.code) && Clear(norm, s.heap[obj], args)
    && (args.token != "" ==> Vetted(s, args))
  }

  ghost predicate PcOk(norm: Norm, s: State, args: JoinArgs, pc: JoinPc) {
    match pc
    case GotRoom(found) => found.Some? ==> RefOk(s.heap, found.value, args.code)
    case Cleaned(obj) => RefOk(s.heap, obj, args.code)
    case Renamed(obj) => RefOk(s.heap, obj, args.code)
    case Validating(obj, data, _) =>
      args.token != "" && Admissible(norm, s, args, obj) && data == s.issued[args.token]
    case Validated(obj, valid) =>
      args.token != "" && RefOk(s.heap, obj, args.code) && (valid ==> Admissible(norm, s, args, obj))
    case CheckingPassword(obj) => Admissible(norm, s, args, obj)
    case Pushed(obj) => RefOk(s.heap, obj, args.code) && (args.token != "" ==> Known(s.issued, args))
    case Consuming(data, _) => args.token != "" && Known(s.issued, args) && data == s.issued[args.token]
    case Consumed =>
      args.token != "" && Known(s.issued, args) && (Temporary(s.issued, args.token) ==> args.token !in s.inviteTokens)
    case _ => true
  }

  ghost predicate ProcOk(norm: Norm, s: State, t: Tid, p: Proc) {
    && (InCritical(p) ==> Holds(s.joinLocks, t, p.args.code))
    && match p
       case Join(args, pc) => PcOk(norm, s, args, pc)
       case Leave(code, _, found) => found.Some? ==> RefOk(s.heap, found.value, code)
       case Validate(token, data, _) => token in s.issued && data == s.issued[token]
       case _ => true
  }

  ghost predicate ProcsOk(norm: Norm, s: State) {
    forall t :: t in s.procs ==> ProcOk(norm, s, t, s.procs[t])
  }

  ghost predicate Inv(norm: Norm, s: State) {
    && HeapOk(norm, s.heap) && RoomsOk(s.heap, s.rooms)
    && LocksOk(s.joinLocks, s.procs)
    && MirrorOk(s.inviteTokens, s.roomToTokens) && IssuedOk(s.inviteTokens, s.issued)
    && AdmitOk(s.issued, s.admitted) && SpentOk(s)
    && ProcsOk(norm, s)
  }

  // ----- steps that do not depend on who takes them -----

  lemma SaveRoomKeeps(norm: Norm, s: State, code: Code, obj: Obj)
    requires Inv(norm, s) && RefOk(s.heap, obj, code)
    ensures Inv(norm, SaveRoom(s, code, obj))
  {
  }

  /** Users of the second list, in order, all come from the first. */
  ghost predicate Sublist(sub: seq<User>, users: seq<User>) {
    exists f: seq<nat> :: SublistVia(sub, users, f)
  }

  ghost predicate SublistVia(sub: seq<User>, users: seq<User>, f: seq<nat>) {
    && |f| == |sub| <= |users|
    && (forall i :: 0 <= i < |sub| ==> f[i] < |users| && sub[i] == users[f[i]])
    && (forall i, j :: 0 <= i < j < |sub| ==> f[i] < f[j])
  }

  lemma {:induction false} KeepUsersSublist(users: seq<User>, keep: User -> bool) returns (f: seq<nat>)
    ensures SublistVia(KeepUsers(users, keep), users, f)
  {
    if users == [] {
      f := [];
    } else {
      var g := KeepUsersSublist(users[1..], keep);
      var sub := KeepUsers(users[1..], keep);
      var shifted := seq(|g|, i requires 0 <= i < |g| => g[i] + 1);
      assert SublistVia(sub, users, shifted);
      if keep(users[0]) {
        f := [0] + shifted;
        assert KeepUsers(users, keep) == [users[0]] + sub;
      } else {
        f := shifted;
        assert KeepUsers(users, keep) == sub;
      }
    }
  }

  lemma SublistKeepsRoom(norm: Norm, room: Room, users: seq<User>)
    requires RoomOk(norm, room) && Sublist(users, room.users)
    ensures RoomOk(norm, room.(users := users))
  {
  }

  // ----- changing the users of one room -----

  lemma ShrinkKeepsProc(norm: Norm, s: State, obj: Obj, users: seq<User>, t: Tid, p: Proc)
    requires obj in s.heap && Sublist(users, s.heap[obj].users) && ProcOk(norm, s, t, p)
    ensures ProcOk(norm, SetUsers(s, obj, users), t, p)
  {
  }

  lemma ShrinkKeeps(norm: Norm, s: State, obj: Obj, keep: User -> bool)
    requires Inv(norm, s) && obj in s.heap
    ensures Inv(norm, SetUsers(s, obj, KeepUsers(s.heap[obj].users, keep)))
  {
    var users := KeepUsers(s.heap[obj].users, keep);
    var s' := SetUsers(s, obj, users);
    var f := KeepUsersSublist(s.heap[obj].users, keep);
    SublistKeepsRoom(norm, s.heap[obj], users);
    forall t | t in s'.procs ensures ProcOk(norm, s', t, s'.procs[t]) {
      ShrinkKeepsProc(norm, s, obj, users, t, s.procs[t]);
    }
    assert ProcsOk(norm, s');
  }

  // ----- withdrawing tokens and rooms -----

  /** `s'` differs from `s` by tokens and rooms taken out of the tables. */
  predicate Withdrawn(s: State, s': State) {
    && s' == s.(inviteTokens := s'.inviteTokens, roomToTokens := s'.roomToTokens, rooms := s'.rooms)
    && (forall k :: k in s'.inviteTokens ==> k in s.inviteTokens && s'.inviteTokens[k] == s.inviteTokens[k])
    && (forall c :: c in s'.rooms ==> c in s.rooms && s'.rooms[c] == s.rooms[c])
  }

  lemma WithdrawKeepsProc(norm: Norm, s: State, s': State, t: Tid, p: Proc)
    requires Withdrawn(s, s') && ProcOk(norm, s, t, p)
    ensures ProcOk(norm, s', t, p)
  {
  }

  lemma WithdrawKeeps(norm: Norm, s: State, s': State)
    requires Inv(norm, s) && Withdrawn(s, s') && MirrorOk(s'.inviteTokens, s'.roomToTokens)
    ensures Inv(norm, s')
  {
    forall t | t in s'.procs ensures ProcOk(norm, s', t, s'.procs[t]) {
      WithdrawKeepsProc(norm, s, s', t, s.procs[t]);
    }
    assert ProcsOk(norm, s');
    assert SpentOk(s');
  }

  lemma DropTokenMirrors(s: State, token: Token, code: Code)
    requires MirrorOk(s.inviteTokens, s.roomToTokens)
    requires token in s.inviteTokens ==> s.inviteTokens[token].roomCode == code
    ensures MirrorOk(DropToken(s, token, code).inviteTokens, DropToken(s, token, code).roomToTokens)
  {
    var s' := DropToken(s, token, code);
    if code in s.roomToTokens {
      forall k | k in s'.inviteTokens
        ensures s'.inviteTokens[k].roomCode in s'.roomToTokens && k in s'.roomToTokens[s'.inviteTokens[k].roomCode]
      {
        assert s'.inviteTokens[k].roomCode == code ==> k in s.roomToTokens[code] - {token};
      }
    }
  }

  lemma DropTokenWithdraws(s: State, token: Token, code: Code)
    ensures Withdrawn(s, DropToken(s, token, code)) && token !in DropToken(s, token, code).inviteTokens
  {
  }

  lemma DropTokenKeeps(norm: Norm, s: State, token: Token, code: Code)
    requires Inv(norm, s)
    requires token in s.inviteTokens ==> s.inviteTokens[token].roomCode == code
    ensures Inv(norm, DropToken(s, token, code))
    ensures token !in DropToken(s, token, code).inviteTokens
  {
    var s' := DropToken(s, token, code);
    DropTokenMirrors(s, token, code);
    DropTokenWithdraws(s, token, code);
    WithdrawKeeps(norm, s, s');
  }

  lemma CleanupTokenKeeps(norm: Norm, s: State, token: Token)
    requires Inv(norm, s)
    ensures Inv(norm, CleanupToken(s, token)) && token !in CleanupToken(s, token).inviteTokens
  {
    if token in s.inviteTokens {
      DropTokenKeeps(norm, s, token, s.inviteTokens[token].roomCode);
    }
  }

  lemma DeleteRoomKeeps(norm: Norm, s: State, code: Code)
    requires Inv(norm, s)
    ensures Inv(norm, DeleteRoom(s, code))
  {
    WithdrawKeeps(norm, s, DeleteRoom(s, code));
  }

  // ----- moving one call on -----

  /** A call that holds a lock stays in the critical section, and one that must still consume a token stays so. */
  ghost predicate MayBecome(s: State, t: Tid, p': Proc) {
    && (forall c :: c in s.joinLocks && s.joinLocks[c] == t ==> InCritical(p') && p'.args.code == c)
    && (t in s.procs && p'.Join? && s.procs[t].Join? ==>
          p'.args == s.procs[t].args && (Spends(s.procs[t]) && Live(s, p'.args.token) ==> Spends(p')))
    && (t in s.procs && s.procs[t].Join? && Spends(s.procs[t]) ==> p'.Join?)
  }

  predicate Spends(p: Proc) {
    p.Join? && (p.pc.Pushed? || p.pc.Consuming?)
  }

  predicate Live(s: State, token: Token) {
    Temporary(s.issued, token) && token in s.inviteTokens
  }

  /** Who is about to consume a token is so after the move. */
  lemma MoveKeepsSpent(s: State, t: Tid, p': Proc)
    requires SpentOk(s) && LocksOk(s.joinLocks, s.procs) && MayBecome(s, t, p')
    ensures SpentOk(At(s, t, p')) && LocksOk(s.joinLocks, At(s, t, p').procs)
  {
    var s' := At(s, t, p');
    forall k | Live(s, k) && k in s.admitted
      ensures HeldBySpender(s'.joinLocks, s'.procs, s'.issued[k].roomCode, k)
    {
      assert HeldBySpender(s.joinLocks, s.procs, s.issued[k].roomCode, k);
    }
  }

  lemma MoveKeeps(norm: Norm, s: State, t: Tid, p': Proc)
    requires Inv(norm, s) && MayBecome(s, t, p') && ProcOk(norm, s, t, p')
    ensures Inv(norm, At(s, t, p'))
  {
    var s' := At(s, t, p');
    MoveKeepsSpent(s, t, p');
    forall u | u in s'.procs ensures ProcOk(norm, s', u, s'.procs[u]) {
      assert ProcOk(norm, s, u, s'.procs[u]);
    }
    assert ProcsOk(norm, s');
  }

  /** Holding the lock and owing no token. */
  ghost predicate MayRelease(s: State, t: Tid, args: JoinArgs) {
    t in s.procs && s.procs[t].Join? && s.procs[t].args == args && InCritical(s.procs[t])
    && Holds(s.joinLocks, t, args.code) && (Spends(s.procs[t]) ==> !Live(s, args.token))
  }

  lemma ReleaseKeepsSpent(s: State, t: Tid, args: JoinArgs, success: bool)
    requires SpentOk(s) && LocksOk(s.joinLocks, s.procs) && MayRelease(s, t, args)
    ensures var s' := Release(s, t, args, success); SpentOk(s') && LocksOk(s'.joinLocks, s'.procs)
  {
    var s' := Release(s, t, args, success);
    forall k | Live(s, k) && k in s.admitted
      ensures HeldBySpender(s'.joinLocks, s'.procs, s'.issued[k].roomCode, k)
    {
      assert HeldBySpender(s.joinLocks, s.procs, s.issued[k].roomCode, k);
    }
  }

  lemma ReleaseKeepsProcs(norm: Norm, s: State, t: Tid, args: JoinArgs, success: bool)
    requires ProcsOk(norm, s) && MayRelease(s, t, args)
    ensures ProcsOk(norm, Release(s, t, args, success))
  {
    var s' := Release(s, t, args, success);
    forall u | u in s'.procs ensures ProcOk(norm, s', u, s'.procs[u]) {
      assert u != t ==> ProcOk(norm, s, u, s.procs[u]);
    }
  }

  /** Leaving the critical section. */
  lemma ReleaseKeeps(norm: Norm, s: State, t: Tid, args: JoinArgs, success: bool)
    requires Inv(norm, s) && t in s.procs && s.procs[t].Join? && s.procs[t].args == args && InCritical(s.procs[t])
    requires Spends(s.procs[t]) ==> !Live(s, args.token)
    ensures Inv(norm, Release(s, t, args, success))
  {
    assert ProcOk(norm, s, t, s.procs[t]);
    ReleaseKeepsSpent(s, t, args, success);
    ReleaseKeepsProcs(norm, s, t, args, success);
  }

  lemma EnterKeepsSpent(s: State, t: Tid, args: JoinArgs)
    requires SpentOk(s) && LocksOk(s.joinLocks, s.procs)
    requires t in s.procs && s.procs[t] == Join(args, Waiting) && args.code !in s.joinLocks
    ensures var s' := EnterJoin(s, t, args); SpentOk(s') && LocksOk(s'.joinLocks, s'.procs)
  {
    var s' := EnterJoin(s, t, args);
    forall k | Live(s, k) && k in s.admitted
      ensures HeldBySpender(s'.joinLocks, s'.procs, s'.issued[k].roomCode, k)
    {
      assert HeldBySpender(s.joinLocks, s.procs, s.issued[k].roomCode, k);
    }
  }

  /** Entering it. */
  lemma EnterKeeps(norm: Norm, s: State, t: Tid, args: JoinArgs)
    requires Inv(norm, s) && t in s.procs && s.procs[t] == Join(args, Waiting)
    ensures Inv(norm, EnterJoin(s, t, args))
  {
    var s' := EnterJoin(s, t, args);
    if args.code !in s.joinLocks {
      EnterKeepsSpent(s, t, args);
      forall u | u in s'.procs ensures ProcOk(norm, s', u, s'.procs[u]) {
        assert ProcOk(norm, s, u, s.procs[u]);
      }
      assert ProcsOk(norm, s');
    }
  }

  // ----- the two changes made only inside the critical section -----

  lemma TouchKeepsOther(norm: Norm, s: State, t: Tid, code: Code, obj: Obj, users: seq<User>, u: Tid, p: Proc)
    requires Holds(s.joinLocks, t, code) && RefOk(s.heap, obj, code) && u != t && ProcOk(norm, s, u, p)
    ensures ProcOk(norm, SetUsers(s, obj, users), u, p)
  {
  }

  lemma AdmitKeepsOther(norm: Norm, s: State, t: Tid, args: JoinArgs, admitted: multiset<Token>, u: Tid, p: Proc)
    requires Holds(s.joinLocks, t, args.code) && Known(s.issued, args) && u != t && ProcOk(norm, s, u, p)
    requires admitted == s.admitted + multiset{args.token}
    ensures ProcOk(norm, s.(admitted := admitted), u, p)
  {
  }

  /** The join's thread is inside the critical section and has admitted nobody yet. */
  ghost predicate Deciding(s: State, t: Tid, args: JoinArgs) {
    t in s.procs && s.procs[t].Join? && s.procs[t].args == args && InCritical(s.procs[t]) && !Spends(s.procs[t])
    && Holds(s.joinLocks, t, args.code)
  }

  lemma RenamedRoomOk(norm: Norm, room: Room, i: nat, nickname: string)
    requires RoomOk(norm, room) && i < |room.users|
    requires !NicknameTaken(norm, room.users, nickname, room.users[i].socketId)
    ensures RoomOk(norm, room.(users := RenamedUsers(room.users, i, nickname)))
  {
  }

  lemma PushedRoomOk(norm: Norm, room: Room, args: JoinArgs)
    requires RoomOk(norm, room) && Clear(norm, room, args)
    ensures RoomOk(norm, room.(users := room.users + [User(args.userId, args.socketId, args.nickname)]))
  {
  }

  function RenamedUsers(users: seq<User>, i: nat, nickname: string): seq<User>
    requires i < |users|
  {
    users[i := users[i].(nickname := nickname)]
  }

  lemma RenameKeepsProcs(norm: Norm, s: State, t: Tid, args: JoinArgs, obj: Obj, users: seq<User>)
    requires ProcsOk(norm, s) && Deciding(s, t, args) && RefOk(s.heap, obj, args.code)
    ensures ProcsOk(norm, Suspend(SaveRoom(SetUsers(s, obj, users), args.code, obj), t, args, Renamed(obj)))
  {
    var s1 := SetUsers(s, obj, users);
    var s' := Suspend(SaveRoom(s1, args.code, obj), t, args, Renamed(obj));
    forall u | u in s'.procs ensures ProcOk(norm, s', u, s'.procs[u]) {
      if u != t {
        TouchKeepsOther(norm, s, t, args.code, obj, users, u, s.procs[u]);
        assert ProcOk(norm, s1, u, s'.procs[u]);
      }
    }
  }

  lemma RenameKeeps(norm: Norm, s: State, t: Tid, args: JoinArgs, obj: Obj, i: nat)
    requires Inv(norm, s) && Deciding(s, t, args) && RefOk(s.heap, obj, args.code)
    requires i < |s.heap[obj].users| && s.heap[obj].users[i].socketId == args.socketId
    requires !NicknameTaken(norm, s.heap[obj].users, args.nickname, args.socketId)
    ensures var users := RenamedUsers(s.heap[obj].users, i, args.nickname);
            Inv(norm, Suspend(SaveRoom(SetUsers(s, obj, users), args.code, obj), t, args, Renamed(obj)))
  {
    var users := RenamedUsers(s.heap[obj].users, i, args.nickname);
    RenamedRoomOk(norm, s.heap[obj], i, args.nickname);
    RenameKeepsProcs(norm, s, t, args, obj, users);
    SpentKept(s, t, Suspend(SaveRoom(SetUsers(s, obj, users), args.code, obj), t, args, Renamed(obj)));
  }

  /** Nobody who has admitted with a token goes away, as long as only a deciding join moves. */
  lemma SpentKept(s: State, t: Tid, s': State)
    requires SpentOk(s) && t in s.procs && !Spends(s.procs[t])
    requires s'.inviteTokens == s.inviteTokens && s'.issued == s.issued && s'.admitted == s.admitted
    requires s'.joinLocks == s.joinLocks && t in s'.procs && s'.procs == s.procs[t := s'.procs[t]]
    ensures SpentOk(s')
  {
  }

  lemma PushKeepsOther(norm: Norm, s: State, t: Tid, args: JoinArgs, obj: Obj, u: Tid, p: Proc)
    requires Deciding(s, t, args) && Admissible(norm, s, args, obj) && u != t && ProcOk(norm, s, u, p)
    ensures ProcOk(norm, PushUser(s, t, args, obj), u, p)
  {
    var users := s.heap[obj].users + [User(args.userId, args.socketId, args.nickname)];
    var s1 := SetUsers(s, obj, users);
    var s2 := s1.(admitted := PushUser(s, t, args, obj).admitted);
    TouchKeepsOther(norm, s, t, args.code, obj, users, u, p);
    if args.token != "" { AdmitKeepsOther(norm, s1, t, args, s2.admitted, u, p); }
    assert ProcOk(norm, s2, u, p);
  }

  lemma PushKeepsTables(norm: Norm, s: State, t: Tid, args: JoinArgs, obj: Obj)
    requires HeapOk(norm, s.heap) && RoomsOk(s.heap, s.rooms) && LocksOk(s.joinLocks, s.procs)
    requires Deciding(s, t, args) && RefOk(s.heap, obj, args.code) && Clear(norm, s.heap[obj], args)
    ensures var s' := PushUser(s, t, args, obj);
            HeapOk(norm, s'.heap) && RoomsOk(s'.heap, s'.rooms) && LocksOk(s'.joinLocks, s'.procs)
  {
    PushedRoomOk(norm, s.heap[obj], args);
  }

  lemma PushKeeps(norm: Norm, s: State, t: Tid, args: JoinArgs, obj: Obj)
    requires Inv(norm, s) && Deciding(s, t, args) && Admissible(norm, s, args, obj)
    ensures Inv(norm, PushUser(s, t, args, obj))
  {
    PushKeepsTables(norm, s, t, args, obj);
    PushKeepsProcs(norm, s, t, args, obj);
    AdmitSpent(norm, s, t, args, PushUser(s, t, args, obj));
  }

  lemma PushKeepsProcs(norm: Norm, s: State, t: Tid, args: JoinArgs, obj: Obj)
    requires ProcsOk(norm, s) && Deciding(s, t, args) && Admissible(norm, s, args, obj)
    ensures ProcsOk(norm, PushUser(s, t, args, obj))
  {
    var s' := PushUser(s, t, args, obj);
    forall u | u in s'.procs ensures ProcOk(norm, s', u, s'.procs[u]) {
      if u != t { PushKeepsOther(norm, s, t, args, obj, u, s.procs[u]); }
    }
  }

  lemma AdmitSpent(norm: Norm, s: State, t: Tid, args: JoinArgs, s': State)
    requires SpentOk(s) && AdmitOk(s.issued, s.admitted) && Deciding(s, t, args)
    requires args.token != "" ==> Vetted(s, args)
    requires s'.inviteTokens == s.inviteTokens && s'.issued == s.issued && s'.joinLocks == s.joinLocks
    requires s'.admitted == if args.token != "" then s.admitted + multiset{args.token} else s.admitted
    requires t in s'.procs && s'.procs == s.procs[t := s'.procs[t]] && Spending(s'.procs[t], args.token)
    ensures SpentOk(s') && AdmitOk(s'.issued, s'.admitted)
  {
  }

  // ----- validation -----

  /** A token answered with a suspension is issued for the room asked about, and is still there. */
  lemma BeginKeeps(norm: Norm, s: State, token: Token, code: Code, expired: bool)
    requires Inv(norm, s)
    ensures var (s', v) := BeginValidate(s, token, code, expired);
            Inv(norm, s') && s' == s.(inviteTokens := s'.inviteTokens, roomToTokens := s'.roomToTokens)
            && (v.Suspended? ==> s' == s && token in s.inviteTokens && token in s.issued && v.data == s.issued[token]
                                 && (code != "" ==> v.data.roomCode == code))
            && (v.Answer? ==> !v.valid)
            && (v.Answer? && code != "" && token in s.issued && s.issued[token].roomCode == code ==>
                  token !in s'.inviteTokens)
  {
    CleanupTokenKeeps(norm, s, token);
  }

  lemma EndKeeps(norm: Norm, s: State, token: Token, data: TokenData, present: bool, consume: bool)
    requires Inv(norm, s) && token in s.issued && data == s.issued[token]
    ensures var (s', valid) := EndValidate(s, token, data, present, consume);
            Inv(norm, s') && s' == s.(inviteTokens := s'.inviteTokens, roomToTokens := s'.roomToTokens)
            && (consume && !data.isPermanent ==> token !in s'.inviteTokens)
  {
    DropTokenKeeps(norm, s, token, data.roomCode);
  }

  /** A live token of this room has admitted nobody while the holder of the room's lock is still deciding. */
  lemma LiveIsUnspent(norm: Norm, s: State, t: Tid, args: JoinArgs)
    requires Inv(norm, s) && Deciding(s, t, args) && Known(s.issued, args) && args.token in s.inviteTokens
    ensures Vetted(s, args)
  {
  }

  // ----- the segments of a join -----

  lemma DecidedKeeps(norm: Norm, s: State, t: Tid, args: JoinArgs, pc: JoinPc)
    requires Inv(norm, s) && Deciding(s, t, args) && PcOk(norm, s, args, pc)
    requires pc != Waiting && !pc.Done?
    ensures Inv(norm, Suspend(s, t, args, pc))
  {
    var p' := Join(args, pc);
    assert MayBecome(s, t, p') by {
      assert forall c :: c in s.joinLocks && s.joinLocks[c] == t ==> s.procs[t].args.code == c;
    }
    MoveKeeps(norm, s, t, p');
  }

  lemma AfterInvitationKeeps(norm: Norm, s: State, t: Tid, args: JoinArgs, obj: Obj)
    requires Inv(norm, s) && Deciding(s, t, args) && Admissible(norm, s, args, obj)
    ensures Inv(norm, AfterInvitation(s, t, args, obj))
  {
    if s.heap[obj].hasPassword {
      if args.password == "" {
        ReleaseKeeps(norm, s, t, args, false);
      } else {
        DecidedKeeps(norm, s, t, args, CheckingPassword(obj));
      }
    } else {
      PushKeeps(norm, s, t, args, obj);
    }
  }

  lemma InvitationKeeps(norm: Norm, s: State, t: Tid, args: JoinArgs, obj: Obj, expired: bool)
    requires Inv(norm, s) && Deciding(s, t, args) && RefOk(s.heap, obj, args.code) && Clear(norm, s.heap[obj], args)
    requires args.token != ""
    ensures var (s', v) := BeginValidate(s, args.token, args.code, expired);
            var pc := if v.Answer? then Validated(obj, v.valid) else Validating(obj, v.data, v.present);
            Inv(norm, Suspend(s', t, args, pc))
  {
    BeginKeeps(norm, s, args.token, args.code, expired);
    var (s', v) := BeginValidate(s, args.token, args.code, expired);
    if v.Suspended? {
      assert RoomOk(norm, s.heap[obj]);
      LiveIsUnspent(norm, s, t, args);
      DecidedKeeps(norm, s', t, args, Validating(obj, v.data, v.present));
    } else {
      DecidedKeeps(norm, s', t, args, Validated(obj, v.valid));
    }
  }

  /** Passing the nickname, reconnection and capacity checks leaves room for the newcomer. */
  lemma ChecksMakeClear(norm: Norm, room: Room, args: JoinArgs)
    requires RoomOk(norm, room) && !NicknameTaken(norm, room.users, args.nickname, args.socketId)
    requires FindUser(room.users, args.socketId) == |room.users|
    requires !(room.maxUsers != 0 && |room.users| >= room.maxUsers)
    ensures Clear(norm, room, args)
  {
  }

  lemma AfterCleanupKeeps(norm: Norm, s: State, t: Tid, args: JoinArgs, obj: Obj, choice: Choice)
    requires Inv(norm, s) && Deciding(s, t, args) && RefOk(s.heap, obj, args.code)
    ensures Inv(norm, AfterCleanup(norm, s, t, args, obj, choice))
  {
    var room := s.heap[obj];
    var i := FindUser(room.users, args.socketId);
    if choice.expired {
      DecidedKeeps(norm, s, t, args, Expiring);
    } else if NicknameTaken(norm, room.users, args.nickname, args.socketId) {
      ReleaseKeeps(norm, s, t, args, false);
    } else if i < |room.users| {
      if room.users[i].nickname == args.nickname {
        ReleaseKeeps(norm, s, t, args, true);
      } else {
        RenameKeeps(norm, s, t, args, obj, i);
      }
    } else if room.maxUsers != 0 && |room.users| >= room.maxUsers {
      ReleaseKeeps(norm, s, t, args, false);
    } else {
      ChecksMakeClear(norm, room, args);
      if room.inviteOnly || args.token != "" {
        if args.token == "" {
          ReleaseKeeps(norm, s, t, args, false);
        } else {
          InvitationKeeps(norm, s, t, args, obj, choice.tokenExpired);
        }
      } else {
        AfterInvitationKeeps(norm, s, t, args, obj);
      }
    }
  }

  lemma AfterGetRoomKeeps(norm: Norm, s: State, t: Tid, args: JoinArgs, found: Option<Obj>, choice: Choice)
    requires Inv(norm, s) && Deciding(s, t, args) && (found.Some? ==> RefOk(s.heap, found.value, args.code))
    ensures Inv(norm, AfterGetRoom(norm, s, t, args, found, choice))
  {
    if found.None? {
      ReleaseKeeps(norm, s, t, args, false);
    } else {
      var obj := found.value;
      var users := s.heap[obj].users;
      if choice.connected.Some? {
        var keep := (u: User) => u.socketId in choice.connected.value;
        var kept := KeepUsers(users, keep);
        if |kept| != |users| {
          var s1 := SetUsers(s, obj, kept);
          ShrinkKeeps(norm, s, obj, keep);
          SaveRoomKeeps(norm, s1, args.code, obj);
          DecidedKeeps(norm, SaveRoom(s1, args.code, obj), t, args, Cleaned(obj));
        } else {
          AfterCleanupKeeps(norm, s, t, args, obj, choice);
        }
      } else {
        AfterCleanupKeeps(norm, s, t, args, obj, choice);
      }
    }
  }

  lemma AfterPushKeeps(norm: Norm, s: State, t: Tid, args: JoinArgs, obj: Obj, choice: Choice)
    requires Inv(norm, s) && t in s.procs && s.procs[t] == Join(args, Pushed(obj))
    ensures Inv(norm, AfterPush(s, t, args, choice))
  {
    assert ProcOk(norm, s, t, s.procs[t]);
    if args.token == "" {
      ReleaseKeeps(norm, s, t, args, true);
    } else {
      BeginKeeps(norm, s, args.token, args.code, choice.tokenExpired);
      var (s', v) := BeginValidate(s, args.token, args.code, choice.tokenExpired);
      var p' := Join(args, if v.Answer? then Consumed else Consuming(v.data, v.present));
      assert RoomOk(norm, s.heap[obj]);
      MoveKeeps(norm, s', t, p');
    }
  }

  lemma ConsumingKeeps(norm: Norm, s: State, t: Tid, args: JoinArgs, data: TokenData, present: bool)
    requires Inv(norm, s) && t in s.procs && s.procs[t] == Join(args, Consuming(data, present))
    ensures Inv(norm, Suspend(EndValidate(s, args.token, data, present, true).0, t, args, Consumed))
  {
    assert ProcOk(norm, s, t, s.procs[t]);
    EndKeeps(norm, s, args.token, data, present, true);
    MoveKeeps(norm, EndValidate(s, args.token, data, present, true).0, t, Join(args, Consumed));
  }

  lemma EarlyJoinKeeps(norm: Norm, s: State, t: Tid, args: JoinArgs, pc: JoinPc, choice: Choice)
    requires Inv(norm, s) && t in s.procs && s.procs[t] == Join(args, pc) && RefsOk(s, pc)
    requires pc.GotRoom? || pc.Cleaned? || pc.Validating? || pc.Validated? || pc.CheckingPassword?
    ensures Inv(norm, ResumeJoin(norm, s, t, args, pc, choice))
  {
    assert ProcOk(norm, s, t, s.procs[t]);
    match pc
    case GotRoom(found) => AfterGetRoomKeeps(norm, s, t, args, found, choice);
    case Cleaned(obj) => AfterCleanupKeeps(norm, s, t, args, obj, choice);
    case Validating(obj, data, present) =>
      EndKeeps(norm, s, args.token, data, present, false);
      var (s', valid) := EndValidate(s, args.token, data, present, false);
      DecidedKeeps(norm, s', t, args, Validated(obj, valid));
    case Validated(obj, valid) =>
      if valid { AfterInvitationKeeps(norm, s, t, args, obj); } else { ReleaseKeeps(norm, s, t, args, false); }
    case CheckingPassword(obj) =>
      if choice.passwordOk { PushKeeps(norm, s, t, args, obj); } else { ReleaseKeeps(norm, s, t, args, false); }
  }

  lemma LateJoinKeeps(norm: Norm, s: State, t: Tid, args: JoinArgs, pc: JoinPc, choice: Choice)
    requires Inv(norm, s) && t in s.procs && s.procs[t] == Join(args, pc) && RefsOk(s, pc)
    requires !(pc.GotRoom? || pc.Cleaned? || pc.Validating? || pc.Validated? || pc.CheckingPassword?)
    ensures Inv(norm, ResumeJoin(norm, s, t, args, pc, choice))
  {
    assert ProcOk(norm, s, t, s.procs[t]);
    match pc
    case Waiting => EnterKeeps(norm, s, t, args);
    case Expiring =>
      DeleteRoomKeeps(norm, s, args.code);
      DecidedKeeps(norm, DeleteRoom(s, args.code), t, args, Expired);
    case Expired => ReleaseKeeps(norm, s, t, args, false);
    case Renamed(_) => ReleaseKeeps(norm, s, t, args, true);
    case Pushed(obj) => AfterPushKeeps(norm, s, t, args, obj, choice);
    case Consuming(data, present) => ConsumingKeeps(norm, s, t, args, data, present);
    case Consumed => ReleaseKeeps(norm, s, t, args, true);
    case Done(_) =>
  }

  // ----- the other operations -----

  /** A call that is not a join can take any step that leaves it outside the critical section. */
  lemma OtherMoveKeeps(norm: Norm, s: State, t: Tid, p': Proc)
    requires Inv(norm, s) && (t in s.procs ==> !s.procs[t].Join?)
    requires !InCritical(p') && ProcOk(norm, s, t, p')
    ensures Inv(norm, At(s, t, p'))
  {
    MoveKeeps(norm, s, t, p');
  }

  lemma LeaveKeeps(norm: Norm, s: State, t: Tid, code: Code, socketId: Socket, found: Option<Obj>)
    requires Inv(norm, s) && t in s.procs && s.procs[t] == Leave(code, socketId, found)
    requires found.Some? ==> found.value in s.heap
    ensures Inv(norm, ResumeLeave(s, t, code, socketId, found))
  {
    assert ProcOk(norm, s, t, s.procs[t]);
    if found.None? {
      OtherMoveKeeps(norm, s, t, Finished);
    } else {
      var obj := found.value;
      var keep := (u: User) => u.socketId != socketId;
      var left := SetUsers(s, obj, KeepUsers(s.heap[obj].users, keep));
      ShrinkKeeps(norm, s, obj, keep);
      SaveRoomKeeps(norm, left, code, obj);
      OtherMoveKeeps(norm, left, t, Delete(code));
      OtherMoveKeeps(norm, SaveRoom(left, code, obj), t, Finished);
    }
  }

  lemma GenerateKeepsProc(norm: Norm, s: State, s': State, token: Token, data: TokenData, t: Tid, p: Proc)
    requires token !in s.issued && IssuedOk(s.inviteTokens, s.issued)
    requires s'.inviteTokens == s.inviteTokens[token := data] && s'.issued == s.issued[token := data]
    requires s' == s.(inviteTokens := s'.inviteTokens, roomToTokens := s'.roomToTokens, issued := s'.issued)
    requires ProcOk(norm, s, t, p)
    ensures ProcOk(norm, s', t, p)
  {
  }

  lemma GenerateKeeps(norm: Norm, s: State, t: Tid, code: Code, isPermanent: bool, present: bool, token: Token)
    requires Inv(norm, s) && t in s.procs && s.procs[t] == Generate(code, isPermanent, present)
    requires token !in s.issued && |token| >= MIN_TOKEN_LENGTH
    ensures Inv(norm, ResumeGenerate(s, t, code, isPermanent, present, token))
  {
    if present {
      var data := TokenData(code, isPermanent);
      var others := if code in s.roomToTokens then s.roomToTokens[code] else {};
      var s' := s.(inviteTokens := s.inviteTokens[token := data],
                   roomToTokens := s.roomToTokens[code := others + {token}],
                   issued := s.issued[token := data]);
      forall u | u in s'.procs ensures ProcOk(norm, s', u, s'.procs[u]) {
        GenerateKeepsProc(norm, s, s', token, data, u, s.procs[u]);
      }
      assert ProcsOk(norm, s');
      IssueMirrors(s, token, data);
      IssueKeepsSpent(s, s', token, data);
      OtherMoveKeeps(norm, s', t, Finished);
    } else {
      OtherMoveKeeps(norm, s, t, Finished);
    }
  }

  /** A new token has admitted nobody. */
  lemma IssueKeepsSpent(s: State, s': State, token: Token, data: TokenData)
    requires SpentOk(s) && AdmitOk(s.issued, s.admitted) && token !in s.issued
    requires s'.inviteTokens == s.inviteTokens[token := data] && s'.issued == s.issued[token := data]
    requires s'.admitted == s.admitted && s'.joinLocks == s.joinLocks && s'.procs == s.procs
    ensures SpentOk(s') && AdmitOk(s'.issued, s'.admitted)
  {
  }

  lemma IssueMirrors(s: State, token: Token, data: TokenData)
    requires MirrorOk(s.inviteTokens, s.roomToTokens) && token !in s.inviteTokens
    ensures var others := if data.roomCode in s.roomToTokens then s.roomToTokens[data.roomCode] else {};
            MirrorOk(s.inviteTokens[token := data], s.roomToTokens[data.roomCode := others + {token}])
  {
  }

  lemma CreateKeeps(norm: Norm, s: State, obj: Obj, room: Room)
    requires Inv(norm, s) && obj !in s.heap && room.users == [] && room.code != ""
    ensures Inv(norm, SaveRoom(s.(heap := s.heap[obj := room]), room.code, obj))
  {
    var s' := s.(heap := s.heap[obj := room]);
    forall u | u in s'.procs ensures ProcOk(norm, s', u, s'.procs[u]) {
      assert ProcOk(norm, s, u, s.procs[u]);
    }
    assert ProcsOk(norm, s');
    SaveRoomKeeps(norm, s', room.code, obj);
  }

  // ----- every step, every run -----

  lemma ResumeKeeps(norm: Norm, s: State, t: Tid, choice: Choice)
    requires Inv(norm, s) && Enabled(s, Resume(t, choice))
    ensures Inv(norm, ResumeProc(norm, s, t, choice))
  {
    assert ProcOk(norm, s, t, s.procs[t]);
    match s.procs[t]
    case Join(args, pc) =>
      if pc.GotRoom? || pc.Cleaned? || pc.Validating? || pc.Validated? || pc.CheckingPassword? {
        EarlyJoinKeeps(norm, s, t, args, pc, choice);
      } else {
        LateJoinKeeps(norm, s, t, args, pc, choice);
      }
    case Leave(code, socketId, found) => LeaveKeeps(norm, s, t, code, socketId, found);
    case Delete(code) =>
      DeleteRoomKeeps(norm, s, code);
      OtherMoveKeeps(norm, DeleteRoom(s, code), t, Finished);
    case Validate(token, data, present) =>
      EndKeeps(norm, s, token, data, present, false);
      OtherMoveKeeps(norm, EndValidate(s, token, data, present, false).0, t, Finished);
    case Generate(code, isPermanent, present) => GenerateKeeps(norm, s, t, code, isPermanent, present, choice.newToken);
    case Finished =>
  }

  /** Every step of the room manager keeps the invariant. */
  lemma StepKeeps(norm: Norm, s: State, e: Event)
    requires Inv(norm, s) && Enabled(s, e)
    ensures Inv(norm, Step(norm, s, e))
  {
    match e
    case StartJoin(t, args) => OtherMoveKeeps(norm, s, t, Join(args, Waiting));
    case StartLeave(t, code, socketId) => OtherMoveKeeps(norm, s, t, Leave(code, socketId, GetRoom(s, code)));
    case StartDelete(t, code) => OtherMoveKeeps(norm, s, t, Delete(code));
    case StartValidate(t, token, code, tokenExpired) =>
      BeginKeeps(norm, s, token, code, tokenExpired);
      var (s', v) := BeginValidate(s, token, code, tokenExpired);
      OtherMoveKeeps(norm, s', t, if v.Answer? then Finished else Validate(token, v.data, v.present));
    case StartGenerate(t, code, isPermanent) =>
      OtherMoveKeeps(norm, s, t, Generate(code, isPermanent, code in s.rooms));
    case Resume(t, choice) => ResumeKeeps(norm, s, t, choice);
    case CreateRoom(obj, room) => CreateKeeps(norm, s, obj, room);
    case Resave(obj) => SaveRoomKeeps(norm, s, s.heap[obj].code, obj);
    case Sweep(obj, connected) => ShrinkKeeps(norm, s, obj, (u: User) => u.socketId in connected);
    case TokenTimer(token) => CleanupTokenKeeps(norm, s, token);
  }

  lemma {:induction false} RunKeeps(norm: Norm, s: State, events: seq<Event>)
    requires Inv(norm, s) && IsRun(norm, s, events)
    ensures Inv(norm, Run(norm, s, events))
    decreases |events|
  {
    if events != [] {
      StepKeeps(norm, s, events[0]);
      RunKeeps(norm, Step(norm, s, events[0]), events[1..]);
    }
  }

  lemma StartKeeps(norm: Norm)
    ensures Inv(norm, START)
  {
  }

  // ----- what holds over all interleavings -----

  ghost predicate Reachable(norm: Norm, s: State) {
    exists events :: IsRun(norm, START, events) && Run(norm, START, events) == s
  }

  lemma ReachableInv(norm: Norm, s: State)
    requires Reachable(norm, s)
    ensures Inv(norm, s)
  {
    var events :| IsRun(norm, START, events) && Run(norm, START, events) == s;
    StartKeeps(norm);
    RunKeeps(norm, START, events);
  }

  /** At most one join of a room is between taking the lock and releasing it. */
  lemma MutualExclusion(norm: Norm, s: State, t: Tid, u: Tid)
    requires Reachable(norm, s) && t in s.procs && u in s.procs
    requires InCritical(s.procs[t]) && InCritical(s.procs[u]) && s.procs[t].args.code == s.procs[u].args.code
    ensures t == u
  {
    ReachableInv(norm, s);
    assert ProcOk(norm, s, t, s.procs[t]) && ProcOk(norm, s, u, s.procs[u]);
  }

  /**
   In every room object, whether or not it is still in the table, no two users share a normalised nickname
   or a socket, and a limit that is set is respected.
  */
  lemma RoomsStaySound(norm: Norm, s: State, obj: Obj)
    requires Reachable(norm, s) && obj in s.heap
    ensures var users := s.heap[obj].users;
            && (forall i, j :: 0 <= i < j < |users| ==>
                  norm(users[i].nickname) != norm(users[j].nickname) && users[i].socketId != users[j].socketId)
            && (s.heap[obj].maxUsers != 0 ==> |users| <= s.heap[obj].maxUsers)
  {
    ReachableInv(norm, s);
    assert RoomOk(norm, s.heap[obj]);
    forall i, j | 0 <= i < j < |s.heap[obj].users|
      ensures norm(s.heap[obj].users[i].nickname) != norm(s.heap[obj].users[j].nickname)
      ensures s.heap[obj].users[i].socketId != s.heap[obj].users[j].socketId
    {
      assert Apart(norm, s.heap[obj].users[i], s.heap[obj].users[j]);
    }
  }

  lemma AdmitsAtMostOne(issued: map<Token, TokenData>, admitted: multiset<Token>, token: Token)
    requires AdmitOk(issued, admitted) && Temporary(issued, token)
    ensures admitted[token] <= 1
  {
  }

  lemma SpenderExists(s: State, token: Token)
    requires SpentOk(s) && Live(s, token) && token in s.admitted
    ensures exists t :: t in s.procs && Spending(s.procs[t], token)
  {
    assert HeldBySpender(s.joinLocks, s.procs, s.issued[token].roomCode, token);
    var t := s.joinLocks[s.issued[token].roomCode];
    assert t in s.procs && Spending(s.procs[t], token);
  }

  /**
   A temporary token admits at most one user, and once it has done so it is gone from the tables unless the
   admitting join is still on its way to consume it.
  */
  lemma TokenAdmitsOnce(norm: Norm, s: State, token: Token)
    requires Reachable(norm, s) && Temporary(s.issued, token)
    ensures s.admitted[token] <= 1
    ensures token in s.admitted && token in s.inviteTokens ==> exists t :: t in s.procs && Spending(s.procs[t], token)
  {
    ReachableInv(norm, s);
    AdmitsAtMostOne(s.issued, s.admitted, token);
    if token in s.admitted && token in s.inviteTokens {
      SpenderExists(s, token);
    }
  }

  /** The two token tables always name the same tokens, and no room keeps an empty set. */
  lemma TablesMirror(norm: Norm, s: State, token: Token, code: Code)
    requires Reachable(norm, s)
    ensures (token in s.inviteTokens && s.inviteTokens[token].roomCode == code)
        <==> (code in s.roomToTokens && token in s.roomToTokens[code])
    ensures code in s.roomToTokens ==> s.roomToTokens[code] != {}
  {
    ReachableInv(norm, s);
  }

  /** A token that a join is validating was issued for the room it joins, so the join is never sent to another. */
  lemma NeverRedirected(norm: Norm, s: State, t: Tid)
    requires Reachable(norm, s) && t in s.procs && s.procs[t].Join? && s.procs[t].pc.Validating?
    ensures s.procs[t].pc.data.roomCode == s.procs[t].args.code
  {
    ReachableInv(norm, s);
    assert ProcOk(norm, s, t, s.procs[t]);
  }

  /** A suspended call never refers to a room object that does not exist, so it can always be resumed. */
  lemma CanResume(norm: Norm, s: State, t: Tid)
    requires Reachable(norm, s) && t in s.procs
    ensures ProcRefsOk(s, s.procs[t])
  {
    ReachableInv(norm, s);
    assert ProcOk(norm, s, t, s.procs[t]);
  }
}
