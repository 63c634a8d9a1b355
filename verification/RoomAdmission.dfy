/**
 Who gets into a room: over every interleaving, each user in a room was added by a join that met what the room
 asks, a password that was compared and a token that was looked up and good.
*/
module RoomAdmission {
  import opened RoomManager
  import opened RoomSafety
  import opened RoomLiveness
  import opened Wrappers

  // ----- who is added by a step -----

  predicate Added(s: State, s': State, obj: Obj, u: User) {
    obj in s.heap && obj in s'.heap && u in s'.heap[obj].users && u !in s.heap[obj].users
  }

  lemma {:induction false} KeepUsersHas(users: seq<User>, keep: User -> bool, u: User)
    ensures u in KeepUsers(users, keep) <==> u in users && keep(u)
  {
    if users != [] { KeepUsersHas(users[1..], keep, u); }
  }

  lemma TokensLeaveHeap(s: State, token: Token, code: Code, expired: bool, data: TokenData, present: bool,
                        consume: bool)
    ensures BeginValidate(s, token, code, expired).0.heap == s.heap
    ensures EndValidate(s, token, data, present, consume).0.heap == s.heap
  {
    if token in s.inviteTokens { DropLeavesHeap(s, token, s.inviteTokens[token].roomCode); }
    DropLeavesHeap(s, token, data.roomCode);
  }

  lemma DropLeavesHeap(s: State, token: Token, code: Code)
    ensures DropToken(s, token, code).heap == s.heap
  {
  }

  predicate Newcomer(args: JoinArgs, u: User) {
    u == User(args.userId, args.socketId, args.nickname)
  }

  /** The user of the join's socket, under another nickname. */
  predicate Renames(users: seq<User>, args: JoinArgs, u: User) {
    exists i :: 0 <= i < |users| && users[i].socketId == args.socketId && u == users[i].(nickname := args.nickname)
  }

  lemma PushAdds(s: State, t: Tid, args: JoinArgs, obj: Obj, o: Obj, u: User)
    requires obj in s.heap && Added(s, PushUser(s, t, args, obj), o, u)
    ensures o == obj && Newcomer(args, u)
  {
  }

  lemma InvitationAdds(s: State, t: Tid, args: JoinArgs, obj: Obj, o: Obj, u: User)
    requires obj in s.heap && Added(s, AfterInvitation(s, t, args, obj), o, u)
    ensures o == obj && Newcomer(args, u) && !s.heap[obj].hasPassword
  {
    if !s.heap[obj].hasPassword { PushAdds(s, t, args, obj, o, u); }
  }

  lemma RenameAdds(s: State, t: Tid, args: JoinArgs, obj: Obj, i: nat, o: Obj, u: User)
    requires obj in s.heap && i < |s.heap[obj].users| && s.heap[obj].users[i].socketId == args.socketId
    requires var users := s.heap[obj].users;
             var renamed := users[i := users[i].(nickname := args.nickname)];
             Added(s, Suspend(SaveRoom(SetUsers(s, obj, renamed), args.code, obj), t, args, Renamed(obj)), o, u)
    ensures o == obj && Renames(s.heap[obj].users, args, u)
  {
    var users := s.heap[obj].users;
    assert o == obj;
    assert u in users[i := users[i].(nickname := args.nickname)];
  }

  lemma LookupAddsNobody(s: State, t: Tid, args: JoinArgs, obj: Obj, expired: bool, o: Obj, u: User)
    ensures var (s', v) := BeginValidate(s, args.token, args.code, expired);
            var pc := if v.Answer? then Validated(obj, v.valid) else Validating(obj, v.data, v.present);
            !Added(s, Suspend(s', t, args, pc), o, u)
  {
    TokensLeaveHeap(s, args.token, args.code, expired, TokenData("", false), false, false);
  }

  lemma CleanupAdds(norm: Norm, s: State, t: Tid, args: JoinArgs, obj: Obj, choice: Choice, o: Obj, u: User)
    requires obj in s.heap && Added(s, AfterCleanup(norm, s, t, args, obj, choice), o, u)
    ensures o == obj
    ensures || Renames(s.heap[obj].users, args, u)
            || (Newcomer(args, u) && !s.heap[obj].hasPassword && !s.heap[obj].inviteOnly && args.token == "")
  {
    var room := s.heap[obj];
    var i := FindUser(room.users, args.socketId);
    if choice.expired || NicknameTaken(norm, room.users, args.nickname, args.socketId) {
    } else if i < |room.users| {
      if room.users[i].nickname != args.nickname { RenameAdds(s, t, args, obj, i, o, u); }
    } else if room.maxUsers != 0 && |room.users| >= room.maxUsers {
    } else if room.inviteOnly || args.token != "" {
      if args.token != "" { LookupAddsNobody(s, t, args, obj, choice.tokenExpired, o, u); }
    } else {
      InvitationAdds(s, t, args, obj, o, u);
    }
  }

  lemma GetRoomAdds(norm: Norm, s: State, t: Tid, args: JoinArgs, found: Option<Obj>, choice: Choice, o: Obj, u: User)
    requires (found.Some? ==> found.value in s.heap) && Added(s, AfterGetRoom(norm, s, t, args, found, choice), o, u)
    ensures found == Some(o)
    ensures || Renames(s.heap[o].users, args, u)
            || (Newcomer(args, u) && !s.heap[o].hasPassword && !s.heap[o].inviteOnly && args.token == "")
  {
    if found.Some? {
      var obj := found.value;
      var users := s.heap[obj].users;
      var kept := if choice.connected.None? then users
                  else KeepUsers(users, (v: User) => v.socketId in choice.connected.value);
      if |kept| != |users| {
        KeepUsersHas(users, (v: User) => v.socketId in choice.connected.value, u);
      } else {
        CleanupAdds(norm, s, t, args, obj, choice, o, u);
      }
    }
  }

  /** The join may add the user now: by its last check, or because nothing was left to check. */
  predicate MayAdd(s: State, args: JoinArgs, pc: JoinPc, choice: Choice, obj: Obj, u: User)
    requires obj in s.heap
  {
    var first := pc == GotRoom(Some(obj)) || pc == Cleaned(obj);
    || (first && Renames(s.heap[obj].users, args, u))
    || (Newcomer(args, u)
        && ( || (pc == CheckingPassword(obj) && choice.passwordOk)
             || (pc == Validated(obj, true) && !s.heap[obj].hasPassword)
             || (first && !s.heap[obj].hasPassword && !s.heap[obj].inviteOnly && args.token == "")))
  }

  lemma JoinAdds(norm: Norm, s: State, t: Tid, args: JoinArgs, pc: JoinPc, choice: Choice, o: Obj, u: User)
    requires RefsOk(s, pc) && Added(s, ResumeJoin(norm, s, t, args, pc, choice), o, u)
    ensures MayAdd(s, args, pc, choice, o, u)
  {
    match pc
    case GotRoom(found) => GetRoomAdds(norm, s, t, args, found, choice, o, u);
    case Cleaned(obj) => CleanupAdds(norm, s, t, args, obj, choice, o, u);
    case Validating(obj, data, present) => TokensLeaveHeap(s, args.token, "", false, data, present, false);
    case Validated(obj, valid) => if valid { InvitationAdds(s, t, args, obj, o, u); }
    case CheckingPassword(obj) => if choice.passwordOk { PushAdds(s, t, args, obj, o, u); }
    case Pushed(_) =>
      TokensLeaveHeap(s, args.token, args.code, choice.tokenExpired, TokenData("", false), false, false);
    case Consuming(data, present) => TokensLeaveHeap(s, args.token, "", false, data, present, true);
    case _ =>
  }

  lemma LeaveAddsNobody(s: State, t: Tid, code: Code, socketId: Socket, found: Option<Obj>, o: Obj, u: User)
    requires found.Some? ==> found.value in s.heap
    ensures !Added(s, ResumeLeave(s, t, code, socketId, found), o, u)
  {
    if found.Some? { KeepUsersHas(s.heap[found.value].users, (v: User) => v.socketId != socketId, u); }
  }

  /** Only a resumed join adds anybody, and only when it may. */
  lemma AddedIs(norm: Norm, s: State, e: Event, obj: Obj, u: User)
    requires Enabled(s, e) && Added(s, Step(norm, s, e), obj, u)
    ensures e.Resume? && s.procs[e.t].Join? && MayAdd(s, s.procs[e.t].args, s.procs[e.t].pc, e.choice, obj, u)
  {
    match e
    case Resume(t, choice) =>
      match s.procs[t] {
        case Join(args, pc) => JoinAdds(norm, s, t, args, pc, choice, obj, u);
        case Leave(code, socketId, found) => LeaveAddsNobody(s, t, code, socketId, found, obj, u);
        case Validate(token, data, present) => TokensLeaveHeap(s, token, "", false, data, present, false);
        case _ =>
      }
    case StartValidate(t, token, code, tokenExpired) =>
      TokensLeaveHeap(s, token, code, tokenExpired, TokenData("", false), false, false);
    case Sweep(o, connected) => KeepUsersHas(s.heap[o].users, (v: User) => v.socketId in connected, u);
    case _ =>
  }

  // ----- what a join has passed -----

  /** The token is there, is this room's, is not too old, and the room is there. */
  predicate GoodToken(s: State, args: JoinArgs, expired: bool) {
    && args.token in s.inviteTokens && |args.token| >= 16 && s.inviteTokens[args.token].roomCode == args.code
    && (s.inviteTokens[args.token].isPermanent || !expired) && args.code in s.rooms
  }

  predicate LooksUp(s: State, e: Event, t: Tid, args: JoinArgs) {
    e.Resume? && e.t == t && GoodToken(s, args, e.choice.tokenExpired)
  }

  /** A join that stands here has found its token good. */
  predicate Cleared(args: JoinArgs, pc: JoinPc) {
    || (pc.Validating? && pc.present) || (pc.Validated? && pc.valid)
    || (args.token != "" && (pc.CheckingPassword? || pc.Pushed?))
  }

  /** A join waits for the comparison only with a password, and without a token only where none is asked for. */
  predicate Fair(s: State, args: JoinArgs, pc: JoinPc) {
    && (pc.CheckingPassword? ==> args.password != "")
    && (pc.CheckingPassword? && pc.obj in s.heap && s.heap[pc.obj].inviteOnly ==> args.token != "")
    && (pc.Validating? || pc.Validated? ==> args.token != "")
  }

  /** Where a resumption may take a join: it is cleared only if it was, or if its token is good now. */
  predicate MayFollow(s: State, args: JoinArgs, pc: JoinPc, p': JoinPc, choice: Choice) {
    && (Cleared(args, p') ==> Cleared(args, pc) || GoodToken(s, args, choice.tokenExpired))
    && (Fair(s, args, pc) ==> Fair(s, args, p')) && (p'.CheckingPassword? ==> p'.obj in s.heap)
  }

  /** No step changes whether a room asks for a password or a token. */
  predicate SameTerms(h: map<Obj, Room>, h': map<Obj, Room>) {
    forall o :: o in h ==> o in h' && SameDemands(h[o], h'[o])
  }

  predicate SameDemands(room: Room, room': Room) {
    room'.inviteOnly == room.inviteOnly && room'.hasPassword == room.hasPassword
  }

  predicate StandsAt(s: State, t: Tid, args: JoinArgs, pc: JoinPc) {
    t in s.procs && s.procs[t] == Join(args, pc)
  }

  /** After the step from s the join stands there, and the rooms ask for what they asked for. */
  predicate Stands(s: State, s': State, t: Tid, args: JoinArgs, pc: JoinPc) {
    StandsAt(s', t, args, pc) && SameTerms(s.heap, s'.heap)
  }

  lemma SuspendStands(s: State, s1: State, t: Tid, args: JoinArgs, pc: JoinPc)
    requires SameTerms(s.heap, s1.heap)
    ensures Stands(s, Suspend(s1, t, args, pc), t, args, pc)
  {
  }

  lemma ReleaseStands(s: State, t: Tid, args: JoinArgs, success: bool)
    ensures Stands(s, Release(s, t, args, success), t, args, Done(success))
  {
  }

  lemma PushStands(s: State, t: Tid, args: JoinArgs, obj: Obj)
    requires obj in s.heap
    ensures Stands(s, PushUser(s, t, args, obj), t, args, Pushed(obj))
  {
  }

  lemma InvitationMoves(s: State, t: Tid, args: JoinArgs, obj: Obj) returns (p': JoinPc)
    requires obj in s.heap
    ensures Stands(s, AfterInvitation(s, t, args, obj), t, args, p')
    ensures p'.Done? || p' == Pushed(obj) || (p' == CheckingPassword(obj) && args.password != "")
  {
    if !s.heap[obj].hasPassword {
      p' := Pushed(obj);
      PushStands(s, t, args, obj);
    } else if args.password == "" {
      p' := Done(false);
      ReleaseStands(s, t, args, false);
    } else {
      p' := CheckingPassword(obj);
      SuspendStands(s, s, t, args, p');
    }
  }

  lemma LookupMoves(s: State, t: Tid, args: JoinArgs, obj: Obj, expired: bool) returns (p': JoinPc)
    requires args.code != ""
    ensures var (s', v) := BeginValidate(s, args.token, args.code, expired);
            Stands(s, Suspend(s', t, args, if v.Answer? then Validated(obj, v.valid)
                                           else Validating(obj, v.data, v.present)), t, args, p')
    ensures p' == Validated(obj, false) || p'.Validating?
    ensures p'.Validating? && p'.present ==> GoodToken(s, args, expired)
  {
    var (s', v) := BeginValidate(s, args.token, args.code, expired);
    p' := if v.Answer? then Validated(obj, v.valid) else Validating(obj, v.data, v.present);
    TokensLeaveHeap(s, args.token, args.code, expired, TokenData("", false), false, false);
    SuspendStands(s, s', t, args, p');
  }

  lemma UsersKeepTerms(s: State, obj: Obj, users: seq<User>)
    requires obj in s.heap
    ensures SameTerms(s.heap, SetUsers(s, obj, users).heap)
  {
  }

  lemma RenameStands(s: State, t: Tid, args: JoinArgs, obj: Obj, i: nat)
    requires obj in s.heap && i < |s.heap[obj].users|
    ensures var users := s.heap[obj].users;
            var renamed := users[i := users[i].(nickname := args.nickname)];
            Stands(s, Suspend(SaveRoom(SetUsers(s, obj, renamed), args.code, obj), t, args, Renamed(obj)),
                   t, args, Renamed(obj))
  {
    var users := s.heap[obj].users;
    var renamed := users[i := users[i].(nickname := args.nickname)];
    UsersKeepTerms(s, obj, renamed);
    SuspendStands(s, SaveRoom(SetUsers(s, obj, renamed), args.code, obj), t, args, Renamed(obj));
  }

  /** What a join may come to when it looks at its room: an end, a suspension elsewhere, or a step towards admission. */
  predicate FirstMove(s: State, args: JoinArgs, obj: Obj, p': JoinPc, expired: bool)
    requires obj in s.heap
  {
    || p'.Done? || p' == Expiring || p' == Renamed(obj)
    || (args.token != "" && p' == Validated(obj, false))
    || (args.token != "" && p'.Validating? && (p'.present ==> GoodToken(s, args, expired)))
    || (args.token == "" && !s.heap[obj].inviteOnly
        && (p' == Pushed(obj) || (p' == CheckingPassword(obj) && args.password != "")))
  }

  lemma CleanupStands(norm: Norm, s: State, t: Tid, args: JoinArgs, obj: Obj, choice: Choice) returns (p': JoinPc)
    requires obj in s.heap && args.code != ""
    ensures Stands(s, AfterCleanup(norm, s, t, args, obj, choice), t, args, p')
    ensures FirstMove(s, args, obj, p', choice.tokenExpired)
  {
    var room := s.heap[obj];
    var i := FindUser(room.users, args.socketId);
    if choice.expired {
      p' := Expiring;
      SuspendStands(s, s, t, args, p');
    } else if NicknameTaken(norm, room.users, args.nickname, args.socketId) {
      p' := Done(false);
      ReleaseStands(s, t, args, false);
    } else if i < |room.users| {
      if room.users[i].nickname == args.nickname {
        p' := Done(true);
        ReleaseStands(s, t, args, true);
      } else {
        p' := Renamed(obj);
        RenameStands(s, t, args, obj, i);
      }
    } else if room.maxUsers != 0 && |room.users| >= room.maxUsers {
      p' := Done(false);
      ReleaseStands(s, t, args, false);
    } else if room.inviteOnly || args.token != "" {
      if args.token == "" {
        p' := Done(false);
        ReleaseStands(s, t, args, false);
      } else {
        p' := LookupMoves(s, t, args, obj, choice.tokenExpired);
      }
    } else {
      p' := InvitationMoves(s, t, args, obj);
    }
  }

  lemma CleanupMoves(norm: Norm, s: State, t: Tid, args: JoinArgs, obj: Obj, choice: Choice, pc: JoinPc)
    returns (p': JoinPc)
    requires obj in s.heap && args.code != ""
    ensures Stands(s, AfterCleanup(norm, s, t, args, obj, choice), t, args, p') && MayFollow(s, args, pc, p', choice)
  {
    p' := CleanupStands(norm, s, t, args, obj, choice);
  }

  lemma GetRoomMoves(norm: Norm, s: State, t: Tid, args: JoinArgs, found: Option<Obj>, choice: Choice, pc: JoinPc)
    returns (p': JoinPc)
    requires (found.Some? ==> found.value in s.heap) && args.code != ""
    ensures Stands(s, AfterGetRoom(norm, s, t, args, found, choice), t, args, p') && MayFollow(s, args, pc, p', choice)
  {
    if found.None? {
      p' := Done(false);
    } else {
      var obj := found.value;
      var users := s.heap[obj].users;
      var kept := if choice.connected.None? then users
                  else KeepUsers(users, (u: User) => u.socketId in choice.connected.value);
      if |kept| != |users| {
        p' := Cleaned(obj);
      } else {
        p' := CleanupMoves(norm, s, t, args, obj, choice, pc);
      }
    }
  }

  lemma PushedMoves(s: State, t: Tid, args: JoinArgs, choice: Choice) returns (p': JoinPc)
    ensures Stands(s, AfterPush(s, t, args, choice), t, args, p')
    ensures p' == Done(true) || p' == Consumed || p'.Consuming?
  {
    if args.token == "" {
      p' := Done(true);
      ReleaseStands(s, t, args, true);
    } else {
      var (s', v) := BeginValidate(s, args.token, args.code, choice.tokenExpired);
      p' := if v.Answer? then Consumed else Consuming(v.data, v.present);
      TokensLeaveHeap(s, args.token, args.code, choice.tokenExpired, TokenData("", false), false, false);
      SuspendStands(s, s', t, args, p');
    }
  }

  lemma EarlyMoves(norm: Norm, s: State, t: Tid, args: JoinArgs, pc: JoinPc, choice: Choice) returns (p': JoinPc)
    requires RefsOk(s, pc) && ((pc.GotRoom? && pc.found.Some?) || pc.Cleaned? ==> args.code != "")
    requires pc.GotRoom? || pc.Cleaned? || pc.Validating? || pc.Validated? || pc.CheckingPassword?
    ensures Stands(s, ResumeJoin(norm, s, t, args, pc, choice), t, args, p') && MayFollow(s, args, pc, p', choice)
  {
    match pc
    case GotRoom(found) =>
      if found.None? {
        p' := Done(false);
        ReleaseStands(s, t, args, false);
      } else {
        p' := GetRoomMoves(norm, s, t, args, found, choice, pc);
      }
    case Cleaned(obj) => p' := CleanupMoves(norm, s, t, args, obj, choice, pc);
    case Validating(obj, data, present) =>
      p' := Validated(obj, present);
      TokensLeaveHeap(s, args.token, "", false, data, present, false);
      SuspendStands(s, EndValidate(s, args.token, data, present, false).0, t, args, p');
    case Validated(obj, valid) =>
      if valid {
        p' := InvitationMoves(s, t, args, obj);
      } else {
        p' := Done(false);
        ReleaseStands(s, t, args, false);
      }
    case CheckingPassword(obj) =>
      p' := if choice.passwordOk then Pushed(obj) else Done(false);
      PushStands(s, t, args, obj);
      ReleaseStands(s, t, args, false);
  }

  lemma LateMoves(norm: Norm, s: State, t: Tid, args: JoinArgs, pc: JoinPc, choice: Choice) returns (p': JoinPc)
    requires RefsOk(s, pc) && StandsAt(s, t, args, pc)
    requires !(pc.GotRoom? || pc.Cleaned? || pc.Validating? || pc.Validated? || pc.CheckingPassword?)
    ensures Stands(s, ResumeJoin(norm, s, t, args, pc, choice), t, args, p') && MayFollow(s, args, pc, p', choice)
  {
    match pc
    case Waiting => p' := if args.code in s.joinLocks then Waiting else GotRoom(GetRoom(s, args.code));
    case Expiring =>
      p' := Expired;
      SuspendStands(s, DeleteRoom(s, args.code), t, args, p');
    case Expired =>
      p' := Done(false);
      ReleaseStands(s, t, args, false);
    case Renamed(_) =>
      p' := Done(true);
      ReleaseStands(s, t, args, true);
    case Pushed(_) => p' := PushedMoves(s, t, args, choice);
    case Consuming(data, present) =>
      p' := Consumed;
      TokensLeaveHeap(s, args.token, "", false, data, present, true);
      SuspendStands(s, EndValidate(s, args.token, data, present, true).0, t, args, p');
    case Consumed =>
      p' := Done(true);
      ReleaseStands(s, t, args, true);
    case Done(success) => p' := Done(success);
  }

  lemma JoinMoves(norm: Norm, s: State, t: Tid, args: JoinArgs, pc: JoinPc, choice: Choice) returns (p': JoinPc)
    requires RefsOk(s, pc) && StandsAt(s, t, args, pc)
    requires (pc.GotRoom? && pc.found.Some?) || pc.Cleaned? ==> args.code != ""
    ensures Stands(s, ResumeJoin(norm, s, t, args, pc, choice), t, args, p') && MayFollow(s, args, pc, p', choice)
  {
    if pc.GotRoom? || pc.Cleaned? || pc.Validating? || pc.Validated? || pc.CheckingPassword? {
      p' := EarlyMoves(norm, s, t, args, pc, choice);
    } else {
      p' := LateMoves(norm, s, t, args, pc, choice);
    }
  }

  // ----- over every interleaving -----

  ghost predicate IsTrace(norm: Norm, states: seq<State>, events: seq<Event>) {
    && |states| == |events| + 1 && states[0] == START
    && forall i :: 0 <= i < |events| ==>
         Enabled(states[i], events[i]) && states[i + 1] == Step(norm, states[i], events[i])
  }

  lemma {:induction false} TraceInv(norm: Norm, states: seq<State>, events: seq<Event>, i: nat)
    requires IsTrace(norm, states, events) && i < |states|
    ensures Inv(norm, states[i])
  {
    if i == 0 {
      StartKeeps(norm);
    } else {
      TraceInv(norm, states, events, i - 1);
      StepKeeps(norm, states[i - 1], events[i - 1]);
    }
  }

  lemma LeaveKeepsTerms(s: State, t: Tid, code: Code, socketId: Socket, found: Option<Obj>)
    requires found.Some? ==> found.value in s.heap
    ensures SameTerms(s.heap, ResumeLeave(s, t, code, socketId, found).heap)
  {
    if found.Some? {
      UsersKeepTerms(s, found.value, KeepUsers(s.heap[found.value].users, (u: User) => u.socketId != socketId));
    }
  }

  lemma GenerateLeavesHeap(s: State, t: Tid, code: Code, isPermanent: bool, present: bool, newToken: Token)
    ensures ResumeGenerate(s, t, code, isPermanent, present, newToken).heap == s.heap
  {
  }

  lemma ResumeKeepsTerms(norm: Norm, s: State, t: Tid, choice: Choice)
    requires Inv(norm, s) && t in s.procs && ProcRefsOk(s, s.procs[t])
    ensures SameTerms(s.heap, ResumeProc(norm, s, t, choice).heap)
  {
    match s.procs[t]
    case Join(args, pc) =>
      CodeIsNotEmpty(norm, s, t, args, pc);
      var p' := JoinMoves(norm, s, t, args, pc, choice);
    case Leave(code, socketId, found) => LeaveKeepsTerms(s, t, code, socketId, found);
    case Delete(code) => assert DeleteRoom(s, code).heap == s.heap;
    case Validate(token, data, present) => TokensLeaveHeap(s, token, "", false, data, present, false);
    case Generate(code, isPermanent, present) => GenerateLeavesHeap(s, t, code, isPermanent, present, choice.newToken);
    case Finished =>
  }

  lemma StepKeepsTerms(norm: Norm, s: State, e: Event)
    requires Inv(norm, s) && Enabled(s, e)
    ensures SameTerms(s.heap, Step(norm, s, e).heap)
  {
    match e
    case Resume(t, choice) => ResumeKeepsTerms(norm, s, t, choice);
    case StartValidate(t, token, code, tokenExpired) =>
      TokensLeaveHeap(s, token, code, tokenExpired, TokenData("", false), false, false);
    case Sweep(obj, connected) =>
      UsersKeepTerms(s, obj, KeepUsers(s.heap[obj].users, (u: User) => u.socketId in connected));
    case _ =>
  }

  lemma CodeIsNotEmpty(norm: Norm, s: State, t: Tid, args: JoinArgs, pc: JoinPc)
    requires Inv(norm, s) && StandsAt(s, t, args, pc)
    ensures RefsOk(s, pc) && ((pc.GotRoom? && pc.found.Some?) || pc.Cleaned? ==> args.code != "")
  {
    assert ProcOk(norm, s, t, s.procs[t]);
    if pc.GotRoom? && pc.found.Some? { assert RoomOk(norm, s.heap[pc.found.value]); }
    if pc.Cleaned? { assert RoomOk(norm, s.heap[pc.obj]); }
  }

  lemma FairStays(s: State, s': State, args: JoinArgs, pc: JoinPc)
    requires SameTerms(s.heap, s'.heap) && RefsOk(s, pc) && Fair(s, args, pc)
    ensures Fair(s', args, pc)
  {
  }

  /** A call becomes a join only by starting as one. */
  lemma JoinsStart(norm: Norm, s: State, e: Event, t: Tid)
    requires Enabled(s, e) && t in Step(norm, s, e).procs && Step(norm, s, e).procs[t].Join?
    requires t in s.procs ==> !s.procs[t].Join? && e.Resume? && e.t == t
    requires t !in s.procs ==> !(e.Resume? && e.t != t)
    ensures Step(norm, s, e).procs[t].pc == Waiting
  {
    match e
    case Resume(u, choice) => LeavesStayLeaves(s, u, choice, norm);
    case StartValidate(u, token, code, tokenExpired) => ValidationMovesNobody(s, token, code, tokenExpired);
    case _ =>
  }

  /** Only this call has moved, and it is no join. */
  predicate OtherMove(s: State, s': State, t: Tid) {
    t in s'.procs && s'.procs == s.procs[t := s'.procs[t]] && !s'.procs[t].Join?
  }

  lemma LeaveMoves(s: State, t: Tid, code: Code, socketId: Socket, found: Option<Obj>)
    requires found.Some? ==> found.value in s.heap
    ensures OtherMove(s, ResumeLeave(s, t, code, socketId, found), t)
  {
  }

  lemma GenerateMoves(s: State, t: Tid, code: Code, isPermanent: bool, present: bool, newToken: Token)
    ensures OtherMove(s, ResumeGenerate(s, t, code, isPermanent, present, newToken), t)
  {
  }

  lemma LeavesStayLeaves(s: State, t: Tid, choice: Choice, norm: Norm)
    requires t in s.procs && !s.procs[t].Join? && ProcRefsOk(s, s.procs[t])
    ensures OtherMove(s, ResumeProc(norm, s, t, choice), t)
  {
    match s.procs[t]
    case Leave(code, socketId, found) => LeaveMoves(s, t, code, socketId, found);
    case Delete(_) =>
    case Validate(token, data, present) => AnswerMovesNobody(s, token, data, present, false);
    case Generate(code, isPermanent, present) => GenerateMoves(s, t, code, isPermanent, present, choice.newToken);
    case Finished =>
  }

  /** A resumption of another call starts no join. */
  lemma ResumeStartsNobody(norm: Norm, s: State, u: Tid, choice: Choice, t: Tid)
    requires u in s.procs && ProcRefsOk(s, s.procs[u]) && t !in s.procs
    ensures t !in ResumeProc(norm, s, u, choice).procs
  {
    if s.procs[u].Join? {
      var args, pc := s.procs[u].args, s.procs[u].pc;
      if pc != Waiting && !pc.Done? { JoinProgresses(norm, s, u, args, pc, choice); }
    } else {
      LeavesStayLeaves(s, u, choice, norm);
    }
  }

  /** Wherever a join stands, it got there fairly, and by looking its token up if it is cleared. */
  lemma {:induction false} HasPassed(norm: Norm, states: seq<State>, events: seq<Event>, i: nat, t: Tid, args: JoinArgs,
                                     pc: JoinPc) returns (j: nat)
    requires IsTrace(norm, states, events) && i < |states| && StandsAt(states[i], t, args, pc)
    ensures Fair(states[i], args, pc)
    ensures Cleared(args, pc) ==> j < i && LooksUp(states[j], events[j], t, args)
    decreases i
  {
    j := 0;
    if i > 0 {
      var s, e := states[i - 1], events[i - 1];
      TraceInv(norm, states, events, i - 1);
      if e.Resume? && e.t == t && s.procs[t].Join? {
        j := ResumedPassed(norm, states, events, i, t, args, pc);
      } else if t in s.procs && !(e.Resume? && e.t == t) {
        StepTouches(norm, s, e, t);
        j := HasPassed(norm, states, events, i - 1, t, args, pc);
        StepKeepsTerms(norm, s, e);
        assert ProcOk(norm, s, t, s.procs[t]);
        FairStays(s, states[i], args, pc);
      } else {
        if e.Resume? && e.t != t { ResumeStartsNobody(norm, s, e.t, e.choice, t); }
        JoinsStart(norm, s, e, t);
      }
    }
  }

  lemma {:induction false} ResumedPassed(norm: Norm, states: seq<State>, events: seq<Event>, i: nat, t: Tid,
                                         args: JoinArgs, pc: JoinPc) returns (j: nat)
    requires IsTrace(norm, states, events) && 0 < i < |states| && StandsAt(states[i], t, args, pc)
    requires Inv(norm, states[i - 1]) && events[i - 1].Resume? && events[i - 1].t == t && states[i - 1].procs[t].Join?
    ensures Fair(states[i], args, pc)
    ensures Cleared(args, pc) ==> j < i && LooksUp(states[j], events[j], t, args)
    decreases i, 0
  {
    var s, e := states[i - 1], events[i - 1];
    var before := s.procs[t].pc;
    CodeIsNotEmpty(norm, s, t, s.procs[t].args, before);
    var p' := JoinMoves(norm, s, t, s.procs[t].args, before, e.choice);
    assert states[i] == ResumeJoin(norm, s, t, s.procs[t].args, before, e.choice);
    assert p' == pc && s.procs[t].args == args;
    var k := HasPassed(norm, states, events, i - 1, t, args, before);
    j := if Cleared(args, before) then k else i - 1;
    assert Fair(s, args, pc);
  }

  /**
   Over every interleaving, whoever comes to be in a room's object was put there by a resumed join, either as its
   socket's user under another name, or as a new user; and then, if the room asks for a password, one was given
   and the comparison it was resumed from succeeded; if it is for invited users only, a token was given; and
   a token that was given had been looked up by this join and found good.
  */
  lemma AdmissionIsEarned(norm: Norm, states: seq<State>, events: seq<Event>, i: nat, obj: Obj, u: User)
    returns (j: nat)
    requires IsTrace(norm, states, events) && i < |events| && Added(states[i], states[i + 1], obj, u)
    ensures
      var s, e := states[i], events[i];
      && e.Resume? && s.procs[e.t].Join?
      && var (args, pc, room) := (s.procs[e.t].args, s.procs[e.t].pc, s.heap[obj]);
         || Renames(room.users, args, u)
         || (&& Newcomer(args, u)
             && (room.hasPassword ==> args.password != "" && pc == CheckingPassword(obj) && e.choice.passwordOk)
             && (room.inviteOnly ==> args.token != "")
             && (args.token != "" ==> j < i && LooksUp(states[j], events[j], e.t, args)))
  {
    var s, e := states[i], events[i];
    TraceInv(norm, states, events, i);
    AddedIs(norm, s, e, obj, u);
    j := HasPassed(norm, states, events, i, e.t, s.procs[e.t].args, s.procs[e.t].pc);
  }
}
