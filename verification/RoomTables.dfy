/**
 The room manager as the object it is: tables that its methods change in place. Each method is one stretch of
 code between two awaits and is proved to make exactly the step of the machine in RoomManager.
*/
module RoomTables {
  import opened RoomManager
  import opened RoomSafety
  import opened Wrappers

  class RoomManagerObject {
    const norm: Norm
    var heap: map<Obj, Room>
    var rooms: map<Code, Obj>
    var joinLocks: map<Code, Tid>
    var inviteTokens: map<Token, TokenData>
    var roomToTokens: map<Code, set<Token>>
    var participatedRooms: map<string, set<Code>>
    /** Where every call is suspended, and the history of tokens. */
    ghost var procs: map<Tid, Proc>
    ghost var issued: map<Token, TokenData>
    ghost var admitted: multiset<Token>

    ghost function View(): State
      reads this
    {
      State(heap, rooms, joinLocks, inviteTokens, roomToTokens, participatedRooms, procs, issued, admitted)
    }

    constructor (norm: Norm)
      ensures this.norm == norm && View() == START
    {
      this.norm := norm;
      heap, rooms, joinLocks := map[], map[], map[];
      inviteTokens, roomToTokens, participatedRooms := map[], map[], map[];
      procs, issued, admitted := map[], map[], multiset{};
    }

    // ----- tokens and deletion -----

    method ForgetToken(token: Token, code: Code)
      modifies this`inviteTokens, this`roomToTokens
      ensures View() == DropToken(old(View()), token, code)
    {
      inviteTokens := inviteTokens - {token};
      if code in roomToTokens {
        roomToTokens := roomToTokens[code := roomToTokens[code] - {token}];
        if roomToTokens[code] == {} {
          roomToTokens := roomToTokens - {code};
          assert roomToTokens == old(roomToTokens) - {code};
        }
      }
    }

    method OnCleanupToken(token: Token)
      modifies this`inviteTokens, this`roomToTokens
      ensures View() == CleanupToken(old(View()), token)
    {
      if token in inviteTokens {
        ForgetToken(token, inviteTokens[token].roomCode);
      }
    }

    /** The part of deleteRoom after its getRoom: clean up every token of the room, then forget the room. */
    method OnDeleteRoom(code: Code)
      requires MirrorOk(inviteTokens, roomToTokens)
      modifies this`inviteTokens, this`roomToTokens, this`rooms
      ensures View() == DeleteRoom(old(View()), code)
    {
      if code in roomToTokens {
        CleanupAll(code);
      }
      rooms := rooms - {code};
      assert roomToTokens == old(roomToTokens) - {code};
      assert inviteTokens == DeleteRoom(old(View()), code).inviteTokens;
    }

    method CleanupAll(code: Code)
      requires MirrorOk(inviteTokens, roomToTokens) && code in roomToTokens
      modifies this`inviteTokens, this`roomToTokens
      ensures inviteTokens == old(inviteTokens) - old(roomToTokens)[code]
      ensures roomToTokens == old(roomToTokens) - {code}
    {
      ghost var was := roomToTokens;
      var tokens := roomToTokens[code];
      while tokens != {}
        invariant tokens <= was[code]
        invariant inviteTokens == old(inviteTokens) - (was[code] - tokens)
        invariant roomToTokens == if tokens == {} then was - {code} else was[code := tokens]
        decreases tokens
      {
        var token :| token in tokens;
        assert token in inviteTokens && inviteTokens[token].roomCode == code;
        OnCleanupToken(token);
        ghost var rest := tokens - {token};
        assert was[code] - rest == (was[code] - tokens) + {token};
        assert was[code := tokens] - {code} == was - {code};
        assert was[code := tokens][code := rest] == was[code := rest];
        tokens := tokens - {token};
      }
      roomToTokens := roomToTokens - {code};
    }

    method StartValidateInviteToken(token: Token, code: Code, expired: bool) returns (v: Validation)
      modifies this`inviteTokens, this`roomToTokens
      ensures (View(), v) == BeginValidate(old(View()), token, code, expired)
    {
      if |token| < MIN_TOKEN_LENGTH || token !in inviteTokens {
        return Answer(false);
      }
      var data := inviteTokens[token];
      if !data.isPermanent && expired {
        OnCleanupToken(token);
        return Answer(false);
      }
      if code != "" && data.roomCode != code {
        return Answer(false);
      }
      return Suspended(data, data.roomCode in rooms);
    }

    method FinishValidateInviteToken(token: Token, data: TokenData, present: bool, consume: bool) returns (valid: bool)
      modifies this`inviteTokens, this`roomToTokens
      ensures (View(), valid) == EndValidate(old(View()), token, data, present, consume)
    {
      if !present {
        ForgetToken(token, data.roomCode);
        return false;
      }
      if !data.isPermanent && consume {
        ForgetToken(token, data.roomCode);
      }
      return true;
    }

    method FileToken(code: Code, token: Token)
      modifies this`roomToTokens
      ensures var others := if code in old(roomToTokens) then old(roomToTokens)[code] else {};
              roomToTokens == old(roomToTokens)[code := others + {token}]
    {
      if code !in roomToTokens {
        roomToTokens := roomToTokens[code := {}];
      }
      roomToTokens := roomToTokens[code := roomToTokens[code] + {token}];
    }

    method FinishGenerateInviteToken(t: Tid, code: Code, isPermanent: bool, present: bool, newToken: Token)
      modifies this
      ensures View() == ResumeGenerate(old(View()), t, code, isPermanent, present, newToken)
    {
      if present {
        var data := TokenData(code, isPermanent);
        inviteTokens := inviteTokens[newToken := data];
        FileToken(code, newToken);
        issued := issued[newToken := data];
      }
      procs := procs[t := Finished];
    }

    // ----- joining -----

    method ReleaseLock(t: Tid, args: JoinArgs, success: bool)
      modifies this`joinLocks, this`procs
      ensures View() == Release(old(View()), t, args, success)
    {
      joinLocks := joinLocks - {args.code};
      procs := procs[t := Join(args, Done(success))];
    }

    ghost method SuspendAt(t: Tid, args: JoinArgs, pc: JoinPc)
      modifies this`procs
      ensures View() == Suspend(old(View()), t, args, pc)
    {
      procs := procs[t := Join(args, pc)];
    }

    method TryEnter(t: Tid, args: JoinArgs)
      modifies this`joinLocks, this`procs
      ensures View() == EnterJoin(old(View()), t, args)
    {
      if args.code !in joinLocks {
        joinLocks := joinLocks[args.code := t];
        SuspendAt(t, args, GotRoom(GetRoom(View(), args.code)));
      }
    }

    method JoinWithRoom(t: Tid, args: JoinArgs, found: Option<Obj>, choice: Choice)
      requires found.Some? ==> found.value in heap
      modifies this
      ensures View() == AfterGetRoom(norm, old(View()), t, args, found, choice)
    {
      if found.None? {
        ReleaseLock(t, args, false);
        return;
      }
      var obj := found.value;
      var users := heap[obj].users;
      var kept := if choice.connected.None? then users
                  else KeepUsers(users, (u: User) => u.socketId in choice.connected.value);
      if |kept| != |users| {
        heap := heap[obj := heap[obj].(users := kept)];
        rooms := rooms[args.code := obj];
        SuspendAt(t, args, Cleaned(obj));
      } else {
        CheckAndAdmit(t, args, obj, choice);
      }
    }

    method CheckAndAdmit(t: Tid, args: JoinArgs, obj: Obj, choice: Choice)
      requires obj in heap
      modifies this
      ensures View() == AfterCleanup(norm, old(View()), t, args, obj, choice)
    {
      var room := heap[obj];
      if choice.expired {
        SuspendAt(t, args, Expiring);
        return;
      }
      if NicknameTaken(norm, room.users, args.nickname, args.socketId) {
        ReleaseLock(t, args, false);
        return;
      }
      var existing := FindUser(room.users, args.socketId);
      if existing < |room.users| {
        if room.users[existing].nickname == args.nickname {
          ReleaseLock(t, args, true);
        } else {
          heap := heap[obj := room.(users := room.users[existing := room.users[existing].(nickname := args.nickname)])];
          rooms := rooms[args.code := obj];
          SuspendAt(t, args, Renamed(obj));
        }
        return;
      }
      if room.maxUsers != 0 && |room.users| >= room.maxUsers {
        ReleaseLock(t, args, false);
        return;
      }
      if room.inviteOnly || args.token != "" {
        CheckInvitation(t, args, obj, choice.tokenExpired);
      } else {
        CheckPassword(t, args, obj);
      }
    }

    method CheckInvitation(t: Tid, args: JoinArgs, obj: Obj, expired: bool)
      modifies this
      ensures View() ==
        if args.token == "" then Release(old(View()), t, args, false)
        else
          var (s', v) := BeginValidate(old(View()), args.token, args.code, expired);
          Suspend(s', t, args, if v.Answer? then Validated(obj, v.valid) else Validating(obj, v.data, v.present))
    {
      if args.token == "" {
        ReleaseLock(t, args, false);
        return;
      }
      var v := StartValidateInviteToken(args.token, args.code, expired);
      SuspendAt(t, args, if v.Answer? then Validated(obj, v.valid) else Validating(obj, v.data, v.present));
    }

    method CheckPassword(t: Tid, args: JoinArgs, obj: Obj)
      requires obj in heap
      modifies this
      ensures View() == AfterInvitation(old(View()), t, args, obj)
    {
      if heap[obj].hasPassword {
        if args.password == "" {
          ReleaseLock(t, args, false);
        } else {
          SuspendAt(t, args, CheckingPassword(obj));
        }
      } else {
        AddUser(t, args, obj);
      }
    }

    method RecordParticipation(userId: string, code: Code)
      modifies this`participatedRooms
      ensures participatedRooms == Participates(old(participatedRooms), userId, code)
    {
      if userId != "" {
        if userId !in participatedRooms {
          participatedRooms := participatedRooms[userId := {}];
        }
        participatedRooms := participatedRooms[userId := participatedRooms[userId] + {code}];
      }
    }

    method AddUser(t: Tid, args: JoinArgs, obj: Obj)
      requires obj in heap
      modifies this
      ensures View() == PushUser(old(View()), t, args, obj)
    {
      heap := heap[obj := heap[obj].(users := heap[obj].users + [User(args.userId, args.socketId, args.nickname)])];
      RecordParticipation(args.userId, args.code);
      rooms := rooms[args.code := obj];
      if args.token != "" {
        admitted := admitted + multiset{args.token};
      }
      SuspendAt(t, args, Pushed(obj));
    }

    method ConsumeToken(t: Tid, args: JoinArgs, choice: Choice)
      modifies this
      ensures View() == AfterPush(old(View()), t, args, choice)
    {
      if args.token == "" {
        ReleaseLock(t, args, true);
      } else {
        var v := StartValidateInviteToken(args.token, args.code, choice.tokenExpired);
        SuspendAt(t, args, if v.Answer? then Consumed else Consuming(v.data, v.present));
      }
    }

    // ----- leaving -----

    method LeaveWithRoom(t: Tid, code: Code, socketId: Socket, found: Option<Obj>)
      requires found.Some? ==> found.value in heap
      modifies this
      ensures View() == ResumeLeave(old(View()), t, code, socketId, found)
    {
      if found.None? {
        procs := procs[t := Finished];
        return;
      }
      var obj := found.value;
      heap := heap[obj := heap[obj].(users := KeepUsers(heap[obj].users, (u: User) => u.socketId != socketId))];
      if |heap[obj].users| == 0 && !heap[obj].allowEmpty {
        procs := procs[t := Delete(code)];
      } else {
        rooms := rooms[code := obj];
        procs := procs[t := Finished];
      }
    }
  }
}
