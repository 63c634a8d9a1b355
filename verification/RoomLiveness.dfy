/**
 That the lock of a room is always let go: how far a join inside the critical section is from its end, whatever
 happens in between.
*/
module RoomLiveness {
  import opened RoomManager
  import opened RoomSafety
  import opened Wrappers

  // ----- the lock is let go -----

  function Rank(pc: JoinPc): (r: nat) {
    match pc
    case Waiting => 9
    case GotRoom(_) => 8
    case Cleaned(_) => 7
    case Validating(_, _, _) => 6
    case Validated(_, _) => 5
    case CheckingPassword(_) => 4
    case Pushed(_) => 3
    case Consuming(_, _) => 2
    case Expiring => 2
    case Consumed => 1
    case Expired => 1
    case Renamed(_) => 1
    case Done(_) => 0
  }

  /** Nothing but where this call stands has changed among the calls, and no token has been issued. */
  predicate MovesOnly(s: State, s': State, t: Tid) {
    t in s'.procs && s'.procs == s.procs[t := s'.procs[t]] && s'.issued == s.issued
  }

  /** From s the join has got further than rank `r`, and has let the lock go if it is done; no other call has moved. */
  predicate Within(s: State, s': State, t: Tid, args: JoinArgs, r: nat) {
    && MovesOnly(s, s', t) && s'.procs[t].Join? && s'.procs[t].args == args && Rank(s'.procs[t].pc) < r
    && (s'.procs[t].pc.Done? ==> args.code !in s'.joinLocks)
  }

  /** The tables of calls and of issued tokens are those of s. */
  predicate SameCalls(s: State, s': State) {
    s'.procs == s.procs && s'.issued == s.issued
  }

  lemma SuspendProgresses(s: State, s1: State, t: Tid, args: JoinArgs, pc: JoinPc, r: nat)
    requires SameCalls(s, s1) && !pc.Done? && Rank(pc) < r
    ensures Within(s, Suspend(s1, t, args, pc), t, args, r)
  {
  }

  lemma ReleaseProgresses(s: State, t: Tid, args: JoinArgs, success: bool, r: nat)
    requires 0 < r
    ensures Within(s, Release(s, t, args, success), t, args, r)
  {
  }

  lemma DropMovesNobody(s: State, token: Token, code: Code)
    ensures SameCalls(s, DropToken(s, token, code))
  {
  }

  lemma ValidationMovesNobody(s: State, token: Token, code: Code, expired: bool)
    ensures SameCalls(s, BeginValidate(s, token, code, expired).0)
  {
    if token in s.inviteTokens { DropMovesNobody(s, token, s.inviteTokens[token].roomCode); }
  }

  lemma AnswerMovesNobody(s: State, token: Token, data: TokenData, present: bool, consume: bool)
    ensures SameCalls(s, EndValidate(s, token, data, present, consume).0)
  {
    DropMovesNobody(s, token, data.roomCode);
  }

  lemma PushProgresses(s: State, t: Tid, args: JoinArgs, obj: Obj)
    requires obj in s.heap
    ensures Within(s, PushUser(s, t, args, obj), t, args, 4)
  {
  }

  lemma InvitationProgresses(s: State, t: Tid, args: JoinArgs, obj: Obj)
    requires obj in s.heap
    ensures Within(s, AfterInvitation(s, t, args, obj), t, args, 5)
  {
    if !s.heap[obj].hasPassword {
      PushProgresses(s, t, args, obj);
    } else if args.password == "" {
      ReleaseProgresses(s, t, args, false, 5);
    } else {
      SuspendProgresses(s, s, t, args, CheckingPassword(obj), 5);
    }
  }

  lemma CleanupProgresses(norm: Norm, s: State, t: Tid, args: JoinArgs, obj: Obj, choice: Choice)
    requires obj in s.heap
    ensures Within(s, AfterCleanup(norm, s, t, args, obj, choice), t, args, 7)
  {
    var room := s.heap[obj];
    var i := FindUser(room.users, args.socketId);
    if choice.expired {
      SuspendProgresses(s, s, t, args, Expiring, 7);
    } else if NicknameTaken(norm, room.users, args.nickname, args.socketId) {
      ReleaseProgresses(s, t, args, false, 7);
    } else if i < |room.users| {
      if room.users[i].nickname == args.nickname {
        ReleaseProgresses(s, t, args, true, 7);
      } else {
        var renamed := room.users[i := room.users[i].(nickname := args.nickname)];
        SuspendProgresses(s, SaveRoom(SetUsers(s, obj, renamed), args.code, obj), t, args, Renamed(obj), 7);
      }
    } else if room.maxUsers != 0 && |room.users| >= room.maxUsers {
      ReleaseProgresses(s, t, args, false, 7);
    } else if room.inviteOnly || args.token != "" {
      if args.token == "" {
        ReleaseProgresses(s, t, args, false, 7);
      } else {
        var (s', v) := BeginValidate(s, args.token, args.code, choice.tokenExpired);
        var pc := if v.Answer? then Validated(obj, v.valid) else Validating(obj, v.data, v.present);
        ValidationMovesNobody(s, args.token, args.code, choice.tokenExpired);
        SuspendProgresses(s, s', t, args, pc, 7);
      }
    } else {
      InvitationProgresses(s, t, args, obj);
    }
  }

  lemma GetRoomProgresses(norm: Norm, s: State, t: Tid, args: JoinArgs, found: Option<Obj>, choice: Choice)
    requires found.Some? ==> found.value in s.heap
    ensures Within(s, AfterGetRoom(norm, s, t, args, found, choice), t, args, 8)
  {
    if found.None? {
      ReleaseProgresses(s, t, args, false, 8);
    } else {
      var obj := found.value;
      var users := s.heap[obj].users;
      var kept := if choice.connected.None? then users
                  else KeepUsers(users, (u: User) => u.socketId in choice.connected.value);
      if |kept| != |users| {
        SuspendProgresses(s, SaveRoom(SetUsers(s, obj, kept), args.code, obj), t, args, Cleaned(obj), 8);
      } else {
        CleanupProgresses(norm, s, t, args, obj, choice);
      }
    }
  }

  lemma PushedProgresses(s: State, t: Tid, args: JoinArgs, choice: Choice)
    ensures Within(s, AfterPush(s, t, args, choice), t, args, 3)
  {
    if args.token == "" {
      ReleaseProgresses(s, t, args, true, 3);
    } else {
      var (s', v) := BeginValidate(s, args.token, args.code, choice.tokenExpired);
      ValidationMovesNobody(s, args.token, args.code, choice.tokenExpired);
      SuspendProgresses(s, s', t, args, if v.Answer? then Consumed else Consuming(v.data, v.present), 3);
    }
  }

  lemma EarlyProgresses(norm: Norm, s: State, t: Tid, args: JoinArgs, pc: JoinPc, choice: Choice)
    requires RefsOk(s, pc) && pc != Waiting && Rank(pc) >= 4
    ensures Within(s, ResumeJoin(norm, s, t, args, pc, choice), t, args, Rank(pc))
  {
    match pc
    case GotRoom(found) => GetRoomProgresses(norm, s, t, args, found, choice);
    case Cleaned(obj) => CleanupProgresses(norm, s, t, args, obj, choice);
    case Validating(obj, data, present) =>
      var (s', valid) := EndValidate(s, args.token, data, present, false);
      AnswerMovesNobody(s, args.token, data, present, false);
      SuspendProgresses(s, s', t, args, Validated(obj, valid), 6);
    case Validated(obj, valid) =>
      if valid { InvitationProgresses(s, t, args, obj); } else { ReleaseProgresses(s, t, args, false, 5); }
    case CheckingPassword(obj) =>
      if choice.passwordOk { PushProgresses(s, t, args, obj); } else { ReleaseProgresses(s, t, args, false, 4); }
  }

  lemma LateProgresses(norm: Norm, s: State, t: Tid, args: JoinArgs, pc: JoinPc, choice: Choice)
    requires RefsOk(s, pc) && 1 <= Rank(pc) < 4
    ensures Within(s, ResumeJoin(norm, s, t, args, pc, choice), t, args, Rank(pc))
  {
    match pc
    case Expiring => SuspendProgresses(s, DeleteRoom(s, args.code), t, args, Expired, 2);
    case Expired => ReleaseProgresses(s, t, args, false, 1);
    case Renamed(_) => ReleaseProgresses(s, t, args, true, 1);
    case Pushed(obj) => PushedProgresses(s, t, args, choice);
    case Consuming(data, present) =>
      AnswerMovesNobody(s, args.token, data, present, true);
      SuspendProgresses(s, EndValidate(s, args.token, data, present, true).0, t, args, Consumed, 2);
    case Consumed => ReleaseProgresses(s, t, args, true, 1);
  }

  lemma JoinProgresses(norm: Norm, s: State, t: Tid, args: JoinArgs, pc: JoinPc, choice: Choice)
    requires RefsOk(s, pc) && pc != Waiting && !pc.Done?
    ensures Within(s, ResumeJoin(norm, s, t, args, pc, choice), t, args, Rank(pc))
  {
    if Rank(pc) >= 4 {
      EarlyProgresses(norm, s, t, args, pc, choice);
    } else {
      LateProgresses(norm, s, t, args, pc, choice);
    }
  }

  /** Every resumption brings a join in the critical section nearer its end, and the end frees the lock. */
  lemma ResumeProgresses(norm: Norm, s: State, t: Tid, choice: Choice)
    requires Enabled(s, Resume(t, choice)) && InCritical(s.procs[t])
    ensures var s' := Step(norm, s, Resume(t, choice));
            && t in s'.procs && s'.procs[t].Join? && s'.procs[t].args == s.procs[t].args
            && Rank(s'.procs[t].pc) < Rank(s.procs[t].pc)
            && (s'.procs[t].pc.Done? ==> s.procs[t].args.code !in s'.joinLocks)
            && MovesOnly(s, s', t)
  {
    JoinProgresses(norm, s, t, s.procs[t].args, s.procs[t].pc, choice);
    assert Step(norm, s, Resume(t, choice)) == ResumeJoin(norm, s, t, s.procs[t].args, s.procs[t].pc, choice);
  }

  // ----- over whole runs -----

  /** The call is where it was. */
  predicate Untouched(s: State, s': State, t: Tid) {
    t in s.procs ==> t in s'.procs && s'.procs[t] == s.procs[t]
  }

  lemma JoinTouches(norm: Norm, s: State, u: Tid, args: JoinArgs, pc: JoinPc, choice: Choice, t: Tid)
    requires RefsOk(s, pc) && u != t
    ensures Untouched(s, ResumeJoin(norm, s, u, args, pc, choice), t)
  {
    if pc != Waiting && !pc.Done? { JoinProgresses(norm, s, u, args, pc, choice); }
  }

  lemma LeaveTouches(s: State, u: Tid, code: Code, socketId: Socket, found: Option<Obj>, t: Tid)
    requires (found.Some? ==> found.value in s.heap) && u != t
    ensures Untouched(s, ResumeLeave(s, u, code, socketId, found), t)
  {
  }

  lemma GenerateTouches(s: State, u: Tid, code: Code, isPermanent: bool, present: bool, newToken: Token, t: Tid)
    requires u != t
    ensures Untouched(s, ResumeGenerate(s, u, code, isPermanent, present, newToken), t)
  {
  }

  lemma ResumeTouches(norm: Norm, s: State, u: Tid, choice: Choice, t: Tid)
    requires u in s.procs && ProcRefsOk(s, s.procs[u]) && u != t
    ensures Untouched(s, ResumeProc(norm, s, u, choice), t)
  {
    match s.procs[u]
    case Join(args, pc) => JoinTouches(norm, s, u, args, pc, choice, t);
    case Leave(code, socketId, found) => LeaveTouches(s, u, code, socketId, found, t);
    case Delete(_) =>
    case Validate(token, data, present) => AnswerMovesNobody(s, token, data, present, false);
    case Generate(code, isPermanent, present) => GenerateTouches(s, u, code, isPermanent, present, choice.newToken, t);
    case Finished =>
  }

  /** Only its own resumption moves a call. */
  lemma StepTouches(norm: Norm, s: State, e: Event, t: Tid)
    requires Enabled(s, e) && !(e.Resume? && e.t == t)
    ensures Untouched(s, Step(norm, s, e), t)
  {
    match e
    case Resume(u, choice) => ResumeTouches(norm, s, u, choice, t);
    case StartValidate(u, token, code, tokenExpired) => ValidationMovesNobody(s, token, code, tokenExpired);
    case _ =>
  }

  /** How often a call is resumed. */
  function Resumptions(events: seq<Event>, t: Tid): nat {
    if events == [] then 0
    else (if events[0].Resume? && events[0].t == t then 1 else 0) + Resumptions(events[1..], t)
  }

  /** At some point of the run, its start and end included, the call does not hold the lock. */
  predicate LetsGo(norm: Norm, s: State, events: seq<Event>, t: Tid, code: Code)
    requires IsRun(norm, s, events)
    decreases |events|
  {
    !Holds(s.joinLocks, t, code) || (events != [] && LetsGo(norm, Step(norm, s, events[0]), events[1..], t, code))
  }

  lemma HolderIsCritical(s: State, t: Tid, code: Code)
    requires LocksOk(s.joinLocks, s.procs) && Holds(s.joinLocks, t, code)
    ensures t in s.procs && InCritical(s.procs[t]) && s.procs[t].args.code == code && Rank(s.procs[t].pc) <= 8
  {
  }

  lemma {:induction false} HolderLetsGoWithin(norm: Norm, s: State, events: seq<Event>, t: Tid, code: Code)
    requires Inv(norm, s) && IsRun(norm, s, events)
    requires t in s.procs && s.procs[t].Join? && Resumptions(events, t) >= Rank(s.procs[t].pc)
    ensures LetsGo(norm, s, events, t, code)
    decreases |events|
  {
    if Holds(s.joinLocks, t, code) {
      HolderIsCritical(s, t, code);
      var e := events[0];
      StepKeeps(norm, s, e);
      if e.Resume? && e.t == t {
        ResumeProgresses(norm, s, t, e.choice);
      } else {
        StepTouches(norm, s, e, t);
      }
      HolderLetsGoWithin(norm, Step(norm, s, e), events[1..], t, code);
    }
  }

  /**
   Whatever else runs in between and in whatever order, a call that holds a room's lock has let it go by its
   eighth resumption.
  */
  lemma HolderLetsGo(norm: Norm, s: State, events: seq<Event>, t: Tid, code: Code)
    requires Reachable(norm, s) && IsRun(norm, s, events) && Resumptions(events, t) >= 8
    ensures LetsGo(norm, s, events, t, code)
  {
    ReachableInv(norm, s);
    if Holds(s.joinLocks, t, code) {
      HolderIsCritical(s, t, code);
      HolderLetsGoWithin(norm, s, events, t, code);
    }
  }

  // ----- and it can do so alone -----

  lemma {:induction false} HolderFinishes(norm: Norm, s: State, t: Tid, code: Code, choice: Choice)
    returns (events: seq<Event>)
    requires Inv(norm, s) && Holds(s.joinLocks, t, code)
    requires choice.newToken !in s.issued && |choice.newToken| >= MIN_TOKEN_LENGTH
    ensures IsRun(norm, s, events) && code !in Run(norm, s, events).joinLocks
    ensures |events| <= Rank(s.procs[t].pc) <= 8 && forall i :: 0 <= i < |events| ==> events[i] == Resume(t, choice)
    decreases if t in s.procs && s.procs[t].Join? then Rank(s.procs[t].pc) else 0
  {
    HolderIsCritical(s, t, code);
    assert ProcOk(norm, s, t, s.procs[t]);
    var e := Resume(t, choice);
    var s' := Step(norm, s, e);
    StepKeeps(norm, s, e);
    ResumeProgresses(norm, s, t, choice);
    if s'.procs[t].pc.Done? {
      events := [e];
      assert events[1..] == [] && Run(norm, s', []) == s';
    } else {
      assert ProcOk(norm, s', t, s'.procs[t]);
      var rest := HolderFinishes(norm, s', t, code, choice);
      events := [e] + rest;
      assert events[1..] == rest;
    }
  }

  /** From every reachable state, resuming the holder of a lock at most eight times frees it. */
  lemma LockIsFreed(norm: Norm, s: State, code: Code, choice: Choice) returns (events: seq<Event>)
    requires Reachable(norm, s) && code in s.joinLocks
    requires choice.newToken !in s.issued && |choice.newToken| >= MIN_TOKEN_LENGTH
    ensures IsRun(norm, s, events) && code !in Run(norm, s, events).joinLocks && |events| <= 8
    ensures forall i :: 0 <= i < |events| ==> events[i] == Resume(s.joinLocks[code], choice)
  {
    ReachableInv(norm, s);
    events := HolderFinishes(norm, s, s.joinLocks[code], code, choice);
  }
}
