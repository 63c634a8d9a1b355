/**
 What holds in every reachable state of two sessions and a network.
*/
module RatchetTheorems {
  import opened SymbolicCrypto
  import opened Ratchet
  import opened RatchetNetwork
  import opened RatchetHistory

  lemma InitInv(bobKey: Secret, aliceKey: Secret, bobFirst: Secret) returns (h: History)
    requires Distinct3(bobKey, aliceKey, bobFirst)
    ensures Inv(Init(bobKey, aliceKey, bobFirst), h, Alice, 0, 1)
  {
    h := History([bobKey, aliceKey], [0, 0], map[], [], {});
    assert h.keys[..1] == [bobKey] && h.keys[..1][..0] == [];
    assert RootAt(h.keys, 1) == RootKey(RootAt(h.keys, 0), {bobKey, aliceKey});
  }

  /** The invariant reads the same from both sides. */
  lemma OtherSide(w: World, h: History, who: Party, r: nat, other: nat)
    requires Inv(w, h, who, r, other)
    ensures Inv(w, h, Other(who), other, r)
  {
    PairedBack(|h.keys|, r, other);
    assert w.SessionOf(Other(Other(who))) == w.SessionOf(who);
  }

  lemma PairedBack(keyCount: nat, r: nat, other: nat)
    requires Paired(keyCount, r, other)
    ensures Paired(keyCount, other, r) && r % 2 != other % 2
  {
  }

  lemma BootFrame(h: History, alice: Session, newKey: Secret, net: set<Packet>, log: seq<Packet>)
    requires Shape(h) && |h.keys| == 2 && Fresh(h, newKey) && Shape(Booted(h, 1, newKey))
    requires Side(h, alice, 0) && NetOk(h, net) && LogOk(h, log)
    ensures var b := Booted(h, 1, newKey);
            Side(b, alice, 0) && NetOk(b, net) && LogOk(b, log)
  {
    var b := Booted(h, 1, newKey);
    forall id: MsgId
      ensures Sent(b, id) <==> Sent(h, id)
      ensures Sent(h, id) ==> PacketOf(b, id) == PacketOf(h, id)
    {
      if Sent(h, id) {
        PacketStable(h, b, id);
      }
    }
    SideStable(h, b, alice, 0);
    forall p | InNet(net, p)
      ensures exists id :: Carries(b, id, p)
    {
      var id :| Carries(h, id, p);
      assert Carries(b, id, p);
    }
  }

  /** The packets after a send on chain r + 1. */
  lemma SendPackets(h: History, g: History, r: nat, s: Session, net: set<Packet>, log: seq<Packet>,
                    plaintext: Plaintext, newKey: Secret)
    requires r + 1 < |h.keys| <= r + 3 && Appended(h, g, r + 1, plaintext) && Keyed(h, s, r) && s.sendN < U32_MAX
    requires NetOk(h, net) && LogOk(h, log)
    ensures var p := Packet(if r % 2 == 0 then Bob else Alice, Encrypt(s, plaintext, newKey).1, plaintext);
            NetOk(g, net + {p}) && LogOk(g, log + [p])
  {
    SendPacket(h, g, s, r, plaintext, newKey);
    SendNet(h, g, r + 1, plaintext, net);
    SendLog(h, g, r + 1, plaintext, log);
  }

  /** The two sessions after such a send. */
  lemma SendSides(h: History, r: nat, other: nat, s: Session, peer: Session, plaintext: Plaintext, newKey: Secret)
    requires Shape(h) && Paired(|h.keys|, r, other) && r + 1 < |h.keys| && s.sendN < U32_MAX
    requires Side(h, s, r) && Side(h, peer, other)
    ensures var g := AfterSend(h, r, plaintext, newKey);
            Appended(h, g, r + 1, plaintext) && Shape(g) && g.keys == h.keys && Later(h, g)
            && Side(g, Encrypt(s, plaintext, newKey).0, r) && Side(g, peer, other)
  {
    var g := AfterSend(h, r, plaintext, newKey);
    AfterSendAppends(h, r, plaintext, newKey);
    SendSide(h, g, s, r, plaintext, newKey);
    SendFrame(h, g, r + 1, plaintext, peer, other);
  }

  /** A send by a party whose sending chain exists. */
  lemma SendBooted(h: History, r: nat, other: nat, s: Session, peer: Session, net: set<Packet>, log: seq<Packet>,
                   plaintext: Plaintext, newKey: Secret) returns (g: History)
    requires Shape(h) && Paired(|h.keys|, r, other) && r + 1 < |h.keys| && s.sendN < U32_MAX
    requires Side(h, s, r) && Side(h, peer, other) && NetOk(h, net) && LogOk(h, log)
    ensures var (s', wire) := Encrypt(s, plaintext, newKey);
            var p := Packet(if r % 2 == 0 then Bob else Alice, wire, plaintext);
            && Shape(g) && g.keys == h.keys && Later(h, g)
            && Side(g, s', r) && Side(g, peer, other) && NetOk(g, net + {p}) && LogOk(g, log + [p])
  {
    g := AfterSend(h, r, plaintext, newKey);
    SendSides(h, r, other, s, peer, plaintext, newKey);
    SendPackets(h, g, r, s, net, log, plaintext, newKey);
  }

  /** The first encrypt of the responder is the bootstrap followed by an ordinary encrypt. */
  lemma EncryptBoots(s: Session, plaintext: Plaintext, newKey: Secret)
    requires s.sendChainKey == Zero
    ensures Encrypt(s, plaintext, newKey) == Encrypt(RatchetSendOnly(s, s.dhrRemote, newKey), plaintext, newKey)
  {
  }

  /** The first send of the responder. */
  lemma SendFirst(h: History, s: Session, peer: Session, net: set<Packet>, log: seq<Packet>,
                  plaintext: Plaintext, newKey: Secret) returns (g: History)
    requires Shape(h) && |h.keys| == 2 && Fresh(h, newKey)
    requires Side(h, s, 1) && Side(h, peer, 0) && NetOk(h, net) && LogOk(h, log)
    ensures var (s', wire) := Encrypt(s, plaintext, newKey);
            var p := Packet(Alice, wire, plaintext);
            && Shape(g) && g.keys == h.keys + [newKey] && Later(h, g)
            && Side(g, s', 1) && Side(g, peer, 0) && NetOk(g, net + {p}) && LogOk(g, log + [p])
  {
    BootSide(h, s, newKey);
    BootFrame(h, peer, newKey, net, log);
    EncryptBoots(s, plaintext, newKey);
    g := SendBooted(Booted(h, 1, newKey), 1, 0, RatchetSendOnly(s, s.dhrRemote, newKey), peer, net, log,
                    plaintext, newKey);
  }

  /** The invariant after one party has moved, given the parts. */
  lemma Assemble(w: World, h: History, g: History, who: Party, q: nat, other: nat, s': Session, net': set<Packet>,
                 log': seq<Packet>, newKey: Secret)
    requires Shape(g) && Paired(|g.keys|, q, other) && q % 2 == (if who == Alice then 0 else 1)
    requires g.keys == h.keys || g.keys == h.keys + [newKey]
    requires forall i :: 0 <= i < |h.keys| ==> h.keys[i] in w.used
    requires Side(g, s', q) && Side(g, w.SessionOf(Other(who)), other)
    requires NetOk(g, net') && LogOk(g, log')
    ensures Inv(w.With(who, s').(net := net', log := log', used := w.used + {newKey}), g, who, q, other)
  {
  }

  /** A send of either kind. */
  lemma SendParts(h: History, r: nat, other: nat, s: Session, peer: Session, net: set<Packet>, log: seq<Packet>,
                  plaintext: Plaintext, newKey: Secret) returns (g: History)
    requires Shape(h) && Paired(|h.keys|, r, other) && Fresh(h, newKey) && s.sendN < U32_MAX
    requires Side(h, s, r) && Side(h, peer, other) && NetOk(h, net) && LogOk(h, log)
    ensures var (s', wire) := Encrypt(s, plaintext, newKey);
            var p := Packet(if r % 2 == 0 then Bob else Alice, wire, plaintext);
            && Shape(g) && Paired(|g.keys|, r, other)
            && (g.keys == h.keys || g.keys == h.keys + [newKey]) && Later(h, g)
            && Side(g, s', r) && Side(g, peer, other) && NetOk(g, net + {p}) && LogOk(g, log + [p])
  {
    if r + 1 == |h.keys| {
      g := SendFirst(h, s, peer, net, log, plaintext, newKey);
    } else {
      g := SendBooted(h, r, other, s, peer, net, log, plaintext, newKey);
    }
  }

  lemma OneNewKey(h: History, g: History, newKey: Secret, used: set<Secret>)
    requires (g.keys == h.keys || g.keys == h.keys + [newKey]) && newKey !in used
    ensures NewKeys(h, g, used)
  {
  }

  /** One send keeps the invariant. */
  lemma SendInv(w: World, h: History, who: Party, r: nat, other: nat, plaintext: Plaintext, newKey: Secret)
    returns (g: History)
    requires Inv(w, h, who, r, other) && Enabled(w, Send(who, plaintext, newKey))
    ensures Inv(Step(w, Send(who, plaintext, newKey)), g, who, r, other) && Later(h, g) && NewKeys(h, g, w.used)
  {
    var s := w.SessionOf(who);
    g := SendParts(h, r, other, s, w.SessionOf(Other(who)), w.net, w.log, plaintext, newKey);
    OneNewKey(h, g, newKey, w.used);
    var (s', wire) := Encrypt(s, plaintext, newKey);
    var p := Packet(Other(who), wire, plaintext);
    Assemble(w, h, g, who, r, other, s', w.net + {p}, w.log + [p], newKey);
  }

  /**
   A delivery gives the plaintext that was encrypted exactly when the receiver accepts the header, and otherwise
   hits a limit.
  */
  predicate DeliveredRight(s: Session, p: Packet, newKey: Secret) {
    var res := Decrypt(s, p.wire, newKey).1;
    && p.wire.Frame?
    && (if Accepts(s, p.wire.header) then res == Ok(p.plaintext)
        else res.Err? && res.error in {TooManySkipped, CacheFull})
  }

  /** Everything but the receiver's session, after a delivery attempt. */
  lemma DeliverRest(h: History, g: History, r: nat, q: nat, newKey: Secret, id: MsgId, ok: bool,
                    peer: Session, other: nat, net: set<Packet>, log: seq<Packet>)
    requires AfterDelivery(h, g, r, q, newKey, id, ok) && id in h.pending && Incoming(id, r)
    requires Paired(|h.keys|, r, other) && Side(h, peer, other) && NetOk(h, net) && LogOk(h, log)
    ensures (g.keys == h.keys || g.keys == h.keys + [newKey]) && q % 2 == r % 2 && q >= r && Later(h, g)
    ensures Paired(|g.keys|, q, other) && Side(g, peer, other)
    ensures NetOk(g, if ok then net - {PacketOf(h, id)} else net) && LogOk(g, log)
  {
    DeliverFrame(h, g, r, q, newKey, id, ok, peer, other);
    DeliverNet(h, g, r, q, newKey, id, ok, net);
    DeliverLog(h, g, r, q, newKey, id, ok, log);
  }

  lemma DeliverParts(h: History, r: nat, other: nat, s: Session, peer: Session, net: set<Packet>, log: seq<Packet>,
                     id: MsgId, newKey: Secret) returns (g: History, q: nat)
    requires Shape(h) && Paired(|h.keys|, r, other) && Side(h, s, r) && Side(h, peer, other)
    requires NetOk(h, net) && LogOk(h, log) && id in h.pending && Incoming(id, r) && Fresh(h, newKey)
    ensures Sent(h, id)
    ensures var p := PacketOf(h, id);
            var (s', res) := Decrypt(s, p.wire, newKey);
            && Shape(g) && (g.keys == h.keys || g.keys == h.keys + [newKey]) && Later(h, g)
            && Paired(|g.keys|, q, other) && q % 2 == r % 2 && q >= r
            && Side(g, s', q) && Side(g, peer, other)
            && NetOk(g, if res.Ok? then net - {p} else net) && LogOk(g, log)
            && DeliveredRight(s, p, newKey)
  {
    g, q := DeliverSide(h, s, r, other, newKey, id);
    DeliverRest(h, g, r, q, newKey, id, Accepts(s, PacketOf(h, id).wire.header), peer, other, net, log);
  }

  lemma PendingOf(w: World, h: History, r: nat, other: nat, p: Packet) returns (id: MsgId)
    requires Inv(w, h, p.to, r, other) && p in w.net
    ensures id in h.pending && Sent(h, id) && PacketOf(h, id) == p && Incoming(id, r)
  {
    assert InNet(w.net, p);
    id :| Carries(h, id, p);
    assert Sent(h, id);
  }

  /** One delivery attempt keeps the invariant and ends as it should. */
  lemma DeliverInv(w: World, h: History, r: nat, other: nat, p: Packet, newKey: Secret)
    returns (g: History, q: nat)
    requires Inv(w, h, p.to, r, other) && Enabled(w, Deliver(p, newKey))
    ensures Inv(Step(w, Deliver(p, newKey)), g, p.to, q, other) && Later(h, g) && NewKeys(h, g, w.used) && q >= r
    ensures DeliveredRight(w.SessionOf(p.to), p, newKey)
  {
    var id := PendingOf(w, h, r, other, p);
    g, q := DeliverParts(h, r, other, w.SessionOf(p.to), w.SessionOf(Other(p.to)), w.net, w.log, id, newKey);
    OneNewKey(h, g, newKey, w.used);
    var (s', res) := Decrypt(w.SessionOf(p.to), p.wire, newKey);
    Assemble(w, h, g, p.to, q, other, s', if res.Ok? then w.net - {p} else w.net, w.log, newKey);
  }

  /** One step of either kind, seen from the party that moves. */
  lemma StepInv(w: World, h: History, r: nat, other: nat, e: Event) returns (g: History, q: nat)
    requires Inv(w, h, Mover(e), r, other) && Enabled(w, e)
    ensures Inv(Step(w, e), g, Mover(e), q, other) && Later(h, g) && NewKeys(h, g, w.used) && q >= r
  {
    match e
    case Send(who, plaintext, newKey) =>
      g := SendInv(w, h, who, r, other, plaintext, newKey);
      q := r;
    case Deliver(p, newKey) =>
      g, q := DeliverInv(w, h, r, other, p, newKey);
  }

  function Mover(e: Event): Party {
    if e.Send? then e.who else e.packet.to
  }

  lemma LaterYet(h: History, g1: History, g: History, used: set<Secret>, used1: set<Secret>)
    requires Later(h, g1) && Later(g1, g) && NewKeys(h, g1, used) && NewKeys(g1, g, used1) && used <= used1
    ensures Later(h, g) && NewKeys(h, g, used)
  {
  }

  lemma {:induction false} RunInv(w: World, h: History, who: Party, r: nat, other: nat, events: seq<Event>)
    returns (g: History, q: nat, o: nat)
    requires Inv(w, h, who, r, other) && IsRun(w, events)
    ensures Inv(Run(w, events), g, who, q, o)
    ensures Later(h, g) && NewKeys(h, g, w.used) && q >= r && o >= other
    decreases |events|
  {
    if events == [] {
      return h, r, other;
    }
    var e := events[0];
    if Mover(e) == who {
      g, q := StepInv(w, h, r, other, e);
      o := other;
    } else {
      OtherSide(w, h, who, r, other);
      g, o := StepInv(w, h, other, r, e);
      q := r;
      OtherSide(Step(w, e), g, Mover(e), o, q);
    }
    var g1 := g;
    g, q, o := RunInv(Step(w, e), g1, who, q, o, events[1..]);
    LaterYet(h, g1, g, w.used, Step(w, e).used);
  }

  lemma ReachableInv(w: World, who: Party) returns (h: History, r: nat, other: nat)
    requires Reachable(w)
    ensures Inv(w, h, who, r, other)
  {
    var bobKey, aliceKey, bobFirst, events :|
      && Distinct3(bobKey, aliceKey, bobFirst)
      && IsRun(Init(bobKey, aliceKey, bobFirst), events)
      && w == Run(Init(bobKey, aliceKey, bobFirst), events);
    var h0 := InitInv(bobKey, aliceKey, bobFirst);
    h, r, other := RunInv(Init(bobKey, aliceKey, bobFirst), h0, Alice, 0, 1, events);
    if who == Bob {
      OtherSide(w, h, Alice, r, other);
      r, other := other, r;
    }
  }

  // ----- the theorems -----

  /**
   Whatever the run so far, an undelivered packet decrypts to its plaintext or is refused by a limit, as Accepts
   says.
  */
  lemma SafeDelivery(w: World, p: Packet, newKey: Secret)
    requires Reachable(w) && p in w.net && newKey !in w.used
    ensures DeliveredRight(w.SessionOf(p.to), p, newKey)
  {
    var h, r, other := ReachableInv(w, p.to);
    var g, q := DeliverInv(w, h, r, other, p, newKey);
  }

  /** With a cached key there is a pending message to use it on. */
  lemma ReadyCached(h: History, s: Session, r: nat) returns (id: MsgId)
    requires Shape(h) && Side(h, s, r) && |s.skipped| > 0
    ensures id in h.pending && Incoming(id, r) && Sent(h, id)
    ensures SlotOf(h, id) in s.skipped
  {
    var slot :| slot in s.skipped;
    assert Listed(s.skipped, slot);
    id :| Explains(h, s.recvN, r, id, slot);
  }

  /** With an empty cache the oldest pending message is next in line. */
  lemma ReadyFront(h: History, s: Session, r: nat, other: nat, some: MsgId) returns (id: MsgId)
    requires Shape(h) && Paired(|h.keys|, r, other) && Side(h, s, r) && |s.skipped| == 0
    requires some in h.pending && Incoming(some, r)
    ensures id in h.pending && Incoming(id, r) && Sent(h, id)
    ensures id == MsgId(r, s.recvN) || (id == MsgId(r + 2, 0) && s.recvN == h.sent[r])
  {
    assert Sent(h, some);
    assert s.skipped == map[];
    assert !Waiting(h, s.recvN, r, some);
    id := if s.recvN < h.sent[r] then MsgId(r, s.recvN) else MsgId(r + 2, 0);
    assert Upcoming(h, s.recvN, r, id);
  }

  lemma Ready(h: History, s: Session, r: nat, other: nat, some: MsgId) returns (id: MsgId)
    requires Shape(h) && Paired(|h.keys|, r, other) && Side(h, s, r) && some in h.pending && Incoming(some, r)
    ensures id in h.pending && Incoming(id, r) && Sent(h, id)
    ensures Accepts(s, PacketOf(h, id).wire.header)
  {
    if |s.skipped| > 0 {
      id := ReadyCached(h, s, r);
    } else {
      id := ReadyFront(h, s, r, other, some);
      if id.chain == r + 2 {
        NextHeader(h, s, r, id);
      }
    }
  }

  /** A refusal never wedges a session: while anything is undelivered, something can be delivered now. */
  lemma NeverWedged(w: World, p: Packet) returns (q: Packet)
    requires Reachable(w) && p in w.net
    ensures q in w.net && q.to == p.to && q.wire.Frame? && Accepts(w.SessionOf(q.to), q.wire.header)
  {
    var h, r, other := ReachableInv(w, p.to);
    var some := PendingOf(w, h, r, other, p);
    var id := Ready(h, w.SessionOf(p.to), r, other, some);
    q := PacketOf(h, id);
  }

  // ----- a refused packet is delivered in the end -----

  /** Deliveries to one party, and nothing else. */
  predicate DeliversTo(events: seq<Event>, who: Party) {
    forall i :: 0 <= i < |events| ==> events[i].Deliver? && events[i].packet.to == who
  }

  lemma {:induction false} UnusedSecret(used: set<Secret>) returns (bound: int)
    ensures forall k :: k in used ==> k.name < bound
  {
    if used == {} {
      bound := 0;
    } else {
      var k :| k in used;
      var rest := UnusedSecret(used - {k});
      bound := if k.name < rest then rest else k.name + 1;
      forall other | other in used ensures other.name < bound {
        if other != k { assert other in used - {k}; }
      }
    }
  }

  lemma {:induction false} RunAppend(w: World, events: seq<Event>, e: Event)
    requires IsRun(w, events) && Enabled(Run(w, events), e)
    ensures IsRun(w, events + [e]) && Run(w, events + [e]) == Step(Run(w, events), e)
    decreases |events|
  {
    var all := events + [e];
    if events == [] {
      assert all[1..] == [];
    } else {
      assert all[1..] == events[1..] + [e];
      RunAppend(Step(w, events[0]), events[1..], e);
    }
  }

  lemma StepReachable(w: World, e: Event)
    requires Reachable(w) && Enabled(w, e)
    ensures Reachable(Step(w, e))
  {
    var bobKey, aliceKey, bobFirst, events :|
      && Distinct3(bobKey, aliceKey, bobFirst)
      && IsRun(Init(bobKey, aliceKey, bobFirst), events)
      && w == Run(Init(bobKey, aliceKey, bobFirst), events);
    RunAppend(Init(bobKey, aliceKey, bobFirst), events, e);
  }

  /** A packet that can be accepted leaves the network, and only that one does. */
  lemma AcceptedLeaves(w: World, q: Packet) returns (e: Event)
    requires Reachable(w) && q in w.net && q.wire.Frame? && Accepts(w.SessionOf(q.to), q.wire.header)
    ensures e.Deliver? && e.packet == q && Enabled(w, e)
    ensures Step(w, e).net == w.net - {q}
  {
    var bound := UnusedSecret(w.used);
    e := Deliver(q, Secret(bound));
    SafeDelivery(w, q, Secret(bound));
  }

  /**
   Every packet in the network, whether it is refused now or not, is delivered by some run of deliveries to
   its receiver alone, without any further message.
  */
  lemma {:induction false} EventuallyDelivered(w: World, p: Packet) returns (events: seq<Event>)
    requires Reachable(w) && p in w.net
    ensures IsRun(w, events) && DeliversTo(events, p.to) && p !in Run(w, events).net
    decreases |w.net|
  {
    var q := NeverWedged(w, p);
    var e := AcceptedLeaves(w, q);
    var w' := Step(w, e);
    if q == p {
      events := [e];
      assert events[1..] == [];
    } else {
      StepReachable(w, e);
      var rest := EventuallyDelivered(w', p);
      events := [e] + rest;
      assert events[1..] == rest;
    }
  }

  /** Every packet ever sent has its own header identity and its own message key. */
  lemma NoKeyReuse(w: World, i: nat, j: nat)
    requires Reachable(w) && i < j < |w.log|
    ensures w.log[i].wire.Frame? && w.log[j].wire.Frame?
    ensures var a, b := w.log[i].wire, w.log[j].wire;
            && (a.header.dhPublic, a.header.n) != (b.header.dhPublic, b.header.n)
            && a.body.key != b.body.key
  {
    var h, r, other := ReachableInv(w, Alice);
    NoRepeatAt(h.ids, i, j);
    PacketInjective(h, h.ids[i], h.ids[j]);
    MessageKeyInjective(h.keys, h.ids[i], h.ids[j]);
  }

  // ----- terms of the key line -----

  /** How many root derivations a key is built on. */
  function Depth(k: Key): nat {
    match k
    case Zero => 0
    case PreShared => 0
    case RootKey(rk, _) => 1 + Depth(rk)
    case ChainKey(rk, _) => 1 + Depth(rk)
    case NextChainKey(ck) => Depth(ck)
    case MessageKey(ck) => Depth(ck)
  }

  lemma {:induction false} RootDepth(keys: seq<Secret>, i: nat)
    requires i < |keys|
    ensures Depth(RootAt(keys, i)) == i
  {
    if i > 0 {
      RootDepth(keys, i - 1);
    }
  }

  lemma {:induction false} AdvanceDepth(ck: Key, n: nat)
    ensures Depth(Advance(ck, n)) == Depth(ck)
  {
    if n > 0 {
      AdvanceDepth(ck, n - 1);
    }
  }

  lemma {:induction false} AdvanceInjective(ck: Key, m: nat, n: nat)
    requires ck.ChainKey? && Advance(ck, m) == Advance(ck, n)
    ensures m == n
  {
    if m > 0 && n > 0 {
      AdvanceInjective(ck, m - 1, n - 1);
    }
  }

  lemma MessageKeyInjective(keys: seq<Secret>, a: MsgId, b: MsgId)
    requires 1 <= a.chain < |keys| && 1 <= b.chain < |keys| && a != b
    ensures MessageKeyAt(keys, a.chain, a.n) != MessageKeyAt(keys, b.chain, b.n)
  {
    AdvanceDepth(ChainAt(keys, a.chain), a.n);
    AdvanceDepth(ChainAt(keys, b.chain), b.n);
    RootDepth(keys, a.chain - 1);
    RootDepth(keys, b.chain - 1);
    if a.chain == b.chain && Advance(ChainAt(keys, a.chain), a.n) == Advance(ChainAt(keys, b.chain), b.n) {
      AdvanceInjective(ChainAt(keys, a.chain), a.n, b.n);
    }
  }

  // ----- lockstep -----

  predicate OneRootAbove(x: Key, y: Key) {
    x.RootKey? && x.rk == y
  }

  /** y receives on the chain x sends on. */
  predicate Follows(x: Session, y: Session) {
    y.dhrRemote == Pub(x.dhrKey)
  }

  /** Receiver y and sender x: on x's chain or exactly one chain behind it, never past what x has sent. */
  predicate Behind(x: Session, y: Session) {
    if Follows(x, y) then
      y.recvN <= x.sendN && x.sendChainKey == Advance(y.recvChainKey, x.sendN - y.recvN)
    else if x.sendChainKey == Zero then
      x.sendN == 0 && y.recvN == 0
    else
      y.recvN <= x.prevSendN
  }

  predicate InLockstep(a: Session, b: Session) {
    && (Follows(a, b) <==> !Follows(b, a))
    && (a.rootKey == b.rootKey || OneRootAbove(a.rootKey, b.rootKey) || OneRootAbove(b.rootKey, a.rootKey))
    && Behind(a, b) && Behind(b, a)
    && a.sendingChainKey == a.sendChainKey && b.sendingChainKey == b.sendChainKey
  }

  lemma {:induction false} AdvanceAdds(ck: Key, m: nat, n: nat)
    ensures Advance(Advance(ck, m), n) == Advance(ck, m + n)
  {
    if n > 0 {
      AdvanceAdds(ck, m, n - 1);
    }
  }

  /** The party ahead (x, receiving on r + 1) and the one behind (y, receiving on r). */
  lemma LockstepPair(h: History, x: Session, y: Session, r: nat)
    requires Shape(h) && r + 3 == |h.keys| && Keyed(h, x, r + 1) && Keyed(h, y, r)
    ensures InLockstep(x, y) && InLockstep(y, x)
  {
    NoRepeatAt(h.keys, r, r + 2);
    assert Follows(y, x) && !Follows(x, y);
    AdvanceAdds(ChainAt(h.keys, r + 1), x.recvN, y.sendN - x.recvN);
    assert Behind(y, x) && Behind(x, y);
    assert OneRootAbove(x.rootKey, y.rootKey);
  }

  /** Before the responder's first send. */
  lemma LockstepStart(h: History, a: Session, b: Session)
    requires Shape(h) && |h.keys| == 2 && Keyed(h, a, 0) && Keyed(h, b, 1)
    ensures InLockstep(a, b)
  {
    NoRepeatAt(h.keys, 0, 1);
    AdvanceAdds(ChainAt(h.keys, 1), b.recvN, a.sendN - b.recvN);
  }

  lemma ReachableKeyed(w: World) returns (h: History, ra: nat, rb: nat)
    requires Reachable(w)
    ensures Shape(h) && Paired(|h.keys|, ra, rb) && ra % 2 == 0 && ra < |h.keys| && rb < |h.keys|
    ensures Keyed(h, w.alice, ra) && Keyed(h, w.bob, rb)
  {
    h, ra, rb := ReachableInv(w, Alice);
  }

  /** Both roots lie on one line at most one step apart, and a receiver is at most one chain behind. */
  lemma Lockstep(w: World)
    requires Reachable(w)
    ensures InLockstep(w.alice, w.bob)
  {
    var h, ra, rb := ReachableKeyed(w);
    if |h.keys| == 2 {
      LockstepStart(h, w.alice, w.bob);
    } else if ra == rb + 1 {
      LockstepPair(h, w.alice, w.bob, rb);
    } else {
      LockstepPair(h, w.bob, w.alice, ra);
    }
  }

  // ----- the cache -----

  function SlotOfPacket(p: Packet): SlotId
    requires p.wire.Frame?
  {
    SlotId(p.wire.header.dhPublic, p.wire.header.n)
  }

  /** Not gone past: still ahead on the receiver's chain, or on a chain the receiver has not reached. */
  predicate StillAhead(sender: Session, receiver: Session, header: MessageHeader) {
    if header.dhPublic == receiver.dhrRemote then header.n >= receiver.recvN
    else header.dhPublic == Pub(sender.dhrKey)
  }

  /**
   The receiver's cache, seen from the network: one entry for each packet gone past and not delivered, and no
   other.
  */
  ghost predicate CacheIsExact(w: World, who: Party) {
    var s := w.SessionOf(who);
    && |s.skipped| <= MAX_SKIPPED_TOTAL
    && (forall p :: p in w.net && p.to == who ==>
          && p.wire.Frame?
          && (SlotOfPacket(p) in s.skipped <==> !StillAhead(w.SessionOf(Other(who)), s, p.wire.header))
          && (SlotOfPacket(p) in s.skipped ==> s.skipped[SlotOfPacket(p)] == p.wire.body.key))
    && (forall slot :: Listed(s.skipped, slot) ==>
          exists p :: p in w.net && p.to == who && p.wire.Frame? && SlotOfPacket(p) == slot)
  }

  lemma AheadIsNotPassed(h: History, sender: Session, rs: nat, s: Session, r: nat, id: MsgId)
    requires Shape(h) && Side(h, s, r) && rs < |h.keys| && Keyed(h, sender, rs) && Sent(h, id) && Incoming(id, r)
    requires Paired(|h.keys|, r, rs)
    ensures StillAhead(sender, s, PacketOf(h, id).wire.header) <==> !Passed(id, r, s.recvN)
  {
    if id.chain != r {
      NoRepeatAt(h.keys, id.chain, r);
    }
    if rs + 1 < |h.keys| && id.chain != rs + 1 {
      NoRepeatAt(h.keys, id.chain, rs + 1);
    }
  }

  lemma CacheExact(w: World, who: Party)
    requires Reachable(w)
    ensures CacheIsExact(w, who)
  {
    var h, r, other := ReachableInv(w, who);
    var s := w.SessionOf(who);
    forall p | p in w.net && p.to == who
      ensures p.wire.Frame?
      ensures SlotOfPacket(p) in s.skipped <==> !StillAhead(w.SessionOf(Other(who)), s, p.wire.header)
      ensures SlotOfPacket(p) in s.skipped ==> s.skipped[SlotOfPacket(p)] == p.wire.body.key
    {
      var id := PendingOf(w, h, r, other, p);
      AheadIsNotPassed(h, w.SessionOf(Other(who)), other, s, r, id);
      if Passed(id, r, s.recvN) {
        assert Waiting(h, s.recvN, r, id);
      } else {
        NotCached(h, s.skipped, s.recvN, r, id);
      }
    }
    forall slot | Listed(s.skipped, slot)
      ensures exists p :: p in w.net && p.to == who && p.wire.Frame? && SlotOfPacket(p) == slot
    {
      var id :| Explains(h, s.recvN, r, id, slot);
      var p := PacketOf(h, id);
      assert p in w.net && p.to == who && SlotOfPacket(p) == slot;
    }
  }

  // ----- forward secrecy -----

  /** What a stolen session reveals; the zero key is public. */
  function Stolen(s: Session): set<Key> {
    {Zero, s.rootKey, s.sendChainKey, s.recvChainKey} + s.skipped.Values
  }

  /** Keys computable from known ones, every Diffie-Hellman output being granted to the thief. */
  predicate Derives(known: set<Key>, k: Key) {
    k in known ||
    match k
    case Zero => false
    case PreShared => false
    case RootKey(rk, _) => Derives(known, rk)
    case ChainKey(rk, _) => Derives(known, rk)
    case NextChainKey(ck) => Derives(known, ck)
    case MessageKey(ck) => Derives(known, ck)
  }

  /** The keys on the way from the shared secret to the key of message (j, n). */
  ghost predicate OnPath(keys: seq<Secret>, j: nat, n: nat, k: Key)
    requires 1 <= j < |keys|
  {
    || k == MessageKeyAt(keys, j, n)
    || (exists m: nat :: m <= n && k == Advance(ChainAt(keys, j), m))
    || (exists i: nat :: i < j && k == RootAt(keys, i))
  }

  lemma {:induction false} RootHidden(known: set<Key>, keys: seq<Secret>, i: nat)
    requires i < |keys| && forall m: nat :: m <= i ==> RootAt(keys, m) !in known
    ensures !Derives(known, RootAt(keys, i))
  {
    if i > 0 {
      RootHidden(known, keys, i - 1);
    }
  }

  lemma {:induction false} ChainHidden(known: set<Key>, ck: Key, n: nat)
    requires ck.ChainKey? && !Derives(known, ck.rk) && forall m: nat :: m <= n ==> Advance(ck, m) !in known
    ensures !Derives(known, Advance(ck, n))
  {
    if n > 0 {
      ChainHidden(known, ck, n - 1);
    } else {
      assert Advance(ck, 0) == ck;
    }
  }

  lemma PathHidden(known: set<Key>, keys: seq<Secret>, j: nat, n: nat)
    requires 1 <= j < |keys| && forall k :: k in known ==> !OnPath(keys, j, n, k)
    ensures !Derives(known, MessageKeyAt(keys, j, n))
  {
    forall i: nat | i <= j - 1
      ensures RootAt(keys, i) !in known
    {
      assert i < j ==> OnPath(keys, j, n, RootAt(keys, i));
    }
    RootHidden(known, keys, j - 1);
    forall m: nat | m <= n
      ensures Advance(ChainAt(keys, j), m) !in known
    {
      assert OnPath(keys, j, n, Advance(ChainAt(keys, j), m));
    }
    ChainHidden(known, ChainAt(keys, j), n);
  }

  lemma RootOffPath(keys: seq<Secret>, j: nat, n: nat, e: nat)
    requires 1 <= j < |keys| && j <= e < |keys|
    ensures !OnPath(keys, j, n, RootAt(keys, e))
  {
    forall i: nat | i < j
      ensures RootAt(keys, i) != RootAt(keys, e)
    {
      RootDepth(keys, i);
      RootDepth(keys, e);
    }
  }

  lemma ChainOffPath(keys: seq<Secret>, j: nat, n: nat, e: nat, past: nat)
    requires 1 <= j < |keys| && 1 <= e < |keys| && (e == j ==> n < past)
    ensures !OnPath(keys, j, n, Advance(ChainAt(keys, e), past))
  {
    RootDepth(keys, e - 1);
    RootDepth(keys, j - 1);
    AdvanceDepth(ChainAt(keys, e), past);
    forall m: nat | m <= n
      ensures Advance(ChainAt(keys, j), m) != Advance(ChainAt(keys, e), past)
    {
      AdvanceDepth(ChainAt(keys, j), m);
      if e == j && Advance(ChainAt(keys, j), m) == Advance(ChainAt(keys, j), past) {
        AdvanceInjective(ChainAt(keys, j), m, past);
      }
    }
  }

  /** A session that is done with a message: it has sent it, or has gone past it and holds no key for it. */
  predicate DoneWith(h: History, s: Session, r: nat, id: MsgId) {
    && !Waiting(h, s.recvN, r, id)
    && (id.chain <= r || (id.chain == r + 1 && id.n < s.sendN))
    && (id.chain == r ==> id.n < s.recvN)
  }

  lemma CacheOffPath(h: History, s: Session, r: nat, id: MsgId, slot: SlotId)
    requires Shape(h) && Side(h, s, r) && Sent(h, id) && DoneWith(h, s, r, id) && slot in s.skipped
    ensures !OnPath(h.keys, id.chain, id.n, s.skipped[slot])
  {
    assert Listed(s.skipped, slot);
    var other :| Explains(h, s.recvN, r, other, slot);
    MessageKeyInjective(h.keys, other, id);
  }

  /** A session that is done with a message holds nothing on the path to its key. */
  lemma SessionOffPath(h: History, s: Session, r: nat, id: MsgId, k: Key)
    requires Shape(h) && Side(h, s, r) && Sent(h, id) && DoneWith(h, s, r, id) && k in Stolen(s)
    ensures !OnPath(h.keys, id.chain, id.n, k)
  {
    if k == s.rootKey {
      RootOffPath(h.keys, id.chain, id.n, if r + 1 < |h.keys| then r + 1 else r);
    } else if k == s.sendChainKey && k != Zero {
      ChainOffPath(h.keys, id.chain, id.n, r + 1, s.sendN);
    } else if k == s.recvChainKey && k != Zero {
      ChainOffPath(h.keys, id.chain, id.n, r, s.recvN);
    } else if k in s.skipped.Values {
      var slot :| slot in s.skipped && s.skipped[slot] == k;
      CacheOffPath(h, s, r, id, slot);
    }
  }

  /** Both parties are done with a delivered message. */
  lemma DeliveredIsDone(h: History, s: Session, r: nat, other: nat, id: MsgId)
    requires Shape(h) && Paired(|h.keys|, r, other) && Side(h, s, r) && Sent(h, id) && id !in h.pending
    ensures DoneWith(h, s, r, id)
  {
    assert !Upcoming(h, s.recvN, r, id);
  }

  /** Once a message is delivered, stealing both sessions does not give its key. */
  lemma ForwardSecrecy(w: World, p: Packet)
    requires Reachable(w) && p in w.log && p !in w.net
    ensures p.wire.Frame?
    ensures !Derives(Stolen(w.alice) + Stolen(w.bob), p.wire.body.key)
  {
    var h, ra, rb := ReachableInv(w, Alice);
    var i :| 0 <= i < |w.log| && w.log[i] == p;
    var id := h.ids[i];
    assert PacketOf(h, id) == p && id !in h.pending;
    DeliveredIsDone(h, w.alice, ra, rb, id);
    DeliveredIsDone(h, w.bob, rb, ra, id);
    forall k | k in Stolen(w.alice) + Stolen(w.bob)
      ensures !OnPath(h.keys, id.chain, id.n, k)
    {
      if k in Stolen(w.alice) {
        SessionOffPath(h, w.alice, ra, id, k);
      } else {
        SessionOffPath(h, w.bob, rb, id, k);
      }
    }
    PathHidden(Stolen(w.alice) + Stolen(w.bob), h.keys, id.chain, id.n);
  }
}
