/**
 How a session heals after a theft: which later messages a thief of both sessions can read, when a
 Diffie-Hellman output takes one of the two secrets to compute.
*/
module RatchetHealing {
  import opened SymbolicCrypto
  import opened Ratchet
  import opened RatchetNetwork
  import opened RatchetHistory
  import opened RatchetTheorems

  /** Keys computable from known keys and secrets, all public keys being known. */
  predicate Computes(known: set<Key>, secrets: set<Secret>, k: Key) {
    k in known ||
    match k
    case Zero => false
    case PreShared => false
    case RootKey(rk, dh) => dh * secrets != {} && Computes(known, secrets, rk)
    case ChainKey(rk, dh) => dh * secrets != {} && Computes(known, secrets, rk)
    case NextChainKey(ck) => Computes(known, secrets, ck)
    case MessageKey(ck) => Computes(known, secrets, ck)
  }

  /** Every secret that went into the key is one of these. */
  predicate MadeOf(k: Key, secrets: set<Secret>) {
    match k
    case Zero => true
    case PreShared => true
    case RootKey(rk, dh) => dh <= secrets && MadeOf(rk, secrets)
    case ChainKey(rk, dh) => dh <= secrets && MadeOf(rk, secrets)
    case NextChainKey(ck) => MadeOf(ck, secrets)
    case MessageKey(ck) => MadeOf(ck, secrets)
  }

  // ----- what is stolen is made of secrets drawn before -----

  predicate Within(keys: seq<Secret>, used: set<Secret>) {
    forall i :: 0 <= i < |keys| ==> keys[i] in used
  }

  lemma {:induction false} RootMadeOf(keys: seq<Secret>, used: set<Secret>, i: nat)
    requires i < |keys| && Within(keys, used)
    ensures MadeOf(RootAt(keys, i), used)
  {
    if i > 0 { RootMadeOf(keys, used, i - 1); }
  }

  lemma {:induction false} ChainMadeOf(keys: seq<Secret>, used: set<Secret>, i: nat, n: nat)
    requires 1 <= i < |keys| && Within(keys, used)
    ensures MadeOf(Advance(ChainAt(keys, i), n), used)
  {
    if n > 0 { ChainMadeOf(keys, used, i, n - 1); } else { RootMadeOf(keys, used, i - 1); }
  }

  lemma CachedMadeOf(h: History, skipped: map<SlotId, Key>, recvN: u32, r: nat, used: set<Secret>, slot: SlotId)
    requires Shape(h) && Cached(h, skipped, recvN, r) && Within(h.keys, used) && slot in skipped
    ensures MadeOf(skipped[slot], used)
  {
    assert Listed(skipped, slot);
    var id :| Explains(h, recvN, r, id, slot);
    ChainMadeOf(h.keys, used, id.chain, id.n);
  }

  lemma StolenMadeOf(h: History, s: Session, r: nat, used: set<Secret>, k: Key)
    requires Shape(h) && Side(h, s, r) && Within(h.keys, used) && k in Stolen(s)
    ensures MadeOf(k, used)
  {
    if k == s.rootKey {
      RootMadeOf(h.keys, used, if r + 1 < |h.keys| then r + 1 else r);
    } else if k == s.sendChainKey && k != Zero {
      ChainMadeOf(h.keys, used, r + 1, s.sendN);
    } else if k == s.recvChainKey && k != Zero {
      ChainMadeOf(h.keys, used, r, s.recvN);
    } else if k in s.skipped.Values {
      var slot :| slot in s.skipped && s.skipped[slot] == k;
      CachedMadeOf(h, s.skipped, s.recvN, r, used, slot);
    }
  }

  // ----- two new secrets in a row shut the thief out -----

  /** All the thief has is made of old secrets, and from key i - 1 on the line is new. */
  ghost predicate ShutOut(known: set<Key>, secrets: set<Secret>, used: set<Secret>, keys: seq<Secret>, i: nat) {
    && secrets <= used && (forall k :: k in known ==> MadeOf(k, used))
    && 1 <= i < |keys| && keys[i - 1] !in used && keys[i] !in used
  }

  lemma {:induction false} NewChainHidden(known: set<Key>, secrets: set<Secret>, used: set<Secret>, keys: seq<Secret>,
                                          i: nat, n: nat)
    requires ShutOut(known, secrets, used, keys, i)
    ensures !MadeOf(Advance(ChainAt(keys, i), n), used) && !Computes(known, secrets, Advance(ChainAt(keys, i), n))
  {
    if n > 0 { NewChainHidden(known, secrets, used, keys, i, n - 1); }
  }

  lemma MessageHidden(known: set<Key>, secrets: set<Secret>, used: set<Secret>, keys: seq<Secret>, i: nat, n: nat)
    requires ShutOut(known, secrets, used, keys, i)
    ensures !Computes(known, secrets, MessageKeyAt(keys, i, n))
  {
    NewChainHidden(known, secrets, used, keys, i, n);
  }

  // ----- one old secret is enough for him -----

  lemma {:induction false} AdvanceComputes(known: set<Key>, secrets: set<Secret>, ck: Key, m: nat, n: nat)
    requires m <= n && Computes(known, secrets, Advance(ck, m))
    ensures Computes(known, secrets, Advance(ck, n))
  {
    if m < n { AdvanceComputes(known, secrets, ck, m, n - 1); }
  }

  // ----- the key of the next message -----

  /** The line once the sender has made sure of its sending chain, and the place of the next message on it. */
  lemma NextKeyIs(h: History, s: Session, r: nat, plaintext: Plaintext, newKey: Secret)
    returns (keys: seq<Secret>, n: nat)
    requires Shape(h) && r < |h.keys| && Keyed(h, s, r) && r + 1 <= |h.keys|
    ensures keys == (if r + 1 < |h.keys| then h.keys else h.keys + [newKey]) && r + 1 < |keys|
    ensures n == (if r + 1 < |h.keys| then s.sendN else 0)
    ensures Encrypt(s, plaintext, newKey).1.Frame?
    ensures Encrypt(s, plaintext, newKey).1.body.key == MessageKeyAt(keys, r + 1, n)
  {
    if r + 1 < |h.keys| {
      keys, n := h.keys, s.sendN;
      AdvanceDepth(ChainAt(h.keys, r + 1), s.sendN);
    } else {
      keys, n := h.keys + [newKey], 0;
      RootAtPrefix(h.keys, keys, r);
      assert {newKey, h.keys[r]} == {keys[r], keys[r + 1]};
    }
  }

  lemma {:induction false} UsedGrows(w: World, events: seq<Event>)
    requires IsRun(w, events)
    ensures w.used <= Run(w, events).used
    decreases |events|
  {
    if events != [] { UsedGrows(Step(w, events[0]), events[1..]); }
  }

  function Loot(w: World): set<Key> {
    Stolen(w.alice) + Stolen(w.bob)
  }

  lemma KnownChainComputes(known: set<Key>, secrets: set<Secret>, keys: seq<Secret>, j: nat, m: nat, n: nat)
    requires 1 <= j < |keys| && Advance(ChainAt(keys, j), m) in known && m <= n
    ensures Computes(known, secrets, MessageKeyAt(keys, j, n))
  {
    AdvanceComputes(known, secrets, ChainAt(keys, j), m, n);
  }

  lemma KnownRootComputes(known: set<Key>, secrets: set<Secret>, keys: seq<Secret>, j: nat, n: nat)
    requires 1 <= j < |keys| && RootAt(keys, j - 1) in known && keys[j - 1] in secrets
    ensures Computes(known, secrets, MessageKeyAt(keys, j, n))
  {
    assert keys[j - 1] in {keys[j - 1], keys[j]} * secrets;
    assert Computes(known, secrets, Advance(ChainAt(keys, j), 0));
    AdvanceComputes(known, secrets, ChainAt(keys, j), 0, n);
  }

  /** On an old chain the party has been all along. */
  lemma SameChain(keyCount: nat, r0: nat, o0: nat, r: nat)
    requires Paired(keyCount, r0, o0) && r0 <= r && r % 2 == r0 % 2 && r + 1 < keyCount
    ensures r == r0
  {
  }

  /** What the thief has of chain r + 1: where it stood at m, or the root it starts from and one of its two secrets. */
  predicate HasStart(known: set<Key>, secrets: set<Secret>, keys: seq<Secret>, r: nat, m: nat)
    requires r < |keys|
  {
    if r + 1 < |keys| then Advance(ChainAt(keys, r + 1), m) in known
    else RootAt(keys, r) in known && keys[r] in secrets
  }

  /** The sending chain of a party is stolen where it stands. */
  lemma OwnChainStolen(w: World, h: History, who: Party, r: nat, other: nat, secrets: set<Secret>)
    requires Inv(w, h, who, r, other) && r + 1 < |h.keys|
    ensures HasStart(Loot(w), secrets, h.keys, r, h.sent[r + 1])
  {
    var s := w.SessionOf(who);
    assert s.sendChainKey == Advance(ChainAt(h.keys, r + 1), h.sent[r + 1]) && s.sendChainKey in Stolen(s);
  }

  /** The party ahead has the newest root and the newest secret of the line. */
  lemma NewestStolen(w: World, h: History, who: Party, r0: nat, o0: nat, r: nat, secrets: set<Secret>)
    requires Inv(w, h, who, r0, o0) && r + 1 == |h.keys| && {w.alice.dhrKey, w.bob.dhrKey} <= secrets
    ensures HasStart(Loot(w), secrets, h.keys, r, 0)
  {
    var x := if r0 + 2 == |h.keys| then w.SessionOf(who) else w.SessionOf(Other(who));
    assert x.rootKey == RootAt(h.keys, r) && x.dhrKey == h.keys[r];
    assert x.rootKey in Stolen(x);
  }

  lemma ThiefHasStart(w: World, h: History, who: Party, r0: nat, o0: nat, r: nat, secrets: set<Secret>) returns (m: nat)
    requires Inv(w, h, who, r0, o0) && r0 <= r < |h.keys| && r % 2 == r0 % 2
    requires {w.alice.dhrKey, w.bob.dhrKey} <= secrets
    ensures HasStart(Loot(w), secrets, h.keys, r, m) && (r + 1 < |h.keys| ==> m == h.sent[r + 1])
  {
    if r + 1 < |h.keys| {
      SameChain(|h.keys|, r0, o0, r);
      OwnChainStolen(w, h, who, r, o0, secrets);
      m := h.sent[r + 1];
    } else {
      NewestStolen(w, h, who, r0, o0, r, secrets);
      m := 0;
    }
  }

  /** A sender that still receives on a key drawn before the theft sends what the thief can read. */
  lemma StartComputes(known: set<Key>, secrets: set<Secret>, keys0: seq<Secret>, keys: seq<Secret>, r: nat, m: nat,
                      n: nat)
    requires keys0 <= keys && r < |keys0| && r + 1 < |keys| && HasStart(known, secrets, keys0, r, m)
    requires r + 1 < |keys0| ==> m <= n
    ensures Computes(known, secrets, MessageKeyAt(keys, r + 1, n))
  {
    if r + 1 < |keys0| {
      ChainAtPrefix(keys0, keys);
      KnownChainComputes(known, secrets, keys, r + 1, m, n);
    } else {
      RootAtPrefix(keys0, keys, r);
      KnownRootComputes(known, secrets, keys, r + 1, n);
    }
  }

  lemma LootMadeOf(w: World, h: History, who: Party, r: nat, other: nat, k: Key)
    requires Inv(w, h, who, r, other) && k in Loot(w)
    ensures MadeOf(k, w.used)
  {
    if k in Stolen(w.SessionOf(who)) {
      StolenMadeOf(h, w.SessionOf(who), r, w.used, k);
    } else {
      StolenMadeOf(h, w.SessionOf(Other(who)), other, w.used, k);
    }
  }

  /** A sender that receives on a key drawn after the theft sends what the thief cannot read. */
  lemma NewKeyHides(w0: World, h0: History, who: Party, r0: nat, o0: nat, r: nat, secrets: set<Secret>,
                    keys: seq<Secret>, n: nat)
    requires Inv(w0, h0, who, r0, o0) && secrets <= w0.used
    requires r + 1 < |keys| && keys[r] !in w0.used && keys[r + 1] !in w0.used
    ensures !Computes(Loot(w0), secrets, MessageKeyAt(keys, r + 1, n))
  {
    forall k | k in Loot(w0) ensures MadeOf(k, w0.used) {
      LootMadeOf(w0, h0, who, r0, o0, k);
    }
    MessageHidden(Loot(w0), secrets, w0.used, keys, r + 1, n);
  }

  lemma LineExtends(h0: History, h1: History, keys: seq<Secret>, newKey: Secret, used: set<Secret>)
    requires Later(h0, h1) && NewKeys(h0, h1, used) && newKey !in used
    requires keys == h1.keys || keys == h1.keys + [newKey]
    ensures h0.keys <= keys && forall i :: |h0.keys| <= i < |keys| ==> keys[i] !in used
  {
  }

  lemma RunKeyed(w0: World, h0: History, who: Party, r0: nat, o0: nat, events: seq<Event>)
    returns (h1: History, r: nat)
    requires Inv(w0, h0, who, r0, o0) && IsRun(w0, events)
    ensures Shape(h1) && Later(h0, h1) && NewKeys(h0, h1, w0.used)
    ensures r0 <= r < |h1.keys| && r % 2 == r0 % 2 && Keyed(h1, Run(w0, events).SessionOf(who), r)
  {
    var q, o;
    h1, q, o := RunInv(w0, h0, who, r0, o0, events);
    r := q;
  }

  /** Where the sender stands after the run, and the key of what it sends next. */
  lemma NextMessage(h0: History, h1: History, s: Session, r: nat, used: set<Secret>, plaintext: Plaintext,
                    newKey: Secret)
    returns (keys: seq<Secret>, n: nat)
    requires Shape(h0) && Shape(h1) && Later(h0, h1) && NewKeys(h0, h1, used) && newKey !in used
    requires r < |h1.keys| && Keyed(h1, s, r)
    ensures h0.keys <= keys && r + 1 < |keys| && s.dhrRemote == Pub(keys[r])
    ensures forall i :: |h0.keys| <= i < |keys| ==> keys[i] !in used
    ensures r + 1 < |h0.keys| ==> n >= h0.sent[r + 1]
    ensures Encrypt(s, plaintext, newKey).1.Frame?
    ensures Encrypt(s, plaintext, newKey).1.body.key == MessageKeyAt(keys, r + 1, n)
  {
    keys, n := NextKeyIs(h1, s, r, plaintext, newKey);
    LineExtends(h0, h1, keys, newKey, used);
  }

  /**
   Both sessions are stolen, and the parties go on. With the secrets in the two sessions, or with every secret
   drawn so far, the thief can compute the key of a message sent later exactly when its sender has not yet
   received a ratchet key drawn after the theft.
  */
  lemma HealsIff(w0: World, events: seq<Event>, who: Party, plaintext: Plaintext, newKey: Secret, secrets: set<Secret>)
    requires Reachable(w0) && IsRun(w0, events) && Enabled(Run(w0, events), Send(who, plaintext, newKey))
    requires {w0.alice.dhrKey, w0.bob.dhrKey} <= secrets <= w0.used
    ensures var s := Run(w0, events).SessionOf(who);
            var wire := Encrypt(s, plaintext, newKey).1;
            && wire.Frame?
            && (Computes(Loot(w0), secrets, wire.body.key) <==> s.dhrRemote.secret in w0.used)
  {
    var h0, r0, o0 := ReachableInv(w0, who);
    var h1, r := RunKeyed(w0, h0, who, r0, o0, events);
    UsedGrows(w0, events);
    var keys, n := NextMessage(h0, h1, Run(w0, events).SessionOf(who), r, w0.used, plaintext, newKey);
    if r < |h0.keys| {
      assert keys[r] == h0.keys[r];
      var m := ThiefHasStart(w0, h0, who, r0, o0, r, secrets);
      StartComputes(Loot(w0), secrets, h0.keys, keys, r, m, n);
    } else {
      NewKeyHides(w0, h0, who, r0, o0, r, secrets, keys, n);
    }
  }

  // ----- the secrets in the sessions have been drawn -----

  lemma {:induction false} SkipKeepsKey(s: Session, until: u32)
    ensures SkipLoop(s, until).0.dhrKey == s.dhrKey
    decreases until - s.recvN
  {
    if s.recvN < until && |s.skipped| < MAX_SKIPPED_TOTAL { SkipKeepsKey(SkipOne(s), until); }
  }

  lemma AheadKeepsKey(s: Session, header: MessageHeader, body: Sealed)
    ensures ReceiveAhead(s, header, body).0.dhrKey == s.dhrKey
  {
    SkipKeepsKey(s, header.n);
  }

  lemma DecryptDraws(s: Session, wire: Wire, newKey: Secret)
    ensures Decrypt(s, wire, newKey).0.dhrKey in {s.dhrKey, newKey}
  {
    if wire.Frame? {
      var header, body := wire.header, wire.body;
      AheadKeepsKey(s, header, body);
      SkipKeepsKey(s, header.pn);
      AheadKeepsKey(DhRatchet(SkipMessageKeys(s, header.pn).0, header.dhPublic, newKey), header, body);
    }
  }

  lemma {:induction false} RunDraws(w: World, events: seq<Event>)
    requires IsRun(w, events) && w.alice.dhrKey in w.used && w.bob.dhrKey in w.used
    ensures var w' := Run(w, events); w'.alice.dhrKey in w'.used && w'.bob.dhrKey in w'.used
    decreases |events|
  {
    if events != [] {
      var e := events[0];
      if e.Deliver? { DecryptDraws(w.SessionOf(e.packet.to), e.packet.wire, e.newKey); }
      RunDraws(Step(w, e), events[1..]);
    }
  }

  /** So a thief with the secrets in the two sessions is one of those of whom the theorem speaks. */
  lemma SecretsWereDrawn(w: World)
    requires Reachable(w)
    ensures {w.alice.dhrKey, w.bob.dhrKey} <= w.used
  {
    var bobKey, aliceKey, bobFirst, events :|
      && Distinct3(bobKey, aliceKey, bobFirst)
      && IsRun(Init(bobKey, aliceKey, bobFirst), events)
      && w == Run(Init(bobKey, aliceKey, bobFirst), events);
    RunDraws(Init(bobKey, aliceKey, bobFirst), events);
  }

  /** One message each way suffices: from the start, the initiator has healed once the responder's first has arrived. */
  lemma HealsAtOnce(bobKey: Secret, aliceKey: Secret, bobFirst: Secret, k: Secret, k': Secret, text: Plaintext)
    returns (events: seq<Event>)
    requires Distinct3(bobKey, aliceKey, bobFirst) && k != k' && {k, k'} !! {bobKey, aliceKey, bobFirst}
    ensures var w0 := Init(bobKey, aliceKey, bobFirst);
            && Reachable(w0) && IsRun(w0, events) && |events| == 2
            && Run(w0, events).alice.dhrRemote == Pub(k) && k !in w0.used
  {
    var w0 := Init(bobKey, aliceKey, bobFirst);
    assert IsRun(w0, []) && Run(w0, []) == w0;
    var send := Send(Bob, text, k);
    var w1 := Step(w0, send);
    var wire := Encrypt(w0.bob, text, k).1;
    var p := Packet(Alice, wire, text);
    assert p in w1.net && w1.alice == w0.alice;
    var deliver := Deliver(p, k');
    ReceivesNewKey(w1.alice, wire, k');
    events := [send, deliver];
    TwoSteps(w0, send, deliver);
    assert Step(w1, deliver).alice == Decrypt(w1.alice, wire, k').0;
  }

  lemma TwoSteps(w: World, e: Event, e': Event)
    requires Enabled(w, e) && Enabled(Step(w, e), e')
    ensures IsRun(w, [e, e']) && Run(w, [e, e']) == Step(Step(w, e), e')
  {
    var w1, w2 := Step(w, e), Step(Step(w, e), e');
    assert [e, e'][1..] == [e'] && [e'][1..] == [];
    assert IsRun(w2, []) && Run(w2, []) == w2;
    assert IsRun(w1, [e']) && Run(w1, [e']) == w2;
  }

  lemma ReceivesNewKey(s: Session, wire: Wire, newKey: Secret)
    requires wire.Frame? && wire.header.dhPublic != s.dhrRemote && s.skipped == map[]
    requires wire.header.pn == wire.header.n == s.recvN == 0
    ensures Decrypt(s, wire, newKey).0.dhrRemote == wire.header.dhPublic
  {
  }
}
