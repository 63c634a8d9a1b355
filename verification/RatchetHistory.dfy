/**
 The history of a run, and what every operation keeps true of it.

 Ratchet keys form one line: key 0 is the responder's bundle key, key 1 the initiator's, and every
 later key is generated on top of the one before. Root i and chain i come from the line up to key i;
 chain i carries the messages of the owner of key i (the initiator for odd i, the responder for even
 i). A party that receives on chain r sends on chain r + 1.
*/
module RatchetHistory {
  import opened SymbolicCrypto
  import opened Ratchet
  import opened RatchetNetwork

  // ----- what the key line derives -----

  function RootAt(keys: seq<Secret>, i: nat): Key
    requires i < |keys|
  {
    if i == 0 then PreShared else RootKey(RootAt(keys, i - 1), {keys[i - 1], keys[i]})
  }

  function ChainAt(keys: seq<Secret>, i: nat): Key
    requires 1 <= i < |keys|
  {
    ChainKey(RootAt(keys, i - 1), {keys[i - 1], keys[i]})
  }

  function Advance(ck: Key, n: nat): Key {
    if n == 0 then ck else NextChainKey(Advance(ck, n - 1))
  }

  /** The key of message n of chain j. */
  function MessageKeyAt(keys: seq<Secret>, j: nat, n: nat): Key
    requires 1 <= j < |keys|
  {
    MessageKey(Advance(ChainAt(keys, j), n))
  }

  lemma {:induction false} RootAtPrefix(keys: seq<Secret>, more: seq<Secret>, i: nat)
    requires keys <= more && i < |keys|
    ensures RootAt(more, i) == RootAt(keys, i)
  {
    if i > 0 {
      RootAtPrefix(keys, more, i - 1);
    }
  }

  lemma ChainAtPrefix(keys: seq<Secret>, more: seq<Secret>)
    requires keys <= more
    ensures forall i :: 1 <= i < |keys| ==> ChainAt(more, i) == ChainAt(keys, i)
  {
    forall i | 1 <= i < |keys|
      ensures ChainAt(more, i) == ChainAt(keys, i)
    {
      RootAtPrefix(keys, more, i - 1);
    }
  }

  // ----- histories -----

  /** A message: its chain and its number in that chain. */
  datatype MsgId = MsgId(chain: nat, n: nat)

  datatype History = History(
    keys: seq<Secret>,
    sent: seq<nat>,              // how many messages each chain carries
    texts: map<MsgId, Plaintext>,
    ids: seq<MsgId>,             // every message, in the order of sending
    pending: set<MsgId>)         // sent and not delivered

  predicate Sent(h: History, id: MsgId) {
    1 <= id.chain < |h.sent| && id.n < h.sent[id.chain]
  }

  /** A receiver on chain r owns the incoming messages of the chains of the same parity. */
  predicate Incoming(id: MsgId, r: nat) {
    id.chain % 2 == r % 2
  }

  /** Messages that a receiver on chain r at position recvN has gone past. */
  predicate Passed(id: MsgId, r: nat, recvN: nat) {
    id.chain < r || (id.chain == r && id.n < recvN)
  }

  /**
   The two parties receive on neighbouring chains, and the last key of the line belongs to the one
   that is ahead, except at the start, when the responder has not sent yet.
  */
  predicate Paired(keyCount: nat, r: nat, other: nat) {
    && (r == other + 1 || other == r + 1)
    && (keyCount == 2 + (if r > other then r else other) || (keyCount == 2 && r <= 1 && other <= 1))
  }

  predicate NoRepeat<T(==)>(xs: seq<T>) {
    xs == [] || (xs[|xs| - 1] !in xs[..|xs| - 1] && NoRepeat(xs[..|xs| - 1]))
  }

  lemma {:induction false} NoRepeatAt<T>(xs: seq<T>, i: nat, j: nat)
    requires NoRepeat(xs) && i < |xs| && j < |xs| && i != j
    ensures xs[i] != xs[j]
  {
    var front := xs[..|xs| - 1];
    if i < |front| && j < |front| {
      NoRepeatAt(front, i, j);
    } else {
      assert xs[if i < j then i else j] in front;
    }
  }

  predicate Shape(h: History) {
    && |h.keys| == |h.sent| >= 2
    && NoRepeat(h.keys)
    && h.sent[0] == 0
    && (forall j :: 0 <= j < |h.sent| ==> h.sent[j] <= U32_MAX)
    && (forall id {:trigger id in h.pending} :: id in h.pending ==> Sent(h, id))
  }

  function SlotOf(h: History, id: MsgId): SlotId
    requires |h.keys| == |h.sent| && Sent(h, id) && id.n <= U32_MAX
  {
    SlotId(Pub(h.keys[id.chain]), id.n)
  }

  function TextOf(h: History, id: MsgId): Plaintext {
    if id in h.texts then h.texts[id] else []
  }

  function PacketOf(h: History, id: MsgId): Packet
    requires Shape(h) && Sent(h, id)
  {
    var MsgId(j, n) := id;
    var header := MessageHeader(Pub(h.keys[j]), if j >= 2 then h.sent[j - 2] else 0, n);
    Packet(if j % 2 == 1 then Bob else Alice,
           Frame(header, Seal(MessageKeyAt(h.keys, j, n), TextOf(h, id), header)),
           TextOf(h, id))
  }

  /** The root, the chains and the counters of a session receiving on chain r. */
  predicate Keyed(h: History, s: Session, r: nat)
    requires Shape(h) && r < |h.keys|
  {
    && s.dhrRemote == Pub(h.keys[r])
    && s.recvN <= h.sent[r]
    && s.recvChainKey == (if r >= 1 then Advance(ChainAt(h.keys, r), s.recvN) else Zero)
    && s.sendingChainKey == s.sendChainKey
    && if r + 1 < |h.keys| then
         && s.dhrKey == h.keys[r + 1]
         && s.rootKey == RootAt(h.keys, r + 1)
         && s.sendChainKey == Advance(ChainAt(h.keys, r + 1), s.sendN)
         && s.sendN == h.sent[r + 1]
         && s.prevSendN == if r >= 1 then h.sent[r - 1] else 0
       else
         && s.rootKey == RootAt(h.keys, r)
         && s.sendChainKey == Zero
         && s.sendN == s.prevSendN == 0
         && s.dhrKey !in h.keys
  }

  /** An incoming message gone past and still to be delivered. */
  predicate Waiting(h: History, recvN: u32, r: nat, id: MsgId) {
    id in h.pending && Incoming(id, r) && Passed(id, r, recvN)
  }

  /** An incoming message not gone past. */
  predicate Upcoming(h: History, recvN: u32, r: nat, id: MsgId) {
    Sent(h, id) && Incoming(id, r) && !Passed(id, r, recvN)
  }

  predicate Listed(skipped: map<SlotId, Key>, slot: SlotId) {
    slot in skipped
  }

  predicate Explains(h: History, recvN: u32, r: nat, id: MsgId, slot: SlotId)
    requires Shape(h)
  {
    Waiting(h, recvN, r, id) && SlotOf(h, id) == slot
  }

  /** The cache holds exactly the keys of the messages gone past and not delivered; nothing ahead is delivered. */
  ghost predicate Cached(h: History, skipped: map<SlotId, Key>, recvN: u32, r: nat)
    requires Shape(h)
  {
    && |skipped| <= MAX_SKIPPED_TOTAL
    && (forall id {:trigger Waiting(h, recvN, r, id)} :: Waiting(h, recvN, r, id) ==>
          SlotOf(h, id) in skipped && skipped[SlotOf(h, id)] == MessageKeyAt(h.keys, id.chain, id.n))
    && (forall slot :: Listed(skipped, slot) ==> exists id :: Explains(h, recvN, r, id, slot))
    && (forall id {:trigger Upcoming(h, recvN, r, id)} :: Upcoming(h, recvN, r, id) ==> id in h.pending)
  }

  ghost predicate Side(h: History, s: Session, r: nat)
    requires Shape(h)
  {
    r < |h.keys| && Keyed(h, s, r) && Cached(h, s.skipped, s.recvN, r)
  }

  predicate InNet(net: set<Packet>, p: Packet) {
    p in net
  }

  predicate Carries(h: History, id: MsgId, p: Packet)
    requires Shape(h)
  {
    id in h.pending && PacketOf(h, id) == p
  }

  /** The network holds exactly the packets of the pending messages. */
  ghost predicate NetOk(h: History, net: set<Packet>)
    requires Shape(h)
  {
    && (forall id {:trigger PacketOf(h, id)} :: id in h.pending ==> PacketOf(h, id) in net)
    && (forall p :: InNet(net, p) ==> exists id :: Carries(h, id, p))
  }

  predicate LogOk(h: History, log: seq<Packet>)
    requires Shape(h)
  {
    && |log| == |h.ids|
    && (forall i :: 0 <= i < |log| ==> Sent(h, h.ids[i]) && log[i] == PacketOf(h, h.ids[i]))
    && NoRepeat(h.ids)
  }

  /** The invariant, from the point of view of `who`, who receives on chain r and whose peer receives on `other`. */
  ghost predicate Inv(w: World, h: History, who: Party, r: nat, other: nat) {
    && Shape(h)
    && Paired(|h.keys|, r, other) && r % 2 == (if who == Alice then 0 else 1)
    && Side(h, w.SessionOf(who), r)
    && Side(h, w.SessionOf(Other(who)), other)
    && NetOk(h, w.net)
    && LogOk(h, w.log)
    && (forall i :: 0 <= i < |h.keys| ==> h.keys[i] in w.used)
  }

  /** g comes after h: the line and the chains have at most grown. */
  predicate Later(h: History, g: History) {
    h.keys <= g.keys && |h.sent| <= |g.sent| && forall j :: 0 <= j < |h.sent| ==> h.sent[j] <= g.sent[j]
  }

  /** The keys that g has over h are none of these. */
  predicate NewKeys(h: History, g: History, used: set<Secret>) {
    forall i :: |h.keys| <= i < |g.keys| ==> g.keys[i] !in used
  }

  // ----- one party moves, the other does not notice -----

  /**
   Growth of the history that leaves the incoming messages of a receiver on chain r as they are, except for new
   ones.
  */
  ghost predicate Grows(h: History, g: History, r: nat) {
    && Shape(h) && Shape(g)
    && h.keys <= g.keys && r < |h.keys|
    && (forall j :: 0 <= j < |h.sent| ==> h.sent[j] <= g.sent[j])
    && (forall j :: 0 <= j < r ==> h.sent[j] == g.sent[j])
    && (forall id :: id in g.pending && Incoming(id, r) ==>
          id in h.pending || (Sent(g, id) && !Sent(h, id)))
    && (forall id :: Sent(g, id) && Incoming(id, r) && (id in h.pending || !Sent(h, id)) ==> id in g.pending)
  }

  lemma KeyedStable(h: History, g: History, s: Session, r: nat)
    requires Grows(h, g, r) && Keyed(h, s, r)
    requires r + 1 < |h.keys| <==> r + 1 < |g.keys|
    requires r + 1 < |h.keys| ==> h.sent[r + 1] == g.sent[r + 1]
    ensures Keyed(g, s, r)
  {
    ChainAtPrefix(h.keys, g.keys);
    RootAtPrefix(h.keys, g.keys, r);
    if r + 1 < |h.keys| {
      RootAtPrefix(h.keys, g.keys, r + 1);
    }
  }

  /** Going past a message is settled: the growth of the history adds nothing behind the receiver. */
  lemma PassedStable(h: History, g: History, recvN: u32, r: nat, id: MsgId)
    requires Grows(h, g, r) && recvN <= h.sent[r]
    requires Sent(g, id) && Incoming(id, r) && Passed(id, r, recvN)
    ensures Sent(h, id) && (id in g.pending <==> id in h.pending)
    ensures SlotOf(g, id) == SlotOf(h, id)
    ensures MessageKeyAt(g.keys, id.chain, id.n) == MessageKeyAt(h.keys, id.chain, id.n)
  {
    assert id.chain < |h.sent|;
    ChainAtPrefix(h.keys, g.keys);
  }

  lemma CachedStable(h: History, g: History, skipped: map<SlotId, Key>, recvN: u32, r: nat)
    requires Grows(h, g, r) && recvN <= h.sent[r] && Cached(h, skipped, recvN, r)
    ensures Cached(g, skipped, recvN, r)
  {
    forall id | Waiting(g, recvN, r, id)
      ensures SlotOf(g, id) in skipped && skipped[SlotOf(g, id)] == MessageKeyAt(g.keys, id.chain, id.n)
    {
      PassedStable(h, g, recvN, r, id);
      assert Waiting(h, recvN, r, id);
    }
    forall id | Upcoming(g, recvN, r, id)
      ensures id in g.pending
    {
      if Sent(h, id) {
        assert Upcoming(h, recvN, r, id);
      }
    }
    forall slot | Listed(skipped, slot)
      ensures exists id :: Explains(g, recvN, r, id, slot)
    {
      var id :| Explains(h, recvN, r, id, slot);
      assert Sent(g, id);
      PassedStable(h, g, recvN, r, id);
      assert Explains(g, recvN, r, id, slot);
    }
  }

  lemma SideStable(h: History, g: History, s: Session, r: nat)
    requires Grows(h, g, r) && Side(h, s, r)
    requires r + 1 < |h.keys| <==> r + 1 < |g.keys|
    requires r + 1 < |h.keys| ==> h.sent[r + 1] == g.sent[r + 1]
    requires r >= 1 ==> h.sent[r - 1] == g.sent[r - 1]
    ensures Side(g, s, r)
  {
    KeyedStable(h, g, s, r);
    CachedStable(h, g, s.skipped, s.recvN, r);
  }

  /** Packets already sent do not change when the line or the last two chains grow. */
  lemma PacketStable(h: History, g: History, id: MsgId)
    requires Shape(h) && Shape(g) && h.keys <= g.keys && Sent(h, id) && TextOf(h, id) == TextOf(g, id)
    requires forall j :: 0 <= j < |h.sent| ==> h.sent[j] <= g.sent[j]
    requires forall j :: 0 <= j < |h.sent| - 2 ==> h.sent[j] == g.sent[j]
    ensures Sent(g, id) && PacketOf(g, id) == PacketOf(h, id)
  {
    ChainAtPrefix(h.keys, g.keys);
  }

  lemma PacketInjective(h: History, a: MsgId, b: MsgId)
    requires Shape(h) && Sent(h, a) && Sent(h, b) && a != b
    ensures PacketOf(h, a) != PacketOf(h, b)
    ensures SlotOf(h, a) != SlotOf(h, b)
  {
    if a.chain != b.chain {
      NoRepeatAt(h.keys, a.chain, b.chain);
    }
  }

  // ----- sending -----

  /** The line after a party on chain r makes sure that its sending chain exists. */
  function Booted(h: History, r: nat, newKey: Secret): History {
    if r + 1 < |h.keys| then h else h.(keys := h.keys + [newKey], sent := h.sent + [0])
  }

  function AfterSend(h: History, r: nat, plaintext: Plaintext, newKey: Secret): History
    requires Shape(h) && r < |h.keys|
  {
    var b := Booted(h, r, newKey);
    var id := MsgId(r + 1, b.sent[r + 1]);
    b.(sent := b.sent[r + 1 := b.sent[r + 1] + 1], texts := b.texts[id := plaintext], ids := b.ids + [id],
       pending := b.pending + {id})
  }

  predicate Fresh(h: History, newKey: Secret) {
    newKey !in h.keys
  }

  /** The responder's first send extends the line by the bootstrapped key. */
  lemma BootSide(h: History, s: Session, newKey: Secret)
    requires Shape(h) && Side(h, s, 1) && |h.keys| == 2 && Fresh(h, newKey)
    ensures var b := Booted(h, 1, newKey);
            Grows(h, b, 1) && Side(b, RatchetSendOnly(s, s.dhrRemote, newKey), 1)
  {
    var b := Booted(h, 1, newKey);
    assert b.keys[..2] == h.keys;
    assert forall id :: Sent(b, id) <==> Sent(h, id);
    ChainAtPrefix(h.keys, b.keys);
    RootAtPrefix(h.keys, b.keys, 1);
    assert Keyed(b, RatchetSendOnly(s, s.dhrRemote, newKey), 1);
    CachedStable(h, b, s.skipped, s.recvN, 1);
  }

  /** g is h with one more message, the last of chain e. */
  ghost predicate Appended(h: History, g: History, e: nat, plaintext: Plaintext) {
    && Shape(h) && Shape(g) && 1 <= e < |h.keys|
    && g.keys == h.keys
    && (forall j :: 0 <= j < |h.sent| ==> g.sent[j] == if j == e then h.sent[e] + 1 else h.sent[j])
    && g.texts == h.texts[MsgId(e, h.sent[e]) := plaintext]
    && g.ids == h.ids + [MsgId(e, h.sent[e])]
    && g.pending == h.pending + {MsgId(e, h.sent[e])}
  }

  lemma AfterSendAppends(h: History, r: nat, plaintext: Plaintext, newKey: Secret)
    requires Shape(h) && r + 1 < |h.keys| && h.sent[r + 1] < U32_MAX
    ensures Appended(h, AfterSend(h, r, plaintext, newKey), r + 1, plaintext)
  {
  }

  lemma AppendedGrows(h: History, g: History, e: nat, plaintext: Plaintext, r: nat)
    requires Appended(h, g, e, plaintext) && r < |h.keys| && r <= e
    ensures Grows(h, g, r)
  {
  }

  lemma SendPacket(h: History, g: History, s: Session, r: nat, plaintext: Plaintext, newKey: Secret)
    requires r + 1 < |h.keys| && Appended(h, g, r + 1, plaintext) && Keyed(h, s, r) && s.sendN < U32_MAX
    ensures var (s', wire) := Encrypt(s, plaintext, newKey);
            && Keyed(g, s', r)
            && s'.skipped == s.skipped && s'.recvN == s.recvN
            && Sent(g, MsgId(r + 1, s.sendN))
            && PacketOf(g, MsgId(r + 1, s.sendN)) == Packet(if r % 2 == 0 then Bob else Alice, wire, plaintext)
  {
  }

  lemma SendSide(h: History, g: History, s: Session, r: nat, plaintext: Plaintext, newKey: Secret)
    requires r + 1 < |h.keys| && Appended(h, g, r + 1, plaintext) && Side(h, s, r) && s.sendN < U32_MAX
    ensures Side(g, Encrypt(s, plaintext, newKey).0, r)
  {
    AppendedGrows(h, g, r + 1, plaintext, r);
    SendPacket(h, g, s, r, plaintext, newKey);
    CachedStable(h, g, s.skipped, s.recvN, r);
  }

  /** The other party, receiving one chain above or below, does not notice a send. */
  lemma SendFrame(h: History, g: History, e: nat, plaintext: Plaintext, other: Session, r: nat)
    requires Appended(h, g, e, plaintext) && Side(h, other, r) && (r == e || r + 2 == e)
    ensures Side(g, other, r)
  {
    AppendedGrows(h, g, e, plaintext, r);
    SideStable(h, g, other, r);
  }

  lemma SendNet(h: History, g: History, e: nat, plaintext: Plaintext, net: set<Packet>)
    requires Appended(h, g, e, plaintext) && NetOk(h, net) && e + 2 >= |h.keys|
    ensures Sent(g, MsgId(e, h.sent[e]))
    ensures NetOk(g, net + {PacketOf(g, MsgId(e, h.sent[e]))})
  {
    var last := MsgId(e, h.sent[e]);
    var p := PacketOf(g, last);
    forall id | id in h.pending
      ensures PacketOf(g, id) == PacketOf(h, id)
    {
      PacketStable(h, g, id);
    }
    forall q | InNet(net + {p}, q)
      ensures exists id :: Carries(g, id, q)
    {
      var id := last;
      if InNet(net, q) {
        id :| Carries(h, id, q);
      }
      assert Carries(g, id, q);
    }
  }

  lemma SendLog(h: History, g: History, e: nat, plaintext: Plaintext, log: seq<Packet>)
    requires Appended(h, g, e, plaintext) && LogOk(h, log) && e + 2 >= |h.keys|
    ensures Sent(g, MsgId(e, h.sent[e]))
    ensures LogOk(g, log + [PacketOf(g, MsgId(e, h.sent[e]))])
  {
    forall i | 0 <= i < |log|
      ensures Sent(g, h.ids[i]) && PacketOf(g, h.ids[i]) == log[i] && h.ids[i] != MsgId(e, h.sent[e])
    {
      PacketStable(h, g, h.ids[i]);
    }
  }

  // ----- receiving -----

  /** The key of an incoming message not gone past is not in the cache. */
  lemma NotCached(h: History, skipped: map<SlotId, Key>, recvN: u32, r: nat, id: MsgId)
    requires Shape(h) && Cached(h, skipped, recvN, r) && Sent(h, id) && !Passed(id, r, recvN)
    ensures SlotOf(h, id) !in skipped
  {
    if Listed(skipped, SlotOf(h, id)) {
      var i :| Explains(h, recvN, r, i, SlotOf(h, id));
      PacketInjective(h, i, id);
      assert false;
    }
  }

  lemma CacheOne(h: History, skipped: map<SlotId, Key>, recvN: u32, after: u32, r: nat)
    requires Shape(h) && 1 <= r < |h.keys| && recvN < h.sent[r] && after == recvN + 1
    requires Cached(h, skipped, recvN, r) && |skipped| < MAX_SKIPPED_TOTAL
    ensures Cached(h, skipped[SlotId(Pub(h.keys[r]), recvN) := MessageKeyAt(h.keys, r, recvN)], after, r)
  {
    var next := MsgId(r, recvN);
    var more := skipped[SlotOf(h, next) := MessageKeyAt(h.keys, r, recvN)];
    assert Upcoming(h, recvN, r, next) && Passed(next, r, after);
    forall id | Upcoming(h, after, r, id)
      ensures id in h.pending
    {
      assert Upcoming(h, recvN, r, id);
    }
    forall id | Waiting(h, after, r, id)
      ensures SlotOf(h, id) in more && more[SlotOf(h, id)] == MessageKeyAt(h.keys, id.chain, id.n)
    {
      if id != next {
        assert Waiting(h, recvN, r, id);
        PacketInjective(h, id, next);
      }
    }
    forall slot | Listed(more, slot)
      ensures exists id :: Explains(h, after, r, id, slot)
    {
      var id := next;
      if slot != SlotOf(h, next) {
        assert Listed(skipped, slot);
        id :| Explains(h, recvN, r, id, slot);
      }
      assert Explains(h, after, r, id, slot);
    }
  }

  /** Caching one key keeps the session in step with the history. */
  lemma SkipOneSide(h: History, s: Session, r: nat)
    requires Shape(h) && Side(h, s, r) && s.recvN < h.sent[r] && |s.skipped| < MAX_SKIPPED_TOTAL
    ensures Side(h, SkipOne(s), r) && |SkipOne(s).skipped| == |s.skipped| + 1
  {
    CacheOne(h, s.skipped, s.recvN, s.recvN + 1, r);
    NotCached(h, s.skipped, s.recvN, r, MsgId(r, s.recvN));
  }

  /** Whether the cache and the per-call limit allow going `gap` messages ahead. */
  predicate Room(cached: int, gap: int) {
    gap <= MAX_SKIP && cached + gap <= MAX_SKIPPED_TOTAL
  }

  /** s' is s moved ahead on its receiving chain, with every key gone past cached. */
  predicate MovedAhead(s: Session, s': Session) {
    && s' == s.(recvChainKey := s'.recvChainKey, skipped := s'.skipped, recvN := s'.recvN)
    && s.recvN <= s'.recvN
    && |s'.skipped| == |s.skipped| + (s'.recvN - s.recvN)
  }

  lemma {:induction false} SkipLoopSide(h: History, s: Session, r: nat, until: u32)
    requires Shape(h) && Side(h, s, r) && s.recvN <= until <= h.sent[r]
    ensures var (s', res) := SkipLoop(s, until);
            && Side(h, s', r) && MovedAhead(s, s')
            && (res.Ok? <==> |s.skipped| + (until - s.recvN) <= MAX_SKIPPED_TOTAL)
            && (if res.Ok? then s'.recvN == until else res.error == CacheFull)
    decreases until - s.recvN
  {
    if s.recvN < until && |s.skipped| < MAX_SKIPPED_TOTAL {
      SkipOneSide(h, s, r);
      SkipLoopSide(h, SkipOne(s), r, until);
    }
  }

  lemma SkipSide(h: History, s: Session, r: nat, until: u32)
    requires Shape(h) && Side(h, s, r) && s.recvN <= until <= h.sent[r]
    ensures var (s', res) := SkipMessageKeys(s, until);
            && Side(h, s', r) && MovedAhead(s, s')
            && (res.Ok? <==> Room(|s.skipped|, until - s.recvN))
            && (if res.Ok? then s'.recvN == until else res.error in {TooManySkipped, CacheFull})
  {
    SkipLoopSide(h, s, r, until);
  }

  function Delivered(h: History, id: MsgId): History {
    h.(pending := h.pending - {id})
  }

  lemma DeliveredShape(h: History, id: MsgId)
    requires Shape(h)
    ensures Shape(Delivered(h, id))
    ensures forall i :: Sent(Delivered(h, id), i) <==> Sent(h, i)
  {
  }

  lemma CacheNext(h: History, g: History, skipped: map<SlotId, Key>, recvN: u32, after: u32, r: nat)
    requires Shape(h) && Shape(g) && 1 <= r < |h.keys| && recvN < h.sent[r] && after == recvN + 1
    requires Cached(h, skipped, recvN, r) && g == Delivered(h, MsgId(r, recvN))
    ensures Cached(g, skipped, after, r)
  {
    forall id | Waiting(g, after, r, id)
      ensures Waiting(h, recvN, r, id)
    {
    }
    forall id | Upcoming(g, after, r, id)
      ensures id in g.pending
    {
      assert Upcoming(h, recvN, r, id);
    }
    forall slot | Listed(skipped, slot)
      ensures exists id :: Explains(g, after, r, id, slot)
    {
      var id :| Explains(h, recvN, r, id, slot);
      assert Explains(g, after, r, id, slot);
    }
  }

  /** Receiving the next message of the current chain. */
  lemma ReceiveNextSide(h: History, s: Session, r: nat)
    requires Shape(h) && Side(h, s, r) && s.recvN < h.sent[r]
    ensures var id := MsgId(r, s.recvN);
            var p := PacketOf(h, id);
            var (s', res) := ReceiveNext(s, p.wire.header, p.wire.body);
            && res == Ok(p.plaintext)
            && Shape(Delivered(h, id)) && Side(Delivered(h, id), s', r)
  {
    var id := MsgId(r, s.recvN);
    DeliveredShape(h, id);
    CacheNext(h, Delivered(h, id), s.skipped, s.recvN, s.recvN + 1, r);
  }

  lemma CacheRemove(h: History, skipped: map<SlotId, Key>, recvN: u32, r: nat, id: MsgId)
    requires Shape(h) && Cached(h, skipped, recvN, r)
    requires Waiting(h, recvN, r, id)
    ensures Shape(Delivered(h, id)) && Cached(Delivered(h, id), skipped - {SlotOf(h, id)}, recvN, r)
  {
    var g := Delivered(h, id);
    var less := skipped - {SlotOf(h, id)};
    assert less.Keys == skipped.Keys - {SlotOf(h, id)};
    forall i | Waiting(g, recvN, r, i)
      ensures SlotOf(g, i) in less && less[SlotOf(g, i)] == MessageKeyAt(g.keys, i.chain, i.n)
    {
      assert Waiting(h, recvN, r, i) && SlotOf(g, i) == SlotOf(h, i);
      PacketInjective(h, i, id);
    }
    forall i | Upcoming(g, recvN, r, i)
      ensures i in g.pending
    {
      assert Upcoming(h, recvN, r, i);
    }
    forall slot | Listed(less, slot)
      ensures exists i :: Explains(g, recvN, r, i, slot)
    {
      assert Listed(skipped, slot);
      var i :| Explains(h, recvN, r, i, slot);
      assert Explains(g, recvN, r, i, slot);
    }
  }

  /** Receiving a message whose key is in the cache. */
  lemma ReceiveCachedSide(h: History, s: Session, r: nat, id: MsgId)
    requires Shape(h) && Side(h, s, r) && Waiting(h, s.recvN, r, id)
    ensures var s' := s.(skipped := s.skipped - {SlotOf(h, id)});
            && SlotOf(h, id) in s.skipped
            && s.skipped[SlotOf(h, id)] == MessageKeyAt(h.keys, id.chain, id.n)
            && Shape(Delivered(h, id)) && Side(Delivered(h, id), s', r)
  {
    CacheRemove(h, s.skipped, s.recvN, r, id);
  }

  function AfterRatchet(h: History, newKey: Secret): History {
    h.(keys := h.keys + [newKey], sent := h.sent + [0])
  }

  lemma RatchetShape(h: History, newKey: Secret)
    requires Shape(h) && Fresh(h, newKey)
    ensures Shape(AfterRatchet(h, newKey))
    ensures forall id: MsgId :: Sent(AfterRatchet(h, newKey), id) <==> Sent(h, id)
  {
  }

  lemma RatchetKeyed(h: History, g: History, s: Session, r: nat, newKey: Secret)
    requires Shape(h) && Shape(g) && r + 3 == |h.keys| && Keyed(h, s, r)
    requires g == AfterRatchet(h, newKey)
    ensures Keyed(g, DhRatchet(s, Pub(h.keys[r + 2]), newKey), r + 2)
  {
    RootAtPrefix(h.keys, g.keys, r + 1);
    assert {newKey, h.keys[r + 2]} == {g.keys[r + 2], g.keys[r + 3]};
  }

  lemma RatchetCached(h: History, g: History, skipped: map<SlotId, Key>, recvN: u32, r: nat, next: nat)
    requires Shape(h) && Shape(g) && h.keys <= g.keys && h.pending == g.pending && r < |h.keys| && next == r + 2
    requires forall id: MsgId :: Sent(g, id) <==> Sent(h, id)
    requires recvN == h.sent[r] && Cached(h, skipped, recvN, r)
    ensures Cached(g, skipped, 0, next)
  {
    ChainAtPrefix(h.keys, g.keys);
    forall id | Waiting(g, 0, next, id)
      ensures SlotOf(g, id) in skipped && skipped[SlotOf(g, id)] == MessageKeyAt(g.keys, id.chain, id.n)
    {
      assert Waiting(h, recvN, r, id);
    }
    forall id | Upcoming(g, 0, next, id)
      ensures id in g.pending
    {
      assert Upcoming(h, recvN, r, id);
    }
    forall slot | Listed(skipped, slot)
      ensures exists i :: Explains(g, 0, next, i, slot)
    {
      var i :| Explains(h, recvN, r, i, slot);
      assert Explains(g, 0, next, i, slot);
    }
  }

  /** A receiver that has exhausted its chain follows the sender to the next one and gets ahead of it. */
  lemma RatchetSide(h: History, s: Session, r: nat, newKey: Secret)
    requires Shape(h) && r + 3 == |h.keys| && Fresh(h, newKey) && Side(h, s, r) && s.recvN == h.sent[r]
    ensures var g := AfterRatchet(h, newKey);
            Shape(g) && Side(g, DhRatchet(s, Pub(h.keys[r + 2]), newKey), r + 2)
  {
    var g := AfterRatchet(h, newKey);
    RatchetShape(h, newKey);
    RatchetKeyed(h, g, s, r, newKey);
    RatchetCached(h, g, s.skipped, s.recvN, r, r + 2);
  }

  // ----- one delivery -----

  /**
   Whether the receiver can decrypt a message with this header now: its key is cached, or the messages
   to be gone past, on the current chain and on the next one, fit both limits.
   */
  predicate Accepts(s: Session, header: MessageHeader) {
    || SlotId(header.dhPublic, header.n) in s.skipped
    || (header.dhPublic == s.dhrRemote && Room(|s.skipped|, header.n - s.recvN))
    || (header.dhPublic != s.dhrRemote && AcceptsNewKey(s, header))
  }

  predicate AcceptsNewKey(s: Session, header: MessageHeader) {
    Room(|s.skipped|, header.pn - s.recvN) && Room(|s.skipped| + (header.pn - s.recvN), header.n)
  }

  /**
   The history after a delivery attempt by a receiver on chain r, who is then on chain q: possibly a
   ratchet step, and the message gone if `ok`.
   */
  ghost predicate AfterDelivery(h: History, g: History, r: nat, q: nat, newKey: Secret, id: MsgId, ok: bool) {
    && Shape(h) && Shape(g)
    && g.ids == h.ids && g.texts == h.texts
    && g.pending == (if ok then h.pending - {id} else h.pending)
    && ( || (g.keys == h.keys && g.sent == h.sent && q == r)
         || (r + 3 == |h.keys| && g.keys == h.keys + [newKey] && g.sent == h.sent + [0] && q == r + 2))
  }

  /** What the receiver's session and its answer must be after a delivery attempt of message id. */
  ghost predicate DeliveryOk(h: History, g: History, r: nat, q: nat, newKey: Secret, id: MsgId,
                             accepts: bool, d: (Session, Result<Plaintext>))
    requires Shape(h) && Sent(h, id)
  {
    && AfterDelivery(h, g, r, q, newKey, id, accepts)
    && Side(g, d.0, q)
    && (d.1.Ok? <==> accepts)
    && (if d.1.Ok? then d.1.value == PacketOf(h, id).plaintext else d.1.error in {TooManySkipped, CacheFull})
  }

  ghost predicate DecryptOk(h: History, g: History, r: nat, q: nat, s: Session, newKey: Secret, id: MsgId)
    requires Shape(h) && Sent(h, id)
  {
    var wire := PacketOf(h, id).wire;
    DeliveryOk(h, g, r, q, newKey, id, Accepts(s, wire.header), Decrypt(s, wire, newKey))
  }

  /** The key is cached. */
  lemma DeliverCached(h: History, s: Session, r: nat, newKey: Secret, id: MsgId)
    requires Shape(h) && Side(h, s, r) && Waiting(h, s.recvN, r, id)
    ensures Sent(h, id) && DecryptOk(h, Delivered(h, id), r, r, s, newKey, id)
  {
    ReceiveCachedSide(h, s, r, id);
  }

  /** Going ahead on the current chain to an undelivered message. */
  lemma AheadSide(h: History, s: Session, r: nat, newKey: Secret, id: MsgId) returns (g: History)
    requires Shape(h) && Side(h, s, r) && id in h.pending && id.chain == r && s.recvN <= id.n
    ensures var Frame(header, body) := PacketOf(h, id).wire;
            DeliveryOk(h, g, r, r, newKey, id, Room(|s.skipped|, id.n - s.recvN), ReceiveAhead(s, header, body))
  {
    SkipSide(h, s, r, id.n);
    var (s', res) := SkipMessageKeys(s, id.n);
    g := h;
    if res.Ok? {
      ReceiveNextSide(h, s', r);
      g := Delivered(h, id);
    }
  }

  /** The message is ahead on the current chain. */
  lemma DeliverAhead(h: History, s: Session, r: nat, newKey: Secret, id: MsgId) returns (g: History)
    requires Shape(h) && Side(h, s, r) && id in h.pending && id.chain == r && s.recvN <= id.n
    ensures Sent(h, id) && DecryptOk(h, g, r, r, s, newKey, id)
  {
    assert Sent(h, id);
    NotCached(h, s.skipped, s.recvN, id.chain, id);
    g := AheadSide(h, s, r, newKey, id);
  }

  /**
   A message of the next chain carries a ratchet key the receiver has not seen and the length of the current
   chain.
  */
  lemma NextHeader(h: History, s: Session, r: nat, id: MsgId)
    requires Shape(h) && Side(h, s, r) && id in h.pending && id.chain == r + 2
    ensures Sent(h, id)
    ensures var header := PacketOf(h, id).wire.header;
            && header.dhPublic == Pub(h.keys[r + 2]) && header.dhPublic != s.dhrRemote
            && SlotId(header.dhPublic, header.n) !in s.skipped
            && header.pn == h.sent[r] && s.recvN <= header.pn
            && header.n == id.n
  {
    assert Sent(h, id);
    NoRepeatAt(h.keys, r, r + 2);
    NotCached(h, s.skipped, s.recvN, r, id);
  }

  /** The current chain cannot be finished: the history stays as it is. */
  lemma DeliverStuck(h: History, s: Session, r: nat, newKey: Secret, id: MsgId)
    requires Shape(h) && Side(h, s, r) && id in h.pending && id.chain == r + 2 && Sent(h, id)
    requires SkipMessageKeys(s, PacketOf(h, id).wire.header.pn).1.Err?
    ensures var Frame(header, body) := PacketOf(h, id).wire;
            DeliveryOk(h, h, r, r, newKey, id, AcceptsNewKey(s, header), ReceiveNewKey(s, header, body, newKey))
  {
    SkipSide(h, s, r, PacketOf(h, id).wire.header.pn);
  }

  /** The chain is finished: ratchet and go ahead on the next one. */
  lemma DeliverFollowed(h: History, s1: Session, r: nat, newKey: Secret, id: MsgId) returns (g: History)
    requires Shape(h) && Side(h, s1, r) && r + 3 == |h.keys| && s1.recvN == h.sent[r] && Fresh(h, newKey)
    requires id in h.pending && id.chain == r + 2 && Sent(h, id)
    ensures var Frame(header, body) := PacketOf(h, id).wire;
            DeliveryOk(h, g, r, r + 2, newKey, id, Room(|s1.skipped|, id.n),
                       ReceiveAhead(DhRatchet(s1, header.dhPublic, newKey), header, body))
  {
    var h2 := AfterRatchet(h, newKey);
    RatchetSide(h, s1, r, newKey);
    RatchetShape(h, newKey);
    PacketStable(h, h2, id);
    g := AheadSide(h2, DhRatchet(s1, Pub(h.keys[r + 2]), newKey), r + 2, newKey, id);
  }

  /** Finish the current chain, ratchet to the chain the sender has moved to, go ahead. */
  lemma DeliverNewKey(h: History, s: Session, r: nat, newKey: Secret, id: MsgId) returns (g: History, q: nat)
    requires Shape(h) && Side(h, s, r) && r + 3 == |h.keys| && Fresh(h, newKey)
    requires id in h.pending && id.chain == r + 2 && Sent(h, id)
    ensures var Frame(header, body) := PacketOf(h, id).wire;
            DeliveryOk(h, g, r, q, newKey, id, AcceptsNewKey(s, header), ReceiveNewKey(s, header, body, newKey))
  {
    var header := PacketOf(h, id).wire.header;
    var (s1, r1) := SkipMessageKeys(s, header.pn);
    if r1.Err? {
      DeliverStuck(h, s, r, newKey, id);
      g, q := h, r;
    } else {
      SkipSide(h, s, r, header.pn);
      g := DeliverFollowed(h, s1, r, newKey, id);
      q := r + 2;
    }
  }

  /** The message is on the chain the sender has moved to. */
  lemma DeliverNext(h: History, s: Session, r: nat, newKey: Secret, id: MsgId) returns (g: History, q: nat)
    requires Shape(h) && Side(h, s, r) && r + 3 == |h.keys| && Fresh(h, newKey)
    requires id in h.pending && id.chain == r + 2
    ensures Sent(h, id) && DecryptOk(h, g, r, q, s, newKey, id)
  {
    NextHeader(h, s, r, id);
    g, q := DeliverNewKey(h, s, r, newKey, id);
  }

  /** Every undelivered packet, wherever it stands, meets DecryptOk. */
  lemma DeliverSide(h: History, s: Session, r: nat, other: nat, newKey: Secret, id: MsgId)
    returns (g: History, q: nat)
    requires Shape(h) && Paired(|h.keys|, r, other) && Side(h, s, r) && Fresh(h, newKey)
    requires id in h.pending && Incoming(id, r)
    ensures Sent(h, id) && DecryptOk(h, g, r, q, s, newKey, id)
  {
    assert Sent(h, id);
    q := r;
    if Passed(id, r, s.recvN) {
      g := Delivered(h, id);
      DeliverCached(h, s, r, newKey, id);
    } else if id.chain == r {
      g := DeliverAhead(h, s, r, newKey, id);
    } else {
      g, q := DeliverNext(h, s, r, newKey, id);
    }
  }

  lemma DeliverySent(h: History, g: History, r: nat, q: nat, newKey: Secret, id: MsgId, ok: bool)
    requires AfterDelivery(h, g, r, q, newKey, id, ok)
    ensures forall i :: Sent(g, i) <==> Sent(h, i)
  {
  }

  /** The sender does not notice what the receiver does. */
  lemma DeliverFrame(h: History, g: History, r: nat, q: nat, newKey: Secret, id: MsgId, ok: bool,
                     peer: Session, other: nat)
    requires AfterDelivery(h, g, r, q, newKey, id, ok) && Incoming(id, r)
    requires Paired(|h.keys|, r, other) && Side(h, peer, other)
    ensures Paired(|g.keys|, q, other) && Side(g, peer, other)
  {
    DeliverySent(h, g, r, q, newKey, id, ok);
    assert Grows(h, g, other);
    SideStable(h, g, peer, other);
  }

  lemma DeliverPackets(h: History, g: History, r: nat, q: nat, newKey: Secret, id: MsgId, ok: bool, i: MsgId)
    requires AfterDelivery(h, g, r, q, newKey, id, ok) && Sent(h, i)
    ensures Sent(g, i) && PacketOf(g, i) == PacketOf(h, i)
  {
    PacketStable(h, g, i);
  }

  lemma DeliverNet(h: History, g: History, r: nat, q: nat, newKey: Secret, id: MsgId, ok: bool, net: set<Packet>)
    requires AfterDelivery(h, g, r, q, newKey, id, ok) && NetOk(h, net) && id in h.pending
    ensures NetOk(g, if ok then net - {PacketOf(h, id)} else net)
  {
    var rest := if ok then net - {PacketOf(h, id)} else net;
    forall i | i in g.pending
      ensures PacketOf(g, i) in rest
    {
      DeliverPackets(h, g, r, q, newKey, id, ok, i);
      if ok {
        PacketInjective(h, i, id);
      }
    }
    forall p | InNet(rest, p)
      ensures exists i :: Carries(g, i, p)
    {
      assert InNet(net, p);
      var i :| Carries(h, i, p);
      DeliverPackets(h, g, r, q, newKey, id, ok, i);
      assert Carries(g, i, p);
    }
  }

  lemma DeliverLog(h: History, g: History, r: nat, q: nat, newKey: Secret, id: MsgId, ok: bool, log: seq<Packet>)
    requires AfterDelivery(h, g, r, q, newKey, id, ok) && LogOk(h, log)
    ensures LogOk(g, log)
  {
    forall i | 0 <= i < |log|
      ensures Sent(g, g.ids[i]) && log[i] == PacketOf(g, g.ids[i])
    {
      DeliverPackets(h, g, r, q, newKey, id, ok, h.ids[i]);
    }
  }
}
