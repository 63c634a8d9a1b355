/**
 One Double Ratchet session (native-crypto/src/double_ratchet.rs) as a value, its operations as
 functions on that value.
*/
module Ratchet {
  import opened SymbolicCrypto

  const MAX_SKIP: int := 1000
  const MAX_SKIPPED_TOTAL: int := 2000
  const U32_MAX: int := 0xFFFF_FFFF

  /** Counters are 32-bit and wrap, as in a release build. */
  function Next(n: u32): u32 {
    if n == U32_MAX then 0 else n + 1
  }

  function SaturatingAdd(a: u32, b: nat): u32 {
    if a + b > U32_MAX then U32_MAX else a + b
  }

  /** Index of the skipped-key cache. */
  datatype SlotId = SlotId(dhPublic: PublicKey, n: u32)

  datatype Session = Session(
    dhrKey: Secret,
    dhrRemote: PublicKey,
    rootKey: Key,
    sendChainKey: Key,
    recvChainKey: Key,
    sendN: u32,
    recvN: u32,
    prevSendN: u32,
    skipped: map<SlotId, Key>,
    sendingChainKey: Key)

  function Initiator(myKey: Secret, peer: PublicKey): Session {
    var (rk, ck) := KdfRk(PreShared, Dh(myKey, peer));
    Session(myKey, peer, rk, ck, Zero, 0, 0, 0, map[], ck)
  }

  /** `newKey` is the ratchet key the responder generates at once and replaces before its first send. */
  function Responder(myKey: Secret, peer: PublicKey, newKey: Secret): Session {
    var (rk, ck) := KdfRk(PreShared, Dh(myKey, peer));
    Session(newKey, peer, rk, Zero, ck, 0, 0, 0, map[], Zero)
  }

  function RatchetSendOnly(s: Session, remote: PublicKey, newKey: Secret): Session {
    var (rk, ck) := KdfRk(s.rootKey, Dh(newKey, remote));
    s.(dhrKey := newKey, rootKey := rk, sendChainKey := ck, sendingChainKey := ck)
  }

  function DhRatchet(s: Session, remote: PublicKey, newKey: Secret): Session {
    var (rk, recvCk) := KdfRk(s.rootKey, Dh(s.dhrKey, remote));
    var (rk2, sendCk) := KdfRk(rk, Dh(newKey, remote));
    s.(prevSendN := s.sendN, sendN := 0, recvN := 0, dhrRemote := remote,
       dhrKey := newKey, rootKey := rk2, recvChainKey := recvCk,
       sendChainKey := sendCk, sendingChainKey := sendCk)
  }

  /** Encrypts; `newKey` is used only when the sending chain still has to be bootstrapped. */
  function Encrypt(s: Session, plaintext: Plaintext, newKey: Secret): (Session, Wire) {
    var s1 := if s.sendChainKey == Zero then RatchetSendOnly(s, s.dhrRemote, newKey) else s;
    var (ck, mk) := KdfCk(s1.sendChainKey);
    var header := MessageHeader(Pub(s1.dhrKey), s1.prevSendN, s1.sendN);
    (s1.(sendChainKey := ck, sendN := Next(s1.sendN), sendingChainKey := ck),
     Frame(header, Seal(mk, plaintext, header)))
  }

  /** One round of the skip loop: cache the next receiving key and move on. */
  function SkipOne(s: Session): Session {
    var (ck, mk) := KdfCk(s.recvChainKey);
    s.(recvChainKey := ck, skipped := s.skipped[SlotId(s.dhrRemote, s.recvN) := mk], recvN := Next(s.recvN))
  }

  function SkipLoop(s: Session, until: u32): (r: (Session, Result<()>))
    decreases until - s.recvN
  {
    if s.recvN >= until then (s, Ok(()))
    else if |s.skipped| >= MAX_SKIPPED_TOTAL then (s, Err(CacheFull))
    else SkipLoop(SkipOne(s), until)
  }

  function SkipMessageKeys(s: Session, until: u32): (Session, Result<()>) {
    if SaturatingAdd(s.recvN, MAX_SKIP) < until then (s, Err(TooManySkipped))
    else SkipLoop(s, until)
  }

  /** The receiving chain step that ends a decrypt of a message of the current chain. */
  function ReceiveNext(s: Session, header: MessageHeader, body: Sealed): (Session, Result<Plaintext>) {
    var (ck, mk) := KdfCk(s.recvChainKey);
    (s.(recvChainKey := ck, recvN := Next(s.recvN)), Open(mk, body, header))
  }

  /** Going ahead to a message of the current chain and receiving it. */
  function ReceiveAhead(s: Session, header: MessageHeader, body: Sealed): (Session, Result<Plaintext>) {
    var (s', r) := SkipMessageKeys(s, header.n);
    if r.Err? then (s', Err(r.error)) else ReceiveNext(s', header, body)
  }

  /** Finishing the current chain, ratcheting to a new remote key and going ahead on its chain. */
  function ReceiveNewKey(s: Session, header: MessageHeader, body: Sealed, newKey: Secret)
    : (Session, Result<Plaintext>)
  {
    var (s', r) := SkipMessageKeys(s, header.pn);
    if r.Err? then (s', Err(r.error))
    else ReceiveAhead(DhRatchet(s', header.dhPublic, newKey), header, body)
  }

  /** Decrypts; whatever state the code has reached when it fails is the resulting state. */
  function Decrypt(s: Session, wire: Wire, newKey: Secret): (Session, Result<Plaintext>) {
    match wire
    case Malformed => (s, Err(DecryptionFailed))
    case Frame(header, body) =>
      var id := SlotId(header.dhPublic, header.n);
      if id in s.skipped then
        (s.(skipped := s.skipped - {id}), Open(s.skipped[id], body, header))
      else if header.dhPublic != s.dhrRemote then
        ReceiveNewKey(s, header, body, newKey)
      else
        ReceiveAhead(s, header, body)
  }
}

/**
 The session object: its methods change the fields in place and are proved to compute the functions
 of Ratchet.
*/
module DoubleRatchet {
  import opened SymbolicCrypto
  import opened Ratchet

  /** The session object. Random ratchet keys come in as parameters. */
  class DoubleRatchetSession {
    var dhrKey: Secret
    var dhrRemote: PublicKey
    var rootKey: Key
    var sendChainKey: Key
    var recvChainKey: Key
    var sendN: u32
    var recvN: u32
    var prevSendN: u32
    var skipped: map<SlotId, Key>
    var sendingChainKey: Key

    ghost function View(): Session
      reads this
    {
      Session(dhrKey, dhrRemote, rootKey, sendChainKey, recvChainKey, sendN, recvN, prevSendN,
              skipped, sendingChainKey)
    }

    constructor NewInitiator(myKey: Secret, peer: PublicKey)
      ensures View() == Initiator(myKey, peer)
    {
      var (rk, ck) := KdfRk(PreShared, Dh(myKey, peer));
      dhrKey, dhrRemote, rootKey := myKey, peer, rk;
      sendChainKey, recvChainKey, sendingChainKey := ck, Zero, ck;
      sendN, recvN, prevSendN, skipped := 0, 0, 0, map[];
    }

    constructor NewResponder(myKey: Secret, peer: PublicKey, newKey: Secret)
      ensures View() == Responder(myKey, peer, newKey)
    {
      var (rk, ck) := KdfRk(PreShared, Dh(myKey, peer));
      dhrKey, dhrRemote, rootKey := newKey, peer, rk;
      sendChainKey, recvChainKey, sendingChainKey := Zero, ck, Zero;
      sendN, recvN, prevSendN, skipped := 0, 0, 0, map[];
    }

    method RatchetSendOnly(remote: PublicKey, newKey: Secret)
      modifies this
      ensures View() == Ratchet.RatchetSendOnly(old(View()), remote, newKey)
    {
      dhrKey := newKey;
      var dhSend := Dh(dhrKey, remote);
      var (rk, ck) := KdfRk(rootKey, dhSend);
      rootKey := rk;
      sendChainKey := ck;
      sendingChainKey := sendChainKey;
    }

    method DhRatchet(remote: PublicKey, newKey: Secret)
      modifies this
      ensures View() == Ratchet.DhRatchet(old(View()), remote, newKey)
    {
      prevSendN := sendN;
      sendN := 0;
      recvN := 0;
      dhrRemote := remote;
      var dhRecv := Dh(dhrKey, remote);
      var (rk, recvCk) := KdfRk(rootKey, dhRecv);
      rootKey := rk;
      recvChainKey := recvCk;
      dhrKey := newKey;
      var dhSend := Dh(dhrKey, remote);
      var (rk2, sendCk) := KdfRk(rootKey, dhSend);
      rootKey := rk2;
      sendChainKey := sendCk;
      sendingChainKey := sendChainKey;
    }

    method Encrypt(plaintext: Plaintext, newKey: Secret) returns (wire: Wire)
      modifies this
      ensures (View(), wire) == Ratchet.Encrypt(old(View()), plaintext, newKey)
    {
      if sendChainKey == Zero {
        RatchetSendOnly(dhrRemote, newKey);
      }
      var (ck, mk) := KdfCk(sendChainKey);
      sendChainKey := ck;
      var header := MessageHeader(Pub(dhrKey), prevSendN, sendN);
      sendN := Next(sendN);
      wire := Frame(header, Seal(mk, plaintext, header));
      sendingChainKey := sendChainKey;
    }

    method SkipMessageKeys(until: u32) returns (r: Result<()>)
      modifies this
      ensures (View(), r) == Ratchet.SkipMessageKeys(old(View()), until)
    {
      if SaturatingAdd(recvN, MAX_SKIP) < until {
        return Err(TooManySkipped);
      }
      while recvN < until
        invariant SkipLoop(View(), until) == SkipLoop(old(View()), until)
        decreases until - recvN
      {
        if |skipped| >= MAX_SKIPPED_TOTAL {
          return Err(CacheFull);
        }
        var (ck, mk) := KdfCk(recvChainKey);
        recvChainKey := ck;
        skipped := skipped[SlotId(dhrRemote, recvN) := mk];
        recvN := Next(recvN);
      }
      r := Ok(());
    }

    method Decrypt(wire: Wire, newKey: Secret) returns (r: Result<Plaintext>)
      modifies this
      ensures (View(), r) == Ratchet.Decrypt(old(View()), wire, newKey)
    {
      if wire.Malformed? {
        return Err(DecryptionFailed);
      }
      var header, body := wire.header, wire.body;
      var id := SlotId(header.dhPublic, header.n);
      if id in skipped {
        var mk := skipped[id];
        skipped := skipped - {id};
        return Open(mk, body, header);
      }
      if header.dhPublic != dhrRemote {
        var r1 := SkipMessageKeys(header.pn);
        if r1.Err? {
          return Err(r1.error);
        }
        DhRatchet(header.dhPublic, newKey);
      }
      var r3 := SkipMessageKeys(header.n);
      if r3.Err? {
        return Err(r3.error);
      }
      var (ck, mk) := KdfCk(recvChainKey);
      recvChainKey := ck;
      recvN := Next(recvN);
      r := Open(mk, body, header);
    }
  }
}
