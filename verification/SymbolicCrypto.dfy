/**
 The primitives under the ratchet, as free terms: a derived key is the expression that derives it.
 Two different derivations give two different keys, no derivation gives the all-zero key, and a
 Diffie-Hellman output depends only on the pair of secrets, in either order.
*/
module SymbolicCrypto {

  type u32 = x: int | 0 <= x < 0x1_0000_0000

  /** An X25519 secret, named by a number; the generator hands out numbers not used before. */
  datatype Secret = Secret(name: int)

  datatype PublicKey = Pub(secret: Secret)

  datatype Key =
    | Zero                                   // 32 zero bytes, the "no sending chain" sentinel
    | PreShared                              // the secret agreed by PQXDH
    | RootKey(rk: Key, dh: set<Secret>)      // first half of the root derivation
    | ChainKey(rk: Key, dh: set<Secret>)     // second half of the root derivation
    | NextChainKey(ck: Key)                  // first half of the chain derivation
    | MessageKey(ck: Key)                    // second half of the chain derivation

  /** X25519: both owners of the two secrets compute the same term. */
  function Dh(mine: Secret, theirs: PublicKey): set<Secret> {
    {mine, theirs.secret}
  }

  function KdfRk(rk: Key, dh: set<Secret>): (Key, Key) {
    (RootKey(rk, dh), ChainKey(rk, dh))
  }

  function KdfCk(ck: Key): (Key, Key) {
    (NextChainKey(ck), MessageKey(ck))
  }

  type Plaintext = seq<int>

  datatype MessageHeader = MessageHeader(dhPublic: PublicKey, pn: u32, n: u32)

  /** AES-GCM output: opens only under the same key and the same associated data. */
  datatype Sealed = Sealed(key: Key, aad: MessageHeader, plaintext: Plaintext)

  datatype Error = DecryptionFailed | TooManySkipped | CacheFull

  datatype Result<T> = Ok(value: T) | Err(error: Error)

  function Seal(key: Key, plaintext: Plaintext, aad: MessageHeader): Sealed {
    Sealed(key, aad, plaintext)
  }

  function Open(key: Key, c: Sealed, aad: MessageHeader): Result<Plaintext> {
    if c.key == key && c.aad == aad then Ok(c.plaintext) else Err(DecryptionFailed)
  }

  /** What arrives: bytes that do not parse as a header, or a header with a sealed body. */
  datatype Wire = Malformed | Frame(header: MessageHeader, body: Sealed)
}
