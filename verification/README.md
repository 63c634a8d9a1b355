# Verification of the messenger's protocols and shared state

A Dafny model of the parts of the messenger whose correctness is not visible from one function body, with
proofs of what they guarantee. Nothing here runs the program: the sources are modelled, and the theorems are
about the model.

| part | source | files |
|---|---|---|
| Double Ratchet session over a lossy, reordering network | `native-crypto/src/double_ratchet.rs` | `SymbolicCrypto`, `DoubleRatchet`, `RatchetWire`, `RatchetNetwork`, `RatchetHistory`, `RatchetTheorems`, `RatchetHealing` |
| Merkle tree of keys, its proofs and its verifier, in Rust and in JavaScript | `native-crypto/src/key_transparency.rs`, `server/key-registry.js` | `MerkleTree`, `MerkleHash`, `KeyTransparency`, `KeyRegistry`, `RegistryHistory` |
| Joining rooms under an asynchronous lock, with invite tokens | `server/rooms.js` | `RoomManager`, `RoomSafety`, `RoomLiveness`, `RoomAdmission`, `RoomOutcomes`, `RoomTables` |
| Blind tokens: DLEQ proofs, issuance, redemption, rate limit | `server/privacy-pass-issuer.js`, `client/src/crypto/privacy-pass.js` | `PrimeField`, `LittleEndian`, `DleqProof`, `PrivacyPass`, `PrivacyPassTheorems` |
| CBOR decoding of passkey data | `server/webauthn.js` | `Cbor`, `CborEncoding`, `CborTheorems` |
| Connect Four and Tetris games | `server/index.js` | `ConnectFour`, `ConnectFourGame`, `ConnectFourRules`, `Tetris`, `TetrisSafety`, `TetrisRules` |

Code that changes state in place is a class (or a method with a loop) proved to compute a function of its old
state; the theorems are about those functions, over every run. What an operation does is also told from the states
before and after it alone, in `RegistryHistory`, `RoomAdmission`, `RoomOutcomes`, `ConnectFourRules`,
`TetrisRules`, and beside the theorems of the other parts.

## What is assumed

- Ratchet: cryptography is symbolic. Keys are free terms, so no derived key is all zeros and different
  derivations differ; Diffie-Hellman is commutative; a sealed body opens only under its own key and header;
  freshly generated secrets are distinct. The header's JSON round-trips; a message that does not parse is
  `Malformed`. Counters wrap as in a release build, but a party at 2^32 - 1 messages on one chain sends no more.
  The network delivers an honest packet at most once (the source leaves replay tracking to the caller,
  double_ratchet.rs:297-298) and does not forge. For forward secrecy the thief is granted every Diffie-Hellman
  output; for healing a Diffie-Hellman output takes one of its two secrets.
- Merkle tree: the hash is an arbitrary function. Soundness is stated as "or here is a collision": two
  different inputs, both hashed for the trees or the proof at hand, with one digest. Sizes fit `usize`.
- Rooms: the in-memory mode. One step is the code between two awaits. Time, the password check, which sockets
  are connected and the random token (never issued before, at least 16 characters) are chosen by the
  environment. Room codes are not empty.
- Tokens: a group of prime order is represented by the residues modulo its order, and the order, base point,
  encodings and hash functions are parameters (`DleqProof.SomeGroup` is one such group). Times and randomness
  are arguments. `InputBinds` supposes encodings of one length that differ for different points. The library's
  scalar multiplication refuses 0 and unreduced scalars. A stored rate-limit count is between 1 and 50, as the
  code writes it.
- CBOR: the text codec is a parameter, and a text takes part in the round trip only if it survives it. So are the
  names that an object whose prototype is a byte string cannot be given.
- Games: nothing is assumed of the users. Anybody may send any request at any time under any id, and rejoin under
  any id and nickname; the ids are the clients' own (server/index.js:1858, 2228).

## Where the code and what is said about it differ

- The empty tree's root is 32 zero bytes in the code and SHA-256 of the empty string in RFC 6962; the theorems
  are for at least one entry.
- `verify_inclusion_proof` does not look at its `_index` argument, trusts `tree_size` in the proof and ignores
  surplus siblings. In a tree of three, the third entry is accepted as "the second of two"
  (`WrongIndexAccepted`, an instance of `SameSidesAccepted`). `ProofSound` says what an accepted proof is still
  worth, and `ShownLeaf` exactly when the leaf it shows is the one at its index.
- An honest DLEQ proof does not always verify: the library refuses a zero challenge or response
  (`HonestProofVerifies` gives the exact condition, `ZeroChallengeFails` and `ZeroResponseFails` an instance of
  each in every group).
- `MAX_ISSUANCE_PER_HOUR` limits requests, not tokens, and in fixed windows: 99 requests, with any blinded
  elements, can pass within a millisecond (`HourCanExceedLimit`), and 99 is the most in any hour (`HourBound`).
  Fifty is the limit for the hour from a given moment exactly when no window is open then, or the
  open one lasts out the hour, or it is already full (`LimitHoldsIff`).
- A token stays unusable for as long as no cleanup has run after its hour, and becomes usable again when one
  has (`RespentIff`).
- A CBOR map with the text key `__proto__` loses that entry (`ProtoKeyIsLost`, `PlainMapSurvivesIff`), and what it
  brings in is inherited, authenticator data included (`InheritsAuthData`).
- A buffer that ends in a string head without its one-byte length makes decoding lose its position
  (`ProgressIff`). Until then all that is decoded is no more values than bytes (`OutputBounded`); afterwards six
  bytes can decode to a list of 2^32 - 1 items (`LossFillsList`).
- Nothing keeps a client from going by the id `cpu`, which the server gives to the computer. Such a creator of a
  Connect Four game against the computer sits in both seats (`CpuCreatorDoubles`, `NewGameOnceIff`), and such a
  spectator may drop at the computer's turn (`CpuTurnIff`).
- When the Connect Four CPU keeps its seat by a resignation or a win and a challenger takes the other, the CPU is
  switched off but still sits there, and from its first turn on nobody else may drop (`SomeoneMayDropIff`,
  `OrphanedRun`).
- A rejoin under the nickname of a seated player can give one id two seats (`RejoinCanDouble`, in each game). Over
  whole runs, everyone keeps one place exactly when every event is harmless in a sense that can be checked before
  it (`EveryoneOnceIff`, in each game).
- A Tetris rejoin that changes an id, harmless or not, leaves the score under the old one (`RejoinLosesScore`);
  `EveryoneScoredIff` says exactly when every seated player keeps a score.
- A benched Tetris player who gives up as one of the last two leaves a game in progress with one player alone
  (`AloneRun`); every game goes on only while two are there exactly when that does not happen
  (`GoesOnContestedIff`).
- A socket that registers its keys again under another room stays listed in the first one, with its new bundle, even
  after it has been removed (`StaysListed`).
- In `joinRoom` the branch that redirects to another room cannot be taken (`NeverRedirected`), and while nobody has
  two places the "force fill" of a Tetris tag-out cannot happen (`TagOutIs`).

## Model

| member | source | states |
|---|---|---|
| DoubleRatchet.DoubleRatchetSession.NewInitiator | native-crypto/src/double_ratchet.rs:167-187 | the initiator starts with the first sending chain and no receiving chain |
| DoubleRatchet.DoubleRatchetSession.NewResponder | native-crypto/src/double_ratchet.rs:204-223 | the responder starts with the matching receiving chain, a fresh key and no sending chain |
| DoubleRatchet.DoubleRatchetSession.RatchetSendOnly | native-crypto/src/double_ratchet.rs:330-338 | the bootstrap step: one root derivation with a fresh key, nothing else changes |
| DoubleRatchet.DoubleRatchetSession.DhRatchet | native-crypto/src/double_ratchet.rs:341-364 | the full ratchet step: two root derivations, counters reset, previous count kept |
| DoubleRatchet.DoubleRatchetSession.Encrypt | native-crypto/src/double_ratchet.rs:229-260 | the in-place encryption computes the session function, bootstrap included |
| DoubleRatchet.DoubleRatchetSession.SkipMessageKeys | native-crypto/src/double_ratchet.rs:311-326 | the loop caches one key per skipped number and stops at either limit in the state it has then |
| DoubleRatchet.DoubleRatchetSession.Decrypt | native-crypto/src/double_ratchet.rs:266-304 | the in-place decryption computes the session function, including the state left by a failure |
| RatchetWire.ParseFrameIff | native-crypto/src/double_ratchet.rs:248-283 | a framed message is split into its header and body again, exactly when the header length fits 32 bits |
| RatchetWire.FrameParse | native-crypto/src/double_ratchet.rs:266-283 | whatever is not rejected as malformed is the frame of the parts read from it |
| RatchetTheorems.SafeDelivery | native-crypto/src/double_ratchet.rs:266-304 | in every reachable world, whatever was lost or reordered, an undelivered packet decrypts to exactly its plaintext if its key is cached or both limits leave room, and otherwise fails with a limit error |
| RatchetTheorems.NeverWedged | native-crypto/src/double_ratchet.rs:283-326 | while a packet is undelivered, some packet for the same party can be decrypted now |
| RatchetTheorems.EventuallyDelivered | native-crypto/src/double_ratchet.rs:266-326 | a refusal is never final: every packet in the network, refused now or not, is delivered by some run of deliveries to its receiver alone, without any further message |
| RatchetTheorems.NoKeyReuse | native-crypto/src/double_ratchet.rs:229-260 | over the whole run, for both parties together, no two packets share (dh_public, n) or a message key |
| RatchetTheorems.Lockstep | native-crypto/src/double_ratchet.rs:330-364 | the two roots are equal or one derivation apart; exactly one party receives on the chain the other sends on (or the bootstrap is pending); the receiver's chain key advanced by the outstanding count is the sender's, and no chain is passed beyond what was sent on it |
| RatchetTheorems.CacheExact | native-crypto/src/double_ratchet.rs:311-326 | the cache has at most 2000 entries and holds exactly the keys of packets gone past and not delivered, each under its own slot |
| RatchetTheorems.ForwardSecrecy | native-crypto/src/double_ratchet.rs:104-113 | once a packet is delivered, its key cannot be derived from everything in both sessions |
| RatchetHealing.HealsIff | native-crypto/src/double_ratchet.rs:330-364 | after both sessions are stolen, with their secrets or with all drawn so far, the key of a message sent later can be computed exactly when its sender has not yet received a ratchet key drawn after the theft |
| RatchetHealing.HealsAtOnce | native-crypto/src/double_ratchet.rs:266-364 | one message suffices: a run after which the initiator receives on such a key |
| RatchetHealing.SecretsWereDrawn | native-crypto/src/double_ratchet.rs:167-223 | the secrets in the two sessions are among those drawn so far, so the theorem speaks of a thief who has just them |
| RatchetTheorems.MessageKeyInjective | native-crypto/src/double_ratchet.rs:104-113 | different positions on the chains have different message keys |
| RatchetTheorems.SendInv | native-crypto/src/double_ratchet.rs:229-260 | a send keeps the invariant that ties both sessions, the network and the log to one history of keys |
| RatchetTheorems.DeliverInv | native-crypto/src/double_ratchet.rs:266-304 | a delivery attempt keeps that invariant, whether it succeeds or hits a limit, and has the right result |
| RatchetHistory.SkipLoopSide | native-crypto/src/double_ratchet.rs:311-326 | skipping keeps the cache exact and succeeds exactly when there is room for the gap |
| MerkleTree.SplitPointIsRight | native-crypto/src/key_transparency.rs:66-90 | the split point is the largest power of two below n, as section 2.1 of RFC 6962 asks |
| MerkleTree.PairUpKeepsTree | native-crypto/src/key_transparency.rs:74-88 | pairing one level with promotion of the odd node leaves every aligned subtree's value unchanged |
| MerkleHash.MthIsTree | native-crypto/src/key_transparency.rs:48-62 | the Merkle tree hash of section 2.1 of RFC 6962 is the tree over the leaf hashes |
| KeyTransparency.ComputeRoot | native-crypto/src/key_transparency.rs:66-90 | the level-by-level loop computes the recursive tree of RFC 6962, and zeros for no leaves |
| KeyTransparency.KeyTransparencyTree.AddLeaf | native-crypto/src/key_transparency.rs:133-137 | the entry is appended and the cached leaf hashes stay those of the entries |
| KeyTransparency.KeyTransparencyTree.RootHash | native-crypto/src/key_transparency.rs:141-143 | the root is the Merkle tree hash of all entries |
| KeyTransparency.CollectSiblings | native-crypto/src/key_transparency.rs:150-187 | the sibling loop collects PATH(m, D[n]) of section 2.1.1 of RFC 6962 |
| KeyTransparency.KeyTransparencyTree.GenerateInclusionProof | native-crypto/src/key_transparency.rs:150-187 | an index out of range is an error; otherwise the proof is the audit path with index and size |
| KeyTransparency.KeyTransparencyTree.VerifyInclusionProof | native-crypto/src/key_transparency.rs:194-227 | the verifier's loop decides by replaying the level sizes against the tree's root, errors included |
| MerkleHash.ReplayFolds | native-crypto/src/key_transparency.rs:203-224 | replaying level sizes is a fold of the siblings along fixed sides; too few siblings are detected and surplus ones ignored |
| MerkleHash.ReplaySidesAreSides | native-crypto/src/key_transparency.rs:203-224 | for an index in range those sides are the ones of the audit path |
| KeyTransparency.ProofComplete | native-crypto/src/key_transparency.rs:194-227 | the generated proof is accepted for its own entry, for every tree and index |
| KeyTransparency.ProofShort | native-crypto/src/key_transparency.rs:150-187 | a proof has at most ceil(log2 n) siblings |
| KeyTransparency.ProofSoundAtIndex | native-crypto/src/key_transparency.rs:194-227 | an accepted proof of the right size shows the entry is the leaf at the proof's index, or exhibits a collision |
| KeyTransparency.ProofSound | native-crypto/src/key_transparency.rs:194-227 | an accepted proof of any claimed size shows the entry is some leaf of the tree, or exhibits a collision |
| KeyTransparency.SameSidesAccepted | native-crypto/src/key_transparency.rs:194-227 | the audit path of a leaf is accepted for that leaf under every claimed index and size whose replayed sides are the same |
| KeyTransparency.WrongIndexAccepted | native-crypto/src/key_transparency.rs:194-227 | in every tree of three, the third entry is accepted under the claim to be the second of two |
| KeyTransparency.ShownLeaf | native-crypto/src/key_transparency.rs:194-227 | without a collision an accepted proof of any claimed size shows exactly one leaf, and it is the one at the proof's index exactly when the replayed sides are those of that index |
| MerkleHash.FoldReachesLeaf | native-crypto/src/key_transparency.rs:194-227 | walking an accepted fold down the tree reaches a leaf equal to the entry or a pair of colliding inputs |
| MerkleHash.RootBinds | native-crypto/src/key_transparency.rs:48-90 | two lists of entries, of any lengths, with one root are equal or yield a collision, using the domain separation |
| KeyRegistry.KeyRegistry.RegisterKeyBundle | server/key-registry.js:76-118 | a bundle that passes the validation of its keys replaces or appends the socket's leaf, is stored and adds the room member; any other offer changes nothing |
| KeyRegistry.KeyRegistry.RemoveKeyBundle | server/key-registry.js:133-146 | removing drops the bundle, the leaf and the membership of that socket only |
| KeyRegistry.LevelLoop | server/key-registry.js:37-63 | the JavaScript level loop computes the same root and siblings as the recursive tree |
| KeyRegistry.KeyRegistry.GetInclusionProof | server/key-registry.js:33-67 | the proof of a socket's leaf, or none without a leaf |
| KeyRegistry.KeyRegistry.GetBundlesForRoom | server/key-registry.js:154-164 | the listing of a room: its members with a bundle, in order, without the requester |
| KeyRegistry.RegisterAgrees | server/key-registry.js:100-118 | registering keeps leaves and bundles in agreement |
| KeyRegistry.RemoveAgrees | server/key-registry.js:133-146 | removing keeps leaves and bundles in agreement |
| KeyRegistry.AlwaysAgree | server/key-registry.js:76-146 | after any sequence of registrations and removals the leaves have distinct sockets, exactly those of the bundles, with each bundle's key, and every stored bundle passes the validation |
| KeyRegistry.ListingsVouched | server/key-registry.js:154-164 | every listed bundle carries a proof of its own key that the Rust verifier's rule accepts against the listed root |
| KeyRegistry.ListingsComplete | server/key-registry.js:154-164 | no other member with a bundle is missing from the listing |
| RegistryHistory.AcceptedIff | server/key-registry.js:76-91 | an offer is accepted exactly if there is one with two keys of 32 to 512 bytes and no post-quantum key or one of 1184 |
| RegistryHistory.StandardIs | server/key-registry.js:83-83 | the two keys are read in the standard alphabet, whichever they are written in |
| RegistryHistory.BundleIsLastOffer | server/key-registry.js:76-146 | over every run a socket has exactly the last accepted offer since its last removal |
| RegistryHistory.LeavesInOrder | server/key-registry.js:100-146 | over every run the leaves stand in the order of first acceptance: registering again keeps the place, removing closes the gap |
| RegistryHistory.LeafIsLastOffer | server/key-registry.js:100-146 | over every run a socket has one leaf, with the identity key of that offer, or none |
| RegistryHistory.ListedIff | server/key-registry.js:100-146 | over every run a room lists, once each, exactly the sockets registered with it and not removed while their bundle was of this room |
| RegistryHistory.RegisteredIsListed | server/key-registry.js:100-164 | after a registration the other members see the socket with the offered bundle, and after its removal it has neither bundle nor listing there |
| RegistryHistory.StaysListed | server/key-registry.js:100-146 | for any two acceptable bundles of different rooms, a run after which the first room still lists the removed socket |
| RoomTables.RoomManagerObject.OnDeleteRoom | server/rooms.js:832-889 | the loop over the room's tokens removes exactly those tokens and the room |
| RoomTables.RoomManagerObject.OnCleanupToken | server/rooms.js:1046-1070 | a token leaves both tables, and an emptied set leaves with it |
| RoomTables.RoomManagerObject.StartValidateInviteToken | server/rooms.js:1079-1114 | validation up to its await: refused at once, or suspended with the token's data |
| RoomTables.RoomManagerObject.FinishValidateInviteToken | server/rooms.js:1115-1150 | validation after its await, withdrawing the token when the room is gone or a temporary token is consumed |
| RoomTables.RoomManagerObject.FinishGenerateInviteToken | server/rooms.js:911-961 | a new token enters both tables if the room existed |
| RoomTables.RoomManagerObject.TryEnter | server/rooms.js:246-255 | a join takes the lock only when it is free |
| RoomTables.RoomManagerObject.JoinWithRoom | server/rooms.js:258-276 | stale users are dropped from the shared room object and saved before the checks |
| RoomTables.RoomManagerObject.CheckAndAdmit | server/rooms.js:278-336 | expiry, nickname, reconnection, capacity and invitation, in this order, each with its outcome |
| RoomTables.RoomManagerObject.CheckInvitation | server/rooms.js:316-338 | a missing token ends the join, a given one is validated without being consumed |
| RoomTables.RoomManagerObject.CheckPassword | server/rooms.js:358-367 | a protected room without a password ends the join, with one it waits for the comparison |
| RoomTables.RoomManagerObject.AddUser | server/rooms.js:369-388 | the user is appended and the room saved |
| RoomTables.RoomManagerObject.ConsumeToken | server/rooms.js:390-393 | a token that was given is validated again, this time to be consumed |
| RoomTables.RoomManagerObject.ReleaseLock | server/rooms.js:400-404 | the lock goes and the join is over |
| RoomTables.RoomManagerObject.LeaveWithRoom | server/rooms.js:412-433 | the socket's users leave; an empty ephemeral room goes on to deletion |
| RoomSafety.StepKeeps | server/rooms.js:246-433 | every step of every operation keeps the invariant of locks, rooms, tokens and suspended calls |
| RoomSafety.MutualExclusion | server/rooms.js:246-255 | over all interleavings at most one join per room is between taking and releasing the lock |
| RoomSafety.RoomsStaySound | server/rooms.js:284-388 | in every room object normalised nicknames and sockets stay pairwise distinct and a set user limit is respected |
| RoomSafety.TokenAdmitsOnce | server/rooms.js:316-393 | a temporary token admits at most one user, and once spent it is gone unless its join is about to consume it |
| RoomSafety.EndKeeps | server/rooms.js:1115-1150 | a consuming validation leaves a temporary token absent, and the invariant intact |
| RoomSafety.TablesMirror | server/rooms.js:911-1070 | the token table and the per-room sets always name the same tokens, with no empty set |
| RoomSafety.NeverRedirected | server/rooms.js:328-356 | the token a join validates was always issued for the room it joins, so the redirect is never taken |
| RoomSafety.CanResume | server/rooms.js:246-433 | a suspended call never holds a room object that does not exist |
| RoomAdmission.AddedIs | server/rooms.js:258-388 | nothing but a resumed join adds anybody to a room, and only from its last check: the comparison, the validation or the room itself |
| RoomAdmission.HasPassed | server/rooms.js:316-367 | over every interleaving a join stands past the invitation or the password check only if its token was found good when it was looked up |
| RoomAdmission.AdmissionIsEarned | server/rooms.js:258-388 | over every interleaving whoever comes to be in a room is a member under a new nickname, or a newcomer whose comparison succeeded if the room has a password, with a token if it is invite-only, and any token given was found good earlier by this join |
| RoomOutcomes.EnterIs | server/rooms.js:246-258 | a join takes the lock exactly if nobody has it, and then has its room |
| RoomOutcomes.JoinAlone | server/rooms.js:258-404 | the whole outcome of an undisturbed join, from the room before it: swept of dead sockets, deleted if expired, refused for a taken name, reconnected, or admitted exactly if there is space, the invitation is good and the password right; with the users, rooms and tokens left |
| RoomOutcomes.AloneIsRun | server/rooms.js:258-404 | that outcome is reached by a run of nothing but the join's own resumptions |
| RoomOutcomes.RecentIs | server/rooms.js:380-386 | being added makes the room one of the user's recent ones, if there is an id, and changes nobody else's |
| RoomOutcomes.KeepOneByOne | server/rooms.js:416-416 | a filter decides on one user after the other and keeps the order |
| RoomOutcomes.LeaveAlone | server/rooms.js:412-433 | an undisturbed leave takes out exactly the socket's user; if nobody is left of an ephemeral room it and its tokens go, and otherwise rooms and tokens stay |
| RoomOutcomes.DeleteIs | server/rooms.js:832-889 | deletion takes out exactly the room and the tokens issued for it, and changes no room object |
| RoomOutcomes.ValidateIs | server/rooms.js:1079-1150 | a validation in one go succeeds exactly if the token is known, long enough, not too old, for the room named and that room exists; and the token goes exactly if too old, without a room, or temporary and consumed |
| RoomOutcomes.TimerIs | server/rooms.js:1046-1070 | a token's timer takes out that token and nothing else |
| RoomOutcomes.GenerateAlone | server/rooms.js:911-961 | the drawn token is issued for the room exactly if the room exists, and nothing else changes |
| RoomLiveness.ResumeProgresses | server/rooms.js:246-404 | each resumption brings the lock's holder strictly nearer its end and moves no other call, and the end frees the lock |
| RoomLiveness.HolderLetsGo | server/rooms.js:246-433 | over every interleaving with whatever else runs, a call that holds a room's lock has let it go by its eighth resumption |
| RoomLiveness.LockIsFreed | server/rooms.js:246-433 | from every reachable state, at most eight resumptions of the holder alone free the lock |
| PrimeField.ModPow | client/src/crypto/privacy-pass.js:113-122 | the squaring loop computes the power modulo the order |
| PrimeField.Fermat | client/src/crypto/privacy-pass.js:88-92 | Fermat's little theorem, on which the inversion rests |
| PrimeField.InverseInverts | client/src/crypto/privacy-pass.js:88-92 | raising to the order minus two inverts every nonzero scalar |
| LittleEndian.BytesToNumberLE | server/privacy-pass-issuer.js:144-148 | the loop reads a little-endian number |
| LittleEndian.NumberToBytesLE | server/privacy-pass-issuer.js:149-153 | the loop writes it in a buffer of the given length |
| LittleEndian.LittleEndianRoundTrip | server/privacy-pass-issuer.js:144-153 | a number that fits is read back |
| LittleEndian.LittleEndianExact | server/privacy-pass-issuer.js:144-153 | a buffer is recovered from its number and length |
| DleqProof.ResponseIs | server/privacy-pass-issuer.js:106-106 | the response is reduced, congruent to r - c k, and 0 exactly when r is congruent to c k |
| DleqProof.AcceptedIff | server/privacy-pass-issuer.js:113-127 | a proof is accepted exactly if neither scalar is 0 and its challenge is the reduced digest of s G + c Y, s B + c Z, Y and Z, in this order |
| DleqProof.ProveIs | server/privacy-pass-issuer.js:93-112 | a proof carries the reduced digest of r G, r B, Y and Z and a response congruent to r - c k |
| DleqProof.InputBinds | server/privacy-pass-issuer.js:98-105 | with encodings of one length, different for different points, equal digest inputs have equal commitments and equal Y and Z |
| DleqProof.DigestDecides | server/privacy-pass-issuer.js:118-127 | under another digest an accepted proof is still accepted exactly if it has the same reduced value at that input |
| DleqProof.HonestProofVerifies | server/privacy-pass-issuer.js:93-127 | an honest proof, through its byte encoding, is accepted exactly when challenge and response are not 0; otherwise verification fails with the library's error |
| DleqProof.ZeroChallengeFails | server/privacy-pass-issuer.js:93-127 | in every group, for every key, point and nonce, a digest that makes the challenge 0 makes the honest proof fail |
| DleqProof.ZeroResponseFails | server/privacy-pass-issuer.js:93-127 | in every group, a digest that makes the challenge 1 makes the honest proof fail when the nonce equals the key |
| DleqProof.SpecialSoundness | server/privacy-pass-issuer.js:113-127 | two proofs with the same recomputed commitments and different challenges yield one scalar taking the base point to Y and B to Z |
| DleqProof.FalseClaimHasOneChallenge | server/privacy-pass-issuer.js:113-127 | for a false claim and fixed commitments at most one challenge can be answered |
| DleqProof.FalseClaimFixesDigest | server/privacy-pass-issuer.js:113-127 | for given commitments a false claim is accepted for at most one reduced value of the digest at the input they make up |
| PrivacyPass.UnblindToken | client/src/crypto/privacy-pass.js:256-270 | the client multiplies by the inverse of its blinding scalar |
| PrivacyPass.PrivacyPassIssuer.InitIssuer | server/privacy-pass-issuer.js:204-214 | after it the public point is the base point times a nonzero secret below the order |
| PrivacyPass.PrivacyPassIssuer.IssueTokens | server/privacy-pass-issuer.js:236-272 | checks in order, the rate limit charged first, and one signed element with proof per blinded one, or the first failure |
| PrivacyPass.PrivacyPassIssuer.VerifyToken | server/privacy-pass-issuer.js:284-315 | the verdict, and the spent table changed only by an acceptance |
| PrivacyPass.PrivacyPassIssuer.CheckRateLimit | server/privacy-pass-issuer.js:319-337 | fixed windows of one hour with at most fifty requests |
| PrivacyPass.PrivacyPassIssuer.RunCleanup | server/privacy-pass-issuer.js:343-365 | exactly the entries past their time are deleted from both tables |
| PrivacyPassTheorems.SignOneIs | server/privacy-pass-issuer.js:247-269 | signing fails exactly on bytes that are no point or on a zero challenge or response |
| PrivacyPassTheorems.IssueIs | server/privacy-pass-issuer.js:236-272 | on success every element is signed with the key of the public point and proved so; the self-check never fails |
| PrivacyPassTheorems.GrantedIff | server/privacy-pass-issuer.js:236-272 | a request is granted exactly if there are keys, the address has something left, and there are one to ten elements that can each be signed |
| PrivacyPassTheorems.RefusedBecause | server/privacy-pass-issuer.js:236-272 | otherwise the error is the first of these that fails, down to the first bad element |
| PrivacyPassTheorems.ChargedIs | server/privacy-pass-issuer.js:319-337 | every request with keys in place is charged to its own address only, in a window of one hour, granted or not |
| PrivacyPassTheorems.BlindSigning | client/src/crypto/privacy-pass.js:248-270 | unblinding k (r T) gives k T for every point and nonzero r |
| PrivacyPassTheorems.IssuedTokenIsAccepted | server/privacy-pass-issuer.js:284-315 | blind, sign, unblind, redeem: the token is accepted exactly when its key is unspent |
| PrivacyPassTheorems.IssuedTokenUnblinds | client/src/crypto/privacy-pass.js:256-270 | whenever the request is granted, unblinding succeeds and gives k T |
| PrivacyPassTheorems.VerifyIs | server/privacy-pass-issuer.js:284-315 | a redemption is accepted exactly when it is unspent and carries k H(t) |
| PrivacyPassTheorems.VerdictIs | server/privacy-pass-issuer.js:284-315 | each verdict exactly when its reason is the first to apply, and the one entry that an acceptance makes |
| PrivacyPassTheorems.NoDoubleSpend | server/privacy-pass-issuer.js:284-315 | under a monotone clock an accepted pair is refused as spent for the next hour, whatever happens in between, cleanups included |
| PrivacyPassTheorems.NoTokenTwice | server/privacy-pass-issuer.js:284-315 | with canonical point encodings no other authenticator gets the same token accepted in that time |
| PrivacyPassTheorems.RespentIff | server/privacy-pass-issuer.js:343-365 | it is accepted again exactly when a cleanup has run after the hour |
| PrivacyPassTheorems.HourBound | server/privacy-pass-issuer.js:319-337 | over any run, cleanups included, one address passes the limit at most 99 times in any hour |
| PrivacyPassTheorems.BudgetIsReached | server/privacy-pass-issuer.js:319-337 | the most that can pass in the hour from a moment is known from the state then, and some run reaches it, whatever elements the requests carry |
| PrivacyPassTheorems.LimitHoldsIff | server/privacy-pass-issuer.js:319-337 | every run from a moment lets at most 50 pass in the next hour exactly when no window is open, or the open one lasts out the hour, or it is full |
| PrivacyPassTheorems.WindowBound | server/privacy-pass-issuer.js:319-337 | from a moment without an open window at most 50 pass in an hour |
| PrivacyPassTheorems.HourCanExceedLimit | server/privacy-pass-issuer.js:319-337 | a run, with any blinded elements in its requests, in which 99 requests pass within a millisecond |
| Cbor.DecodeCBORItem | server/webauthn.js:493-554 | the recursive decoder with its loops computes the decoding function on every buffer and terminates |
| Cbor.ExtractAuthDataFromCBOR | server/webauthn.js:479-486 | the authenticator data of an attestation object, own or inherited, or the failures of decoding or of a missing entry |
| Cbor.DecodeItem | server/webauthn.js:493-554 | a successful item starts inside the buffer and ends at a later offset or at NaN; at NaN it reads 0 and stays |
| CborEncoding.HeadIsRead | server/webauthn.js:495-518 | a head of any width that fits is read back with its argument and length |
| CborEncoding.DecodesEncoded | server/webauthn.js:493-554 | an encoded item standing anywhere in a buffer decodes to its value and the offset just past it |
| CborTheorems.RoundTrip | server/webauthn.js:493-554 | decoding inverts encoding for every item and head widths, with any bytes before and after, and gives the exact end |
| CborTheorems.Unambiguous | server/webauthn.js:493-554 | no encoding is a proper prefix of another, and equal encodings have equal values |
| CborTheorems.PlainMapSurvivesIff | server/webauthn.js:539-550 | a map with integer and text keys keeps all its entries exactly when no two keys have the same property name and none is the text __proto__ |
| CborTheorems.WholeIff | server/webauthn.js:539-550 | the same for all keys, in terms of property names |
| CborTheorems.DecimalInjective | server/webauthn.js:547-547 | different integers have different property names |
| CborTheorems.ProtoKeyIsLost | server/webauthn.js:547-547 | a map with the key __proto__ decodes without a property for it; an object there becomes the prototype and anything else is dropped |
| CborTheorems.InheritsAuthData | server/webauthn.js:479-550 | authenticator data inside the value of such a key is returned |
| CborTheorems.ExtractsAuthData | server/webauthn.js:479-486 | the authenticator data is found wherever its entry stands |
| CborTheorems.AuthDataIff | server/webauthn.js:479-486 | from a map of differently named entries exactly the value of the entry authData is returned, unless it is 0 or empty, and otherwise it is missing |
| CborTheorems.AuthDataNeedsMap | server/webauthn.js:479-486 | anything but a map has none, and a failure to decode is passed on |
| CborTheorems.LookupIs | server/webauthn.js:482-485 | a property is found in the nearest object of the prototype chain that has it |
| CborTheorems.AssignIs | server/webauthn.js:547-547 | an assignment sets the prototype under __proto__, to objects only, and any other one property unless it is refused |
| CborTheorems.RefusesIff | server/webauthn.js:547-547 | a name is refused exactly by a byte string at the end of the prototype chain, if no object before it has the name |
| CborTheorems.RefusedHeads | server/webauthn.js:493-518 | past the end, reserved lengths, missing lengths and other major types, each with its outcome |
| CborTheorems.CutString | server/webauthn.js:521-530 | a string longer than what is left is cut off, and its end lies past the buffer |
| CborTheorems.DecimalReadsBack | server/webauthn.js:547-547 | the property name of a number reads back as that number, without leading zeros |
| CborTheorems.ProgressIff | server/webauthn.js:493-554 | every successful item moves to a later offset exactly when the buffer does not end in a string head without its one-byte length |
| CborTheorems.OutputBounded | server/webauthn.js:493-554 | while no offset is lost, all the values in what is decoded, at every depth and prototypes included, are at most as many as the bytes present up to the item's end |
| CborTheorems.LossFillsList | server/webauthn.js:493-538 | after a loss there is no such bound: for every length below 2^32 six bytes decode to a list of that length |
| ConnectFour.CollectLine | server/index.js:4195-4202 | four cells are collected exactly when they are a line of the player |
| ConnectFour.C4CheckWinner | server/index.js:4190-4208 | the nested loops find the first line in scanning order |
| ConnectFour.CheckWinnerIff | server/index.js:4190-4208 | a winner is reported exactly when somebody has four in a row, with cells that show it; a draw exactly when nobody has and the top row is full |
| ConnectFour.C4Drop | server/index.js:4210-4219 | the loop puts the disc on the lowest empty row |
| ConnectFour.DropIs | server/index.js:4210-4219 | a column takes a disc exactly when its top is empty, and the board stays settled |
| ConnectFour.OnlyMoverGainsLine | server/index.js:4190-4219 | a disc gives nobody else a line |
| ConnectFour.TopFullIff | server/index.js:4206-4206 | on a settled board the top row is full exactly when all 42 cells are |
| ConnectFourGame.ConnectFourMessage.OnDrop | server/index.js:4292-4347 | the drop handler's effect on the game, refused drops included |
| ConnectFourGame.ConnectFourMessage.C4StartNewRound | server/index.js:4221-4239 | the first challenger replaces the player who did not win and the board is cleared |
| ConnectFourGame.ConnectFourMessage.OnRematch | server/index.js:4349-4393 | the rematch handler's effect: who may ask (creator, first seat by id or by socket), the challenger or the computer's difficulty, the fresh board |
| ConnectFourGame.ConnectFourMessage.OnResign | server/index.js:4395-4430 | whoever speaks for a seat, by id or by nickname, loses the round: the other wins it, or keeps the seat against the next challenger |
| ConnectFourGame.ConnectFourMessage.OnTagOut | server/index.js:4432-4465 | the tag-out handler's effect |
| ConnectFourGame.ConnectFourMessage.OnJoin | server/index.js:4241-4270 | the free seat, or the end of the queue if it is neither locked nor full, and never twice |
| ConnectFourGame.ConnectFourMessage.OnQueueAgain | server/index.js:4467-4487 | the end of the queue, under the same conditions, while playing |
| ConnectFourGame.ConnectFourMessage.OnSetCpu | server/index.js:4272-4290 | the first player of a waiting game gives the free second seat to the computer |
| ConnectFourGame.ConnectFourMessage.OnSetMaxQueue | server/index.js:4489-4505 | the creator or the first player sets the queue's limit, at most 50 but never below what is queued |
| ConnectFourGame.ConnectFourMessage.OnLockQueue | server/index.js:4507-4521 | the queue is locked or unlocked by the creator or the first player |
| ConnectFourGame.ConnectFourMessage.OnDisconnect | server/index.js:6303-6320 | the seat for which a disconnection sets the timer, by id or socket, if the game is in progress against somebody |
| ConnectFourGame.ConnectFourMessage.OnAbandon | server/index.js:6321-6350 | when the timer fires, the player of its seat loses as by resigning |
| ConnectFourGame.ConnectFourMessage.OnRejoin | server/index.js:2314-2331 | the seat with the returning user's id or nickname, the first before the second, gets the new socket and id; a computer's seat and a finished game stay as they are |
| ConnectFourGame.RoundsAreSound | server/index.js:4300-4338 | in every run, whatever ids the users go by and rejoin under, columns are filled from below, disc counts match the turn, a round has at most 42 drops and goes on only while nobody has a line and a column has room |
| ConnectFourGame.ResultsAreRight | server/index.js:4308-4333 | a round ended by a drop was won by its mover alone with a line, or the board is full without one |
| ConnectFourGame.OnlyMoverWins | server/index.js:4300-4312 | after a drop only its player can have a line, and `c4CheckWinner` reports exactly that |
| ConnectFourGame.EveryoneOnce | server/index.js:4221-4487 | as long as every event has been harmless, nobody plays against themselves, waits while playing or waits twice |
| ConnectFourGame.StepKeepsOnceIff | server/index.js:4221-4521 | one event leaves everyone with one place exactly when it is no rejoin that takes over an id with another place and no request for the computer by a waiting creator called cpu |
| ConnectFourGame.EveryoneOnceIff | server/index.js:4221-4521 | over every run, everyone has one place throughout exactly when they start so and every event is harmless |
| ConnectFourGame.NewGameOnceIff | server/index.js:2762-2784 | a new game gives somebody two places exactly when its creator is called cpu and asks for the computer |
| ConnectFourRules.NewGameIs | server/index.js:2762-2784 | an empty board and the creator to move, at once against a computer and else with a free seat |
| ConnectFourGame.CpuCreatorDoubles | server/index.js:4272-4290 | a run of one event in which a creator called cpu comes to sit in both seats |
| ConnectFourGame.ScoresTally | server/index.js:4308-4320 | in every run the scores count exactly the drops that left a line of their player or a full board, through rematches, resignations and changes of players |
| ConnectFourGame.SomeoneMayDropIff | server/index.js:4300-4307 | in every game in progress somebody may drop, and somebody other than a given id exactly when the turn is not that id's alone; a computer that has been switched off leaves the turn to the id cpu |
| ConnectFourGame.CpuTurnIff | server/index.js:4300-4307 | at the computer's turn exactly the first player and whoever goes by its id may drop |
| ConnectFourGame.OrphanedRun | server/index.js:4221-4239 | a run of three events, for any two users, to a game in progress in which nobody may drop but a user called cpu |
| ConnectFourGame.RejoinKeepsOnceIff | server/index.js:2314-2331 | a rejoin leaves everyone with one place exactly when it changes no id, or the new id has no place yet |
| ConnectFourGame.RejoinCanDouble | server/index.js:2314-2331 | for any two users with different ids, a run of two events after which one id has both seats |
| ConnectFourRules.DropIff | server/index.js:4300-4338 | in every run a drop changes the game exactly if it is in progress, the mover has the seat to move or plays for the computer, and the top of the column is empty |
| ConnectFourRules.DropEffect | server/index.js:4300-4338 | exactly one cell changes, the lowest empty one, to the player to move; then that player has won, or the board is full, or the turn passes |
| ConnectFourRules.ResignIs | server/index.js:4395-4430 | for whom a resignation speaks, who is replaced, and that otherwise nothing changes |
| ConnectFourRules.AbandonIs | server/index.js:6321-6350 | a player who stays away is replaced, or the game ends |
| ConnectFourRules.SeatLeftIs | server/index.js:6303-6320 | whose seat a disconnection puts at stake, in a game against somebody |
| ConnectFourRules.RematchIs | server/index.js:4349-4393 | the loser makes way for a challenger; without one the same two, or the computer again, play on an empty board |
| ConnectFourRules.TagOutIs | server/index.js:4432-4465 | whoever tags out goes to the end of the queue and its head takes the seat on an empty board |
| ConnectFourRules.JoinIs | server/index.js:4241-4270 | a newcomer takes the free seat of a waiting game, or queues if there is room, or changes nothing |
| ConnectFourRules.SettingsAre | server/index.js:4272-4521 | who may set what, and the value that results |
| ConnectFourRules.RejoinIs | server/index.js:2314-2331 | which seat is given back, and what of it changes |
| ConnectFourRules.QueueIsFifo | server/index.js:4221-4487 | in every run an event at most takes the head off the queue and adds one at its end |
| Tetris.TetrisMessage.TetrisFillFromBench | server/index.js:1206-1218 | the head of the bench takes a free seat |
| Tetris.TetrisMessage.TetrisCheckEndCondition | server/index.js:1194-1204 | with at most one active player and no bench the game ends and the last one wins |
| Tetris.TetrisMessage.OnJoin | server/index.js:3028-3092 | reconnection, free seat or bench, in this order |
| Tetris.TetrisMessage.OnGameOver | server/index.js:3147-3195 | the loser is knocked out, or a solo game ends |
| Tetris.TetrisMessage.OnForfeit | server/index.js:3197-3242 | a benched player leaves the queue, an active one is knocked out |
| Tetris.TetrisMessage.OnAwayTooLong | server/index.js:6163-6181 | a player still active after the delay is knocked out |
| Tetris.TetrisMessage.OnTagOut | server/index.js:3244-3283 | the tagger goes to the end of the bench and its head takes the seat |
| Tetris.TetrisMessage.OnIncreaseSlots | server/index.js:3285-3308 | one more seat, up to six, filled from the bench |
| Tetris.TetrisMessage.OnSoloReset | server/index.js:3310-3343 | a game that never had a second player starts over |
| Tetris.TetrisMessage.OnStateUpdate | server/index.js:3113-3119 | the reported score is recorded for a player of the game and nobody else |
| Tetris.TetrisMessage.OnRejoin | server/index.js:2239-2276 | the first seat, or else bench entry, with the returning user's id or nickname gets the new socket and id |
| Tetris.TetrisGarbageTarget | server/index.js:1185-1192 | the target is the first of the best-scoring active opponents, and there is none only without opponents |
| TetrisSafety.StepOk | server/index.js:3028-3343 | every handler, every rejoin included, keeps the invariant of the seats |
| TetrisSafety.EveryoneOnce | server/index.js:3056-3090 | in every game reached by harmless events no id has two places on the seats and the bench |
| TetrisSafety.StepKeepsOnceIff | server/index.js:2239-2276 | one event leaves everyone with one place exactly when it is no rejoin that replaces an id by one with another place |
| TetrisSafety.EveryoneOnceIff | server/index.js:2239-2276 | over every run, everyone has one place throughout exactly when every rejoin in it is harmless |
| TetrisSafety.SeatsAreSound | server/index.js:1194-1218 | over all runs, with any rejoins, active players never exceed the seats, which are 2 to 6; a game in progress has somebody playing; only such a game has a bench |
| TetrisSafety.WinnerIsLastActive | server/index.js:1194-1204 | over all runs a winner is declared only at the end and is the one player still active |
| TetrisSafety.TagOutIs | server/index.js:3244-3283 | what a tag-out amounts to while nobody has two places; the forced fill never happens |
| TetrisSafety.BenchIsQueue | server/index.js:1206-1218 | a handler adds at most one id to the bench's end, seats its head, lets one id leave, or renames one |
| TetrisSafety.NoOvertaking | server/index.js:1206-1218 | whoever is seated from the bench was at its head |
| TetrisSafety.OrderKept | server/index.js:1206-1218 | over any run of harmless events in which two waiting users stay on the bench, the one ahead stays ahead |
| TetrisSafety.NeverSeatedFirst | server/index.js:1206-1218 | after any such run, whatever harmless event comes next, the one behind is not seated |
| TetrisSafety.RejoinKeepsOnceIff | server/index.js:2239-2276 | a rejoin leaves everyone with one place exactly when it replaces no other id, or the new id has no place yet |
| TetrisSafety.RejoinScoredIff | server/index.js:2260-2275 | a rejoin leaves every seated id with a score exactly when the game is finished, it brings no id, it finds no seat, or the new id has a score already |
| TetrisSafety.EveryoneScoredIff | server/index.js:2260-2275 | over every run, every seated id has a score throughout exactly when every rejoin meets that condition |
| TetrisSafety.RejoinLosesScore | server/index.js:2260-2275 | a creator who comes back under a new id keeps one place and loses the score |
| TetrisSafety.RejoinCanDouble | server/index.js:2239-2276 | for any two users with different ids and names a reachable game in which a rejoin gives one id both seats |
| TetrisRules.KnockOutIs | server/index.js:1194-1218 | the player is out, the head of the bench comes in on a new seat; the game ends exactly if fewer than two are left on seats and bench, and whoever is left has won |
| TetrisRules.GameOverIs | server/index.js:3147-3195 | a report knocks out whoever sent it, if active, or ends a solo game |
| TetrisRules.ForfeitIs | server/index.js:3197-3242 | a forfeit takes its sender off the bench, or else knocks out an active one |
| TetrisRules.AwayIs | server/index.js:6163-6181 | staying away knocks out the active player of that id |
| TetrisRules.JoinIs | server/index.js:3028-3092 | whoever is there is reconnected; a newcomer plays while a seat is open and otherwise queues |
| TetrisRules.IncreaseIs | server/index.js:3285-3308 | who may add a seat, up to six, and who takes it |
| TetrisRules.SoloAndScore | server/index.js:3310-3343 | a game never shared starts over with its one player; a reported score is its sender's |
| TetrisRules.RejoinIs | server/index.js:2239-2276 | the first matching seat, or else bench entry, has the new socket and id and nothing else changes |
| TetrisRules.TagOutEffect | server/index.js:3244-3283 | where everyone has one place, who goes, who comes in and that everybody else stays |
| TetrisRules.TagOutNeedsSeat | server/index.js:3244-3283 | a tag-out by anybody but an active player of a game in progress changes nothing |
| TetrisRules.StepContestedIff | server/index.js:3028-3343 | an event leaves two there to play exactly if it is not one of the last two giving up on the bench |
| TetrisRules.GoesOnContestedIff | server/index.js:3028-3343 | over every run a game goes on only while two are there exactly if nobody ever does that |
| TetrisRules.AloneRun | server/index.js:3197-3242 | for any two users a run of three events to a game in progress with one player alone |

## Left out

- AES-GCM, HKDF, X25519, Ed25519 and Ristretto, the JSON of a ratchet header, key erasure and the
  foreign-function layer: library or representation. Sessions exchange headers and bodies; their framing in
  bytes is proved separately (`RatchetWire`).
- Replayed and forged ratchet messages: state changes before authentication and the source leaves replay
  tracking to the caller.
- `generate_consistency_proof`, `verify_consistency_proof` and `sign_head`: the consistency check compares
  sizes and hashes structurally and does not support an append-only theorem.
- Redis storage, bcrypt, timers as clock objects, creator tables, view tokens and verbal codes in `rooms.js`.
- Session resumption in `server/index.js`, which appends to a room's users outside the join lock. The filters
  of stale users there are modelled.
- The HMAC stand-in for the group in `privacy-pass-issuer.js`, and HTTP routes.
- Arguments of 2^53 and more in CBOR, which JavaScript rounds: the model computes them exactly and the round
  trip is claimed below 2^53. Property names of keys that are neither numbers nor texts are a parameter.
- `parseCOSEPublicKey`, a second and smaller decoder.
- The older Tetris schema with two players, Tetris timers and emits, and the other games.
- RoomTables.RoomManagerObject.OnDeleteRoom: creator tracking, expiry timers and media state are left out; the
  token tables and the room are not affected by them.
- Cbor.DecodeCBORItem: an argument of 2^53 or more is exact in the model where JavaScript rounds it.
- PrivacyPassTheorems.NoTokenTwice: assumes canonical point encodings, which is a property of the library.
- DoubleRatchet.DoubleRatchetSession.Encrypt: errors of serialisation and of the cipher are not modelled.
