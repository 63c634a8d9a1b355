/**
 The public key registry (server/key-registry.js): bundles by socket, room membership, and the leaves
 of a Merkle tree over the registered identity keys.
*/
module KeyRegistry {
  import opened MerkleTree
  import opened MerkleHash
  import opened KeyTransparency
  import opened Wrappers

  datatype Bundle = Bundle(ik: string, ek: string, pq: string, timestamp: int, roomCode: string)

  datatype Leaf = Leaf(socketId: string, leafData: Bytes)

  datatype RegistryProof = RegistryProof(index: nat, treeSize: nat, root: Digest, siblings: seq<Digest>,
                                         leafData: Bytes)

  datatype Listing = Listing(socketId: string, bundle: Bundle, proof: Option<RegistryProof>)

  /** Buffer.from(s, 'utf8') and Buffer.from(s, 'base64'). */
  type Utf8 = string -> Bytes
  type Base64 = string -> Bytes

  datatype Encodings = Encodings(utf8: Utf8, base64: Base64)

  function LeafData(utf8: Utf8, socketId: string, ik: string): Bytes {
    utf8(socketId + ":" + ik)
  }

  // ----- what is accepted -----

  const MIN_KEY_BYTES: nat := 32
  const MAX_KEY_BYTES: nat := 512
  const PQ_KEY_BYTES: nat := 1184

  /** The URL-safe alphabet turned into the standard one. */
  function Standard(s: string): string {
    seq(|s|, i requires 0 <= i < |s| => if s[i] == '-' then '+' else if s[i] == '_' then '/' else s[i])
  }

  predicate PlausibleKey(base64: Base64, key: string) {
    MIN_KEY_BYTES <= |base64(Standard(key))| <= MAX_KEY_BYTES
  }

  /** Both keys of plausible length, and a post-quantum key, if there is one, of exactly its length. */
  predicate IsValidBundle(base64: Base64, bundle: Bundle) {
    && PlausibleKey(base64, bundle.ik) && PlausibleKey(base64, bundle.ek)
    && (bundle.pq != "" ==> |base64(bundle.pq)| == PQ_KEY_BYTES)
  }

  // ----- the registry as a value -----

  /** Room members are kept in the order in which they joined, as a JavaScript Set does. */
  datatype Registry = Registry(bundles: map<string, Bundle>, members: map<string, seq<string>>, leaves: seq<Leaf>)

  /** Position of a socket's leaf, or the number of leaves when it has none. */
  function FindLeaf(leaves: seq<Leaf>, socketId: string): (i: nat)
    ensures i <= |leaves|
    ensures i < |leaves| ==> leaves[i].socketId == socketId
    ensures forall j :: 0 <= j < i ==> leaves[j].socketId != socketId
    decreases |leaves|
  {
    if leaves == [] || leaves[0].socketId == socketId then 0 else 1 + FindLeaf(leaves[1..], socketId)
  }

  function AddMember(members: map<string, seq<string>>, roomCode: string, socketId: string): map<string, seq<string>> {
    if roomCode == "" then members
    else
      var present := if roomCode in members then members[roomCode] else [];
      members[roomCode := if socketId in present then present else present + [socketId]]
  }

  function Without(xs: seq<string>, x: string): seq<string> {
    if xs == [] then [] else (if xs[0] == x then [] else [xs[0]]) + Without(xs[1..], x)
  }

  function DropMember(members: map<string, seq<string>>, roomCode: string, socketId: string): map<string, seq<string>> {
    if roomCode == "" || roomCode !in members then members
    else
      var rest := Without(members[roomCode], socketId);
      if rest == [] then members - {roomCode} else members[roomCode := rest]
  }

  function PutLeaf(leaves: seq<Leaf>, leaf: Leaf): seq<Leaf> {
    var i := FindLeaf(leaves, leaf.socketId);
    if i < |leaves| then leaves[i := leaf] else leaves + [leaf]
  }

  function DropLeaf(leaves: seq<Leaf>, socketId: string): seq<Leaf> {
    var i := FindLeaf(leaves, socketId);
    if i < |leaves| then leaves[..i] + leaves[i + 1..] else leaves
  }

  /** What is offered is None when it is not an object with text keys. */
  predicate Accepted(base64: Base64, offered: Option<Bundle>) {
    offered.Some? && IsValidBundle(base64, offered.value)
  }

  /** An offer that is not accepted changes nothing. */
  function Register(enc: Encodings, reg: Registry, socketId: string, offered: Option<Bundle>): Registry {
    if !Accepted(enc.base64, offered) then reg else
    var bundle := offered.value;
    Registry(reg.bundles[socketId := bundle],
             AddMember(reg.members, bundle.roomCode, socketId),
             PutLeaf(reg.leaves, Leaf(socketId, LeafData(enc.utf8, socketId, bundle.ik))))
  }

  function Remove(reg: Registry, socketId: string): Registry {
    Registry(reg.bundles - {socketId},
             if socketId in reg.bundles then DropMember(reg.members, reg.bundles[socketId].roomCode, socketId)
             else reg.members,
             DropLeaf(reg.leaves, socketId))
  }

  // ----- leaves and bundles agree -----

  ghost predicate DistinctSockets(leaves: seq<Leaf>) {
    forall i, j :: 0 <= i < j < |leaves| ==> leaves[i].socketId != leaves[j].socketId
  }

  /** The leaf is that of a bundle and holds the bundle's identity key. */
  predicate LeafAgrees(utf8: Utf8, bundles: map<string, Bundle>, leaf: Leaf) {
    leaf.socketId in bundles && leaf.leafData == LeafData(utf8, leaf.socketId, bundles[leaf.socketId].ik)
  }

  predicate HasLeaf(leaves: seq<Leaf>, socketId: string) {
    FindLeaf(leaves, socketId) < |leaves|
  }

  /** One leaf per bundle, none else, each holding its bundle's identity key. */
  ghost predicate Agree(utf8: Utf8, reg: Registry) {
    && DistinctSockets(reg.leaves)
    && (forall i :: 0 <= i < |reg.leaves| ==> LeafAgrees(utf8, reg.bundles, reg.leaves[i]))
    && (forall s :: s in reg.bundles ==> HasLeaf(reg.leaves, s))
  }

  lemma HasLeafAt(leaves: seq<Leaf>, i: nat)
    requires i < |leaves|
    ensures HasLeaf(leaves, leaves[i].socketId)
  {
  }

  lemma PutLeafKeeps(leaves: seq<Leaf>, leaf: Leaf, s: string)
    requires DistinctSockets(leaves)
    ensures DistinctSockets(PutLeaf(leaves, leaf))
    ensures HasLeaf(PutLeaf(leaves, leaf), s) <==> s == leaf.socketId || HasLeaf(leaves, s)
  {
    var at, after := FindLeaf(leaves, leaf.socketId), PutLeaf(leaves, leaf);
    HasLeafAt(after, at);
    if HasLeaf(leaves, s) {
      HasLeafAt(after, FindLeaf(leaves, s));
    }
    if HasLeaf(after, s) && FindLeaf(after, s) != at {
      HasLeafAt(leaves, FindLeaf(after, s));
    }
  }

  lemma RegisterAgrees(enc: Encodings, reg: Registry, socketId: string, offered: Option<Bundle>)
    requires Agree(enc.utf8, reg)
    ensures Agree(enc.utf8, Register(enc, reg, socketId, offered))
  {
    if Accepted(enc.base64, offered) {
      var reg' := Register(enc, reg, socketId, offered);
      var leaf := Leaf(socketId, LeafData(enc.utf8, socketId, offered.value.ik));
      forall s
        ensures DistinctSockets(reg'.leaves)
        ensures s in reg'.bundles ==> HasLeaf(reg'.leaves, s)
      {
        PutLeafKeeps(reg.leaves, leaf, s);
      }
      forall i | 0 <= i < |reg'.leaves|
        ensures LeafAgrees(enc.utf8, reg'.bundles, reg'.leaves[i])
      {
        assert reg'.leaves[i] == leaf || (reg'.leaves[i] == reg.leaves[i] && reg.leaves[i].socketId != socketId);
      }
    }
  }

  lemma DropLeafAt(leaves: seq<Leaf>, socketId: string, i: nat)
    requires DistinctSockets(leaves) && i < |DropLeaf(leaves, socketId)|
    ensures var at := FindLeaf(leaves, socketId);
            var k := if i < at then i else i + 1;
            k < |leaves| && DropLeaf(leaves, socketId)[i] == leaves[k] && leaves[k].socketId != socketId
  {
    var at := FindLeaf(leaves, socketId);
    if at < |leaves| {
      var front, back := leaves[..at], leaves[at + 1..];
      assert DropLeaf(leaves, socketId) == front + back;
      if i < at {
        assert (front + back)[i] == front[i];
      } else {
        assert (front + back)[i] == back[i - at];
        assert leaves[at].socketId != leaves[i + 1].socketId;
      }
    }
  }

  lemma DropLeafKeeps(leaves: seq<Leaf>, socketId: string, s: string)
    requires DistinctSockets(leaves) && HasLeaf(leaves, s) && s != socketId
    ensures HasLeaf(DropLeaf(leaves, socketId), s)
  {
    var at, i := FindLeaf(leaves, socketId), FindLeaf(leaves, s);
    var k := if i < at then i else i - 1;
    assert DropLeaf(leaves, socketId)[k] == leaves[i];
    HasLeafAt(DropLeaf(leaves, socketId), k);
  }

  lemma RemoveAgrees(utf8: Utf8, reg: Registry, socketId: string)
    requires Agree(utf8, reg)
    ensures Agree(utf8, Remove(reg, socketId))
  {
    var reg' := Remove(reg, socketId);
    forall i | 0 <= i < |reg'.leaves|
      ensures LeafAgrees(utf8, reg'.bundles, reg'.leaves[i])
    {
      DropLeafAt(reg.leaves, socketId, i);
    }
    forall s | s in reg'.bundles
      ensures HasLeaf(reg'.leaves, s)
    {
      DropLeafKeeps(reg.leaves, socketId, s);
    }
    forall i, j | 0 <= i < j < |reg'.leaves|
      ensures reg'.leaves[i].socketId != reg'.leaves[j].socketId
    {
      DropLeafAt(reg.leaves, socketId, i);
      DropLeafAt(reg.leaves, socketId, j);
    }
  }

  datatype Op = RegisterOp(socketId: string, offered: Option<Bundle>) | RemoveOp(socketId: string)

  function Apply(enc: Encodings, reg: Registry, op: Op): Registry {
    match op
    case RegisterOp(socketId, offered) => Register(enc, reg, socketId, offered)
    case RemoveOp(socketId) => Remove(reg, socketId)
  }

  function ApplyAll(enc: Encodings, ops: seq<Op>): Registry {
    if ops == [] then Registry(map[], map[], [])
    else Apply(enc, ApplyAll(enc, ops[..|ops| - 1]), ops[|ops| - 1])
  }

  /** In every reachable state leaves and bundles agree, and every stored bundle is one that is accepted. */
  lemma {:induction false} AlwaysAgree(enc: Encodings, ops: seq<Op>)
    ensures var reg := ApplyAll(enc, ops);
            Agree(enc.utf8, reg) && forall s :: s in reg.bundles ==> IsValidBundle(enc.base64, reg.bundles[s])
  {
    if ops != [] {
      var before, op := ApplyAll(enc, ops[..|ops| - 1]), ops[|ops| - 1];
      AlwaysAgree(enc, ops[..|ops| - 1]);
      match op {
        case RegisterOp(socketId, offered) => RegisterAgrees(enc, before, socketId, offered);
        case RemoveOp(socketId) => RemoveAgrees(enc.utf8, before, socketId);
      }
    }
  }

  // ----- proofs handed out with bundles -----

  function LeafDatas(leaves: seq<Leaf>): (ds: seq<Bytes>)
    ensures |ds| == |leaves| && forall i :: 0 <= i < |ds| ==> ds[i] == leaves[i].leafData
  {
    seq(|leaves|, i requires 0 <= i < |leaves| => leaves[i].leafData)
  }

  /** The inclusion proof of a socket's leaf: root and siblings of RFC 6962, as in the Rust tree. */
  ghost function InclusionOf(hash: Hash, leaves: seq<Leaf>, socketId: string): Option<RegistryProof> {
    var i := FindLeaf(leaves, socketId);
    if i == |leaves| then None else
    var p := ProofOf(hash, LeafDatas(leaves), i);
    Some(RegistryProof(i, |leaves|, RootOf(hash, LeafDatas(leaves)), p.siblings, leaves[i].leafData))
  }

  /** The listing of a room: the members with a bundle, in order, except the requester. */
  ghost function ListRoom(hash: Hash, reg: Registry, members: seq<string>, exclude: string): seq<Listing> {
    if members == [] then [] else
    var s := members[0];
    (if s == exclude || s !in reg.bundles then []
     else [Listing(s, reg.bundles[s], InclusionOf(hash, reg.leaves, s))])
    + ListRoom(hash, reg, members[1..], exclude)
  }

  /** A listing whose proof holds the identity key of its own bundle and verifies against its own root. */
  predicate Vouched(hash: Hash, utf8: Utf8, l: Listing) {
    && l.proof.Some?
    && l.proof.value.leafData == LeafData(utf8, l.socketId, l.bundle.ik)
    && l.proof.value.treeSize <= USIZE_MAX
    && Verdict(hash, l.proof.value.root, l.proof.value.leafData,
               InclusionProof(l.proof.value.index, l.proof.value.treeSize, l.proof.value.siblings)) == Ok(true)
  }

  lemma InclusionVouched(hash: Hash, utf8: Utf8, reg: Registry, s: string)
    requires Agree(utf8, reg) && |reg.leaves| < USIZE_MAX && s in reg.bundles
    ensures Vouched(hash, utf8, Listing(s, reg.bundles[s], InclusionOf(hash, reg.leaves, s)))
  {
    ProofComplete(hash, LeafDatas(reg.leaves), FindLeaf(reg.leaves, s));
  }

  /** Every entry handed to a room carries a proof that verifies, for the key it carries. */
  lemma {:induction false} ListingsVouched(hash: Hash, utf8: Utf8, reg: Registry, members: seq<string>, exclude: string)
    requires Agree(utf8, reg) && |reg.leaves| < USIZE_MAX
    ensures forall l :: l in ListRoom(hash, reg, members, exclude) ==>
              Vouched(hash, utf8, l) && l.socketId in members && l.socketId != exclude
  {
    if members != [] {
      ListingsVouched(hash, utf8, reg, members[1..], exclude);
      if members[0] in reg.bundles {
        InclusionVouched(hash, utf8, reg, members[0]);
      }
    }
  }

  /** And no member with a bundle is left out. */
  lemma {:induction false} ListingsComplete(hash: Hash, reg: Registry, members: seq<string>, exclude: string, s: string)
    requires s in members && s != exclude && s in reg.bundles
    ensures Listing(s, reg.bundles[s], InclusionOf(hash, reg.leaves, s)) in ListRoom(hash, reg, members, exclude)
  {
    if members[0] != s {
      ListingsComplete(hash, reg, members[1..], exclude, s);
    }
  }

  // ----- the module state and its operations -----

  class KeyRegistry {
    const hash: Hash
    const enc: Encodings
    var bundles: map<string, Bundle>
    var roomMembers: map<string, seq<string>>
    var registryLeaves: seq<Leaf>

    ghost function View(): Registry
      reads this
    {
      Registry(bundles, roomMembers, registryLeaves)
    }

    ghost predicate Valid()
      reads this
    {
      Agree(enc.utf8, View()) && |registryLeaves| < USIZE_MAX
    }

    constructor (hash: Hash, enc: Encodings)
      ensures Valid() && View() == Registry(map[], map[], []) && this.hash == hash && this.enc == enc
    {
      this.hash, this.enc := hash, enc;
      bundles, roomMembers, registryLeaves := map[], map[], [];
    }

    /** findIndex, or the length when there is none. */
    method IndexOfLeaf(socketId: string) returns (i: nat)
      ensures i == FindLeaf(registryLeaves, socketId)
    {
      i := 0;
      while i < |registryLeaves| && registryLeaves[i].socketId != socketId
        invariant i <= |registryLeaves|
        invariant i + FindLeaf(registryLeaves[i..], socketId) == FindLeaf(registryLeaves, socketId)
      {
        assert registryLeaves[i..][1..] == registryLeaves[i + 1..];
        i := i + 1;
      }
    }

    method AddRoomMember(roomCode: string, socketId: string)
      modifies this`roomMembers
      ensures roomMembers == AddMember(old(roomMembers), roomCode, socketId)
    {
      if roomCode != "" {
        if roomCode !in roomMembers {
          roomMembers := roomMembers[roomCode := []];
        }
        if socketId !in roomMembers[roomCode] {
          roomMembers := roomMembers[roomCode := roomMembers[roomCode] + [socketId]];
        }
      }
    }

    method DropRoomMember(roomCode: string, socketId: string)
      modifies this`roomMembers
      ensures roomMembers == DropMember(old(roomMembers), roomCode, socketId)
    {
      if roomCode != "" && roomCode in roomMembers {
        var rest := Without(roomMembers[roomCode], socketId);
        if rest == [] {
          roomMembers := roomMembers - {roomCode};
        } else {
          roomMembers := roomMembers[roomCode := rest];
        }
      }
    }

    method RegisterKeyBundle(socketId: string, offered: Option<Bundle>) returns (ok: bool)
      requires Valid() && |registryLeaves| + 1 < USIZE_MAX
      modifies this
      ensures Valid() && ok == Accepted(enc.base64, offered) && View() == Register(enc, old(View()), socketId, offered)
    {
      RegisterAgrees(enc, View(), socketId, offered);
      if offered.None? || !IsValidBundle(enc.base64, offered.value) {
        return false;
      }
      var bundle := offered.value;
      bundles := bundles[socketId := bundle];
      AddRoomMember(bundle.roomCode, socketId);
      var leaf := Leaf(socketId, LeafData(enc.utf8, socketId, bundle.ik));
      var existing := IndexOfLeaf(socketId);
      if existing < |registryLeaves| {
        registryLeaves := registryLeaves[existing := leaf];
      } else {
        registryLeaves := registryLeaves + [leaf];
      }
      ok := true;
    }

    method RemoveKeyBundle(socketId: string)
      requires Valid()
      modifies this
      ensures Valid() && View() == Remove(old(View()), socketId)
    {
      ghost var before := View();
      RemoveAgrees(enc.utf8, before, socketId);
      if socketId in bundles {
        DropRoomMember(bundles[socketId].roomCode, socketId);
      }
      bundles := bundles - {socketId};
      var leafIdx := IndexOfLeaf(socketId);
      if leafIdx < |registryLeaves| {
        registryLeaves := registryLeaves[..leafIdx] + registryLeaves[leafIdx + 1..];
      }
      assert registryLeaves == DropLeaf(before.leaves, socketId);
    }

    method GetInclusionProof(socketId: string) returns (r: Option<RegistryProof>)
      requires Valid()
      ensures r == InclusionOf(hash, registryLeaves, socketId)
    {
      var idx := IndexOfLeaf(socketId);
      if idx == |registryLeaves| {
        return None;
      }
      var datas := LeafDatas(registryLeaves);
      var siblings, root := LevelLoop(hash, LeafHashes(hash, datas), idx);
      MthIsTree(hash, datas, 0, |datas|);
      r := Some(RegistryProof(idx, |registryLeaves|, root, siblings, registryLeaves[idx].leafData));
    }

    method GetBundlesForRoom(roomCode: string, exclude: string) returns (result: seq<Listing>)
      requires Valid()
      ensures result == if roomCode in roomMembers then ListRoom(hash, View(), roomMembers[roomCode], exclude) else []
      ensures forall l :: l in result ==> Vouched(hash, enc.utf8, l)
    {
      result := [];
      if roomCode !in roomMembers {
        return;
      }
      var members := roomMembers[roomCode];
      var i := 0;
      while i < |members|
        invariant i <= |members|
        invariant result + ListRoom(hash, View(), members[i..], exclude) == ListRoom(hash, View(), members, exclude)
      {
        var s := members[i];
        assert members[i..][1..] == members[i + 1..];
        if s != exclude && s in bundles {
          var proof := GetInclusionProof(s);
          result := result + [Listing(s, bundles[s], proof)];
        }
        i := i + 1;
      }
      ListingsVouched(hash, enc.utf8, View(), members, exclude);
    }
  }

  /** The level size that the loop tracks beside the level is its length. */
  method LevelLoop(hash: Hash, leafHashes: seq<Digest>, idx: nat) returns (siblings: seq<Digest>, root: Digest)
    requires idx < |leafHashes|
    ensures siblings == Path(JoinOf(hash), idx, leafHashes, 0, |leafHashes|)
    ensures root == Tree(JoinOf(hash), leafHashes, 0, |leafHashes|)
  {
    siblings := [];
    var level, nodeIdx: nat, levelSize := leafHashes, idx, |leafHashes|;
    while levelSize > 1
      invariant levelSize == |level| && nodeIdx < |level|
      invariant siblings + Path(JoinOf(hash), nodeIdx, level, 0, |level|) ==
                Path(JoinOf(hash), idx, leafHashes, 0, |leafHashes|)
      invariant Tree(JoinOf(hash), level, 0, |level|) == Tree(JoinOf(hash), leafHashes, 0, |leafHashes|)
      decreases levelSize
    {
      PathProgress(hash, level, nodeIdx, siblings, Path(JoinOf(hash), idx, leafHashes, 0, |leafHashes|));
      LevelKeepsTree(hash, level);
      siblings := AppendSiblingJs(siblings, level, nodeIdx, levelSize);
      level := NextLevelJs(hash, level);
      nodeIdx := nodeIdx / 2;
      levelSize := (levelSize + 1) / 2;
    }
    assert Path(JoinOf(hash), nodeIdx, level, 0, 1) == [];
    root := level[0];
  }

  method AppendSiblingJs(siblings: seq<Digest>, level: seq<Digest>, nodeIdx: nat, levelSize: nat)
    returns (more: seq<Digest>)
    requires nodeIdx < |level| == levelSize
    ensures more == siblings + Sibling(nodeIdx, nodeIdx / 2, level)
  {
    more := siblings;
    if nodeIdx % 2 == 0 && nodeIdx + 1 < levelSize {
      more := more + [level[nodeIdx + 1]];
    } else if nodeIdx % 2 != 0 {
      more := more + [level[nodeIdx - 1]];
    }
  }

  method NextLevelJs(hash: Hash, level: seq<Digest>) returns (next: seq<Digest>)
    ensures next == PairUp(JoinOf(hash), level)
  {
    next := [];
    var i := 0;
    while i < |level|
      invariant i == 2 * |next| && |next| <= (|level| + 1) / 2
      invariant next == PairUp(JoinOf(hash), level)[..|next|]
    {
      next := next + [if i + 1 < |level| then HashNode(hash, level[i], level[i + 1]) else level[i]];
      i := i + 2;
    }
  }
}
