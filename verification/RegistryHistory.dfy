/**
 What the key registry holds after any sequence of registrations and removals, told from the sequence alone: for
 each socket the last accepted offer since its last removal, and for each room who has been listed and not removed.
*/
module RegistryHistory {
  import opened MerkleTree
  import opened MerkleHash
  import opened KeyTransparency
  import opened KeyRegistry
  import opened Wrappers

  // ----- what is accepted -----

  /** Accepted are two keys of 32 to 512 bytes and, if there is a post-quantum key, one of 1184. */
  lemma AcceptedIff(base64: Base64, offered: Option<Bundle>)
    ensures Accepted(base64, offered) <==>
            && offered.Some?
            && 32 <= |base64(Standard(offered.value.ik))| <= 512 && 32 <= |base64(Standard(offered.value.ek))| <= 512
            && (offered.value.pq == "" || |base64(offered.value.pq)| == 1184)
  {
  }

  /** The keys are read in the standard alphabet, whichever they are written in. */
  lemma StandardIs(s: string, i: nat)
    requires i < |s|
    ensures |Standard(s)| == |s|
    ensures Standard(s)[i] == match s[i] case '-' => '+' case '_' => '/' case c => c
  {
  }

  // ----- the bundle of a socket -----

  function Before(ops: seq<Op>): seq<Op>
    requires ops != []
  {
    ops[..|ops| - 1]
  }

  function Latest(ops: seq<Op>): Op
    requires ops != []
  {
    ops[|ops| - 1]
  }

  /** The last accepted offer of the socket since its last removal. */
  function LastOffer(enc: Encodings, ops: seq<Op>, s: string): Option<Bundle> {
    if ops == [] then None
    else match Latest(ops)
         case RegisterOp(t, offered) =>
           if t == s && Accepted(enc.base64, offered) then offered else LastOffer(enc, Before(ops), s)
         case RemoveOp(t) => if t == s then None else LastOffer(enc, Before(ops), s)
  }

  function BundleOf(reg: Registry, s: string): Option<Bundle> {
    if s in reg.bundles then Some(reg.bundles[s]) else None
  }

  lemma {:induction false} BundleIsLastOffer(enc: Encodings, ops: seq<Op>, s: string)
    ensures BundleOf(ApplyAll(enc, ops), s) == LastOffer(enc, ops, s)
  {
    if ops != [] { BundleIsLastOffer(enc, Before(ops), s); }
  }

  // ----- the leaves -----

  function Sockets(leaves: seq<Leaf>): (ss: seq<string>)
    ensures |ss| == |leaves| && forall i :: 0 <= i < |ss| ==> ss[i] == leaves[i].socketId
  {
    seq(|leaves|, i requires 0 <= i < |leaves| => leaves[i].socketId)
  }

  /** The sockets with a bundle, in the order of their first acceptance since their last removal. */
  function Registered(enc: Encodings, ops: seq<Op>): seq<string> {
    if ops == [] then []
    else
      var ss := Registered(enc, Before(ops));
      match Latest(ops)
      case RegisterOp(t, offered) => if Accepted(enc.base64, offered) && t !in ss then ss + [t] else ss
      case RemoveOp(t) => Without(ss, t)
  }

  lemma {:induction false} WithoutIs(xs: seq<string>, x: string, i: nat)
    requires i <= |xs| && (forall j :: 0 <= j < i ==> xs[j] != x)
    requires i < |xs| ==> xs[i] == x && forall j :: i < j < |xs| ==> xs[j] != x
    ensures Without(xs, x) == if i < |xs| then xs[..i] + xs[i + 1..] else xs
  {
    if xs != [] {
      if i == 0 {
        WithoutIs(xs[1..], x, |xs| - 1);
        assert xs[..0] + xs[1..] == xs[1..];
      } else {
        assert forall j :: 0 <= j < |xs| - 1 ==> xs[1..][j] == xs[j + 1];
        WithoutIs(xs[1..], x, i - 1);
        if i < |xs| {
          assert xs[..i] + xs[i + 1..] == [xs[0]] + (xs[1..][..i - 1] + xs[1..][i..]);
        }
      }
    }
  }

  lemma PutSockets(leaves: seq<Leaf>, leaf: Leaf)
    ensures Sockets(PutLeaf(leaves, leaf)) ==
            if leaf.socketId in Sockets(leaves) then Sockets(leaves) else Sockets(leaves) + [leaf.socketId]
  {
    if FindLeaf(leaves, leaf.socketId) < |leaves| {
      assert Sockets(leaves)[FindLeaf(leaves, leaf.socketId)] == leaf.socketId;
    }
  }

  lemma DropSockets(leaves: seq<Leaf>, s: string)
    requires DistinctSockets(leaves)
    ensures Sockets(DropLeaf(leaves, s)) == Without(Sockets(leaves), s)
  {
    var at := FindLeaf(leaves, s);
    WithoutIs(Sockets(leaves), s, at);
    if at < |leaves| {
      assert Sockets(DropLeaf(leaves, s)) == Sockets(leaves)[..at] + Sockets(leaves)[at + 1..];
    }
  }

  /** The leaves stand in that order: registering again keeps a place, and removing closes the gap. */
  lemma {:induction false} LeavesInOrder(enc: Encodings, ops: seq<Op>)
    ensures Sockets(ApplyAll(enc, ops).leaves) == Registered(enc, ops)
  {
    if ops != [] {
      var reg := ApplyAll(enc, Before(ops));
      LeavesInOrder(enc, Before(ops));
      AlwaysAgree(enc, Before(ops));
      match Latest(ops)
      case RegisterOp(t, offered) =>
        if Accepted(enc.base64, offered) {
          PutSockets(reg.leaves, Leaf(t, LeafData(enc.utf8, t, offered.value.ik)));
        }
      case RemoveOp(t) => DropSockets(reg.leaves, t);
    }
  }

  /** A socket has one leaf, with the identity key of its last offer, or none if it has no offer standing. */
  lemma LeafIsLastOffer(enc: Encodings, ops: seq<Op>, s: string)
    ensures var leaves := ApplyAll(enc, ops).leaves;
            match LastOffer(enc, ops, s)
            case None => forall i :: 0 <= i < |leaves| ==> leaves[i].socketId != s
            case Some(bundle) =>
              exists i :: 0 <= i < |leaves| && leaves[i] == Leaf(s, enc.utf8(s + ":" + bundle.ik))
                          && forall j :: 0 <= j < |leaves| && j != i ==> leaves[j].socketId != s
  {
    var reg := ApplyAll(enc, ops);
    AlwaysAgree(enc, ops);
    BundleIsLastOffer(enc, ops, s);
    if s in reg.bundles {
      var i := FindLeaf(reg.leaves, s);
      assert HasLeaf(reg.leaves, s) && LeafAgrees(enc.utf8, reg.bundles, reg.leaves[i]);
      assert reg.leaves[i] == Leaf(s, enc.utf8(s + ":" + reg.bundles[s].ik));
    } else {
      forall i | 0 <= i < |reg.leaves| ensures reg.leaves[i].socketId != s {
        assert LeafAgrees(enc.utf8, reg.bundles, reg.leaves[i]);
      }
    }
  }

  // ----- the rooms -----

  function MembersOf(reg: Registry, room: string): seq<string> {
    if room in reg.members then reg.members[room] else []
  }

  /** Registered with this room and not removed while its bundle was of this room. */
  predicate Listed(enc: Encodings, ops: seq<Op>, room: string, s: string) {
    if ops == [] then false
    else match Latest(ops)
         case RegisterOp(t, offered) =>
           (t == s && Accepted(enc.base64, offered) && offered.value.roomCode == room)
           || Listed(enc, Before(ops), room, s)
         case RemoveOp(t) =>
           Listed(enc, Before(ops), room, s)
           && !(t == s && LastOffer(enc, Before(ops), s).Some? && LastOffer(enc, Before(ops), s).value.roomCode == room)
  }

  predicate Once(xs: seq<string>) {
    forall i, j :: 0 <= i < j < |xs| ==> xs[i] != xs[j]
  }

  lemma {:induction false} WithoutHas(xs: seq<string>, x: string, y: string)
    ensures y in Without(xs, x) <==> y in xs && y != x
  {
    if xs != [] { WithoutHas(xs[1..], x, y); }
  }

  lemma {:induction false} WithoutKeepsOnce(xs: seq<string>, x: string)
    requires Once(xs)
    ensures Once(Without(xs, x)) && forall y :: y in Without(xs, x) ==> y in xs
  {
    if xs != [] {
      assert forall i :: 0 <= i < |xs[1..]| ==> xs[1..][i] == xs[i + 1];
      WithoutKeepsOnce(xs[1..], x);
      var rest := Without(xs[1..], x);
      forall j | 0 <= j < |rest| ensures rest[j] != xs[0] {
        assert rest[j] in xs[1..];
      }
    }
  }

  lemma AddHas(members: map<string, seq<string>>, code: string, s: string, room: string, y: string)
    requires room != ""
    ensures var before := if room in members then members[room] else [];
            var members' := AddMember(members, code, s);
            var now := if room in members' then members'[room] else [];
            && (y in now <==> y in before || (room == code && y == s)) && (Once(before) ==> Once(now))
  {
    var before := if room in members then members[room] else [];
    var members' := AddMember(members, code, s);
    var now := if room in members' then members'[room] else [];
    if code != room {
      assert now == before;
    } else if s !in before {
      assert now == before + [s] && now[|before|] == s;
      if y in before {
        var i :| 0 <= i < |before| && before[i] == y;
        assert now[i] == y;
      }
    }
  }

  lemma DropHas(members: map<string, seq<string>>, code: string, s: string, room: string, y: string)
    requires room != ""
    ensures var before := if room in members then members[room] else [];
            var members' := DropMember(members, code, s);
            var now := if room in members' then members'[room] else [];
            && (y in now <==> y in before && !(room == code && y == s)) && (Once(before) ==> Once(now))
  {
    if code in members {
      WithoutHas(members[code], s, y);
      if Once(members[code]) { WithoutKeepsOnce(members[code], s); }
    }
  }

  /** A room lists exactly those, each once. */
  lemma {:induction false} ListedIff(enc: Encodings, ops: seq<Op>, room: string, s: string)
    requires room != ""
    ensures s in MembersOf(ApplyAll(enc, ops), room) <==> Listed(enc, ops, room, s)
    ensures Once(MembersOf(ApplyAll(enc, ops), room))
  {
    if ops != [] {
      var reg := ApplyAll(enc, Before(ops));
      ListedIff(enc, Before(ops), room, s);
      match Latest(ops)
      case RegisterOp(t, offered) =>
        if Accepted(enc.base64, offered) { AddHas(reg.members, offered.value.roomCode, t, room, s); }
      case RemoveOp(t) =>
        BundleIsLastOffer(enc, Before(ops), t);
        if t in reg.bundles { DropHas(reg.members, reg.bundles[t].roomCode, t, room, s); }
    }
  }

  /** So a registration is seen at once by the other members of the room, until the socket is removed. */
  lemma RegisteredIsListed(enc: Encodings, ops: seq<Op>, s: string, bundle: Bundle, hash: Hash, exclude: string)
    requires Accepted(enc.base64, Some(bundle)) && bundle.roomCode != "" && s != exclude
    ensures var reg := ApplyAll(enc, ops + [RegisterOp(s, Some(bundle))]);
            && s in MembersOf(reg, bundle.roomCode)
            && Listing(s, bundle, InclusionOf(hash, reg.leaves, s))
               in ListRoom(hash, reg, MembersOf(reg, bundle.roomCode), exclude)
    ensures var reg := ApplyAll(enc, ops + [RegisterOp(s, Some(bundle)), RemoveOp(s)]);
            s !in MembersOf(reg, bundle.roomCode) && s !in reg.bundles
  {
    var once := ops + [RegisterOp(s, Some(bundle))];
    var twice := ops + [RegisterOp(s, Some(bundle)), RemoveOp(s)];
    assert Latest(once) == RegisterOp(s, Some(bundle));
    assert Latest(twice) == RemoveOp(s) && Before(twice) == once;
    ListedIff(enc, once, bundle.roomCode, s);
    ListedIff(enc, twice, bundle.roomCode, s);
    BundleIsLastOffer(enc, once, s);
    BundleIsLastOffer(enc, twice, s);
    var reg := ApplyAll(enc, once);
    ListingsComplete(hash, reg, MembersOf(reg, bundle.roomCode), exclude, s);
  }

  /**
   But a socket that registers again under another room stays listed in the first, with the bundle of the
   second, even after it has been removed from the second.
  */
  lemma StaysListed(enc: Encodings, s: string, first: Bundle, second: Bundle)
    requires Accepted(enc.base64, Some(first)) && Accepted(enc.base64, Some(second))
    requires first.roomCode != "" && first.roomCode != second.roomCode
    ensures var ops := [RegisterOp(s, Some(first)), RegisterOp(s, Some(second))];
            && s in MembersOf(ApplyAll(enc, ops), first.roomCode) && BundleOf(ApplyAll(enc, ops), s) == Some(second)
            && s in MembersOf(ApplyAll(enc, ops + [RemoveOp(s)]), first.roomCode)
  {
    var one := [RegisterOp(s, Some(first))];
    var two := one + [RegisterOp(s, Some(second))];
    var three := two + [RemoveOp(s)];
    assert Before(one) == [] && Before(two) == one && Before(three) == two;
    assert [RegisterOp(s, Some(first)), RegisterOp(s, Some(second))] == two;
    assert Listed(enc, one, first.roomCode, s) && Listed(enc, two, first.roomCode, s);
    assert LastOffer(enc, two, s) == Some(second);
    ListedIff(enc, two, first.roomCode, s);
    ListedIff(enc, three, first.roomCode, s);
    BundleIsLastOffer(enc, two, s);
  }
}
