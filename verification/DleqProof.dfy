/**
 Scalars, points and the proof of equal discrete logarithms used by the token issuer
 (server/privacy-pass-issuer.js).

 A group of prime order q is isomorphic to the residues modulo q under addition, so a point is a residue
 and scalar multiplication is multiplication modulo q. The order, the base point, the encoding of points
 and the hash functions are parameters.
*/
module DleqProof {
  import opened LittleEndian
  import opened PrimeField
  import opened Wrappers

  type Point = nat

  datatype Error =
    | ScalarOutOfRange
    | BadPoint
    | NotInitialised
    | RateLimitExceeded
    | NoTokens
    | TooManyTokens
    | SelfCheckFailed

  datatype Result<T> = Ok(value: T) | Err(error: Error) {
    predicate IsFailure() { Err? }
    function PropagateFailure<U>(): Result<U>
      requires Err?
    {
      Result<U>.Err(error)
    }
    function Extract(): T
      requires Ok?
    {
      value
    }
  }

  const SCALAR_BYTES: nat := 32

  // ----- the group -----

  datatype Group = Group(
    order: nat,
    base: Point,
    encode: Point -> Bytes,
    decode: Bytes -> Option<Point>,
    hashToPoint: Bytes -> Point,
    digest: Bytes -> Bytes)

  ghost predicate IsGroup(g: Group) {
    && IsPrime(g.order) && g.order <= Pow(256, SCALAR_BYTES) && 0 < g.base < g.order
    && (forall p :: 0 <= p < g.order ==> g.decode(g.encode(p)) == Some(p))
    && (forall b :: g.decode(b).Some? ==> g.decode(b).value < g.order)
    && (forall b :: g.hashToPoint(b) < g.order)
  }

  function Scale(g: Group, p: Point, s: nat): Point
    requires g.order > 0
  {
    p * s % g.order
  }

  /** The library refuses the scalar 0 and scalars that are not reduced. */
  function ScalarMul(g: Group, p: Point, s: nat): Result<Point>
    requires g.order > 0
  {
    if 0 < s < g.order then Ok(Scale(g, p, s)) else Err(ScalarOutOfRange)
  }

  function AddPoints(g: Group, p: Point, p': Point): Point
    requires g.order > 0
  {
    (p + p') % g.order
  }

  function ScalarToBytes(s: nat): Bytes {
    ToLE(s, SCALAR_BYTES)
  }

  function BytesToScalar(g: Group, b: Bytes): nat
    requires g.order > 0
  {
    FromLE(b) % g.order
  }

  /** 64 random bytes to a scalar. */
  function RandomScalar(g: Group, random: Bytes): (r: nat)
    requires g.order > 1
    ensures 0 < r < g.order
  {
    FromLE(random) % (g.order - 1) + 1
  }

  // ----- the proof -----

  datatype Proof = Proof(c: Bytes, s: Bytes)

  function Challenge(g: Group, a1: Point, a2: Point, y: Point, z: Point): nat
    requires g.order > 0
  {
    BytesToScalar(g, g.digest(g.encode(a1) + g.encode(a2) + g.encode(y) + g.encode(z)))
  }

  function Response(q: nat, r: nat, c: nat, k: nat): nat
    requires q > 0
  {
    (r - c * k % q + q * 2) % q
  }

  function DleqProve(g: Group, k: nat, b: Point, z: Point, y: Point, r: nat): Result<Proof>
    requires g.order > 0
  {
    var a1 :- ScalarMul(g, g.base, r);
    var a2 :- ScalarMul(g, b, r);
    var c := Challenge(g, a1, a2, y, z);
    Ok(Proof(ScalarToBytes(c), ScalarToBytes(Response(g.order, r, c, k))))
  }

  /** What the verifier recomputes: s p + c p'. */
  function Commitment(g: Group, p: Point, s: nat, p': Point, c: nat): Result<Point>
    requires g.order > 0
  {
    var sp :- ScalarMul(g, p, s);
    var cp :- ScalarMul(g, p', c);
    Ok(AddPoints(g, sp, cp))
  }

  function DleqVerify(g: Group, proof: Proof, b: Point, z: Point, y: Point): Result<bool>
    requires g.order > 0
  {
    var c := BytesToScalar(g, proof.c);
    var s := BytesToScalar(g, proof.s);
    var a1 :- Commitment(g, g.base, s, y, c);
    var a2 :- Commitment(g, b, s, z, c);
    Ok(c == Challenge(g, a1, a2, y, z))
  }

  // ----- what acceptance means -----

  /**
   A proof is accepted exactly when its two scalars are not 0 and its challenge is the reduced digest of four
   encodings in this order: s G + c Y, s B + c Z, Y and Z.
  */
  lemma AcceptedIff(g: Group, proof: Proof, b: Point, z: Point, y: Point)
    requires g.order > 0
    ensures
      var q := g.order;
      var c, s := FromLE(proof.c) % q, FromLE(proof.s) % q;
      var a1, a2 := (g.base * s + y * c) % q, (b * s + z * c) % q;
      DleqVerify(g, proof, b, z, y) == Ok(true) <==>
        c != 0 && s != 0 && c == FromLE(g.digest(g.encode(a1) + g.encode(a2) + g.encode(y) + g.encode(z))) % q
  {
    var q := g.order;
    var c, s := FromLE(proof.c) % q, FromLE(proof.s) % q;
    SumOfScaled(q, g.base * s, y * c);
    SumOfScaled(q, b * s, z * c);
  }

  lemma SumOfScaled(q: nat, m: nat, n: nat)
    requires q > 0
    ensures (m % q + n % q) % q == (m + n) % q
  {
    SameMod(q, m);
    SameMod(q, n);
    SameAdd(q, m % q, m, n % q, n);
  }

  /** An honest proof carries the digest of its commitments r G and r B, of Y and of Z, and answers it. */
  lemma ProveIs(g: Group, k: nat, b: Point, z: Point, y: Point, r: nat)
    requires 0 < r < g.order <= Pow(256, SCALAR_BYTES)
    ensures
      var q := g.order;
      var proof := DleqProve(g, k, b, z, y, r);
      && proof.Ok?
      && FromLE(proof.value.c) ==
         FromLE(g.digest(g.encode(g.base * r % q) + g.encode(b * r % q) + g.encode(y) + g.encode(z))) % q
      && Same(q, FromLE(proof.value.s), r - FromLE(proof.value.c) * k)
  {
    var c := Challenge(g, Scale(g, g.base, r), Scale(g, b, r), y, z);
    ResponseIs(g.order, r, c, k);
    LittleEndianRoundTrip(c, SCALAR_BYTES);
    LittleEndianRoundTrip(Response(g.order, r, c, k), SCALAR_BYTES);
  }

  /** Encodings of points have one length and differ for different points. */
  ghost predicate FixedEncoding(g: Group, n: nat) {
    && (forall p: nat :: p < g.order ==> |g.encode(p)| == n)
    && (forall p: nat, p': nat :: p < g.order && p' < g.order && g.encode(p) == g.encode(p') ==> p == p')
  }

  /** So the digest input determines both commitments and the claim. */
  lemma InputBinds(g: Group, n: nat, a1: Point, a2: Point, y: Point, z: Point,
                   a1': Point, a2': Point, y': Point, z': Point)
    requires FixedEncoding(g, n)
    requires a1 < g.order && a2 < g.order && y < g.order && z < g.order
    requires a1' < g.order && a2' < g.order && y' < g.order && z' < g.order
    requires g.encode(a1) + g.encode(a2) + g.encode(y) + g.encode(z) ==
             g.encode(a1') + g.encode(a2') + g.encode(y') + g.encode(z')
    ensures a1 == a1' && a2 == a2' && y == y' && z == z'
  {
    EqualParts(g.encode(a1) + g.encode(a2) + g.encode(y), g.encode(z),
               g.encode(a1') + g.encode(a2') + g.encode(y'), g.encode(z'));
    EqualParts(g.encode(a1) + g.encode(a2), g.encode(y), g.encode(a1') + g.encode(a2'), g.encode(y'));
    EqualParts(g.encode(a1), g.encode(a2), g.encode(a1'), g.encode(a2'));
  }

  lemma EqualParts(x: Bytes, y: Bytes, x': Bytes, y': Bytes)
    requires x + y == x' + y' && |x| == |x'|
    ensures x == x' && y == y'
  {
    assert x == (x + y)[..|x|] && y == (x + y)[|x|..];
    assert x' == (x' + y')[..|x'|] && y' == (x' + y')[|x'|..];
  }

  /** An accepted proof is refused as soon as the digest at exactly that input reduces to something else. */
  lemma DigestDecides(g: Group, g': Group, proof: Proof, b: Point, z: Point, y: Point)
    requires g.order > 0 && g' == g.(digest := g'.digest) && DleqVerify(g, proof, b, z, y) == Ok(true)
    ensures
      var q := g.order;
      var c, s := FromLE(proof.c) % q, FromLE(proof.s) % q;
      var a1, a2 := (g.base * s + y * c) % q, (b * s + z * c) % q;
      var input := g.encode(a1) + g.encode(a2) + g.encode(y) + g.encode(z);
      DleqVerify(g', proof, b, z, y) == Ok(true) <==> FromLE(g'.digest(input)) % q == FromLE(g.digest(input)) % q
  {
    AcceptedIff(g, proof, b, z, y);
    AcceptedIff(g', proof, b, z, y);
  }

  // ----- completeness -----

  /** The response is a reduced scalar congruent to r - c k, for all r and all c, k. */
  lemma ResponseIs(q: nat, r: nat, c: nat, k: nat)
    requires q > 0
    ensures Response(q, r, c, k) < q
    ensures Same(q, Response(q, r, c, k), r - c * k)
    ensures Response(q, r, c, k) == 0 <==> Same(q, r, c * k)
  {
    var d := r - c * k % q + q * 2;
    SameMod(q, d);
    SameBy(q, d, r - c * k % q, 2);
    SameMod(q, c * k);
    SameAdd(q, r, r, c * k % q, c * k);
    if Response(q, r, c, k) == 0 {
      QuotientUnique(q, 0, 0, 0);
      SameAdd(q, r - c * k, 0, c * k, c * k);
    }
    if Same(q, r, c * k) {
      SameAdd(q, r, c * k, c * k, c * k);
      QuotientUnique(q, 0, 0, 0);
    }
  }

  lemma ScalarSurvives(g: Group, s: nat)
    requires s < g.order <= Pow(256, SCALAR_BYTES)
    ensures BytesToScalar(g, ScalarToBytes(s)) == s
  {
    LittleEndianRoundTrip(s, SCALAR_BYTES);
    QuotientUnique(g.order, s, 0, s);
  }

  /** s p + c (k p) is r p when s is congruent to r - c k. */
  lemma CommitmentMatches(g: Group, p: Point, s: nat, c: nat, k: nat, r: nat)
    requires g.order > 0 && Same(g.order, s, r - c * k)
    ensures AddPoints(g, Scale(g, p, s), Scale(g, Scale(g, p, k), c)) == Scale(g, p, r)
  {
    var q := g.order;
    SameMod(q, p * s);
    SameMod(q, p * k);
    SameScale(q, Scale(g, p, k), p * k, c);
    SameMod(q, Scale(g, p, k) * c);
    SameAdd(q, Scale(g, p, s), p * s, Scale(g, Scale(g, p, k), c), p * k * c);
    SameScale(q, s, r - c * k, p);
    SameAdd(q, p * s, p * (r - c * k), p * k * c, p * k * c);
    Distribute(p, r, c, k);
  }

  lemma Distribute(p: int, r: int, c: int, k: int)
    ensures p * (r - c * k) + p * k * c == p * r
  {
  }

  /**
   An honest proof is accepted exactly when neither its challenge nor its response is 0; otherwise the
   library refuses the scalar 0 and verification fails with an error.
  */
  lemma HonestProofVerifies(g: Group, k: nat, b: Point, r: nat)
    requires IsGroup(g) && 0 < k < g.order && 0 < r < g.order && b < g.order
    ensures
      var y := Scale(g, g.base, k);
      var z := Scale(g, b, k);
      var c := Challenge(g, Scale(g, g.base, r), Scale(g, b, r), y, z);
      var proof := DleqProve(g, k, b, z, y, r);
      proof.Ok? && DleqVerify(g, proof.value, b, z, y) ==
        if c != 0 && !Same(g.order, r, c * k) then Ok(true) else Err(ScalarOutOfRange)
  {
    var q := g.order;
    var y := Scale(g, g.base, k);
    var z := Scale(g, b, k);
    var c := Challenge(g, Scale(g, g.base, r), Scale(g, b, r), y, z);
    var s := Response(q, r, c, k);
    ResponseIs(q, r, c, k);
    ScalarSurvives(g, c);
    ScalarSurvives(g, s);
    CommitmentMatches(g, g.base, s, c, k, r);
    CommitmentMatches(g, b, s, c, k, r);
  }

  /** The challenge of an honest proof for the secret k and the blinded point b, with the nonce r. */
  function HonestChallenge(g: Group, k: nat, b: Point, r: nat): nat
    requires g.order > 0
  {
    Challenge(g, Scale(g, g.base, r), Scale(g, b, r), Scale(g, g.base, k), Scale(g, b, k))
  }

  /** Such a proof makes verification fail. */
  predicate HonestProofFails(g: Group, k: nat, b: Point, r: nat)
    requires g.order > 0
  {
    var y, z := Scale(g, g.base, k), Scale(g, b, k);
    var proof := DleqProve(g, k, b, z, y, r);
    proof.Ok? && DleqVerify(g, proof.value, b, z, y) == Err(ScalarOutOfRange)
  }

  lemma FailsIff(g: Group, k: nat, b: Point, r: nat)
    requires IsGroup(g) && 0 < k < g.order && 0 < r < g.order && b < g.order
    ensures HonestProofFails(g, k, b, r) <==>
            HonestChallenge(g, k, b, r) == 0 || Same(g.order, r, HonestChallenge(g, k, b, r) * k)
  {
    HonestProofVerifies(g, k, b, r);
  }

  function WithDigest(g: Group, digest: Bytes): Group {
    g.(digest := _ => digest)
  }

  /** It happens in every group, for a digest that makes the challenge 0. */
  lemma ZeroChallengeFails(g: Group, k: nat, b: Point, r: nat)
    requires IsGroup(g) && 0 < k < g.order && 0 < r < g.order && b < g.order
    ensures var g' := WithDigest(g, []);
            IsGroup(g') && HonestChallenge(g', k, b, r) == 0 && HonestProofFails(g', k, b, r)
  {
    QuotientUnique(g.order, 0, 0, 0);
    FailsIff(WithDigest(g, []), k, b, r);
  }

  /** And for one that makes the challenge 1, and so the response 0 when the nonce is the secret. */
  lemma ZeroResponseFails(g: Group, k: nat, b: Point)
    requires IsGroup(g) && 0 < k < g.order && b < g.order
    ensures var g' := WithDigest(g, [1]);
            IsGroup(g') && HonestChallenge(g', k, b, k) == 1 && HonestProofFails(g', k, b, k)
  {
    var one: Bytes := [1];
    assert one[1..] == [];
    QuotientUnique(g.order, 1, 0, 1);
    FailsIff(WithDigest(g, one), k, b, k);
  }

  /** There is such a group: three elements, each encoded as one byte. */
  lemma SomeGroup() returns (g: Group)
    ensures IsGroup(g) && g.order == 3
  {
    PowPositive(SCALAR_BYTES - 1);
    assert Pow(256, SCALAR_BYTES) == 256 * Pow(256, SCALAR_BYTES - 1);
    g := Group(3, 1, p => if p < 256 then [p] else [], b => if |b| == 1 && b[0] < 3 then Some(b[0]) else None,
               _ => 1, _ => []);
  }

  lemma {:induction false} PowPositive(n: nat)
    ensures Pow(256, n) >= 1
  {
    if n > 0 { PowPositive(n - 1); }
  }

  // ----- soundness -----

  /** The two recomputed commitments of a proof. */
  datatype Commitments = Commitments(a1: Point, a2: Point)

  function Recomputed(g: Group, proof: Proof, b: Point, z: Point, y: Point): Result<Commitments>
    requires g.order > 0
  {
    var c := BytesToScalar(g, proof.c);
    var s := BytesToScalar(g, proof.s);
    var a1 :- Commitment(g, g.base, s, y, c);
    var a2 :- Commitment(g, b, s, z, c);
    Ok(Commitments(a1, a2))
  }

  /** The secret read off two transcripts: (s - s') / (c' - c). */
  function Extract(g: Group, proof: Proof, proof': Proof): nat
    requires g.order > 1
  {
    var q := g.order;
    var ds := (BytesToScalar(g, proof.s) - BytesToScalar(g, proof'.s)) % q;
    var dc := (BytesToScalar(g, proof'.c) - BytesToScalar(g, proof.c)) % q;
    ds * Inverse(q, dc) % q
  }

  /** From s p + c x == s' p + c' x with c != c', x is ((s - s') / (c' - c)) p. */
  lemma SolveForSecret(q: nat, p: nat, x: nat, s: nat, c: nat, s': nat, c': nat)
    requires IsPrime(q) && x < q && c < q && c' < q && c != c'
    requires Same(q, p * s + x * c, p * s' + x * c')
    ensures x == p * ((s - s') % q * Inverse(q, (c' - c) % q) % q) % q
  {
    var ds, dc: nat := (s - s') % q, (c' - c) % q;
    var inv := Inverse(q, dc);
    DistinctResidues(q, c', c);
    InverseInverts(q, dc);
    // x (c' - c) is p (s - s')
    var k := SameGap(q, p * s + x * c, p * s' + x * c');
    assert x * (c' - c) == p * (s - s') + q * -k by {
      assert x * (c' - c) == x * c' - x * c && p * (s - s') == p * s - p * s' && q * -k == -(q * k);
    }
    SameBy(q, x * (c' - c), p * (s - s'), -k);
    SameMod(q, s - s');
    SameMod(q, c' - c);
    SameScale(q, ds, s - s', p);
    SameScale(q, dc, c' - c, x);
    // so x dc is p ds, and dividing by dc gives x
    SameScale(q, x * dc, p * ds, inv);
    QuotientUnique(q, 1, 0, 1);
    SameScale(q, dc * inv, 1, x);
    Associate(x, dc, inv);
    Associate(p, ds, inv);
    SameMod(q, ds * inv);
    SameScale(q, ds * inv % q, ds * inv, p);
    QuotientUnique(q, x, 0, x);
  }

  lemma DistinctResidues(q: nat, a: nat, b: nat)
    requires a < q && b < q && a != b
    ensures (a - b) % q != 0 && (a - b) % q % q != 0
  {
  }

  lemma SumsAgree(g: Group, p: Point, x: Point, s: nat, c: nat, s': nat, c': nat)
    requires g.order > 0
    requires AddPoints(g, Scale(g, p, s), Scale(g, x, c)) == AddPoints(g, Scale(g, p, s'), Scale(g, x, c'))
    ensures Same(g.order, p * s + x * c, p * s' + x * c')
  {
    var q := g.order;
    SameMod(q, p * s);
    SameMod(q, x * c);
    SameMod(q, p * s');
    SameMod(q, x * c');
    SameAdd(q, Scale(g, p, s), p * s, Scale(g, x, c), x * c);
    SameAdd(q, Scale(g, p, s'), p * s', Scale(g, x, c'), x * c');
  }

  /**
   Special soundness: two proofs with the same recomputed commitments and different challenges reveal one
   scalar that takes the base point to y and b to z.
  */
  lemma SpecialSoundness(g: Group, proof: Proof, proof': Proof, b: Point, z: Point, y: Point)
    requires IsGroup(g) && b < g.order && z < g.order && y < g.order
    requires Recomputed(g, proof, b, z, y).Ok? && Recomputed(g, proof', b, z, y) == Recomputed(g, proof, b, z, y)
    requires BytesToScalar(g, proof.c) != BytesToScalar(g, proof'.c)
    ensures y == Scale(g, g.base, Extract(g, proof, proof')) && z == Scale(g, b, Extract(g, proof, proof'))
  {
    var c, s := BytesToScalar(g, proof.c), BytesToScalar(g, proof.s);
    var c', s' := BytesToScalar(g, proof'.c), BytesToScalar(g, proof'.s);
    SumsAgree(g, g.base, y, s, c, s', c');
    SumsAgree(g, b, z, s, c, s', c');
    SolveForSecret(g.order, g.base, y, s, c, s', c');
    SolveForSecret(g.order, b, z, s, c, s', c');
  }

  /**
   For a false claim, at most one challenge can be answered for given commitments: whatever function
   produces the challenges, two accepted proofs with the same commitments carry the same challenge.
  */
  lemma FalseClaimHasOneChallenge(g: Group, g': Group, proof: Proof, proof': Proof, b: Point, z: Point, y: Point)
    requires IsGroup(g) && g' == g.(digest := g'.digest) && b < g.order && z < g.order && y < g.order
    requires !exists k: nat :: y == Scale(g, g.base, k) && z == Scale(g, b, k)
    requires DleqVerify(g, proof, b, z, y) == Ok(true) && DleqVerify(g', proof', b, z, y) == Ok(true)
    requires Recomputed(g, proof, b, z, y) == Recomputed(g, proof', b, z, y)
    ensures BytesToScalar(g, proof.c) == BytesToScalar(g, proof'.c)
  {
    if BytesToScalar(g, proof.c) != BytesToScalar(g, proof'.c) {
      SpecialSoundness(g, proof, proof', b, z, y);
    }
  }

  /**
   So a false claim is accepted, with given commitments, for one value of the digest at most: two digests under
   which it is, whatever the proofs, reduce to the same at the input that the commitments and the claim make up.
  */
  lemma FalseClaimFixesDigest(g: Group, g': Group, proof: Proof, proof': Proof, b: Point, z: Point, y: Point,
                              a1: Point, a2: Point)
    requires IsGroup(g) && g' == g.(digest := g'.digest) && b < g.order && z < g.order && y < g.order
    requires !exists k: nat :: y == Scale(g, g.base, k) && z == Scale(g, b, k)
    requires DleqVerify(g, proof, b, z, y) == Ok(true) && DleqVerify(g', proof', b, z, y) == Ok(true)
    requires Recomputed(g, proof, b, z, y) == Recomputed(g, proof', b, z, y) == Ok(Commitments(a1, a2))
    ensures var input := g.encode(a1) + g.encode(a2) + g.encode(y) + g.encode(z);
            FromLE(g.digest(input)) % g.order == FromLE(g'.digest(input)) % g.order
  {
    FalseClaimHasOneChallenge(g, g', proof, proof', b, z, y);
    AcceptedCarries(g, proof, b, z, y, a1, a2);
    AcceptedCarries(g', proof', b, z, y, a1, a2);
  }

  lemma AcceptedCarries(g: Group, proof: Proof, b: Point, z: Point, y: Point, a1: Point, a2: Point)
    requires g.order > 0 && DleqVerify(g, proof, b, z, y) == Ok(true)
    requires Recomputed(g, proof, b, z, y) == Ok(Commitments(a1, a2))
    ensures BytesToScalar(g, proof.c) ==
            FromLE(g.digest(g.encode(a1) + g.encode(a2) + g.encode(y) + g.encode(z))) % g.order
  {
  }
}
