/**
 Blind token issuance, redemption and the issuer's tables (server/privacy-pass-issuer.js), with the client's
 blinding and unblinding (client/src/crypto/privacy-pass.js).

 Times are milliseconds and are arguments. Strings reach the issuer in base64, whose decoding is a parameter.
*/
module PrivacyPass {
  import opened PrimeField
  import opened DleqProof
  import opened LittleEndian
  import opened Wrappers

  const SPENT_TOKEN_TTL: int := 60 * 60 * 1000
  const RATE_WINDOW: int := 60 * 60 * 1000
  const MAX_ISSUANCE_PER_HOUR: nat := 50
  const MAX_TOKENS_PER_REQUEST: nat := 10

  datatype Scheme = Scheme(group: Group, fromBase64: string -> Bytes, spendHash: Bytes -> Bytes)

  datatype RateEntry = RateEntry(count: nat, resetAt: int)

  datatype Issuer = Issuer(secret: Option<nat>, public: Point, spent: map<Bytes, int>, rates: map<string, RateEntry>)

  datatype Signed = Signed(element: Bytes, proof: Proof)

  datatype Verdict = Valid | Uninitialised | Missing | AlreadySpent | BadAuthenticator | Malformed

  /** Once initialised, the secret is a nonzero scalar and the public point is its multiple of the base. */
  predicate KeysOk(g: Group, st: Issuer)
    requires g.order > 0
  {
    st.secret.Some? ==> 0 < st.secret.value < g.order && st.public == Scale(g, g.base, st.secret.value)
  }

  // ----- issuance -----

  function Admit(rates: map<string, RateEntry>, ip: string, now: int): map<string, RateEntry> {
    if ip !in rates || now > rates[ip].resetAt then rates[ip := RateEntry(1, now + RATE_WINDOW)]
    else if rates[ip].count >= MAX_ISSUANCE_PER_HOUR then rates
    else rates[ip := rates[ip].(count := rates[ip].count + 1)]
  }

  predicate Admitted(rates: map<string, RateEntry>, ip: string, now: int) {
    ip !in rates || now > rates[ip].resetAt || rates[ip].count < MAX_ISSUANCE_PER_HOUR
  }

  function SignOne(g: Group, k: nat, y: Point, blinded: Bytes, nonce: nat): Result<Signed>
    requires g.order > 0
  {
    var point := g.decode(blinded);
    if point.None? then Err(BadPoint) else
    var b := point.value;
    var z :- ScalarMul(g, b, k);
    var proof :- DleqProve(g, k, b, z, y, nonce);
    var valid :- DleqVerify(g, proof, b, z, y);
    if valid then Ok(Signed(g.encode(z), proof)) else Err(SelfCheckFailed)
  }

  /** Signs the i-th blinded element with the i-th random draw. */
  function Signer(g: Group, k: nat, y: Point, blinded: seq<Bytes>, random: nat -> Bytes): nat -> Result<Signed>
    requires g.order > 1
  {
    (i: nat) => if i < |blinded| then SignOne(g, k, y, blinded[i], RandomScalar(g, random(i))) else Err(BadPoint)
  }

  /** All of them in order, or the first failure. */
  function SignFrom(sign: nat -> Result<Signed>, i: nat, n: nat): Result<seq<Signed>>
    requires i <= n
    decreases n - i
  {
    if i == n then Ok([])
    else if sign(i).Err? then Err(sign(i).error)
    else Prepend([sign(i).value], SignFrom(sign, i + 1, n))
  }

  function Prepend(done: seq<Signed>, rest: Result<seq<Signed>>): Result<seq<Signed>> {
    if rest.Ok? then Ok(done + rest.value) else rest
  }

  /** The rate limit is charged before the request is looked at. */
  function Issue(g: Group, st: Issuer, blinded: seq<Bytes>, ip: string, now: int, random: nat -> Bytes)
    : (Issuer, Result<seq<Signed>>)
    requires g.order > 1
  {
    if st.secret.None? then (st, Err(NotInitialised)) else
    var charged := st.(rates := Admit(st.rates, ip, now));
    if !Admitted(st.rates, ip, now) then (charged, Err(RateLimitExceeded))
    else if |blinded| == 0 then (charged, Err(NoTokens))
    else if |blinded| > MAX_TOKENS_PER_REQUEST then (charged, Err(TooManyTokens))
    else (charged, SignFrom(Signer(g, st.secret.value, st.public, blinded, random), 0, |blinded|))
  }

  // ----- redemption -----

  function SpendKey(sc: Scheme, token: string, authenticator: string): Bytes {
    sc.spendHash(sc.fromBase64(token) + sc.fromBase64(authenticator))
  }

  function Verify(sc: Scheme, st: Issuer, token: string, authenticator: string, now: int): (Issuer, Verdict)
    requires sc.group.order > 0
  {
    var g := sc.group;
    if st.secret.None? then (st, Uninitialised)
    else if token == "" || authenticator == "" then (st, Missing)
    else
      var key := SpendKey(sc, token, authenticator);
      if key in st.spent then (st, AlreadySpent)
      else
        var expected := ScalarMul(g, g.hashToPoint(sc.fromBase64(token)), st.secret.value);
        var w := g.decode(sc.fromBase64(authenticator));
        if expected.Err? || w.None? then (st, Malformed)
        else if g.encode(expected.value) != g.encode(w.value) then (st, BadAuthenticator)
        else (st.(spent := st.spent[key := now + SPENT_TOKEN_TTL]), Valid)
  }

  function Cleanup(st: Issuer, now: int): Issuer {
    st.(spent := map key | key in st.spent && now <= st.spent[key] :: st.spent[key],
        rates := map ip | ip in st.rates && now <= st.rates[ip].resetAt :: st.rates[ip])
  }

  // ----- the client -----

  function Unblind(g: Group, z: Point, blind: nat): Result<Point>
    requires g.order > 1
  {
    ScalarMul(g, z, Inverse(g.order, blind))
  }

  method UnblindToken(g: Group, signed: Bytes, blind: nat) returns (w: Result<Point>)
    requires g.order > 1
    ensures w == if g.decode(signed).None? then Err(BadPoint) else Unblind(g, g.decode(signed).value, blind)
  {
    var z := g.decode(signed);
    if z.None? {
      return Err(BadPoint);
    }
    var inverse := ModPow(blind, g.order - 2, g.order);
    w := ScalarMul(g, z.value, inverse);
  }

  // ----- the issuer -----

  class PrivacyPassIssuer {
    const scheme: Scheme
    var issuerSecretScalar: Option<nat>
    var issuerPublicPoint: Point
    var spentTokens: map<Bytes, int>
    var issuanceRateLimit: map<string, RateEntry>

    function View(): Issuer
      reads this
    {
      Issuer(issuerSecretScalar, issuerPublicPoint, spentTokens, issuanceRateLimit)
    }

    constructor (scheme: Scheme)
      ensures this.scheme == scheme && View() == Issuer(None, 0, map[], map[])
    {
      this.scheme := scheme;
      issuerSecretScalar := None;
      issuerPublicPoint := 0;
      spentTokens := map[];
      issuanceRateLimit := map[];
    }

    method InitIssuer(random: Bytes)
      requires scheme.group.order > 1
      modifies this
      ensures View() == old(View()).(secret := Some(RandomScalar(scheme.group, random)), public := issuerPublicPoint)
      ensures KeysOk(scheme.group, View())
    {
      var k := RandomScalar(scheme.group, random);
      issuerSecretScalar := Some(k);
      issuerPublicPoint := Scale(scheme.group, scheme.group.base, k);
    }

    method CheckRateLimit(clientIP: string, now: int) returns (allowed: bool)
      modifies this`issuanceRateLimit
      ensures allowed == Admitted(old(issuanceRateLimit), clientIP, now)
      ensures issuanceRateLimit == Admit(old(issuanceRateLimit), clientIP, now)
    {
      if clientIP !in issuanceRateLimit || now > issuanceRateLimit[clientIP].resetAt {
        issuanceRateLimit := issuanceRateLimit[clientIP := RateEntry(1, now + RATE_WINDOW)];
        return true;
      }
      var entry := issuanceRateLimit[clientIP];
      if entry.count >= MAX_ISSUANCE_PER_HOUR {
        return false;
      }
      issuanceRateLimit := issuanceRateLimit[clientIP := entry.(count := entry.count + 1)];
      return true;
    }

    method IssueTokens(blinded: seq<Bytes>, clientIP: string, now: int, random: nat -> Bytes)
      returns (r: Result<seq<Signed>>)
      requires scheme.group.order > 1
      modifies this`issuanceRateLimit
      ensures (View(), r) == Issue(scheme.group, old(View()), blinded, clientIP, now, random)
    {
      if issuerSecretScalar.None? {
        return Err(NotInitialised);
      }
      var allowed := CheckRateLimit(clientIP, now);
      if !allowed {
        return Err(RateLimitExceeded);
      }
      if |blinded| == 0 {
        return Err(NoTokens);
      }
      if |blinded| > MAX_TOKENS_PER_REQUEST {
        return Err(TooManyTokens);
      }
      r := SignAll(Signer(scheme.group, issuerSecretScalar.value, issuerPublicPoint, blinded, random), |blinded|);
    }

    method VerifyToken(token: string, authenticator: string, now: int) returns (verdict: Verdict)
      requires scheme.group.order > 0
      modifies this`spentTokens
      ensures (View(), verdict) == Verify(scheme, old(View()), token, authenticator, now)
    {
      var g := scheme.group;
      if issuerSecretScalar.None? {
        return Uninitialised;
      }
      if token == "" || authenticator == "" {
        return Missing;
      }
      var tokenBuf, authBuf := scheme.fromBase64(token), scheme.fromBase64(authenticator);
      var tokenHash := scheme.spendHash(tokenBuf + authBuf);
      if tokenHash in spentTokens {
        return AlreadySpent;
      }
      var expected := ScalarMul(g, g.hashToPoint(tokenBuf), issuerSecretScalar.value);
      var w := g.decode(authBuf);
      if expected.Err? || w.None? {
        return Malformed;
      }
      if g.encode(expected.value) != g.encode(w.value) {
        return BadAuthenticator;
      }
      spentTokens := spentTokens[tokenHash := now + SPENT_TOKEN_TTL];
      return Valid;
    }

    method ForgetSpent(now: int)
      modifies this`spentTokens
      ensures spentTokens == Cleanup(old(View()), now).spent
    {
      ghost var was := spentTokens;
      var hashes := spentTokens.Keys;
      while hashes != {}
        invariant hashes <= was.Keys
        invariant forall key :: key in was && (key in hashes || now <= was[key]) ==> key in spentTokens
        invariant forall key :: key in spentTokens ==>
                  key in was && spentTokens[key] == was[key] && (key in hashes || now <= was[key])
        decreases |hashes|
      {
        var key :| key in hashes;
        hashes := hashes - {key};
        if now > spentTokens[key] {
          spentTokens := spentTokens - {key};
        }
      }
    }

    method ForgetRates(now: int)
      modifies this`issuanceRateLimit
      ensures issuanceRateLimit == Cleanup(old(View()), now).rates
    {
      ghost var was := issuanceRateLimit;
      var ips := issuanceRateLimit.Keys;
      while ips != {}
        invariant ips <= was.Keys
        invariant forall ip :: ip in was && (ip in ips || now <= was[ip].resetAt) ==> ip in issuanceRateLimit
        invariant forall ip :: ip in issuanceRateLimit ==>
                    ip in was && issuanceRateLimit[ip] == was[ip] && (ip in ips || now <= was[ip].resetAt)
        decreases |ips|
      {
        var ip :| ip in ips;
        ips := ips - {ip};
        if now > issuanceRateLimit[ip].resetAt {
          issuanceRateLimit := issuanceRateLimit - {ip};
        }
      }
    }

    method RunCleanup(now: int)
      modifies this`spentTokens, this`issuanceRateLimit
      ensures View() == Cleanup(old(View()), now)
    {
      ForgetSpent(now);
      ForgetRates(now);
    }
  }

  method SignAll(sign: nat -> Result<Signed>, n: nat) returns (r: Result<seq<Signed>>)
    ensures r == SignFrom(sign, 0, n)
  {
    var signed: seq<Signed> := [];
    var i := 0;
    ghost var all := SignFrom(sign, 0, n);
    assert all.Ok? ==> signed + all.value == all.value;
    while i < n
      invariant 0 <= i <= n
      invariant all == Prepend(signed, SignFrom(sign, i, n))
    {
      var one := sign(i);
      if one.Err? {
        return Err(one.error);
      }
      PrependOne(signed, one.value, SignFrom(sign, i + 1, n));
      signed := signed + [one.value];
      i := i + 1;
    }
    assert signed + [] == signed;
    return Ok(signed);
  }

  lemma PrependOne(done: seq<Signed>, one: Signed, rest: Result<seq<Signed>>)
    ensures Prepend(done, Prepend([one], rest)) == Prepend(done + [one], rest)
  {
    if rest.Ok? {
      assert done + ([one] + rest.value) == done + [one] + rest.value;
    }
  }
}
