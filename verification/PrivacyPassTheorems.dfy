/**
 What the token issuer guarantees: tokens issued blindly are accepted, no token is accepted twice while its
 record is kept, and how much one address can have issued in an hour.
*/
module PrivacyPassTheorems {
  import opened PrimeField
  import opened DleqProof
  import opened LittleEndian
  import opened PrivacyPass
  import opened Wrappers

  // ----- issuance -----

  /** Signing fails only on bytes that are no point or on a challenge or response that happens to be 0. */
  lemma SignOneIs(g: Group, k: nat, blinded: Bytes, nonce: nat)
    requires IsGroup(g) && 0 < k < g.order && 0 < nonce < g.order
    ensures
      var y := Scale(g, g.base, k);
      var r := SignOne(g, k, y, blinded, nonce);
      if g.decode(blinded).None? then r == Err(BadPoint)
      else
        var b := g.decode(blinded).value;
        var z := Scale(g, b, k);
        var c := Challenge(g, Scale(g, g.base, nonce), Scale(g, b, nonce), y, z);
        if c == 0 || Same(g.order, nonce, c * k) then r == Err(ScalarOutOfRange)
        else r.Ok? && r.value.element == g.encode(z) && DleqVerify(g, r.value.proof, b, z, y) == Ok(true)
  {
    if g.decode(blinded).Some? {
      HonestProofVerifies(g, k, g.decode(blinded).value, nonce);
    }
  }

  /** The element was produced with the key of the public point, and its proof shows it. */
  ghost predicate SignedBy(g: Group, k: nat, blinded: Bytes, signed: Signed)
    requires g.order > 0
  {
    && g.decode(blinded).Some?
    && var b := g.decode(blinded).value;
       signed.element == g.encode(Scale(g, b, k))
       && DleqVerify(g, signed.proof, b, Scale(g, b, k), Scale(g, g.base, k)) == Ok(true)
  }

  ghost predicate AllSignedBy(g: Group, k: nat, blinded: seq<Bytes>, i: nat, signed: seq<Signed>)
    requires g.order > 0 && i <= |blinded|
  {
    |signed| == |blinded| - i && forall j :: 0 <= j < |signed| ==> SignedBy(g, k, blinded[i + j], signed[j])
  }

  lemma SignedCons(g: Group, k: nat, blinded: seq<Bytes>, i: nat, first: Signed, rest: seq<Signed>)
    requires g.order > 0 && i < |blinded| && SignedBy(g, k, blinded[i], first)
             && AllSignedBy(g, k, blinded, i + 1, rest)
    ensures AllSignedBy(g, k, blinded, i, [first] + rest)
  {
    forall j | 0 <= j < |rest| + 1 ensures SignedBy(g, k, blinded[i + j], ([first] + rest)[j]) {
      if j > 0 {
        assert SignedBy(g, k, blinded[i + 1 + (j - 1)], rest[j - 1]);
      }
    }
  }

  /** A signed element, or one of the two errors that signing can end in. */
  ghost predicate Attempt(g: Group, k: nat, blinded: Bytes, r: Result<Signed>)
    requires g.order > 0
  {
    if r.Ok? then SignedBy(g, k, blinded, r.value) else r.error == BadPoint || r.error == ScalarOutOfRange
  }

  lemma {:induction false} SignFromIs(g: Group, k: nat, blinded: seq<Bytes>, sign: nat -> Result<Signed>, i: nat)
    requires g.order > 0 && i <= |blinded| && forall j :: 0 <= j < |blinded| ==> Attempt(g, k, blinded[j], sign(j))
    ensures
      var r := SignFrom(sign, i, |blinded|);
      if r.Ok? then AllSignedBy(g, k, blinded, i, r.value) else r.error == BadPoint || r.error == ScalarOutOfRange
    decreases |blinded| - i
  {
    if i < |blinded| {
      SignFromIs(g, k, blinded, sign, i + 1);
      assert Attempt(g, k, blinded[i], sign(i));
      var rest := SignFrom(sign, i + 1, |blinded|);
      if sign(i).Ok? && rest.Ok? {
        SignedCons(g, k, blinded, i, sign(i).value, rest.value);
      }
    }
  }

  /** A request that succeeds returns one signed element per blinded one; the self-check never fails. */
  lemma IssueIs(g: Group, st: Issuer, blinded: seq<Bytes>, ip: string, now: int, random: nat -> Bytes)
    requires IsGroup(g) && KeysOk(g, st)
    ensures
      var r := Issue(g, st, blinded, ip, now, random).1;
      if r.Ok? then
        && st.secret.Some? && Admitted(st.rates, ip, now) && 0 < |r.value| == |blinded| <= MAX_TOKENS_PER_REQUEST
        && forall i :: 0 <= i < |blinded| ==> SignedBy(g, st.secret.value, blinded[i], r.value[i])
      else r.error != SelfCheckFailed
  {
    if st.secret.Some? {
      var k := st.secret.value;
      var sign := Signer(g, k, st.public, blinded, random);
      forall j | 0 <= j < |blinded| ensures Attempt(g, k, blinded[j], sign(j)) {
        SignOneIs(g, k, blinded[j], RandomScalar(g, random(j)));
      }
      SignFromIs(g, k, blinded, sign, 0);
      var r := Issue(g, st, blinded, ip, now, random).1;
      if r.Ok? {
        forall i | 0 <= i < |blinded| ensures SignedBy(g, k, blinded[i], r.value[i]) {
          assert SignedBy(g, k, blinded[0 + i], r.value[i]);
        }
      }
    }
  }

  /** The element is a point, and neither the challenge nor the response of its proof happens to be 0. */
  ghost predicate Signable(g: Group, k: nat, blinded: Bytes, nonce: nat)
    requires g.order > 0
  {
    && g.decode(blinded).Some?
    && var c := HonestChallenge(g, k, g.decode(blinded).value, nonce); c != 0 && !Same(g.order, nonce, c * k)
  }

  /** The place of the first element that is not, or the number of elements. */
  ghost function FirstBad(g: Group, k: nat, blinded: seq<Bytes>, random: nat -> Bytes, i: nat): (j: nat)
    requires g.order > 1 && i <= |blinded|
    ensures i <= j <= |blinded|
    ensures forall m :: i <= m < j ==> Signable(g, k, blinded[m], RandomScalar(g, random(m)))
    ensures j < |blinded| ==> !Signable(g, k, blinded[j], RandomScalar(g, random(j)))
    decreases |blinded| - i
  {
    if i == |blinded| || !Signable(g, k, blinded[i], RandomScalar(g, random(i))) then i
    else FirstBad(g, k, blinded, random, i + 1)
  }

  /** Why an element is not signed. */
  function Complaint(g: Group, blinded: Bytes): Error {
    if g.decode(blinded).None? then BadPoint else ScalarOutOfRange
  }

  lemma {:induction false} SignFromFirstBad(g: Group, st: Issuer, blinded: seq<Bytes>, random: nat -> Bytes, i: nat)
    requires IsGroup(g) && KeysOk(g, st) && st.secret.Some? && i <= |blinded|
    ensures var k := st.secret.value;
            var j := FirstBad(g, k, blinded, random, i);
            var r := SignFrom(Signer(g, k, st.public, blinded, random), i, |blinded|);
            if j == |blinded| then r.Ok? else r == Err(Complaint(g, blinded[j]))
    decreases |blinded| - i
  {
    if i < |blinded| {
      SignOneIs(g, st.secret.value, blinded[i], RandomScalar(g, random(i)));
      SignFromFirstBad(g, st, blinded, random, i + 1);
    }
  }

  /**
   A request is granted exactly when the issuer has its keys, the address has something left of its fifty, there
   are one to ten elements, and each can be signed.
  */
  lemma GrantedIff(g: Group, st: Issuer, blinded: seq<Bytes>, ip: string, now: int, random: nat -> Bytes)
    requires IsGroup(g) && KeysOk(g, st)
    ensures
      Issue(g, st, blinded, ip, now, random).1.Ok? <==>
        && st.secret.Some? && (ip in st.rates ==> now > st.rates[ip].resetAt || st.rates[ip].count < 50)
        && 1 <= |blinded| <= 10
        && forall i :: 0 <= i < |blinded| ==> Signable(g, st.secret.value, blinded[i], RandomScalar(g, random(i)))
  {
    if st.secret.Some? {
      SignFromFirstBad(g, st, blinded, random, 0);
    }
  }

  /** And otherwise the first of these that fails is the error: keys, limit, none, too many, the first bad element. */
  lemma RefusedBecause(g: Group, st: Issuer, blinded: seq<Bytes>, ip: string, now: int, random: nat -> Bytes)
    requires IsGroup(g) && KeysOk(g, st) && Issue(g, st, blinded, ip, now, random).1.Err?
    ensures
      var e := Issue(g, st, blinded, ip, now, random).1.error;
      var full := ip in st.rates && now <= st.rates[ip].resetAt && st.rates[ip].count >= 50;
      && (e == NotInitialised <==> st.secret.None?)
      && (e == RateLimitExceeded <==> st.secret.Some? && full)
      && (e == NoTokens <==> st.secret.Some? && !full && blinded == [])
      && (e == TooManyTokens <==> st.secret.Some? && !full && |blinded| > 10)
      && (st.secret.Some? && !full && 1 <= |blinded| <= 10 ==>
            var j := FirstBad(g, st.secret.value, blinded, random, 0);
            j < |blinded| && e == if g.decode(blinded[j]).None? then BadPoint else ScalarOutOfRange)
  {
    if st.secret.Some? {
      SignFromFirstBad(g, st, blinded, random, 0);
    }
  }

  /** Whatever becomes of it, a request with keys in place is charged to its address, in a window of one hour. */
  lemma ChargedIs(g: Group, st: Issuer, blinded: seq<Bytes>, ip: string, now: int, random: nat -> Bytes)
    requires g.order > 1
    ensures
      var st' := Issue(g, st, blinded, ip, now, random).0;
      && st' == st.(rates := st'.rates) && (st.secret.None? ==> st' == st)
      && (forall other :: other != ip ==>
            (other in st'.rates <==> other in st.rates)
            && (other in st.rates ==> st'.rates[other] == st.rates[other]))
      && (st.secret.Some? ==>
            && ip in st'.rates
            && if ip !in st.rates || now > st.rates[ip].resetAt then st'.rates[ip] == RateEntry(1, now + 3600000)
               else st'.rates[ip].resetAt == st.rates[ip].resetAt
                    && st'.rates[ip].count == st.rates[ip].count + if st.rates[ip].count < 50 then 1 else 0)
  {
  }

  // ----- blinding -----

  /** Unblinding the signed blinded point gives the signed point. */
  lemma BlindSigning(g: Group, p: Point, blind: nat, k: nat)
    requires IsGroup(g) && 0 < blind < g.order
    ensures Unblind(g, Scale(g, Scale(g, p, blind), k), blind) == Ok(Scale(g, p, k))
  {
    var q := g.order;
    var inverse := Inverse(q, blind);
    QuotientUnique(q, blind, 0, blind);
    InverseInverts(q, blind);
    var z := Scale(g, Scale(g, p, blind), k);
    // z is p blind k
    SameMod(q, p * blind);
    SameScale(q, Scale(g, p, blind), p * blind, k);
    SameMod(q, Scale(g, p, blind) * k);
    SameScale(q, z, p * blind * k, inverse);
    // and blind * inverse is 1
    QuotientUnique(q, 1, 0, 1);
    SameScale(q, blind * inverse, 1, p * k);
    Rearrange(p, blind, k, inverse);
  }

  lemma Rearrange(p: int, r: int, k: int, i: int)
    ensures p * r * k * i == r * i * (p * k)
  {
  }

  lemma ScaleBelow(g: Group, p: Point, s: nat)
    requires g.order > 0
    ensures Scale(g, p, s) < g.order
  {
  }

  /** A redemption is accepted exactly when it is unspent and carries the point k H(t). */
  lemma VerifyIs(sc: Scheme, st: Issuer, token: string, authenticator: string, now: int)
    requires IsGroup(sc.group) && KeysOk(sc.group, st)
    ensures Verify(sc, st, token, authenticator, now).1 == Valid <==>
      st.secret.Some? && token != "" && authenticator != "" && SpendKey(sc, token, authenticator) !in st.spent
      && sc.group.decode(sc.fromBase64(authenticator)) ==
           Some(Scale(sc.group, sc.group.hashToPoint(sc.fromBase64(token)), st.secret.value))
  {
  }

  /** Every verdict, in the order in which the reasons are looked for, and the one change an acceptance makes. */
  lemma VerdictIs(sc: Scheme, st: Issuer, token: string, authenticator: string, now: int)
    requires IsGroup(sc.group) && KeysOk(sc.group, st)
    ensures
      var (st', verdict) := Verify(sc, st, token, authenticator, now);
      var t, a := sc.fromBase64(token), sc.fromBase64(authenticator);
      var known := st.secret.Some?;
      var given := known && token != "" && authenticator != "";
      var unspent := given && sc.spendHash(t + a) !in st.spent;
      && (verdict == Uninitialised <==> !known)
      && (verdict == Missing <==> known && !given)
      && (verdict == AlreadySpent <==> given && !unspent)
      && (verdict == Malformed <==> unspent && sc.group.decode(a).None?)
      && (verdict == Valid ==> st' == st.(spent := st.spent[sc.spendHash(t + a) := now + 3600000]))
      && (verdict != Valid ==> st' == st)
  {
  }

  /**
   The whole round: the client blinds H(t), the issuer signs it, the client unblinds, and what comes out
   is accepted for t exactly when it has not been spent.
  */
  lemma IssuedTokenIsAccepted(sc: Scheme, st: Issuer, token: string, blind: nat, ip: string, now: int,
                              random: nat -> Bytes, st': Issuer, authenticator: string, later: int)
    requires IsGroup(sc.group) && KeysOk(sc.group, st) && 0 < blind < sc.group.order && token != ""
             && authenticator != ""
    requires st'.secret == st.secret && st'.public == st.public
    requires var g := sc.group;
             var blinded := g.encode(Scale(g, g.hashToPoint(sc.fromBase64(token)), blind));
             var r := Issue(g, st, [blinded], ip, now, random).1;
             && r.Ok?
             && |r.value| == 1 && g.decode(r.value[0].element).Some?
             && Unblind(g, g.decode(r.value[0].element).value, blind).Ok?
             && sc.fromBase64(authenticator) == g.encode(Unblind(g, g.decode(r.value[0].element).value, blind).value)
    ensures Verify(sc, st', token, authenticator, later).1 == Valid
            <==> SpendKey(sc, token, authenticator) !in st'.spent
  {
    var g := sc.group;
    var p := g.hashToPoint(sc.fromBase64(token));
    var k := st.secret.value;
    var blinded := g.encode(Scale(g, p, blind));
    IssueIs(g, st, [blinded], ip, now, random);
    var r := Issue(g, st, [blinded], ip, now, random).1;
    assert SignedBy(g, k, [blinded][0], r.value[0]);
    assert g.decode(blinded) == Some(Scale(g, p, blind));
    ScaleBelow(g, Scale(g, p, blind), k);
    BlindSigning(g, p, blind, k);
    ScaleBelow(g, p, k);
    VerifyIs(sc, st', token, authenticator, later);
  }

  /** The premises of the round are met whenever the request is granted: the client can always unblind. */
  lemma IssuedTokenUnblinds(g: Group, st: Issuer, p: Point, blind: nat, ip: string, now: int, random: nat -> Bytes)
    requires IsGroup(g) && KeysOk(g, st) && 0 < blind < g.order && p < g.order
    requires Issue(g, st, [g.encode(Scale(g, p, blind))], ip, now, random).1.Ok?
    ensures var r := Issue(g, st, [g.encode(Scale(g, p, blind))], ip, now, random).1;
            && |r.value| == 1 && g.decode(r.value[0].element).Some?
            && Unblind(g, g.decode(r.value[0].element).value, blind) == Ok(Scale(g, p, st.secret.value))
  {
    var blinded := g.encode(Scale(g, p, blind));
    var k := st.secret.value;
    IssueIs(g, st, [blinded], ip, now, random);
    var r := Issue(g, st, [blinded], ip, now, random).1;
    assert SignedBy(g, k, [blinded][0], r.value[0]);
    assert g.decode(blinded) == Some(Scale(g, p, blind));
    ScaleBelow(g, Scale(g, p, blind), k);
    BlindSigning(g, p, blind, k);
  }

  // ----- runs -----

  datatype Event =
    | Redeem(token: string, authenticator: string, now: int)
    | Request(blinded: seq<Bytes>, ip: string, now: int, random: nat -> Bytes)
    | Clean(now: int)

  function Step(sc: Scheme, st: Issuer, e: Event): Issuer
    requires sc.group.order > 1
  {
    match e
    case Redeem(token, authenticator, now) => Verify(sc, st, token, authenticator, now).0
    case Request(blinded, ip, now, random) => Issue(sc.group, st, blinded, ip, now, random).0
    case Clean(now) => Cleanup(st, now)
  }

  function Run(sc: Scheme, st: Issuer, events: seq<Event>): Issuer
    requires sc.group.order > 1
    decreases |events|
  {
    if events == [] then st else Run(sc, Step(sc, st, events[0]), events[1..])
  }

  /** The clock reads `from` before, `to` after, and never goes back. */
  predicate Monotone(from: int, events: seq<Event>, to: int)
    decreases |events|
  {
    if events == [] then from <= to else from <= events[0].now && Monotone(events[0].now, events[1..], to)
  }

  // ----- a token is spent once -----

  /** While no cleanup runs after its expiry, a spent key stays. */
  lemma {:induction false} SpentStays(sc: Scheme, st: Issuer, events: seq<Event>, from: int, to: int, key: Bytes,
                                      expiry: int)
    requires sc.group.order > 1 && key in st.spent && st.spent[key] == expiry
    requires Monotone(from, events, to) && to <= expiry
    ensures key in Run(sc, st, events).spent
    decreases |events|
  {
    if events != [] {
      MonotoneEnds(events[0].now, events[1..], to);
      SpentStays(sc, Step(sc, st, events[0]), events[1..], events[0].now, to, key, expiry);
    }
  }

  lemma {:induction false} MonotoneEnds(from: int, events: seq<Event>, to: int)
    requires Monotone(from, events, to)
    ensures from <= to
    decreases |events|
  {
    if events != [] { MonotoneEnds(events[0].now, events[1..], to); }
  }

  lemma {:induction false} RunKeepsKeys(sc: Scheme, st: Issuer, events: seq<Event>)
    requires sc.group.order > 1
    ensures Run(sc, st, events).secret == st.secret && Run(sc, st, events).public == st.public
    decreases |events|
  {
    if events != [] { RunKeepsKeys(sc, Step(sc, st, events[0]), events[1..]); }
  }

  /** An accepted token and authenticator are refused as spent for the next hour, whatever happens in between. */
  lemma NoDoubleSpend(sc: Scheme, st: Issuer, token: string, authenticator: string, first: int, between: seq<Event>,
                      again: int)
    requires sc.group.order > 1
    requires Verify(sc, st, token, authenticator, first).1 == Valid
    requires Monotone(first, between, again) && again <= first + SPENT_TOKEN_TTL
    ensures var st' := Run(sc, Verify(sc, st, token, authenticator, first).0, between);
            Verify(sc, st', token, authenticator, again).1 == AlreadySpent
  {
    var st1 := Verify(sc, st, token, authenticator, first).0;
    SpentStays(sc, st1, between, first, again, SpendKey(sc, token, authenticator), first + SPENT_TOKEN_TTL);
    RunKeepsKeys(sc, st1, between);
  }

  /** Every point has one encoding, as Ristretto guarantees. */
  ghost predicate Canonical(g: Group) {
    forall b :: g.decode(b).Some? ==> g.encode(g.decode(b).value) == b
  }

  /** With canonical encodings no other authenticator gets the same token accepted either. */
  lemma NoTokenTwice(sc: Scheme, st: Issuer, token: string, authenticator: string, first: int, between: seq<Event>,
                     token': string, authenticator': string, again: int)
    requires IsGroup(sc.group) && Canonical(sc.group) && KeysOk(sc.group, st)
    requires Verify(sc, st, token, authenticator, first).1 == Valid
    requires Monotone(first, between, again) && again <= first + SPENT_TOKEN_TTL
    requires sc.fromBase64(token') == sc.fromBase64(token)
    ensures var st' := Run(sc, Verify(sc, st, token, authenticator, first).0, between);
            Verify(sc, st', token', authenticator', again).1 != Valid
  {
    var st1 := Verify(sc, st, token, authenticator, first).0;
    var st2 := Run(sc, st1, between);
    RunKeepsKeys(sc, st1, between);
    VerifyIs(sc, st, token, authenticator, first);
    VerifyIs(sc, st2, token', authenticator', again);
    SpentStays(sc, st1, between, first, again, SpendKey(sc, token, authenticator), first + SPENT_TOKEN_TTL);
    var w, w' := sc.fromBase64(authenticator), sc.fromBase64(authenticator');
    assert sc.group.encode(sc.group.decode(w).value) == w;
    if sc.group.decode(w') == sc.group.decode(w) {
      assert w' == w;
    }
  }

  /** No event redeems something with this spend key. */
  predicate Untouched(sc: Scheme, events: seq<Event>, key: Bytes) {
    events == []
    || ((events[0].Redeem? ==> SpendKey(sc, events[0].token, events[0].authenticator) != key)
        && Untouched(sc, events[1..], key))
  }

  predicate CleanedAfter(events: seq<Event>, expiry: int) {
    events != [] && ((events[0].Clean? && events[0].now > expiry) || CleanedAfter(events[1..], expiry))
  }

  lemma {:induction false} SpentUntilCleaned(sc: Scheme, st: Issuer, events: seq<Event>, key: Bytes, expiry: int)
    requires sc.group.order > 1 && (key in st.spent ==> st.spent[key] == expiry) && Untouched(sc, events, key)
    ensures key in Run(sc, st, events).spent <==> key in st.spent && !CleanedAfter(events, expiry)
    decreases |events|
  {
    if events != [] {
      var st1 := Step(sc, st, events[0]);
      assert key in st1.spent <==> key in st.spent && !(events[0].Clean? && events[0].now > expiry);
      SpentUntilCleaned(sc, st1, events[1..], key, expiry);
    }
  }

  /** It is accepted once more exactly when a cleanup has run after the hour was over. */
  lemma RespentIff(sc: Scheme, st: Issuer, token: string, authenticator: string, first: int, between: seq<Event>,
                   again: int)
    requires IsGroup(sc.group) && KeysOk(sc.group, st)
    requires Verify(sc, st, token, authenticator, first).1 == Valid
    requires Untouched(sc, between, SpendKey(sc, token, authenticator))
    ensures var st' := Run(sc, Verify(sc, st, token, authenticator, first).0, between);
            Verify(sc, st', token, authenticator, again).1 == Valid <==> CleanedAfter(between, first + SPENT_TOKEN_TTL)
  {
    var st1 := Verify(sc, st, token, authenticator, first).0;
    var st2 := Run(sc, st1, between);
    RunKeepsKeys(sc, st1, between);
    SpentUntilCleaned(sc, st1, between, SpendKey(sc, token, authenticator), first + SPENT_TOKEN_TTL);
    VerifyIs(sc, st, token, authenticator, first);
    VerifyIs(sc, st2, token, authenticator, again);
  }

  // ----- how much one address gets in an hour -----

  /** Requests of the address let through with their time in a..b. */
  function Granted(sc: Scheme, st: Issuer, events: seq<Event>, ip: string, a: int, b: int): nat
    requires sc.group.order > 1
    decreases |events|
  {
    if events == [] then 0
    else
      var e := events[0];
      (if e.Request? && e.ip == ip && st.secret.Some? && a <= e.now <= b && Admitted(st.rates, ip, e.now) then 1 else 0)
      + Granted(sc, Step(sc, st, e), events[1..], ip, a, b)
  }

  /** An open window has counted its first request and no more than the limit. */
  predicate RatesOk(st: Issuer, ip: string) {
    ip in st.rates ==> 1 <= st.rates[ip].count <= MAX_ISSUANCE_PER_HOUR
  }

  /** What the address can still get until b: the rest of its window, and another window if this one ends before b. */
  function Budget(st: Issuer, ip: string, now: int, b: int): int {
    if ip !in st.rates || now > st.rates[ip].resetAt then MAX_ISSUANCE_PER_HOUR
    else if st.rates[ip].resetAt >= b then MAX_ISSUANCE_PER_HOUR - st.rates[ip].count
    else 2 * MAX_ISSUANCE_PER_HOUR - st.rates[ip].count
  }

  lemma {:induction false} NothingAfter(sc: Scheme, st: Issuer, events: seq<Event>, ip: string, a: int, b: int,
                                        from: int, to: int)
    requires sc.group.order > 1 && Monotone(from, events, to) && b < from
    ensures Granted(sc, st, events, ip, a, b) == 0
    decreases |events|
  {
    if events != [] {
      NothingAfter(sc, Step(sc, st, events[0]), events[1..], ip, a, b, events[0].now, to);
    }
  }

  lemma StepSpendsBudget(sc: Scheme, st: Issuer, e: Event, ip: string, a: int, b: int, from: int)
    requires sc.group.order > 1 && RatesOk(st, ip) && a <= from <= e.now <= b <= a + RATE_WINDOW
    ensures RatesOk(Step(sc, st, e), ip)
    ensures (if e.Request? && e.ip == ip && st.secret.Some? && Admitted(st.rates, ip, e.now) then 1 else 0)
            + Budget(Step(sc, st, e), ip, e.now, b) <= Budget(st, ip, from, b)
  {
  }

  lemma {:induction false} GrantedWithinBudget(sc: Scheme, st: Issuer, events: seq<Event>, ip: string, a: int, b: int,
                                               from: int, to: int)
    requires sc.group.order > 1 && RatesOk(st, ip) && Monotone(from, events, to) && a <= from && b <= a + RATE_WINDOW
    ensures Granted(sc, st, events, ip, a, b) <= Budget(st, ip, from, b)
    decreases |events|
  {
    if events != [] {
      var e := events[0];
      if e.now <= b {
        StepSpendsBudget(sc, st, e, ip, a, b, from);
        GrantedWithinBudget(sc, Step(sc, st, e), events[1..], ip, a, b, e.now, to);
      } else {
        NothingAfter(sc, Step(sc, st, e), events[1..], ip, a, b, e.now, to);
      }
    }
  }

  lemma StepKeepsRates(sc: Scheme, st: Issuer, e: Event, ip: string)
    requires sc.group.order > 1 && RatesOk(st, ip)
    ensures RatesOk(Step(sc, st, e), ip)
  {
  }

  /**
   In any hour, over any run under a monotone clock, one address passes at most 99 times, one short of twice the
   limit.
  */
  lemma {:induction false} HourBound(sc: Scheme, st: Issuer, events: seq<Event>, ip: string, a: int, from: int, to: int)
    requires sc.group.order > 1 && RatesOk(st, ip) && Monotone(from, events, to)
    ensures Granted(sc, st, events, ip, a, a + RATE_WINDOW) <= 2 * MAX_ISSUANCE_PER_HOUR - 1
    decreases |events|
  {
    if a <= from {
      GrantedWithinBudget(sc, st, events, ip, a, a + RATE_WINDOW, from, to);
    } else if events != [] {
      var e := events[0];
      StepKeepsRates(sc, st, e, ip);
      if a <= e.now {
        GrantedWithinBudget(sc, st, events, ip, a, a + RATE_WINDOW, a, to);
      } else {
        HourBound(sc, Step(sc, st, e), events[1..], ip, a, e.now, to);
      }
    }
  }

  // ----- the bounds are reached -----

  /** `n` requests at one moment, each with the same blinded elements and randomness. */
  function Burst(ip: string, now: int, n: nat, blinded: seq<Bytes>, random: nat -> Bytes): seq<Event> {
    if n == 0 then [] else [Request(blinded, ip, now, random)] + Burst(ip, now, n - 1, blinded, random)
  }

  /** The state after n requests that are let through. */
  function Charged(st: Issuer, ip: string, n: nat): Issuer
    requires ip in st.rates
  {
    st.(rates := st.rates[ip := RateEntry(st.rates[ip].count + n, st.rates[ip].resetAt)])
  }

  /** The state after a request that opens a window. */
  function Opened(st: Issuer, ip: string, now: int): Issuer {
    st.(rates := st.rates[ip := RateEntry(1, now + RATE_WINDOW)])
  }

  lemma OneCharged(sc: Scheme, st: Issuer, ip: string, e: Event, n: nat)
    requires sc.group.order > 1 && st.secret.Some? && ip in st.rates && e.Request? && e.ip == ip
    requires e.now <= st.rates[ip].resetAt && st.rates[ip].count < MAX_ISSUANCE_PER_HOUR
    ensures Step(sc, st, e) == Charged(st, ip, 1) && Charged(Charged(st, ip, 1), ip, n) == Charged(st, ip, n + 1)
  {
  }

  lemma {:induction false} BurstGranted(sc: Scheme, st: Issuer, ip: string, now: int, n: nat, blinded: seq<Bytes>,
                                        random: nat -> Bytes, rest: seq<Event>, a: int, b: int)
    requires sc.group.order > 1 && st.secret.Some? && a <= now <= b
    requires ip in st.rates && now <= st.rates[ip].resetAt && st.rates[ip].count + n <= MAX_ISSUANCE_PER_HOUR
    ensures Granted(sc, st, Burst(ip, now, n, blinded, random) + rest, ip, a, b) ==
            n + Granted(sc, Charged(st, ip, n), rest, ip, a, b)
    decreases n
  {
    var events := Burst(ip, now, n, blinded, random) + rest;
    if n == 0 {
      assert events == rest && Charged(st, ip, 0) == st;
    } else {
      assert events[0] == Request(blinded, ip, now, random);
      assert events[1..] == Burst(ip, now, n - 1, blinded, random) + rest;
      OneCharged(sc, st, ip, events[0], n - 1);
      BurstGranted(sc, Charged(st, ip, 1), ip, now, n - 1, blinded, random, rest, a, b);
    }
  }

  lemma {:induction false} BurstMonotone(ip: string, now: int, n: nat, blinded: seq<Bytes>, random: nat -> Bytes,
                                         rest: seq<Event>, from: int, to: int)
    requires from <= now && Monotone(now, rest, to)
    ensures Monotone(from, Burst(ip, now, n, blinded, random) + rest, to)
  {
    var events := Burst(ip, now, n, blinded, random) + rest;
    if n == 0 {
      assert events == rest;
    } else {
      assert events[1..] == Burst(ip, now, n - 1, blinded, random) + rest;
      BurstMonotone(ip, now, n - 1, blinded, random, rest, now, to);
    }
  }

  /** With no window open, fifty requests at once pass. */
  lemma NewWindowFills(sc: Scheme, st: Issuer, ip: string, now: int, blinded: seq<Bytes>, random: nat -> Bytes,
                       from: int, a: int, b: int) returns (events: seq<Event>)
    requires sc.group.order > 1 && st.secret.Some? && a <= now <= b && from <= now
    requires ip !in st.rates || now > st.rates[ip].resetAt
    ensures Monotone(from, events, now) && Granted(sc, st, events, ip, a, b) == MAX_ISSUANCE_PER_HOUR
  {
    var tail := Burst(ip, now, 49, blinded, random);
    events := [Request(blinded, ip, now, random)] + tail;
    BurstMonotone(ip, now, 49, blinded, random, [], now, now);
    assert tail + [] == tail && events[1..] == tail;
    assert Step(sc, st, events[0]) == Opened(st, ip, now);
    BurstGranted(sc, Opened(st, ip, now), ip, now, 49, blinded, random, [], a, b);
  }

  /** Fills up the open window at `now` and then a new one as soon as it has ended. */
  lemma TwoWindowsFill(sc: Scheme, st: Issuer, ip: string, now: int, blinded: seq<Bytes>, random: nat -> Bytes,
                       from: int, a: int, b: int) returns (events: seq<Event>)
    requires sc.group.order > 1 && st.secret.Some? && RatesOk(st, ip) && ip in st.rates
    requires from <= now && a <= now <= st.rates[ip].resetAt < b
    ensures Monotone(from, events, b)
    ensures Granted(sc, st, events, ip, a, b) == 2 * MAX_ISSUANCE_PER_HOUR - st.rates[ip].count
  {
    var left := MAX_ISSUANCE_PER_HOUR - st.rates[ip].count;
    var next := st.rates[ip].resetAt + 1;
    var full := Charged(st, ip, left);
    var late := NewWindowFills(sc, full, ip, next, blinded, random, now, a, b);
    MonotoneLater(now, late, next, b);
    events := Burst(ip, now, left, blinded, random) + late;
    BurstMonotone(ip, now, left, blinded, random, late, from, b);
    BurstGranted(sc, st, ip, now, left, blinded, random, late, a, b);
  }

  lemma {:induction false} MonotoneLater(from: int, events: seq<Event>, to: int, later: int)
    requires Monotone(from, events, to) && to <= later
    ensures Monotone(from, events, later)
    decreases |events|
  {
    if events != [] { MonotoneLater(events[0].now, events[1..], to, later); }
  }

  /**
   The most that can pass in the hour from `start` is the budget, whatever the blinded elements of the
   requests: no run exceeds it, and some run reaches it.
  */
  lemma BudgetIsReached(sc: Scheme, st: Issuer, ip: string, start: int, blinded: seq<Bytes>, random: nat -> Bytes)
    returns (events: seq<Event>)
    requires sc.group.order > 1 && st.secret.Some? && RatesOk(st, ip)
    ensures Monotone(start, events, start + RATE_WINDOW)
    ensures Granted(sc, st, events, ip, start, start + RATE_WINDOW) == Budget(st, ip, start, start + RATE_WINDOW)
  {
    var end := start + RATE_WINDOW;
    if ip !in st.rates || start > st.rates[ip].resetAt {
      events := NewWindowFills(sc, st, ip, start, blinded, random, start, start, end);
      MonotoneLater(start, events, start, end);
    } else if st.rates[ip].resetAt >= end {
      var left := MAX_ISSUANCE_PER_HOUR - st.rates[ip].count;
      events := Burst(ip, start, left, blinded, random);
      assert events + [] == events;
      BurstMonotone(ip, start, left, blinded, random, [], start, end);
      BurstGranted(sc, st, ip, start, left, blinded, random, [], start, end);
    } else {
      events := TwoWindowsFill(sc, st, ip, start, blinded, random, start, start, end);
    }
  }

  /** No run from here lets more than the limit through in the next hour. */
  ghost predicate LimitHolds(sc: Scheme, st: Issuer, ip: string, start: int)
    requires sc.group.order > 1
  {
    forall events, to: int :: Monotone(start, events, to) ==>
      Granted(sc, st, events, ip, start, start + RATE_WINDOW) <= MAX_ISSUANCE_PER_HOUR
  }

  /**
   The limit holds for the hour from `start`, over every run, exactly when no window is open, or the open one
   lasts out the hour, or it is already full.
  */
  lemma LimitHoldsIff(sc: Scheme, st: Issuer, ip: string, start: int)
    requires sc.group.order > 1 && st.secret.Some? && RatesOk(st, ip)
    ensures LimitHolds(sc, st, ip, start) <==>
      (ip !in st.rates || start > st.rates[ip].resetAt || st.rates[ip].resetAt >= start + RATE_WINDOW
       || st.rates[ip].count == MAX_ISSUANCE_PER_HOUR)
  {
    var end := start + RATE_WINDOW;
    if Budget(st, ip, start, end) <= MAX_ISSUANCE_PER_HOUR {
      forall events, to: int | Monotone(start, events, to)
        ensures Granted(sc, st, events, ip, start, end) <= MAX_ISSUANCE_PER_HOUR
      {
        GrantedWithinBudget(sc, st, events, ip, start, end, start, to);
      }
    } else {
      var events := BudgetIsReached(sc, st, ip, start, [], _ => []);
      assert Monotone(start, events, end) && Granted(sc, st, events, ip, start, end) > MAX_ISSUANCE_PER_HOUR;
    }
  }

  /** From a moment when no window is open, the limit itself holds for an hour. */
  lemma WindowBound(sc: Scheme, st: Issuer, events: seq<Event>, ip: string, start: int, to: int)
    requires sc.group.order > 1 && RatesOk(st, ip) && Monotone(start, events, to)
    requires ip !in st.rates || start > st.rates[ip].resetAt
    ensures Granted(sc, st, events, ip, start, start + RATE_WINDOW) <= MAX_ISSUANCE_PER_HOUR
  {
    GrantedWithinBudget(sc, st, events, ip, start, start + RATE_WINDOW, start, to);
  }

  /**
   The windows are fixed, not sliding: a request, 49 more when its window is about to end, and 50 in the next
   millisecond. The last 99 pass within that millisecond, each with the given blinded elements.
  */
  lemma HourCanExceedLimit(sc: Scheme, st: Issuer, ip: string, blinded: seq<Bytes>, random: nat -> Bytes)
    returns (events: seq<Event>)
    requires sc.group.order > 1 && st.secret.Some? && ip !in st.rates
    ensures Monotone(0, events, RATE_WINDOW + 1)
    ensures Granted(sc, st, events, ip, RATE_WINDOW, RATE_WINDOW + 1) == 2 * MAX_ISSUANCE_PER_HOUR - 1
  {
    var t := RATE_WINDOW;
    var opening := Request(blinded, ip, 0, random);
    var st1 := Step(sc, st, opening);
    assert st1 == Opened(st, ip, 0);
    var rest := TwoWindowsFill(sc, st1, ip, t, blinded, random, 0, t, t + 1);
    events := [opening] + rest;
    assert events[1..] == rest;
  }
}
