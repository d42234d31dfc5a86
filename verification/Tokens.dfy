/** Access and refresh tokens: minting a pair, verifying an access token, and validating a pair for refresh. */
module Tokens {
  import opened Basics
  import Text
  import Decimal

  /** The keyed digest of a message; HMAC is taken to be injective on messages. */
  datatype Digest = Hmac(message: string)

  datatype TokenType = Access | Refresh

  /** `iat` and `exp` are whole seconds (section 4.1.4 of RFC 7519); `sit` names the session. */
  datatype Claims = Claims(sub: string, role: string, dig: Digest, sit: nat, typ: TokenType, iat: nat, exp: nat)

  datatype Secret = AccessSecret | RefreshSecret | AnotherSecret

  datatype Jwt = Jwt(claims: Claims, signedWith: Secret)

  datatype TokenPair = TokenPair(access: Jwt, refresh: Jwt, sit: nat)

  datatype Identity = Identity(userId: string, role: string, sit: nat)

  datatype TokenError = InvalidAccess | InvalidRefresh | WrongType | DigestMismatch | PairMismatch

  const ACCESS_LIFETIME_S := 15 * 60
  const REFRESH_LIFETIME_S := 7 * 24 * 60 * 60

  /** The clock in milliseconds as `generatePair` reads it: for `sit`, then for each of the two signatures. */
  datatype MintClock = MintClock(started: nat, accessSigned: nat, refreshSigned: nat)

  function Message(userId: string, role: string, sit: nat): string {
    userId + ":" + role + ":" + Decimal.Render(sit)
  }

  function DeriveDigest(userId: string, role: string, sit: nat): Digest {
    Hmac(Message(userId, role, sit))
  }

  predicate ColonFree(s: string) {
    ':' !in s
  }

  /** The colon-joined message, and so the digest, determines the user, the role and the session. */
  lemma DigestIdentifiesSession(u1: string, r1: string, s1: nat, u2: string, r2: string, s2: nat)
    requires ColonFree(u1) && ColonFree(r1) && ColonFree(u2) && ColonFree(r2)
    ensures DeriveDigest(u1, r1, s1) == DeriveDigest(u2, r2, s2) <==> u1 == u2 && r1 == r2 && s1 == s2
  {
    if DeriveDigest(u1, r1, s1) == DeriveDigest(u2, r2, s2) {
      var d1, d2 := Decimal.Render(s1), Decimal.Render(s2);
      assert Message(u1, r1, s1) == u1 + [':'] + (r1 + [':'] + d1);
      assert Message(u2, r2, s2) == u2 + [':'] + (r2 + [':'] + d2);
      Text.PrefixBeforeSeparatorIsUnique(u1, r1 + [':'] + d1, u2, r2 + [':'] + d2, ':');
      Text.PrefixBeforeSeparatorIsUnique(r1, d1, r2, d2, ':');
      Decimal.RenderIsInjective(s1, s2);
    }
  }

  function Sign(userId: string, role: string, sit: nat, typ: TokenType, at: nat): Jwt {
    var lifetime := if typ.Access? then ACCESS_LIFETIME_S else REFRESH_LIFETIME_S;
    Jwt(Claims(userId, role, DeriveDigest(userId, role, sit), sit, typ, at / 1000, at / 1000 + lifetime),
        if typ.Access? then AccessSecret else RefreshSecret)
  }

  function GeneratePair(userId: string, role: string, existingSit: Option<nat>, clock: MintClock): TokenPair {
    var sit := if existingSit.Some? then existingSit.value else clock.started / 1000;
    TokenPair(Sign(userId, role, sit, Access, clock.accessSigned),
              Sign(userId, role, sit, Refresh, clock.refreshSigned), sit)
  }

  /** Signature first, then expiry: a token is dead from the first millisecond of its `exp` second on. */
  function Verify(token: Option<Jwt>, secret: Secret, ignoreExpiration: bool, now: nat): Option<Claims> {
    if token.None? || token.value.signedWith != secret then None
    else if !ignoreExpiration && now / 1000 >= token.value.claims.exp then None
    else Some(token.value.claims)
  }

  function VerifyAccess(token: Option<Jwt>, now: nat): Result<Claims, TokenError> {
    match Verify(token, AccessSecret, false, now)
    case None => Err(InvalidAccess)
    case Some(payload) =>
      if payload.typ != Access then Err(WrongType)
      else if payload.dig != DeriveDigest(payload.sub, payload.role, payload.sit) then Err(DigestMismatch)
      else Ok(payload)
  }

  /** The access token is only decoded; the refresh token is verified in full; the two must share a digest. */
  function VerifyRefreshPair(access: Option<Jwt>, refresh: Option<Jwt>, now: nat): Result<Identity, TokenError> {
    if access.None? || access.value.claims.typ != Access then Err(InvalidAccess)
    else
      match Verify(refresh, RefreshSecret, false, now)
      case None => Err(InvalidRefresh)
      case Some(payload) =>
        if payload.typ != Refresh then Err(WrongType)
        else
          var digestValid := payload.dig == DeriveDigest(payload.sub, payload.role, payload.sit);
          var pairMatch := payload.dig == access.value.claims.dig;
          if !digestValid || !pairMatch then Err(PairMismatch)
          else Ok(Identity(payload.sub, payload.role, payload.sit))
  }

  function DecodeRefresh(token: Option<Jwt>, now: nat): Result<(string, nat), TokenError> {
    match Verify(token, RefreshSecret, true, now)
    case None => Err(InvalidRefresh)
    case Some(payload) => if payload.typ != Refresh then Err(WrongType) else Ok((payload.sub, payload.sit))
  }

  /**
   * Tokens from any two mintings: the pair is accepted exactly while the refresh token lives and when both were
   * minted for the same user, role and session; the identity accepted is theirs.
   */
  lemma MintedPairAcceptedIff(u1: string, r1: string, e1: Option<nat>, c1: MintClock,
                              u2: string, r2: string, e2: Option<nat>, c2: MintClock, now: nat)
    requires ColonFree(u1) && ColonFree(r1) && ColonFree(u2) && ColonFree(r2)
    ensures var p1, p2 := GeneratePair(u1, r1, e1, c1), GeneratePair(u2, r2, e2, c2);
            var v := VerifyRefreshPair(Some(p1.access), Some(p2.refresh), now);
            && (v.Ok? <==> now / 1000 < c2.refreshSigned / 1000 + REFRESH_LIFETIME_S
                             && u1 == u2 && r1 == r2 && p1.sit == p2.sit)
            && (v.Ok? ==> v.value == Identity(u1, r1, p1.sit))
  {
    var p1, p2 := GeneratePair(u1, r1, e1, c1), GeneratePair(u2, r2, e2, c2);
    DigestIdentifiesSession(u1, r1, p1.sit, u2, r2, p2.sit);
  }

  /** One accepted refresh: the access token presented beside the refresh token, and the clocks. */
  datatype Link = Link(access: Option<Jwt>, now: nat, clock: MintClock)

  predicate RefreshedFrom(p: TokenPair, l: Link, q: TokenPair) {
    var v := VerifyRefreshPair(l.access, Some(p.refresh), l.now);
    v.Ok? && q == GeneratePair(v.value.userId, v.value.role, Some(v.value.sit), l.clock)
  }

  predicate RefreshChain(pairs: seq<TokenPair>, links: seq<Link>) {
    |pairs| == |links| + 1 && forall i :: 0 <= i < |links| ==> RefreshedFrom(pairs[i], links[i], pairs[i + 1])
  }

  /** However long a chain of refreshes, every pair in it carries the user, role and session its first one was for. */
  lemma {:induction false} RefreshChainKeepsIdentity(u: string, r: string, e: Option<nat>, clock: MintClock,
                                                     pairs: seq<TokenPair>, links: seq<Link>, i: nat)
    requires RefreshChain(pairs, links) && i < |pairs| && pairs[0] == GeneratePair(u, r, e, clock)
    ensures var p := pairs[i];
            && p.access.claims.sub == p.refresh.claims.sub == u
            && p.access.claims.role == p.refresh.claims.role == r
            && p.access.claims.sit == p.refresh.claims.sit == p.sit == pairs[0].sit
            && p.access.claims.dig == p.refresh.claims.dig == DeriveDigest(u, r, pairs[0].sit)
    decreases i
  {
    if i > 0 {
      RefreshChainKeepsIdentity(u, r, e, clock, pairs, links, i - 1);
      assert RefreshedFrom(pairs[i - 1], links[i - 1], pairs[i - 1 + 1]);
    }
  }

  /**
   * What two minted tokens can still do is settled by type: neither passes for the other in any place, each passes in
   * its own, and each lives exactly its own lifetime from its own signing.
   */
  lemma TokenTypesDoNotMix(u: string, r: string, e: Option<nat>, clock: MintClock, now: nat, other: Option<Jwt>)
    ensures var p := GeneratePair(u, r, e, clock);
            && (VerifyAccess(Some(p.access), now).Ok? <==> now / 1000 < clock.accessSigned / 1000 + ACCESS_LIFETIME_S)
            && VerifyAccess(Some(p.refresh), now).Err?
            && ((now / 1000 < clock.refreshSigned / 1000 + REFRESH_LIFETIME_S)
                  <==> VerifyRefreshPair(Some(p.access), Some(p.refresh), now).Ok?)
            && VerifyRefreshPair(Some(p.refresh), other, now).Err?
            && VerifyRefreshPair(other, Some(p.access), now).Err?
            && DecodeRefresh(Some(p.access), now).Err?
            && DecodeRefresh(Some(p.refresh), now) == Ok((u, p.sit))
  {
  }
}
