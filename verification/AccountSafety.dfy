/** What every run of the identity services keeps. */
module AccountSafety {
  import opened Basics
  import opened Tokens
  import opened Accounts
  import Mail = MailTokens

  // ---- The invariant, one clause per kind of row ------------------------------------------------------------

  /** The account redeemed a verification mail. */
  predicate RedeemedVerification(t: Mail.Table, id: string) {
    exists k :: 0 <= k < |t.redeemed| && t.redeemed[k].index < |t.rows|
      && Mail.SameOwner(t.rows[t.redeemed[k].index], id, Mail.Verification)
  }

  /** Accounts the system made have role `user`, and are verified only by GitHub or by their own mail. */
  predicate UserSound(s: State, id: string) {
    id in s.users ==>
      && ColonFree(id)
      && (!s.users[id].seeded ==>
            && s.users[id].role == User
            && (s.users[id].emailVerifiedAt.Some? ==> s.users[id].githubId.Some? || RedeemedVerification(s.mail, id)))
  }

  predicate SessionSound(s: State, key: SessionKey) {
    key in s.sessions ==>
      && key.0 in s.users && s.users[key.0].emailVerifiedAt.Some?
      && s.sessions[key].expiresAt <= s.now + SESSION_TTL_MS
  }

  /** Claims a token carries are those of its session, its user and that user's stored role. */
  predicate ClaimsSound(s: State, c: Claims, sit: nat) {
    && c.sit == sit && (c.sub, sit) in s.sessions && c.sub in s.users
    && c.role == RoleName(s.users[c.sub].role)
    && c.dig == DeriveDigest(c.sub, c.role, sit)
  }

  predicate PairSound(s: State, p: TokenPair) {
    && p.access.signedWith == AccessSecret && p.access.claims.typ == Access
    && p.refresh.signedWith == RefreshSecret && p.refresh.claims.typ == Refresh
    && ClaimsSound(s, p.access.claims, p.sit) && ClaimsSound(s, p.refresh.claims, p.sit)
    && p.access.claims.sub == p.refresh.claims.sub
    && p.refresh.claims.exp == p.refresh.claims.iat + REFRESH_LIFETIME_S
  }

  predicate PairOf(p: TokenPair, key: SessionKey) {
    (p.refresh.claims.sub, p.sit) == key
  }

  predicate IdentitySound(s: State, id: Identity) {
    && KeyOf(id) in s.sessions && id.userId in s.users
    && id.role == RoleName(s.users[id.userId].role)
  }

  /** A minted pair is for the admitted identity, and was signed no later than its new expiry was computed. */
  predicate FlightSound(s: State, f: Flight) {
    && IdentitySound(s, f.id)
    && (f.Minted? ==>
          && PairSound(s, f.pair) && PairOf(f.pair, KeyOf(f.id))
          && f.pair.refresh.claims.iat * 1000 <= f.at <= s.now)
  }

  ghost predicate Valid(s: State) {
    && Mail.Valid(s.mail)
    && (forall id :: UserSound(s, id))
    && (forall key :: SessionSound(s, key))
    && (forall i :: 0 <= i < |s.issued| ==> PairSound(s, s.issued[i]))
    && (forall op :: op in s.pending ==> FlightSound(s, s.pending[op]))
  }

  // ---- How tables may move in one step ----------------------------------------------------------------------

  /** No step removes an account, clears its verification, or changes its role, origin or GitHub link. */
  predicate UserKept(s: State, t: State, id: string) {
    id in s.users ==>
      && id in t.users
      && t.users[id].role == s.users[id].role && t.users[id].seeded == s.users[id].seeded
      && t.users[id].githubId == s.users[id].githubId
      && (s.users[id].emailVerifiedAt.Some? ==> t.users[id].emailVerifiedAt.Some?)
  }

  /** No step removes a session or changes a revocation once made. */
  predicate SessionKept(s: State, t: State, key: SessionKey) {
    key in s.sessions ==>
      && key in t.sessions
      && (s.sessions[key].revokedAt.Some? ==> t.sessions[key].revokedAt == s.sessions[key].revokedAt)
  }

  lemma StepKeepsUser(s: State, e: Event, id: string)
    ensures UserKept(s, Step(s, e), id)
  {
  }

  lemma StepKeepsSession(s: State, e: Event, key: SessionKey)
    ensures SessionKept(s, Step(s, e), key)
    ensures s.now <= Step(s, e).now
  {
  }

  /** Only a landing refresh moves the expiry of a session that exists. */
  lemma StepKeepsExpiry(s: State, e: Event, key: SessionKey)
    requires key in s.sessions && !e.RefreshLand?
    ensures key in Step(s, e).sessions && Step(s, e).sessions[key].expiresAt == s.sessions[key].expiresAt
  {
  }

  // ---- Every step keeps the invariant -----------------------------------------------------------------------

  lemma KeptTablesKeepPairs(s: State, t: State, p: TokenPair)
    requires PairSound(s, p)
    requires UserKept(s, t, p.access.claims.sub) && SessionKept(s, t, (p.access.claims.sub, p.sit))
    ensures PairSound(t, p)
  {
  }

  /** `createSession` on a sound state for a verified account. */
  lemma CreateSessionIsSound(s: State, id: string, lags: Lags)
    requires id in s.users && s.users[id].emailVerifiedAt.Some?
    ensures var t := CreateSession(s, id, s.users[id].role, lags);
            && (forall key :: SessionSound(s, key) ==> SessionSound(t, key))
            && (|| t.issued == s.issued
                || (t.issued == s.issued + [t.issued[|s.issued|]] && PairSound(t, t.issued[|s.issued|])))
  {
  }

  lemma NewPairIsSound(s: State, e: Event)
    requires Valid(s)
    ensures var t := Step(s, e);
            || t.issued == s.issued
            || (&& |t.issued| == |s.issued| + 1 && t.issued[..|s.issued|] == s.issued
                && PairSound(t, t.issued[|s.issued|]))
  {
    match e
    case SignIn(id, _, _, lags) =>
      if id in s.users && s.users[id].emailVerifiedAt.Some? {
        CreateSessionIsSound(s, id, lags);
      }
    case GithubAuth(id, _, _, lags) =>
      var row := GithubRow(s, e);
      if row.Some? {
        CreateSessionIsSound(s.(users := s.users[id := row.value]), id, lags);
      }
    case RefreshLand(op) =>
      if op in s.pending {
        assert FlightSound(s, s.pending[op]);
      }
    case _ =>
  }

  lemma StepKeepsMail(s: State, e: Event)
    requires Mail.Valid(s.mail)
    ensures Mail.Valid(Step(s, e).mail)
  {
    match e
    case SignUp(id, _, _, raw) =>
      if Mail.Fresh(s.mail, raw) {
        Mail.IssueKeepsValid(s.mail, id, Mail.Verification, raw, s.now);
      }
    case ForgotPassword(id, raw) =>
      if Mail.Fresh(s.mail, raw) {
        Mail.IssueKeepsValid(s.mail, id, Mail.PassReset, raw, s.now);
      }
    case VerifyEmail(raw) =>
      var i := Mail.Check(s.mail, raw, Mail.Verification, s.now);
      if i.Ok? {
        Mail.RedeemKeepsValid(s.mail, i.value, s.now);
      }
    case ResetPassword(raw, _) =>
      var i := Mail.Check(s.mail, raw, Mail.PassReset, s.now);
      if i.Ok? {
        Mail.RedeemKeepsValid(s.mail, i.value, s.now);
      }
    case _ =>
  }

  /** Rows keep their owner, and the redemptions made so far stay. */
  predicate MailGrows(t: Mail.Table, u: Mail.Table) {
    && |t.rows| <= |u.rows| && t.redeemed <= u.redeemed
    && forall i :: 0 <= i < |t.rows| ==> u.rows[i].userId == t.rows[i].userId && u.rows[i].typ == t.rows[i].typ
  }

  lemma IssueGrowsMail(t: Mail.Table, userId: string, typ: Mail.TokenType, raw: string, now: nat)
    ensures MailGrows(t, Mail.Issue(t, userId, typ, raw, now))
  {
  }

  lemma RedeemGrowsMail(t: Mail.Table, i: nat, now: nat)
    requires i < |t.rows|
    ensures MailGrows(t, Mail.Redeem(t, i, now))
  {
  }

  lemma StepGrowsMail(s: State, e: Event)
    ensures MailGrows(s.mail, Step(s, e).mail)
  {
    match e
    case SignUp(id, _, _, raw) => IssueGrowsMail(s.mail, id, Mail.Verification, raw, s.now);
    case ForgotPassword(id, raw) => IssueGrowsMail(s.mail, id, Mail.PassReset, raw, s.now);
    case VerifyEmail(raw) =>
      var i := Mail.Check(s.mail, raw, Mail.Verification, s.now);
      if i.Ok? {
        RedeemGrowsMail(s.mail, i.value, s.now);
      }
    case ResetPassword(raw, _) =>
      var i := Mail.Check(s.mail, raw, Mail.PassReset, s.now);
      if i.Ok? {
        RedeemGrowsMail(s.mail, i.value, s.now);
      }
    case _ =>
  }

  lemma RedemptionsStay(t: Mail.Table, u: Mail.Table, id: string)
    requires MailGrows(t, u) && RedeemedVerification(t, id)
    ensures RedeemedVerification(u, id)
  {
    var k :| 0 <= k < |t.redeemed| && t.redeemed[k].index < |t.rows|
      && Mail.SameOwner(t.rows[t.redeemed[k].index], id, Mail.Verification);
    assert u.redeemed[k] == t.redeemed[k];
    assert Mail.SameOwner(u.rows[u.redeemed[k].index], id, Mail.Verification);
  }

  lemma RedeemingVerifies(t: Mail.Table, i: nat, now: nat)
    requires i < |t.rows| && t.rows[i].typ == Mail.Verification
    ensures RedeemedVerification(Mail.Redeem(t, i, now), t.rows[i].userId)
  {
    var u := Mail.Redeem(t, i, now);
    assert u.redeemed[|t.redeemed|].index == i && u.rows[i].userId == t.rows[i].userId;
  }

  lemma VerifyingKeepsUserSound(s: State, e: Event, id: string)
    requires UserSound(s, id) && e.VerifyEmail?
    requires RedeemedVerification(s.mail, id) ==> RedeemedVerification(Step(s, e).mail, id)
    ensures UserSound(Step(s, e), id)
  {
    var i := Mail.Check(s.mail, e.raw, Mail.Verification, s.now);
    if i.Ok? {
      RedeemingVerifies(s.mail, i.value, s.now);
    }
  }

  lemma OtherStepsKeepUserSound(s: State, e: Event, id: string)
    requires UserSound(s, id) && !e.VerifyEmail?
    requires RedeemedVerification(s.mail, id) ==> RedeemedVerification(Step(s, e).mail, id)
    ensures UserSound(Step(s, e), id)
  {
  }

  lemma StepKeepsUserSound(s: State, e: Event, id: string)
    requires UserSound(s, id)
    ensures UserSound(Step(s, e), id)
  {
    if RedeemedVerification(s.mail, id) {
      StepGrowsMail(s, e);
      RedemptionsStay(s.mail, Step(s, e).mail, id);
    }
    if e.VerifyEmail? {
      VerifyingKeepsUserSound(s, e, id);
    } else {
      OtherStepsKeepUserSound(s, e, id);
    }
  }

  lemma StepKeepsSessionSound(s: State, e: Event, key: SessionKey)
    requires Valid(s)
    ensures SessionSound(Step(s, e), key)
  {
    assert SessionSound(s, key);
    StepKeepsUser(s, e, key.0);
    if e.RefreshLand? && e.op in s.pending {
      assert FlightSound(s, s.pending[e.op]);
    }
  }

  /** A refresh past its read holds the identity of a token the service handed out. */
  lemma ReadAdmitsSoundIdentity(s: State, access: Option<Jwt>, refresh: Option<Jwt>)
    requires Valid(s) && Presentable(s, refresh) && VerifyRefreshPair(access, refresh, s.now).Ok?
    ensures IdentitySound(s, VerifyRefreshPair(access, refresh, s.now).value)
  {
    var i :| 0 <= i < |s.issued| && s.issued[i].refresh == refresh.value;
    assert PairSound(s, s.issued[i]);
  }

  /** Where a refresh under way can come from: it was there, it was just admitted, or it was just minted. */
  lemma PendingComesFrom(s: State, e: Event, op: nat)
    requires op in Step(s, e).pending
    ensures var f := Step(s, e).pending[op];
            || (op in s.pending && f == s.pending[op])
            || (e.RefreshRead? && f.Admitted? && Presentable(s, e.refresh)
                && VerifyRefreshPair(e.access, e.refresh, s.now) == Ok(f.id))
            || (e.RefreshMint? && op in s.pending && f.Minted? && f.id == s.pending[op].id
                && f.at == Step(s, e).now == After(s.now, e.lags)
                && f.pair == GeneratePair(f.id.userId, f.id.role, Some(f.id.sit), Clock(s.now, e.lags)))
  {
  }

  lemma MintedPairIsSound(s: State, id: Identity, lags: Lags)
    requires IdentitySound(s, id)
    ensures var p := GeneratePair(id.userId, id.role, Some(id.sit), Clock(s.now, lags));
            PairSound(s, p) && PairOf(p, KeyOf(id)) && p.refresh.claims.iat * 1000 <= After(s.now, lags)
  {
  }

  lemma KeptTablesKeepFlight(s: State, t: State, f: Flight)
    requires FlightSound(s, f) && s.now <= t.now
    requires UserKept(s, t, f.id.userId) && SessionKept(s, t, KeyOf(f.id))
    requires f.Minted? ==> UserKept(s, t, f.pair.access.claims.sub)
                           && SessionKept(s, t, (f.pair.access.claims.sub, f.pair.sit))
    ensures FlightSound(t, f)
  {
    if f.Minted? {
      KeptTablesKeepPairs(s, t, f.pair);
    }
  }

  lemma StepKeepsPending(s: State, e: Event, op: nat)
    requires Valid(s) && op in Step(s, e).pending
    ensures FlightSound(Step(s, e), Step(s, e).pending[op])
  {
    var t := Step(s, e);
    var f := t.pending[op];
    PendingComesFrom(s, e, op);
    StepKeepsUser(s, e, f.id.userId);
    StepKeepsSession(s, e, KeyOf(f.id));
    if op in s.pending && s.pending[op] == f {
      assert FlightSound(s, f);
      if f.Minted? {
        StepKeepsUser(s, e, f.pair.access.claims.sub);
        StepKeepsSession(s, e, (f.pair.access.claims.sub, f.pair.sit));
      }
      KeptTablesKeepFlight(s, t, f);
    } else if e.RefreshRead? {
      ReadAdmitsSoundIdentity(s, e.access, e.refresh);
    } else {
      assert FlightSound(s, s.pending[op]);
      MintedPairIsSound(s, f.id, e.lags);
      StepKeepsUser(s, e, f.pair.access.claims.sub);
      KeptTablesKeepPairs(s, t, f.pair);
    }
  }

  lemma StepKeepsPair(s: State, e: Event, i: nat)
    requires Valid(s) && i < |s.issued|
    ensures PairSound(Step(s, e), s.issued[i])
  {
    var p := s.issued[i];
    StepKeepsUser(s, e, p.access.claims.sub);
    StepKeepsSession(s, e, (p.access.claims.sub, p.sit));
    KeptTablesKeepPairs(s, Step(s, e), p);
  }

  lemma StepKeepsPairs(s: State, e: Event)
    requires Valid(s)
    ensures forall i :: 0 <= i < |Step(s, e).issued| ==> PairSound(Step(s, e), Step(s, e).issued[i])
  {
    var t := Step(s, e);
    NewPairIsSound(s, e);
    forall i | 0 <= i < |t.issued| ensures PairSound(t, t.issued[i]) {
      if i < |s.issued| {
        StepKeepsPair(s, e, i);
        assert t.issued[i] == t.issued[..|s.issued|][i];
      }
    }
  }

  lemma StepKeepsValid(s: State, e: Event)
    requires Valid(s)
    ensures Valid(Step(s, e))
  {
    var t := Step(s, e);
    StepKeepsMail(s, e);
    forall id ensures UserSound(t, id) {
      StepKeepsUserSound(s, e, id);
    }
    forall key ensures SessionSound(t, key) {
      StepKeepsSessionSound(s, e, key);
    }
    StepKeepsPairs(s, e);
    forall op | op in t.pending ensures FlightSound(t, t.pending[op]) {
      StepKeepsPending(s, e, op);
    }
  }

  lemma {:induction false} RunKeepsValid(s: State, es: seq<Event>)
    requires Valid(s)
    ensures Valid(Run(s, es))
    decreases |es|
  {
    if es != [] {
      StepKeepsValid(s, es[0]);
      RunKeepsValid(Step(s, es[0]), es[1..]);
    }
  }

  /** The main invariant, from any set of seeded accounts. */
  lemma EveryRunIsValid(seeds: map<string, UserRow>, es: seq<Event>)
    requires forall id :: id in seeds ==> seeds[id].seeded && ColonFree(id)
    ensures Valid(Run(Init(seeds), es))
  {
    RunKeepsValid(Init(seeds), es);
  }

  // ---- What the invariant means -----------------------------------------------------------------------------

  /**
   * In every run each mail token is redeemed at most once, before its expiry, and while no later token of its user
   * and type had been issued.
   */
  lemma MailTokensAreSpentOnce(seeds: map<string, UserRow>, es: seq<Event>, k: nat)
    requires forall id :: id in seeds ==> seeds[id].seeded && ColonFree(id)
    requires k < |Run(Init(seeds), es).mail.redeemed|
    ensures var m := Run(Init(seeds), es).mail;
            && Mail.Justified(m.rows, m.redeemed[k])
            && forall l :: 0 <= l < |m.redeemed| && m.redeemed[l].index < |m.rows| && l != k ==>
                 m.rows[m.redeemed[l].index].hash != m.rows[m.redeemed[k].index].hash
  {
    EveryRunIsValid(seeds, es);
    var m := Run(Init(seeds), es).mail;
    assert Mail.Justified(m.rows, m.redeemed[k]);
    forall l | 0 <= l < |m.redeemed| && m.redeemed[l].index < |m.rows| && l != k
      ensures m.rows[m.redeemed[l].index].hash != m.rows[m.redeemed[k].index].hash
    {
      assert m.redeemed[l].index != m.redeemed[k].index;
    }
  }

  /** Two tokens of one run with the same user and session carry the same role: the pair check is on three values. */
  lemma IssuedPairsMixIff(s: State, i: nat, j: nat)
    requires Valid(s) && i < |s.issued| && j < |s.issued|
    ensures var a, r := s.issued[i].access, s.issued[j].refresh;
            VerifyRefreshPair(Some(a), Some(r), s.now).Ok? <==>
              s.now / 1000 < r.claims.exp && a.claims.sub == r.claims.sub && s.issued[i].sit == s.issued[j].sit
  {
    var p, q := s.issued[i], s.issued[j];
    assert PairSound(s, p) && PairSound(s, q);
    assert UserSound(s, p.access.claims.sub) && UserSound(s, q.access.claims.sub);
    DigestIdentifiesSession(p.access.claims.sub, p.access.claims.role, p.sit,
                            q.refresh.claims.sub, q.refresh.claims.role, q.sit);
  }

  /** Over a whole run no account vanishes, loses its verification or changes role, and no revocation is undone. */
  lemma {:induction false} RunKeepsRows(s: State, es: seq<Event>, id: string, key: SessionKey)
    requires Valid(s)
    ensures UserKept(s, Run(s, es), id) && SessionKept(s, Run(s, es), key)
    decreases |es|
  {
    if es != [] {
      StepKeepsUser(s, es[0], id);
      StepKeepsSession(s, es[0], key);
      StepKeepsValid(s, es[0]);
      RunKeepsRows(Step(s, es[0]), es[1..], id, key);
    }
  }

  // ---- What survives a logout -------------------------------------------------------------------------------

  /** Pairs handed out for a session so far. */
  function Issued(issued: seq<TokenPair>, key: SessionKey): nat {
    if issued == [] then 0
    else
      var last := issued[|issued| - 1];
      Issued(issued[..|issued| - 1], key) + if (last.refresh.claims.sub, last.sit) == key then 1 else 0
  }

  /** Refreshes of a session that are past their row read. */
  function InFlight(pending: map<nat, Flight>, key: SessionKey): set<nat> {
    set op | op in pending && KeyOf(pending[op].id) == key
  }

  predicate Revoked(s: State, key: SessionKey) {
    key in s.sessions && s.sessions[key].revokedAt.Some?
  }

  lemma OneMoreIssued(issued: seq<TokenPair>, p: TokenPair, key: SessionKey)
    ensures Issued(issued + [p], key)
         == Issued(issued, key) + if (p.refresh.claims.sub, p.sit) == key then 1 else 0
  {
    assert (issued + [p])[..|issued|] == issued;
  }

  lemma LandingLeavesFlight(pending: map<nat, Flight>, op: nat, key: SessionKey)
    requires op in pending
    ensures |InFlight(pending - {op}, key)|
         == |InFlight(pending, key)| - if KeyOf(pending[op].id) == key then 1 else 0
  {
    var before, after := InFlight(pending, key), InFlight(pending - {op}, key);
    if KeyOf(pending[op].id) == key {
      assert before == after + {op};
    } else {
      assert before == after;
    }
  }

  /** Apart from a landing refresh, a pair is only ever issued for a session that did not exist. */
  lemma OtherPairsAreForNewSessions(s: State, e: Event)
    requires !e.RefreshLand?
    ensures var t := Step(s, e);
            || t.issued == s.issued
            || (|t.issued| == |s.issued| + 1 && t.issued == s.issued + [t.issued[|s.issued|]]
                && var p := t.issued[|s.issued|]; (p.refresh.claims.sub, p.sit) !in s.sessions)
  {
  }

  lemma RevokedAdmitsNoRead(s: State, e: Event, key: SessionKey)
    requires Revoked(s, key) && !e.RefreshLand?
    ensures InFlight(Step(s, e).pending, key) == InFlight(s.pending, key)
  {
  }

  /** No step after a revocation admits a new refresh of the session, and a landing one uses up its place. */
  lemma RevokedStepUsesUpFlight(s: State, e: Event, key: SessionKey)
    requires Valid(s) && Revoked(s, key)
    ensures var t := Step(s, e);
            Issued(t.issued, key) + |InFlight(t.pending, key)| <= Issued(s.issued, key) + |InFlight(s.pending, key)|
  {
    var t := Step(s, e);
    if e.RefreshLand? {
      if e.op in s.pending && s.pending[e.op].Minted? {
        assert FlightSound(s, s.pending[e.op]);
        LandingLeavesFlight(s.pending, e.op, key);
        OneMoreIssued(s.issued, t.issued[|s.issued|], key);
      }
    } else {
      RevokedAdmitsNoRead(s, e, key);
      OtherPairsAreForNewSessions(s, e);
      if t.issued != s.issued {
        OneMoreIssued(s.issued, t.issued[|s.issued|], key);
      }
    }
  }

  /**
   * After a logout, however refreshes interleave, the session stays revoked and the pairs still handed out for it
   * number at most the refreshes that had already read the row.
   */
  lemma {:induction false} LogoutBoundsLaterPairs(s: State, es: seq<Event>, key: SessionKey)
    requires Valid(s) && Revoked(s, key)
    ensures var t := Run(s, es);
            && Revoked(t, key) && t.sessions[key].revokedAt == s.sessions[key].revokedAt
            && Issued(t.issued, key) - Issued(s.issued, key) <= |InFlight(s.pending, key)| - |InFlight(t.pending, key)|
    decreases |es|
  {
    if es != [] {
      StepKeepsSession(s, es[0], key);
      RevokedStepUsesUpFlight(s, es[0], key);
      StepKeepsValid(s, es[0]);
      LogoutBoundsLaterPairs(Step(s, es[0]), es[1..], key);
    }
  }

  /** A refresh that reads its row after the revocation is refused. */
  lemma RefreshAfterLogoutFails(s: State, op: nat, access: Option<Jwt>, refresh: Option<Jwt>)
    requires VerifyRefreshPair(access, refresh, s.now).Ok?
    requires var id := VerifyRefreshPair(access, refresh, s.now).value; Revoked(s, (id.userId, id.sit))
    ensures Step(s, RefreshRead(op, access, refresh)) == s
  {
  }

  /** Logging out with any refresh token of the session, expired or not, revokes it. */
  lemma LogoutRevokes(s: State, i: nat)
    requires Valid(s) && i < |s.issued|
    ensures Revoked(Step(s, Logout(Some(s.issued[i].refresh))), (s.issued[i].refresh.claims.sub, s.issued[i].sit))
  {
    assert PairSound(s, s.issued[i]);
  }

  /** A new session is active, and its pair can be refreshed until the refresh token's `exp` second begins. */
  lemma NewSessionCanBeRefreshed(s: State, id: string, lags: Lags, later: nat)
    requires Valid(s) && id in s.users && s.users[id].emailVerifiedAt.Some? && (id, s.now / 1000) !in s.sessions
    ensures var t := CreateSession(s, id, s.users[id].role, lags);
            && |t.issued| == |s.issued| + 1
            && var p, name := t.issued[|s.issued|], RoleName(s.users[id].role);
               && Active(t, (id, p.sit))
               && (later / 1000 < (s.now + lags.access + lags.refresh) / 1000 + REFRESH_LIFETIME_S <==>
                     VerifyRefreshPair(Some(p.access), Some(p.refresh), later) == Ok(Identity(id, name, p.sit)))
  {
  }

  // ---- The expiry of a session and the tokens it outlives ----------------------------------------------------

  /** The row expires no earlier than the pair's refresh token. */
  predicate Fits(s: State, p: TokenPair) {
    (p.refresh.claims.sub, p.sit) in s.sessions
    && p.refresh.claims.exp * 1000 <= s.sessions[(p.refresh.claims.sub, p.sit)].expiresAt
  }

  predicate AllFit(s: State) {
    forall i :: 0 <= i < |s.issued| ==> Fits(s, s.issued[i])
  }

  /** A row outlasts a token exactly when the token verifies at no moment from the row's expiry on. */
  lemma FitsIffNeverOutlived(s: State, i: nat)
    requires Valid(s) && i < |s.issued|
    ensures var p := s.issued[i];
            && (p.refresh.claims.sub, p.sit) in s.sessions
            && (Fits(s, p) <==>
                  forall later: nat :: s.sessions[(p.refresh.claims.sub, p.sit)].expiresAt <= later
                    ==> Verify(Some(p.refresh), RefreshSecret, false, later).None?)
  {
    var p := s.issued[i];
    assert PairSound(s, p);
    var expiry := s.sessions[(p.refresh.claims.sub, p.sit)].expiresAt;
    assert Fits(s, p) <==> Verify(Some(p.refresh), RefreshSecret, false, expiry).None?;
  }

  /** The update about to land was computed before a pair of its session that is already out was signed. */
  predicate Overtaken(s: State, e: Event) {
    && e.RefreshLand? && e.op in s.pending && s.pending[e.op].Minted?
    && exists i :: 0 <= i < |s.issued| && PairOf(s.issued[i], KeyOf(s.pending[e.op].id))
                   && s.issued[i].refresh.claims.iat * 1000 > s.pending[e.op].at
  }

  lemma ExpiryFitsRow(iat: nat, at: nat)
    ensures (iat + REFRESH_LIFETIME_S) * 1000 <= at + SESSION_TTL_MS <==> iat * 1000 <= at
  {
  }

  /** A token of that lifetime signed in second `iat` lies within a row whose expiry was computed at `at`. */
  predicate LiesWithin(lifetime: nat, iat: nat, at: nat) {
    (iat + lifetime) * 1000 <= at + SESSION_TTL_MS
  }

  /**
   * The lifetime of refresh tokens is configured and the session's is not. A lifetime keeps every token within a row
   * written once it was signed exactly when it is at most the session's seven days.
   */
  lemma LifetimeFitsIff(lifetime: nat)
    ensures (forall iat: nat, at: nat :: iat * 1000 <= at ==> LiesWithin(lifetime, iat, at))
       <==> lifetime <= REFRESH_LIFETIME_S
  {
    if lifetime > REFRESH_LIFETIME_S {
      assert !LiesWithin(lifetime, 0, 0);
    }
  }

  lemma CreateSessionFits(s: State, id: string, role: Role, lags: Lags)
    ensures var t := CreateSession(s, id, role, lags);
            && (forall p: TokenPair :: Fits(s, p) ==> Fits(t, p))
            && (t.issued == s.issued || (|t.issued| == |s.issued| + 1 && t.issued[..|s.issued|] == s.issued
                                         && Fits(t, t.issued[|s.issued|])))
  {
    ExpiryFitsRow(Clock(s.now, lags).refreshSigned / 1000, After(s.now, lags));
  }

  lemma OldPairsStayFit(s: State, e: Event, p: TokenPair)
    requires Fits(s, p) && !e.RefreshLand?
    ensures Fits(Step(s, e), p)
  {
    StepKeepsExpiry(s, e, (p.refresh.claims.sub, p.sit));
  }

  lemma NewPairFits(s: State, e: Event)
    requires !e.RefreshLand?
    ensures var t := Step(s, e);
            t.issued == s.issued || (|t.issued| == |s.issued| + 1 && t.issued[..|s.issued|] == s.issued
                                     && Fits(t, t.issued[|s.issued|]))
  {
    match e
    case SignIn(id, _, _, lags) =>
      if id in s.users {
        CreateSessionFits(s, id, s.users[id].role, lags);
      }
    case GithubAuth(id, _, _, lags) =>
      var row := GithubRow(s, e);
      if row.Some? {
        CreateSessionFits(s.(users := s.users[id := row.value]), id, row.value.role, lags);
      }
    case _ =>
  }

  lemma OtherStepsKeepFit(s: State, e: Event)
    requires AllFit(s) && !e.RefreshLand?
    ensures AllFit(Step(s, e))
  {
    var t := Step(s, e);
    NewPairFits(s, e);
    forall i | 0 <= i < |t.issued| ensures Fits(t, t.issued[i]) {
      if i < |s.issued| {
        OldPairsStayFit(s, e, s.issued[i]);
        assert t.issued[i] == t.issued[..|s.issued|][i];
      }
    }
  }

  /** A landing update leaves every row outlasting its tokens exactly when it was not overtaken. */
  lemma LateUpdateIsSafeIff(s: State, op: nat)
    requires Valid(s) && AllFit(s) && op in s.pending && s.pending[op].Minted?
    ensures AllFit(Step(s, RefreshLand(op))) <==> !Overtaken(s, RefreshLand(op))
  {
    var f, t := s.pending[op], Step(s, RefreshLand(op));
    var key := KeyOf(f.id);
    assert FlightSound(s, f);
    forall i | 0 <= i < |s.issued|
      ensures t.issued[i] == s.issued[i]
      ensures Fits(t, s.issued[i]) <==> !(PairOf(s.issued[i], key) && s.issued[i].refresh.claims.iat * 1000 > f.at)
    {
      assert PairSound(s, s.issued[i]) && Fits(s, s.issued[i]);
      ExpiryFitsRow(s.issued[i].refresh.claims.iat, f.at);
    }
    assert t.issued[|s.issued|] == f.pair && Fits(t, f.pair) by {
      ExpiryFitsRow(f.pair.refresh.claims.iat, f.at);
    }
    if i :| 0 <= i < |s.issued| && PairOf(s.issued[i], key) && s.issued[i].refresh.claims.iat * 1000 > f.at {
      assert !Fits(t, t.issued[i]);
    }
  }

  lemma StepFitsIff(s: State, e: Event)
    requires Valid(s) && AllFit(s)
    ensures AllFit(Step(s, e)) <==> !Overtaken(s, e)
  {
    if e.RefreshLand? {
      if e.op in s.pending && s.pending[e.op].Minted? {
        LateUpdateIsSafeIff(s, e.op);
      }
    } else {
      OtherStepsKeepFit(s, e);
    }
  }

  predicate NothingOvertaken(s: State, es: seq<Event>)
    decreases |es|
  {
    es == [] || (!Overtaken(s, es[0]) && NothingOvertaken(Step(s, es[0]), es[1..]))
  }

  predicate FitsAllAlong(s: State, es: seq<Event>)
    decreases |es|
  {
    AllFit(s) && (es == [] || FitsAllAlong(Step(s, es[0]), es[1..]))
  }

  /** Along a run every session outlasts its tokens at every moment exactly when no landing update is overtaken. */
  lemma {:induction false} RowsOutlastTokensIff(s: State, es: seq<Event>)
    requires Valid(s) && AllFit(s)
    ensures FitsAllAlong(s, es) <==> NothingOvertaken(s, es)
    ensures NothingOvertaken(s, es) ==> AllFit(Run(s, es))
    decreases |es|
  {
    if es != [] {
      StepKeepsValid(s, es[0]);
      StepFitsIff(s, es[0]);
      if AllFit(Step(s, es[0])) {
        RowsOutlastTokensIff(Step(s, es[0]), es[1..]);
      } else {
        assert !FitsAllAlong(Step(s, es[0]), es[1..]);
      }
    }
  }

  /**
   * `refresh` never reads the row's expiry. In a run in which no landing update is overtaken it need not: a refresh
   * token that still verifies belongs to a session that expires strictly later than now, so unless revoked it is one
   * of the sessions the account is shown.
   */
  lemma RefreshableSessionIsListed(seeds: map<string, UserRow>, es: seq<Event>,
                                   access: Option<Jwt>, refresh: Option<Jwt>)
    requires forall id :: id in seeds ==> seeds[id].seeded && ColonFree(id)
    requires NothingOvertaken(Init(seeds), es)
    requires var s := Run(Init(seeds), es); Presentable(s, refresh) && VerifyRefreshPair(access, refresh, s.now).Ok?
    ensures var s := Run(Init(seeds), es);
            var id := VerifyRefreshPair(access, refresh, s.now).value;
            var key := KeyOf(id);
            && key in s.sessions && s.sessions[key].expiresAt > s.now
            && (s.sessions[key].revokedAt.None? <==> Active(s, key))
            && id.userId in s.users && s.users[id.userId].emailVerifiedAt.Some?
            && id.role == RoleName(s.users[id.userId].role)
  {
    EveryRunIsValid(seeds, es);
    RowsOutlastTokensIff(Init(seeds), es);
    VerifyingTokenIsListed(Run(Init(seeds), es), access, refresh);
  }

  lemma VerifyingTokenIsListed(s: State, access: Option<Jwt>, refresh: Option<Jwt>)
    requires Valid(s) && AllFit(s) && Presentable(s, refresh) && VerifyRefreshPair(access, refresh, s.now).Ok?
    ensures var id := VerifyRefreshPair(access, refresh, s.now).value;
            var key := KeyOf(id);
            && key in s.sessions && s.sessions[key].expiresAt > s.now
            && (s.sessions[key].revokedAt.None? <==> Active(s, key))
            && id.userId in s.users && s.users[id.userId].emailVerifiedAt.Some?
            && id.role == RoleName(s.users[id.userId].role)
  {
    var i :| 0 <= i < |s.issued| && s.issued[i].refresh == refresh.value;
    assert PairSound(s, s.issued[i]) && Fits(s, s.issued[i]);
    var c := refresh.value.claims;
    assert s.now < c.exp * 1000;
    assert SessionSound(s, (c.sub, c.sit));
  }

  // An overtaken update: two refreshes of one session, minted a second apart, land in the other order.

  predicate AtOnce(lags: Lags) {
    lags.access == 0 && lags.refresh == 0 && lags.row == 0
  }

  function MintAt(id: Identity, now: nat): TokenPair {
    GeneratePair(id.userId, id.role, Some(id.sit), MintClock(now, now, now))
  }

  /** A handed-out refresh token that verifies beside `access` for the identity `id`, whose session is not revoked. */
  predicate Admits(s: State, access: Jwt, refresh: Jwt, id: Identity) {
    && Presentable(s, Some(refresh)) && VerifyRefreshPair(Some(access), Some(refresh), s.now) == Ok(id)
    && KeyOf(id) in s.sessions && s.sessions[KeyOf(id)].revokedAt.None?
  }

  lemma ReadAdmits(s: State, op: nat, access: Jwt, refresh: Jwt, id: Identity)
    requires Admits(s, access, refresh, id) && op !in s.pending
    ensures Step(s, RefreshRead(op, Some(access), Some(refresh))) == s.(pending := s.pending[op := Admitted(id)])
  {
  }

  lemma MintAtOnce(s: State, op: nat, id: Identity, lags: Lags)
    requires op in s.pending && s.pending[op] == Admitted(id) && AtOnce(lags)
    ensures Step(s, RefreshMint(op, lags)) == s.(pending := s.pending[op := Minted(id, MintAt(id, s.now), s.now)])
  {
    assert Clock(s.now, lags) == MintClock(s.now, s.now, s.now) && After(s.now, lags) == s.now;
    assert Step(s, RefreshMint(op, lags)) == StepRefreshMint(s, RefreshMint(op, lags));
  }

  lemma LandWrites(s: State, op: nat, id: Identity, pair: TokenPair, at: nat)
    requires op in s.pending && s.pending[op] == Minted(id, pair, at) && KeyOf(id) in s.sessions
    ensures Step(s, RefreshLand(op))
         == s.(pending := s.pending - {op}, issued := s.issued + [pair],
               sessions := s.sessions[KeyOf(id) := s.sessions[KeyOf(id)].(expiresAt := at + SESSION_TTL_MS)])
  {
  }

  /** Both refreshes read, then one mints now and the other a second later. */
  function BothMint(s: State, access: Jwt, refresh: Jwt, a: nat, b: nat, lags: Lags): State {
    var read := Step(Step(s, RefreshRead(a, Some(access), Some(refresh))), RefreshRead(b, Some(access), Some(refresh)));
    Step(Step(Step(read, RefreshMint(a, lags)), Tick(1000)), RefreshMint(b, lags))
  }

  lemma BothMintASecondApart(s: State, access: Jwt, refresh: Jwt, id: Identity, a: nat, b: nat, lags: Lags)
    requires Admits(s, access, refresh, id) && AtOnce(lags) && a != b && a !in s.pending && b !in s.pending
    ensures var older := Minted(id, MintAt(id, s.now), s.now);
            var newer := Minted(id, MintAt(id, s.now + 1000), s.now + 1000);
            BothMint(s, access, refresh, a, b, lags) ==
              s.(now := s.now + 1000, pending := s.pending[a := older][b := newer])
  {
    ReadAdmits(s, a, access, refresh, id);
    var s1 := s.(pending := s.pending[a := Admitted(id)]);
    ReadAdmits(s1, b, access, refresh, id);
    BothAdmittedMint(s1.(pending := s1.pending[b := Admitted(id)]), id, a, b, lags);
    var older, newer := Minted(id, MintAt(id, s.now), s.now), Minted(id, MintAt(id, s.now + 1000), s.now + 1000);
    assert s.pending[a := Admitted(id)][b := Admitted(id)][a := older][b := newer] == s.pending[a := older][b := newer];
  }

  lemma BothAdmittedMint(s: State, id: Identity, a: nat, b: nat, lags: Lags)
    requires AtOnce(lags) && a != b && a in s.pending && b in s.pending
    requires s.pending[a] == Admitted(id) && s.pending[b] == Admitted(id)
    ensures var older := Minted(id, MintAt(id, s.now), s.now);
            var newer := Minted(id, MintAt(id, s.now + 1000), s.now + 1000);
            Step(Step(Step(s, RefreshMint(a, lags)), Tick(1000)), RefreshMint(b, lags)) ==
              s.(now := s.now + 1000, pending := s.pending[a := older][b := newer])
  {
    MintAtOnce(s, a, id, lags);
    var next := s.(pending := s.pending[a := Minted(id, MintAt(id, s.now), s.now)], now := s.now + 1000);
    MintAtOnce(next, b, id, lags);
  }

  /** The newer update lands before the older one, and then all of the week but the second between them passes. */
  function LandNewerFirst(s: State, a: nat, b: nat): State {
    Step(Step(Step(s, RefreshLand(b)), RefreshLand(a)), Tick(SESSION_TTL_MS - 1000))
  }

  lemma NewerLandsFirst(s: State, id: Identity, a: nat, b: nat, older: TokenPair, newer: TokenPair, at: nat)
    requires a != b && a in s.pending && b in s.pending && KeyOf(id) in s.sessions && s.now == at + 1000
    requires s.pending[a] == Minted(id, older, at) && s.pending[b] == Minted(id, newer, at + 1000)
    ensures var t := LandNewerFirst(s, a, b);
            && t.now == at + SESSION_TTL_MS && t.issued == s.issued + [newer] + [older]
            && KeyOf(id) in t.sessions && t.sessions[KeyOf(id)].expiresAt == at + SESSION_TTL_MS
            && t.sessions[KeyOf(id)].revokedAt == s.sessions[KeyOf(id)].revokedAt
            && t.pending == s.pending - {b} - {a}
  {
    LandWrites(s, b, id, newer, at + 1000);
    LandWrites(Step(s, RefreshLand(b)), a, id, older, at);
  }

  lemma SecondsOf(now: nat)
    ensures (now + SESSION_TTL_MS) / 1000 < (now + 1000) / 1000 + REFRESH_LIFETIME_S
  {
  }

  /**
   * From every state with a live session: when two of its refreshes, minted a second apart, land in the other order,
   * then a week after the first was minted the newer token still verifies and is let in, while its session is no
   * longer listed.
   */
  lemma OvertakenUpdateHidesASession(s: State, access: Jwt, refresh: Jwt, id: Identity, a: nat, b: nat, lags: Lags)
    requires Admits(s, access, refresh, id) && AtOnce(lags) && a != b && a !in s.pending && b !in s.pending
    ensures var t, newer := LandNewerFirst(BothMint(s, access, refresh, a, b, lags), a, b), MintAt(id, s.now + 1000);
            && KeyOf(id) in t.sessions && t.sessions[KeyOf(id)].revokedAt.None? && !Active(t, KeyOf(id))
            && a in Step(t, RefreshRead(a, Some(newer.access), Some(newer.refresh))).pending
  {
    BothMintASecondApart(s, access, refresh, id, a, b, lags);
    var minted := BothMint(s, access, refresh, a, b, lags);
    var newer := MintAt(id, s.now + 1000);
    NewerLandsFirst(minted, id, a, b, MintAt(id, s.now), newer, s.now);
    var t := LandNewerFirst(minted, a, b);
    assert t.issued[|s.issued|].refresh == newer.refresh;
    SecondsOf(s.now);
    ReadAdmits(t, a, newer.access, newer.refresh, id);
  }

  // ---- Signing in twice -------------------------------------------------------------------------------------

  /** The right password of a verified account signs in exactly when the account has no session of this second. */
  lemma SignInHandsOutPairIff(s: State, e: Event)
    requires e.SignIn? && e.id in s.users && s.users[e.id].email == Some(e.email) && e.passwordMatch
    requires s.users[e.id].passwordHash.Some? && s.users[e.id].emailVerifiedAt.Some?
    ensures |Step(s, e).issued| == |s.issued| + (if (e.id, s.now / 1000) in s.sessions then 0 else 1)
  {
  }

  /** So of two sign-ins within a second the second gets nothing, and the first one's session stays. */
  lemma SecondSignInOfASecondFails(s: State, e: Event, ms: nat)
    requires e.SignIn? && e.id in s.users && s.users[e.id].email == Some(e.email) && e.passwordMatch
    requires s.users[e.id].passwordHash.Some? && s.users[e.id].emailVerifiedAt.Some?
    requires (e.id, s.now / 1000) !in s.sessions
    ensures var first := Step(Step(s, e), Tick(ms));
            && |first.issued| == |s.issued| + 1
            && (first.now / 1000 == s.now / 1000 ==> Step(first, e).issued == first.issued
                                                      && Step(first, e).sessions == first.sessions)
  {
    SignInHandsOutPairIff(s, e);
    SignInHandsOutPairIff(Step(Step(s, e), Tick(ms)), e);
  }
}
