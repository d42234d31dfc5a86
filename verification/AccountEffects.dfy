/**
 * What each call of the identity services does when its conditions hold, and that it does nothing otherwise, with what
 * the calls amount to one after the other.
 */
module AccountEffects {
  import opened Basics
  import opened Tokens
  import opened Accounts
  import opened AccountSafety
  import Decimal
  import Mail = MailTokens

  // ---- Tokens, minted or not --------------------------------------------------------------------------------

  /** The claims of a new pair: whole-second clocks, fifteen minutes and seven days, each token with its own secret. */
  lemma PairClaims(u: string, r: string, e: Option<nat>, clock: MintClock)
    ensures var p := GeneratePair(u, r, e, clock);
            var sit := if e.Some? then e.value else clock.started / 1000;
            var dig := Hmac(u + ":" + r + ":" + Decimal.Render(sit));
            && p.sit == sit
            && p.access.signedWith == AccessSecret && p.refresh.signedWith == RefreshSecret
            && p.access.claims == Claims(u, r, dig, sit, Access, clock.accessSigned / 1000,
                                         clock.accessSigned / 1000 + 900)
            && p.refresh.claims == Claims(u, r, dig, sit, Refresh, clock.refreshSigned / 1000,
                                          clock.refreshSigned / 1000 + 604800)
  {
  }

  /** Any token at all opens a protected route exactly when it is an access token, signed, alive and with its digest. */
  lemma VerifyAccessIff(token: Jwt, now: nat)
    ensures var c := token.claims;
            VerifyAccess(Some(token), now) == Ok(c) <==>
              && token.signedWith == AccessSecret && c.typ == Access && now / 1000 < c.exp
              && c.dig == Hmac(c.sub + ":" + c.role + ":" + Decimal.Render(c.sit))
    ensures VerifyAccess(Some(token), now).Ok? ==> VerifyAccess(Some(token), now) == Ok(token.claims)
    ensures VerifyAccess(None, now).Err?
  {
  }

  /**
   * Any two tokens are let through to a refresh exactly when the refresh token is signed, alive and with its digest and
   * the access token, whose signature and age do not count, carries that digest too.
   */
  lemma VerifyRefreshPairIff(access: Jwt, refresh: Jwt, now: nat)
    ensures var a, c := access.claims, refresh.claims;
            VerifyRefreshPair(Some(access), Some(refresh), now).Ok? <==>
              && a.typ == Access && c.typ == Refresh && refresh.signedWith == RefreshSecret && now / 1000 < c.exp
              && c.dig == Hmac(c.sub + ":" + c.role + ":" + Decimal.Render(c.sit)) && a.dig == c.dig
    ensures VerifyRefreshPair(Some(access), Some(refresh), now).Ok? ==>
              VerifyRefreshPair(Some(access), Some(refresh), now).value
                == Identity(refresh.claims.sub, refresh.claims.role, refresh.claims.sit)
    ensures VerifyRefreshPair(None, Some(refresh), now).Err? && VerifyRefreshPair(Some(access), None, now).Err?
  {
  }

  /** Why tokens are refused: signature and age first, then the type, then the digest. */
  lemma TokenRefusals(access: Jwt, refresh: Jwt, now: nat)
    ensures var a, c := access.claims, refresh.claims;
            var mine := Hmac(c.sub + ":" + c.role + ":" + Decimal.Render(c.sit));
            var answer := VerifyRefreshPair(Some(access), Some(refresh), now);
            && (answer == Err(InvalidAccess) <==> a.typ != Access)
            && (answer == Err(InvalidRefresh) <==>
                  a.typ == Access && (refresh.signedWith != RefreshSecret || now / 1000 >= c.exp))
            && (answer == Err(WrongType) <==>
                  a.typ == Access && refresh.signedWith == RefreshSecret && now / 1000 < c.exp && c.typ != Refresh)
            && (answer == Err(PairMismatch) <==>
                  a.typ == Access && refresh.signedWith == RefreshSecret && now / 1000 < c.exp && c.typ == Refresh
                  && (c.dig != mine || c.dig != a.dig))
    ensures var a, answer := access.claims, VerifyAccess(Some(access), now);
            && (answer == Err(InvalidAccess) <==> access.signedWith != AccessSecret || now / 1000 >= a.exp)
            && (answer == Err(WrongType) ==> a.typ != Access) && (answer == Err(DigestMismatch) ==> a.typ == Access)
  {
  }

  /** A mail token's answer: unknown, used, expired, or its row. */
  lemma MailAnswers(t: Mail.Table, raw: string, typ: Mail.TokenType, i: nat, now: nat)
    requires Mail.Valid(t)
    ensures i < |t.rows| && t.rows[i].hash == Mail.Sha256(raw) && t.rows[i].typ == typ ==>
              Mail.Check(t, raw, typ, now) ==
                if t.rows[i].usedAt.Some? then Err(Mail.AlreadyUsed)
                else if now > t.rows[i].expiresAt then Err(Mail.Expired) else Ok(i)
    ensures (forall j :: 0 <= j < |t.rows| ==> t.rows[j].hash != Mail.Sha256(raw) || t.rows[j].typ != typ) ==>
              Mail.Check(t, raw, typ, now) == Err(Mail.Unknown)
  {
    if i < |t.rows| {
      Mail.FindIsTheRow(t, i);
    }
  }

  /** Logout reads any refresh token with the service's signature, however old, and nothing else. */
  lemma DecodeRefreshIff(token: Jwt, now: nat)
    ensures DecodeRefresh(Some(token), now) == Ok((token.claims.sub, token.claims.sit)) <==>
              token.signedWith == RefreshSecret && token.claims.typ == Refresh
    ensures DecodeRefresh(Some(token), now).Ok? ==> DecodeRefresh(Some(token), now).value.0 == token.claims.sub
    ensures DecodeRefresh(None, now).Err?
  {
  }

  /** A pair is refreshed to one for its own user, role and session exactly until its refresh token's week is over. */
  lemma RefreshGoesOnIff(u: string, r: string, e: Option<nat>, clock: MintClock, now: nat, next: MintClock)
    ensures var p := GeneratePair(u, r, e, clock);
            RefreshedFrom(p, Link(Some(p.access), now, next), GeneratePair(u, r, Some(p.sit), next)) <==>
              now / 1000 < clock.refreshSigned / 1000 + 604800
  {
  }

  // ---- Runs -------------------------------------------------------------------------------------------------

  /** A run takes its steps one after the other, to the last. */
  lemma {:induction false} RunTakesItsSteps(s: State, es: seq<Event>, e: Event)
    ensures Run(s, []) == s && Run(s, es + [e]) == Step(Run(s, es), e)
    decreases |es|
  {
    if es == [] {
      assert [e][1..] == [];
    } else {
      assert (es + [e])[1..] == es[1..] + [e];
      RunTakesItsSteps(Step(s, es[0]), es[1..], e);
    }
  }

  // ---- Signing up and the mails -----------------------------------------------------------------------------

  /** A sign-up with a free address adds an unverified user and mails a token; any other changes nothing. */
  lemma SignUpEffect(s: State, id: string, email: string, hash: string, raw: string)
    requires id !in s.users && ':' !in id && Mail.Fresh(s.mail, raw)
    ensures Step(s, SignUp(id, email, hash, raw)) ==
              if (exists u :: u in s.users && s.users[u].email == Some(email)) || IsStaffAddress(email) then s
              else s.(users := s.users[id := UserRow(User, Some(email), None, Some(hash), None, false)],
                      mail := Mail.Issue(s.mail, id, Mail.Verification, raw, s.now))
  {
    EndsWithIff(email);
  }

  ghost predicate IsStaffAddress(email: string) {
    exists name: string :: email == name + "@codeatlasadmin.com"
  }

  lemma EndsWithIff(email: string)
    ensures EndsWith(email, ADMIN_SUFFIX) <==> IsStaffAddress(email)
  {
    if EndsWith(email, ADMIN_SUFFIX) {
      assert email == email[..|email| - |ADMIN_SUFFIX|] + "@codeatlasadmin.com";
    }
  }

  lemma ForgotPasswordEffect(s: State, id: string, raw: string)
    requires Mail.Fresh(s.mail, raw)
    ensures Step(s, ForgotPassword(id, raw)) ==
              if id in s.users && s.users[id].email.Some?
              then s.(mail := Mail.Issue(s.mail, id, Mail.PassReset, raw, s.now))
              else s
  {
  }

  /** Redeeming a live reset token changes its owner's password and spends it, and nothing else. */
  lemma ResetChangesThePassword(s: State, i: nat, hash: string)
    requires Valid(s) && i < |s.mail.rows| && s.mail.rows[i].userId in s.users
    requires s.mail.rows[i].typ == Mail.PassReset && s.mail.rows[i].usedAt.None? && s.now <= s.mail.rows[i].expiresAt
    ensures var id := s.mail.rows[i].userId;
            Step(s, ResetPassword(s.mail.rows[i].hash.raw, hash)) ==
              s.(users := s.users[id := s.users[id].(passwordHash := Some(hash))],
                 mail := Mail.Table(s.mail.rows[i := s.mail.rows[i].(usedAt := Some(s.now))],
                                    s.mail.redeemed + [Mail.Redemption(i, s.now, |s.mail.rows|)]))
  {
    Mail.FindIsTheRow(s.mail, i);
  }

  /** Redeeming a live verification token verifies its owner and spends it, and nothing else. */
  lemma VerifyingMarksTheAccount(s: State, i: nat)
    requires Valid(s) && i < |s.mail.rows| && s.mail.rows[i].userId in s.users
    requires s.mail.rows[i].typ == Mail.Verification && s.mail.rows[i].usedAt.None? && s.now <= s.mail.rows[i].expiresAt
    ensures var id := s.mail.rows[i].userId;
            Step(s, VerifyEmail(s.mail.rows[i].hash.raw)) ==
              s.(users := s.users[id := s.users[id].(emailVerifiedAt := Some(s.now))],
                 mail := Mail.Table(s.mail.rows[i := s.mail.rows[i].(usedAt := Some(s.now))],
                                    s.mail.redeemed + [Mail.Redemption(i, s.now, |s.mail.rows|)]))
  {
    Mail.FindIsTheRow(s.mail, i);
  }

  /** A mail token that is not redeemable, or of the other type, changes nothing. */
  lemma BadMailTokensDoNothing(s: State, raw: string, hash: string)
    requires Valid(s)
    ensures !Mail.Redeemable(s.mail, raw, Mail.PassReset, s.now) ==> Step(s, ResetPassword(raw, hash)) == s
    ensures !Mail.Redeemable(s.mail, raw, Mail.Verification, s.now) ==> Step(s, VerifyEmail(raw)) == s
  {
    Mail.RedeemableIff(s.mail, raw, Mail.PassReset, s.now);
    Mail.RedeemableIff(s.mail, raw, Mail.Verification, s.now);
  }

  /** A forgotten password can be replaced with the mailed token for an hour, and by then only. */
  lemma ForgottenPasswordIsReplaced(s: State, id: string, raw: string, hash: string, ms: nat)
    requires Valid(s) && Mail.Fresh(s.mail, raw) && id in s.users && s.users[id].email.Some?
    ensures var later := Step(Step(s, ForgotPassword(id, raw)), Tick(ms));
            var t := Step(later, ResetPassword(raw, hash));
            t.users == if ms <= 3600000 then s.users[id := s.users[id].(passwordHash := Some(hash))] else s.users
  {
    var mailed := Step(s, ForgotPassword(id, raw));
    StepKeepsValid(s, ForgotPassword(id, raw));
    StepKeepsValid(mailed, Tick(ms));
    var later := Step(mailed, Tick(ms));
    var i := |s.mail.rows|;
    Mail.FindIsTheRow(later.mail, i);
    if ms <= 3600000 {
      ResetChangesThePassword(later, i, hash);
    }
  }

  /** A new account cannot sign in until its mail token is redeemed, and then it can. */
  lemma NewAccountSignsInOnceVerified(s: State, id: string, email: string, hash: string, raw: string, lags: Lags)
    requires Valid(s) && id !in s.users && ':' !in id && Mail.Fresh(s.mail, raw)
    requires !EmailTaken(s.users, email) && !EndsWith(email, ADMIN_SUFFIX)
    ensures var joined := Step(s, SignUp(id, email, hash, raw));
            var verified := Step(joined, VerifyEmail(raw));
            && Step(joined, SignIn(id, email, true, lags)) == joined
            && |Step(verified, SignIn(id, email, true, lags)).issued|
                 == |s.issued| + (if (id, s.now / 1000) in s.sessions then 0 else 1)
  {
    SignUpEffect(s, id, email, hash, raw);
    var joined := Step(s, SignUp(id, email, hash, raw));
    StepKeepsValid(s, SignUp(id, email, hash, raw));
    VerifyingMarksTheAccount(joined, |s.mail.rows|);
    SignInHandsOutPairIff(Step(joined, VerifyEmail(raw)), SignIn(id, email, true, lags));
  }

  // ---- Sessions ---------------------------------------------------------------------------------------------

  /** A new session: its row expires seven days after the last clock read, and its pair is for the stored role. */
  lemma NewSessionEffect(s: State, id: string, role: Role, lags: Lags)
    ensures var key, after := (id, s.now / 1000), s.now + lags.access + lags.refresh + lags.row;
            var clock := MintClock(s.now, s.now + lags.access, s.now + lags.access + lags.refresh);
            var name := match role case User => "user" case Support => "support" case SuperAdmin => "super_admin";
            CreateSession(s, id, role, lags) ==
              if key in s.sessions then s.(now := after)
              else s.(now := after, sessions := s.sessions[key := SessionRow(after + 604800000, None)],
                      issued := s.issued + [GeneratePair(id, name, None, clock)])
  {
  }

  /** Only the right password of a verified account with one gets as far as a session. */
  lemma SignInEffect(s: State, id: string, email: string, passwordMatch: bool, lags: Lags)
    ensures Step(s, SignIn(id, email, passwordMatch, lags)) ==
              if id in s.users && s.users[id].email == Some(email) && s.users[id].passwordHash.Some?
                 && s.users[id].emailVerifiedAt.Some? && passwordMatch
              then CreateSession(s, id, s.users[id].role, lags)
              else s
  {
  }

  /** GitHub's first visit makes a verified user with role `user`, and a session, unless its address is taken. */
  lemma FirstGithubVisit(s: State, id: string, githubId: nat, email: Option<string>, lags: Lags)
    requires id !in s.users && ':' !in id
    requires forall u :: u in s.users ==> s.users[u].githubId != Some(githubId)
    ensures Step(s, GithubAuth(id, githubId, email, lags)) ==
              if email.Some? && exists u :: u in s.users && s.users[u].email == email then s
              else
                var row := UserRow(User, email, Some(githubId), None, Some(s.now), false);
                var joined := s.(users := s.users[id := row]);
                CreateSession(joined, id, User, lags)
  {
    if email.Some? {
      assert EmailTaken(s.users, email.value) <==> exists u :: u in s.users && s.users[u].email == email;
    }
  }

  /** A later visit takes over GitHub's address, verifies an account not yet verified, and keeps everything else. */
  lemma LaterGithubVisit(s: State, id: string, githubId: nat, email: Option<string>, lags: Lags)
    requires id in s.users && s.users[id].githubId == Some(githubId)
    ensures var was := s.users[id];
            var now := was.(email := if email.Some? then email else was.email,
                            emailVerifiedAt := if was.emailVerifiedAt.Some? then was.emailVerifiedAt else Some(s.now));
            Step(s, GithubAuth(id, githubId, email, lags)) ==
              if email.Some? && exists u :: u in s.users && u != id && s.users[u].email == email then s
              else CreateSession(s.(users := s.users[id := now]), id, was.role, lags)
  {
    if email.Some? {
      assert EmailTakenByAnother(s.users, email.value, id)
        <==> exists u :: u in s.users && u != id && s.users[u].email == email;
    }
  }

  /** Logging out with a handed-out refresh token revokes its session now, if it was not, and touches nothing else. */
  lemma LogoutEffect(s: State, i: nat)
    requires Valid(s) && i < |s.issued|
    ensures var key := (s.issued[i].refresh.claims.sub, s.issued[i].sit);
            && key in s.sessions
            && Step(s, Logout(Some(s.issued[i].refresh))) ==
                 if s.sessions[key].revokedAt.Some? then s
                 else s.(sessions := s.sessions[key := SessionRow(s.sessions[key].expiresAt, Some(s.now))])
    ensures Step(s, Logout(None)) == s
  {
    assert PairSound(s, s.issued[i]);
  }

  /** Nothing else logs anyone out: not a token of the other kind, nor one signed otherwise. */
  lemma BadLogoutDoesNothing(s: State, token: Jwt)
    requires token.claims.typ != Refresh || token.signedWith != RefreshSecret
    ensures Step(s, Logout(Some(token))) == s
  {
  }

  /**
   * A refresh past its read, and its landing: with lags of its own it mints for the admitted identity and the same
   * session number, and seven days from its last clock read is what it writes; the revocation is not written.
   */
  lemma RefreshEffect(s: State, op: nat, id: Identity, lags: Lags)
    requires op in s.pending && s.pending[op] == Admitted(id) && (id.userId, id.sit) in s.sessions
    ensures var key, after := (id.userId, id.sit), s.now + lags.access + lags.refresh + lags.row;
            var clock := MintClock(s.now, s.now + lags.access, s.now + lags.access + lags.refresh);
            Step(Step(s, RefreshMint(op, lags)), RefreshLand(op)) ==
              s.(now := after, pending := s.pending - {op},
                 issued := s.issued + [GeneratePair(id.userId, id.role, Some(id.sit), clock)],
                 sessions := s.sessions[key := SessionRow(after + 604800000, s.sessions[key].revokedAt)])
  {
    var after := s.now + lags.access + lags.refresh + lags.row;
    var clock := MintClock(s.now, s.now + lags.access, s.now + lags.access + lags.refresh);
    var pair := GeneratePair(id.userId, id.role, Some(id.sit), clock);
    var minted := s.(now := after, pending := s.pending[op := Minted(id, pair, after)]);
    assert Step(s, RefreshMint(op, lags)) == minted;
    LandWrites(minted, op, id, pair, after);
    assert minted.pending - {op} == s.pending - {op};
  }
}
