/** The identity services as code that updates tables in place, each call proved to be the matching event. */
module AccountService {
  import opened Basics
  import opened Tokens
  import opened Accounts
  import Mail = MailTokens

  datatype AuthError =
    | EmailRegistered | AdminEmail | InvalidCredentials | EmailNotVerified | UniqueViolation
    | SessionRevoked | BadPair(error: TokenError) | BadMail(mail: Mail.MailError)

  /** The three events of a refresh when nothing falls between them. */
  function WholeRefresh(s: State, op: nat, access: Option<Jwt>, refresh: Option<Jwt>, lags: Lags): State {
    Step(Step(Step(s, RefreshRead(op, access, refresh)), RefreshMint(op, lags)), RefreshLand(op))
  }

  predicate LetIn(s: State, access: Option<Jwt>, refresh: Option<Jwt>) {
    var v := VerifyRefreshPair(access, refresh, s.now);
    v.Ok? && KeyOf(v.value) in s.sessions && s.sessions[KeyOf(v.value)].revokedAt.None?
  }

  lemma AcceptedRefresh(s: State, op: nat, access: Option<Jwt>, refresh: Option<Jwt>, lags: Lags)
    requires op !in s.pending && Presentable(s, refresh) && LetIn(s, access, refresh)
    ensures var id, after := VerifyRefreshPair(access, refresh, s.now).value, After(s.now, lags);
            WholeRefresh(s, op, access, refresh, lags) ==
              s.(now := after,
                 sessions := s.sessions[KeyOf(id) := s.sessions[KeyOf(id)].(expiresAt := after + SESSION_TTL_MS)],
                 issued := s.issued + [GeneratePair(id.userId, id.role, Some(id.sit), Clock(s.now, lags))])
  {
    var id, after := VerifyRefreshPair(access, refresh, s.now).value, After(s.now, lags);
    var pair := GeneratePair(id.userId, id.role, Some(id.sit), Clock(s.now, lags));
    var read := s.(pending := s.pending[op := Admitted(id)]);
    assert read == Step(s, RefreshRead(op, access, refresh));
    var minted := s.(now := after, pending := s.pending[op := Minted(id, pair, after)]);
    assert minted == Step(read, RefreshMint(op, lags));
    assert minted.pending - {op} == s.pending;
  }

  lemma RefusedRefresh(s: State, op: nat, access: Option<Jwt>, refresh: Option<Jwt>, lags: Lags)
    requires op !in s.pending && !LetIn(s, access, refresh)
    ensures WholeRefresh(s, op, access, refresh, lags) == s
  {
  }

  /** An unverified account is told so before its password is looked at, and every other refusal is the same. */
  function SignInRefusal(users: map<string, UserRow>, id: string, email: string, passwordMatch: bool)
    : Option<AuthError>
  {
    if id in users && users[id].email == Some(email) && users[id].passwordHash.Some? then
      if users[id].emailVerifiedAt.None? then Some(EmailNotVerified)
      else if passwordMatch then None else Some(InvalidCredentials)
    else Some(InvalidCredentials)
  }

  class Identities {
    var now: nat
    var users: map<string, UserRow>
    var mailRows: seq<Mail.Row>
    var sessions: map<SessionKey, SessionRow>
    ghost var redeemed: seq<Mail.Redemption>
    ghost var issued: seq<TokenPair>
    ghost var pending: map<nat, Flight>

    ghost function View(): State
      reads this
    {
      State(now, users, Mail.Table(mailRows, redeemed), sessions, issued, pending)
    }

    constructor (seeds: map<string, UserRow>)
      ensures View() == Init(seeds)
    {
      now, users, mailRows, sessions := 0, seeds, [], map[];
      redeemed, issued, pending := [], [], map[];
    }

    // ---- VerificationService --------------------------------------------------------------------------------

    /** `issueToken`: retire the unused tokens of the same user and type, then store the new hash. */
    method IssueToken(userId: string, typ: Mail.TokenType, raw: string)
      modifies this`mailRows
      ensures Mail.Table(mailRows, redeemed) == Mail.Issue(old(Mail.Table(mailRows, redeemed)), userId, typ, raw, now)
    {
      var rows, at := mailRows, now;
      mailRows := seq(|rows|, i requires 0 <= i < |rows| =>
        if rows[i].userId == userId && rows[i].typ == typ && rows[i].usedAt.None?
        then rows[i].(usedAt := Some(at)) else rows[i]);
      assert mailRows == seq(|rows|, i requires 0 <= i < |rows| => Mail.Retire(rows[i], userId, typ, at));
      mailRows := mailRows + [Mail.Row(userId, typ, Mail.Sha256(raw), now + Mail.TOKEN_TTL_MS, None)];
    }

    /** The lookup and `assertTokenValid` shared by both redemptions. */
    method FindValid(raw: string, typ: Mail.TokenType) returns (r: Result<nat, Mail.MailError>)
      ensures Mail.Valid(View().mail) ==> (r.Ok? <==> Mail.Redeemable(View().mail, raw, typ, now))
      ensures r.Ok? ==> r.value < |mailRows| && mailRows[r.value].hash == Mail.Sha256(raw)
      ensures r == Mail.Check(View().mail, raw, typ, now)
    {
      if Mail.Valid(View().mail) {
        Mail.RedeemableIff(View().mail, raw, typ, now);
      }
      var record := Mail.Find(mailRows, Mail.Sha256(raw), typ);
      if record.None? {
        return Err(Mail.Unknown);
      }
      if mailRows[record.value].usedAt.Some? {
        return Err(Mail.AlreadyUsed);
      }
      if mailRows[record.value].expiresAt < now {
        return Err(Mail.Expired);
      }
      r := Ok(record.value);
    }

    method VerifyEmail(raw: string) returns (error: Option<AuthError>)
      modifies this
      ensures View() == Step(old(View()), Event.VerifyEmail(raw))
      ensures error == match Mail.Check(old(View()).mail, raw, Mail.Verification, old(now))
                       case Ok(_) => None
                       case Err(refusal) => Some(BadMail(refusal))
    {
      var record := FindValid(raw, Mail.Verification);
      if record.Err? {
        return Some(BadMail(record.error));
      }
      var i := record.value;
      var userId := mailRows[i].userId;
      if userId in users {
        users := users[userId := users[userId].(emailVerifiedAt := Some(now))];
      }
      mailRows := mailRows[i := mailRows[i].(usedAt := Some(now))];
      redeemed := redeemed + [Mail.Redemption(i, now, |mailRows|)];
      error := None;
    }

    method ResetPassword(raw: string, passwordHash: string) returns (error: Option<AuthError>)
      modifies this
      ensures View() == Step(old(View()), Event.ResetPassword(raw, passwordHash))
      ensures error == match Mail.Check(old(View()).mail, raw, Mail.PassReset, old(now))
                       case Ok(_) => None
                       case Err(refusal) => Some(BadMail(refusal))
    {
      var record := FindValid(raw, Mail.PassReset);
      if record.Err? {
        return Some(BadMail(record.error));
      }
      var i := record.value;
      var userId := mailRows[i].userId;
      if userId in users {
        users := users[userId := users[userId].(passwordHash := Some(passwordHash))];
      }
      mailRows := mailRows[i := mailRows[i].(usedAt := Some(now))];
      redeemed := redeemed + [Mail.Redemption(i, now, |mailRows|)];
      error := None;
    }

    // ---- SessionService -------------------------------------------------------------------------------------

    method CreateSession(id: string, role: Role, lags: Lags) returns (r: Result<TokenPair, AuthError>)
      modifies this
      ensures View() == Accounts.CreateSession(old(View()), id, role, lags)
      ensures r.Ok? ==> issued == old(issued) + [r.value] && (id, r.value.sit) in sessions
      ensures r.Err? ==> r.error == UniqueViolation && issued == old(issued) && sessions == old(sessions)
      ensures r.Ok? <==> (id, old(now) / 1000) !in old(sessions)
    {
      var tokens := GeneratePair(id, RoleName(role), None, Clock(now, lags));
      now := After(now, lags);
      var key := (id, tokens.sit);
      if key in sessions {
        return Err(UniqueViolation);
      }
      sessions := sessions[key := SessionRow(now + SESSION_TTL_MS, None)];
      issued := issued + [tokens];
      r := Ok(tokens);
    }

    /** `refresh` without interruption: its read, its minting and its landing. */
    method Refresh(ghost op: nat, access: Option<Jwt>, refresh: Option<Jwt>, lags: Lags)
      returns (r: Result<TokenPair, AuthError>)
      requires op !in pending && Presentable(View(), refresh)
      modifies this
      ensures View() == WholeRefresh(old(View()), op, access, refresh, lags)
      ensures r.Ok? ==> issued == old(issued) + [r.value]
      ensures r.Err? ==> View() == old(View())
      ensures r.Err? ==> r.error == match VerifyRefreshPair(access, refresh, old(now))
                                    case Err(refusal) => BadPair(refusal)
                                    case Ok(_) => SessionRevoked
    {
      var verified := VerifyRefreshPair(access, refresh, now);
      if verified.Err? {
        RefusedRefresh(View(), op, access, refresh, lags);
        return Err(BadPair(verified.error));
      }
      var id := verified.value;
      var key := (id.userId, id.sit);
      if key !in sessions || sessions[key].revokedAt.Some? {
        RefusedRefresh(View(), op, access, refresh, lags);
        return Err(SessionRevoked);
      }
      AcceptedRefresh(View(), op, access, refresh, lags);
      var newPair := GeneratePair(id.userId, id.role, Some(id.sit), Clock(now, lags));
      now := After(now, lags);
      sessions := sessions[key := sessions[key].(expiresAt := now + SESSION_TTL_MS)];
      issued := issued + [newPair];
      r := Ok(newPair);
    }

    method Logout(refresh: Option<Jwt>)
      requires Presentable(View(), refresh)
      modifies this
      ensures View() == Step(old(View()), Event.Logout(refresh))
      ensures issued == old(issued) && users == old(users)
    {
      var decoded := DecodeRefresh(refresh, now);
      if decoded.Err? {
        return;
      }
      var key := decoded.value;
      if key in sessions && sessions[key].revokedAt.None? {
        sessions := sessions[key := sessions[key].(revokedAt := Some(now))];
      }
    }

    // ---- AuthService ----------------------------------------------------------------------------------------

    method SignUp(id: string, email: string, passwordHash: string, raw: string) returns (error: Option<AuthError>)
      requires id !in users && ColonFree(id) && Mail.Fresh(View().mail, raw)
      modifies this
      ensures View() == Step(old(View()), Event.SignUp(id, email, passwordHash, raw))
      ensures error == if EmailTaken(old(users), email) then Some(EmailRegistered)
                       else if EndsWith(email, ADMIN_SUFFIX) then Some(AdminEmail) else None
      ensures error.None? ==> id in users && users[id].emailVerifiedAt.None? && sessions == old(sessions)
    {
      if exists u :: u in users && users[u].email == Some(email) {
        return Some(EmailRegistered);
      }
      if EndsWith(email, ADMIN_SUFFIX) {
        return Some(AdminEmail);
      }
      users := users[id := UserRow(User, Some(email), None, Some(passwordHash), None, false)];
      IssueToken(id, Mail.Verification, raw);
      error := None;
    }

    method SignIn(id: string, email: string, passwordMatch: bool, lags: Lags) returns (r: Result<TokenPair, AuthError>)
      modifies this
      ensures View() == Step(old(View()), Event.SignIn(id, email, passwordMatch, lags))
      ensures var refusal := SignInRefusal(old(users), id, email, passwordMatch);
              if refusal.Some? then r == Err(refusal.value)
              else if (id, old(now) / 1000) in old(sessions) then r == Err(UniqueViolation)
              else r.Ok? && issued == old(issued) + [r.value]
    {
      if id !in users || users[id].email != Some(email) {
        return Err(InvalidCredentials);
      }
      var user := users[id];
      if user.passwordHash.None? {
        return Err(InvalidCredentials);
      }
      if user.emailVerifiedAt.None? {
        return Err(EmailNotVerified);
      }
      if !passwordMatch {
        return Err(InvalidCredentials);
      }
      r := CreateSession(id, user.role, lags);
    }

    /** `githubAuth`; `id` is the row found by GitHub id, or the fresh id of the row to insert. */
    method GithubAuth(id: string, githubId: nat, email: Option<string>, lags: Lags)
      returns (r: Result<TokenPair, AuthError>)
      requires if id in users then users[id].githubId == Some(githubId)
               else !GithubKnown(users, githubId) && ColonFree(id)
      modifies this
      ensures View() == Step(old(View()), Event.GithubAuth(id, githubId, email, lags))
      ensures r.Ok? ==> id in users && users[id].emailVerifiedAt.Some? && issued == old(issued) + [r.value]
      ensures r == Err(UniqueViolation) <==>
                || (exists u :: u in old(users) && u != id && email.Some? && old(users)[u].email == email)
                || (id, old(now) / 1000) in old(sessions)
      ensures r.Err? ==> r.error == UniqueViolation
    {
      if id !in users {
        if email.Some? && EmailTaken(users, email.value) {
          return Err(UniqueViolation);
        }
        users := users[id := UserRow(User, email, Some(githubId), None, Some(now), false)];
      } else {
        var user := users[id];
        if email.Some? && EmailTakenByAnother(users, email.value, id) {
          return Err(UniqueViolation);
        }
        var kept := if email.Some? then email else user.email;
        var verified := if user.emailVerifiedAt.Some? then user.emailVerifiedAt else Some(now);
        users := users[id := user.(email := kept, emailVerifiedAt := verified)];
      }
      r := CreateSession(id, users[id].role, lags);
    }
  }
}
