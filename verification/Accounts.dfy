/**
 * Accounts, mail tokens and sessions together. A run is a sequence of events under a millisecond clock that never
 * goes back. A refresh is three events, so others fall between: its row read, the minting of its pair, and the landing
 * of its partial-column update, after which the pair is handed out.
 */
module Accounts {
  import opened Basics
  import opened Tokens
  import Mail = MailTokens

  datatype Role = User | Support | SuperAdmin

  function RoleName(r: Role): string {
    match r
    case User => "user"
    case Support => "support"
    case SuperAdmin => "super_admin"
  }

  /** `seeded` marks rows that were in the table before the system started. */
  datatype UserRow = UserRow(
    role: Role,
    email: Option<string>,
    githubId: Option<nat>,
    passwordHash: Option<string>,
    emailVerifiedAt: Option<nat>,
    seeded: bool)

  datatype SessionRow = SessionRow(expiresAt: nat, revokedAt: Option<nat>)

  /** The unique index of the sessions table. */
  type SessionKey = (string, nat)

  /**
   * A refresh past its row read, and then past its minting: the pair it will hand out, and the clock from which it
   * computed the new expiry.
   */
  datatype Flight =
    | Admitted(id: Identity)
    | Minted(id: Identity, pair: TokenPair, at: nat)

  const SESSION_TTL_MS := 7 * 24 * 60 * 60 * 1000
  const ADMIN_SUFFIX := "@codeatlasadmin.com"

  /** `issued` lists every pair handed out; `pending` holds the refreshes past their row read. */
  datatype State = State(
    now: nat,
    users: map<string, UserRow>,
    mail: Mail.Table,
    sessions: map<SessionKey, SessionRow>,
    issued: seq<TokenPair>,
    pending: map<nat, Flight>)

  /** How much the clock moves between the successive clock reads of one event. */
  datatype Lags = Lags(access: nat, refresh: nat, row: nat)

  datatype Event =
    | Tick(ms: nat)
    | SignUp(id: string, email: string, passwordHash: string, raw: string)
    | ForgotPassword(id: string, raw: string)
    | VerifyEmail(raw: string)
    | ResetPassword(raw: string, passwordHash: string)
    | SignIn(id: string, email: string, passwordMatch: bool, lags: Lags)
    | GithubAuth(id: string, githubId: nat, githubEmail: Option<string>, lags: Lags)
    | RefreshRead(op: nat, access: Option<Jwt>, refresh: Option<Jwt>)
    | RefreshMint(op: nat, lags: Lags)
    | RefreshLand(op: nat)
    | Logout(refresh: Option<Jwt>)

  function Init(seeds: map<string, UserRow>): State {
    State(0, seeds, Mail.Table([], []), map[], [], map[])
  }

  predicate EndsWith(s: string, suffix: string) {
    |suffix| <= |s| && s[|s| - |suffix|..] == suffix
  }

  predicate EmailTaken(users: map<string, UserRow>, email: string) {
    exists u :: u in users && users[u].email == Some(email)
  }

  predicate EmailTakenByAnother(users: map<string, UserRow>, email: string, id: string) {
    exists u :: u in users && u != id && users[u].email == Some(email)
  }

  predicate GithubKnown(users: map<string, UserRow>, githubId: nat) {
    exists u :: u in users && users[u].githubId == Some(githubId)
  }

  /** A refresh token carrying the service's own signature is one the service handed out. */
  predicate Presentable(s: State, refresh: Option<Jwt>) {
    (refresh.Some? && refresh.value.signedWith == RefreshSecret)
      ==> exists i :: 0 <= i < |s.issued| && s.issued[i].refresh == refresh.value
  }

  function Clock(now: nat, lags: Lags): MintClock {
    MintClock(now, now + lags.access, now + lags.access + lags.refresh)
  }

  function After(now: nat, lags: Lags): nat {
    now + lags.access + lags.refresh + lags.row
  }

  /** `createSession`: mint, then insert; the insert loses to an existing (user, sit) row and nothing is returned. */
  function CreateSession(s: State, id: string, role: Role, lags: Lags): State {
    var pair := GeneratePair(id, RoleName(role), None, Clock(s.now, lags));
    var after := After(s.now, lags);
    if (id, pair.sit) in s.sessions then s.(now := after)
    else s.(now := after,
            sessions := s.sessions[(id, pair.sit) := SessionRow(after + SESSION_TTL_MS, None)],
            issued := s.issued + [pair])
  }

  function StepSignUp(s: State, e: Event): State
    requires e.SignUp?
  {
    if EmailTaken(s.users, e.email) || EndsWith(e.email, ADMIN_SUFFIX) then s
    else if e.id in s.users || !ColonFree(e.id) || !Mail.Fresh(s.mail, e.raw) then s
    else s.(users := s.users[e.id := UserRow(User, Some(e.email), None, Some(e.passwordHash), None, false)],
            mail := Mail.Issue(s.mail, e.id, Mail.Verification, e.raw, s.now))
  }

  function StepForgotPassword(s: State, e: Event): State
    requires e.ForgotPassword?
  {
    if e.id !in s.users || s.users[e.id].email.None? || !Mail.Fresh(s.mail, e.raw) then s
    else s.(mail := Mail.Issue(s.mail, e.id, Mail.PassReset, e.raw, s.now))
  }

  function StepVerifyEmail(s: State, e: Event): State
    requires e.VerifyEmail?
  {
    match Mail.Check(s.mail, e.raw, Mail.Verification, s.now)
    case Err(_) => s
    case Ok(i) =>
      var id := s.mail.rows[i].userId;
      var t := s.(mail := Mail.Redeem(s.mail, i, s.now));
      if id in s.users then t.(users := s.users[id := s.users[id].(emailVerifiedAt := Some(s.now))]) else t
  }

  function StepResetPassword(s: State, e: Event): State
    requires e.ResetPassword?
  {
    match Mail.Check(s.mail, e.raw, Mail.PassReset, s.now)
    case Err(_) => s
    case Ok(i) =>
      var id := s.mail.rows[i].userId;
      var t := s.(mail := Mail.Redeem(s.mail, i, s.now));
      if id in s.users then t.(users := s.users[id := s.users[id].(passwordHash := Some(e.passwordHash))]) else t
  }

  function StepSignIn(s: State, e: Event): State
    requires e.SignIn?
  {
    if e.id !in s.users || s.users[e.id].email != Some(e.email) then s
    else if s.users[e.id].passwordHash.None? || s.users[e.id].emailVerifiedAt.None? || !e.passwordMatch then s
    else CreateSession(s, e.id, s.users[e.id].role, e.lags)
  }

  /** The row `githubAuth` leaves for the account, or nothing when a unique index refuses the save. */
  function GithubRow(s: State, e: Event): Option<UserRow>
    requires e.GithubAuth?
  {
    if e.id in s.users then
      var u := s.users[e.id];
      if u.githubId != Some(e.githubId) then None
      else if e.githubEmail.Some? && EmailTakenByAnother(s.users, e.githubEmail.value, e.id) then None
      else Some(u.(email := if e.githubEmail.Some? then e.githubEmail else u.email,
                   emailVerifiedAt := if u.emailVerifiedAt.Some? then u.emailVerifiedAt else Some(s.now)))
    else if GithubKnown(s.users, e.githubId) || !ColonFree(e.id) then None
    else if e.githubEmail.Some? && EmailTaken(s.users, e.githubEmail.value) then None
    else Some(UserRow(User, e.githubEmail, Some(e.githubId), None, Some(s.now), false))
  }

  function StepGithubAuth(s: State, e: Event): State
    requires e.GithubAuth?
  {
    var row := GithubRow(s, e);
    if row.None? then s
    else CreateSession(s.(users := s.users[e.id := row.value]), e.id, row.value.role, e.lags)
  }

  function StepRefreshRead(s: State, e: Event): State
    requires e.RefreshRead?
  {
    if e.op in s.pending || !Presentable(s, e.refresh) then s
    else
      match VerifyRefreshPair(e.access, e.refresh, s.now)
      case Err(_) => s
      case Ok(id) =>
        var key := (id.userId, id.sit);
        if key !in s.sessions || s.sessions[key].revokedAt.Some? then s
        else s.(pending := s.pending[e.op := Admitted(id)])
  }

  /** `generatePair`, then the clock read for `expiresAt`; nothing is stored or handed out yet. */
  function StepRefreshMint(s: State, e: Event): State
    requires e.RefreshMint?
  {
    if e.op !in s.pending || s.pending[e.op].Minted? then s
    else
      var id, after := s.pending[e.op].id, After(s.now, e.lags);
      var pair := GeneratePair(id.userId, id.role, Some(id.sit), Clock(s.now, e.lags));
      s.(now := after, pending := s.pending[e.op := Minted(id, pair, after)])
  }

  function KeyOf(id: Identity): SessionKey {
    (id.userId, id.sit)
  }

  /** The update of `expiresAt` reaches the table; `revokedAt` is not among the columns written. */
  function StepRefreshLand(s: State, e: Event): State
    requires e.RefreshLand?
  {
    if e.op !in s.pending || s.pending[e.op].Admitted? then s
    else
      var flight := s.pending[e.op];
      var key := KeyOf(flight.id);
      var t := s.(pending := s.pending - {e.op}, issued := s.issued + [flight.pair]);
      if key !in s.sessions then t
      else t.(sessions := s.sessions[key := s.sessions[key].(expiresAt := flight.at + SESSION_TTL_MS)])
  }

  function StepLogout(s: State, e: Event): State
    requires e.Logout?
  {
    if !Presentable(s, e.refresh) then s
    else
      match DecodeRefresh(e.refresh, s.now)
      case Err(_) => s
      case Ok(key) =>
        if key !in s.sessions || s.sessions[key].revokedAt.Some? then s
        else s.(sessions := s.sessions[key := s.sessions[key].(revokedAt := Some(s.now))])
  }

  function Step(s: State, e: Event): State {
    match e
    case Tick(ms) => s.(now := s.now + ms)
    case SignUp(_, _, _, _) => StepSignUp(s, e)
    case ForgotPassword(_, _) => StepForgotPassword(s, e)
    case VerifyEmail(_) => StepVerifyEmail(s, e)
    case ResetPassword(_, _) => StepResetPassword(s, e)
    case SignIn(_, _, _, _) => StepSignIn(s, e)
    case GithubAuth(_, _, _, _) => StepGithubAuth(s, e)
    case RefreshRead(_, _, _) => StepRefreshRead(s, e)
    case RefreshMint(_, _) => StepRefreshMint(s, e)
    case RefreshLand(_) => StepRefreshLand(s, e)
    case Logout(_) => StepLogout(s, e)
  }

  function Run(s: State, es: seq<Event>): State
    decreases |es|
  {
    if es == [] then s else Run(Step(s, es[0]), es[1..])
  }

  /** The sessions `getActiveSessions` finds: not revoked, and expiring strictly later than now. */
  predicate Active(s: State, key: SessionKey) {
    key in s.sessions && s.sessions[key].revokedAt.None? && s.sessions[key].expiresAt > s.now
  }
}
